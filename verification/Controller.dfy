/**
 The control message queue (app/src/controller.c): any number of threads push messages and
 resize requests; one worker waits on a condition, takes a resize request or the oldest
 message, and sends it outside the mutex.

 A section under the mutex is one step; waiting on the condition gives the mutex up, so a
 blocked worker is a state of its own, with the signal it may have received.
 */
module Controller {
  import opened Common

  const QUEUE_LIMIT := 60

  datatype Kind = UhidCreate | UhidDestroy | Other

  datatype Msg = Msg(kind: Kind, content: int) {
    predicate Droppable() { !kind.UhidCreate? && !kind.UhidDestroy? }
  }

  datatype Size = Size(width: nat, height: nat)

  /** What the worker sends. */
  datatype Output = Queued(msg: Msg) | Resize(size: Size)

  datatype Worker =
    | Ready                       // about to lock the mutex
    | Blocked(signalled: bool)    // waiting on the condition
    | Sending(output: Output)
    | Finished

  /** The fields that the mutex protects. */
  datatype Shared = Shared(stopped: bool, resize: Size, queue: seq<Msg>)

  datatype State = State(
    shared: Shared,
    worker: Worker,
    accepted: seq<Msg>,        // messages that were pushed
    requests: seq<Size>,       // sizes that were requested
    taken: seq<Output>,        // outputs taken by the worker, in order
    sent: seq<Output>,         // outputs sent
    failed: bool)              // the last taken output could not be sent

  function Initial(): State { State(Shared(false, Size(0, 0), []), Ready, [], [], [], [], false) }

  // ----- The sections under the mutex

  /** After pushing: the shared fields, whether the message was pushed, whether the condition is signalled. */
  function Push(s: Shared, m: Msg): (Shared, bool, bool) {
    if |s.queue| < QUEUE_LIMIT then (s.(queue := s.queue + [m]), true, s.queue == [])
    else if !m.Droppable() then (s.(queue := s.queue + [m]), true, false)
    else (s, false, false)
  }

  function RequestResize(s: Shared, size: Size): (Shared, bool) {
    (s.(resize := size), s.resize.width == 0)
  }

  predicate MustWait(s: Shared) { !s.stopped && s.resize.width == 0 && s.queue == [] }

  /** What the worker takes when it need not wait; nothing when stopped. */
  function Take(s: Shared): (Shared, Option<Output>)
    requires !MustWait(s)
  {
    if s.stopped then (s, None)
    else if s.resize.width != 0 then (s.(resize := Size(0, 0)), Some(Resize(s.resize)))
    else (s.(queue := s.queue[1..]), Some(Queued(s.queue[0])))
  }

  // ----- Steps

  datatype Step =
    | PushStep(m: Msg)
    | ResizeStep(size: Size)
    | StopStep
    | LockStep                  // the worker locks the mutex, woken or not having waited
    | SpuriousStep              // a blocked worker wakes up without a signal
    | SendStep(ok: bool)

  /** The callers' assertion: a requested size is not empty. */
  predicate Allowed(step: Step) { step.ResizeStep? ==> step.size.width > 0 && step.size.height > 0 }

  function Signal(worker: Worker): Worker { if worker.Blocked? then Blocked(true) else worker }

  function Lock(s: State): State {
    if MustWait(s.shared) then s.(worker := Blocked(false))
    else
      var (shared, output) := Take(s.shared);
      if output.None? then s.(worker := Finished)
      else s.(shared := shared, worker := Sending(output.value), taken := s.taken + [output.value])
  }

  function Next(s: State, step: Step): State {
    match step
    case PushStep(m) =>
      var (shared, pushed, signal) := Push(s.shared, m);
      s.(shared := shared, accepted := if pushed then s.accepted + [m] else s.accepted,
         worker := if signal then Signal(s.worker) else s.worker)
    case ResizeStep(size) =>
      var (shared, signal) := RequestResize(s.shared, size);
      s.(shared := shared, requests := s.requests + [size],
         worker := if signal then Signal(s.worker) else s.worker)
    case StopStep => s.(shared := s.shared.(stopped := true), worker := Signal(s.worker))
    case LockStep => if s.worker.Ready? || s.worker == Blocked(true) then Lock(s) else s
    case SpuriousStep => if s.worker.Blocked? then Lock(s) else s
    case SendStep(ok) =>
      if !s.worker.Sending? then s
      else if ok then s.(worker := Ready, sent := s.sent + [s.worker.output])
      else s.(worker := Finished, failed := true)
  }

  function After(run: seq<Step>): State {
    if run == [] then Initial() else Next(After(run[..|run| - 1]), run[|run| - 1])
  }

  predicate AllAllowed(run: seq<Step>) { forall i :: 0 <= i < |run| ==> Allowed(run[i]) }

  // ----- Reading the history

  function Messages(outputs: seq<Output>): seq<Msg> {
    if outputs == [] then []
    else
      var rest, last := Messages(outputs[..|outputs| - 1]), outputs[|outputs| - 1];
      if last.Queued? then rest + [last.msg] else rest
  }

  function Resizes(outputs: seq<Output>): seq<Size> {
    if outputs == [] then []
    else
      var rest, last := Resizes(outputs[..|outputs| - 1]), outputs[|outputs| - 1];
      if last.Resize? then rest + [last.size] else rest
  }

  function DroppableCount(queue: seq<Msg>): nat {
    if queue == [] then 0
    else DroppableCount(queue[..|queue| - 1]) + if queue[|queue| - 1].Droppable() then 1 else 0
  }

  lemma {:induction false} DroppableTail(queue: seq<Msg>)
    requires queue != []
    ensures DroppableCount(queue[1..]) <= DroppableCount(queue)
  {
    if |queue| > 1 {
      var front := queue[..|queue| - 1];
      DroppableTail(front);
      assert queue[1..][..|queue| - 2] == front[1..];
    }
  }

  lemma {:induction false} DroppableAtMostLength(queue: seq<Msg>)
    ensures DroppableCount(queue) <= |queue|
  {
    if queue != [] {
      DroppableAtMostLength(queue[..|queue| - 1]);
    }
  }

  // ----- The invariant

  /** No wake-up is lost although only the first push and the first request signal. */
  ghost predicate WakeInv(shared: Shared, worker: Worker) { worker == Blocked(false) ==> MustWait(shared) }

  /** Taken and queued messages are the accepted ones, in order. */
  ghost predicate OrderInv(accepted: seq<Msg>, taken: seq<Msg>, queue: seq<Msg>) { accepted == taken + queue }

  predicate Ends(sizes: seq<Size>, last: Size) { sizes != [] && sizes[|sizes| - 1] == last }

  /** The newest request is pending, or it was the last one taken. */
  ghost predicate ResizeInv(resize: Size, requests: seq<Size>, taken: seq<Size>) {
    if resize.width != 0 then requests != [] && resize == requests[|requests| - 1]
    else requests == [] || Ends(taken, requests[|requests| - 1])
  }

  /** What was taken is what was sent, and then the output being sent or the one that failed. */
  ghost predicate SentInv(taken: seq<Output>, sent: seq<Output>, worker: Worker, failed: bool) {
    && (failed ==> worker.Finished?)
    && (if worker.Sending? then taken == sent + [worker.output]
        else if failed then taken != [] && sent == taken[..|taken| - 1]
        else taken == sent)
  }

  ghost predicate Inv(s: State) {
    && SentInv(s.taken, s.sent, s.worker, s.failed)
    && WakeInv(s.shared, s.worker)
    && OrderInv(s.accepted, Messages(s.taken), s.shared.queue)
    && ResizeInv(s.shared.resize, s.requests, Resizes(s.taken))
    && DroppableCount(s.shared.queue) <= QUEUE_LIMIT
  }

  lemma DroppableAppend(queue: seq<Msg>, m: Msg)
    requires DroppableCount(queue) <= QUEUE_LIMIT && (m.Droppable() ==> |queue| < QUEUE_LIMIT)
    ensures DroppableCount(queue + [m]) <= QUEUE_LIMIT
  {
    assert (queue + [m])[..|queue + [m]| - 1] == queue;
    DroppableAtMostLength(queue);
  }

  lemma PushKeepsInv(s: State, m: Msg)
    requires Inv(s)
    ensures Inv(Next(s, PushStep(m)))
  {
    var (shared, pushed, signal) := Push(s.shared, m);
    if pushed {
      DroppableAppend(s.shared.queue, m);
      Assoc(Messages(s.taken), s.shared.queue, [m]);
    }
  }

  lemma TakenAppend(taken: seq<Output>, output: Output)
    ensures Messages(taken + [output]) == if output.Queued? then Messages(taken) + [output.msg] else Messages(taken)
    ensures Resizes(taken + [output]) == if output.Resize? then Resizes(taken) + [output.size] else Resizes(taken)
  {
    assert (taken + [output])[..|taken + [output]| - 1] == taken;
  }

  lemma TakeResizeKeepsInv(s: State)
    requires Inv(s) && (s.worker.Ready? || s.worker.Blocked?) && !s.shared.stopped && s.shared.resize.width != 0
    ensures Inv(Lock(s))
  {
    TakenAppend(s.taken, Resize(s.shared.resize));
    EndsAppend(Resizes(s.taken), s.shared.resize);
  }

  lemma EndsAppend(sizes: seq<Size>, last: Size)
    ensures Ends(sizes + [last], last)
  {
  }

  lemma TakeMsgKeepsInv(s: State)
    requires Inv(s) && (s.worker.Ready? || s.worker.Blocked?)
    requires !s.shared.stopped && s.shared.resize.width == 0 && s.shared.queue != []
    ensures Inv(Lock(s))
  {
    var queue := s.shared.queue;
    TakenAppend(s.taken, Queued(queue[0]));
    DroppableTail(queue);
    HeadAndTail(queue);
    Assoc(Messages(s.taken), [queue[0]], queue[1..]);
  }

  lemma LockKeepsInv(s: State)
    requires Inv(s) && (s.worker.Ready? || s.worker.Blocked?)
    ensures Inv(Lock(s))
  {
    if !s.shared.stopped && s.shared.resize.width != 0 {
      TakeResizeKeepsInv(s);
    } else if !s.shared.stopped && s.shared.queue != [] {
      TakeMsgKeepsInv(s);
    }
  }

  lemma ResizeKeepsInv(s: State, size: Size)
    requires Inv(s) && size.width > 0
    ensures Inv(Next(s, ResizeStep(size)))
  {
  }

  lemma StepKeepsInv(s: State, step: Step, t: State)
    requires Inv(s) && Allowed(step) && t == Next(s, step)
    ensures Inv(t)
  {
    match step
    case PushStep(m) => PushKeepsInv(s, m);
    case ResizeStep(size) => ResizeKeepsInv(s, size);
    case LockStep =>
      if s.worker.Ready? || s.worker == Blocked(true) {
        LockKeepsInv(s);
      }
    case SpuriousStep =>
      if s.worker.Blocked? {
        LockKeepsInv(s);
      }
    case _ =>
  }

  lemma {:induction false} RunKeepsInv(run: seq<Step>)
    requires AllAllowed(run)
    ensures Inv(After(run))
  {
    if run != [] {
      var front := run[..|run| - 1];
      RunKeepsInv(front);
      assert Allowed(run[|run| - 1]);
      StepKeepsInv(After(front), run[|run| - 1], After(run));
    }
  }

  // ----- The main results, for every run

  /** A worker that waits unsignalled has nothing to do: no wake-up is lost. */
  lemma {:induction false} NoLostWakeUp(run: seq<Step>)
    requires AllAllowed(run)
    ensures After(run).worker == Blocked(false) ==>
              var s := After(run).shared;
              !s.stopped && s.resize.width == 0 && s.queue == []
  {
    RunKeepsInv(run);
  }

  /** The messages that the worker has in hand: being sent, or not sendable. */
  function InHand(s: State): seq<Output> {
    if |s.taken| > |s.sent| then [s.taken[|s.taken| - 1]] else []
  }

  lemma {:induction false} MessagesAppend(a: seq<Output>, b: seq<Output>)
    ensures Messages(a + b) == Messages(a) + Messages(b)
    decreases |b|
  {
    if b == [] {
      assert a + b == a;
    } else {
      assert (a + b)[..|a + b| - 1] == a + b[..|b| - 1];
      MessagesAppend(a, b[..|b| - 1]);
    }
  }

  /** Every accepted message is sent once and in the order of acceptance, is in the worker's hand, or is queued. */
  lemma SentInOrder(run: seq<Step>)
    requires AllAllowed(run)
    ensures var s := After(run);
            && s.accepted == Messages(s.sent) + Messages(InHand(s)) + s.shared.queue
            && (InHand(s) != [] <==> s.worker.Sending? || s.failed)
  {
    RunKeepsInv(run);
    SentThenInHand(After(run));
  }

  lemma SentThenInHand(s: State)
    requires SentInv(s.taken, s.sent, s.worker, s.failed) && OrderInv(s.accepted, Messages(s.taken), s.shared.queue)
    ensures s.accepted == Messages(s.sent) + Messages(InHand(s)) + s.shared.queue
    ensures InHand(s) != [] <==> s.worker.Sending? || s.failed
  {
    assert s.taken == s.sent + InHand(s);
    MessagesAppend(s.sent, InHand(s));
  }

  /** The messages that the steps of a run push, accepted or not. */
  function Pushed(run: seq<Step>): seq<Msg> {
    if run == [] then []
    else
      var rest, last := Pushed(run[..|run| - 1]), run[|run| - 1];
      if last.PushStep? then rest + [last.m] else rest
  }

  /** UHID creations and destructions. */
  function Undroppable(msgs: seq<Msg>): seq<Msg> {
    if msgs == [] then []
    else
      var rest, last := Undroppable(msgs[..|msgs| - 1]), msgs[|msgs| - 1];
      if last.Droppable() then rest else rest + [last]
  }

  lemma UndroppableAppend(msgs: seq<Msg>, m: Msg)
    ensures Undroppable(msgs + [m]) == if m.Droppable() then Undroppable(msgs) else Undroppable(msgs) + [m]
  {
    assert (msgs + [m])[..|msgs|] == msgs;
  }

  lemma StepAccepts(s: State, step: Step)
    ensures var t := Next(s, step);
            t.accepted == if step.PushStep? && !(step.m.Droppable() && |s.shared.queue| >= QUEUE_LIMIT)
                          then s.accepted + [step.m] else s.accepted
  {
  }

  /** Over a whole run, the UHID creations and destructions accepted are exactly those pushed, in order. */
  lemma {:induction false} UhidAlwaysAccepted(run: seq<Step>)
    ensures Undroppable(After(run).accepted) == Undroppable(Pushed(run))
  {
    if run != [] {
      var front, step := run[..|run| - 1], run[|run| - 1];
      UhidAlwaysAccepted(front);
      StepAccepts(After(front), step);
      if step.PushStep? {
        UndroppableAppend(After(front).accepted, step.m);
        UndroppableAppend(Pushed(front), step.m);
      }
    }
  }

  /** The queue was full of messages when a push of the run turned its message away. */
  predicate TurnsAway(run: seq<Step>) {
    run != [] &&
    (TurnsAway(run[..|run| - 1])
     || (run[|run| - 1].PushStep? && run[|run| - 1].m.Droppable()
         && |After(run[..|run| - 1]).shared.queue| >= QUEUE_LIMIT))
  }

  /** Over a whole run, all pushed messages are accepted, in order, exactly when none met a full queue that could drop it. */
  lemma {:induction false} AcceptedExactly(run: seq<Step>)
    ensures |After(run).accepted| <= |Pushed(run)|
    ensures After(run).accepted == Pushed(run) <==> !TurnsAway(run)
    ensures TurnsAway(run) ==> |After(run).accepted| < |Pushed(run)|
  {
    if run != [] {
      var front := run[..|run| - 1];
      AcceptedExactly(front);
      StepAccepts(After(front), run[|run| - 1]);
    }
  }

  /** However many UHID messages are queued beside them, at most 60 droppable messages are. */
  lemma DroppableBounded(run: seq<Step>)
    requires AllAllowed(run)
    ensures DroppableCount(After(run).shared.queue) <= QUEUE_LIMIT
  {
    RunKeepsInv(run);
  }

  /** With a request pending, the worker's next section, woken or not having waited, takes the newest size, ahead of the queue. */
  lemma NewestSizeTakenFirst(run: seq<Step>)
    requires AllAllowed(run) && (After(run).worker.Ready? || After(run).worker.Blocked?)
    requires !After(run).shared.stopped && After(run).shared.resize.width != 0
    ensures var s := After(run);
            s.requests != [] && After(run + [LockStep]).worker == Sending(Resize(s.requests[|s.requests| - 1]))
  {
    RunKeepsInv(run);
    assert (run + [LockStep])[..|run|] == run;
    SizeTakenNext(After(run));
  }

  lemma SizeTakenNext(s: State)
    requires (s.worker.Ready? || s.worker.Blocked?) && !s.shared.stopped && s.shared.resize.width != 0
    requires WakeInv(s.shared, s.worker) && ResizeInv(s.shared.resize, s.requests, Resizes(s.taken))
    ensures s.requests != [] && Next(s, LockStep).worker == Sending(Resize(s.requests[|s.requests| - 1]))
  {
  }

  /** The display does not stay at a stale size: once no request is pending, the newest was the last taken. */
  lemma NoStaleSize(run: seq<Step>)
    requires AllAllowed(run)
    ensures var s := After(run);
            s.requests != [] && s.shared.resize.width == 0 ==>
              Ends(Resizes(s.taken), s.requests[|s.requests| - 1])
  {
    RunKeepsInv(run);
  }

  lemma StoppedStep(s: State, step: Step)
    requires s.shared.stopped
    ensures Next(s, step).taken == s.taken && Next(s, step).shared.stopped
  {
  }

  /** After a stop nothing more is taken, whatever is queued. */
  lemma {:induction false} NothingTakenAfterStop(run: seq<Step>, more: seq<Step>)
    requires After(run).shared.stopped
    ensures After(run + more).taken == After(run).taken && After(run + more).shared.stopped
    decreases |more|
  {
    if more == [] {
      assert run + more == run;
    } else {
      var all, front := run + more, more[..|more| - 1];
      assert all[..|all| - 1] == run + front;
      NothingTakenAfterStop(run, front);
      StoppedStep(After(run + front), all[|all| - 1]);
    }
  }

  // ----- The structure itself

  class Controller {
    var stopped: bool
    var resizeWidth: nat
    var resizeHeight: nat
    var queue: seq<Msg>

    ghost function Value(): Shared
      reads this
    {
      Shared(stopped, Size(resizeWidth, resizeHeight), queue)
    }

    constructor ()
      ensures Value() == Initial().shared
    {
      stopped, resizeWidth, resizeHeight, queue := false, 0, 0, [];
    }

    method PushMsg(m: Msg) returns (pushed: bool, signal: bool)
      modifies this
      ensures (Value(), pushed, signal) == Push(old(Value()), m)
    {
      pushed, signal := false, false;
      if |queue| < QUEUE_LIMIT {
        var wasEmpty := queue == [];
        queue, pushed := queue + [m], true;
        signal := wasEmpty;
      } else if !m.Droppable() {
        queue, pushed := queue + [m], true;
      }
    }

    method ResizeDisplay(width: nat, height: nat) returns (signal: bool)
      requires width > 0 && height > 0
      modifies this
      ensures (Value(), signal) == RequestResize(old(Value()), Size(width, height))
    {
      var wasSet := resizeWidth != 0;
      resizeWidth, resizeHeight := width, height;
      signal := !wasSet;
    }

    method RequestStop() returns (signal: bool)
      modifies this
      ensures Value() == old(Value()).(stopped := true) && signal
    {
      stopped := true;
      signal := true;
    }

    /** The worker's section once its wait is over. */
    method TakeNext() returns (output: Option<Output>)
      requires !MustWait(Value())
      modifies this
      ensures (Value(), output) == Take(old(Value()))
    {
      if stopped {
        return None;
      }
      if resizeWidth != 0 {
        output := Some(Resize(Size(resizeWidth, resizeHeight)));
        resizeWidth, resizeHeight := 0, 0;
      } else {
        output := Some(Queued(queue[0]));
        queue := queue[1..];
      }
    }
  }
}
