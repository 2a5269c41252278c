/**
 The stall watchdog of the reverse-display sender (app/src/reverse_watchdog.h).

 `State` and its functions say what one call does; the class `Watchdog` is the
 structure the callers update in place under their mutex.  The second half of
 the module gives a history-based account of the same structure that never
 mentions a deadline, and proves that the deadline bookkeeping answers exactly
 that account.
 */
module Watchdog {

  const STALL_TIMEOUT_US := 10_000_000

  function Max(a: int, b: int): int { if a < b then b else a }

  datatype State = State(deadline: int, submitted: int, acked: int, busy: bool, paused: bool) {

    predicate Outstanding() { busy || acked < submitted }

    function Begin(now: int): State {
      if deadline == 0 then this.(busy := true, deadline := now + STALL_TIMEOUT_US) else this.(busy := true)
    }

    function Submit(pts: int): State { this.(submitted := Max(pts, submitted)) }

    predicate Accepts(pts: int) { acked < pts <= submitted }

    function Ack(pts: int, now: int): State {
      if !Accepts(pts) then this
      else this.(acked := pts, deadline := if busy || pts < submitted then now + STALL_TIMEOUT_US else 0)
    }

    function End(): State {
      if acked >= submitted then this.(busy := false, deadline := 0) else this.(busy := false)
    }

    predicate Expired(now: int) { !paused && deadline != 0 && now >= deadline }

    function SetPaused(p: bool, now: int): State {
      if p == paused then this
      else if p then this.(paused := true)
      else this.(paused := false, deadline := if Outstanding() then now + STALL_TIMEOUT_US else 0)
    }
  }

  function Initial(paused: bool): State { State(0, -1, -1, false, paused) }

  /** The structure itself, updated in place. */
  class Watchdog {
    var deadline: int
    var submitted: int
    var acked: int
    var busy: bool
    var paused: bool

    ghost function Value(): State
      reads this
    {
      State(deadline, submitted, acked, busy, paused)
    }

    constructor ()
      ensures Value() == Initial(false)
    {
      deadline, submitted, acked, busy, paused := 0, -1, -1, false, false;
    }

    method Begin(now: int)
      modifies this
      ensures Value() == old(Value()).Begin(now)
    {
      busy := true;
      if deadline == 0 {
        deadline := now + STALL_TIMEOUT_US;
      }
    }

    method Submit(pts: int)
      modifies this
      ensures Value() == old(Value()).Submit(pts)
    {
      if pts > submitted {
        submitted := pts;
      }
    }

    method Ack(pts: int, now: int) returns (accepted: bool)
      modifies this
      ensures Value() == old(Value()).Ack(pts, now)
      ensures accepted == old(Value()).Accepts(pts)
    {
      if pts <= acked || pts > submitted {
        return false;
      }
      acked := pts;
      deadline := if busy || pts < submitted then now + STALL_TIMEOUT_US else 0;
      return true;
    }

    method End()
      modifies this
      ensures Value() == old(Value()).End()
    {
      busy := false;
      if acked >= submitted {
        deadline := 0;
      }
    }

    method Expired(now: int) returns (expired: bool)
      ensures expired == Value().Expired(now)
    {
      expired := !paused && deadline != 0 && now >= deadline;
    }

    method SetPaused(p: bool, now: int)
      modifies this
      ensures Value() == old(Value()).SetPaused(p, now)
    {
      if paused == p {
        return;
      }
      paused := p;
      if !p {
        deadline := if busy || acked < submitted then now + STALL_TIMEOUT_US else 0;
      }
    }
  }

  // ----- Histories of calls

  datatype Call =
    | BeginCall(now: int)
    | SubmitCall(pts: int)
    | AckCall(pts: int, now: int)
    | EndCall
    | PauseCall(paused: bool, now: int)

  type History = seq<Call>

  function Apply(s: State, c: Call): State {
    match c
    case BeginCall(now) => s.Begin(now)
    case SubmitCall(pts) => s.Submit(pts)
    case AckCall(pts, now) => s.Ack(pts, now)
    case EndCall => s.End()
    case PauseCall(p, now) => s.SetPaused(p, now)
  }

  function Run(p0: bool, h: History): State {
    if h == [] then Initial(p0) else Apply(Run(p0, h[..|h| - 1]), h[|h| - 1])
  }

  // The history-based account: what was submitted, what was acknowledged,
  // whether a send is under way, whether the stream is paused.

  /** The greatest submitted pts, -1 before the first one. */
  function Submitted(h: History): int {
    if h == [] then -1
    else var rest := Submitted(h[..|h| - 1]);
         if h[|h| - 1].SubmitCall? then Max(h[|h| - 1].pts, rest) else rest
  }

  /** The greatest acknowledged pts among those submitted by then, -1 before the first one. */
  function Acked(h: History): int {
    if h == [] then -1
    else
      var before := h[..|h| - 1];
      if h[|h| - 1].AckCall? && h[|h| - 1].pts <= Submitted(before)
      then Max(h[|h| - 1].pts, Acked(before)) else Acked(before)
  }

  function Busy(h: History): bool {
    if h == [] then false
    else if h[|h| - 1].BeginCall? then true
    else if h[|h| - 1].EndCall? then false
    else Busy(h[..|h| - 1])
  }

  function Paused(p0: bool, h: History): bool {
    if h == [] then p0
    else if h[|h| - 1].PauseCall? then h[|h| - 1].paused
    else Paused(p0, h[..|h| - 1])
  }

  predicate Outstanding(h: History) { Busy(h) || Acked(h) < Submitted(h) }

  /** What the callers do: a pts is submitted only between begin and end, and clocks are not negative. */
  predicate Obeys(before: History, c: Call) {
    (c.SubmitCall? ==> Busy(before)) && (c.BeginCall? || c.AckCall? || c.PauseCall? ==> c.now >= 0)
  }

  predicate Disciplined(h: History) {
    h == [] || (Disciplined(h[..|h| - 1]) && Obeys(h[..|h| - 1], h[|h| - 1]))
  }

  /** Call `c` made after `before` is progress: work starts, a new ACK is accepted, or a pause really ends. */
  predicate IsProgress(p0: bool, before: History, c: Call) {
    match c
    case BeginCall(_) => !Outstanding(before)
    case AckCall(pts, _) => Acked(before) < pts <= Submitted(before)
    case PauseCall(p, _) => !p && Paused(p0, before)
    case _ => false
  }

  /** After the first `j` calls, work is outstanding and unpaused. */
  predicate Pending(p0: bool, h: History, j: nat)
    requires j <= |h|
  {
    Outstanding(h[..j]) && !Paused(p0, h[..j])
  }

  predicate ProgressAt(p0: bool, h: History, j: nat)
    requires j < |h|
  {
    IsProgress(p0, h[..j], h[j])
  }

  /** Since call `i`: work outstanding and unpaused all along, and no progress. */
  predicate QuietSince(p0: bool, h: History, i: nat)
    requires i < |h|
  {
    && (forall j :: i < j <= |h| ==> Pending(p0, h, j))
    && (forall j :: i < j < |h| ==> !ProgressAt(p0, h, j))
  }

  /** A stall: ten seconds of outstanding, unpaused work since the last progress. */
  predicate Stalled(p0: bool, h: History, now: int) {
    exists i: nat :: i < |h| && ProgressAt(p0, h, i) && h[i].now + STALL_TIMEOUT_US <= now
                     && QuietSince(p0, h, i)
  }

  lemma {:induction false} DisciplinedPrefix(h: History, k: nat)
    requires Disciplined(h) && k <= |h|
    ensures Disciplined(h[..k])
  {
    if k == |h| {
      assert h[..k] == h;
    } else {
      DisciplinedPrefix(h[..|h| - 1], k);
      assert h[..|h| - 1][..k] == h[..k];
    }
  }

  /** The pts, busy and pause fields are what the history says they are. */
  lemma {:induction false} FieldsMatchHistory(p0: bool, h: History)
    ensures Run(p0, h).submitted == Submitted(h)
    ensures Run(p0, h).acked == Acked(h)
    ensures Run(p0, h).busy == Busy(h)
    ensures Run(p0, h).paused == Paused(p0, h)
    ensures -1 <= Acked(h) <= Submitted(h)
  {
    if h != [] {
      FieldsMatchHistory(p0, h[..|h| - 1]);
    }
  }

  /** A call that obeys the discipline extends a disciplined history. */
  lemma CallExtends(p0: bool, watchdog: State, calls: History, c: Call)
    requires watchdog == Run(p0, calls) && Disciplined(calls)
    requires c.SubmitCall? ==> watchdog.busy
    requires c.BeginCall? || c.AckCall? || c.PauseCall? ==> c.now >= 0
    ensures Apply(watchdog, c) == Run(p0, calls + [c])
    ensures Disciplined(calls + [c])
  {
    var h := calls + [c];
    assert h[..|h| - 1] == calls;
    FieldsMatchHistory(p0, calls);
  }

  /** The index of the last progress call, or -1. */
  function LastProgress(p0: bool, h: History): (k: int)
    ensures -1 <= k < |h|
    ensures k >= 0 ==> IsProgress(p0, h[..k], h[k])
  {
    if h == [] then -1
    else if IsProgress(p0, h[..|h| - 1], h[|h| - 1]) then |h| - 1
    else
      var k := LastProgress(p0, h[..|h| - 1]);
      assert k >= 0 ==> h[..|h| - 1][..k] == h[..k];
      k
  }

  /**
   The deadline is armed exactly while work is outstanding, and it then stands ten
   seconds after the last progress: no other call moves it.
   */
  lemma {:induction false} DeadlineTracksProgress(p0: bool, h: History)
    requires Disciplined(h)
    ensures Run(p0, h).deadline != 0 <==> Outstanding(h)
    ensures Outstanding(h) ==> LastProgress(p0, h) >= 0
    ensures Outstanding(h) ==> Run(p0, h).deadline == h[LastProgress(p0, h)].now + STALL_TIMEOUT_US
  {
    FieldsMatchHistory(p0, h);
    if h != [] {
      var before, c := h[..|h| - 1], h[|h| - 1];
      DisciplinedPrefix(h, |h| - 1);
      DeadlineTracksProgress(p0, before);
      FieldsMatchHistory(p0, before);
      assert c.SubmitCall? ==> Busy(before);
    }
  }

  lemma SamePast(p0: bool, h: History, n: nat, j: nat)
    requires j <= n <= |h|
    ensures Pending(p0, h[..n], j) == Pending(p0, h, j)
    ensures j < n ==> ProgressAt(p0, h[..n], j) == ProgressAt(p0, h, j)
  {
    assert h[..n][..j] == h[..j];
  }

  lemma QuietExtends(p0: bool, h: History, k: nat)
    requires k < |h| - 1 && QuietSince(p0, h[..|h| - 1], k)
    requires Outstanding(h) && !Paused(p0, h) && !IsProgress(p0, h[..|h| - 1], h[|h| - 1])
    ensures QuietSince(p0, h, k)
  {
    var n := |h| - 1;
    assert h[..|h|] == h;
    forall j | k < j <= |h|
      ensures Pending(p0, h, j)
    {
      if j <= n {
        SamePast(p0, h, n, j);
      }
    }
    forall j | k < j < |h|
      ensures !ProgressAt(p0, h, j)
    {
      if j < n {
        SamePast(p0, h, n, j);
      }
    }
  }

  /** Outstanding and unpaused work has been so, without progress, ever since the last progress. */
  lemma {:induction false} QuietSinceLastProgress(p0: bool, h: History)
    requires Disciplined(h) && Outstanding(h) && !Paused(p0, h)
    ensures LastProgress(p0, h) >= 0 && QuietSince(p0, h, LastProgress(p0, h))
  {
    DeadlineTracksProgress(p0, h);
    var k := LastProgress(p0, h);
    var n := |h| - 1;
    if k < n {
      var before := h[..n];
      DisciplinedPrefix(h, n);
      assert LastProgress(p0, before) == k;
      FieldsMatchHistory(p0, before);
      assert h[n].SubmitCall? ==> Busy(before);
      QuietSinceLastProgress(p0, before);
      QuietExtends(p0, h, k);
    } else {
      assert h[..|h|] == h;
    }
  }

  /** Nothing after a quiet point is the last progress. */
  lemma {:induction false} QuietPointIsLastProgress(p0: bool, h: History, i: nat)
    requires i < |h| && ProgressAt(p0, h, i) && QuietSince(p0, h, i)
    ensures LastProgress(p0, h) == i
  {
    var n := |h| - 1;
    if i < n {
      var before := h[..n];
      forall j | i <= j <= n
        ensures Pending(p0, before, j) == Pending(p0, h, j)
        ensures j < n ==> ProgressAt(p0, before, j) == ProgressAt(p0, h, j)
      {
        SamePast(p0, h, n, j);
      }
      assert !ProgressAt(p0, h, n);
      QuietPointIsLastProgress(p0, before, i);
    }
  }

  /**
   The main result: the watchdog reports expiry exactly when the history holds a stall.
   So expiry implies ten seconds of continuous unpaused outstanding work without an accepted
   ACK or a resume, and every such stall is reported.
   */
  lemma ExpiredExactlyOnStall(p0: bool, h: History, now: int)
    requires Disciplined(h)
    ensures Run(p0, h).Expired(now) <==> Stalled(p0, h, now)
  {
    FieldsMatchHistory(p0, h);
    DeadlineTracksProgress(p0, h);
    if Run(p0, h).Expired(now) {
      QuietSinceLastProgress(p0, h);
      assert ProgressAt(p0, h, LastProgress(p0, h));
    }
    if Stalled(p0, h, now) {
      var i: nat :| i < |h| && ProgressAt(p0, h, i) && h[i].now + STALL_TIMEOUT_US <= now && QuietSince(p0, h, i);
      QuietPointIsLastProgress(p0, h, i);
      assert Pending(p0, h, |h|) && h[..|h|] == h;
    }
  }

  /** Calls that are not progress never postpone the report of work that stays outstanding. */
  lemma NonProgressKeepsDeadline(p0: bool, h: History, c: Call)
    requires Disciplined(h + [c]) && Outstanding(h) && Outstanding(h + [c])
    requires !IsProgress(p0, h, c)
    ensures Run(p0, h + [c]).deadline == Run(p0, h).deadline
  {
    var g := h + [c];
    assert g[..|g| - 1] == h;
    DisciplinedPrefix(g, |h|);
    DeadlineTracksProgress(p0, g);
    DeadlineTracksProgress(p0, h);
  }

  /** Without the discipline the deadline can miss work: a pts submitted while idle arms nothing. */
  lemma UndisciplinedSubmitIsMissed(now: int)
    ensures var h := [SubmitCall(5)];
            Outstanding(h) && !Run(false, h).Expired(now)
  {
    var h := [SubmitCall(5)];
    assert h[..0] == [];
    assert Run(false, h) == Apply(Run(false, h[..0]), h[0]);
    assert Submitted(h) == Max(5, Submitted(h[..0]));
    assert Acked(h) == Acked(h[..0]);
  }
}
