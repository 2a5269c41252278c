/**
 The touch injector as the program keeps it: a fixed array of contacts with a count, changed in
 place.  Each method does to the fields what the functions of Touch say.
 */
module TouchInjector {
  import opened Common
  import opened Touch

  class TouchInjector {
    const contacts: array<Contact>
    var count: nat
    var primary: nat
    var useFallback: bool
    var fallbackActive: bool
    var fallbackPointer: nat
    var log: seq<Output>

    ghost predicate Valid()
      reads this
    {
      contacts.Length == MAX_TOUCHES && count <= MAX_TOUCHES
    }

    ghost function Contents(): (s: seq<Contact>)
      reads this, contacts
      requires Valid()
      ensures |s| == count
    {
      contacts[..count]
    }

    ghost function Value(): (s: State)
      reads this, contacts
      requires Valid()
      ensures |s.touches.contacts| <= MAX_TOUCHES
    {
      State(Touches(Contents(), primary), Fallback(useFallback, fallbackActive, fallbackPointer), log)
    }

    constructor (initialized: bool)
      ensures Valid() && fresh(contacts) && Value() == Initial(initialized)
    {
      contacts := new Contact[MAX_TOUCHES](_ => Contact(0, 0, 0, 0));
      count, primary := 0, NO_PRIMARY;
      useFallback, fallbackActive, fallbackPointer := !initialized, false, 0;
      log := [];
    }

    method FindTouch(id: nat) returns (i: nat)
      requires Valid()
      ensures i == Find(Contents(), id)
    {
      i := 0;
      while i < count
        invariant i <= count
        invariant Find(Contents(), id) == FindFrom(Contents(), id, i)
      {
        if contacts[i].id == id {
          return;
        }
        i := i + 1;
      }
      i := MAX_TOUCHES;
    }

    method AddTouch(c: Contact) returns (ok: bool)
      requires Valid()
      modifies this`count, contacts
      ensures Valid() && ok == (old(count) < MAX_TOUCHES)
      ensures Contents() == if ok then old(Contents()) + [c] else old(Contents())
    {
      if count >= MAX_TOUCHES {
        return false;
      }
      contacts[count] := c;
      count := count + 1;
      ok := true;
    }

    method RemoveTouch(index: nat)
      requires Valid() && index < count
      modifies this`count, contacts
      ensures Valid() && Contents() == old(Contents())[..index] + old(Contents())[index + 1..]
    {
      var remaining := count - index - 1;
      forall i | index <= i < index + remaining {
        contacts[i] := contacts[i + 1];
      }
      count := count - 1;
    }

    method SendMouseEvent(at: Contact, button: Button, answer: bool) returns (ok: bool)
      requires Valid()
      modifies this`log
      ensures Value() == SendMouse(old(Value()), button, at, answer) && ok == answer
    {
      log := log + [Mouse(button, at.x, at.y, answer)];
      ok := answer;
    }

    method InjectMouseFrame(changed: nat, flags: Flags, answer: bool) returns (ok: bool)
      requires Valid() && changed < count
      modifies this`log, this`fallbackActive, this`fallbackPointer
      ensures (Value(), ok) == MouseFrame(old(Value()), changed, flags, answer)
    {
      var changedPrimary := contacts[changed].id == primary;
      var primaryIndex := FindTouch(primary);
      if changedPrimary && flags == UpFlags {
        if !fallbackActive {
          return true;
        }
        ok := SendMouseEvent(contacts[changed], Release, answer);
        fallbackActive := false;
        return;
      }
      if !fallbackActive {
        if primaryIndex == MAX_TOUCHES {
          primaryIndex := changed;
        }
        var sent := SendMouseEvent(contacts[primaryIndex], Press, answer);
        if !sent {
          return false;
        }
        fallbackActive := true;
        fallbackPointer := contacts[primaryIndex].id;
      } else if primaryIndex != MAX_TOUCHES && flags == UpdateFlags {
        var sent := SendMouseEvent(contacts[primaryIndex], Motion, answer);
        if !sent {
          return false;
        }
      }
      ok := true;
    }

    /** The entries of a native frame, one for each contact. */
    method MakeEntries(changed: nat, flags: Flags) returns (entries: array<Entry>)
      requires Valid()
      ensures fresh(entries) && entries[..] == Entries(Contents(), changed, flags)
    {
      entries := new Entry[count](_ => Entry(Contact(0, 0, 0, 0), UpdateFlags));
      var i := 0;
      while i < count
        invariant i <= count
        invariant forall j :: 0 <= j < i ==> entries[j] == Entry(contacts[j], if j == changed then flags else UpdateFlags)
      {
        entries[i] := Entry(contacts[i], if i == changed then flags else UpdateFlags);
        i := i + 1;
      }
    }

    method MakeCancelled() returns (entries: array<Entry>)
      requires Valid()
      ensures fresh(entries) && entries[..] == Cancelled(Contents())
    {
      entries := new Entry[count](_ => Entry(Contact(0, 0, 0, 0), CancelFlags));
      var i := 0;
      while i < count
        invariant i <= count
        invariant forall j :: 0 <= j < i ==> entries[j] == Entry(contacts[j], CancelFlags)
      {
        entries[i] := Entry(contacts[i], CancelFlags);
        i := i + 1;
      }
    }

    method InjectTouchFrame(changed: nat, flags: Flags, answers: Answers) returns (ok: bool)
      requires Valid() && changed < count
      modifies this`log, this`useFallback, this`fallbackActive, this`fallbackPointer
      ensures (Value(), ok) == TouchFrame(old(Value()), changed, flags, answers)
    {
      if useFallback {
        ok := InjectMouseFrame(changed, flags, answers.mouse);
        return;
      }
      var entries := MakeEntries(changed, flags);
      log := log + [Frame(entries[..], answers.frame)];
      if answers.frame {
        return true;
      }
      useFallback := true;
      ok := InjectMouseFrame(changed, flags, answers.mouse);
    }

    method CancelTouches(answer: bool)
      requires Valid()
      modifies this`log, this`count, this`primary, this`fallbackActive
      ensures Valid() && Value() == Cancel(old(Value()), answer)
    {
      if count == 0 {
        return;
      }
      if useFallback {
        if fallbackActive {
          var index := FindTouch(fallbackPointer);
          if index == MAX_TOUCHES {
            index := 0;
          }
          var _ := SendMouseEvent(contacts[index], Release, answer);
          fallbackActive := false;
        }
      } else {
        var entries := MakeCancelled();
        log := log + [Frame(entries[..], answer)];
      }
      count := 0;
      primary := NO_PRIMARY;
    }

    /** Sends the frame of a change and then forgets what is over. */
    method Finish(index: nat, flags: Flags, answers: Answers)
      requires Valid() && index < count
      modifies this, contacts
      ensures Valid() && Value() == Settle(TouchFrame(old(Value()), index, flags, answers), index, flags == UpFlags)
    {
      var injected := InjectTouchFrame(index, flags, answers);
      if !injected {
        count := 0;
        primary := NO_PRIMARY;
      } else if flags == UpFlags {
        if contacts[index].id == primary {
          primary := NO_PRIMARY;
        }
        RemoveTouch(index);
      }
    }

    /** The first contact of a gesture, which becomes the primary one. */
    method BeginGesture(c: Contact, answers: Answers)
      requires Valid() && count == 0
      modifies this, contacts
      ensures Valid() && Value() == Change(old(Value()), [c], c.id, 0, DownFlags, answers)
    {
      ghost var before := Value();
      var added := AddTouch(c);
      primary := c.id;
      assert added && Contents() == [c];
      assert Value() == before.(touches := Touches([c], c.id));
      Finish(0, DownFlags, answers);
    }

    method OnDown(m: Msg, d: Desktop, answers: Answers)
      requires Valid()
      modifies this, contacts
      ensures Valid() && Value() == TouchDown(old(Value()), m, d, answers)
    {
      if count != 0 {
        CancelTouches(answers.cancel);
      }
      var mapped := MapPosition(m.position, d);
      if mapped.Some? {
        BeginGesture(ContactOf(m, mapped.value), answers);
      }
    }

    method OnMove(m: Msg, d: Desktop, answers: Answers)
      requires Valid()
      modifies this, contacts
      ensures Valid() && Value() == TouchMove(old(Value()), m, d, answers)
    {
      var mapped := MapPosition(m.position, d);
      if mapped.None? {
        return;
      }
      var c := ContactOf(m, mapped.value);
      var adds := ActionOf(m.action) == PointerDown;
      var index := FindTouch(m.id);
      if index == MAX_TOUCHES {
        if !adds {
          return;
        }
        var added := AddTouch(c);
        if !added {
          return;
        }
        index := count - 1;
      } else {
        contacts[index] := c;
        assert Contents() == old(Contents())[index := c];
      }
      Finish(index, if adds then DownFlags else UpdateFlags, answers);
    }

    method OnUp(m: Msg, answers: Answers)
      requires Valid()
      modifies this, contacts
      ensures Valid() && Value() == TouchUp(old(Value()), m, answers)
    {
      var index := FindTouch(m.id);
      if index == MAX_TOUCHES {
        return;
      }
      Finish(index, UpFlags, answers);
    }

    method InjectTouch(m: Msg, d: Desktop, answers: Answers)
      requires Valid()
      modifies this, contacts
      ensures Valid() && Value() == Inject(old(Value()), m, d, answers)
    {
      if m.id > MAX_POINTER_ID {
        return;
      }
      match ActionOf(m.action)
      case Down => OnDown(m, d, answers);
      case PointerDown => OnMove(m, d, answers);
      case Move => OnMove(m, d, answers);
      case Up => OnUp(m, answers);
      case PointerUp => OnUp(m, answers);
      case CancelAll => CancelTouches(answers.cancel);
      case Other =>
    }

    method OnScroll(p: Position, d: Desktop, answers: Answers)
      requires Valid()
      modifies this`log, this`count, this`primary, this`fallbackActive
      ensures Valid() && Value() == Scroll(old(Value()), p, d, answers)
    {
      var mapped := MapPosition(p, d);
      if mapped.None? {
        return;
      }
      CancelTouches(answers.cancel);
      var _ := SendMouseEvent(Contact(0, mapped.value.0, mapped.value.1, 0), Motion, answers.mouse);
    }
  }
}
