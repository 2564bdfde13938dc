/**
 Transfer memory over whole runs: when it is set up for the mode in force, and when the
 failed flag tells that it is not.
 */
module MemoryLaws {
  import opened Options
  import opened Sessions
  import opened SessionLaws

  /** Either memory is set up for the mode in force, or the flag that keeps everything from connecting is set. */
  predicate OnRecord(s: Session) {
    Equipped(s) || s.memory.failed
  }

  /**
   After every run, of any shape, no change of mode is left without a set-up; memory is set
   up for the mode in force if and only if the last set-up completed, and was not one for a
   list of destinations in a mode that needs more than a plain buffer; and if not, the
   failed flag tells so if and only if that last set-up failed in the open.
   */
  lemma MemoryExactly(q: Queue)
    ensures var t := Deliver(Initial(), q);
            var note := t.past.note;
            && note != Switched
            && (Equipped(t) <==>
                && note.SetUp? && note.outcome == Completed
                && (note.forDestination ==> KindOf(t.choice.mode) == PlainBuffer))
            && (note.SetUp? ==> (OnRecord(t) <==> Equipped(t) || note.outcome == Failed))
            && (note == Lost ==> (OnRecord(t) <==> t.memory.failed))
  {
    hide Deliver;
    var t := Deliver(Initial(), q);
    assert Remembered(t);
  }

  /** Asking for a destination leaves memory equipped exactly as this says, and clears the flag whenever it works. */
  lemma DestinationExactly(s: Settled, e: Event)
    requires e.cb == ChooseDestination && Enabled(s, ChooseDestination) && s.choice.project && e.p0 == e.p1 == Nil
    ensures var t := Fire(s, e);
            var works := e.a.memory.first == Completed;
            && t.choice.mode == s.choice.mode
            && (Equipped(t) <==>
                if s.memory.used then works && KindOf(s.choice.mode) == PlainBuffer else Equipped(s))
            && (t.memory.failed <==> if s.memory.used then !works else s.memory.failed)
  {
    hide Fire, TakeDestination, Deliver;
    var m := DestinationMemory(s, e.a);
    FiresDestination(s, e);
    if e.a.accept {
      TakeDestinationAlone(m, e);
    }
  }

  lemma FiresDestination(s: Settled, e: Event)
    requires e.cb == ChooseDestination && Enabled(s, ChooseDestination)
    ensures Fire(s, e) == PickDestination(s, e)
  {
    hide PickDestination;
  }

  lemma TakeDestinationAlone(m: Settled, e: Event)
    requires !m.run.connected && m.gui.windowOn && e.p0 == e.p1 == Nil
    ensures TakeDestination(m, e) == NewDestination(m, e.a.deviceOk)
  {
    var n := NewDestination(m, e.a.deviceOk);
    DeliverNil(n);
    if e.a.deviceOk {
      assert EmptyDomain(n, e) == n;
    }
  }

  // ---------- a run in which it happens ----------

  lemma StartAlone(s: Settled) returns (t: Settled)
    requires Enabled(s, Start)
    ensures t == Fire(s, Alone(Start, YES)) && t.run.connected && !t.run.busy && t.gui.windowOn
    ensures t.choice == s.choice && t.memory == s.memory.(used := true) && t.past.note == s.past.note
  {
    hide Fire;
    t := Fire(s, Alone(Start, YES));
    RunDecides(s, YES);
    FiresStart(s, Alone(Start, YES));
  }

  lemma FiresStart(s: Settled, e: Event)
    requires e.cb == Start && Enabled(s, Start)
    ensures Fire(s, e) == CloneRun(s, e)
  {
    hide CloneRun;
    assert Fire(s, e) == FireButton(s, e);
  }

  lemma DisconnectAlone(s: Settled) returns (t: Settled)
    requires Enabled(s, Disconnect)
    ensures t == Fire(s, Alone(Disconnect, YES)) && !t.run.connected && !t.run.busy && t.gui.windowOn
    ensures t.choice == s.choice && t.memory == s.memory && t.past.note == s.past.note
  {
    hide SetDisconnected;
    var e := Alone(Disconnect, YES);
    t := Fire(s, e);
    DisconnectedAlone(s);
    DeliverNil(SetDisconnected(s, Nil));
    assert t == FireButton(s, e) == DisconnectDevices(s, e) == SetDisconnected(s, Nil);
  }

  lemma DestinationAlone(s: Settled) returns (t: Settled)
    requires Enabled(s, ChooseDestination) && s.choice.project
    ensures t == Fire(s, Alone(ChooseDestination, YES)) == NewDestination(DestinationMemory(s, YES), true)
  {
    hide Fire;
    var e := Alone(ChooseDestination, YES);
    t := Fire(s, e);
    FiresDestination(s, e);
    TakeDestinationAlone(DestinationMemory(s, YES), e);
  }

  /** Connect, clone and disconnect. */
  function CloneOnce(rest: Queue): Queue {
    Cons(Alone(Connect, YES), Cons(Alone(Start, YES), Cons(Alone(Disconnect, YES), rest)))
  }

  function Cloned(s: Settled): Settled {
    Fire(Fire(Fire(s, Alone(Connect, YES)), Alone(Start, YES)), Alone(Disconnect, YES))
  }

  lemma ClonedUses(s: Settled)
    requires Enabled(s, Connect) && Admitted(s, YES)
    ensures var t := Cloned(s);
            && !t.run.connected && !t.run.busy && t.gui.windowOn && t.memory == s.memory.(used := true)
            && t.choice == s.choice.(newProject := t.choice.newProject)
  {
    hide Fire;
    var s1 := ConnectAlone(s);
    var s2 := StartAlone(s1);
    var s3 := DisconnectAlone(s2);
  }

  lemma CloneOnceDelivers(s: Settled, rest: Queue)
    ensures Deliver(s, CloneOnce(rest)) == Deliver(Cloned(s), rest)
    ensures Quiet(rest) ==> Quiet(CloneOnce(rest))
  {
    hide Fire, Deliver, Quiet;
    var s1 := Fire(s, Alone(Connect, YES));
    var s2 := Fire(s1, Alone(Start, YES));
    var q2 := Cons(Alone(Disconnect, YES), rest);
    var q1 := Cons(Alone(Start, YES), q2);
    Next(s2, Alone(Disconnect, YES), rest);
    Next(s1, Alone(Start, YES), q2);
    Next(s, Alone(Connect, YES), q1);
  }

  /** Choose a destination, and connect. */
  lemma ConnectAnew(s: Settled) returns (q: Queue)
    requires Enabled(s, ChooseDestination) && Admitted(s, YES) && s.memory.used
    requires !s.choice.fill && s.choice.mode != DriverOnly
    ensures Quiet(q)
    ensures var t := Deliver(s, q);
            t.run.connected && t.choice.mode == s.choice.mode && t.memory == Memory(Some(PlainBuffer), false, false)
  {
    hide Fire, Deliver, Quiet;
    var s1 := DestinationAlone(s);
    var t := ConnectAlone(s1);
    var last := Cons(Alone(Connect, YES), Nil);
    q := Cons(Alone(ChooseDestination, YES), last);
    QuietNil();
    Next(s1, Alone(Connect, YES), Nil);
    Next(s, Alone(ChooseDestination, YES), last);
    DeliverNil(t);
  }

  /**
   In a direct mode: clone, disconnect, choose another destination, connect. Every set-up
   has completed and none is known to have failed, and memory has no table for the mode.
   */
  lemma DestinationUnequips(ahci: bool) returns (q: Queue)
    ensures var t := Deliver(Initial(), q);
            && t.run.connected && t.choice.mode == Direct(ahci)
            && t.memory == Memory(Some(PlainBuffer), false, false) && !Equipped(t) && !OnRecord(t)
  {
    hide Fire, Deliver, Quiet, Cloned, CloneOnce;
    var s := Started(Direct(ahci), true);
    ClonedUses(s);
    var last := ConnectAnew(Cloned(s));
    CloneOnceDelivers(s, last);
    q := StartedIsReached(Direct(ahci), true, CloneOnce(last));
  }

  lemma QuietNil()
    ensures Quiet(Nil)
  {
  }
}
