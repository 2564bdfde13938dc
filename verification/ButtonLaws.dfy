/**
 The button of driver mode 4, the one driver-mode button that can be sensitive without a
 connection: when that is so, over whole runs and after each callback that sets it.
 */
module ButtonLaws {
  import opened Options
  import opened Sessions
  import opened SessionLaws
  import opened MemoryLaws

  /**
   After every run, of any shape, the button is sensitive without a connection if and only
   if, when it was last set, the events delivered just before had ended the connection it
   was set for, and there has been none since. Setting it anywhere else clears that note.
   */
  lemma Mode4AfterAll(q: Queue)
    ensures var t := Deliver(Initial(), q);
            && t.past.button != LeftOn
            && (t.gui.mode4Button && !t.run.connected <==> t.past.button == Late && !t.run.connected)
  {
    hide Deliver;
    var t := Deliver(Initial(), q);
    assert Base(t) && Finishes(Initial(), t);
  }

  /**
   Wherever the mode buttons are set: the button of mode 4 ends up sensitive without a
   connection if and only if it is to be on, in driver-only mode with the driver there, and
   what is delivered at mode 4 leaves no connection.
   */
  lemma LateExactly(s: Sound, active: bool, q: Queue)
    requires s.choice.mode.DriverOnly? ==> !s.gui.modeButtons
    requires active ==> s.run.connected && (s.run.busy ==> s.run.driverMode != 0)
    ensures var t := ModeButtons(s, active, q);
            && (t.past.button == Late <==> t.gui.mode4Button && !t.run.connected)
            && (s.run.installed && s.choice.mode == DriverOnly ==>
                  var m := Deliver(s.(run := s.run.(driverMode := 4)), q);
                  t.gui.mode4Button == active && t.run.connected == m.run.connected)
            && (!(s.run.installed && s.choice.mode == DriverOnly) ==>
                  t.gui.mode4Button == (active && s.run.installed) && t.run.connected == s.run.connected)
  {
    hide Deliver;
  }

  // ---------- the end of a run ----------

  predicate EndsWell(a: Answers) {
    a.ret == 0 || a.ret == STOP_SIGNAL_RETURN_CODE
  }

  /** Ending a run that failed disconnects, and so turns the button off. */
  lemma FinishKeepsButton(s: Settled, e: Event)
    requires !s.run.busy && s.gui.windowOn && e.p3 == e.p4 == e.p5 == Nil
    ensures var t := FinishRun(s, e);
            && (t.gui.mode4Button <==> EndsWell(e.a) && s.gui.mode4Button)
            && (EndsWell(e.a) ==> t.run.connected == s.run.connected)
  {
    hide SetDisconnected;
    DisconnectedAlone(s);
    DeliverNil(SetDisconnected(s, Nil));
    assert !EndsWell(e.a) ==> DisconnectDevices(s, e) == SetDisconnected(s, Nil);
  }

  /** What becomes of the button from the moment a run is over: i is the session then. */
  lemma EndExactly(i: Settled, e: Event)
    requires i.run.connected && !i.run.busy && i.gui.windowOn && e.p3 == e.p4 == e.p5 == Nil
    ensures var t := FinishRun(ModeButtons(i, true, e.p2), e);
            var m := Deliver(i.(run := i.run.(driverMode := 4)), e.p2);
            && (t.gui.mode4Button <==> EndsWell(e.a) && i.run.installed)
            && (t.gui.mode4Button && !t.run.connected <==>
                EndsWell(e.a) && i.run.installed && i.choice.mode == DriverOnly && !m.run.connected)
  {
    hide Deliver, FinishRun, ModeButtons;
    LateExactly(i, true, e.p2);
    FinishKeepsButton(ModeButtons(i, true, e.p2), e);
  }

  /**
   A clone run leaves the button sensitive if and only if the driver is there and the run
   succeeded or was stopped; and without a connection if and only if, besides, it is in
   driver-only mode and what is delivered at mode 4 after the run has disconnected.
   */
  lemma StartMode4Exactly(s: Settled, e: Event)
    requires e.cb == Start && Enabled(s, Start) && e.p3 == e.p4 == e.p5 == Nil
    ensures var i := Idle(Deliver(BeginClone(s, e), e.p1));
            var m := Deliver(i.(run := i.run.(driverMode := 4)), e.p2);
            var t := Fire(s, e);
            && (t.gui.mode4Button <==> EndsWell(e.a) && s.run.installed)
            && (t.gui.mode4Button && !t.run.connected <==>
                EndsWell(e.a) && s.run.installed && s.choice.mode == DriverOnly && !m.run.connected)
  {
    hide Deliver, Fire, BeginClone, ModeButtons, FinishRun;
    FiresStart(s, e);
    BeginsCloneConnected(s, e);
    var r := Deliver(BeginClone(s, e), e.p1);
    assert SameRun(BeginClone(s, e), r);
    EndExactly(Idle(r), e);
  }

  /** A disconnect that is pending when a run in driver-only mode ends leaves it so. */
  lemma DisconnectAtEndOfRun(s: Settled)
    requires Enabled(s, Start) && s.run.installed && s.choice.mode == DriverOnly
    ensures var t := Fire(s, Event(Start, YES, Nil, Nil, Cons(Alone(Disconnect, YES), Nil), Nil, Nil, Nil));
            t.gui.mode4Button && !t.run.connected
  {
    hide Fire, Deliver, BeginClone, Idle;
    var off := Cons(Alone(Disconnect, YES), Nil);
    var e := Event(Start, YES, Nil, Nil, off, Nil, Nil, Nil);
    StartMode4Exactly(s, e);
    BeginsCloneConnected(s, e);
    DeliverNil(BeginClone(s, e));
    DisconnectAtMode4(Idle(BeginClone(s, e)));
  }

  lemma DisconnectAtMode4(i: Settled)
    requires Enabled(i, Disconnect)
    ensures var m := i.(run := i.run.(driverMode := 4));
            !Deliver(m, Cons(Alone(Disconnect, YES), Nil)).run.connected
  {
    hide Fire, Deliver;
    var m := i.(run := i.run.(driverMode := 4));
    var d := DisconnectAlone(m);
    NextEvent(m, Alone(Disconnect, YES), Nil);
    DeliverNil(d);
  }

  lemma BeginsCloneConnected(s: Settled, e: Event)
    requires s.run.connected && !s.run.busy
    ensures var r := BeginClone(s, e);
            && r.choice == s.choice && r.run.installed == s.run.installed && r.run.connected && r.run.busy
            && r.gui.windowOn == s.gui.windowOn
  {
    hide ModeButtons;
    var t := ModeButtons(Running(s), s.run.driverMode != 0, e.p0);
    assert SameButButtons(Running(s), t);
  }

  /** An analysis leaves it so on the same terms. */
  lemma AnalyzeMode4Exactly(s: Settled, e: Event)
    requires e.cb == Analyze && Enabled(s, Analyze) && e.p3 == e.p4 == e.p5 == Nil
    ensures var i := Idle(Deliver(UsesMemory(ModeButtons(Running(s), false, e.p0)), e.p1));
            var m := Deliver(i.(run := i.run.(driverMode := 4)), e.p2);
            var t := Fire(s, e);
            && (t.gui.mode4Button <==> EndsWell(e.a) && s.run.installed)
            && (t.gui.mode4Button && !t.run.connected <==>
                EndsWell(e.a) && s.run.installed && s.choice.mode == DriverOnly && !m.run.connected)
  {
    hide Deliver, Fire, ModeButtons, FinishRun;
    FiresAnalyze(s, e);
    var b := ModeButtons(Running(s), false, e.p0);
    LateExactly(Running(s), false, e.p0);
    assert SameButButtons(Running(s), b);
    var r := Deliver(UsesMemory(b), e.p1);
    assert SameRun(UsesMemory(b), r);
    if s.run.installed {
      EndExactly(Idle(r), e);
    } else {
      FinishKeepsButton(Idle(r), e);
    }
  }

  lemma FiresAnalyze(s: Settled, e: Event)
    requires e.cb == Analyze && Enabled(s, Analyze)
    ensures Fire(s, e) == AnalyzeRun(s, e)
  {
    hide AnalyzeRun;
    assert Fire(s, e) == FireButton(s, e);
  }

  // ---------- connecting ----------

  /**
   Connecting in driver-only mode goes to mode 4, delivers what is pending, and then makes
   the button sensitive: it is so without a connection if and only if that has disconnected.
   */
  lemma ConnectMode4Exactly(s: Settled, e: Event)
    requires e.cb == Connect && Enabled(s, Connect) && Admitted(s, e.a)
    requires s.choice.mode == DriverOnly && e.p2 == e.p3 == e.p4 == e.p5 == Nil
    ensures var at := Examine(e.a, false, s.past.version);
            var up := Linked(s, at);
            var m := Deliver(up.(run := up.run.(driverMode := 4)), e.p1);
            var t := Fire(s, e);
            t.gui.mode4Button && t.run.connected == m.run.connected
  {
    hide Fire, Deliver;
    var at := Examine(e.a, false, s.past.version);
    ExamineAdmits(e.a, false, s.past.version);
    FiresConnect(s, e);
    DeliverNil(TryConnect(s, e));
    assert TryConnect(s, e) == ConnectWithoutSource(s, e) == SetConnected(s, at, e);
    GoneToMode4(s, at, e);
  }

  lemma GoneToMode4(s: Settled, at: Attempt, e: Event)
    requires !s.run.busy && Passed(at) && s.run.installed && s.choice.mode == DriverOnly && e.p2 == Nil
    requires !s.run.connected
    requires at.version <= s.past.version && (!s.past.stale ==> Ready(s) && at.version == s.past.version)
    ensures var up := Linked(s, at);
            var m := Deliver(up.(run := up.run.(driverMode := 4)), e.p1);
            var t := SetConnected(s, at, e);
            t.gui.mode4Button && t.run.connected == m.run.connected
  {
    hide Deliver, BeginWatch;
    var up := Linked(s, at);
    var t := ModeButtons(up, true, e.p1);
    assert t == GoToMode4(up, true, e.p1);
    WatchKeepsButton(t, e);
  }

  lemma WatchKeepsButton(s: Settled, e: Event)
    requires !s.run.busy && e.p2 == Nil
    ensures var t := BeginWatch(s, e);
            t.gui.mode4Button == s.gui.mode4Button && t.run.connected == s.run.connected
  {
    hide Deliver;
    DeliverNil(StartTimer(s.(run := s.run.(stopSignal := false))));
  }

  /** A disconnect that is pending at that moment does it. */
  lemma Mode4OutlivesConnection() returns (q: Queue)
    ensures var t := Deliver(Initial(), q);
            t.gui.mode4Button && !t.run.connected
  {
    hide Fire, Deliver, Quiet;
    var install, disconnect := Alone(InstallDriver, YES), Alone(Disconnect, YES);
    var connect := Event(Connect, YES, Nil, Cons(disconnect, Nil), Nil, Nil, Nil, Nil);
    var s := Started(DriverOnly, true);
    var s1 := InstallAlone(s);
    DisconnectInMode4(s1, connect);
    var rest := Cons(connect, Nil);
    QuietNil();
    Next(s, install, rest);
    DeliverNil(Fire(s1, connect));
    QuietConnect(connect, disconnect);
    NextEvent(s1, connect, Nil);
    q := StartedIsReached(DriverOnly, true, Cons(install, rest));
  }

  lemma InstallAlone(s: Settled) returns (t: Settled)
    requires Enabled(s, InstallDriver)
    ensures t == Fire(s, Alone(InstallDriver, YES)) == WithDriver(s, true)
  {
    var e := Alone(InstallDriver, YES);
    t := Fire(s, e);
    assert t == FireMenu(s, e) == Driven(s, true, Untouched);
  }

  lemma DisconnectInMode4(s: Settled, e: Event)
    requires e == Event(Connect, YES, Nil, Cons(Alone(Disconnect, YES), Nil), Nil, Nil, Nil, Nil)
    requires Enabled(s, Connect) && Admitted(s, YES) && s.choice.mode == DriverOnly
    ensures var t := Fire(s, e);
            t.gui.mode4Button && !t.run.connected
  {
    hide Fire, Deliver;
    ConnectMode4Exactly(s, e);
    ExamineAdmits(YES, false, s.past.version);
    var up := Linked(s, Examine(YES, false, s.past.version));
    DisconnectAtMode4(up);
  }

  lemma QuietConnect(e: Event, disconnect: Event)
    requires disconnect == Alone(Disconnect, YES)
    requires e == Event(Connect, YES, Nil, Cons(disconnect, Nil), Nil, Nil, Nil, Nil)
    ensures QuietEvent(e)
  {
  }
}
