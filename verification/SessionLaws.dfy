/**
 What a connection attempt decides, exactly; where the choices and the transfer memory
 behind a connection can be lost; and which widgets keep up with the session.
 */
module SessionLaws {
  import opened Options
  import opened Sessions

  // ---------- the gate, in both directions ----------

  predicate LogAdmitted(a: Answers) {
    if a.check == SAME_STATUS then a.repair == 0 && a.recheck == 0 else a.check == 0
  }

  /** What must hold of the session and of the answers for the connect button to connect. */
  predicate Admitted(s: Session, a: Answers) {
    && !s.memory.failed && s.choice.project && s.choice.destination
    && LogAdmitted(a) && a.deviceOk
    && if s.choice.fill || s.choice.mode.DriverOnly?
       then (s.choice.newProject ==> s.choice.fill) && (s.choice.mode.DriverOnly? ==> s.run.installed)
       else s.choice.source && a.relayOk && !a.sameDevice
  }

  /** The event with nothing pending at any of its display updates. */
  function Alone(cb: Callback, a: Answers): Event {
    Event(cb, a, Nil, Nil, Nil, Nil, Nil, Nil)
  }

  lemma ExamineAdmits(a: Answers, bySource: bool, version: nat)
    ensures CleanLog(Examine(a, bySource, version)) <==> LogAdmitted(a)
  {
    var at := Examine(a, bySource, version);
    if a.check == SAME_STATUS {
      assert at.checks[|at.checks| - 1] == a.recheck && at.repairs[0] == a.repair;
    } else {
      assert at.checks[|at.checks| - 1] == a.check;
    }
  }

  lemma ButtonsAlone(s: Sound, active: bool)
    requires s.choice.mode.DriverOnly? ==> !s.gui.modeButtons
    requires active ==> s.run.connected && (s.run.busy ==> s.run.driverMode != 0)
    ensures var t := ModeButtons(s, active, Nil);
            && t.choice == s.choice && t.memory == s.memory && t.past == s.past.(button := InStep)
            && t.run == s.run.(driverMode :=
                                 if s.run.installed && s.choice.mode.DriverOnly? then 4 else s.run.driverMode)
            && t.gui == s.gui.(mode4Button := s.run.installed && active,
                               modeButtons := s.run.installed && active && !s.choice.mode.DriverOnly?)
  {
  }

  lemma DisconnectedAlone(s: Settled)
    requires !s.run.busy
    ensures var t := SetDisconnected(s, Nil);
            && !t.run.connected && t.run.installed == s.run.installed && t.gui.windowOn == s.gui.windowOn
            && t.choice == s.choice && t.memory == s.memory && t.past == s.past.(link := None, button := InStep)
            && !t.gui.mode4Button
    ensures DeviceWait(s, Nil) == s
  {
    ButtonsAlone(Unlinked(s), false);
  }

  lemma WatchAlone(m: Settled, e: Event)
    requires !m.run.busy && e.p2 == Nil
    ensures var t := BeginWatch(m, e);
            && t.choice == m.choice && t.memory == m.memory && t.past == m.past
            && t.run.connected == m.run.connected && t.gui.windowOn == m.gui.windowOn
  {
    var watching := StartTimer(m.(run := m.run.(stopSignal := false)));
    assert DeviceWait(watching, Nil) == watching;
  }

  lemma ConnectedAlone(s: Settled, at: Attempt, e: Event)
    requires !s.run.busy && Passed(at) && e.p1 == e.p2 == Nil
    requires at.version <= s.past.version && (!s.past.stale ==> Ready(s) && at.version == s.past.version)
    ensures var t := SetConnected(s, at, e);
            && t.choice == s.choice && t.memory == s.memory && t.run.connected && t.gui.windowOn == s.gui.windowOn
            && t.past == s.past.(link := Some(at), button := t.past.button)
  {
    var up := Linked(s, at);
    if up.run.installed {
      ButtonsAlone(up, true);
      WatchAlone(ModeButtons(up, true, Nil), e);
    } else {
      WatchAlone(up, e);
    }
  }

  lemma WithoutSourceDecides(s: Settled, a: Answers)
    requires Enabled(s, Connect) && Ready(s) && (s.choice.fill || s.choice.mode.DriverOnly?)
    ensures ConnectWithoutSource(s, Alone(Connect, a)).run.connected <==>
            && (s.choice.newProject ==> s.choice.fill) && (s.choice.mode.DriverOnly? ==> s.run.installed)
            && LogAdmitted(a) && a.deviceOk
  {
    var e := Alone(Connect, a);
    DisconnectedAlone(s);
    ExamineAdmits(a, false, s.past.version);
    if CleanLog(Examine(a, false, s.past.version)) {
      ConnectedAlone(s, Examine(a, false, s.past.version), e);
    }
  }

  /** What becomes of an attempt once the drives have been waited for, in whatever state that left. */
  lemma OpenDecides(m: Settled, at: Attempt, e: Event)
    requires !m.run.busy && m.gui.windowOn && Passed(at)
    requires at.version <= m.past.version && (at.version == m.past.version ==> Ready(m))
    requires e.p1 == e.p2 == e.p3 == e.p4 == Nil
    ensures var t := OpenDrives(m, at, e);
            && (t.run.connected <==> e.a.deviceOk)
            && (Chosen(t) <==> (e.a.deviceOk ==> Ready(m)))
            && (Current(t) <==> (e.a.deviceOk ==> at.version == m.past.version))
            && (e.a.deviceOk ==> t.choice == m.choice.(newProject := false) && t.memory == m.memory
                                 && t.past.stale == (m.past.stale || at.version != m.past.version)
                                 && t.past.note == m.past.note)
            && t.gui.windowOn
  {
    hide SetConnected, SetDisconnected;
    if e.a.deviceOk {
      ConnectedAlone(Aged(m, at), at, e);
    } else {
      DisconnectedAlone(m);
    }
  }

  lemma SourceDecides(s: Settled, a: Answers)
    requires Enabled(s, Connect) && Ready(s)
    ensures ConnectSource(s, Alone(Connect, a)).run.connected <==> !a.sameDevice && LogAdmitted(a) && a.deviceOk
  {
    var e := Alone(Connect, a);
    var at := Examine(a, true, s.past.version);
    DisconnectedAlone(s);
    ExamineAdmits(a, true, s.past.version);
    if CleanLog(at) && !a.sameDevice {
      OpenDecides(s, at, e);
    }
  }

  /** Pressing connect connects if and only if the attempt is admitted. */
  lemma ConnectDecides(s: Settled, a: Answers)
    requires Enabled(s, Connect)
    ensures Fire(s, Alone(Connect, a)).run.connected <==> Admitted(s, a)
  {
    var e := Alone(Connect, a);
    FiresConnect(s, e);
    DeliverNil(TryConnect(s, e));
    if Ready(s) {
      if s.choice.fill || s.choice.mode.DriverOnly? {
        WithoutSourceDecides(s, a);
      } else {
        SourceDecides(s, a);
      }
    }
  }

  lemma FinishDecides(s: Settled, a: Answers, cb: Callback)
    requires !s.run.busy && s.run.connected && s.gui.windowOn
    ensures var t := FinishRun(s, Alone(cb, a));
            && t.choice == s.choice && t.memory == s.memory && t.past.trace == s.past.trace
            && t.past.note == s.past.note && t.past.stale == s.past.stale && t.gui.windowOn
            && (t.run.connected <==> a.ret == 0 || a.ret == STOP_SIGNAL_RETURN_CODE)
  {
    hide SetDisconnected;
    var e := Alone(cb, a);
    DisconnectedAlone(s);
    DeliverNil(SetDisconnected(s, Nil));
    assert DisconnectDevices(s, e) == SetDisconnected(s, Nil);
  }

  /** In driver-only mode with the driver there, setting the buttons goes to mode 4 first. */
  predicate DriverPath(s: Session) {
    s.run.driverMode != 0 || (s.run.installed && s.choice.mode.DriverOnly?)
  }

  lemma BeginAlone(s: Settled, e: Event)
    requires s.run.connected && !s.run.busy && e.p0 == Nil
    ensures var r := BeginClone(s, e);
            && r.choice == s.choice && r.memory == s.memory.(used := true)
            && r.past == s.past.(trace := r.past.trace, button := r.past.button)
            && r.run.connected && r.gui.windowOn == s.gui.windowOn
            && r.past.trace == s.past.trace + [Began(DriverPath(s), s.choice.mode.DriverOnly?, s.run.installed)]
  {
    ButtonsAlone(Running(s), s.run.driverMode != 0);
  }

  lemma EndAlone(r: Settled, a: Answers, cb: Callback)
    requires r.run.connected && r.run.busy && r.gui.windowOn
    ensures var t := FinishRun(ModeButtons(Idle(r), true, Nil), Alone(cb, a));
            && t.choice == r.choice && t.memory == r.memory && t.past.trace == r.past.trace
            && t.past.note == r.past.note && t.past.stale == r.past.stale && t.gui.windowOn
            && (t.run.connected <==> a.ret == 0 || a.ret == STOP_SIGNAL_RETURN_CODE)
  {
    ButtonsAlone(Idle(r), true);
    FinishDecides(ModeButtons(Idle(r), true, Nil), a, cb);
  }

  /**
   A clone run keeps what was chosen, goes on record once, with the engine the driver mode
   asks for, ends connected if and only if it succeeded or was stopped, and leaves memory used.
   */
  lemma RunDecides(s: Settled, a: Answers)
    requires Enabled(s, Start)
    ensures var t := Fire(s, Alone(Start, a));
            && t.choice == s.choice && t.memory == s.memory.(used := true)
            && t.past.note == s.past.note && t.past.stale == s.past.stale && t.gui.windowOn
            && t.past.trace == s.past.trace + [Began(DriverPath(s), s.choice.mode.DriverOnly?, s.run.installed)]
            && (t.run.connected <==> a.ret == 0 || a.ret == STOP_SIGNAL_RETURN_CODE)
  {
    var e := Alone(Start, a);
    assert Fire(s, e) == FireButton(s, e) == CloneRun(s, e);
    BeginAlone(s, e);
    EndAlone(Deliver(BeginClone(s, e), Nil), a, Start);
  }

  // ---------- where a connection can lose what it was made of ----------

  lemma FiresNewFile(s: Settled, e: Event)
    requires e.cb == NewFile && Enabled(s, NewFile)
    ensures Fire(s, e) == NewProject(s, e)
  {
    hide NewProject;
  }

  lemma FiresChooseSource(s: Settled, e: Event)
    requires e.cb == ChooseSource && Enabled(s, ChooseSource)
    ensures Fire(s, e) == PickSource(s, e)
  {
    hide PickSource;
  }

  lemma FiresConnect(s: Settled, e: Event)
    requires e.cb == Connect && Enabled(s, Connect)
    ensures Fire(s, e) == Deliver(TryConnect(s, e), e.p5)
  {
    hide TryConnect, Deliver;
  }

  // In the lemmas below m is the session at the moment the callback acts on the guard it
  // tested on entry, after whatever was delivered in between. What comes later is quiet.

  /** A new project strips a session of its drives if and only if it has been connected meanwhile. */
  lemma NewProjectLosesExactly(s: Settled, e: Event)
    requires e.cb == NewFile && Enabled(s, NewFile) && !s.run.connected && e.a.accept && Quiet(e.p2)
    ensures var m := Deliver(Deliver(ClearedBoth(s), e.p0), e.p1);
            var t := Fire(s, e);
            && (t.past.stale <==> m.past.stale || m.run.connected)
            && (e.p2 == Nil ==>
                  && t.run.connected == m.run.connected && !t.choice.source && !t.choice.destination
                  && (Chosen(t) <==> !m.run.connected)
                  && (!m.past.stale ==> (Current(t) <==> !m.run.connected)))
  {
    hide Fire, Deliver, Chosen, Current;
    FiresNewFile(s, e);
    var m := Deliver(Deliver(ClearedBoth(s), e.p0), e.p1);
    FreshLoses(m, e.p2);
  }

  lemma FreshLoses(m: Settled, q: Queue)
    requires !m.run.busy && Quiet(q)
    ensures var t := Deliver(FreshProject(m), q);
            && (t.past.stale <==> m.past.stale || m.run.connected)
            && (q == Nil ==>
                  && t.run.connected == m.run.connected && !t.choice.source && !t.choice.destination
                  && (Chosen(t) <==> !m.run.connected)
                  && (!m.past.stale ==> (Current(t) <==> !m.run.connected)))
  {
  }

  /**
   Picking an image keeps what a connection needs if and only if there is none by then, or
   it has its project and destination, and either the image opens or no source is needed.
   */
  lemma ImageLosesExactly(s: Settled, e: Event)
    requires e.cb == ChooseSource && Enabled(s, ChooseSource) && s.choice.mode == CopyImage && e.a.accept
    requires s.choice.project && !s.memory.failed && Quiet(e.p1) && Quiet(e.p2)
    ensures var before := Deliver(Renamed(s), e.p0);
            var m := if e.a.diskOk then Identify(before, e.p3, e) else before;
            var t := Fire(s, e);
            var ok := e.a.diskOk && e.a.deviceOk;
            && (t.past.stale <==> m.past.stale || (m.run.connected && !ok))
            && (e.p1 == e.p2 == Nil ==>
                  && t.run.connected == m.run.connected
                  && (Chosen(t) <==> (m.run.connected ==> Ready(if ok then WithSource(m) else DropSource(m))))
                  && (!m.past.stale ==>
                        && (Chosen(t) <==> !m.run.connected || ok || m.choice.fill || m.choice.mode == DriverOnly)
                        && (Current(t) <==> !m.run.connected || ok)))
  {
    hide Fire, Deliver, Identify, FlagImage;
    FiresImage(s, e);
    var before := Deliver(Renamed(s), e.p0);
    FlagImageLoses(if e.a.diskOk then Identify(before, e.p3, e) else before, e);
  }

  lemma FiresImage(s: Settled, e: Event)
    requires e.cb == ChooseSource && Enabled(s, ChooseSource) && s.choice.mode == CopyImage && e.a.accept
    requires s.choice.project && !s.memory.failed
    ensures var before := Deliver(Renamed(s), e.p0);
            Fire(s, e) == FlagImage(if e.a.diskOk then Identify(before, e.p3, e) else before, e)
  {
    hide Fire, Deliver, Identify, FlagImage;
    FiresChooseSource(s, e);
    var before := Deliver(Renamed(s), e.p0);
    assert PickSource(s, e) == PickImageSource(s, e);
    assert PickImageSource(s, e) == TakeImage(before, e);
    assert TakeImage(before, e) == FlagImage(if e.a.diskOk then Identify(before, e.p3, e) else before, e);
  }

  lemma FlagImageLoses(m: Settled, e: Event)
    requires !m.run.busy && m.gui.windowOn && Quiet(e.p1) && Quiet(e.p2)
    ensures var t := FlagImage(m, e);
            var ok := e.a.diskOk && e.a.deviceOk;
            && (t.past.stale <==> m.past.stale || (m.run.connected && !ok))
            && (e.p1 == e.p2 == Nil ==>
                  && t == (if ok then WithSource(m) else DropSource(m))
                  && t.run.connected == m.run.connected
                  && (Chosen(t) <==> (m.run.connected ==> Ready(if ok then WithSource(m) else DropSource(m))))
                  && (!m.past.stale ==>
                        && (Chosen(t) <==> !m.run.connected || ok || m.choice.fill || m.choice.mode == DriverOnly)
                        && (Current(t) <==> !m.run.connected || ok)))
  {
    var ok := e.a.diskOk && e.a.deviceOk;
    if ok {
      assert e.p1 == e.p2 == Nil ==> Deliver(Deliver(WithSource(m), e.p1), e.p2) == WithSource(m);
    } else {
      assert e.p2 == Nil ==> Deliver(DropSource(m), e.p2) == DropSource(m);
    }
  }

  /**
   A drive is picked the same way, but only a source picked before can be lost at once, and
   in auto mode identifying it sets the pass-through mode, which needs a source.
   */
  lemma DriveLosesExactly(s: Settled, e: Event)
    requires e.cb == ChooseSource && Enabled(s, ChooseSource) && s.choice.mode != CopyImage && e.a.accept
    requires s.choice.project && !s.memory.failed && Quiet(e.p1) && Quiet(e.p2) && Quiet(e.p3)
    ensures var m := DeviceWait(ReadyMemory(s, e.a), e.p0);
            var t := Fire(s, e);
            var ok := e.a.diskOk && e.a.deviceOk;
            && (t.past.stale <==> m.past.stale || m.run.connected)
            && t.run.connected == m.run.connected
            && (!m.past.stale ==>
                  && (Chosen(t) <==>
                      || !m.run.connected || ok
                      || ((m.choice.fill || m.choice.mode == DriverOnly) && !(e.a.diskOk && m.choice.auto)))
                  && (Current(t) <==> !m.run.connected))
  {
    hide Fire, Deliver, TakeDrive;
    FiresChooseSource(s, e);
    var m := DeviceWait(ReadyMemory(s, e.a), e.p0);
    var d := DeviceWait(Darkened(m), e.p1);
    assert TimerOnly(Darkened(m), d);
    TakeDriveLoses(d, e);
  }

  lemma AgainInTheDark(d: Settled, q: Queue, o: Outcome, installs: bool)
    requires !d.run.busy && !d.gui.windowOn
    ensures var t := SetAgain(d, q, o, installs);
            && t.run.connected == d.run.connected && t.past.link == d.past.link && !t.gui.windowOn
            && t.past.stale == (d.past.stale || d.run.connected) && t.past.version == d.past.version + 1
            && t.choice == ModeChoice(d.choice, Passthrough, true)
  {
    hide Deliver;
    var flags := PassThroughFlags(d);
    assert TimerOnly(flags, Deliver(flags, q));
  }

  lemma IdentifyInTheDark(d: Settled, q: Queue, e: Event)
    requires !d.run.busy && !d.gui.windowOn && q < e
    ensures var t := Identify(d, q, e);
            && t.run.connected == d.run.connected && t.past.link == d.past.link && !t.gui.windowOn
            && t.past.stale == (d.past.stale || (d.choice.auto && d.run.connected))
            && t.past.version == d.past.version + (if !d.choice.auto then 0 else if e.a.ata then 2 else 1)
            && t.choice == (if d.choice.auto then ModeChoice(d.choice, Passthrough, true) else d.choice)
  {
    hide Deliver, SetAgain, Identified, Core;
    if d.choice.auto {
      AgainInTheDark(d, q, e.a.memory.second, e.a.memory.installs);
      IdentifiedInTheDark(SetAgain(d, q, e.a.memory.second, e.a.memory.installs), e);
    } else {
      IdentifiedInTheDark(d, e);
    }
  }

  lemma IdentifiedInTheDark(d: Settled, e: Event)
    requires !d.run.busy && !d.gui.windowOn
    ensures var t := Identified(d, e);
            var again := e.a.ata && d.choice.auto;
            && t.run.connected == d.run.connected && t.past.link == d.past.link && !t.gui.windowOn
            && t.past.stale == (d.past.stale || (again && d.run.connected))
            && t.past.version == d.past.version + (if again then 1 else 0)
            && t.choice == (if again then ModeChoice(d.choice, Passthrough, true) else d.choice)
  {
    hide Deliver, SetAgain, Core;
    var b := DeviceWait(d, e.p4);
    assert TimerOnly(d, b);
    if e.a.ata && b.choice.auto {
      AgainInTheDark(b, e.p5, e.a.memory.third, e.a.memory.installs);
    }
  }

  /** The window is dark: nothing but the timer can act, and identifying alone changes what is chosen. */
  lemma TakeDriveLoses(d: Settled, e: Event)
    requires !d.run.busy && !d.gui.windowOn && Quiet(e.p2) && Quiet(e.p3)
    ensures var t := TakeDrive(d, e);
            var again := e.a.diskOk && d.choice.auto;
            var twice := again && e.a.ata;
            && t.run.connected == d.run.connected && t.past.link == d.past.link
            && (t.past.stale <==> d.past.stale || (again && d.run.connected))
            && t.past.version == d.past.version + (if twice then 2 else if again then 1 else 0)
            && t.choice.project == d.choice.project && t.choice.destination == d.choice.destination
            && t.choice.fill == (d.choice.fill && !again)
            && t.choice.mode == (if again then Passthrough else d.choice.mode)
            && (t.choice.source <==>
                (e.a.diskOk && e.a.deviceOk) || (d.choice.source && (again ==> !d.choice.mode.Direct?)))
  {
    hide Deliver, Identify;
    var n := if e.a.diskOk then Identify(d, e.p2, e) else d;
    if e.a.diskOk {
      IdentifyInTheDark(d, e.p2, e);
    }
    var f := FlagDrive(n, e.a.diskOk && e.a.deviceOk);
    assert TimerOnly(f, Deliver(f, e.p3));
  }

  /**
   A connection with a source that is made has what it needs if and only if everything it
   needs is still chosen when the drives are open, and is one of what the attempt checked
   if and only if nothing has been chosen anew since.
   */
  lemma ConnectLosesExactly(s: Settled, e: Event)
    requires e.cb == Connect && Enabled(s, Connect) && !s.memory.failed && e.a.relayOk
    requires s.choice.project && s.choice.source && s.choice.destination
    requires !s.choice.fill && s.choice.mode != DriverOnly
    requires Quiet(e.p1) && Quiet(e.p2) && Quiet(e.p3) && Quiet(e.p4) && Quiet(e.p5)
    ensures var m := DeviceWait(s, e.p0);
            var t := Fire(s, e);
            var passed := LogAdmitted(e.a) && !e.a.sameDevice;
            var made := passed && e.a.deviceOk;
            && (passed ==> (t.past.stale <==> m.past.stale || (made && m.past.version != s.past.version)))
            && (e.p1 == e.p2 == e.p3 == e.p4 == e.p5 == Nil ==>
                  && (t.run.connected <==> made)
                  && (Chosen(t) <==> (made ==> Ready(m)))
                  && (Current(t) <==> (made ==> m.past.version == s.past.version)))
  {
    hide OpenDrives, SetDisconnected, Deliver, DeviceWait;
    var at := Examine(e.a, true, s.past.version);
    var m := DeviceWait(s, e.p0);
    ExamineAdmits(e.a, true, s.past.version);
    FiresConnect(s, e);
    assert TryConnect(s, e) == ConnectSource(s, e);
    DeliverNil(ConnectSource(s, e));
    if LogAdmitted(e.a) && !e.a.sameDevice {
      OpenStales(m, at, e);
      if e.p1 == e.p2 == e.p3 == e.p4 == e.p5 == Nil {
        OpenDecides(m, at, e);
      }
    } else if e.p4 == e.p5 == Nil {
      DisconnectedAlone(s);
    }
  }

  lemma OpenStales(m: Settled, at: Attempt, e: Event)
    requires !m.run.busy && m.gui.windowOn && Passed(at)
    requires at.version <= m.past.version && (at.version == m.past.version ==> Ready(m))
    requires Quiet(e.p1) && Quiet(e.p2) && Quiet(e.p3) && Quiet(e.p4)
    ensures OpenDrives(m, at, e).past.stale <==> m.past.stale || (e.a.deviceOk && at.version != m.past.version)
  {
  }

  // ---------- one run of each kind that loses it ----------

  const FINE := Memories(Completed, Completed, Completed, false, Untouched)
  const YES := Answers(true, true, true, None, true, false, true, FINE, true, true, false, 0, 0, 0, 0)

  /** A session with a project, in the given mode, without or with drives, as it comes about below. */
  function Started(mode: Mode, drives: bool): Settled {
    Session(Choice(true, drives, drives, false, mode, false, mode == Fill),
            Run(false, false, false, false, 0, false),
            Gui(false, false, false, mode != Fill, true, false, 0),
            Memory(Some(KindOf(mode)), false, false),
            Past(None, [], if drives then 6 else 4, false, SetUp(false, Completed), InStep))
  }

  lemma DeliverNil(s: Settled)
    ensures Deliver(s, Nil) == s
  {
  }

  /** Pressing connect, with nothing else pending, in a session that has all it needs. */
  lemma ConnectAlone(s: Settled) returns (t: Settled)
    requires Enabled(s, Connect) && Admitted(s, YES)
    ensures t == Fire(s, Alone(Connect, YES)) && t.run.connected && t.gui.windowOn && !t.run.busy
    ensures t.choice == s.choice.(newProject := t.choice.newProject) && t.memory == s.memory
    ensures t.past.stale == s.past.stale && t.past.note == s.past.note
  {
    var e := Alone(Connect, YES);
    t := Fire(s, e);
    ConnectDecides(s, YES);
    hide Fire, SetConnected, ConnectSource, Deliver;
    FiresConnect(s, e);
    DeliverNil(TryConnect(s, e));
    if s.choice.fill || s.choice.mode.DriverOnly? {
      ConnectWithoutSourceAlone(s);
    } else {
      ConnectSourceAlone(s);
    }
  }

  lemma ConnectWithoutSourceAlone(s: Settled)
    requires Enabled(s, Connect) && Ready(s) && Admitted(s, YES) && (s.choice.fill || s.choice.mode.DriverOnly?)
    ensures var t := ConnectWithoutSource(s, Alone(Connect, YES));
            && t.choice == s.choice && t.memory == s.memory
            && t.past.stale == s.past.stale && t.past.note == s.past.note && t.gui.windowOn
  {
    hide SetConnected;
    ExamineAdmits(YES, false, s.past.version);
    ConnectedAlone(s, Examine(YES, false, s.past.version), Alone(Connect, YES));
  }

  lemma ConnectSourceAlone(s: Settled)
    requires Enabled(s, Connect) && Ready(s)
    ensures var t := ConnectSource(s, Alone(Connect, YES));
            && t.choice == s.choice.(newProject := false) && t.memory == s.memory
            && t.past.stale == s.past.stale && t.past.note == s.past.note && t.gui.windowOn
  {
    var e := Alone(Connect, YES);
    var at := Examine(YES, true, s.past.version);
    ExamineAdmits(YES, true, s.past.version);
    DisconnectedAlone(s);
    OpenDecides(s, at, e);
  }

  lemma ChooseNullAlone(s: Settled) returns (t: Settled)
    requires Enabled(s, ChooseNull) && s.choice.project
    ensures t == Fire(s, Alone(ChooseNull, YES)) == WithDestination(Change(s, s.choice))
  {
    var e := Alone(ChooseNull, YES);
    t := Fire(s, e);
    assert t == FireMenu(s, e) == PickNull(s, e) == WithDestination(Deliver(Change(s, s.choice), Nil));
  }

  lemma SwitchModeAlone(s: Settled, mode: Mode) returns (t: Settled)
    requires Enabled(s, SwitchMode(mode, false))
    ensures t == Fire(s, Alone(SwitchMode(mode, false), YES)) == OwnSetUp(ModeFlags(s, mode, false), Completed, false)
  {
    var e := Alone(SwitchMode(mode, false), YES);
    t := Fire(s, e);
    assert t == FireMenu(s, e) == ChangeMode(s, mode, false, e);
    assert t == OwnSetUp(Deliver(ModeFlags(s, mode, false), Nil), Completed, false);
  }

  /** A log of the program's own names the fill flag it was written with. */
  function OwnLog(fill: bool): Event {
    Alone(SelectFile, YES.(logFill := Some(fill)))
  }

  lemma SelectFileAlone(s: Settled, fill: bool) returns (t: Settled)
    requires Enabled(s, SelectFile) && !s.run.connected
    ensures t == Fire(s, OwnLog(fill)) == LoadedProject(FillFromLog(NoProject(s), Some(fill)))
  {
    var e := OwnLog(fill);
    t := Fire(s, e);
    assert t == FireMenu(s, e) == OpenProject(s, e);
    assert t == Deliver(LoadedProject(FillFromLog(NoProject(s), Some(fill))), Nil);
  }

  lemma ImageSourceAlone(s: Settled, e: Event)
    requires e == Alone(ChooseSource, YES) && !s.run.busy && !s.run.connected && s.gui.windowOn && !s.choice.auto
    ensures PickImageSource(s, e) == WithSource(Change(s, s.choice))
  {
    var m := Change(s, s.choice);
    assert Deliver(m, Nil) == m && Identify(m, Nil, e) == Identified(m, e) == m;
    FlagImageLoses(m, e);
  }

  lemma DriveAlone(s: Settled, e: Event)
    requires e == Alone(ChooseSource, YES) && !s.run.busy && !s.run.connected && s.gui.windowOn
    requires !s.choice.source && !s.choice.auto
    ensures PickDrive(s, e) == WithSource(Change(s, s.choice))
  {
    var off := Darkened(s);
    assert DeviceWait(off, Nil) == off;
    DeliverNil(FlagDrive(off, true));
    assert TakeDrive(off, e) == Lit(FlagDrive(off, true));
  }

  lemma ChooseSourceAlone(s: Settled) returns (t: Settled)
    requires Enabled(s, ChooseSource) && s.choice.project && !s.memory.failed && !s.memory.used
    requires !s.choice.source && !s.choice.auto
    ensures t == Fire(s, Alone(ChooseSource, YES)) == WithSource(Change(s, s.choice))
  {
    var e := Alone(ChooseSource, YES);
    t := Fire(s, e);
    assert t == FireMenu(s, e) == PickSource(s, e);
    if s.choice.mode.CopyImage? {
      ImageSourceAlone(s, e);
    } else {
      assert ReadyMemory(s, YES) == s && DeviceWait(s, Nil) == s;
      DriveAlone(s, e);
    }
  }

  /** A project without drives: set a mode and open a log of that mode. */
  lemma ProjectIsReached(mode: Mode, rest: Queue) returns (q: Queue)
    requires Quiet(rest)
    ensures Quiet(q) && Deliver(Initial(), q) == Deliver(Started(mode, false), rest)
  {
    hide Fire, Deliver, Quiet;
    var switch, open := Alone(SwitchMode(mode, false), YES), OwnLog(mode == Fill);
    var s1 := SwitchModeAlone(Initial(), mode);
    LogAlone(mode, s1);
    q := Cons(switch, Cons(open, rest));
    Next(Initial(), switch, Cons(open, rest));
    Next(s1, open, rest);
  }

  lemma LogAlone(mode: Mode, s: Settled)
    requires s == OwnSetUp(ModeFlags(Initial(), mode, false), Completed, false)
    ensures Fire(s, OwnLog(mode == Fill)) == Started(mode, false)
  {
    hide Fire;
    var t := SelectFileAlone(s, mode == Fill);
  }

  lemma NextEvent(s: Settled, e: Event, rest: Queue)
    ensures Deliver(s, Cons(e, rest)) == Deliver(Fire(s, e), rest)
    ensures QuietEvent(e) && Quiet(rest) ==> Quiet(Cons(e, rest))
  {
    hide Fire;
  }

  /** An event with nothing nested in it, and then the rest. */
  lemma Next(s: Settled, e: Event, rest: Queue)
    requires e == Alone(e.cb, e.a)
    ensures Deliver(s, Cons(e, rest)) == Deliver(Fire(s, e), rest)
    ensures Quiet(rest) ==> Quiet(Cons(e, rest))
  {
    hide Fire, Deliver;
    NextEvent(s, e, rest);
    AloneIsQuiet(e);
  }

  lemma AloneIsQuiet(e: Event)
    requires e == Alone(e.cb, e.a)
    ensures QuietEvent(e)
  {
    assert Quiet(Nil) && Passive(Nil);
  }

  /** Then both drives. */
  lemma DrivesAreReached(mode: Mode, rest: Queue) returns (q: Queue)
    requires mode != Fill && Quiet(rest)
    ensures Quiet(q) && Deliver(Started(mode, false), q) == Deliver(Started(mode, true), rest)
  {
    hide Fire, Deliver, Quiet;
    var s2 := Started(mode, false);
    var s3 := ChooseSourceAlone(s2);
    var s4 := ChooseNullAlone(s3);
    assert s4 == Started(mode, true);
    var last := Cons(Alone(ChooseNull, YES), rest);
    q := Cons(Alone(ChooseSource, YES), last);
    Next(s2, Alone(ChooseSource, YES), last);
    Next(s3, Alone(ChooseNull, YES), rest);
  }

  /** The sessions below come about in the ordinary way: set a mode, open a project, choose drives. */
  lemma StartedIsReached(mode: Mode, drives: bool, rest: Queue) returns (q: Queue)
    requires drives ==> mode != Fill
    requires Quiet(rest)
    ensures Quiet(q) && Deliver(Initial(), q) == Deliver(Started(mode, drives), rest)
  {
    var after := rest;
    if drives {
      after := DrivesAreReached(mode, rest);
    }
    q := ProjectIsReached(mode, after);
  }

  // ---------- the source menu ----------

  /**
   The source menu follows the mode and the fill flag follows the log. In every run they
   agree if and only if fill is on exactly in fill mode.
   */
  lemma MenuAgreesExactly(q: Queue)
    ensures var t := Deliver(Initial(), q);
            && t.gui.sourceMenu == (t.choice.mode != Fill)
            && (t.gui.sourceMenu == !t.choice.fill <==> t.choice.fill == (t.choice.mode == Fill))
  {
  }

  /** Opening a log makes the menu agree if and only if the log's flag does, or it has none and they agreed. */
  lemma LogDecidesMenu(s: Settled, e: Event)
    requires e.cb == SelectFile && Enabled(s, SelectFile) && !s.run.connected && e.a.accept && e.a.initOk
    requires e.p0 == Nil
    ensures var t := Fire(s, e);
            && t.gui.sourceMenu == s.gui.sourceMenu
            && (t.gui.sourceMenu == !t.choice.fill <==>
                s.gui.sourceMenu == !(if e.a.logFill.Some? then e.a.logFill.value else s.choice.fill))
  {
    var read := FillFromLog(NoProject(s), e.a.logFill);
    assert Fire(s, e) == FireMenu(s, e) == OpenProject(s, e);
    assert e.a.readOk ==> Deliver(LoadedProject(read), Nil) == LoadedProject(read);
  }

  /** From the start, opening a log written in fill mode leaves fill on with the source menu sensitive. */
  lemma LogSetsFillAlone() returns (q: Queue)
    ensures var t := Deliver(Initial(), q);
            Quiet(q) && t.choice.fill && t.gui.sourceMenu && Enabled(t, ChooseSource)
  {
    q := Cons(OwnLog(true), Nil);
    var t := SelectFileAlone(Initial(), true);
    assert Deliver(Initial(), q) == Deliver(t, Nil) == t;
  }

  /** A null destination and then a connection, at one display update. */
  lemma NullThenConnect(s: Settled, inner: Queue) returns (t: Settled)
    requires Enabled(s, ChooseNull) && s.choice.project && s.choice.fill && s.choice.mode == Fill
    requires !s.memory.failed
    requires inner == Cons(Alone(ChooseNull, YES), Cons(Alone(Connect, YES), Nil))
    ensures t == Deliver(s, inner) && t.run.connected && !t.run.busy && t.gui.windowOn
  {
    var connect := Cons(Alone(Connect, YES), Nil);
    var chosen := ChooseNullAlone(s);
    t := ConnectAlone(chosen);
    assert Deliver(chosen, connect) == Deliver(t, Nil) == t;
    assert Deliver(s, inner) == Deliver(chosen, connect);
  }

  /**
   Making a new project empties the domain before it clears the choices. A destination
   chosen and connected during that display update is cleared under the connection.
   */
  lemma NewProjectStripsConnection()
    ensures var inner := Cons(Alone(ChooseNull, YES), Cons(Alone(Connect, YES), Nil));
            var e := Event(NewFile, YES, inner, Nil, Nil, Nil, Nil, Nil);
            var t := Fire(Started(Fill, false), e);
            t.run.connected && !t.choice.destination && !Chosen(t)
  {
    var s := Started(Fill, false);
    var inner := Cons(Alone(ChooseNull, YES), Cons(Alone(Connect, YES), Nil));
    var e := Event(NewFile, YES, inner, Nil, Nil, Nil, Nil, Nil);
    var t := NullThenConnect(ClearBoth(s), inner);
    assert Deliver(t, Nil) == t;
    NewProjectLosesExactly(s, e);
  }

  /**
   Opening the drives in direct mode updates the display while it waits. A project opened
   then, whose log cannot be read, leaves a connection without a project.
   */
  lemma ConnectOutlivesItsProject()
    ensures var unread := Cons(Alone(SelectFile, YES.(readOk := false)), Nil);
            var e := Event(Connect, YES, unread, Nil, Nil, Nil, Nil, Nil);
            var t := Fire(Started(Direct(false), true), e);
            t.run.connected && !Chosen(t) && !Current(t)
  {
    var s := Started(Direct(false), true);
    var open := Alone(SelectFile, YES.(readOk := false));
    var unread := Cons(open, Nil);
    var e := Event(Connect, YES, unread, Nil, Nil, Nil, Nil, Nil);
    var m := NoProject(s);
    assert Fire(s, open) == FireMenu(s, open) == OpenProject(s, open) == FillFromLog(m, None) == m;
    assert DeviceWait(s, unread) == Deliver(s, unread) == Deliver(m, Nil) == m;
    ConnectLosesExactly(s, e);
  }

  /**
   Picking an image file as source updates the display before it opens the image. Connected
   by then with the source chosen earlier, the session loses it when the image cannot be opened.
   */
  lemma ImageSourceStripsConnection()
    ensures var connect := Cons(Alone(Connect, YES), Nil);
            var e := Event(ChooseSource, YES.(deviceOk := false), connect, Nil, Nil, Nil, Nil, Nil);
            var t := Fire(Started(CopyImage, true), e);
            t.run.connected && !Chosen(t)
  {
    var s := Started(CopyImage, true);
    var connect := Cons(Alone(Connect, YES), Nil);
    var e := Event(ChooseSource, YES.(deviceOk := false), connect, Nil, Nil, Nil, Nil, Nil);
    var m := ConnectAlone(Change(s, s.choice));
    assert Deliver(Change(s, s.choice), connect) == Deliver(m, Nil) == m;
    ImageLosesExactly(s, e);
  }
}
