/**
 What each callback does, said in the fields of the session alone: its guard, every state
 it leaves at a display update of its own, in order, and the state it ends in.
 */
module EventLaws {
  import opened Options
  import opened Sessions
  import opened SessionLaws
  import opened MemoryLaws
  import opened ButtonLaws

  // ---------- the parts callbacks are made of ----------

  /** How memory is after a set-up, by how it ended; only one with tables can fail unseen. */
  predicate SetUpEnded(before: Memory, after: Memory, kind: Kind, o: Outcome) {
    match o
    case Completed => after == Memory(Some(kind), false, false)
    case Failed => after == Memory(None, true, before.used)
    case Unseen =>
      after == if kind == IdeTable || kind == AhciTables then Memory(None, false, false)
               else Memory(None, true, before.used)
  }

  /** What a mode needs memory to be set up for. */
  lemma KindExactly(mode: Mode)
    ensures KindOf(mode) == AhciTables <==> mode == Direct(true)
    ensures KindOf(mode) == IdeTable <==> mode == Direct(false)
    ensures KindOf(mode) == UsbBuffer <==> mode == Usb
  {
  }

  /** A set-up for the mode in force: memory by its end, and the driver if it was installed for direct mode. */
  lemma OwnSetUpEnds(n: Settled, o: Outcome, installs: bool)
    requires !n.run.busy
    ensures var t := OwnSetUp(n, o, installs);
            && t.choice == n.choice && t.gui == n.gui && t.past == n.past.(note := t.past.note)
            && t.run == n.run.(installed := n.run.installed || (installs && n.choice.mode.Direct?))
            && SetUpEnded(n.memory, t.memory, KindOf(n.choice.mode), o)
            && (Equipped(t) <==> o == Completed)
            && (t.memory.failed <==> o == Failed || (o == Unseen && !n.choice.mode.Direct?))
  {
  }

  /** The timer as it is after it has been started, which only happens in direct mode. */
  lemma StartTimerExactly(s: Settled)
    ensures var t := StartTimer(s);
            && t == s.(gui := t.gui)
            && t.gui == s.gui.(timerRunning := t.gui.timerRunning, timerSources := t.gui.timerSources)
            && (t.gui.timerRunning <==> s.gui.timerRunning || s.choice.mode.Direct?)
            && t.gui.timerSources == (if t.gui.timerRunning then 1 else 0)
  {
  }

  /** The buttons: in driver-only mode with the driver there it first goes to mode 4 and updates the display. */
  lemma {:induction false} ModeButtonsInOrder(s: Sound, active: bool, q: Queue) returns (u: Settled, n: Session)
    requires s.choice.mode.DriverOnly? ==> !s.gui.modeButtons
    requires active ==> s.run.connected && (s.run.busy ==> s.run.driverMode != 0)
    ensures s.run.installed && s.choice.mode == DriverOnly ==>
              u == s.(run := s.run.(driverMode := 4)) && n == Deliver(u, q)
    ensures !(s.run.installed && s.choice.mode == DriverOnly) ==> n == s
    ensures var t := ModeButtons(s, active, q);
            && t.choice == n.choice && t.run == n.run && t.memory == n.memory
            && t.past == n.past.(button := t.past.button)
            && t.gui == n.gui.(mode4Button := active && s.run.installed,
                               modeButtons := active && s.run.installed && s.choice.mode != DriverOnly)
  {
    hide Deliver;
    u, n := Initial(), s;
    if s.run.installed && s.choice.mode == DriverOnly {
      u := s.(run := s.run.(driverMode := 4));
      n := Deliver(u, q);
    }
  }

  /** Disconnecting: the flag and the clone button, then the mode buttons, then the timer. */
  lemma {:induction false} DisconnectedInOrder(s: Settled, q: Queue) returns (u: Settled, n: Session)
    requires !s.run.busy
    ensures var off := s.(run := s.run.(connected := false), gui := s.gui.(cloneButton := false),
                          past := s.past.(link := None, button := if s.gui.mode4Button then LeftOn else s.past.button));
            && (s.run.installed && s.choice.mode == DriverOnly ==>
                  u == off.(run := off.run.(driverMode := 4)) && n == Deliver(u, q))
            && (!(s.run.installed && s.choice.mode == DriverOnly) ==> n == off)
    ensures var t := SetDisconnected(s, q);
            && t.choice == n.choice && t.run == n.run && t.memory == n.memory
            && t.past == n.past.(button := t.past.button)
            && t.gui == n.gui.(mode4Button := false, modeButtons := false, timerRunning := false, timerSources := 0)
  {
    hide Deliver, ModeButtons;
    u, n := ModeButtonsInOrder(Unlinked(s), false, q);
    assert Base(ModeButtons(Unlinked(s), false, q));
  }

  /** Then the stop signal is cleared, the timer started, and the transfer mode set, which waits in direct mode. */
  lemma {:induction false} WatchInOrder(s: Settled, e: Event) returns (w: Settled)
    requires !s.run.busy
    ensures var timer := s.gui.timerRunning || s.choice.mode.Direct?;
            w == s.(run := s.run.(stopSignal := false),
                    gui := s.gui.(timerRunning := timer, timerSources := if timer then 1 else 0))
    ensures BeginWatch(s, e) == if w.choice.mode.Direct? then Deliver(w, e.p2) else w
  {
    hide Deliver;
    w := StartTimer(s.(run := s.run.(stopSignal := false)));
  }

  /** Connecting: the flag and the clone button, then the mode buttons if the driver is there, then the watch. */
  lemma {:induction false} ConnectedInOrder(s: Settled, at: Attempt, e: Event)
    returns (u: Settled, n: Session, b: Settled)
    requires !s.run.busy && Passed(at)
    requires at.version <= s.past.version && (!s.past.stale ==> Ready(s) && at.version == s.past.version)
    ensures var on := s.(run := s.run.(connected := true), past := s.past.(link := Some(at)),
                         gui := s.gui.(cloneButton := s.choice.mode != DriverOnly));
            && (s.run.installed && s.choice.mode == DriverOnly ==>
                  u == on.(run := on.run.(driverMode := 4)) && n == Deliver(u, e.p1))
            && (!(s.run.installed && s.choice.mode == DriverOnly) ==> n == on)
    ensures b.choice == n.choice && b.run == n.run && b.memory == n.memory && !b.run.busy
    ensures b.past == n.past.(button := b.past.button)
    ensures b.gui == if s.run.installed
                     then n.gui.(mode4Button := true, modeButtons := s.choice.mode != DriverOnly) else n.gui
    ensures SetConnected(s, at, e) == BeginWatch(b, e)
  {
    hide Deliver, ModeButtons, BeginWatch;
    var up := Linked(s, at);
    u, n, b := Initial(), up, up;
    if up.run.installed {
      u, n := ModeButtonsInOrder(up, true, e.p1);
      b := ModeButtons(up, true, e.p1);
    }
  }

  // ---------- projects ----------

  lemma FiresMenu(s: Settled, e: Event)
    requires !IsButton(e.cb) && !IsPassive(e.cb)
    ensures Enabled(s, e.cb) ==> s.gui.windowOn && Fire(s, e) == FireMenu(s, e)
    ensures !Enabled(s, e.cb) ==> Fire(s, e) == s
  {
    hide FireMenu;
  }

  lemma FiresSelectFile(s: Settled, e: Event)
    requires e.cb == SelectFile && Enabled(s, SelectFile)
    ensures Fire(s, e) == OpenProject(s, e)
  {
    hide OpenProject;
  }

  /** Opening a project with the window on and no run or connection: m is the session once the log has been read. */
  lemma {:induction false} SelectFileInOrder(s: Settled, e: Event) returns (m: Settled)
    requires e.cb == SelectFile
    ensures var acts := s.gui.windowOn && !s.run.busy && !s.run.connected && e.a.accept;
            var loaded := e.a.initOk && e.a.readOk;
            && (!acts ==> Fire(s, e) == s)
            && (acts ==>
                  && m == s.(choice := m.choice, past := s.past.(version := m.past.version))
                  && m.past.version > s.past.version
                  && m.choice == s.choice.(
                       project := loaded, source := false, destination := false,
                       newProject := s.choice.newProject && !loaded,
                       fill := if e.a.initOk && e.a.logFill.Some? then e.a.logFill.value else s.choice.fill)
                  && Fire(s, e) == if loaded then Deliver(m, e.p0) else m)
  {
    hide Deliver, Fire;
    FiresMenu(s, e);
    m := s;
    if Enabled(s, SelectFile) {
      FiresSelectFile(s, e);
    }
    if Enabled(s, SelectFile) && !s.run.connected && e.a.accept {
      m := if e.a.initOk then ReadProject(s, e.a.logFill) else NoProject(s);
      if e.a.initOk && e.a.readOk {
        m := LoadedProject(m);
      }
    }
  }

  /** Importing a log needs a new project, and ends as an opened one. */
  lemma {:induction false} ImportInOrder(s: Settled, e: Event) returns (m: Settled)
    requires e.cb == ImportDdrescue
    ensures var acts := s.gui.windowOn && !s.run.busy && !s.run.connected && s.choice.newProject
                        && e.a.accept && e.a.initOk && e.a.readOk;
            && (!acts ==> Fire(s, e) == s)
            && (acts ==>
                  && m == s.(choice := s.choice.(project := true, newProject := false,
                                                 source := false, destination := false),
                             past := s.past.(version := s.past.version + 1))
                  && Fire(s, e) == Deliver(m, e.p0))
  {
    hide Deliver;
    FiresMenu(s, e);
    m := s;
    if Enabled(s, ImportDdrescue) && !s.run.connected && s.choice.newProject {
      m := LoadedProject(s);
    }
  }

  /** A new project: cleared, two updates, a project without drives under any connection there is, and a third. */
  lemma {:induction false} NewFileInOrder(s: Settled, e: Event) returns (c: Settled, f: Settled)
    requires e.cb == NewFile
    ensures var acts := s.gui.windowOn && !s.run.busy && !s.run.connected && e.a.accept;
            && (!acts ==> Fire(s, e) == s)
            && (acts ==>
                  && c == s.(choice := s.choice.(source := false, destination := false),
                             past := s.past.(version := s.past.version + 1))
                  && (var m := Deliver(Deliver(c, e.p0), e.p1);
                      f == m.(choice := m.choice.(project := true, newProject := true,
                                                  source := false, destination := false),
                              past := m.past.(version := m.past.version + 1,
                                              stale := m.past.stale || m.run.connected)))
                  && Fire(s, e) == Deliver(f, e.p2))
  {
    hide Deliver;
    FiresMenu(s, e);
    c, f := s, s;
    if Enabled(s, NewFile) && !s.run.connected && e.a.accept {
      c := ClearedBoth(s);
      f := FreshProject(Deliver(Deliver(c, e.p0), e.p1));
    }
  }

  // ---------- modes ----------

  lemma FiresSwitchMode(s: Settled, e: Event)
    requires e.cb.SwitchMode? && Enabled(s, e.cb)
    ensures Fire(s, e) == ChangeMode(s, e.cb.mode, e.cb.auto, e)
  {
    hide ChangeMode;
  }

  /**
   A change of mode: the flags, a display update, and then memory for whatever mode is in
   force by then, which is equipped for it exactly when the set-up completed.
   */
  lemma {:induction false} SwitchModeInOrder(s: Settled, e: Event) returns (m: Settled)
    requires e.cb.SwitchMode?
    ensures var acts := s.gui.windowOn && !s.run.busy && !s.run.connected && e.a.accept
                        && (e.cb.auto ==> e.cb.mode == Passthrough);
            && (!acts ==> Fire(s, e) == s)
            && (acts ==>
                  && m == s.(choice := s.choice.(
                               source := e.cb.mode == Passthrough && s.choice.source && !s.choice.mode.Direct?,
                               mode := e.cb.mode, auto := e.cb.auto, fill := e.cb.mode == Fill),
                             gui := s.gui.(sourceMenu := e.cb.mode != Fill),
                             past := s.past.(version := s.past.version + 1, note := Switched))
                  && var n, t := Deliver(m, e.p0), Fire(s, e);
                     && t.choice == n.choice && t.gui == n.gui && t.past == n.past.(note := t.past.note)
                     && t.run == n.run.(installed :=
                                          n.run.installed || (e.a.memory.installs && n.choice.mode.Direct?))
                     && SetUpEnded(n.memory, t.memory, KindOf(n.choice.mode), e.a.memory.first)
                     && (Equipped(t) <==> e.a.memory.first == Completed)
                     && (t.memory.failed <==>
                         e.a.memory.first == Failed || (e.a.memory.first == Unseen && !n.choice.mode.Direct?)))
  {
    hide Deliver, SetUpEnded, OwnSetUp, Equipped, Fire, ChangeMode;
    FiresMenu(s, e);
    m := s;
    if Enabled(s, e.cb) {
      FiresSwitchMode(s, e);
      m := FlagsThenMemory(s, e);
    }
  }

  lemma {:induction false} FlagsThenMemory(s: Settled, e: Event) returns (m: Settled)
    requires e.cb.SwitchMode? && Enabled(s, e.cb)
    ensures m == s.(choice := s.choice.(
                      source := e.cb.mode == Passthrough && s.choice.source && !s.choice.mode.Direct?,
                      mode := e.cb.mode, auto := e.cb.auto, fill := e.cb.mode == Fill),
                    gui := s.gui.(sourceMenu := e.cb.mode != Fill),
                    past := s.past.(version := s.past.version + 1, note := Switched))
    ensures var n, t, o := Deliver(m, e.p0), ChangeMode(s, e.cb.mode, e.cb.auto, e), e.a.memory.first;
            && (!e.a.accept ==> t == s)
            && (e.a.accept ==>
                  && t.choice == n.choice && t.gui == n.gui && t.past == n.past.(note := t.past.note)
                  && t.run == n.run.(installed :=
                                       n.run.installed || (e.a.memory.installs && n.choice.mode.Direct?))
                  && SetUpEnded(n.memory, t.memory, KindOf(n.choice.mode), o)
                  && (Equipped(t) <==> o == Completed)
                  && (t.memory.failed <==> o == Failed || (o == Unseen && !n.choice.mode.Direct?)))
  {
    hide Deliver, SetUpEnded, OwnSetUp, Equipped;
    m := ModeFlags(s, e.cb.mode, e.cb.auto);
    OwnSetUpEnds(Deliver(m, e.p0), e.a.memory.first, e.a.memory.installs);
  }

  /** With nothing pending, it is the new mode that memory is set up for. */
  lemma SwitchModeDecides(s: Settled, e: Event)
    requires e.cb.SwitchMode? && Enabled(s, e.cb) && e.a.accept && e.p0 == Nil
    ensures var t, o := Fire(s, e), e.a.memory.first;
            && t.choice.mode == e.cb.mode
            && (Equipped(t) <==> o == Completed)
            && (t.memory.failed <==> o == Failed || (o == Unseen && !e.cb.mode.Direct?))
            && (o == Completed ==>
                  t.memory == Memory(Some(if e.cb.mode == Direct(true) then AhciTables
                                          else if e.cb.mode == Direct(false) then IdeTable
                                          else if e.cb.mode == Usb then UsbBuffer else PlainBuffer), false, false))
            && (o != Completed ==> t.memory.ready == None)
  {
    hide Fire, Deliver;
    var m := SwitchModeInOrder(s, e);
    DeliverNil(m);
  }

  // ---------- destinations ----------

  /** Taking a destination: in driver-only mode the domain is emptied first, with an update of its own. */
  ghost predicate Taken(c: Settled, e: Event, chosen: bool, t: Session) {
    t == if chosen && c.choice.mode == DriverOnly then Deliver(Deliver(c, e.p0), e.p1) else Deliver(c, e.p1)
  }

  lemma {:induction false} SetDestinationTakes(s: Settled, e: Event) returns (c: Settled)
    requires !s.run.connected && s.gui.windowOn
    ensures c == s.(choice := s.choice.(destination := true), past := s.past.(version := s.past.version + 1))
    ensures Taken(c, e, true, SetDestination(s, e))
  {
    hide Deliver;
    c := NewDestination(s, true);
  }

  lemma {:induction false} TakeDestinationTakes(s: Settled, e: Event) returns (c: Settled)
    requires !s.run.connected && s.gui.windowOn
    ensures c == s.(choice := s.choice.(destination := e.a.deviceOk), past := s.past.(version := s.past.version + 1))
    ensures Taken(c, e, e.a.deviceOk, TakeDestination(s, e))
  {
    hide SetDestination, Deliver;
    if e.a.deviceOk {
      c := SetDestinationTakes(s, e);
    } else {
      c := NewDestination(s, false);
    }
  }

  lemma DestinationMemoryEnds(s: Settled, a: Answers)
    requires !s.run.busy && s.gui.windowOn
    ensures var m := DestinationMemory(s, a);
            && m == s.(memory := m.memory, past := s.past.(note := m.past.note))
            && (s.memory.used ==> SetUpEnded(s.memory, m.memory, PlainBuffer, a.memory.first))
            && (!s.memory.used ==> m == s)
  {
  }

  /** Choosing a destination drive: plain memory if a run has used it, whether or not the list is then confirmed. */
  lemma {:induction false} DestinationInOrder(s: Settled, e: Event) returns (m: Settled, c: Settled)
    requires e.cb == ChooseDestination
    ensures var acts := s.gui.windowOn && !s.run.busy && !s.run.connected && s.choice.project;
            && (!acts ==> Fire(s, e) == s)
            && (acts ==>
                  && m == s.(memory := m.memory, past := s.past.(note := m.past.note))
                  && (s.memory.used ==> SetUpEnded(s.memory, m.memory, PlainBuffer, e.a.memory.first))
                  && (!s.memory.used ==> m == s)
                  && (!e.a.accept ==> Fire(s, e) == m)
                  && (e.a.accept ==>
                        && c == m.(choice := s.choice.(destination := e.a.deviceOk),
                                   past := m.past.(version := s.past.version + 1))
                        && Taken(c, e, e.a.deviceOk, Fire(s, e))))
  {
    hide Fire, Taken, SetUpEnded, DestinationMemory, TakeDestination;
    FiresMenu(s, e);
    m, c := s, s;
    if Enabled(s, ChooseDestination) {
      FiresDestination(s, e);
      if s.choice.project {
        DestinationMemoryEnds(s, e.a);
        m := DestinationMemory(s, e.a);
        c := TakeDestinationTakes(m, e);
      }
    }
  }

  lemma FiresChooseImage(s: Settled, e: Event)
    requires e.cb == ChooseImage && Enabled(s, ChooseImage)
    ensures Fire(s, e) == PickImage(s, e)
  {
    hide PickImage;
  }

  /** An image file as destination, taken the same way. */
  lemma {:induction false} ImageInOrder(s: Settled, e: Event) returns (c: Settled)
    requires e.cb == ChooseImage
    ensures var acts := s.gui.windowOn && !s.run.busy && !s.run.connected && s.choice.project && e.a.accept;
            && (!acts ==> Fire(s, e) == s)
            && (acts ==>
                  && c == s.(choice := s.choice.(destination := true),
                             past := s.past.(version := s.past.version + 1))
                  && Taken(c, e, true, Fire(s, e)))
  {
    hide Fire, Taken, SetDestination;
    FiresMenu(s, e);
    c := s;
    if Enabled(s, ChooseImage) {
      FiresChooseImage(s, e);
      if s.choice.project && e.a.accept {
        c := SetDestinationTakes(s, e);
      }
    }
  }

  /** The null device: the update comes before the flag. */
  lemma {:induction false} NullInOrder(s: Settled, e: Event) returns (c: Settled)
    requires e.cb == ChooseNull
    ensures var acts := s.gui.windowOn && !s.run.busy && !s.run.connected && s.choice.project;
            && (!acts ==> Fire(s, e) == s)
            && (acts ==>
                  && c == s.(past := s.past.(version := s.past.version + 1))
                  && var n := Deliver(c, e.p0);
                     Fire(s, e) == n.(choice := n.choice.(destination := true)))
  {
    hide Deliver;
    FiresMenu(s, e);
    c := s;
    if Enabled(s, ChooseNull) && s.choice.project {
      c := Renamed(s);
    }
  }

  // ---------- the driver ----------

  /** Installing the driver: it is there or not, and memory is untouched or set up anew for the mode. */
  lemma InstallExactly(s: Settled, e: Event)
    requires e.cb == InstallDriver
    ensures var acts := s.gui.windowOn && !s.run.busy && !s.run.connected;
            var t := Fire(s, e);
            && (!acts ==> t == s)
            && (acts ==>
                  && t == s.(run := s.run.(installed := e.a.installed), memory := t.memory,
                             past := s.past.(note := t.past.note))
                  && (!e.a.memory.effect.Renewed? ==> t.memory == s.memory && t.past.note == s.past.note)
                  && (e.a.memory.effect.Renewed? ==>
                        var o := e.a.memory.effect.outcome;
                        && SetUpEnded(s.memory, t.memory, KindOf(s.choice.mode), o)
                        && (Equipped(t) <==> o == Completed)
                        && (t.memory.failed <==> o == Failed || (o == Unseen && !s.choice.mode.Direct?))))
  {
    hide FireMenu;
    FiresMenu(s, e);
    if Enabled(s, InstallDriver) {
      DrivenExactly(s, e.a.installed, if e.a.memory.effect == Removed then Untouched else e.a.memory.effect);
      FiresInstall(s, e);
    }
  }

  lemma FiresInstall(s: Settled, e: Event)
    requires e.cb == InstallDriver && Enabled(s, InstallDriver)
    ensures FireMenu(s, e) ==
            Driven(s, e.a.installed, if e.a.memory.effect == Removed then Untouched else e.a.memory.effect)
  {
    hide Driven;
  }

  lemma DrivenExactly(s: Settled, installed: bool, effect: Effect)
    requires !s.run.busy && s.gui.windowOn
    ensures var t := Driven(s, installed, effect);
            && t == s.(run := s.run.(installed := installed), memory := t.memory, past := s.past.(note := t.past.note))
            && (effect == Untouched ==> t.memory == s.memory && t.past.note == s.past.note)
            && (effect == Removed ==> t.memory == s.memory.(ready := None) && t.past.note == Lost)
            && (effect.Renewed? ==>
                  && SetUpEnded(s.memory, t.memory, KindOf(s.choice.mode), effect.outcome)
                  && (Equipped(t) <==> effect.outcome == Completed)
                  && (t.memory.failed <==>
                      effect.outcome == Failed || (effect.outcome == Unseen && !s.choice.mode.Direct?)))
  {
    if effect.Renewed? {
      OwnSetUpEnds(WithDriver(s, installed), effect.outcome, false);
    }
  }

  /** Removing it never puts it there, and can leave memory unmapped. */
  lemma UninstallExactly(s: Settled, e: Event)
    requires e.cb == UninstallDriver
    ensures var acts := s.gui.windowOn && !s.run.busy && !s.run.connected;
            var t, effect := Fire(s, e), e.a.memory.effect;
            && (!acts ==> t == s)
            && (acts ==>
                  && t == s.(run := s.run.(installed := s.run.installed && e.a.installed), memory := t.memory,
                             past := s.past.(note := t.past.note))
                  && (effect == Untouched ==> t.memory == s.memory && t.past.note == s.past.note)
                  && (effect == Removed ==> t.memory == s.memory.(ready := None))
                  && (effect.Renewed? ==>
                        && SetUpEnded(s.memory, t.memory, KindOf(s.choice.mode), effect.outcome)
                        && (Equipped(t) <==> effect.outcome == Completed)
                        && (t.memory.failed <==>
                            effect.outcome == Failed || (effect.outcome == Unseen && !s.choice.mode.Direct?))))
  {
    hide FireMenu;
    FiresMenu(s, e);
    if Enabled(s, UninstallDriver) {
      DrivenExactly(s, s.run.installed && e.a.installed, e.a.memory.effect);
      FiresUninstall(s, e);
    }
  }

  lemma FiresUninstall(s: Settled, e: Event)
    requires e.cb == UninstallDriver && Enabled(s, UninstallDriver)
    ensures FireMenu(s, e) == Driven(s, s.run.installed && e.a.installed, e.a.memory.effect)
  {
    hide Driven;
  }

  // ---------- the callbacks that choose nothing ----------

  lemma FiresPassive(s: Settled, e: Event)
    requires IsPassive(e.cb)
    ensures Enabled(s, e.cb) ==> Fire(s, e) == FirePassive(s, e)
    ensures !Enabled(s, e.cb) ==> Fire(s, e) == s
  {
    hide FirePassive;
  }

  /** Stop only asks a run to stop; a driver mode is set before the display is updated. */
  lemma {:induction false} StopAndModeExactly(s: Settled, e: Event) returns (m: Settled)
    requires e.cb == Stop || e.cb.SetMode? || e.cb == Other
    ensures e.cb == Stop ==>
              Fire(s, e) == if s.gui.windowOn && s.run.busy then s.(run := s.run.(stopSignal := true)) else s
    ensures e.cb.SetMode? ==>
              var sensitive := if e.cb.to == 0 then s.gui.cloneButton
                               else if e.cb.to == 4 then s.gui.mode4Button else s.gui.modeButtons;
              && (!(s.gui.windowOn && sensitive) ==> Fire(s, e) == s)
              && (s.gui.windowOn && sensitive ==>
                    m == s.(run := s.run.(driverMode := e.cb.to)) && Fire(s, e) == Deliver(m, e.p0))
    ensures e.cb == Other ==> Fire(s, e) == if s.gui.windowOn then Deliver(s, e.p0) else s
  {
    hide Deliver;
    FiresPassive(s, e);
    m := s;
    if e.cb.SetMode? && Enabled(s, e.cb) {
      m := s.(run := s.run.(driverMode := e.cb.to));
    }
  }

  /** The timer polls under a connection that is neither filling nor cloning, and otherwise removes itself. */
  lemma {:induction false} TickInOrder(s: Settled, e: Event) returns (m: Settled)
    requires e.cb == Tick
    ensures var polls := s.run.connected && !s.choice.fill && !s.run.cloning;
            && (s.gui.timerSources == 0 ==> Fire(s, e) == s)
            && (s.gui.timerSources > 0 && !polls ==>
                  Fire(s, e) == s.(gui := s.gui.(timerRunning := false, timerSources := 0)))
            && (s.gui.timerSources > 0 && polls ==>
                  && m == s.(past := s.past.(trace := s.past.trace + [Polled(true, false, false, s.run.busy)]))
                  && Fire(s, e) == Deliver(m, e.p0))
  {
    hide Deliver;
    FiresPassive(s, e);
    m := s;
    if Enabled(s, Tick) && s.run.connected && !s.choice.fill && !s.run.cloning {
      m := Noted(s, Polled(s.run.connected, s.run.cloning, s.choice.fill, s.run.busy));
    }
  }

  // ---------- the source ----------

  /** The pass-through flags, an update, memory for whatever mode is in force by then, and the auto flag. */
  lemma {:induction false} SetAgainInOrder(s: Settled, q: Queue, o: Outcome, installs: bool) returns (m: Settled)
    requires !s.run.busy
    ensures m == s.(choice := s.choice.(source := s.choice.source && !s.choice.mode.Direct?,
                                        mode := Passthrough, auto := false, fill := false),
                    gui := s.gui.(sourceMenu := true),
                    past := s.past.(version := s.past.version + 1, stale := s.past.stale || s.run.connected,
                                    note := Switched))
    ensures var n, t := Deliver(m, q), SetAgain(s, q, o, installs);
            && t.choice == n.choice.(auto := true) && t.gui == n.gui && t.past == n.past.(note := t.past.note)
            && t.run == n.run.(installed := n.run.installed || (installs && n.choice.mode.Direct?))
            && SetUpEnded(n.memory, t.memory, KindOf(n.choice.mode), o)
            && (Equipped(t) <==> o == Completed)
            && (t.memory.failed <==> o == Failed || (o == Unseen && !n.choice.mode.Direct?))
  {
    hide Deliver, SetUpEnded, OwnSetUp;
    m := PassThroughFlags(s);
    OwnSetUpEnds(Deliver(m, q), o, installs);
  }

  /** In auto mode the mode is set again, then the drive is waited for, and an ATA drive sets it once more. */
  lemma {:induction false} IdentifyInOrder(s: Settled, q: Queue, e: Event) returns (a: Settled, b: Settled)
    requires !s.run.busy && q < e
    ensures a == if s.choice.auto then SetAgain(s, q, e.a.memory.second, e.a.memory.installs) else s
    ensures b == (if a.choice.mode.Direct? then Deliver(a, e.p4) else a) && !b.run.busy
    ensures Identify(s, q, e) ==
            if e.a.ata && b.choice.auto then SetAgain(b, e.p5, e.a.memory.third, e.a.memory.installs) else b
  {
    hide Deliver, SetAgain;
    a := if s.choice.auto then SetAgain(s, q, e.a.memory.second, e.a.memory.installs) else s;
    b := DeviceWait(a, e.p4);
  }

  /** Whether choosing a source does anything at all. */
  predicate PicksSource(s: Session) {
    && s.gui.windowOn && !s.run.busy && !s.run.connected && s.gui.sourceMenu
    && s.choice.project && !s.memory.failed
  }

  lemma FiresPick(s: Settled, e: Event)
    requires e.cb == ChooseSource
    ensures !PicksSource(s) ==> Fire(s, e) == s
    ensures PicksSource(s) && s.choice.mode == CopyImage ==>
              Fire(s, e) == if e.a.accept then PickImageSource(s, e) else s
    ensures PicksSource(s) && s.choice.mode != CopyImage ==>
              Fire(s, e) == PickDrive(DeviceWait(ReadyMemory(s, e.a), e.p0), e)
  {
    hide Fire, PickImageSource, PickDrive, DeviceWait, ReadyMemory;
    FiresMenu(s, e);
    if Enabled(s, ChooseSource) {
      FiresChooseSource(s, e);
    }
  }

  /** An image: an update, the identification if it opens, the flag set with an update, or cleared; and an update. */
  lemma {:induction false} ImageSourceInOrder(s: Settled, e: Event) returns (c: Settled, i: Settled, w: Settled)
    requires e.cb == ChooseSource && PicksSource(s) && s.choice.mode == CopyImage && e.a.accept
    ensures c == s.(past := s.past.(version := s.past.version + 1))
    ensures var n := Deliver(c, e.p0); i == if e.a.diskOk then Identify(n, e.p3, e) else n
    ensures e.a.diskOk && e.a.deviceOk ==>
              w == i.(choice := i.choice.(source := true)) && Fire(s, e) == Deliver(Deliver(w, e.p1), e.p2)
    ensures !(e.a.diskOk && e.a.deviceOk) ==>
              && w == i.(choice := i.choice.(source := false),
                         past := i.past.(version := i.past.version + 1, stale := i.past.stale || i.run.connected))
              && Fire(s, e) == Deliver(w, e.p2)
  {
    hide Deliver, Identify, Fire, FlagImage;
    FiresImage(s, e);
    c := Renamed(s);
    var n := Deliver(c, e.p0);
    i := if e.a.diskOk then Identify(n, e.p3, e) else n;
    w := FlagImageInOrder(i, e);
  }

  lemma {:induction false} FlagImageInOrder(i: Settled, e: Event) returns (w: Settled)
    requires !i.run.busy && i.gui.windowOn
    ensures e.a.diskOk && e.a.deviceOk ==>
              w == i.(choice := i.choice.(source := true)) && FlagImage(i, e) == Deliver(Deliver(w, e.p1), e.p2)
    ensures !(e.a.diskOk && e.a.deviceOk) ==>
              && w == i.(choice := i.choice.(source := false),
                         past := i.past.(version := i.past.version + 1, stale := i.past.stale || i.run.connected))
              && FlagImage(i, e) == Deliver(w, e.p2)
  {
    hide Deliver;
    w := if e.a.diskOk && e.a.deviceOk then WithSource(i) else DropSource(i);
  }

  /** A drive: memory a run has used is renewed for the mode, and the drives are waited for, before the list. */
  lemma {:induction false} DriveListInOrder(s: Settled, e: Event) returns (r: Settled, n: Settled)
    requires e.cb == ChooseSource && PicksSource(s) && s.choice.mode != CopyImage
    ensures !s.memory.used ==> r == s
    ensures s.memory.used ==>
              var o := e.a.memory.first;
              && r == s.(memory := r.memory, past := s.past.(note := r.past.note),
                         run := s.run.(installed := s.run.installed || (e.a.memory.installs && s.choice.mode.Direct?)))
              && SetUpEnded(s.memory, r.memory, KindOf(s.choice.mode), o)
              && (Equipped(r) <==> o == Completed)
              && (r.memory.failed <==> o == Failed || (o == Unseen && !s.choice.mode.Direct?))
    ensures n == (if r.choice.mode.Direct? then Deliver(r, e.p0) else r) && !n.run.busy && n.gui.windowOn
    ensures Fire(s, e) == PickDrive(n, e)
  {
    hide Deliver, PickDrive, SetUpEnded, Equipped, Fire;
    FiresPick(s, e);
    r := ReadyMemory(s, e.a);
    n := DeviceWait(r, e.p0);
    OwnSetUpEnds(s, e.a.memory.first, e.a.memory.installs);
  }

  /** Then, in the dark, a wait, the identification if it opens, the flag if all is well, and an update. */
  lemma {:induction false} DriveInOrder(n: Settled, e: Event) returns (d: Settled, i: Settled, f: Settled)
    requires !n.run.busy && n.gui.windowOn
    ensures !e.a.accept ==> PickDrive(n, e) == n
    ensures e.a.accept ==>
              && d == n.(choice := n.choice.(source := false), gui := n.gui.(windowOn := false),
                         past := n.past.(version := n.past.version + 1, stale := n.past.stale || n.run.connected))
              && (var w := if d.choice.mode.Direct? then Deliver(d, e.p1) else d;
                  i == if e.a.diskOk && !w.run.busy then Identify(w, e.p2, e) else w)
              && f == i.(choice := i.choice.(source := i.choice.source || (e.a.diskOk && e.a.deviceOk)))
              && var x := Deliver(f, e.p3);
                 PickDrive(n, e) == x.(gui := x.gui.(windowOn := true))
  {
    hide Deliver, Identify;
    d, i, f := n, n, n;
    if e.a.accept {
      d := Darkened(n);
      var w := DeviceWait(d, e.p1);
      i := if e.a.diskOk then Identify(w, e.p2, e) else w;
      f := FlagDrive(i, e.a.diskOk && e.a.deviceOk);
    }
  }

  lemma AgainAlone(s: Settled, o: Outcome, installs: bool)
    requires !s.run.busy
    ensures var t := SetAgain(s, Nil, o, installs);
            && t.choice == PassedThrough(s.choice)
            && t.run == s.run && t.gui == s.gui.(sourceMenu := true)
            && SetUpEnded(s.memory, t.memory, PlainBuffer, o)
  {
    hide Deliver, SetUpEnded, SetAgain;
    var m := SetAgainInOrder(s, Nil, o, installs);
    DeliverNil(m);
  }

  /**
   What setting the mode again does to memory, if it is done, and once more for an ATA
   drive; k is memory in between.
   */
  predicate SetUpAgain(again: bool, a: Answers, before: Memory, k: Memory, after: Memory) {
    && (!again ==> after == before)
    && (again ==> SetUpEnded(before, k, PlainBuffer, a.memory.second))
    && (again && a.ata ==> SetUpEnded(k, after, PlainBuffer, a.memory.third))
    && (again && !a.ata ==> after == k)
  }

  /** Identifying a source with nothing pending: k is memory between the two times the mode is set. */
  lemma {:induction false} IdentifyAlone(s: Settled, e: Event) returns (k: Memory)
    requires !s.run.busy && e.p4 == e.p5 == Nil && Nil < e
    ensures var t := Identify(s, Nil, e);
            && t.run == s.run && t.gui == s.gui.(sourceMenu := s.choice.auto || s.gui.sourceMenu)
            && t.choice == (if s.choice.auto then PassedThrough(s.choice) else s.choice)
            && SetUpAgain(s.choice.auto, e.a, s.memory, k, t.memory)
  {
    hide Deliver, SetUpEnded, SetAgain, Identify, Core;
    var a, b := IdentifyInOrder(s, Nil, e);
    DeliverNil(a);
    k := a.memory;
    if s.choice.auto {
      AgainAlone(s, e.a.memory.second, e.a.memory.installs);
      if e.a.ata {
        AgainAlone(a, e.a.memory.third, e.a.memory.installs);
      }
    }
  }

  /** Pass-through mode, set again for what is chosen. */
  function PassedThrough(c: Choice): Choice {
    Choice(c.project, c.source && !c.mode.Direct?, c.destination, c.newProject, Passthrough, true, false)
  }

  /**
   Choosing a source with nothing pending: what is chosen, and memory by the ends of the
   set-ups there were. In between, memory is m once the list is up, and k after the mode
   has been set again.
   */
  lemma {:induction false} ChooseSourceDecides(s: Settled, e: Event) returns (m: Memory, k: Memory)
    requires e == Alone(ChooseSource, e.a)
    ensures var t, image := Fire(s, e), s.choice.mode == CopyImage;
            var ok, again := e.a.diskOk && e.a.deviceOk, e.a.diskOk && s.choice.auto;
            && (!PicksSource(s) ==> t == s)
            && (PicksSource(s) ==>
                  && t.gui == s.gui
                  && t.run == s.run.(installed := s.run.installed
                                                  || (s.memory.used && e.a.memory.installs && s.choice.mode.Direct?))
                  && (!image && s.memory.used ==> SetUpEnded(s.memory, m, KindOf(s.choice.mode), e.a.memory.first))
                  && (image || !s.memory.used ==> m == s.memory)
                  && (!e.a.accept ==> t.choice == s.choice && t.memory == m)
                  && (e.a.accept ==>
                        && t.choice == s.choice.(source := ok, mode := if again then Passthrough else s.choice.mode,
                                                 fill := s.choice.fill && !again)
                        && SetUpAgain(again, e.a, m, k, t.memory)))
  {
    hide Deliver, SetUpEnded, SetUpAgain, Fire;
    FiresPick(s, e);
    m, k := s.memory, s.memory;
    if PicksSource(s) {
      if s.choice.mode == CopyImage {
        if e.a.accept {
          k := ImageAlone(s, e);
        }
      } else {
        m, k := DriveDecides(s, e);
      }
    }
  }

  lemma {:induction false} ImageAlone(s: Settled, e: Event) returns (k: Memory)
    requires e == Alone(ChooseSource, e.a) && PicksSource(s) && s.choice.mode == CopyImage && e.a.accept
    ensures var t := Fire(s, e);
            var ok, again := e.a.diskOk && e.a.deviceOk, e.a.diskOk && s.choice.auto;
            && t.gui == s.gui && t.run == s.run
            && t.choice == s.choice.(source := ok, mode := if again then Passthrough else s.choice.mode,
                                     fill := s.choice.fill && !again)
            && SetUpAgain(again, e.a, s.memory, k, t.memory)
  {
    hide Deliver, SetUpEnded, Identify, Fire, Core;
    var c, i, w := ImageSourceInOrder(s, e);
    DeliverNil(c);
    DeliverNil(w);
    k := s.memory;
    if e.a.diskOk {
      k := IdentifyAlone(c, e);
    }
  }

  lemma {:induction false} DriveDecides(s: Settled, e: Event) returns (m: Memory, k: Memory)
    requires e == Alone(ChooseSource, e.a) && PicksSource(s) && s.choice.mode != CopyImage
    ensures var t := Fire(s, e);
            var ok, again := e.a.diskOk && e.a.deviceOk, e.a.diskOk && s.choice.auto;
            && t.gui == s.gui
            && t.run == s.run.(installed := s.run.installed
                                            || (s.memory.used && e.a.memory.installs && s.choice.mode.Direct?))
            && (s.memory.used ==> SetUpEnded(s.memory, m, KindOf(s.choice.mode), e.a.memory.first))
            && (!s.memory.used ==> m == s.memory)
            && (!e.a.accept ==> t.choice == s.choice && t.memory == m)
            && (e.a.accept ==>
                  && t.choice == s.choice.(source := ok, mode := if again then Passthrough else s.choice.mode,
                                           fill := s.choice.fill && !again)
                  && SetUpAgain(again, e.a, m, k, t.memory))
  {
    hide Deliver, SetUpEnded, Fire, PickDrive, SetUpAgain;
    var r, n := DriveListInOrder(s, e);
    DeliverNil(r);
    m, k := r.memory, r.memory;
    if e.a.accept {
      k := DriveAccepted(n, e);
    } else {
      var d, i, f := DriveInOrder(n, e);
    }
  }

  lemma {:induction false} DriveAccepted(n: Settled, e: Event) returns (k: Memory)
    requires e == Alone(e.cb, e.a) && e.a.accept && !n.run.busy && n.gui.windowOn
    ensures var t := PickDrive(n, e);
            var ok, again := e.a.diskOk && e.a.deviceOk, e.a.diskOk && n.choice.auto;
            && t.run == n.run && t.gui == n.gui.(sourceMenu := again || n.gui.sourceMenu)
            && t.choice == n.choice.(source := ok, mode := if again then Passthrough else n.choice.mode,
                                     fill := n.choice.fill && !again)
            && SetUpAgain(again, e.a, n.memory, k, t.memory)
  {
    hide Deliver, SetUpEnded, PickDrive, Identify, Core;
    var d, i, f := DriveInOrder(n, e);
    DeliverNil(d);
    DeliverNil(f);
    k := n.memory;
    if e.a.diskOk {
      k := IdentifyAlone(d, e);
    }
  }

  /**
   So after a source is chosen memory is equipped for the mode then in force exactly when
   the last set-up there was has completed, and flagged as failed as that one ended.
   */
  lemma ChooseSourceEquips(s: Settled, e: Event)
    requires e == Alone(ChooseSource, e.a) && PicksSource(s)
    ensures var t := Fire(s, e);
            var again := e.a.accept && e.a.diskOk && s.choice.auto;
            var renewed := s.choice.mode != CopyImage && s.memory.used;
            var last := if again then if e.a.ata then e.a.memory.third else e.a.memory.second else e.a.memory.first;
            && (again || renewed ==>
                  && (Equipped(t) <==> last == Completed)
                  && (t.memory.failed <==> last == Failed || (last == Unseen && !t.choice.mode.Direct?)))
            && (!again && !renewed ==> t.memory == s.memory && t.choice.mode == s.choice.mode)
  {
    hide Fire, Core;
    var m, k := ChooseSourceDecides(s, e);
  }

  // ---------- connecting ----------

  /** Whether an attempt is made, and not just refused with a message. */
  predicate Attempts(s: Session, a: Answers) {
    && s.gui.windowOn && !s.run.connected && !s.memory.failed && s.choice.project && s.choice.destination
    && (s.choice.fill || s.choice.mode == DriverOnly || (s.choice.source && a.relayOk))
  }

  lemma FiresTry(s: Settled, e: Event)
    requires e.cb == Connect
    ensures Attempts(s, e.a) ==> !s.run.busy && Ready(s)
    ensures !(s.gui.windowOn && !s.run.connected) ==> Fire(s, e) == s
    ensures s.gui.windowOn && !s.run.connected && !Attempts(s, e.a) ==> Fire(s, e) == Deliver(s, e.p5)
    ensures Attempts(s, e.a) ==>
              Fire(s, e) == Deliver(if s.choice.fill || s.choice.mode == DriverOnly then ConnectWithoutSource(s, e)
                                    else ConnectSource(s, e), e.p5)
  {
    hide Fire, Deliver, ConnectWithoutSource, ConnectSource;
    if Enabled(s, Connect) {
      FiresConnect(s, e);
    } else {
      FiresNothing(s, e);
    }
  }

  lemma FiresNothing(s: Settled, e: Event)
    requires !Enabled(s, e.cb)
    ensures Fire(s, e) == s
  {
  }

  /**
   An attempt without a source: refused for a new project, a log that is not clean or a
   missing driver, or for devices that do not open after a wait; otherwise it connects.
   */
  lemma {:induction false} WithoutSourceInOrder(s: Settled, e: Event) returns (at: Attempt)
    requires e.cb == Connect && Attempts(s, e.a) && (s.choice.fill || s.choice.mode == DriverOnly)
    ensures var refused := (s.choice.newProject && !s.choice.fill) || !LogAdmitted(e.a)
                           || (s.choice.mode == DriverOnly && !s.run.installed);
            var t := Fire(s, e);
            && !s.run.busy
            && (refused ==> t == Deliver(SetDisconnected(s, e.p4), e.p5))
            && (!refused && !e.a.deviceOk ==>
                  && (s.choice.mode.Direct? ==>
                        !Deliver(s, e.p3).run.busy && t == Deliver(SetDisconnected(Deliver(s, e.p3), e.p4), e.p5))
                  && (!s.choice.mode.Direct? ==> t == Deliver(SetDisconnected(s, e.p4), e.p5)))
            && (!refused && e.a.deviceOk ==>
                  && Passed(at) && at.version == s.past.version && Ready(s)
                  && t == Deliver(SetConnected(s, at, e), e.p5))
  {
    hide Fire, Deliver, SetDisconnected, SetConnected;
    FiresTry(s, e);
    at := Examine(e.a, false, s.past.version);
    ExamineAdmits(e.a, false, s.past.version);
  }

  /**
   An attempt with a source: refused for the same device or a log that is not clean;
   otherwise the drives are waited for, and then they open, or do not after another wait.
   */
  lemma {:induction false} WithSourceInOrder(s: Settled, e: Event) returns (at: Attempt, m: Settled, o: Settled)
    requires e.cb == Connect && Attempts(s, e.a) && !s.choice.fill && s.choice.mode != DriverOnly
    ensures var refused := e.a.sameDevice || !LogAdmitted(e.a);
            var t := Fire(s, e);
            && !s.run.busy && !m.run.busy && m == (if s.choice.mode.Direct? then Deliver(s, e.p0) else s)
            && (refused ==> t == Deliver(SetDisconnected(s, e.p4), e.p5))
            && (!refused && !e.a.deviceOk ==>
                  && (m.choice.mode.Direct? ==>
                        !Deliver(m, e.p3).run.busy && t == Deliver(SetDisconnected(Deliver(m, e.p3), e.p4), e.p5))
                  && (!m.choice.mode.Direct? ==> t == Deliver(SetDisconnected(m, e.p4), e.p5)))
            && (!refused && e.a.deviceOk ==>
                  && Passed(at) && at.version == s.past.version && m.past.version >= at.version
                  && o == m.(past := m.past.(stale := m.past.stale || s.past.version != m.past.version))
                  && (!o.past.stale ==> Ready(o))
                  && var c := SetConnected(o, at, e);
                     t == Deliver(Known(c), e.p5))
  {
    hide Fire, Deliver, SetDisconnected, SetConnected, OpenDrives;
    FiresTry(s, e);
    at := Examine(e.a, true, s.past.version);
    ExamineAdmits(e.a, true, s.past.version);
    m, o := DeviceWait(s, e.p0), s;
    if !e.a.sameDevice && LogAdmitted(e.a) {
      o := OpenInOrder(m, at, e);
    }
  }

  /** The project is no longer a new one. */
  function Known(s: Settled): (t: Settled)
    ensures t == s.(choice := s.choice.(newProject := false))
  {
    s.(choice := s.choice.(newProject := false))
  }

  lemma {:induction false} OpenInOrder(m: Settled, at: Attempt, e: Event) returns (o: Settled)
    requires !m.run.busy && m.gui.windowOn && Passed(at)
    requires at.version <= m.past.version && (at.version == m.past.version ==> Ready(m))
    ensures !e.a.deviceOk ==>
              && (m.choice.mode.Direct? ==>
                    !Deliver(m, e.p3).run.busy && OpenDrives(m, at, e) == SetDisconnected(Deliver(m, e.p3), e.p4))
              && (!m.choice.mode.Direct? ==> OpenDrives(m, at, e) == SetDisconnected(m, e.p4))
    ensures e.a.deviceOk ==>
              && o == m.(past := m.past.(stale := m.past.stale || at.version != m.past.version))
              && (!o.past.stale ==> Ready(o)) && at.version <= o.past.version
              && OpenDrives(m, at, e) == Known(SetConnected(o, at, e))
  {
    hide Deliver, SetDisconnected, SetConnected;
    o := Aged(m, at);
  }

  // ---------- runs ----------

  /** Disconnecting: a wait, the session disconnected, and an update. */
  lemma {:induction false} DisconnectInOrder(s: Settled, e: Event) returns (w: Settled)
    requires e.cb == Disconnect
    ensures var acts := s.gui.windowOn && s.run.connected && !s.run.busy;
            && (!acts ==> Fire(s, e) == s)
            && (acts ==>
                  && w == (if s.choice.mode.Direct? then Deliver(s, e.p3) else s) && !w.run.busy
                  && Fire(s, e) == Deliver(SetDisconnected(w, e.p4), e.p5))
  {
    hide Fire, Deliver, SetDisconnected;
    w := s;
    if Enabled(s, Disconnect) {
      FiresDisconnect(s, e);
      w := DevicesInOrder(s, e);
    } else {
      FiresNothing(s, e);
    }
  }

  lemma FiresDisconnect(s: Settled, e: Event)
    requires e.cb == Disconnect && Enabled(s, Disconnect)
    ensures Fire(s, e) == DisconnectDevices(s, e)
  {
    hide DisconnectDevices;
    assert Fire(s, e) == FireButton(s, e);
  }

  lemma {:induction false} DevicesInOrder(s: Settled, e: Event) returns (w: Settled)
    requires !s.run.busy
    ensures w == (if s.choice.mode.Direct? then Deliver(s, e.p3) else s) && !w.run.busy
    ensures DisconnectDevices(s, e) == Deliver(SetDisconnected(w, e.p4), e.p5)
  {
    hide Deliver, SetDisconnected;
    w := DeviceWait(s, e.p3);
  }

  /** The end of a run: disconnected unless it succeeded or was stopped, and the timer started in direct mode. */
  lemma {:induction false} FinishInOrder(s: Settled, e: Event) returns (w: Settled, d: Settled)
    requires !s.run.busy && s.gui.windowOn
    ensures e.a.ret == 0 || e.a.ret == STOP_SIGNAL_RETURN_CODE ==> d == s
    ensures !(e.a.ret == 0 || e.a.ret == STOP_SIGNAL_RETURN_CODE) ==>
              && w == (if s.choice.mode.Direct? then Deliver(s, e.p3) else s) && !w.run.busy
              && d == Deliver(SetDisconnected(w, e.p4), e.p5)
    ensures var timer := d.gui.timerRunning || d.choice.mode.Direct?;
            FinishRun(s, e) == d.(gui := d.gui.(timerRunning := timer, timerSources := if timer then 1 else 0))
  {
    hide Deliver, SetDisconnected, DisconnectDevices;
    w, d := s, s;
    if e.a.ret != 0 && e.a.ret != STOP_SIGNAL_RETURN_CODE {
      w := DevicesInOrder(s, e);
      d := DisconnectDevices(s, e);
    }
  }

  /** Only a session with the window on, connected and not at work can start either kind of run. */
  lemma RunsNeedConnection(s: Settled, e: Event)
    requires e.cb == Start || e.cb == Analyze
    requires !(s.gui.windowOn && s.run.connected && !s.run.busy)
    ensures Fire(s, e) == s
  {
    FiresNothing(s, e);
  }

  /** The start of a run: stop signal off, busy, the clone button off, and the timer stopped. */
  lemma RunningExactly(s: Settled)
    requires s.run.connected && !s.run.busy
    ensures Running(s) == s.(run := s.run.(stopSignal := false, busy := true),
                             gui := s.gui.(cloneButton := false, timerRunning := false, timerSources := 0))
  {
  }

  /** Its end: neither busy nor cloning, and the clone button on except in driver-only mode. */
  lemma IdleExactly(s: Settled)
    requires s.run.busy
    ensures Idle(s) == s.(run := s.run.(cloning := false, busy := false),
                          gui := s.gui.(cloneButton := s.choice.mode != DriverOnly))
  {
  }

  /**
   A clone run: the buttons at its start, the engine by the driver mode they leave, the run
   with all it delivers, the buttons at its end, and the end.
   */
  lemma {:induction false} StartInOrder(s: Settled, e: Event) returns (b: Settled, c: Settled)
    requires e.cb == Start && s.gui.windowOn && s.run.connected && !s.run.busy
    ensures b == ModeButtons(Running(s), s.run.driverMode != 0, e.p0)
    ensures c == b.(memory := b.memory.(used := true), run := b.run.(cloning := true),
                    past := b.past.(trace := b.past.trace
                      + [Began(b.run.driverMode != 0, b.choice.mode == DriverOnly, b.run.installed)]))
    ensures var d := Deliver(c, e.p1);
            && d.run.busy && d.run.connected && d.gui.windowOn
            && Fire(s, e) == FinishRun(ModeButtons(Idle(d), true, e.p2), e)
  {
    hide Fire, Deliver, ModeButtons, FinishRun;
    FiresStart(s, e);
    b := ModeButtons(Running(s), s.run.driverMode != 0, e.p0);
    c := BeginClone(s, e);
    BeginsCloneConnected(s, e);
    assert SameRun(c, Deliver(c, e.p1));
  }

  /** An analysis: the buttons off for the while, and back at its end if the driver is there. */
  lemma {:induction false} AnalyzeInOrder(s: Settled, e: Event) returns (b: Settled, c: Settled)
    requires e.cb == Analyze && s.gui.windowOn && s.run.connected && !s.run.busy
    ensures b == ModeButtons(Running(s), false, e.p0)
    ensures c == b.(memory := b.memory.(used := true))
    ensures var d := Deliver(c, e.p1);
            && d.run.busy && d.run.connected && d.gui.windowOn
            && Fire(s, e) == FinishRun(if d.run.installed then ModeButtons(Idle(d), true, e.p2) else Idle(d), e)
  {
    hide Fire, Deliver, ModeButtons, FinishRun;
    FiresAnalyze(s, e);
    b := ModeButtons(Running(s), false, e.p0);
    assert SameButButtons(Running(s), b);
    c := UsesMemory(b);
    assert SameRun(c, Deliver(c, e.p1));
  }

  // ---------- what they leave when nothing is pending ----------

  /** A connection ended, or not made: in driver-only mode with the driver there it is left at mode 4. */
  predicate Parted(s: Session, t: Session) {
    && t.choice == s.choice && t.memory == s.memory
    && t.run == s.run.(connected := false,
                       driverMode := if s.run.installed && s.choice.mode == DriverOnly then 4 else s.run.driverMode)
    && t.gui == s.gui.(cloneButton := false, mode4Button := false, modeButtons := false,
                       timerRunning := false, timerSources := 0)
  }

  /** A connection made. */
  predicate Joined(s: Session, t: Session) {
    var timer := s.gui.timerRunning || s.choice.mode.Direct?;
    var only := s.choice.mode == DriverOnly;
    && t.choice == s.choice.(newProject := t.choice.newProject) && t.memory == s.memory
    && t.run == s.run.(connected := true, stopSignal := false,
                       driverMode := if s.run.installed && only then 4 else s.run.driverMode)
    && t.gui == s.gui.(cloneButton := !only, mode4Button := s.run.installed || s.gui.mode4Button,
                       modeButtons := if s.run.installed then !only else s.gui.modeButtons,
                       timerRunning := timer, timerSources := if timer then 1 else 0)
  }

  lemma DisconnectedLeaves(s: Settled)
    requires !s.run.busy
    ensures Parted(s, SetDisconnected(s, Nil))
  {
    hide Deliver, SetDisconnected;
    var u, n := DisconnectedInOrder(s, Nil);
    DeliverNil(u);
  }

  lemma ConnectedLeaves(s: Settled, at: Attempt, e: Event)
    requires !s.run.busy && Passed(at) && e.p1 == e.p2 == Nil
    requires at.version <= s.past.version && (!s.past.stale ==> Ready(s) && at.version == s.past.version)
    ensures var t := SetConnected(s, at, e); Joined(s, t) && t.choice == s.choice
  {
    hide Deliver, SetConnected, BeginWatch, Core, Passed;
    var u, n, b := ConnectedInOrder(s, at, e);
    DeliverNil(u);
    WatchLeaves(b, e);
  }

  lemma WatchLeaves(s: Settled, e: Event)
    requires !s.run.busy && e.p2 == Nil
    ensures var timer := s.gui.timerRunning || s.choice.mode.Direct?;
            BeginWatch(s, e) == s.(run := s.run.(stopSignal := false),
                                   gui := s.gui.(timerRunning := timer, timerSources := if timer then 1 else 0))
  {
    hide Deliver, BeginWatch;
    var w := WatchInOrder(s, e);
    DeliverNil(w);
  }

  lemma WithoutSourceLeaves(s: Settled, e: Event)
    requires e == Alone(Connect, e.a) && Attempts(s, e.a) && (s.choice.fill || s.choice.mode == DriverOnly)
    ensures var t := Fire(s, e);
            if Admitted(s, e.a) then Joined(s, t) && t.choice == s.choice else Parted(s, t)
  {
    hide Fire, Deliver, SetConnected, SetDisconnected, Passed, Core, Joined, Parted;
    var at := WithoutSourceInOrder(s, e);
    DeliverNil(s);
    if Admitted(s, e.a) {
      ConnectedLeaves(s, at, e);
      DeliverNil(SetConnected(s, at, e));
    } else {
      DisconnectedLeaves(s);
      DeliverNil(SetDisconnected(s, Nil));
    }
  }

  lemma WithSourceLeaves(s: Settled, e: Event)
    requires e == Alone(Connect, e.a) && Attempts(s, e.a) && !s.choice.fill && s.choice.mode != DriverOnly
    ensures var t := Fire(s, e);
            if Admitted(s, e.a) then Joined(s, t) && !t.choice.newProject else Parted(s, t)
  {
    hide Fire, Deliver, SetConnected, SetDisconnected, Passed, Core, Parted;
    var at, m, o := WithSourceInOrder(s, e);
    DeliverNil(s);
    if Admitted(s, e.a) {
      ConnectedLeaves(o, at, e);
      DeliverNil(Known(SetConnected(o, at, e)));
    } else {
      DisconnectedLeaves(s);
      DeliverNil(SetDisconnected(s, Nil));
    }
  }

  /** Pressing connect: nothing, or a connection, or everything that belongs to one switched off. */
  lemma ConnectLeaves(s: Settled, e: Event)
    requires e == Alone(Connect, e.a)
    ensures var t := Fire(s, e);
            && (!Attempts(s, e.a) ==> t == s)
            && (Attempts(s, e.a) && !Admitted(s, e.a) ==> Parted(s, t))
            && (Attempts(s, e.a) && Admitted(s, e.a) ==>
                  && Joined(s, t)
                  && t.choice.newProject == (s.choice.newProject && (s.choice.fill || s.choice.mode == DriverOnly)))
  {
    hide Fire, Parted, Core;
    FiresTry(s, e);
    if !Attempts(s, e.a) {
      DeliverNil(s);
    } else if s.choice.fill || s.choice.mode == DriverOnly {
      WithoutSourceLeaves(s, e);
    } else {
      WithSourceLeaves(s, e);
    }
  }

  lemma DisconnectLeaves(s: Settled, e: Event)
    requires e == Alone(Disconnect, e.a) && s.gui.windowOn && s.run.connected && !s.run.busy
    ensures Parted(s, Fire(s, e))
  {
    hide Fire, Deliver, SetDisconnected;
    var w := DisconnectInOrder(s, e);
    DeliverNil(s);
    DisconnectedLeaves(s);
    DeliverNil(SetDisconnected(s, Nil));
  }

  /** The end of a run that is over: connected unless it failed, and the timer of a direct mode running in any case. */
  lemma FinishLeaves(s: Settled, e: Event)
    requires !s.run.busy && s.gui.windowOn && e.p3 == e.p4 == e.p5 == Nil
    ensures var t, to4 := FinishRun(s, e), s.run.installed && s.choice.mode == DriverOnly;
            var well := e.a.ret == 0 || e.a.ret == STOP_SIGNAL_RETURN_CODE;
            var timer := (well && s.gui.timerRunning) || s.choice.mode.Direct?;
            && t.choice == s.choice && t.memory == s.memory
            && t.run == s.run.(connected := well && s.run.connected,
                               driverMode := if !well && to4 then 4 else s.run.driverMode)
            && t.gui == s.gui.(cloneButton := well && s.gui.cloneButton, mode4Button := well && s.gui.mode4Button,
                               modeButtons := well && s.gui.modeButtons,
                               timerRunning := timer, timerSources := if timer then 1 else 0)
  {
    hide Deliver, SetDisconnected, FinishRun, Core;
    var w, d := FinishInOrder(s, e);
    DeliverNil(s);
    DisconnectedLeaves(s);
    DeliverNil(SetDisconnected(s, Nil));
  }

  lemma ButtonsLeave(s: Sound, active: bool)
    requires s.choice.mode.DriverOnly? ==> !s.gui.modeButtons
    requires active ==> s.run.connected && (s.run.busy ==> s.run.driverMode != 0)
    ensures var t, to4 := ModeButtons(s, active, Nil), s.run.installed && s.choice.mode == DriverOnly;
            && t.choice == s.choice && t.memory == s.memory
            && t.run == s.run.(driverMode := if to4 then 4 else s.run.driverMode)
            && t.gui == s.gui.(mode4Button := active && s.run.installed,
                               modeButtons := active && s.run.installed && s.choice.mode != DriverOnly)
  {
    ButtonsAlone(s, active);
  }

  /** What a run of either kind leaves: t, from the session s it started in, by what it returned. */
  predicate RunLeft(s: Session, a: Answers, t: Session) {
    var well := a.ret == 0 || a.ret == STOP_SIGNAL_RETURN_CODE;
    var only := s.choice.mode == DriverOnly;
    && t.choice == s.choice && t.memory == s.memory.(used := true)
    && t.run == s.run.(connected := well, busy := false, cloning := false, stopSignal := false,
                       driverMode := if s.run.installed && only then 4 else s.run.driverMode)
    && t.gui == s.gui.(cloneButton := well && !only, mode4Button := well && s.run.installed,
                       modeButtons := well && s.run.installed && !only,
                       timerRunning := s.choice.mode.Direct?, timerSources := if s.choice.mode.Direct? then 1 else 0)
  }

  lemma StartLeaves(s: Settled, e: Event)
    requires e == Alone(Start, e.a) && s.gui.windowOn && s.run.connected && !s.run.busy
    ensures RunLeft(s, e.a, Fire(s, e))
  {
    hide Fire, Deliver, ModeButtons, FinishRun, Running, Idle;
    var b, c := StartInOrder(s, e);
    RunningExactly(s);
    ButtonsLeave(Running(s), s.run.driverMode != 0);
    DeliverNil(c);
    RunEnds(c, e);
  }

  lemma RunEnds(c: Settled, e: Event)
    requires c.run.busy && c.run.connected && c.gui.windowOn && e == Alone(e.cb, e.a)
    ensures var t, to4 := FinishRun(ModeButtons(Idle(c), true, Nil), e), c.run.installed && c.choice.mode == DriverOnly;
            var well, only := e.a.ret == 0 || e.a.ret == STOP_SIGNAL_RETURN_CODE, c.choice.mode == DriverOnly;
            && t.choice == c.choice && t.memory == c.memory
            && t.run == c.run.(connected := well, busy := false, cloning := false,
                               driverMode := if to4 then 4 else c.run.driverMode)
            && t.gui == c.gui.(cloneButton := well && !only, mode4Button := well && c.run.installed,
                               modeButtons := well && c.run.installed && !only,
                               timerRunning := c.choice.mode.Direct?,
                               timerSources := if c.choice.mode.Direct? then 1 else 0)
  {
    hide ModeButtons, FinishRun, Idle, Deliver;
    IdleExactly(c);
    ButtonsLeave(Idle(c), true);
    FinishLeaves(ModeButtons(Idle(c), true, Nil), e);
  }

  lemma AnalyzeLeaves(s: Settled, e: Event)
    requires e == Alone(Analyze, e.a) && s.gui.windowOn && s.run.connected && !s.run.busy
    ensures RunLeft(s, e.a, Fire(s, e))
  {
    hide Fire, Deliver, ModeButtons, FinishRun, Running, Idle;
    var b, c := AnalyzeInOrder(s, e);
    RunningExactly(s);
    ButtonsLeave(Running(s), false);
    DeliverNil(c);
    if c.run.installed {
      RunEnds(c, e);
    } else {
      IdleExactly(c);
      FinishLeaves(Idle(c), e);
    }
  }
}
