/**
 The main window: the callbacks of clone_gui2.c as methods over the flags and the widget
 sensitivities they set one by one. Every method does to the flags what the state machine
 says, and leaves each widget as sensitive as the state machine takes it to be.
 */
module MainWindow {
  import opened Options
  import S = Sessions

  // What gtk_widget_set_sensitive has set, widget by widget.

  datatype Buttons = Buttons(connect: bool, disconnect: bool, start: bool, analyze: bool, stop: bool, cloneMode: bool)

  datatype Menus = Menus(topMenu: bool, modeMenu: bool, drivesMenu: bool, sourceMenu: bool)

  /**
   Connect is sensitive when not connected, disconnect, start and analyze when connected
   without a run, and stop during a run. The clone-mode button was set by the last of these.
   */
  function ButtonsOf(s: S.Session): Buttons {
    var free := s.run.connected && !s.run.busy;
    Buttons(!s.run.connected, free, free, free, s.run.busy, s.gui.cloneButton)
  }

  /**
   The top menu is sensitive outside a run, and its mode and drives menus when not connected.
   The source menu was set with the last mode, and need not agree with the fill flag since.
   */
  function MenusOf(s: S.Session): Menus {
    Menus(!s.run.busy, !s.run.connected, !s.run.connected, s.gui.sourceMenu)
  }

  class MainWindow {
    // What is chosen, and the mode flags.
    var choice: S.Choice
    // memory_failed_ccc and memory_used_ccc; what memory is set up for no flag tells.
    var memoryFailed: bool
    var memoryUsed: bool
    ghost var ready: Option<S.Kind>
    var connected: bool
    var cloning: bool
    var stopSignal: bool
    var driverMode: S.DriverMode
    var installed: bool
    // The running flag, and the sources GTK holds for it.
    var timerRunning: bool
    var timerSources: int
    var buttons: Buttons
    var menus: Menus
    var mode4Button: bool
    var modeButtons: bool
    var window: bool
    ghost var past: S.Past

    /** The session as the state machine has it; a run is on the stack exactly while stop can be pressed. */
    ghost function View(): S.Session
      reads this
    {
      S.Session(choice,
                S.Run(connected, buttons.stop, cloning, stopSignal, driverMode, installed),
                S.Gui(mode4Button, modeButtons, buttons.cloneMode, menus.sourceMenu, window,
                      timerRunning, timerSources),
                S.Memory(ready, memoryFailed, memoryUsed),
                past)
    }

    /** The flags are those of s, and every widget is as sensitive as s has it. */
    ghost predicate Shows(s: S.Session)
      reads this
    {
      View() == s && buttons == ButtonsOf(s) && menus == MenusOf(s)
    }

    constructor ()
      ensures Shows(S.Initial())
      ensures choice.mode == S.Passthrough && choice.auto && !choice.fill && !choice.newProject
      ensures !choice.project && !choice.source && !choice.destination && !connected && !installed
    {
      choice := S.Choice(false, false, false, false, S.Passthrough, true, false);
      memoryFailed, memoryUsed, ready := false, false, Some(S.PlainBuffer);
      connected, cloning, stopSignal, driverMode, installed := false, false, false, 0, false;
      timerRunning, timerSources := false, 0;
      buttons := Buttons(true, false, false, false, false, false);
      menus := Menus(true, true, true, true);
      mode4Button, modeButtons, window := false, false, true;
      past := S.Past(None, [], 0, false, S.SetUp(false, S.Completed), S.InStep);
    }

    // ---------- timer ----------

    method StartTimer(ghost s: S.Session)
      requires Shows(s)
      modifies this`timerRunning, this`timerSources
      ensures Shows(S.StartTimer(s))
    {
      if choice.mode.Direct? && !timerRunning {
        timerSources := timerSources + 1;
        timerRunning := true;
      }
    }

    method StopTimer(ghost s: S.Session)
      requires Shows(s)
      modifies this`timerRunning, this`timerSources
      ensures Shows(S.StopTimer(s))
    {
      if timerRunning {
        timerSources := timerSources - 1;
        timerRunning := false;
      }
    }

    /** A return of false makes GTK drop the source that fired, and then none is left. */
    method TimerAction(e: S.Event, ghost s: S.Settled) returns (again: bool)
      requires Shows(s) && timerSources > 0
      modifies this
      ensures Shows(S.TimerTick(s, e))
      ensures !again ==> timerSources == 0
      decreases e, 1
    {
      hide S.Deliver;
      if choice.fill || !connected || cloning {
        timerRunning := false;
        timerSources := timerSources - 1;
        return false;
      }
      past := past.(trace := past.trace + [S.Polled(connected, cloning, choice.fill, buttons.stop)]);
      Deliver(e.p0, S.Noted(s, S.Polled(connected, cloning, choice.fill, buttons.stop)));
      return true;
    }

    // ---------- shared pieces ----------

    method ClearSource()
      modifies this`choice
      ensures choice == old(choice).(source := false)
    {
      choice := choice.(source := false);
    }

    method ClearDestination()
      modifies this`choice
      ensures choice == old(choice).(destination := false)
    {
      choice := choice.(destination := false);
    }

    /** What is chosen has changed. */
    ghost method NoteChange()
      modifies this`past
      ensures past == old(past).(version := old(past).version + 1, stale := old(past).stale || connected)
    {
      past := past.(version := past.version + 1, stale := past.stale || connected);
    }

    method DeviceWait(q: S.Queue, ghost s: S.Settled)
      requires Shows(s)
      modifies this
      ensures Shows(S.DeviceWait(s, q))
      decreases q, 1
    {
      if choice.mode.Direct? {
        Deliver(q, s);
      }
    }

    method SetButtons(mode4: bool, others: bool, ghost s: S.Session)
      requires Shows(s)
      modifies this`mode4Button, this`modeButtons, this`past
      ensures Shows(S.SetButtons(s, mode4, others))
    {
      past := past.(button := if mode4 && !connected then S.Late else S.InStep);
      mode4Button := mode4;
      modeButtons := others;
    }

    method SetDriverModeButtonStatus(active: bool, q: S.Queue, ghost s: S.Sound)
      requires Shows(s)
      requires s.choice.mode.DriverOnly? ==> !s.gui.modeButtons
      requires active ==> s.run.connected && (s.run.busy ==> s.run.driverMode != 0)
      modifies this
      ensures Shows(S.ModeButtons(s, active, q))
      decreases q, 3
    {
      if installed {
        if choice.mode.DriverOnly? {
          SetDriverMode4(q, s);
          SetButtons(active, false, S.Deliver(s.(run := s.run.(driverMode := 4)), q));
        } else {
          SetButtons(active, active, s);
        }
      } else {
        SetButtons(false, false, s);
      }
    }

    method SetDriverMode4(q: S.Queue, ghost s: S.Session)
      requires Shows(s) && S.Core(s.(run := s.run.(driverMode := 4)))
      modifies this
      ensures Shows(S.Deliver(s.(run := s.run.(driverMode := 4)), q))
      decreases q, 1
    {
      driverMode := 4;
      Deliver(q, s.(run := s.run.(driverMode := 4)));
    }

    method SenseConnected()
      modifies this`buttons, this`menus
      ensures buttons == old(buttons).(connect := false, disconnect := true, start := true, analyze := true,
                                       cloneMode := !choice.mode.DriverOnly?)
      ensures menus == old(menus).(modeMenu := false, drivesMenu := false)
    {
      buttons := buttons.(connect := false);
      buttons := buttons.(disconnect := true);
      buttons := buttons.(start := true);
      menus := menus.(modeMenu := false);
      menus := menus.(drivesMenu := false);
      buttons := buttons.(cloneMode := !choice.mode.DriverOnly?);
      buttons := buttons.(analyze := true);
    }

    method Link(ghost s: S.Settled, ghost at: S.Attempt)
      requires Shows(s) && !s.run.busy
      modifies this
      ensures Shows(S.Linked(s, at))
    {
      connected := true;
      past := past.(link := Some(at));
      SenseConnected();
    }

    method SetConnected(ghost at: S.Attempt, e: S.Event, ghost s: S.Settled)
      requires Shows(s) && !s.run.busy && S.Passed(at)
      requires at.version <= s.past.version && (!s.past.stale ==> S.Ready(s) && at.version == s.past.version)
      modifies this
      ensures Shows(S.SetConnected(s, at, e))
      decreases e, 1
    {
      Link(s, at);
      ghost var up := S.Linked(s, at);
      if installed {
        SetDriverModeButtonStatus(true, e.p1, up);
      }
      BeginWatch(e, if up.run.installed then S.ModeButtons(up, true, e.p1) else up);
    }

    method BeginWatch(e: S.Event, ghost s: S.Settled)
      requires Shows(s) && !s.run.busy
      modifies this
      ensures Shows(S.BeginWatch(s, e))
      decreases e, 0
    {
      hide S.Deliver;
      stopSignal := false;
      ghost var ready := s.(run := s.run.(stopSignal := false));
      StartTimer(ready);
      DeviceWait(e.p2, S.StartTimer(ready));
    }

    method SenseDisconnected()
      modifies this`buttons, this`menus
      ensures buttons == Buttons(true, false, false, false, false, false)
      ensures menus == old(menus).(modeMenu := true, drivesMenu := true)
    {
      buttons := buttons.(connect := true);
      buttons := buttons.(disconnect := false);
      buttons := buttons.(start := false);
      buttons := buttons.(stop := false);
      buttons := buttons.(analyze := false);
      menus := menus.(modeMenu := true);
      menus := menus.(drivesMenu := true);
      buttons := buttons.(cloneMode := false);
    }

    method Unlink(ghost s: S.Settled)
      requires Shows(s) && !s.run.busy
      modifies this
      ensures Shows(S.Unlinked(s))
    {
      connected := false;
      past := past.(link := None, button := if mode4Button then S.LeftOn else past.button);
      SenseDisconnected();
    }

    method SetDisconnected(q: S.Queue, ghost s: S.Settled)
      requires Shows(s) && !s.run.busy
      modifies this
      ensures Shows(S.SetDisconnected(s, q))
      decreases q, 4
    {
      Unlink(s);
      SetDriverModeButtonStatus(false, q, S.Unlinked(s));
      StopTimer(S.ModeButtons(S.Unlinked(s), false, q));
    }

    method DisconnectDevices(e: S.Event, ghost s: S.Settled)
      requires Shows(s) && !s.run.busy
      modifies this
      ensures Shows(S.DisconnectDevices(s, e))
      decreases e, 1
    {
      DeviceWait(e.p3, s);
      SetDisconnected(e.p4, S.DeviceWait(s, e.p3));
      Deliver(e.p5, S.SetDisconnected(S.DeviceWait(s, e.p3), e.p4));
    }

    // ---------- projects ----------

    method ClearChoices(ghost s: S.Session)
      requires Shows(s)
      modifies this`choice, this`past
      ensures Shows(S.ClearBoth(s))
    {
      ClearSource();
      ClearDestination();
      NoteChange();
    }

    method ForgetProject(ghost s: S.Session)
      requires Shows(s)
      modifies this`choice, this`past
      ensures Shows(S.NoProject(s))
    {
      ClearSource();
      ClearDestination();
      choice := choice.(project := false);
      NoteChange();
    }

    /** read_log_file_ccc, as far as the window is concerned. */
    method ReadLog(fill: Option<bool>, ghost s: S.Session)
      requires Shows(s)
      modifies this`choice, this`past
      ensures Shows(S.FillFromLog(s, fill))
    {
      if fill.Some? {
        choice := choice.(fill := fill.value);
        NoteChange();
      }
    }

    method LoadProject(ghost s: S.Session)
      requires Shows(s)
      modifies this`choice, this`past
      ensures Shows(S.LoadedProject(s))
    {
      choice := choice.(project := true);
      choice := choice.(newProject := false);
      ClearDestination();
      ClearSource();
      NoteChange();
    }

    method SelectFile(e: S.Event, ghost s: S.Settled)
      requires Shows(s) && !s.run.busy && s.gui.windowOn
      modifies this
      ensures Shows(S.OpenProject(s, e))
      decreases e, 1
    {
      hide S.Deliver;
      if connected || !e.a.accept {
        return;
      }
      ForgetProject(s);
      if !e.a.initOk {
        return;
      }
      ReadLog(e.a.logFill, S.NoProject(s));
      if !e.a.readOk {
        return;
      }
      ghost var read := S.FillFromLog(S.NoProject(s), e.a.logFill);
      LoadProject(read);
      Deliver(e.p0, S.LoadedProject(read));
    }

    method SelectDdrescueFile(e: S.Event, ghost s: S.Settled)
      requires Shows(s) && !s.run.busy && s.gui.windowOn
      modifies this
      ensures Shows(S.ImportLog(s, e))
      decreases e, 1
    {
      if connected || !choice.newProject || !e.a.accept || !e.a.initOk || !e.a.readOk {
        return;
      }
      LoadProject(s);
      Deliver(e.p0, S.LoadedProject(s));
    }

    method NewFile(e: S.Event, ghost s: S.Settled)
      requires Shows(s) && !s.run.busy && s.gui.windowOn && e.cb == S.NewFile
      modifies this
      ensures Shows(S.NewProject(s, e))
      decreases e, 2
    {
      hide S.Deliver;
      if connected || !e.a.accept {
        return;
      }
      ClearChoices(s);
      ghost var m := EmptyDomainTwice(e, S.ClearBoth(s));
      NewLog(m);
      Deliver(e.p2, S.FreshProject(m));
    }

    method EmptyDomainTwice(e: S.Event, ghost s: S.Settled) returns (ghost m: S.Settled)
      requires Shows(s)
      modifies this
      ensures m == S.Deliver(S.Deliver(s, e.p0), e.p1) && Shows(m)
      decreases e, 1
    {
      Deliver(e.p0, s);
      Deliver(e.p1, S.Deliver(s, e.p0));
      m := S.Deliver(S.Deliver(s, e.p0), e.p1);
    }

    method NewLog(ghost m: S.Settled)
      requires Shows(m) && !m.run.busy
      modifies this
      ensures Shows(S.FreshProject(m))
    {
      choice := choice.(project := true);
      choice := choice.(newProject := true);
      ClearDestination();
      ClearSource();
      NoteChange();
    }

    // ---------- modes and drives ----------

    /** Each mode clears the source, but the pass-through ones only a direct one. */
    method ClearSourceFor(mode: S.Mode)
      modifies this`choice
      ensures choice == if mode == S.Passthrough && !old(choice).mode.Direct? then old(choice)
                        else old(choice).(source := false)
    {
      if mode == S.Passthrough {
        if choice.mode.Direct? {
          ClearSource();
        }
      } else {
        ClearSource();
      }
    }

    /** The only place that sets the source menu. */
    method SetMode(mode: S.Mode, auto: bool, ghost s: S.Session)
      requires Shows(s)
      modifies this`choice, this`menus, this`past
      ensures Shows(S.ModeFlags(s, mode, auto))
    {
      SetFlags(mode, auto);
      menus := menus.(sourceMenu := !choice.fill);
      NoteChange();
      past := past.(note := S.Switched);
    }

    method SetFlags(mode: S.Mode, auto: bool)
      modifies this`choice
      ensures choice == S.ModeChoice(old(choice), mode, auto)
    {
      ClearSourceFor(mode);
      choice := choice.(fill := mode == S.Fill);
      choice := choice.(mode := mode, auto := auto);
    }

    /** initialize_memory_ccc for the mode in force; its second attempt installs the driver first. */
    method InitializeMemory(o: S.Outcome, installs: bool, ghost s: S.Settled)
      requires Shows(s) && !s.run.busy
      modifies this`memoryFailed, this`memoryUsed, this`ready, this`installed, this`past
      ensures Shows(S.OwnSetUp(s, o, installs))
    {
      SetUpMemory(S.KindOf(choice.mode), false, o, installs, s);
    }

    method SetUpMemory(kind: S.Kind, ghost forDestination: bool, o: S.Outcome, installs: bool, ghost s: S.Session)
      requires Shows(s)
      modifies this`memoryFailed, this`memoryUsed, this`ready, this`installed, this`past
      ensures Shows(S.SetUpFor(s, kind, forDestination, o, installs))
    {
      hide S.MemoryAfter, S.Ending, S.HasTables;
      InstallFor(kind, installs, s);
      ghost var r := s.(run := s.run.(installed := s.run.installed || (installs && S.HasTables(kind))));
      EndSetUp(kind, o, r);
      NoteSetUp(forDestination, S.Ending(o, kind), r.(memory := S.MemoryAfter(r.memory, kind, S.Ending(o, kind))));
    }

    method InstallFor(kind: S.Kind, installs: bool, ghost s: S.Session)
      requires Shows(s)
      modifies this`installed
      ensures Shows(s.(run := s.run.(installed := s.run.installed || (installs && S.HasTables(kind)))))
    {
      if installs && S.HasTables(kind) && !installed {
        installed := true;
      }
    }

    /** The flag is set first and cleared at the end, by the set-up or by one inside it. */
    method EndSetUp(kind: S.Kind, o: S.Outcome, ghost s: S.Session)
      requires Shows(s)
      modifies this`memoryFailed, this`memoryUsed, this`ready
      ensures Shows(s.(memory := S.MemoryAfter(s.memory, kind, S.Ending(o, kind))))
    {
      memoryFailed := true;
      ready := None;
      if o == S.Completed {
        ready := Some(kind);
      }
      if o == S.Completed || (o == S.Unseen && S.HasTables(kind)) {
        memoryUsed := false;
        memoryFailed := false;
      }
    }

    ghost method NoteSetUp(forDestination: bool, o: S.Outcome, s: S.Session)
      requires Shows(s)
      modifies this`past
      ensures Shows(s.(past := s.past.(note := S.SetUp(forDestination, o))))
    {
      past := past.(note := S.SetUp(forDestination, o));
    }

    /** Memory that a run has used is set up anew. */
    method RenewMemory(a: S.Answers, ghost s: S.Settled)
      requires Shows(s) && !s.run.busy && s.gui.windowOn
      modifies this`memoryFailed, this`memoryUsed, this`ready, this`installed, this`past
      ensures Shows(S.ReadyMemory(s, a))
    {
      if memoryUsed {
        InitializeMemory(a.memory.first, a.memory.installs, s);
      }
    }

    /** The same with every mode flag but pass-through cleared. */
    method RenewPlainMemory(a: S.Answers, ghost s: S.Settled)
      requires Shows(s) && !s.run.busy && s.gui.windowOn
      modifies this`memoryFailed, this`memoryUsed, this`ready, this`installed, this`past
      ensures Shows(S.DestinationMemory(s, a))
    {
      if memoryUsed {
        SetUpMemory(S.PlainBuffer, true, a.memory.first, false, s);
      }
    }

    method SwitchMode(mode: S.Mode, auto: bool, e: S.Event, ghost s: S.Settled)
      requires Shows(s) && !s.run.busy && !s.run.connected && s.gui.windowOn
      modifies this
      ensures Shows(S.ChangeMode(s, mode, auto, e))
      decreases e, 1
    {
      if !e.a.accept {
        return;
      }
      SetMode(mode, auto, s);
      Deliver(e.p0, S.ModeFlags(s, mode, auto));
      InitializeMemory(e.a.memory.first, e.a.memory.installs, S.Deliver(S.ModeFlags(s, mode, auto), e.p0));
    }

    method ChooseSource(e: S.Event, ghost s: S.Settled)
      requires Shows(s) && !s.run.busy && s.gui.windowOn && e.cb == S.ChooseSource
      modifies this
      ensures Shows(S.PickSource(s, e))
      decreases e, 4
    {
      if !choice.project || connected || memoryFailed {
        return;
      }
      if choice.mode.CopyImage? {
        if e.a.accept {
          ChooseImageSource(e, s);
        }
        return;
      }
      RenewMemory(e.a, s);
      DeviceWait(e.p0, S.ReadyMemory(s, e.a));
      ChooseSourceDrive(e, S.DeviceWait(S.ReadyMemory(s, e.a), e.p0));
    }

    method ChooseImageSource(e: S.Event, ghost s: S.Settled)
      requires Shows(s) && !s.run.busy && !s.run.connected && s.gui.windowOn
      modifies this
      ensures Shows(S.PickImageSource(s, e))
      decreases e, 3
    {
      NoteChange();
      Deliver(e.p0, S.Renamed(s));
      TakeImage(e, S.Deliver(S.Renamed(s), e.p0));
    }

    method TakeImage(e: S.Event, ghost s: S.Settled)
      requires Shows(s) && !s.run.busy && s.gui.windowOn
      modifies this
      ensures Shows(S.TakeImage(s, e))
      decreases e, 2
    {
      if e.a.diskOk {
        ProcessSource(e.p3, e, s);
      }
      FlagImage(e, if e.a.diskOk then S.Identify(s, e.p3, e) else s);
    }

    method FlagImage(e: S.Event, ghost s: S.Settled)
      requires Shows(s) && !s.run.busy && s.gui.windowOn
      modifies this
      ensures Shows(S.FlagImage(s, e))
      decreases e, 0
    {
      hide S.Deliver;
      if e.a.diskOk && e.a.deviceOk {
        choice := choice.(source := true);
        Deliver(e.p1, S.WithSource(s));
      } else {
        DropSource(s);
      }
      Deliver(e.p2, if e.a.diskOk && e.a.deviceOk then S.Deliver(S.WithSource(s), e.p1) else S.DropSource(s));
    }

    method DropSource(ghost s: S.Session)
      requires Shows(s)
      modifies this`choice, this`past
      ensures Shows(S.DropSource(s))
    {
      ClearSource();
      NoteChange();
    }

    method SetWindow(on: bool, ghost s: S.Session)
      requires Shows(s)
      modifies this`window
      ensures Shows(S.Window(s, on))
    {
      window := on;
    }

    /** The window is insensitive while the drive is examined. */
    method ChooseSourceDrive(e: S.Event, ghost s: S.Settled)
      requires Shows(s) && !s.run.busy && s.gui.windowOn
      modifies this
      ensures Shows(S.PickDrive(s, e))
      decreases e, 3
    {
      if !e.a.accept {
        return;
      }
      SetWindow(false, s);
      DropSource(S.Window(s, false));
      DeviceWait(e.p1, S.Darkened(s));
      TakeDrive(e, S.DeviceWait(S.Darkened(s), e.p1));
    }

    method TakeDrive(e: S.Event, ghost s: S.Settled)
      requires Shows(s) && !s.run.busy && !s.gui.windowOn
      modifies this
      ensures Shows(S.TakeDrive(s, e))
      decreases e, 2
    {
      if e.a.diskOk {
        ProcessSource(e.p2, e, s);
      }
      ghost var n := if e.a.diskOk then S.Identify(s, e.p2, e) else s;
      TakeSource(e.a.diskOk && e.a.deviceOk, n);
      ghost var f := S.FlagDrive(n, e.a.diskOk && e.a.deviceOk);
      Deliver(e.p3, f);
      SetWindow(true, S.Deliver(f, e.p3));
    }

    /** process_source_ccc, as far as the mode is concerned. */
    method ProcessSource(q: S.Queue, e: S.Event, ghost s: S.Settled)
      requires Shows(s) && !s.run.busy && q < e
      modifies this
      ensures Shows(S.Identify(s, q, e))
      decreases e, 1
    {
      hide S.Identified, S.SetAgain;
      if choice.auto {
        SetModeAgain(q, e.a.memory.second, e.a.memory.installs, s);
      }
      ReadIdentity(e, if s.choice.auto then S.SetAgain(s, q, e.a.memory.second, e.a.memory.installs) else s);
    }

    method ReadIdentity(e: S.Event, ghost s: S.Settled)
      requires Shows(s) && !s.run.busy
      modifies this
      ensures Shows(S.Identified(s, e))
      decreases e, 0
    {
      hide S.DeviceWait, S.SetAgain;
      DeviceWait(e.p4, s);
      if e.a.ata && choice.auto {
        SetModeAgain(e.p5, e.a.memory.third, e.a.memory.installs, S.DeviceWait(s, e.p4));
      }
    }

    /** Sets the pass-through mode, and the auto flag after it. */
    method SetModeAgain(q: S.Queue, o: S.Outcome, installs: bool, ghost s: S.Settled)
      requires Shows(s) && !s.run.busy
      modifies this
      ensures Shows(S.SetAgain(s, q, o, installs))
      decreases q, 1
    {
      hide S.Deliver, S.OwnSetUp, S.ModeFlags, S.Core;
      SetMode(S.Passthrough, false, s);
      Deliver(q, S.PassThroughFlags(s));
      ghost var m := S.Deliver(S.PassThroughFlags(s), q);
      InitializeMemory(o, installs, m);
      SetAuto(S.OwnSetUp(m, o, installs));
    }

    method SetAuto(ghost s: S.Session)
      requires Shows(s)
      modifies this`choice
      ensures Shows(S.Auto(s))
    {
      choice := choice.(auto := true);
    }

    method TakeSource(ok: bool, ghost m: S.Session)
      requires Shows(m)
      modifies this`choice
      ensures Shows(if ok then S.WithSource(m) else m)
    {
      if ok {
        choice := choice.(source := true);
      }
    }

    method ChooseDestination(e: S.Event, ghost s: S.Settled)
      requires Shows(s) && !s.run.busy && !s.run.connected && s.gui.windowOn
      modifies this
      ensures Shows(S.PickDestination(s, e))
      decreases e, 3
    {
      if !choice.project {
        return;
      }
      RenewPlainMemory(e.a, s);
      if e.a.accept {
        TakeDestination(e, S.DestinationMemory(s, e.a));
      }
    }

    method TakeDestination(e: S.Event, ghost s: S.Settled)
      requires Shows(s) && !s.run.connected && s.gui.windowOn
      modifies this
      ensures Shows(S.TakeDestination(s, e))
      decreases e, 2
    {
      if !e.a.deviceOk {
        NewDestination(false, s);
        Deliver(e.p1, S.NewDestination(s, false));
      } else {
        SetDestination(e, s);
      }
    }

    method NewDestination(chosen: bool, ghost s: S.Settled)
      requires Shows(s) && !s.run.connected && s.gui.windowOn
      modifies this`choice, this`past
      ensures Shows(S.NewDestination(s, chosen))
    {
      if chosen {
        choice := choice.(destination := true);
      } else {
        ClearDestination();
      }
      NoteChange();
    }

    method SetDestination(e: S.Event, ghost s: S.Settled)
      requires Shows(s) && !s.run.connected && s.gui.windowOn
      modifies this
      ensures Shows(S.SetDestination(s, e))
      decreases e, 1
    {
      NewDestination(true, s);
      EmptyDomain(e, S.NewDestination(s, true));
    }

    method ChooseImage(e: S.Event, ghost s: S.Settled)
      requires Shows(s) && !s.run.busy && !s.run.connected && s.gui.windowOn
      modifies this
      ensures Shows(S.PickImage(s, e))
      decreases e, 2
    {
      if !choice.project || !e.a.accept {
        return;
      }
      SetDestination(e, s);
    }

    method EmptyDomain(e: S.Event, ghost s: S.Settled)
      requires Shows(s)
      modifies this
      ensures Shows(S.EmptyDomain(s, e))
      decreases e, 0
    {
      if choice.mode.DriverOnly? {
        Deliver(e.p0, s);
      }
      Deliver(e.p1, if s.choice.mode.DriverOnly? then S.Deliver(s, e.p0) else s);
    }

    method ChooseNull(e: S.Event, ghost s: S.Settled)
      requires Shows(s) && !s.run.busy && !s.run.connected && s.gui.windowOn
      modifies this
      ensures Shows(S.PickNull(s, e))
      decreases e, 1
    {
      hide S.Deliver;
      if !choice.project {
        return;
      }
      NoteChange();
      Deliver(e.p0, S.Renamed(s));
      choice := choice.(destination := true);
    }

    // ---------- connecting ----------

    /** Check, and repair and check again when only equal neighbours are wrong. */
    method ExamineLog(a: S.Answers, ghost bySource: bool) returns (clean: bool, ghost at: S.Attempt)
      ensures at == S.Examine(a, bySource, past.version) && clean == S.CleanLog(at)
      ensures clean <==> if a.check == S.SAME_STATUS then a.repair == 0 && a.recheck == 0 else a.check == 0
    {
      var ret := a.check;
      var ret2 := 0;
      at := S.Attempt([ret], [], bySource, a.sameDevice, past.version);
      if ret == S.SAME_STATUS {
        ret2 := a.repair;
        ret := a.recheck;
        at := S.Attempt([a.check, ret], [ret2], bySource, a.sameDevice, past.version);
      }
      clean := ret == 0 && ret2 == 0;
      assert at.checks[|at.checks| - 1] == ret;
      assert |at.repairs| > 0 ==> at.repairs[0] == ret2;
    }

    method ConnectDevices(e: S.Event, ghost s: S.Settled)
      requires Shows(s) && !s.run.connected && s.gui.windowOn && e.cb == S.Connect
      modifies this
      ensures Shows(S.TryConnect(s, e))
      decreases e, 4
    {
      var relayCheck := e.a.relayOk || choice.fill || choice.mode.DriverOnly?;
      if memoryFailed {
      } else if relayCheck && choice.project && choice.destination && (choice.fill || choice.mode.DriverOnly?) {
        ConnectWithoutSource(e, s);
      } else if relayCheck && choice.project && choice.source && choice.destination {
        ConnectSource(e, s);
      }
    }

    method ConnectWithoutSource(e: S.Event, ghost s: S.Settled)
      requires Shows(s) && !s.run.busy && s.gui.windowOn && e.cb == S.Connect && S.Ready(s)
      modifies this
      ensures Shows(S.ConnectWithoutSource(s, e))
      decreases e, 2
    {
      var clean, at := ExamineLog(e.a, false);
      if choice.newProject && !choice.fill {
        SetDisconnected(e.p4, s);
      } else if !clean {
        SetDisconnected(e.p4, s);
      } else if choice.mode.DriverOnly? && !installed {
        SetDisconnected(e.p4, s);
      } else if !e.a.deviceOk {
        DeviceWait(e.p3, s);
        SetDisconnected(e.p4, S.DeviceWait(s, e.p3));
      } else {
        SetConnected(at, e, s);
      }
    }

    method ConnectSource(e: S.Event, ghost s: S.Settled)
      requires Shows(s) && !s.run.busy && !s.run.connected && s.gui.windowOn && e.cb == S.Connect && S.Ready(s)
      modifies this
      ensures Shows(S.ConnectSource(s, e))
      decreases e, 3
    {
      var clean, at := ExamineLog(e.a, true);
      if e.a.sameDevice {
        SetDisconnected(e.p4, s);
      } else if !clean {
        SetDisconnected(e.p4, s);
      } else {
        DeviceWait(e.p0, s);
        OpenDrives(at, e, S.DeviceWait(s, e.p0));
      }
    }

    method KeepProject(ghost s: S.Session)
      requires Shows(s)
      modifies this`choice
      ensures Shows(S.KnownProject(s))
    {
      choice := choice.(newProject := false);
    }

    ghost method NoteAge(at: S.Attempt, s: S.Session)
      requires Shows(s)
      modifies this`past
      ensures Shows(S.Aged(s, at))
    {
      past := past.(stale := past.stale || at.version != past.version);
    }

    method OpenDrives(ghost at: S.Attempt, e: S.Event, ghost s: S.Settled)
      requires Shows(s) && !s.run.busy && s.gui.windowOn && S.Passed(at)
      requires at.version <= s.past.version && (at.version == s.past.version ==> S.Ready(s))
      modifies this
      ensures Shows(S.OpenDrives(s, at, e))
      decreases e, 2
    {
      if !e.a.deviceOk {
        DeviceWait(e.p3, s);
        SetDisconnected(e.p4, S.DeviceWait(s, e.p3));
      } else {
        NoteAge(at, s);
        SetConnected(at, e, S.Aged(s, at));
        KeepProject(S.SetConnected(S.Aged(s, at), at, e));
      }
    }

    // ---------- runs ----------

    method SenseRunning()
      modifies this`buttons, this`menus
      ensures buttons == Buttons(false, false, false, false, true, false)
      ensures menus == old(menus).(topMenu := false)
    {
      buttons := buttons.(connect := false);
      buttons := buttons.(disconnect := false);
      buttons := buttons.(start := false);
      buttons := buttons.(analyze := false);
      buttons := buttons.(stop := true);
      menus := menus.(topMenu := false);
      buttons := buttons.(cloneMode := false);
    }

    method ButtonsForRun(ghost s: S.Settled)
      requires Shows(s) && s.run.connected && !s.run.busy
      modifies this
      ensures Shows(S.Running(s))
    {
      StopTimer(s);
      stopSignal := false;
      SenseRunning();
    }

    method SenseIdle()
      modifies this`buttons, this`menus
      ensures buttons == Buttons(false, true, true, true, false, choice.mode != S.DriverOnly)
      ensures menus == old(menus).(topMenu := true)
    {
      buttons := buttons.(connect := false);
      buttons := buttons.(disconnect := true);
      buttons := buttons.(start := true);
      buttons := buttons.(stop := false);
      menus := menus.(topMenu := true);
      buttons := buttons.(cloneMode := choice.mode != S.DriverOnly);
      buttons := buttons.(analyze := true);
    }

    method ButtonsAfterRun(ghost s: S.Settled)
      requires Shows(s) && s.run.connected && s.run.busy
      modifies this
      ensures Shows(S.Idle(s))
    {
      cloning := false;
      SenseIdle();
    }

    method FinishRun(e: S.Event, ghost s: S.Settled)
      requires Shows(s) && !s.run.busy && s.gui.windowOn
      modifies this
      ensures Shows(S.FinishRun(s, e))
      decreases e, 2
    {
      if e.a.ret != 0 && e.a.ret != S.STOP_SIGNAL_RETURN_CODE {
        DisconnectDevices(e, s);
        StartTimer(S.DisconnectDevices(s, e));
      } else {
        StartTimer(s);
      }
    }

    method BeginEngine(ghost s: S.Settled)
      requires Shows(s)
      modifies this
      ensures Shows(S.Engine(s))
    {
      cloning := true;
      memoryUsed := true;
      past := past.(trace := past.trace + [S.Began(driverMode != 0, choice.mode.DriverOnly?, installed)]);
    }

    method BeginClone(e: S.Event, ghost s: S.Settled)
      requires Shows(s) && s.run.connected && !s.run.busy
      modifies this
      ensures Shows(S.BeginClone(s, e))
      decreases e, 1
    {
      ButtonsForRun(s);
      ghost var up := S.Running(s);
      SetDriverModeButtonStatus(driverMode != 0, e.p0, up);
      BeginEngine(S.ModeButtons(up, up.run.driverMode != 0, e.p0));
    }

    method StartCloning(e: S.Event, ghost s: S.Settled)
      requires Shows(s) && s.run.connected && !s.run.busy && s.gui.windowOn
      modifies this
      ensures Shows(S.CloneRun(s, e))
      decreases e, 3
    {
      hide S.Deliver, S.ModeButtons, S.FinishRun, S.BeginClone;
      BeginClone(e, s);
      Deliver(e.p1, S.BeginClone(s, e));
      ghost var r := S.Deliver(S.BeginClone(s, e), e.p1);
      ButtonsAfterRun(r);
      SetDriverModeButtonStatus(true, e.p2, S.Idle(r));
      FinishRun(e, S.ModeButtons(S.Idle(r), true, e.p2));
    }

    method StartAnalyzing(e: S.Event, ghost s: S.Settled)
      requires Shows(s) && s.run.connected && !s.run.busy && s.gui.windowOn
      modifies this
      ensures Shows(S.AnalyzeRun(s, e))
      decreases e, 3
    {
      hide S.Deliver, S.ModeButtons, S.FinishRun, S.Running;
      ButtonsForRun(s);
      SetDriverModeButtonStatus(false, e.p0, S.Running(s));
      memoryUsed := true;
      ghost var b := S.UsesMemory(S.ModeButtons(S.Running(s), false, e.p0));
      Deliver(e.p1, b);
      ButtonsAfterRun(S.Deliver(b, e.p1));
      ghost var d := S.Idle(S.Deliver(b, e.p1));
      if installed {
        SetDriverModeButtonStatus(true, e.p2, d);
      }
      FinishRun(e, if d.run.installed then S.ModeButtons(d, true, e.p2) else d);
    }

    method SetDriverMode(n: S.DriverMode, e: S.Event, ghost s: S.Settled)
      requires Shows(s) && S.Enabled(s, S.SetMode(n))
      modifies this
      ensures Shows(S.GoToMode(s, n, e))
      decreases e, 3
    {
      driverMode := n;
      Deliver(e.p0, s.(run := s.run.(driverMode := n)));
    }

    // ---------- delivery ----------

    /** Which callback GTK can run, told from the widgets alone. */
    method Sensitive(cb: S.Callback, ghost s: S.Settled) returns (ok: bool)
      requires Shows(s)
      ensures ok == S.Enabled(s, cb)
    {
      match cb {
        case Tick => ok := timerSources > 0;
        case Other => ok := window;
        case SelectFile | ImportDdrescue | NewFile => ok := window && menus.topMenu;
        case SwitchMode(mode, auto) =>
          ok := window && menus.topMenu && menus.modeMenu && (auto ==> mode == S.Passthrough);
        case ChooseDestination | ChooseImage | ChooseNull | InstallDriver | UninstallDriver =>
          ok := window && menus.topMenu && menus.drivesMenu;
        case ChooseSource => ok := window && menus.topMenu && menus.drivesMenu && menus.sourceMenu;
        case Connect => ok := window && buttons.connect;
        case Disconnect => ok := window && buttons.disconnect;
        case Start => ok := window && buttons.start;
        case Analyze => ok := window && buttons.analyze;
        case Stop => ok := window && buttons.stop;
        case SetMode(n) =>
          if n == 0 {
            ok := window && buttons.cloneMode;
          } else if n == 4 {
            ok := window && mode4Button;
          } else {
            ok := window && modeButtons;
          }
      }
    }

    /** Installing or removing the driver, and what that does to memory. */
    method ChangeDriver(present: bool, effect: S.Effect, ghost s: S.Settled)
      requires Shows(s) && !s.run.busy && s.gui.windowOn
      modifies this
      ensures Shows(S.Driven(s, present, effect))
    {
      installed := present;
      match effect {
        case Untouched =>
        case Removed =>
          ready := None;
          past := past.(note := S.Lost);
        case Renewed(outcome) => InitializeMemory(outcome, false, S.WithDriver(s, present));
      }
    }

    method FireMenu(e: S.Event, ghost s: S.Settled)
      requires Shows(s) && S.Enabled(s, e.cb) && s.gui.windowOn && !S.IsButton(e.cb) && !S.IsPassive(e.cb)
      modifies this
      ensures Shows(S.FireMenu(s, e))
      decreases e, 5
    {
      match e.cb {
        case SelectFile => SelectFile(e, s);
        case ImportDdrescue => SelectDdrescueFile(e, s);
        case NewFile => NewFile(e, s);
        case SwitchMode(mode, auto) => SwitchMode(mode, auto, e, s);
        case ChooseSource => ChooseSource(e, s);
        case ChooseDestination => ChooseDestination(e, s);
        case ChooseImage => ChooseImage(e, s);
        case ChooseNull => ChooseNull(e, s);
        case InstallDriver =>
          ChangeDriver(e.a.installed, if e.a.memory.effect == S.Removed then S.Untouched else e.a.memory.effect, s);
        case UninstallDriver => ChangeDriver(installed && e.a.installed, e.a.memory.effect, s);
      }
    }

    method FireButton(e: S.Event, ghost s: S.Settled)
      requires Shows(s) && S.Enabled(s, e.cb) && s.gui.windowOn && S.IsButton(e.cb)
      modifies this
      ensures Shows(S.FireButton(s, e))
      decreases e, 5
    {
      match e.cb {
        case Connect =>
          ConnectDevices(e, s);
          Deliver(e.p5, S.TryConnect(s, e));
        case Disconnect => DisconnectDevices(e, s);
        case Start => StartCloning(e, s);
        case Analyze => StartAnalyzing(e, s);
      }
    }

    method FirePassive(e: S.Event, ghost s: S.Settled)
      requires Shows(s) && S.Enabled(s, e.cb) && S.IsPassive(e.cb)
      modifies this
      ensures Shows(S.FirePassive(s, e))
      decreases e, 4
    {
      match e.cb {
        case Tick =>
          var again := TimerAction(e, s);
        case Stop => stopSignal := true;
        case SetMode(n) => SetDriverMode(n, e, s);
        case Other => Deliver(e.p0, s);
      }
    }

    method Fire(e: S.Event, ghost s: S.Settled)
      requires Shows(s)
      modifies this
      ensures Shows(S.Fire(s, e))
      ensures buttons.connect == !connected
      ensures buttons.disconnect == buttons.start == buttons.analyze == (connected && !buttons.stop)
      ensures buttons.cloneMode ==> connected && !buttons.stop && choice.mode != S.DriverOnly
      ensures menus.sourceMenu == (choice.mode != S.Fill)
      ensures menus.topMenu == !buttons.stop && menus.modeMenu == menus.drivesMenu == !connected
      ensures (buttons.stop ==> connected) && (cloning ==> buttons.stop)
      ensures modeButtons ==> connected && choice.mode != S.DriverOnly
      ensures buttons.stop && driverMode == 0 ==> !mode4Button && !modeButtons
      ensures timerSources == if timerRunning then 1 else 0
      decreases e, 6
    {
      var ok := Sensitive(e.cb, s);
      if ok {
        if S.IsPassive(e.cb) {
          FirePassive(e, s);
        } else if S.IsButton(e.cb) {
          FireButton(e, s);
        } else {
          FireMenu(e, s);
        }
      }
    }

    /** run_gtk_gui_update_ccc: the main loop, nested, for as long as something is pending. */
    method Deliver(q: S.Queue, ghost s: S.Settled)
      requires Shows(s)
      modifies this
      ensures Shows(S.Deliver(s, q))
      ensures buttons.connect == !connected
      ensures buttons.disconnect == buttons.start == buttons.analyze == (connected && !buttons.stop)
      ensures buttons.cloneMode ==> connected && !buttons.stop && choice.mode != S.DriverOnly
      ensures menus.sourceMenu == (choice.mode != S.Fill)
      ensures menus.topMenu == !buttons.stop && menus.modeMenu == menus.drivesMenu == !connected
      ensures (buttons.stop ==> connected) && (cloning ==> buttons.stop)
      ensures modeButtons ==> connected && choice.mode != S.DriverOnly
      ensures buttons.stop && driverMode == 0 ==> !mode4Button && !modeButtons
      ensures timerSources == if timerRunning then 1 else 0
      decreases q, 0
    {
      match q {
        case Nil =>
        case Cons(e, rest) =>
          Fire(e, s);
          Deliver(rest, S.Fire(s, e));
      }
    }
  }
}
