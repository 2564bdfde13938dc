/**
 The session behind the main window, as a state machine whose callbacks can be delivered
 inside one another: wherever a callback updates the display, GTK delivers what is pending.
 An event therefore carries the queues that are pending at each of its own display updates.
 Every function here states what it keeps, for all event trees.
 */
module Sessions {
  import opened Options

  const STOP_SIGNAL_RETURN_CODE := -128
  const SAME_STATUS := 0x10

  // ---------- events ----------

  datatype Mode = CopyImage | Generic | Passthrough | Direct(ahci: bool) | Usb | Fill | DriverOnly

  /** What transfer memory can be set up for. */
  datatype Kind = PlainBuffer | UsbBuffer | IdeTable | AhciTables

  function KindOf(mode: Mode): Kind {
    match mode
    case Direct(ahci) => if ahci then AhciTables else IdeTable
    case Usb => UsbBuffer
    case _ => PlainBuffer
  }

  predicate HasTables(kind: Kind) {
    kind == IdeTable || kind == AhciTables
  }

  type DriverMode = n: int | 0 <= n <= 5

  datatype Callback =
    | SelectFile | ImportDdrescue | NewFile
    | SwitchMode(mode: Mode, auto: bool) // auto is a flag beside the pass-through mode
    | ChooseSource | ChooseDestination | ChooseImage | ChooseNull
    | InstallDriver | UninstallDriver
    | Connect | Disconnect | Start | Stop | Analyze
    | SetMode(to: DriverMode)
    | Tick
    // Any callback that leaves the session alone, such as a settings dialog or a log repair.
    | Other

  /** How a memory set-up ends; Unseen is a failure that left the failed flag clear. */
  datatype Outcome = Completed | Failed | Unseen

  /** What installing or removing the driver does to transfer memory. */
  datatype Effect = Untouched | Removed | Renewed(outcome: Outcome)

  /**
   What the system answers to the memory set-ups of one callback, of which there are at
   most three, and whether the second attempt of one installed the driver.
   */
  datatype Memories = Memories(first: Outcome, second: Outcome, third: Outcome, installs: bool, effect: Effect)

  /** What the user, the drives and the log engine answer while one callback runs. */
  datatype Answers = Answers(
    accept: bool,        // the dialog was confirmed; for a mode, that it was not set already
    initOk: bool,        // log memory was initialised
    readOk: bool,        // the log file was read
    logFill: Option<bool>, // what the log says of fill mode, as far as it was read
    diskOk: bool,        // the source was opened, before it is identified
    ata: bool,           // the source was identified, as an ATA drive
    deviceOk: bool,      // the devices were opened and identified
    memory: Memories,
    relayOk: bool,       // no relay is wanted, or one is chosen
    installed: bool,     // the driver is there after an install or removal
    sameDevice: bool,    // source and destination are the same device
    check: int, repair: int, recheck: int,
    ret: int)            // what the clone, driver or analysis run returned

  datatype Event = Event(cb: Callback, a: Answers, p0: Queue, p1: Queue, p2: Queue, p3: Queue, p4: Queue, p5: Queue)

  datatype Queue = Nil | Cons(head: Event, tail: Queue)

  // ---------- state ----------

  /**
   What one connection attempt learned: every log check and repair, the device comparison,
   and which version of the choices they were about.
   */
  datatype Attempt = Attempt(checks: seq<int>, repairs: seq<int>, bySource: bool, sameDevice: bool, version: nat)

  datatype Note =
    | Began(driverPath: bool, driverOnly: bool, installed: bool)
    | Polled(connected: bool, cloning: bool, filling: bool, busy: bool)

  /**
   The fill flag is apart from the mode, because reading a log sets it too, and the auto
   flag, because identifying an image can set it in whatever mode is there by then.
   */
  datatype Choice = Choice(
    project: bool, source: bool, destination: bool, newProject: bool,
    mode: Mode, auto: bool, fill: bool)

  datatype Run = Run(
    connected: bool,
    busy: bool,     // a clone, driver or analysis run is on the stack
    cloning: bool,  // running_clone_ccc
    stopSignal: bool, driverMode: DriverMode, installed: bool)

  datatype Gui = Gui(
    mode4Button: bool, modeButtons: bool, cloneButton: bool, sourceMenu: bool, windowOn: bool,
    timerRunning: bool, timerSources: int)

  /**
   What the last memory set-up that completed was for, if none has failed and nothing has
   been unmapped since; the flag that tells a failure; and whether a run has used it.
   */
  datatype Memory = Memory(ready: Option<Kind>, failed: bool, used: bool)

  /** The last thing to concern memory: a change of mode, a set-up, or the loss of the driver's memory. */
  datatype MemoryNote = Switched | SetUp(forDestination: bool, outcome: Outcome) | Lost

  /**
   How the button of mode 4 last came to be as it is: set as the connection then was; left
   on by a connection that ended, until it is set; or set for a connection that the events
   delivered just before had ended.
   */
  datatype ButtonNote = InStep | LeftOn | Late

  /**
   History: the attempt behind the current connection, what runs and polls happened, how
   often the project, the drives or the mode have changed, and whether that has happened
   under a connection, or between an attempt's checks and its connecting; what last
   concerned transfer memory; and what last concerned the button of mode 4.
   */
  datatype Past = Past(link: Option<Attempt>, trace: seq<Note>, version: nat, stale: bool, note: MemoryNote,
    button: ButtonNote)

  datatype Session = Session(choice: Choice, run: Run, gui: Gui, memory: Memory, past: Past)

  /** Everything a connection needs has been chosen. */
  predicate Ready(s: Session) {
    s.choice.project && s.choice.destination && (s.choice.source || s.choice.fill || s.choice.mode.DriverOnly?)
  }

  predicate Chosen(s: Session) {
    s.run.connected ==> Ready(s)
  }

  /** The connection is one of the very project, drives and mode that its attempt checked. */
  predicate Current(s: Session) {
    s.past.link.Some? ==> s.past.link.value.version == s.past.version
  }

  /** Memory is set up for the transfer mode in force. */
  predicate Equipped(s: Session) {
    s.memory.ready == Some(KindOf(s.choice.mode))
  }

  /** The state of memory is what the last set-up made of it, until a mode change asks for another. */
  predicate Remembered(s: Session) {
    match s.past.note
    case Switched => true
    case Lost => s.memory.ready == None
    case SetUp(forDestination, outcome) =>
      && s.memory.ready == (if outcome != Completed then None
                            else Some(if forDestination then PlainBuffer else KindOf(s.choice.mode)))
      && s.memory.failed == (outcome == Failed)
  }

  predicate CleanLog(at: Attempt) {
    && |at.checks| > 0 && at.checks[|at.checks| - 1] == 0
    && forall k :: 0 <= k < |at.repairs| ==> at.repairs[k] == 0
  }

  /** The gate to a connection. */
  predicate Passed(at: Attempt) {
    CleanLog(at) && (at.bySource ==> !at.sameDevice)
  }

  predicate GoodNote(n: Note) {
    match n
    case Began(driverPath, driverOnly, installed) => driverOnly && installed ==> driverPath
    case Polled(connected, cloning, filling, busy) => connected && !cloning && !filling && !busy
  }

  /** What holds at every moment, apart from the driver-mode buttons. */
  predicate Base(s: Session) {
    && (s.run.busy ==> s.run.connected && !s.gui.timerRunning)
    && (s.run.cloning ==> s.run.busy)
    && s.gui.timerSources == (if s.gui.timerRunning then 1 else 0)
    && (s.run.connected <==> s.past.link.Some?)
    && (s.past.link.Some? ==> Passed(s.past.link.value) && s.past.link.value.version <= s.past.version)
    && (forall k :: 0 <= k < |s.past.trace| ==> GoodNote(s.past.trace[k]))
    && (!s.past.stale ==> Chosen(s) && Current(s))
    && s.gui.sourceMenu == (s.choice.mode != Fill)
    && (s.gui.cloneButton ==> s.run.connected && !s.run.busy && s.choice.mode != DriverOnly)
    && (s.gui.mode4Button && !s.run.connected ==> s.past.button != InStep)
    && (s.past.button == Late ==> s.gui.mode4Button)
    && Remembered(s)
  }

  /** What holds whenever an event can be delivered. */
  predicate Core(s: Session) {
    && Base(s)
    && (s.gui.modeButtons ==> s.run.connected && !s.choice.mode.DriverOnly?)
    && (s.run.busy && s.run.driverMode == 0 ==> !s.gui.mode4Button && !s.gui.modeButtons)
  }

  function Initial(): Session {
    Session(Choice(false, false, false, false, Passthrough, true, false),
            Run(false, false, false, false, 0, false),
            Gui(false, false, false, true, true, false, 0),
            Memory(Some(PlainBuffer), false, false),
            Past(None, [], 0, false, SetUp(false, Completed), InStep))
  }

  type Sound = s: Session | Base(s) witness Initial()

  type Settled = s: Session | Core(s) witness Initial()

  /** Which callbacks GTK can deliver: the sensitivity of their widgets, told from the state. */
  predicate Enabled(s: Session, cb: Callback) {
    match cb
    case Tick => s.gui.timerSources > 0
    case Other => s.gui.windowOn
    case SelectFile | ImportDdrescue | NewFile => s.gui.windowOn && !s.run.busy
    case SwitchMode(mode, auto) =>
      s.gui.windowOn && !s.run.busy && !s.run.connected && (auto ==> mode == Passthrough)
    case ChooseDestination | ChooseImage | ChooseNull | InstallDriver | UninstallDriver =>
      s.gui.windowOn && !s.run.busy && !s.run.connected
    case ChooseSource => s.gui.windowOn && !s.run.busy && !s.run.connected && s.gui.sourceMenu
    case Connect => s.gui.windowOn && !s.run.connected
    case Disconnect | Start | Analyze => s.gui.windowOn && s.run.connected && !s.run.busy
    case Stop => s.gui.windowOn && s.run.busy
    case SetMode(n) =>
      && s.gui.windowOn
      && if n == 0 then s.gui.cloneButton
         else if n == 4 then s.gui.mode4Button
         else s.gui.modeButtons
  }

  // ---------- what every delivery keeps ----------

  /** The same run: only the stop signal and the driver mode can differ, and zero stays zero. */
  predicate SameStage(r: Run, r': Run) {
    && r' == r.(driverMode := r'.driverMode, stopSignal := r'.stopSignal)
    && (r'.driverMode == 0 <==> r.driverMode == 0)
  }

  predicate SameRun(s: Session, t: Session) {
    t.choice == s.choice && t.gui == s.gui && t.memory == s.memory && t.past == s.past && SameStage(s.run, t.run)
  }

  /** With the window switched off, only the timer can act. */
  predicate TimerOnly(s: Session, t: Session) {
    && t.choice == s.choice && t.run == s.run && t.memory == s.memory
    && t.gui == s.gui.(timerRunning := t.gui.timerRunning, timerSources := t.gui.timerSources)
    && t.past == s.past.(trace := t.past.trace)
  }

  predicate SameChoices(c: Choice, d: Choice) {
    && d.project == c.project && d.source == c.source && d.destination == c.destination
    && d.mode == c.mode && d.auto == c.auto && d.fill == c.fill
  }

  /** No change of mode is left without a set-up, and no button left on by a connection that ended. */
  predicate Finishes(s: Session, t: Session) {
    && (t.past.note == Switched ==> s.past.note == Switched)
    && (t.past.button == LeftOn ==> s.past.button == LeftOn)
  }

  /** Without a new version, nothing chosen has changed. */
  predicate Tracks(s: Session, t: Session) {
    && s.past.version <= t.past.version
    && Finishes(s, t)
    && (t.past.version == s.past.version ==> SameChoices(s.choice, t.choice))
  }

  /** Nothing is chosen, connected or disconnected. */
  predicate Unmoved(s: Session, t: Session) {
    t.past.version == s.past.version && t.past.stale == s.past.stale && t.run.connected == s.run.connected
  }

  predicate Keeps(s: Session, t: Session) {
    && t.run.busy == s.run.busy && t.run.cloning == s.run.cloning && t.gui.windowOn == s.gui.windowOn
    && (s.past.stale ==> t.past.stale)
    && Tracks(s, t)
    && (s.run.busy ==> SameRun(s, t))
    && (!s.gui.windowOn ==> TimerOnly(s, t))
  }

  /** No run is left going, and what was stale stays so. */
  predicate Calms(s: Session, t: Session) {
    && !t.run.busy && !t.run.cloning && t.gui.windowOn == s.gui.windowOn
    && (s.past.stale ==> t.past.stale)
    && s.past.version <= t.past.version
    && Finishes(s, t)
  }

  predicate Rests(s: Session, t: Session) {
    Calms(s, t) && Tracks(s, t)
  }

  /** Callbacks that choose nothing and connect nothing. */
  predicate IsPassive(cb: Callback) {
    cb == Tick || cb == Stop || cb == Other || cb.SetMode?
  }

  predicate Passive(q: Queue)
    decreases q
  {
    match q
    case Nil => true
    case Cons(e, rest) =>
      IsPassive(e.cb) && Passive(e.p0) && Passive(rest)
  }

  /** No callback is interrupted, between its guard and what it guards, by one that chooses or connects. */
  predicate Quiet(q: Queue)
    decreases q
  {
    match q
    case Nil => true
    case Cons(e, rest) => QuietEvent(e) && Quiet(rest)
  }

  predicate QuietEvent(e: Event)
    decreases e
  {
    && Quiet(e.p0) && Quiet(e.p1) && Quiet(e.p2) && Quiet(e.p3) && Quiet(e.p4) && Quiet(e.p5)
    && (e.cb == Connect || e.cb == ChooseSource || e.cb == NewFile ==> Passive(e.p0))
    && (e.cb == ChooseSource ==> Passive(e.p3) && Passive(e.p4) && Passive(e.p5))
    && (e.cb == NewFile ==> Passive(e.p1))
  }

  // ---------- the pieces callbacks share ----------

  /** A change of what is chosen. Under a connection it leaves the connection stale. */
  function Change(s: Session, c: Choice): Session {
    s.(choice := c,
       past := s.past.(version := s.past.version + 1, stale := s.past.stale || s.run.connected))
  }

  function ClearBoth(s: Session): Session {
    Change(s, s.choice.(source := false, destination := false))
  }

  function NoProject(s: Session): Session {
    Change(s, s.choice.(project := false, source := false, destination := false))
  }

  /** Reading a log sets the fill flag from it, and nothing else in the window. */
  function FillFromLog(s: Session, fill: Option<bool>): Session {
    if fill.Some? then Change(s, s.choice.(fill := fill.value)) else s
  }

  function LoadedProject(s: Session): Session {
    Change(s, s.choice.(project := true, newProject := false, source := false, destination := false))
  }

  function KnownProject(s: Session): Session {
    s.(choice := s.choice.(newProject := false))
  }

  function WithSource(s: Session): Session {
    s.(choice := s.choice.(source := true))
  }

  function WithDestination(s: Session): Session {
    s.(choice := s.choice.(destination := true))
  }

  /** Only a set-up with tables tries a second time, with the driver, and can fail unseen. */
  function Ending(o: Outcome, kind: Kind): Outcome {
    if o == Unseen && !HasTables(kind) then Failed else o
  }

  function MemoryAfter(m: Memory, kind: Kind, o: Outcome): Memory {
    match o
    case Completed => Memory(Some(kind), false, false)
    case Failed => Memory(None, true, m.used)
    case Unseen => Memory(None, false, false)
  }

  /** Setting up transfer memory for a kind of transfer, which is not the mode's own for a destination. */
  function SetUpFor(s: Session, kind: Kind, forDestination: bool, o: Outcome, installs: bool): Session {
    s.(memory := MemoryAfter(s.memory, kind, Ending(o, kind)),
       run := s.run.(installed := s.run.installed || (installs && HasTables(kind))),
       past := s.past.(note := SetUp(forDestination, Ending(o, kind))))
  }

  /** Setting up memory for the mode in force. */
  function OwnSetUp(s: Settled, o: Outcome, installs: bool): (t: Settled)
    requires !s.run.busy
    ensures t == SetUpFor(s, KindOf(s.choice.mode), false, o, installs)
  {
    SetUpFor(s, KindOf(s.choice.mode), false, o, installs)
  }

  /** Before the drives are listed, memory that a run has used is set up anew. */
  function ReadyMemory(s: Settled, a: Answers): (t: Settled)
    requires !s.run.busy && s.gui.windowOn
    ensures Keeps(s, t) && t.choice == s.choice && t.gui == s.gui && t.past == s.past.(note := t.past.note)
    ensures t.run == s.run.(installed := t.run.installed)
  {
    if s.memory.used then OwnSetUp(s, a.memory.first, a.memory.installs) else s
  }

  /** For the list of destinations too, but with every mode flag but pass-through cleared for the while. */
  function DestinationMemory(s: Settled, a: Answers): (t: Settled)
    requires !s.run.busy && s.gui.windowOn
    ensures Keeps(s, t) && t.choice == s.choice && t.run == s.run && t.gui == s.gui
    ensures t.past == s.past.(note := t.past.note)
  {
    if s.memory.used then SetUpFor(s, PlainBuffer, true, a.memory.first, false) else s
  }

  /** What installing or removing the driver does; only removing it can unmap memory and leave it so. */
  function Driven(s: Settled, installed: bool, effect: Effect): (t: Settled)
    requires !s.run.busy && s.gui.windowOn
    ensures Keeps(s, t) && t.past.stale == s.past.stale
  {
    match effect
    case Untouched => WithDriver(s, installed)
    case Removed => Unmapped(WithDriver(s, installed))
    case Renewed(outcome) => OwnSetUp(WithDriver(s, installed), outcome, false)
  }

  function WithDriver(s: Settled, installed: bool): (t: Settled)
    requires !s.run.busy
    ensures t == s.(run := s.run.(installed := installed))
  {
    s.(run := s.run.(installed := installed))
  }

  function Unmapped(s: Settled): (t: Settled)
    ensures t == s.(memory := s.memory.(ready := None), past := s.past.(note := Lost))
  {
    s.(memory := s.memory.(ready := None), past := s.past.(note := Lost))
  }

  function Window(s: Session, on: bool): Session {
    s.(gui := s.gui.(windowOn := on))
  }

  function Noted(s: Session, n: Note): Session {
    s.(past := s.past.(trace := s.past.trace + [n]))
  }

  function StartTimer(s: Session): Session {
    if s.choice.mode.Direct? && !s.gui.timerRunning then
      s.(gui := s.gui.(timerRunning := true, timerSources := s.gui.timerSources + 1))
    else s
  }

  function StopTimer(s: Session): Session {
    if s.gui.timerRunning then s.(gui := s.gui.(timerRunning := false, timerSources := s.gui.timerSources - 1)) else s
  }

  /** Only direct-mode transfers wait, and only those waits update the display. */
  function DeviceWait(s: Settled, q: Queue): (t: Settled)
    ensures Keeps(s, t)
    ensures Quiet(q) ==> t.past.stale == s.past.stale
    ensures Passive(q) ==> Unmoved(s, t)
    decreases q, 1
  {
    if s.choice.mode.Direct? then Deliver(s, q) else s
  }

  function SetButtons(s: Session, mode4: bool, others: bool): Session {
    s.(gui := s.gui.(mode4Button := mode4, modeButtons := others),
       past := s.past.(button := if mode4 && !s.run.connected then Late else InStep))
  }

  /** Nothing that matters to a run changes but the driver mode, and that not back to zero. */
  predicate SameButButtons(s: Session, t: Session) {
    && t.run.busy == s.run.busy && t.run.cloning == s.run.cloning && t.gui.windowOn == s.gui.windowOn
    && (s.past.stale ==> t.past.stale)
    && Tracks(s, t)
    && (s.run.busy ==>
          && t.choice == s.choice && t.past == s.past.(button := t.past.button) && t.memory == s.memory
          && t.run == s.run.(driverMode := t.run.driverMode, stopSignal := t.run.stopSignal)
          && (s.run.driverMode != 0 || (s.run.installed && s.choice.mode.DriverOnly?) ==> t.run.driverMode != 0)
          && t.gui == s.gui.(mode4Button := t.gui.mode4Button, modeButtons := t.gui.modeButtons))
  }

  /** set_driver_mode_button_status_ccc; in driver-only mode it also goes to mode 4. */
  function ModeButtons(s: Sound, active: bool, q: Queue): (t: Settled)
    requires s.choice.mode.DriverOnly? ==> !s.gui.modeButtons
    requires active ==> s.run.connected && (s.run.busy ==> s.run.driverMode != 0)
    ensures t.past.button == if t.gui.mode4Button && !t.run.connected then Late else InStep
    ensures SameButButtons(s, t)
    ensures Quiet(q) ==> t.past.stale == s.past.stale
    decreases q, 3
  {
    if s.run.installed && s.choice.mode.DriverOnly? then GoToMode4(s, active, q)
    else AllModeButtons(s, active && s.run.installed)
  }

  function AllModeButtons(s: Sound, active: bool): (t: Settled)
    requires active ==> s.run.connected && !s.choice.mode.DriverOnly? && (s.run.busy ==> s.run.driverMode != 0)
    requires !(s.run.installed && s.choice.mode.DriverOnly?)
    ensures t.past.button == if t.gui.mode4Button && !t.run.connected then Late else InStep
    ensures SameButButtons(s, t) && t.past == s.past.(button := InStep)
  {
    SetButtons(s, active, active)
  }

  function GoToMode4(s: Sound, active: bool, q: Queue): (t: Settled)
    requires s.choice.mode.DriverOnly? && !s.gui.modeButtons
    ensures t.past.button == if t.gui.mode4Button && !t.run.connected then Late else InStep
    ensures SameButButtons(s, t) && (s.run.busy ==> t.run.driverMode != 0)
    ensures Quiet(q) ==> t.past.stale == s.past.stale
    decreases q, 2
  {
    hide Deliver;
    SetButtons(Deliver(s.(run := s.run.(driverMode := 4)), q), active, false)
  }

  function SetDisconnected(s: Settled, q: Queue): (t: Settled)
    requires !s.run.busy
    ensures Rests(s, t)
    ensures Quiet(q) ==> t.past.stale == s.past.stale
    decreases q, 4
  {
    StopTimer(ModeButtons(Unlinked(s), false, q))
  }

  function SetConnected(s: Settled, at: Attempt, e: Event): (t: Settled)
    requires !s.run.busy && Passed(at)
    requires at.version <= s.past.version && (!s.past.stale ==> Ready(s) && at.version == s.past.version)
    ensures Rests(s, t)
    ensures Quiet(e.p1) && Quiet(e.p2) ==> t.past.stale == s.past.stale
    decreases e, 1
  {
    var up := Linked(s, at);
    BeginWatch(if up.run.installed then ModeButtons(up, true, e.p1) else up, e)
  }

  function Linked(s: Session, at: Attempt): Session {
    s.(run := s.run.(connected := true), past := s.past.(link := Some(at)),
       gui := s.gui.(cloneButton := s.choice.mode != DriverOnly))
  }

  function Unlinked(s: Session): Session {
    s.(run := s.run.(connected := false), gui := s.gui.(cloneButton := false),
       past := s.past.(link := None, button := if s.gui.mode4Button then LeftOn else s.past.button))
  }

  /** Starts the timer, and sets the transfer mode, which waits in direct mode. */
  function BeginWatch(s: Settled, e: Event): (t: Settled)
    requires !s.run.busy
    ensures Rests(s, t)
    ensures Quiet(e.p2) ==> t.past.stale == s.past.stale
    decreases e, 0
  {
    DeviceWait(StartTimer(s.(run := s.run.(stopSignal := false))), e.p2)
  }

  function DisconnectDevices(s: Settled, e: Event): (t: Settled)
    requires !s.run.busy
    ensures Rests(s, t)
    ensures Quiet(e.p3) && Quiet(e.p4) && Quiet(e.p5) ==> t.past.stale == s.past.stale
    decreases e, 1
  {
    Deliver(SetDisconnected(DeviceWait(s, e.p3), e.p4), e.p5)
  }

  // ---------- projects ----------

  /**
   Opening a project clears the choices first, and takes the fill flag from the log even
   when the log turns out not to be readable, which leaves no project.
   */
  function OpenProject(s: Settled, e: Event): (t: Settled)
    requires !s.run.busy && s.gui.windowOn
    ensures Keeps(s, t)
    ensures QuietEvent(e) ==> t.past.stale == s.past.stale
    decreases e, 1
  {
    hide Deliver;
    if s.run.connected || !e.a.accept then s
    else if !e.a.initOk then NoProject(s)
    else
      var read := ReadProject(s, e.a.logFill);
      if !e.a.readOk then read else Deliver(LoadedProject(read), e.p0)
  }

  function ReadProject(s: Settled, fill: Option<bool>): (t: Settled)
    requires !s.run.busy && !s.run.connected
    ensures t == FillFromLog(NoProject(s), fill)
  {
    FillFromLog(NoProject(s), fill)
  }

  function ImportLog(s: Settled, e: Event): (t: Settled)
    requires !s.run.busy && s.gui.windowOn
    ensures Keeps(s, t)
    ensures QuietEvent(e) ==> t.past.stale == s.past.stale
    decreases e, 1
  {
    hide Deliver;
    if s.run.connected || !s.choice.newProject || !e.a.accept || !e.a.initOk || !e.a.readOk then s
    else Deliver(LoadedProject(s), e.p0)
  }

  /** Clears whatever has been chosen meanwhile, connected or not. */
  function FreshProject(s: Settled): (t: Settled)
    requires !s.run.busy
    ensures t == Change(s, s.choice.(project := true, newProject := true, source := false, destination := false))
  {
    Change(s, s.choice.(project := true, newProject := true, source := false, destination := false))
  }

  function ClearedBoth(s: Settled): (t: Settled)
    requires !s.run.busy
    ensures t == ClearBoth(s)
  {
    ClearBoth(s)
  }

  /** A new project empties the domain twice, updating the display each time, before it clears the choices again. */
  function NewProject(s: Settled, e: Event): (t: Settled)
    requires e.cb == NewFile && !s.run.busy && s.gui.windowOn
    ensures Keeps(s, t)
    ensures QuietEvent(e) ==> t.past.stale == s.past.stale
    decreases e, 1
  {
    hide Deliver;
    if s.run.connected || !e.a.accept then s
    else
      var m := Deliver(Deliver(ClearedBoth(s), e.p0), e.p1);
      Deliver(FreshProject(m), e.p2)
  }

  // ---------- modes and drives ----------

  /** Only the pass-through modes keep a source, unless it was a direct one. */
  function ModeChoice(c: Choice, mode: Mode, auto: bool): Choice {
    c.(source := mode == Passthrough && c.source && !c.mode.Direct?, mode := mode, auto := auto, fill := mode == Fill)
  }

  /** The one place that sets the source menu. */
  function ModeFlags(s: Session, mode: Mode, auto: bool): Session {
    var c := Change(s, ModeChoice(s.choice, mode, auto));
    c.(gui := c.gui.(sourceMenu := mode != Fill), past := c.past.(note := Switched))
  }

  /** Memory is set up anew after the display update, for whatever mode is in force by then. */
  function ChangeMode(s: Settled, mode: Mode, auto: bool, e: Event): (t: Settled)
    requires !s.run.busy && !s.run.connected && s.gui.windowOn
    ensures Keeps(s, t)
    ensures QuietEvent(e) ==> t.past.stale == s.past.stale
    decreases e, 1
  {
    hide Deliver;
    if !e.a.accept then s else OwnSetUp(Deliver(ModeFlags(s, mode, auto), e.p0), e.a.memory.first, e.a.memory.installs)
  }

  function DropSource(s: Session): Session {
    Change(s, s.choice.(source := false))
  }

  function PickSource(s: Settled, e: Event): (t: Settled)
    requires e.cb == ChooseSource && !s.run.busy && s.gui.windowOn
    ensures Keeps(s, t)
    ensures QuietEvent(e) ==> t.past.stale == s.past.stale
    decreases e, 4
  {
    hide PickImageSource, PickDrive, DeviceWait, Deliver;
    if !s.choice.project || s.run.connected || s.memory.failed then s
    else if s.choice.mode.CopyImage? then
      if !e.a.accept then s else PickImageSource(s, e)
    else PickDrive(DeviceWait(ReadyMemory(s, e.a), e.p0), e)
  }

  /** Another image or device is meant from here on, whatever the flags say. */
  function Renamed(s: Settled): (t: Settled)
    requires !s.run.busy && s.gui.windowOn
    ensures t == Change(s, s.choice)
  {
    Change(s, s.choice)
  }

  /** The image's name is taken before the display is updated, and the flag set or cleared after. */
  function PickImageSource(s: Settled, e: Event): (t: Settled)
    requires !s.run.busy && !s.run.connected && s.gui.windowOn
    ensures Keeps(s, t)
    ensures Passive(e.p0) && Quiet(e.p1) && Quiet(e.p2) && IdentifiedPassively(e) ==> t.past.stale == s.past.stale
    decreases e, 3
  {
    hide Deliver;
    TakeImage(Deliver(Renamed(s), e.p0), e)
  }

  predicate IdentifiedPassively(e: Event) {
    && Passive(e.p3) && Passive(e.p4) && Passive(e.p5)
    && Quiet(e.p3) && Quiet(e.p4) && Quiet(e.p5)
  }

  function TakeImage(s: Settled, e: Event): (t: Settled)
    requires !s.run.busy && s.gui.windowOn
    ensures Calms(s, t)
    ensures !s.run.connected && Quiet(e.p1) && Quiet(e.p2) && IdentifiedPassively(e) ==> t.past.stale == s.past.stale
    decreases e, 2
  {
    hide Deliver;
    FlagImage(if e.a.diskOk then Identify(s, e.p3, e) else s, e)
  }

  function FlagImage(s: Settled, e: Event): (t: Settled)
    requires !s.run.busy && s.gui.windowOn
    ensures Calms(s, t)
    ensures !s.run.connected && Quiet(e.p1) && Quiet(e.p2) ==> t.past.stale == s.past.stale
    decreases e, 0
  {
    hide Deliver;
    Deliver(if e.a.diskOk && e.a.deviceOk then Deliver(WithSource(s), e.p1) else DropSource(s), e.p2)
  }

  /** After the drive list; the window is off while the chosen drive is examined. */
  function PickDrive(s: Settled, e: Event): (t: Settled)
    requires !s.run.busy && s.gui.windowOn
    ensures Rests(s, t)
    ensures !s.run.connected && Quiet(e.p1) && Quiet(e.p2) && Quiet(e.p3) && Quiet(e.p4) && Quiet(e.p5) ==>
              t.past.stale == s.past.stale
    decreases e, 3
  {
    hide DeviceWait, TakeDrive;
    if !e.a.accept then s else TakeDrive(DeviceWait(Darkened(s), e.p1), e)
  }

  function Darkened(s: Settled): (t: Settled)
    requires !s.run.busy && s.gui.windowOn
    ensures t == Window(DropSource(s), false)
  {
    Window(DropSource(s), false)
  }

  function TakeDrive(s: Settled, e: Event): (t: Settled)
    requires !s.run.busy && !s.gui.windowOn
    ensures Calms(Window(s, true), t)
    ensures !s.run.connected && Quiet(e.p2) && Quiet(e.p3) && Quiet(e.p4) && Quiet(e.p5) ==>
              t.past.stale == s.past.stale
    decreases e, 2
  {
    hide Identify, Deliver;
    Lit(Deliver(FlagDrive(if e.a.diskOk then Identify(s, e.p2, e) else s, e.a.diskOk && e.a.deviceOk), e.p3))
  }

  function FlagDrive(s: Settled, ok: bool): (t: Settled)
    requires !s.run.busy
    ensures t == if ok then WithSource(s) else s
  {
    if ok then WithSource(s) else s
  }

  function Lit(s: Settled): (t: Settled)
    requires !s.run.busy
    ensures t == Window(s, true)
  {
    Window(s, true)
  }

  function PassThroughFlags(s: Settled): (t: Settled)
    requires !s.run.busy
    ensures t == ModeFlags(s, Passthrough, false)
  {
    ModeFlags(s, Passthrough, false)
  }

  /** The pass-through mode is set again, memory with it, and then the auto flag, whatever mode is then in force. */
  function SetAgain(s: Settled, q: Queue, o: Outcome, installs: bool): (t: Settled)
    requires !s.run.busy
    ensures Rests(s, t)
    ensures !s.gui.windowOn ==> t.run == s.run.(installed := t.run.installed)
    ensures !s.run.connected && Quiet(q) ==> t.past.stale == s.past.stale
    ensures !s.run.connected && Passive(q) ==> !t.run.connected
    decreases q, 1
  {
    hide Deliver;
    Auto(OwnSetUp(Deliver(PassThroughFlags(s), q), o, installs))
  }

  /**
   Identifying the source. In auto mode it sets the pass-through mode again, and once more
   for an ATA drive; in between it waits for the drive.
   */
  function Identify(s: Settled, q: Queue, e: Event): (t: Settled)
    requires !s.run.busy && q < e
    ensures Rests(s, t)
    ensures !s.gui.windowOn ==> t.run == s.run.(installed := t.run.installed)
    ensures !s.run.connected && QuietlyIdentified(s, q, e) ==> t.past.stale == s.past.stale
    ensures !s.run.connected && Passive(q) && Passive(e.p4) && Passive(e.p5) ==> !t.run.connected
    decreases e, 1
  {
    hide SetAgain, Identified;
    Identified(if s.choice.auto then SetAgain(s, q, e.a.memory.second, e.a.memory.installs) else s, e)
  }

  function Identified(s: Settled, e: Event): (t: Settled)
    requires !s.run.busy
    ensures Rests(s, t)
    ensures !s.gui.windowOn ==> t.run == s.run.(installed := t.run.installed)
    ensures !s.run.connected && Quiet(e.p4) && Quiet(e.p5) && (s.gui.windowOn ==> Passive(e.p4)) ==>
              t.past.stale == s.past.stale
    ensures !s.run.connected && Passive(e.p4) && Passive(e.p5) ==> !t.run.connected
    decreases e, 0
  {
    hide DeviceWait, SetAgain;
    var b := DeviceWait(s, e.p4);
    if e.a.ata && b.choice.auto then SetAgain(b, e.p5, e.a.memory.third, e.a.memory.installs) else b
  }

  /** What comes while a source is identified is quiet, and passive when widgets can act. */
  predicate QuietlyIdentified(s: Session, q: Queue, e: Event) {
    && Quiet(q) && Quiet(e.p4) && Quiet(e.p5)
    && (s.gui.windowOn ==> Passive(q) && Passive(e.p4))
  }

  function Auto(s: Session): Session {
    s.(choice := s.choice.(auto := true))
  }

  function PickDestination(s: Settled, e: Event): (t: Settled)
    requires !s.run.busy && !s.run.connected && s.gui.windowOn
    ensures Keeps(s, t)
    ensures QuietEvent(e) ==> t.past.stale == s.past.stale
    decreases e, 3
  {
    if !s.choice.project then s
    else if !e.a.accept then DestinationMemory(s, e.a)
    else TakeDestination(DestinationMemory(s, e.a), e)
  }

  function TakeDestination(s: Settled, e: Event): (t: Settled)
    requires !s.run.connected && s.gui.windowOn
    ensures Keeps(s, t)
    ensures Quiet(e.p0) && Quiet(e.p1) ==> t.past.stale == s.past.stale
    decreases e, 2
  {
    if e.a.deviceOk then SetDestination(s, e) else Deliver(NewDestination(s, false), e.p1)
  }

  function SetDestination(s: Settled, e: Event): (t: Settled)
    requires !s.run.connected && s.gui.windowOn
    ensures Keeps(s, t)
    ensures Quiet(e.p0) && Quiet(e.p1) ==> t.past.stale == s.past.stale
    decreases e, 1
  {
    EmptyDomain(NewDestination(s, true), e)
  }

  function NewDestination(s: Settled, chosen: bool): (t: Settled)
    requires !s.run.connected && s.gui.windowOn
    ensures Keeps(s, t) && t.run == s.run && t.gui == s.gui && t.past.stale == s.past.stale
  {
    Change(s, s.choice.(destination := chosen))
  }

  function PickImage(s: Settled, e: Event): (t: Settled)
    requires !s.run.busy && !s.run.connected && s.gui.windowOn
    ensures Keeps(s, t)
    ensures QuietEvent(e) ==> t.past.stale == s.past.stale
    decreases e, 2
  {
    if !s.choice.project || !e.a.accept then s else SetDestination(s, e)
  }

  /** In driver-only mode the domain is emptied, which updates the display once more. */
  function EmptyDomain(s: Settled, e: Event): (t: Settled)
    ensures Keeps(s, t)
    ensures Quiet(e.p0) && Quiet(e.p1) ==> t.past.stale == s.past.stale
    decreases e, 0
  {
    hide Deliver;
    Deliver(if s.choice.mode.DriverOnly? then Deliver(s, e.p0) else s, e.p1)
  }

  /** The null device is taken before the display is updated, and the flag set after. */
  function PickNull(s: Settled, e: Event): (t: Settled)
    requires !s.run.busy && !s.run.connected && s.gui.windowOn
    ensures Keeps(s, t)
    ensures QuietEvent(e) ==> t.past.stale == s.past.stale
    decreases e, 1
  {
    if !s.choice.project then s else WithDestination(Deliver(Renamed(s), e.p0))
  }

  // ---------- connecting ----------

  /** Check the log; when only equal neighbours are wrong with it, repair it and check again. */
  function Examine(a: Answers, bySource: bool, version: nat): Attempt {
    if a.check == SAME_STATUS then Attempt([a.check, a.recheck], [a.repair], bySource, a.sameDevice, version)
    else Attempt([a.check], [], bySource, a.sameDevice, version)
  }

  function TryConnect(s: Settled, e: Event): (t: Settled)
    requires e.cb == Connect && !s.run.connected && s.gui.windowOn
    ensures Rests(s, t)
    ensures QuietEvent(e) ==> t.past.stale == s.past.stale
    decreases e, 4
  {
    var relayCheck := e.a.relayOk || s.choice.fill || s.choice.mode.DriverOnly?;
    if s.memory.failed then s
    else if relayCheck && s.choice.project && s.choice.destination && (s.choice.fill || s.choice.mode.DriverOnly?) then
      ConnectWithoutSource(s, e)
    else if relayCheck && s.choice.project && s.choice.source && s.choice.destination then
      ConnectSource(s, e)
    else s
  }

  function ConnectWithoutSource(s: Settled, e: Event): (t: Settled)
    requires e.cb == Connect && !s.run.busy && s.gui.windowOn && Ready(s)
    ensures Rests(s, t)
    ensures QuietEvent(e) ==> t.past.stale == s.past.stale
    decreases e, 2
  {
    var at := Examine(e.a, false, s.past.version);
    if s.choice.newProject && !s.choice.fill then SetDisconnected(s, e.p4)
    else if !CleanLog(at) then SetDisconnected(s, e.p4)
    else if s.choice.mode.DriverOnly? && !s.run.installed then SetDisconnected(s, e.p4)
    else if !e.a.deviceOk then SetDisconnected(DeviceWait(s, e.p3), e.p4)
    else SetConnected(s, at, e)
  }

  /** Opening the drives can take a while, and the display is updated meanwhile. */
  function ConnectSource(s: Settled, e: Event): (t: Settled)
    requires e.cb == Connect && !s.run.busy && !s.run.connected && s.gui.windowOn && Ready(s)
    ensures Rests(s, t)
    ensures QuietEvent(e) ==> t.past.stale == s.past.stale
    decreases e, 3
  {
    var at := Examine(e.a, true, s.past.version);
    if at.sameDevice then SetDisconnected(s, e.p4)
    else if !CleanLog(at) then SetDisconnected(s, e.p4)
    else OpenDrives(DeviceWait(s, e.p0), at, e)
  }

  /** The connection is made on the checks' word, whether or not they were about what is chosen now. */
  function OpenDrives(s: Settled, at: Attempt, e: Event): (t: Settled)
    requires !s.run.busy && s.gui.windowOn && Passed(at)
    requires at.version <= s.past.version && (at.version == s.past.version ==> Ready(s))
    ensures Rests(s, t)
    ensures at.version == s.past.version && Quiet(e.p1) && Quiet(e.p2) && Quiet(e.p3) && Quiet(e.p4) ==>
              t.past.stale == s.past.stale
    decreases e, 2
  {
    hide SetConnected, SetDisconnected, DeviceWait;
    if !e.a.deviceOk then SetDisconnected(DeviceWait(s, e.p3), e.p4)
    else KnownProject(SetConnected(Aged(s, at), at, e))
  }

  function Aged(s: Session, at: Attempt): Session {
    s.(past := s.past.(stale := s.past.stale || at.version != s.past.version))
  }

  // ---------- runs ----------

  function Running(s: Settled): (t: Sound)
    requires s.run.connected && !s.run.busy
    ensures t.run == s.run.(stopSignal := false, busy := true)
    ensures t.choice == s.choice && t.memory == s.memory && t.past == s.past
    ensures t.gui.modeButtons == s.gui.modeButtons && t.gui.windowOn == s.gui.windowOn
  {
    StopTimer(s.(run := s.run.(stopSignal := false, busy := true), gui := s.gui.(cloneButton := false)))
  }

  function Idle(s: Settled): (t: Settled)
    requires s.run.busy
    ensures Calms(s, t) && t.run == s.run.(cloning := false, busy := false)
    ensures t.choice == s.choice && t.memory == s.memory && t.past == s.past
  {
    s.(run := s.run.(cloning := false, busy := false), gui := s.gui.(cloneButton := s.choice.mode != DriverOnly))
  }

  function FinishRun(s: Settled, e: Event): (t: Settled)
    requires !s.run.busy && s.gui.windowOn
    ensures Rests(s, t)
    ensures QuietEvent(e) ==> t.past.stale == s.past.stale
    decreases e, 2
  {
    hide Deliver;
    StartTimer(if e.a.ret != 0 && e.a.ret != STOP_SIGNAL_RETURN_CODE then DisconnectDevices(s, e) else s)
  }

  /** Which engine runs is decided once, after the buttons are set. */
  function BeginClone(s: Settled, e: Event): (t: Settled)
    requires s.run.connected && !s.run.busy
    ensures t.run.busy && t.run.cloning && t.gui.windowOn == s.gui.windowOn && t.past.stale == s.past.stale
    decreases e, 1
  {
    hide Deliver;
    var up := Running(s);
    Engine(ModeButtons(up, up.run.driverMode != 0, e.p0))
  }

  function UsesMemory(s: Settled): (t: Settled)
    ensures t == s.(memory := s.memory.(used := true))
  {
    s.(memory := s.memory.(used := true))
  }

  function Engine(s: Settled): Session {
    Noted(UsesMemory(s).(run := s.run.(cloning := true)),
          Began(s.run.driverMode != 0, s.choice.mode.DriverOnly?, s.run.installed))
  }

  function CloneRun(s: Settled, e: Event): (t: Settled)
    requires s.run.connected && !s.run.busy && s.gui.windowOn
    ensures Rests(s, t)
    ensures QuietEvent(e) ==> t.past.stale == s.past.stale
    decreases e, 3
  {
    hide Deliver;
    FinishRun(ModeButtons(Idle(Deliver(BeginClone(s, e), e.p1)), true, e.p2), e)
  }

  function AnalyzeRun(s: Settled, e: Event): (t: Settled)
    requires s.run.connected && !s.run.busy && s.gui.windowOn
    ensures Rests(s, t)
    ensures QuietEvent(e) ==> t.past.stale == s.past.stale
    decreases e, 3
  {
    hide Deliver, ModeButtons, FinishRun;
    var b := UsesMemory(ModeButtons(Running(s), false, e.p0));
    var d := Idle(Deliver(b, e.p1));
    FinishRun(if d.run.installed then ModeButtons(d, true, e.p2) else d, e)
  }

  /** The status timer: it stops itself when there is nothing to poll. */
  function TimerTick(s: Settled, e: Event): (t: Settled)
    requires s.gui.timerSources > 0
    ensures Keeps(s, t)
    ensures QuietEvent(e) ==> t.past.stale == s.past.stale
    ensures Passive(e.p0) ==> Unmoved(s, t)
    decreases e, 1
  {
    hide Deliver;
    if s.choice.fill || !s.run.connected || s.run.cloning then
      s.(gui := s.gui.(timerRunning := false, timerSources := s.gui.timerSources - 1))
    else Deliver(Noted(s, Polled(s.run.connected, s.run.cloning, s.choice.fill, s.run.busy)), e.p0)
  }

  // ---------- delivery ----------

  predicate IsButton(cb: Callback) {
    cb == Connect || cb == Disconnect || cb == Start || cb == Analyze
  }

  /** The callbacks that choose. */
  function FireMenu(s: Settled, e: Event): (t: Settled)
    requires Enabled(s, e.cb) && s.gui.windowOn && !IsButton(e.cb) && !IsPassive(e.cb)
    ensures Keeps(s, t)
    ensures QuietEvent(e) ==> t.past.stale == s.past.stale
    decreases e, 5
  {
    match e.cb
    case SelectFile => OpenProject(s, e)
    case ImportDdrescue => ImportLog(s, e)
    case NewFile => NewProject(s, e)
    case SwitchMode(mode, auto) => ChangeMode(s, mode, auto, e)
    case ChooseSource => PickSource(s, e)
    case ChooseDestination => PickDestination(s, e)
    case ChooseImage => PickImage(s, e)
    case ChooseNull => PickNull(s, e)
    case InstallDriver =>
      Driven(s, e.a.installed, if e.a.memory.effect == Removed then Untouched else e.a.memory.effect)
    case UninstallDriver => Driven(s, s.run.installed && e.a.installed, e.a.memory.effect)
  }

  /** The callbacks that connect, and that start runs. */
  function FireButton(s: Settled, e: Event): (t: Settled)
    requires Enabled(s, e.cb) && s.gui.windowOn && IsButton(e.cb)
    ensures Keeps(s, t)
    ensures QuietEvent(e) ==> t.past.stale == s.past.stale
    decreases e, 5
  {
    match e.cb
    case Connect => Deliver(TryConnect(s, e), e.p5)
    case Disconnect => DisconnectDevices(s, e)
    case Start => CloneRun(s, e)
    case Analyze => AnalyzeRun(s, e)
  }

  function GoToMode(s: Settled, n: DriverMode, e: Event): (t: Settled)
    requires Enabled(s, SetMode(n))
    ensures Keeps(s, t)
    ensures Quiet(e.p0) ==> t.past.stale == s.past.stale
    ensures Passive(e.p0) ==> Unmoved(s, t)
    decreases e, 3
  {
    Deliver(s.(run := s.run.(driverMode := n)), e.p0)
  }

  /** The callbacks that neither choose nor connect. */
  function FirePassive(s: Settled, e: Event): (t: Settled)
    requires Enabled(s, e.cb) && IsPassive(e.cb)
    ensures Keeps(s, t)
    ensures Quiet(e.p0) ==> t.past.stale == s.past.stale
    ensures Passive(e.p0) ==> Unmoved(s, t)
    decreases e, 4
  {
    match e.cb
    case Tick => TimerTick(s, e)
    case Stop => s.(run := s.run.(stopSignal := true))
    case SetMode(n) => GoToMode(s, n, e)
    case Other => Deliver(s, e.p0)
  }

  function Fire(s: Settled, e: Event): (t: Settled)
    ensures Keeps(s, t)
    ensures QuietEvent(e) ==> t.past.stale == s.past.stale
    ensures IsPassive(e.cb) && Passive(e.p0) ==> Unmoved(s, t)
    decreases e, 6
  {
    if !Enabled(s, e.cb) then s
    else if IsPassive(e.cb) then FirePassive(s, e)
    else if IsButton(e.cb) then FireButton(s, e)
    else FireMenu(s, e)
  }

  /** Everything pending, one after the other; an event whose widget is insensitive by then is lost. */
  function Deliver(s: Settled, q: Queue): (t: Settled)
    ensures Keeps(s, t)
    ensures Quiet(q) ==> t.past.stale == s.past.stale
    ensures Passive(q) ==> Unmoved(s, t)
    decreases q, 0
  {
    match q
    case Nil => s
    case Cons(e, rest) => Deliver(Fire(s, e), rest)
  }
}
