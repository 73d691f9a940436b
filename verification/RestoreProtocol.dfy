/** scripts/live-gates/a19_interrupt_restore_child.py: stopping, confirming, killing and reaping one snapshot helper
    that runs at the same time, as a step system. The helper and the operating system move between any two calls. */
module RestoreProtocol {
  import opened Results

  // ---------- the helper, as the kernel sees it ----------

  datatype Reaper = Own | Foreign

  /** A reaped pid may name another process from then on. */
  datatype Process = Running | Stopped | Zombie(code: int) | Gone(reaper: Reaper, code: int)

  const SIGKILLED := -9

  datatype File = Missing | RegularFile | OtherThing

  /** The staging directory; `there` says that it is a real directory. */
  datatype Stage = Stage(there: bool, disk: File, vars: File, manifest: File)

  /** `selection` is the identity of the declared selection, a number here; None when it is absent. */
  datatype World = World(process: Process, selection: Option<nat>, stage: Stage, stopPending: bool,
                         stopUnreported: bool, killSent: bool)

  datatype Operation = Restore | Create

  /** What the helper does, and the selection that must stay in force. */
  datatype StopPoint = StopPoint(operation: Operation, before: nat)

  /** `staged_ready`: both copies are there, and the manifest is what comes last. */
  predicate StagedReady(operation: Operation, stage: Stage) {
    && stage.there && stage.disk == RegularFile && stage.vars == RegularFile
    && stage.manifest == if operation == Create then Missing else RegularFile
  }

  // ---------- the observer ----------

  datatype Point =
    | LoopHead          // while time.monotonic() < deadline
    | Poll              // child.poll()
    | Ready             // staged_ready
    | Selected          // still_selected
    | FirstLsof
    | SendStop          // os.kill(SIGSTOP)
    | WaitStop          // os.waitpid(WUNTRACED | WNOHANG), repeated
    | ConfirmLsof
    | ConfirmStage      // staged_ready again
    | ConfirmSelection  // still_selected again
    | WriteRecord
    | InnerFinally      // os.kill(SIGKILL) unless reaped
    | OuterFinally      // child.poll() unless reaped
    | OuterKill         // the poll inside child.kill()
    | OuterSignal       // the signal inside child.kill()
    | OuterWait         // child.wait(timeout=5)
    | AfterSelection
    | WriteContext
    | Returned
    | Raised

  /** `reaped` is the `_a19_reaped` mark, `result` that the stop function returned an observation. */
  datatype Child = Child(returncode: Option<int>, reaped: bool, result: bool)

  /** What the checks before the stop were told. */
  datatype Look = Look(staged: bool, selected: bool, open: bool)

  /** What happened, kept for the statements only: `first` is what was seen before the stop was `sent`; `open` that the
      stopped helper was seen reading the staged disk, `staged` the stage and `confirmed` the world as the confirmation
      found them; `told` that a wait said that somebody else reaped the helper. */
  datatype History = History(first: Look, sent: bool, stopSeen: bool, open: bool, staged: Option<Stage>,
                             confirmed: Option<World>, stepped: bool, continued: bool, told: bool,
                             stray: Option<Reaper>)

  /** `raising` is an exception on its way out. */
  datatype State = State(at: Point, raising: bool, world: World, child: Child, history: History)

  const NOTHING := Stage(false, Missing, Missing, Missing)

  const UNSEEN := History(Look(false, false, false), false, false, false, None, None, false, false, false, None)

  /** The stage must not exist before the helper is started. */
  function Start(stop: StopPoint): State {
    State(LoopHead, false, World(Running, Some(stop.before), NOTHING, false, false, false), Child(None, false, false),
          UNSEEN)
  }

  // ---------- moves of the helper and the operating system ----------

  datatype Event =
    | HelperStep(selection: Option<nat>, stage: Stage)  // any work, publication included
    | HelperExit(code: int)
    | DeliverStop
    | DeliverKill
    | ForeignStop
    | ForeignContinue
    | ForeignKill
    | ForeignReap                         // somebody else waits for the helper

  /** A move that is not possible changes nothing. */
  function MoveWorld(w: World, e: Event): World {
    match e
    case HelperStep(selection, stage) => if w.process.Running? then w.(selection := selection, stage := stage) else w
    case HelperExit(code) => if w.process.Running? then w.(process := Zombie(code)) else w
    case DeliverStop =>
      if w.process.Running? && w.stopPending
      then w.(process := Stopped, stopUnreported := true, stopPending := false) else w
    case DeliverKill =>
      if (w.process.Running? || w.process.Stopped?) && w.killSent then w.(process := Zombie(SIGKILLED)) else w
    case ForeignStop => if w.process.Running? then w.(process := Stopped, stopUnreported := true) else w
    case ForeignContinue => if w.process.Stopped? then w.(process := Running, stopUnreported := false) else w
    case ForeignKill => if w.process.Running? || w.process.Stopped? then w.(process := Zombie(SIGKILLED)) else w
    case ForeignReap => if w.process.Zombie? then w.(process := Gone(Foreign, w.process.code)) else w
  }

  predicate HelperMoves(w: World, e: Event) { w.process.Running? && (e.HelperStep? || e.HelperExit?) }

  /** Somebody else continues the helper after its stop was seen. */
  predicate Resumes(s: State, e: Event) { s.history.stopSeen && s.world.process.Stopped? && e.ForeignContinue? }

  function Move(s: State, e: Event): State {
    s.(world := MoveWorld(s.world, e),
       history := s.history.(stepped := s.history.stepped || (s.history.stopSeen && HelperMoves(s.world, e)),
                             continued := s.history.continued || Resumes(s, e)))
  }

  // ---------- moves of the observer ----------

  predicate Settled(p: Point) { p.OuterWait? || p.AfterSelection? || p.WriteContext? || p.Returned? || p.Raised? }

  predicate Unwinding(p: Point) { p.OuterFinally? || p.OuterKill? || p.OuterSignal? || Settled(p) }

  /** What the outside decides for one call: whether it raises, whether a deadline has passed, what a check says. */
  datatype Choice = Choice(raises: bool, late: bool, ok: bool)

  predicate Disowned(s: State) { s.world.process.Gone? && s.world.process.reaper == Foreign }

  /** Only somebody else continues the helper, or reaps it in its own name. */
  predicate OwnMove(s: State, t: State) {
    t.history.continued == s.history.continued && (Disowned(t) ==> Disowned(s))
  }

  function Goto(s: State, to: Point): State { s.(at := to) }

  function Raise(s: State, to: Point): State { s.(at := to, raising := true) }

  /** The observer knows that the helper was reaped. */
  predicate Knows(s: State) { s.history.told || s.child.returncode.Some? }

  /** A signal to a pid that was reaped goes astray, worst if the observer reaped it or knows. */
  function Signal(s: State): State {
    if s.world.process.Gone? && s.history.stray != Some(Own)
    then s.(history := s.history.(stray := Some(if Knows(s) then Own else s.world.process.reaper)))
    else s
  }

  function SendKill(s: State): State { Signal(s).(world := s.world.(killSent := true)) }

  function Reap(s: State, code: int): State {
    s.(world := s.world.(process := Gone(Own, code)), child := s.child.(returncode := Some(code)))
  }

  /** `Popen.poll`: reaps a zombie; a child someone else reaped counts as exit status 0. */
  function PollChild(s: State): State {
    if s.child.returncode.Some? then s
    else match s.world.process
      case Zombie(code) => Reap(s, code)
      case Gone(_, _) => s.(child := s.child.(returncode := Some(0)))
      case _ => s
  }

  function AtPoll(s: State): State {
    var t := PollChild(s);
    if t.child.returncode.Some? then Raise(t, OuterFinally) else Goto(t, Ready)
  }

  function AtReady(s: State, c: Choice, stop: StopPoint): State {
    var ready := StagedReady(stop.operation, s.world.stage);
    if c.raises then Raise(s, OuterFinally)
    else Goto(s, if ready then Selected else LoopHead).(history := s.history.(first := Look(ready, false, false)))
  }

  function AtSelected(s: State, c: Choice, stop: StopPoint): State {
    var selected := s.world.selection == Some(stop.before);
    if c.raises then Raise(s, OuterFinally)
    else Goto(s, if selected then FirstLsof else LoopHead)
           .(history := s.history.(first := s.history.first.(selected := selected)))
  }

  function AtFirstLsof(s: State, c: Choice): State {
    if c.raises then Raise(s, OuterFinally)
    else Goto(s, if c.ok then SendStop else LoopHead)
           .(history := s.history.(first := s.history.first.(open := c.ok)))
  }

  function AtSendStop(s: State, c: Choice): State {
    var t := Signal(s).(history := Signal(s).history.(sent := true));
    if s.world.process.Gone? && c.raises then Raise(t, OuterFinally)
    else Goto(t, WaitStop).(world := s.world.(stopPending := true))
  }

  /** One `waitpid` of the stop loop. */
  function AtWaitStop(s: State, c: Choice): State {
    match s.world.process
    case Zombie(code) => var t := Reap(s, code); Raise(t.(child := t.child.(reaped := true)), InnerFinally)
    case Gone(_, _) =>
      Raise(s.(child := s.child.(reaped := true), history := s.history.(told := true)), InnerFinally)
    case _ =>
      if s.world.process.Stopped? && s.world.stopUnreported
      then Goto(s, ConfirmLsof).(world := s.world.(stopUnreported := false),
                                 history := s.history.(stopSeen := s.world.process.Stopped?))
      else if c.late then Raise(s, InnerFinally) else s
  }

  function AtConfirmStage(s: State, c: Choice, stop: StopPoint): State {
    if c.raises || !StagedReady(stop.operation, s.world.stage) then Raise(s, InnerFinally)
    else Goto(s, ConfirmSelection).(history := s.history.(staged := Some(s.world.stage)))
  }

  function AtConfirmSelection(s: State, c: Choice, stop: StopPoint): State {
    if c.raises || s.world.selection != Some(stop.before) then Raise(s, InnerFinally)
    else Goto(s, WriteRecord).(history := s.history.(confirmed := Some(s.world)))
  }

  function AtInnerFinally(s: State, c: Choice): State {
    if s.child.reaped then Goto(s, OuterFinally)
    else if s.world.process.Gone? && c.raises then Raise(SendKill(s), OuterFinally)
    else Goto(SendKill(s), OuterFinally)
  }

  /** The end of the outer `finally`. */
  function Leave(s: State): State { Goto(s, if s.raising then Raised else AfterSelection) }

  /** The two polls before a signal of the outer `finally`. */
  function AtOuterPoll(s: State, alive: Point): State {
    var t := PollChild(s);
    Goto(t, if t.child.returncode.None? then alive else OuterWait)
  }

  function AtOuterWait(s: State, c: Choice): State {
    var t := PollChild(s);
    if t.child.returncode.Some? then Leave(t) else if c.late then Raise(t, Raised) else t
  }

  function AtAfterSelection(s: State, c: Choice, stop: StopPoint): State {
    if c.raises || !s.child.result || s.child.returncode != Some(SIGKILLED) || s.world.selection != Some(stop.before)
    then Raise(s, Raised) else Goto(s, WriteContext)
  }

  /** `stop_at_verified_stage`. */
  function InStop(s: State, c: Choice, stop: StopPoint): (t: State)
    ensures OwnMove(s, t)
  {
    match s.at
    case LoopHead => if c.late then Raise(s, OuterFinally) else Goto(s, Poll)
    case Poll => AtPoll(s)
    case Ready => AtReady(s, c, stop)
    case Selected => AtSelected(s, c, stop)
    case FirstLsof => AtFirstLsof(s, c)
    case SendStop => AtSendStop(s, c)
    case WaitStop => AtWaitStop(s, c)
    case ConfirmLsof =>
      if c.raises || !c.ok then Raise(s, InnerFinally)
      else Goto(s, ConfirmStage).(history := s.history.(open := c.ok))
    case ConfirmStage => AtConfirmStage(s, c, stop)
    case ConfirmSelection => AtConfirmSelection(s, c, stop)
    case WriteRecord =>
      if c.raises then Raise(s, InnerFinally) else Goto(s, InnerFinally).(child := s.child.(result := true))
    case _ => AtInnerFinally(s, c)
  }

  /** The `finally` of `run`, and what follows it. */
  function InRun(s: State, c: Choice, stop: StopPoint): (t: State)
    ensures OwnMove(s, t)
  {
    match s.at
    case OuterFinally => if s.child.reaped then Leave(s) else AtOuterPoll(s, OuterKill)
    case OuterKill => AtOuterPoll(s, OuterSignal)
    case OuterSignal => Goto(SendKill(s), OuterWait)
    case OuterWait => AtOuterWait(s, c)
    case AfterSelection => AtAfterSelection(s, c, stop)
    case WriteContext => if c.raises then Raise(s, Raised) else Goto(s, Returned)
    case _ => s
  }

  function Observe(s: State, c: Choice, stop: StopPoint): (t: State)
    ensures OwnMove(s, t)
  {
    if Unwinding(s.at) then InRun(s, c, stop) else InStop(s, c, stop)
  }

  // ---------- runs ----------

  datatype Action = Observer(choice: Choice) | Outside(event: Event)

  function Step(s: State, a: Action, stop: StopPoint): State {
    match a
    case Observer(c) => Observe(s, c, stop)
    case Outside(e) => Move(s, e)
  }

  /** Any interleaving, cut off anywhere. */
  function Run(stop: StopPoint, actions: seq<Action>): State {
    if actions == [] then Start(stop)
    else Step(Run(stop, actions[..|actions| - 1]), actions[|actions| - 1], stop)
  }

  // ---------- what every step keeps ----------

  /** Points the observer reaches only with the child not reaped by itself. */
  predicate Unreaped(p: Point) {
    match p
    case LoopHead | Poll | Ready | Selected | FirstLsof | SendStop | WaitStop => true
    case ConfirmLsof | ConfirmStage | ConfirmSelection | WriteRecord | OuterSignal => true
    case _ => false
  }

  predicate Confirming(p: Point) { p.ConfirmLsof? || p.ConfirmStage? || p.ConfirmSelection? || p.WriteRecord? }

  predicate Opened(p: Point) { p.ConfirmStage? || p.ConfirmSelection? || p.WriteRecord? }

  predicate Ending(p: Point) { p.InnerFinally? || Unwinding(p) }

  /** What the observer knows about who reaped the helper. */
  predicate Ownership(s: State) {
    && (s.world.process.Gone? && s.world.process.reaper == Own ==> s.child.returncode == Some(s.world.process.code))
    && (s.child.returncode.Some? ==>
          s.world.process.Gone? && (s.world.process.reaper == Own || s.child.returncode == Some(0)))
    && (s.child.reaped ==> s.world.process.Gone?) && (s.history.told ==> s.child.reaped)
    && (Unreaped(s.at) ==> s.child.returncode.None? && !s.child.reaped)
    && (s.at == InnerFinally ==> s.child.reaped || s.child.returncode.None?)
    && (s.at == AfterSelection ==> s.child.reaped || s.child.returncode.Some?)
  }

  predicate Aim(s: State) {
    s.history.stray.Some? ==>
      s.history.stray == Some(Foreign) && s.world.process.Gone? && s.world.process.reaper == Foreign
  }

  /** At the confirmation the stopped helper was reading the staged disk of a complete stage, the old selection was in
      force, and the helper stood still or somebody else continued it. */
  predicate ConfirmedOld(h: History, stop: StopPoint) {
    && h.stopSeen && h.open && h.staged.Some? && WholeStage(stop.operation, h.staged.value)
    && h.confirmed.Some? && h.confirmed.value.selection == Some(stop.before)
    && (!h.continued ==> !h.confirmed.value.process.Running? && h.confirmed.value.stage == h.staged.value)
  }

  /** Nothing moved since the confirmation. */
  predicate AsConfirmed(w: World, h: History) {
    && (h.confirmed.Some? ==> w.stage == h.confirmed.value.stage && w.selection == h.confirmed.value.selection)
    && (h.staged.Some? ==> w.stage == h.staged.value)
  }

  predicate Frozen(s: State, stop: StopPoint) {
    && (Confirming(s.at) ==> s.history.stopSeen) && (Opened(s.at) ==> s.history.open)
    && (s.at == ConfirmSelection ==> s.history.staged.Some?)
    && (s.history.staged.Some? ==> s.history.stopSeen && WholeStage(stop.operation, s.history.staged.value))
    && (s.history.confirmed.Some? ==> s.history.staged.Some?)
    && (s.at == WriteRecord || s.child.result ==> ConfirmedOld(s.history, stop))
    && (s.history.stopSeen && s.world.process.Running? ==> s.history.continued)
    && (s.history.stepped ==> s.history.continued)
    && (!s.history.continued ==> AsConfirmed(s.world, s.history))
  }

  /** The stop is sent only to a helper whose stage was complete, with the old selection in force and the staged disk
      open. */
  predicate Looked(s: State) {
    && (s.at == Selected ==> s.history.first.staged)
    && (s.at == FirstLsof ==> s.history.first.staged && s.history.first.selected)
    && (s.at == SendStop || s.history.sent ==> s.history.first == Look(true, true, true))
    && (Before(s.at) ==> !s.history.sent)
  }

  predicate Before(p: Point) { p.LoopHead? || p.Poll? || p.Ready? || p.Selected? || p.FirstLsof? || p.SendStop? }

  predicate Outcome(s: State, stop: StopPoint) {
    && (Ending(s.at) ==> s.raising || s.child.result)
    && (Settled(s.at) ==> s.world.process.Gone? || s.world.killSent)
    && (s.at == WriteContext || s.at == Returned ==>
          s.child.returncode == Some(SIGKILLED) && s.world.selection == Some(stop.before) && s.child.result)
  }

  /** What a stage holds between its last sync and its publication: for a restore everything, for a creation all but the
      manifest. */
  predicate WholeStage(operation: Operation, stage: Stage) {
    && stage.there && stage.disk.RegularFile? && stage.vars.RegularFile?
    && match operation
       case Restore => stage.manifest.RegularFile?
       case Create => stage.manifest.Missing?
  }

  predicate Inv(s: State, stop: StopPoint) {
    Ownership(s) && Aim(s) && Looked(s) && Frozen(s, stop) && Outcome(s, stop)
  }

  lemma MoveKeeps(s: State, e: Event, stop: StopPoint)
    requires Inv(s, stop)
    ensures Inv(Move(s, e), stop)
  {
  }

  lemma LoopingKeeps(s: State, c: Choice, stop: StopPoint)
    requires Inv(s, stop) && s.at.LoopHead?
    ensures Inv(InStop(s, c, stop), stop)
  {
  }

  lemma PollingKeeps(s: State, c: Choice, stop: StopPoint)
    requires Inv(s, stop) && s.at.Poll?
    ensures Inv(AtPoll(s), stop)
  {
  }

  lemma CheckingKeeps(s: State, c: Choice, stop: StopPoint)
    requires Inv(s, stop) && (s.at.Ready? || s.at.Selected?)
    ensures Inv(InStop(s, c, stop), stop)
  {
  }

  lemma ListingKeeps(s: State, c: Choice, stop: StopPoint)
    requires Inv(s, stop) && s.at.FirstLsof?
    ensures Inv(AtFirstLsof(s, c), stop)
  {
  }

  lemma StoppingKeeps(s: State, c: Choice, stop: StopPoint)
    requires Inv(s, stop) && s.at.SendStop?
    ensures Inv(AtSendStop(s, c), stop)
  {
  }

  lemma WaitingKeeps(s: State, c: Choice, stop: StopPoint)
    requires Inv(s, stop) && s.at.WaitStop?
    ensures Inv(AtWaitStop(s, c), stop)
  {
    if s.world.process.Zombie? || s.world.process.Gone? {
      LostKeeps(s, c, stop);
    } else {
      AwaitedKeeps(s, c, stop);
    }
  }

  lemma LostKeeps(s: State, c: Choice, stop: StopPoint)
    requires Inv(s, stop) && s.at.WaitStop? && (s.world.process.Zombie? || s.world.process.Gone?)
    ensures Inv(AtWaitStop(s, c), stop)
  {
  }

  lemma AwaitedKeeps(s: State, c: Choice, stop: StopPoint)
    requires Inv(s, stop) && s.at.WaitStop? && (s.world.process.Running? || s.world.process.Stopped?)
    ensures Inv(AtWaitStop(s, c), stop)
  {
  }

  lemma ConfirmingKeeps(s: State, c: Choice, stop: StopPoint)
    requires Inv(s, stop) && (s.at.ConfirmLsof? || s.at.ConfirmStage?)
    ensures Inv(InStop(s, c, stop), stop)
  {
  }

  lemma SelectionKeeps(s: State, c: Choice, stop: StopPoint)
    requires Inv(s, stop) && s.at.ConfirmSelection?
    ensures Inv(AtConfirmSelection(s, c, stop), stop)
  {
  }

  lemma WritingKeeps(s: State, c: Choice, stop: StopPoint)
    requires Inv(s, stop) && s.at.WriteRecord?
    ensures Inv(InStop(s, c, stop), stop)
  {
  }

  lemma KillingKeeps(s: State, c: Choice, stop: StopPoint)
    requires Inv(s, stop) && s.at.InnerFinally?
    ensures Inv(AtInnerFinally(s, c), stop)
  {
  }

  lemma LeavingKeeps(s: State, c: Choice, stop: StopPoint)
    requires Inv(s, stop) && (s.at.OuterFinally? || s.at.OuterKill?)
    ensures Inv(InRun(s, c, stop), stop)
  {
  }

  lemma SignallingKeeps(s: State, c: Choice, stop: StopPoint)
    requires Inv(s, stop) && s.at.OuterSignal?
    ensures Inv(Goto(SendKill(s), OuterWait), stop)
  {
  }

  lemma ReapingKeeps(s: State, c: Choice, stop: StopPoint)
    requires Inv(s, stop) && s.at.OuterWait?
    ensures Inv(AtOuterWait(s, c), stop)
  {
  }

  lemma EndingKeeps(s: State, c: Choice, stop: StopPoint)
    requires Inv(s, stop) && (s.at.AfterSelection? || s.at.WriteContext?)
    ensures Inv(InRun(s, c, stop), stop)
  {
  }

  lemma EndedKeeps(s: State, c: Choice, stop: StopPoint)
    requires Inv(s, stop) && (s.at.Returned? || s.at.Raised?)
    ensures Inv(InRun(s, c, stop), stop)
  {
  }

  lemma ObserveKeeps(s: State, c: Choice, stop: StopPoint)
    requires Inv(s, stop)
    ensures Inv(Observe(s, c, stop), stop)
  {
    match s.at {
      case LoopHead => LoopingKeeps(s, c, stop);
      case Poll => PollingKeeps(s, c, stop);
      case Ready | Selected => CheckingKeeps(s, c, stop);
      case FirstLsof => ListingKeeps(s, c, stop);
      case SendStop => StoppingKeeps(s, c, stop);
      case WaitStop => WaitingKeeps(s, c, stop);
      case ConfirmLsof | ConfirmStage => ConfirmingKeeps(s, c, stop);
      case ConfirmSelection => SelectionKeeps(s, c, stop);
      case WriteRecord => WritingKeeps(s, c, stop);
      case InnerFinally => KillingKeeps(s, c, stop);
      case OuterFinally | OuterKill => LeavingKeeps(s, c, stop);
      case OuterSignal => SignallingKeeps(s, c, stop);
      case OuterWait => ReapingKeeps(s, c, stop);
      case AfterSelection | WriteContext => EndingKeeps(s, c, stop);
      case Returned | Raised => EndedKeeps(s, c, stop);
    }
  }

  lemma {:induction false} RunKeeps(stop: StopPoint, actions: seq<Action>)
    ensures Inv(Run(stop, actions), stop)
  {
    if actions != [] {
      var prefix, last := actions[..|actions| - 1], actions[|actions| - 1];
      RunKeeps(stop, prefix);
      match last {
        case Observer(c) => ObserveKeeps(Run(stop, prefix), c, stop);
        case Outside(e) => MoveKeeps(Run(stop, prefix), e, stop);
      }
    }
  }

  // ---------- the guarantees ----------

  /** In every interleaving: an observation is returned only of a helper that was stopped with a complete stage and the
      old selection in force, was killed and reaped by the observer, and never published; between the stop and its death
      it took no step unless somebody else continued it after the stop was seen, so the stage is still complete. */
  lemma ReturnedMeansKilledUnpublished(stop: StopPoint, actions: seq<Action>)
    ensures var s := Run(stop, actions);
            s.at == Returned ==>
              && ConfirmedOld(s.history, stop)
              && (s.history.stepped ==> s.history.continued)
              && (!s.history.continued ==> WholeStage(stop.operation, s.world.stage))
              && s.world.process == Gone(Own, -9) && s.world.selection == Some(stop.before)
  {
    RunKeeps(stop, actions);
  }

  /** In every interleaving: the stop is sent only after the helper was seen reading the staged disk of a complete stage
      with the old selection in force. */
  lemma StopNeedsAllChecks(stop: StopPoint, actions: seq<Action>)
    ensures var s := Run(stop, actions);
            s.history.sent ==> s.history.first == Look(true, true, true)
  {
    RunKeeps(stop, actions);
  }

  /** In every interleaving, returning or raising: no signal goes to a pid the observer has reaped, or knows to be
      reaped; one can go astray only after somebody else reaped the helper. */
  lemma NoSignalAfterOwnReap(stop: StopPoint, actions: seq<Action>)
    ensures var s := Run(stop, actions);
            && s.history.stray != Some(Own)
            && (s.history.stray.Some? ==> s.world.process.Gone? && s.world.process.reaper == Foreign)
  {
    RunKeeps(stop, actions);
  }

  /** However it ends, the helper is reaped or has been sent SIGKILL. */
  lemma NoLiveHelperLeft(stop: StopPoint, actions: seq<Action>)
    ensures var s := Run(stop, actions);
            s.at == Returned || s.at == Raised ==> s.world.process.Gone? || s.world.killSent
  {
    RunKeeps(stop, actions);
  }

  /** Somebody else continues the helper when its stop has been seen already. */
  ghost predicate ContinuedIn(stop: StopPoint, actions: seq<Action>) {
    exists i :: 0 <= i < |actions| && actions[i] == Outside(ForeignContinue)
                && Run(stop, actions[..i]).history.stopSeen
  }

  ghost predicate OnlyOwn(stop: StopPoint, actions: seq<Action>) {
    var s := Run(stop, actions);
    (s.history.continued ==> ContinuedIn(stop, actions)) && (Disowned(s) ==> Outside(ForeignReap) in actions)
  }

  /** When nobody else continues the helper after its stop was seen, or nobody else reaps it, the reservation above
      disappears; a foreign continue that comes earlier does no harm. */
  lemma {:induction false} Undisturbed(stop: StopPoint, actions: seq<Action>)
    ensures !ContinuedIn(stop, actions) ==> !Run(stop, actions).history.stepped
    ensures Outside(ForeignReap) !in actions ==> Run(stop, actions).history.stray.None?
  {
    RunKeeps(stop, actions);
    RunOnlyOwn(stop, actions);
  }

  lemma {:induction false} RunOnlyOwn(stop: StopPoint, actions: seq<Action>)
    ensures OnlyOwn(stop, actions)
  {
    if actions != [] {
      var n := |actions| - 1;
      RunOnlyOwn(stop, actions[..n]);
      ContinuedGrows(stop, actions, n);
      StepIsOwn(Run(stop, actions[..n]), actions[n], stop);
    }
  }

  lemma ContinuedGrows(stop: StopPoint, actions: seq<Action>, n: nat)
    requires n < |actions|
    ensures ContinuedIn(stop, actions[..n]) ==> ContinuedIn(stop, actions)
    ensures actions[n] == Outside(ForeignContinue) && Run(stop, actions[..n]).history.stopSeen
            ==> ContinuedIn(stop, actions)
    ensures Outside(ForeignReap) in actions[..n] ==> Outside(ForeignReap) in actions
  {
    var prefix := actions[..n];
    if ContinuedIn(stop, prefix) {
      var i :| 0 <= i < n && prefix[i] == Outside(ForeignContinue) && Run(stop, prefix[..i]).history.stopSeen;
      assert actions[..i] == prefix[..i];
      assert actions[i] == Outside(ForeignContinue);
    }
  }

  /** Both come about only in these two ways. */
  lemma StepIsOwn(s: State, a: Action, stop: StopPoint)
    ensures var t := Step(s, a, stop);
            && (t.history.continued && !s.history.continued ==>
                  a == Outside(ForeignContinue) && s.history.stopSeen)
            && (Disowned(t) && !Disowned(s) ==> a == Outside(ForeignReap))
  {
    match a {
      case Observer(c) => assert OwnMove(s, Observe(s, c, stop));
      case Outside(e) =>
    }
  }

  // ---------- it ends ----------

  /** The calls that are left at most once every deadline has passed. */
  function Left(p: Point): nat {
    match p
    case Returned | Raised => 0
    case WriteContext => 1
    case AfterSelection => 2
    case OuterWait => 3
    case OuterSignal => 4
    case OuterKill => 5
    case OuterFinally => 6
    case LoopHead => 7
    case InnerFinally => 8
    case WriteRecord => 9
    case ConfirmSelection => 10
    case ConfirmStage => 11
    case ConfirmLsof => 12
    case WaitStop => 13
    case SendStop => 14
    case FirstLsof => 15
    case Selected => 16
    case Ready => 17
    case Poll => 18
  }

  lemma LateStepLeavesLess(s: State, c: Choice, stop: StopPoint)
    requires c.late
    ensures Left(Observe(s, c, stop).at) < Left(s.at) || Left(Observe(s, c, stop).at) == 0
  {
    if Unwinding(s.at) {
      LateRunLeavesLess(s, c, stop);
    } else {
      LateStopLeavesLess(s, c, stop);
    }
  }

  lemma LateStopLeavesLess(s: State, c: Choice, stop: StopPoint)
    requires c.late && !Unwinding(s.at)
    ensures Left(InStop(s, c, stop).at) < Left(s.at)
  {
  }

  lemma LateRunLeavesLess(s: State, c: Choice, stop: StopPoint)
    requires c.late && Unwinding(s.at)
    ensures Left(InRun(s, c, stop).at) < Left(s.at) || s.at == Returned || s.at == Raised
    ensures s.at == Returned || s.at == Raised ==> InRun(s, c, stop).at == s.at
  {
  }

  lemma StepLeavesLess(s: State, a: Action, stop: StopPoint)
    requires a.Observer? ==> a.choice.late
    ensures var left := Left(Step(s, a, stop).at);
            left == 0 || left + Turn(a) <= Left(s.at)
  {
    match a {
      case Observer(c) => LateStepLeavesLess(s, c, stop);
      case Outside(e) =>
    }
  }

  /** The calls of the observer, once every deadline has passed. */
  function Turns(actions: seq<Action>): nat {
    if actions == [] then 0
    else Turns(actions[..|actions| - 1]) + Turn(actions[|actions| - 1])
  }

  function Turn(a: Action): nat { if a.Observer? then 1 else 0 }

  predicate AllLate(actions: seq<Action>) {
    forall i :: 0 <= i < |actions| && actions[i].Observer? ==> actions[i].choice.late
  }

  function LeftAfter(stop: StopPoint, actions: seq<Action>): nat { Left(Run(stop, actions).at) }

  lemma CallLeavesLess(stop: StopPoint, actions: seq<Action>, a: Action)
    requires a.Observer? ==> a.choice.late
    ensures var left := LeftAfter(stop, actions + [a]); left == 0 || left + Turn(a) <= LeftAfter(stop, actions)
  {
    var s := Run(stop, actions);
    Extend(stop, actions, a);
    StepLeavesLess(s, a, stop);
  }

  lemma NoneLeft(p: Point)
    ensures Left(p) <= 18 && (Left(p) == 0 <==> p == Returned || p == Raised)
  {
  }

  lemma LateCallsRunOut(stop: StopPoint, first: seq<Action>, rest: seq<Action>)
    requires AllLate(rest)
    ensures LeftAfter(stop, first + rest) == 0 || LeftAfter(stop, first + rest) + Turns(rest) <= LeftAfter(stop, first)
  {
    var left := (actions: seq<Action>) => LeftAfter(stop, actions);
    forall actions, a: Action | a.Observer? ==> a.choice.late
      ensures left(actions + [a]) == 0 || left(actions + [a]) + Turn(a) <= left(actions)
    {
      CallLeavesLess(stop, actions, a);
    }
    FewerAreLeft(left, first, rest);
  }

  /** Whatever the helper and everybody else do: when every deadline has passed, the observer is done after eighteen
      more calls. */
  lemma EndsInTime(stop: StopPoint, first: seq<Action>, rest: seq<Action>)
    requires AllLate(rest) && Turns(rest) >= 18
    ensures Run(stop, first + rest).at == Returned || Run(stop, first + rest).at == Raised
  {
    LateCallsRunOut(stop, first, rest);
    NoneLeft(Run(stop, first).at);
    NoneLeft(Run(stop, first + rest).at);
  }

  /** Whatever each late call takes one from is used up by so many calls. */
  lemma {:induction false} FewerAreLeft(left: seq<Action> -> nat, first: seq<Action>, rest: seq<Action>)
    requires forall actions, a: Action | a.Observer? ==> a.choice.late ::
               left(actions + [a]) == 0 || left(actions + [a]) + Turn(a) <= left(actions)
    requires AllLate(rest)
    ensures left(first + rest) == 0 || left(first + rest) + Turns(rest) <= left(first)
  {
    if rest == [] {
      assert first + rest == first;
    } else {
      var n := |rest| - 1;
      FewerAreLeft(left, first, rest[..n]);
      assert first + rest == (first + rest[..n]) + [rest[n]];
    }
  }

  // ---------- the reservations are needed, and observations do happen ----------

  const GO := Observer(Choice(false, false, true))

  lemma Extend(stop: StopPoint, actions: seq<Action>, a: Action)
    ensures Run(stop, actions + [a]) == Step(Run(stop, actions), a, stop)
  {
    var longer := actions + [a];
    assert longer[..|longer| - 1] == actions;
  }

  function Complete(operation: Operation): Stage {
    Stage(true, RegularFile, RegularFile, if operation == Create then Missing else RegularFile)
  }

  function Staged(stop: StopPoint): World {
    World(Running, Some(stop.before), Complete(stop.operation), false, false, false)
  }

  function Held(stop: StopPoint): State {
    State(SendStop, false, Staged(stop), Child(None, false, false), UNSEEN.(first := Look(true, true, true)))
  }

  lemma StagedRun(stop: StopPoint) returns (actions: seq<Action>)
    ensures Run(stop, actions) == Start(stop).(at := Ready, world := Staged(stop))
  {
    var staged := Outside(HelperStep(Some(stop.before), Complete(stop.operation)));
    Extend(stop, [], staged);
    Extend(stop, [] + [staged], GO);
    Extend(stop, [] + [staged] + [GO], GO);
    actions := [] + [staged] + [GO] + [GO];
  }

  lemma HeldRun(stop: StopPoint) returns (actions: seq<Action>)
    ensures Run(stop, actions) == Held(stop)
  {
    actions := StagedRun(stop);
    Extend(stop, actions, GO);
    Extend(stop, actions + [GO], GO);
    Extend(stop, actions + [GO] + [GO], GO);
    actions := actions + [GO] + [GO] + [GO];
  }

  /** If somebody else reaps the helper first, the stop signal does go to a pid that may be another process. */
  lemma ForeignReapMisdirects(stop: StopPoint)
    ensures exists actions :: Run(stop, actions).history.stray == Some(Foreign)
  {
    var held := HeldRun(stop);
    var exits, reaped := Outside(HelperExit(0)), Outside(ForeignReap);
    Extend(stop, held, exits);
    Extend(stop, held + [exits], reaped);
    Extend(stop, held + [exits] + [reaped], GO);
    assert Run(stop, held + [exits] + [reaped] + [GO]).history.stray == Some(Foreign);
  }

  const STOPPED := UNSEEN.(first := Look(true, true, true), sent := true, stopSeen := true)

  function Confirmed(stop: StopPoint): State {
    var still := Staged(stop).(process := Stopped);
    State(WriteRecord, false, still, Child(None, false, false),
          STOPPED.(open := true, staged := Some(still.stage), confirmed := Some(still)))
  }

  lemma StoppedRun(stop: StopPoint) returns (actions: seq<Action>)
    ensures Run(stop, actions)
            == Confirmed(stop).(at := ConfirmLsof, history := STOPPED)
  {
    actions := HeldRun(stop);
    var stopped := Outside(DeliverStop);
    Extend(stop, actions, GO);
    Extend(stop, actions + [GO], stopped);
    Extend(stop, actions + [GO] + [stopped], GO);
    actions := actions + [GO] + [stopped] + [GO];
  }

  lemma OpenedRun(stop: StopPoint) returns (actions: seq<Action>)
    ensures Run(stop, actions) == Confirmed(stop).(at := ConfirmStage, history := STOPPED.(open := true))
  {
    actions := StoppedRun(stop);
    Extend(stop, actions, GO);
    actions := actions + [GO];
  }

  lemma ConfirmedRun(stop: StopPoint) returns (actions: seq<Action>)
    ensures Run(stop, actions) == Confirmed(stop)
  {
    actions := OpenedRun(stop);
    Extend(stop, actions, GO);
    Extend(stop, actions + [GO], GO);
    actions := actions + [GO] + [GO];
  }

  lemma WrittenRun(stop: StopPoint) returns (actions: seq<Action>)
    ensures Run(stop, actions) == Confirmed(stop).(at := InnerFinally, child := Child(None, false, true))
  {
    actions := ConfirmedRun(stop);
    Extend(stop, actions, GO);
    actions := actions + [GO];
  }

  /** If somebody else continues the helper after the stop was confirmed, it does take a step before it dies. */
  lemma ForeignContinueLetsItStep(stop: StopPoint)
    ensures exists actions :: var s := Run(stop, actions); s.child.result && s.history.stepped
  {
    var written := WrittenRun(stop);
    var again, step := Outside(ForeignContinue), Outside(HelperStep(Some(stop.before), NOTHING));
    Extend(stop, written, again);
    Extend(stop, written + [again], step);
    assert Run(stop, written + [again] + [step]).history.stepped;
  }

  function Killed(stop: StopPoint): State {
    var confirmed := Confirmed(stop);
    confirmed.(at := OuterFinally, world := confirmed.world.(process := Zombie(SIGKILLED), killSent := true),
               child := Child(None, false, true))
  }

  lemma KilledRun(stop: StopPoint) returns (actions: seq<Action>)
    ensures Run(stop, actions) == Killed(stop)
  {
    actions := WrittenRun(stop);
    var kill := Outside(DeliverKill);
    Extend(stop, actions, GO);
    Extend(stop, actions + [GO], kill);
    actions := actions + [GO] + [kill];
  }

  lemma LeftRun(stop: StopPoint) returns (actions: seq<Action>)
    ensures Run(stop, actions) ==
            Killed(stop).(at := AfterSelection, child := Child(Some(SIGKILLED), false, true),
                         world := Killed(stop).world.(process := Gone(Own, SIGKILLED)))
  {
    actions := KilledRun(stop);
    Extend(stop, actions, GO);
    Extend(stop, actions + [GO], GO);
    actions := actions + [GO] + [GO];
  }

  /** The protocol can succeed. */
  lemma SomeRunReturns(stop: StopPoint)
    ensures exists actions :: Run(stop, actions).at == Returned
  {
    var left := LeftRun(stop);
    Extend(stop, left, GO);
    Extend(stop, left + [GO], GO);
    assert Run(stop, left + [GO] + [GO]).at == Returned;
  }
}
