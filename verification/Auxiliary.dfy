/** scripts/live-gates/a19_interrupt_auxiliary_io.py and a19_interrupt_auxiliary.py: helper commands run in process
    groups of their own, and the media tree that is removed only when every such group is gone. Every call below may
    let the processes move first, and may be cut short by an interrupt. */
module Auxiliary {
  import opened Results

  // ---------- process groups, as the kernel has them ----------

  datatype Leader = Alive | Exited(code: int) | Reaped(code: int)

  /** `others` counts the processes of the group besides its leader, zombies included. */
  datatype Group = Group(leader: Leader, others: nat)

  type Groups = map<nat, Group>

  predicate Vacant(g: Group) { g.leader.Reaped? && g.others == 0 }

  predicate AllVacant(groups: Groups) { forall pid :: pid in groups ==> Vacant(groups[pid]) }

  datatype Move = Fork(pid: nat) | LeaderExits(pid: nat, code: int) | OtherGone(pid: nat) | LostReap(pid: nat)

  /** What a process of one group may do. `LostReap`: the leader is reaped and our `Popen` does not learn it. */
  function After(g: Group, m: Move): Group {
    match m
    case Fork(_) => if g.leader == Alive || g.others > 0 then g.(others := g.others + 1) else g
    case LeaderExits(_, code) => if g.leader == Alive then g.(leader := Exited(code)) else g
    case OtherGone(_) => if g.others > 0 then g.(others := g.others - 1) else g
    case LostReap(_) => if g.leader.Exited? then g.(leader := Reaped(g.leader.code)) else g
  }

  function Drift(groups: Groups, moves: seq<Move>): Groups
    decreases |moves|
  {
    if moves == [] then groups
    else
      var m := moves[0];
      Drift(if m.pid in groups then groups[m.pid := After(groups[m.pid], m)] else groups, moves[1..])
  }

  /** The groups at a later time: what was vacant or reaped still is. */
  predicate Later(was: Groups, now: Groups) {
    && now.Keys == was.Keys
    && (forall pid :: pid in was && Vacant(was[pid]) ==> Vacant(now[pid]))
    && (forall pid :: pid in was && was[pid].leader.Reaped? ==> now[pid].leader == was[pid].leader)
  }

  /** A group somebody still occupies can do anything, but no move brings a vacant one back; and a leader that was not
      reaped is reaped by a `LostReap` only. */
  lemma {:induction false} DriftKeeps(groups: Groups, moves: seq<Move>)
    ensures Later(groups, Drift(groups, moves))
    ensures forall pid :: pid in groups && !groups[pid].leader.Reaped? && LostReap(pid) !in moves ==>
              !Drift(groups, moves)[pid].leader.Reaped?
    decreases |moves|
  {
    if moves != [] {
      var m := moves[0];
      var next := if m.pid in groups then groups[m.pid := After(groups[m.pid], m)] else groups;
      DriftKeeps(next, moves[1..]);
      forall pid | pid in groups && !groups[pid].leader.Reaped? && LostReap(pid) !in moves
        ensures !Drift(groups, moves)[pid].leader.Reaped?
      {
        assert LostReap(pid) != m;
        assert LostReap(pid) !in moves[1..];
        assert !next[pid].leader.Reaped?;
      }
    }
  }

  /** Once all groups are vacant they stay so, whatever any process does later. */
  lemma VacancyIsFinal(groups: Groups)
    requires AllVacant(groups)
    ensures forall moves :: AllVacant(Drift(groups, moves))
  {
    forall moves ensures AllVacant(Drift(groups, moves)) {
      DriftKeeps(groups, moves);
    }
  }

  predicate IsVacant(groups: Groups, pid: nat) { pid in groups && Vacant(groups[pid]) }

  /** Any group can become vacant: its others go, its leader exits and is reaped. */
  lemma {:induction false} VacancyIsReachable(groups: Groups, pid: nat)
    requires pid in groups
    ensures exists moves :: IsVacant(Drift(groups, moves), pid)
    decreases groups[pid].others, if groups[pid].leader.Alive? then 2 else if groups[pid].leader.Exited? then 1 else 0
  {
    var g := groups[pid];
    if Vacant(g) {
      assert IsVacant(Drift(groups, []), pid);
    } else {
      var m := if g.others > 0 then OtherGone(pid) else if g.leader.Alive? then LeaderExits(pid, 0) else LostReap(pid);
      var next := groups[pid := After(g, m)];
      VacancyIsReachable(next, pid);
      var moves :| IsVacant(Drift(next, moves), pid);
      assert ([m] + moves)[1..] == moves;
      assert Drift(groups, [m] + moves) == Drift(next, moves);
    }
  }

  lemma OneMore(was: Groups, now: Groups, pid: nat)
    requires now.Keys == was.Keys + {pid} && pid !in was
    ensures |now| == |was| + 1
  {
    assert |now| == |now.Keys| && |was| == |was.Keys|;
  }

  datatype Sig = SIGCONT | SIGTERM | SIGKILL

  /** What an uncooperative group is sent, in this order. */
  function Escalation(pid: nat): seq<(nat, Sig)> { [(pid, SIGCONT), (pid, SIGTERM), (pid, SIGKILL)] }

  datatype Answer = Sent | NoSuchGroup | NotPermitted | Interrupted

  class Kernel {
    var groups: Groups
    var next: nat
    /** Groups whose leader was reaped without our `Popen` learning it. */
    ghost var lost: set<nat>
    ghost var signals: seq<(nat, Sig)>
    /** The answers to all probes and signals, in order. */
    ghost var answers: seq<Answer>

    ghost predicate Valid()
      reads this
    {
      forall pid :: pid in groups ==> pid < next
    }

    /** No signal may go to a group whose leader our `Popen` reaped: its number may belong to somebody else. */
    ghost predicate MayBeSignalled(pid: nat)
      reads this
    {
      pid in groups && (!groups[pid].leader.Reaped? || pid in lost)
    }

    constructor ()
      ensures Valid() && groups == map[] && lost == {} && signals == [] && answers == []
    {
      groups, next, lost, signals, answers := map[], 0, {}, [], [];
    }

    /** Time passes. */
    method Elapse()
      requires Valid()
      modifies this
      ensures Valid() && Later(old(groups), groups) && old(lost) <= lost && signals == old(signals)
      ensures answers == old(answers)
      ensures forall pid :: old(MayBeSignalled(pid)) ==> MayBeSignalled(pid)
    {
      var moves: seq<Move> := *;
      DriftKeeps(groups, moves);
      groups := Drift(groups, moves);
      lost := lost + (set m | m in moves && m.LostReap? :: m.pid);
      assert forall pid :: LostReap(pid) in moves ==> pid in lost;
    }

    /** `os.killpg(pid, 0)`: the only proof that a group is gone. A vacant group's number may be in use again. */
    method Probe(pid: nat) returns (answer: Answer)
      requires Valid() && pid in groups
      modifies this
      ensures Valid() && Later(old(groups), groups) && old(lost) <= lost && signals == old(signals)
      ensures forall p :: old(MayBeSignalled(p)) ==> MayBeSignalled(p)
      ensures answer == NoSuchGroup ==> Vacant(groups[pid])
      ensures answers == old(answers) + [answer]
    {
      Elapse();
      answer := *;
      if answer == NoSuchGroup && !Vacant(groups[pid]) {
        answer := Sent;
      }
      answers := answers + [answer];
    }

    /** `os.killpg` with a real signal; what the signal does is up to later moves. */
    method Signal(pid: nat, sig: Sig) returns (answer: Answer)
      requires Valid() && MayBeSignalled(pid)
      modifies this
      ensures Valid() && Later(old(groups), groups) && old(lost) <= lost && signals == old(signals) + [(pid, sig)]
      ensures answers == old(answers) + [answer]
      ensures forall p :: old(MayBeSignalled(p)) ==> MayBeSignalled(p)
    {
      Elapse();
      signals := signals + [(pid, sig)];
      answer := *;
      answers := answers + [answer];
    }
  }

  // ---------- one child ----------

  datatype Waited = Ended | TimedOut | WaitInterrupted

  class Child {
    const pid: nat
    const kernel: Kernel
    var returncode: Option<int>

    ghost predicate Valid()
      reads this, kernel
    {
      && kernel.Valid() && pid in kernel.groups
      && (returncode.None? ==> kernel.MayBeSignalled(pid))
      && (returncode.Some? ==> ReportedAs(returncode.value))
    }

    /** The exit status of the reaped leader, or 0 if it was reaped elsewhere. */
    ghost predicate ReportedAs(code: int)
      reads this, kernel
      requires pid in kernel.groups
    {
      && kernel.groups[pid].leader.Reaped?
      && (code == kernel.groups[pid].leader.code || (code == 0 && pid in kernel.lost))
    }

    /** Forks the leader of a new group. */
    constructor (kernel: Kernel)
      requires kernel.Valid()
      modifies kernel
      ensures this.kernel == kernel && Valid() && returncode == None
      ensures pid !in old(kernel.groups) && kernel.groups == old(kernel.groups)[pid := Group(Alive, 0)]
      ensures kernel.lost == old(kernel.lost) && kernel.signals == old(kernel.signals)
    {
      this.kernel, pid, returncode := kernel, kernel.next, None;
      new;
      kernel.groups := kernel.groups[pid := Group(Alive, 0)];
      kernel.next := kernel.next + 1;
    }

    /** `Popen.wait`: a leader reaped elsewhere counts as exit status 0. */
    method Wait() returns (w: Waited)
      requires Valid() && returncode.None?
      modifies this, kernel
      ensures Valid() && Later(old(kernel.groups), kernel.groups) && old(kernel.lost) <= kernel.lost
      ensures kernel.signals == old(kernel.signals) && kernel.answers == old(kernel.answers)
      ensures w == Ended <==> returncode.Some?
    {
      kernel.Elapse();
      var interrupted: bool := *;
      if interrupted {
        return WaitInterrupted;
      }
      match kernel.groups[pid].leader {
        case Alive => return TimedOut;
        case Exited(code) =>
          kernel.groups := kernel.groups[pid := kernel.groups[pid].(leader := Reaped(code))];
          returncode := Some(code);
          return Ended;
        case Reaped(_) =>
          returncode := Some(0);
          return Ended;
      }
    }
  }

  // ---------- stop_group ----------

  /** What is asked again and again, until some answer ends it. */
  predicate Polled(answers: seq<Answer>) { forall i :: 0 <= i < |answers| - 1 ==> answers[i] == Sent }

  function Ending(answers: seq<Answer>): Answer { if answers == [] then Sent else answers[|answers| - 1] }

  lemma PolledMore(answers: seq<Answer>, answer: Answer)
    requires forall i :: 0 <= i < |answers| ==> answers[i] == Sent
    ensures Polled(answers + [answer]) && Ending(answers + [answer]) == answer
  {
  }

  /** The second of grace after SIGTERM; false when an exception leaves. It ends early at the first answer but `Sent`,
      and only an interrupt leaves. */
  method PollAfterTerm(child: Child) returns (unbroken: bool, ghost asked: seq<Answer>)
    requires child.Valid()
    modifies child.kernel
    ensures child.Valid() && Later(old(child.kernel.groups), child.kernel.groups)
    ensures child.kernel.signals == old(child.kernel.signals) && old(child.kernel.lost) <= child.kernel.lost
    ensures child.kernel.answers == old(child.kernel.answers) + asked && Polled(asked)
    ensures unbroken <==> Ending(asked) != Interrupted
  {
    var polls: nat := *;
    asked := [];
    while polls > 0
      invariant child.Valid() && Later(old(child.kernel.groups), child.kernel.groups)
      invariant child.kernel.signals == old(child.kernel.signals) && old(child.kernel.lost) <= child.kernel.lost
      invariant child.kernel.answers == old(child.kernel.answers) + asked
      invariant forall i :: 0 <= i < |asked| ==> asked[i] == Sent
    {
      var answer := child.kernel.Probe(child.pid);
      PolledMore(asked, answer);
      asked := asked + [answer];
      if answer == Interrupted {
        return false, asked;
      }
      if answer == NoSuchGroup || answer == NotPermitted {
        return true, asked;
      }
      polls := polls - 1;
    }
    return true, asked;
  }

  /** The two seconds after the leader was reaped: the first answer but `Sent` decides, and none is no proof. */
  method ProveAbsent(child: Child) returns (proved: bool, ghost asked: seq<Answer>)
    requires child.Valid()
    modifies child.kernel
    ensures child.Valid() && Later(old(child.kernel.groups), child.kernel.groups)
    ensures child.kernel.signals == old(child.kernel.signals) && old(child.kernel.lost) <= child.kernel.lost
    ensures child.kernel.answers == old(child.kernel.answers) + asked && Polled(asked)
    ensures proved <==> Ending(asked) == NoSuchGroup
    ensures proved ==> Vacant(child.kernel.groups[child.pid])
  {
    var polls: nat := *;
    asked := [];
    while polls > 0
      invariant child.Valid() && Later(old(child.kernel.groups), child.kernel.groups)
      invariant child.kernel.signals == old(child.kernel.signals) && old(child.kernel.lost) <= child.kernel.lost
      invariant child.kernel.answers == old(child.kernel.answers) + asked
      invariant forall i :: 0 <= i < |asked| ==> asked[i] == Sent
    {
      var answer := child.kernel.Probe(child.pid);
      PolledMore(asked, answer);
      asked := asked + [answer];
      if answer == NoSuchGroup {
        return true, asked;
      }
      if answer != Sent {
        return false, asked;
      }
      polls := polls - 1;
    }
    return false, asked;
  }

  /** The first two signals; false when an exception leaves. */
  method Terminate(child: Child) returns (unbroken: bool, ghost asked: seq<Answer>)
    requires child.Valid() && child.returncode.None?
    modifies child.kernel
    ensures child.Valid() && Later(old(child.kernel.groups), child.kernel.groups)
    ensures old(child.kernel.lost) <= child.kernel.lost
    ensures unbroken ==>
              child.kernel.signals == old(child.kernel.signals) + [(child.pid, SIGCONT)] + [(child.pid, SIGTERM)]
    ensures child.kernel.answers == old(child.kernel.answers) + asked
    ensures unbroken <==> Interrupted !in asked
  {
    var continued := child.kernel.Signal(child.pid, SIGCONT);
    if continued == Interrupted {
      return false, [continued];
    }
    var terminated := child.kernel.Signal(child.pid, SIGTERM);
    return terminated != Interrupted, [continued] + [terminated];
  }

  /** The three signals and the grace period between the last two; false when an exception leaves. */
  method Escalate(child: Child) returns (unbroken: bool, ghost asked: seq<Answer>)
    requires child.Valid() && child.returncode.None?
    modifies child.kernel
    ensures child.Valid() && Later(old(child.kernel.groups), child.kernel.groups)
    ensures old(child.kernel.lost) <= child.kernel.lost
    ensures unbroken ==> child.kernel.signals == old(child.kernel.signals) + Escalation(child.pid)
    ensures child.kernel.answers == old(child.kernel.answers) + asked
    ensures unbroken <==> Interrupted !in asked
  {
    unbroken, asked := Terminate(child);
    if !unbroken {
      return false, asked;
    }
    ghost var polled;
    unbroken, polled := PollAfterTerm(child);
    InterruptedLast(polled);
    asked := asked + polled;
    if !unbroken {
      return false, asked;
    }
    var killed := child.kernel.Signal(child.pid, SIGKILL);
    asked := asked + [killed];
    return killed != Interrupted, asked;
  }

  lemma InterruptedLast(polled: seq<Answer>)
    requires Polled(polled)
    ensures Interrupted in polled <==> Ending(polled) == Interrupted
  {
  }

  ghost function Last(kernel: Kernel): Answer
    reads kernel
  {
    Ending(kernel.answers)
  }

  /** Returns true for a normal return, false when an exception leaves. A leader reaped before is asked for once. */
  method StopGroup(child: Child) returns (proved: bool)
    requires child.Valid()
    modifies child, child.kernel
    ensures child.Valid() && Later(old(child.kernel.groups), child.kernel.groups)
    ensures proved ==> Vacant(child.kernel.groups[child.pid]) && child.returncode.Some?
    ensures old(child.returncode).Some? ==> child.returncode == old(child.returncode)
    ensures old(child.kernel.lost) <= child.kernel.lost
    ensures old(child.returncode).Some? ==>
              child.kernel.answers == old(child.kernel.answers) + [Last(child.kernel)]
              && (proved <==> Last(child.kernel) == NoSuchGroup)
    ensures proved ==> child.kernel.signals == old(child.kernel.signals) +
                         (if old(child.returncode).None? then Escalation(child.pid) else [])
  {
    if child.returncode.Some? {
      var answer := child.kernel.Probe(child.pid);
      return answer == NoSuchGroup;
    }
    ghost var asked;
    var unbroken: bool;
    unbroken, asked := Escalate(child);
    if !unbroken {
      return false;
    }
    var waited := child.Wait();
    if waited != Ended {
      return false;
    }
    proved, asked := ProveAbsent(child);
  }

  // ---------- Commands ----------

  datatype Launch = NotForked | ForkedAndLost | Launched

  class Commands {
    const kernel: Kernel
    var cleanupVerified: bool
    /** An interrupt landed between entering the cleanup of `run` and the statement that guards it. */
    ghost var slipped: bool

    ghost predicate Valid()
      reads this, kernel
    {
      kernel.Valid() && (cleanupVerified && !slipped ==> AllVacant(kernel.groups))
    }

    constructor ()
      ensures Valid() && fresh(kernel) && cleanupVerified && !slipped && kernel.groups == map[]
    {
      kernel := new Kernel();
      cleanupVerified, slipped := true, false;
    }

    /** `Commands.run`; true for a normal return. Success means that the helper ended by itself with exit status 0, or
        was reaped elsewhere, and that its group is gone, and leaves the flag as it was; no path sets the flag again. */
    method Run() returns (ok: bool)
      requires Valid()
      modifies this, kernel
      ensures Valid() && old(kernel.groups.Keys) <= kernel.groups.Keys
      ensures cleanupVerified ==> old(cleanupVerified)
      ensures old(slipped) ==> slipped
      ensures ok ==> cleanupVerified == old(cleanupVerified) && slipped == old(slipped)
      ensures ok ==> kernel.signals == old(kernel.signals)
      ensures ok ==> exists pid :: pid in kernel.groups && pid !in old(kernel.groups) && Vacant(kernel.groups[pid])
                                   && (kernel.groups[pid].leader == Reaped(0) || pid in kernel.lost)
      ensures ok ==> |kernel.groups| == |old(kernel.groups)| + 1
    {
      var exhausted: bool, cannotOpen: bool := *, *;
      if exhausted || cannotOpen {
        return false;
      }
      var launch: Launch := *;
      if launch != Launched {
        if launch == ForkedAndLost {
          var orphan := new Child(kernel);
        }
        var slip: bool := *;
        ok := CleanUp(None, kernel.groups, slip);
        return false;
      }
      ghost var before := kernel.groups;
      var child := new Child(kernel);
      var waited := child.Wait();
      var slip: bool := *;
      var stopped := CleanUp(Some(child), before, slip);
      if stopped && waited == Ended && child.returncode == Some(0) {
        ok := *;  // closing and reading back the outputs may still raise
        assert child.pid in kernel.groups && child.pid !in old(kernel.groups);
        OneMore(old(kernel.groups), kernel.groups, child.pid);
        return ok;
      }
      return false;
    }

    /** The `finally` of `run`: true when it is left normally. `slip`: an interrupt lands before its first statement. */
    method CleanUp(child: Option<Child>, ghost before: Groups, slip: bool) returns (proved: bool)
      requires kernel.Valid() && before.Keys <= kernel.groups.Keys
      requires child.Some? ==> child.value.kernel == kernel && child.value.Valid()
      requires child.Some? ==> kernel.groups.Keys == before.Keys + {child.value.pid}
      requires cleanupVerified && !slipped && child.Some? ==>
                 forall p :: p in before ==> Vacant(kernel.groups[p])
      modifies this, kernel, (if child.Some? then {child.value} else {})
      ensures Valid() && kernel.groups.Keys == old(kernel.groups.Keys)
      ensures cleanupVerified ==> old(cleanupVerified)
      ensures old(slipped) ==> slipped
      ensures child.Some? ==> child.value.Valid()
      ensures slip ==> slipped && cleanupVerified == old(cleanupVerified) && kernel.groups == old(kernel.groups)
      ensures child.None? && !slip ==> proved && !cleanupVerified
      ensures proved && child.Some? ==>
                && cleanupVerified == old(cleanupVerified) && slipped == old(slipped)
                && Vacant(kernel.groups[child.value.pid])
      ensures proved && child.Some? && old(child.value.returncode).Some? ==>
                child.value.returncode == old(child.value.returncode) && kernel.signals == old(kernel.signals)
    {
      if slip {
        slipped := true;
        return false;
      }
      match child {
        case None =>
          cleanupVerified := false;
          return true;
        case Some(c) =>
          proved := StopGroup(c);
          if !proved {
            var again: bool := *;
            if again {
              slipped := true;
            } else {
              cleanupVerified := false;
            }
          }
      }
    }
  }

  // ---------- run ----------

  /** The tree of cloned media: whole, whole with the marker `cleanup-unproven`, cut off in its removal, or gone. */
  datatype Tree = Kept | Fenced | PartlyRemoved | Removed {
    predicate Touched() { PartlyRemoved? || Removed? }
  }

  /** How far the last statement gets: not even begun, broken off, or done. */
  datatype Reach = NotBegun | BrokenOff | Done

  /** The `finally` of `run`: the tree is touched only when no process of any group is left, now or later; a marker that
      is broken off leaves the tree whole. */
  method Decide(commands: Commands, reach: Reach) returns (tree: Tree)
    requires commands.Valid()
    ensures tree.Touched() ==> commands.cleanupVerified && reach != NotBegun
    ensures tree.Touched() && !commands.slipped ==> forall moves :: AllVacant(Drift(commands.kernel.groups, moves))
    ensures tree == Fenced <==> reach == Done && !commands.cleanupVerified
    ensures tree == Removed <==> reach == Done && commands.cleanupVerified
  {
    if reach == NotBegun {
      return Kept;
    }
    if !commands.cleanupVerified {
      return if reach == Done then Fenced else Kept;
    }
    if !commands.slipped {
      VacancyIsFinal(commands.kernel.groups);
    }
    return if reach == Done then Removed else PartlyRemoved;
  }

  /** The reservation is needed: an interrupt right after the first helper was started, in that one place, leaves the
      flag set with the helper alive, and the media under it are removed. */
  method SlippedInterrupt() returns (commands: Commands, tree: Tree)
    ensures fresh(commands) && tree == Removed && !AllVacant(commands.kernel.groups)
  {
    commands := new Commands();
    ghost var before := commands.kernel.groups;
    var child := new Child(commands.kernel);
    var proved := commands.CleanUp(Some(child), before, true);
    assert commands.kernel.groups[child.pid] == Group(Alive, 0);
    tree := Decide(commands, Done);
  }

  const SWAP_COMMANDS := 2 + 7
  const CREATE_COMMANDS := 2 + 6

  /** What the checks of a case find: those behind its commands, and the one of the sources at its end. */
  datatype Checks = Checks(behind: nat -> bool, sources: bool) {
    ghost predicate Pass(count: nat) { sources && forall i :: 0 <= i < count ==> behind(i) }
  }

  /** One case: clones and helper commands in order, each followed by its checks. It ends well only after all of
      them. */
  method RunCase(commands: Commands, count: nat, checks: Checks) returns (ok: bool)
    requires commands.Valid()
    modifies commands, commands.kernel
    ensures commands.Valid() && (commands.cleanupVerified ==> old(commands.cleanupVerified))
    ensures old(commands.slipped) ==> commands.slipped
    ensures ok ==> commands.cleanupVerified == old(commands.cleanupVerified)
    ensures ok ==> commands.slipped == old(commands.slipped)
    ensures ok ==> checks.Pass(count) && |commands.kernel.groups| == |old(commands.kernel.groups)| + count
  {
    for i := 0 to count
      invariant |commands.kernel.groups| == |old(commands.kernel.groups)| + i
      invariant forall k :: 0 <= k < i ==> checks.behind(k)
      invariant commands.Valid() && (old(commands.slipped) ==> commands.slipped)
      invariant commands.cleanupVerified == old(commands.cleanupVerified) && commands.slipped == old(commands.slipped)
    {
      var done := commands.Run();
      if !done || !checks.behind(i) {
        return false;
      }
    }
    return checks.sources;
  }

  /** `run`, from the creation of the work tree on: unless an interrupt slipped by, not one file of the tree goes away
      while a process of any group is left; a case that fails with every group proved gone still lets it be removed.
      `originals`: the inputs are found unchanged once more. */
  method Run(swap: Checks, create: Checks, originals: bool) returns (ok: bool, tree: Tree, commands: Commands)
    ensures fresh(commands) && commands.Valid()
    ensures tree.Touched() ==> commands.cleanupVerified
    ensures tree.Touched() && !commands.slipped ==> forall moves :: AllVacant(Drift(commands.kernel.groups, moves))
    ensures tree == Fenced ==> !commands.cleanupVerified
    ensures ok ==> tree == Removed && !commands.slipped && swap.Pass(9) && create.Pass(8) && originals
    ensures ok ==> |commands.kernel.groups| == 17
  {
    commands := new Commands();
    ok := RunCase(commands, SWAP_COMMANDS, swap);
    if ok {
      ok := RunCase(commands, CREATE_COMMANDS, create);
    }
    ok := ok && originals;
    var reach: Reach := *;
    tree := Decide(commands, reach);
    ok := ok && reach == Done;
  }
}
