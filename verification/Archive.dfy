/** scripts/archive-experiment.py: applying a reviewed plan under the worker lock, with a synced journal. The run may be
    cut off after any step, and other programs may change the file system between any two. */
module Archive {
  import opened Results
  import opened Retention
  import opened RetentionPlan

  // ---------- plan, as it loops ----------

  lemma {:induction false} FailedRowStays(fs: Fs, rows: seq<Row>, n: nat)
    requires n <= |rows| && AddRows(fs, rows[..n]).None?
    ensures AddRows(fs, rows).None?
  {
    if n < |rows| {
      assert rows[..|rows| - 1][..n] == rows[..n];
      FailedRowStays(fs, rows[..|rows| - 1], n);
    } else {
      assert rows[..n] == rows;
    }
  }

  lemma {:induction false} FailedJobStays(fs: Fs, campaign: nat, sha: Content -> Digest, jobs: seq<nat>, n: nat)
    requires n <= |jobs| && AddJobs(fs, campaign, sha, jobs[..n]).None?
    ensures AddJobs(fs, campaign, sha, jobs).None?
  {
    if n < |jobs| {
      assert jobs[..|jobs| - 1][..n] == jobs[..n];
      FailedJobStays(fs, campaign, sha, jobs[..|jobs| - 1], n);
    } else {
      assert jobs[..n] == jobs;
    }
  }

  /** `check_run`. */
  method CheckRun(fs: Fs, sha: Content -> Digest, r: Receipt, job: nat) returns (checked: Option<map<InputName, Input>>)
    ensures checked == CheckedInputs(fs, sha, r, job)
  {
    if !r.sound || r.job != job || !RecordsAgree(fs, sha, r, job) {
      return None;
    }
    var rows := RowsOf(InodeOf(fs, InJob(job, InputManifest)).content);
    var inputs: map<InputName, Input> := map[];
    for i := 0 to |rows|
      invariant AddRows(fs, rows[..i]) == Some(inputs)
    {
      assert rows[..i + 1][..i] == rows[..i];
      var more := AddRow(fs, inputs, rows[i]);
      if more.None? {
        FailedRowStays(fs, rows, i + 1);
        return None;
      }
      inputs := more.value;
    }
    assert rows[..|rows|] == rows;
    return if Identified(r, inputs) then Some(inputs) else None;
  }

  /** One turn of the loop of `plan` for a job of the campaign. */
  method AddOwn(fs: Fs, sha: Content -> Digest, job: nat, r: Receipt) returns (part: Option<Part>)
    requires Regular(fs, InJob(job, ReceiptJson))
    ensures part == PartOf(fs, sha, job, r)
  {
    var inputs := CheckRun(fs, sha, r, job);
    if inputs.None? || !(1 <= r.ordinal <= RUNS && r.expectedRuns == RUNS) {
      return None;
    }
    var disk := DiskOf(fs, job, r.ordinal, inputs.value[Image].ino);
    if disk.None? || !Walkable(fs, job) {
      return None;
    }
    var receiptSha := sha(InodeOf(fs, InJob(job, ReceiptJson)).content);
    return Some(Assemble(job, r.ordinal, receiptSha, inputs.value, disk.value, Preserved(fs, sha, job)));
  }

  /** One turn of the loop of `plan`. */
  method AddOne(fs: Fs, campaign: nat, sha: Content -> Digest, plan: Plan, job: nat) returns (next: Option<Plan>)
    ensures next == AddJob(fs, campaign, sha, plan, job)
  {
    match Member(fs, campaign, job) {
      case NotOurs => return Some(plan);
      case Unreadable => return None;
      case Ours(receipt) =>
        var part := AddOwn(fs, sha, job, receipt);
        return if part.None? then None else Some(Append(plan, part.value));
    }
  }

  /** `plan`: the one plan the file system holds, if it holds one. */
  method MakePlan(fs: Fs, campaign: nat, sha: Content -> Digest) returns (r: Option<Plan>)
    ensures r == PlanOf(fs, campaign, sha)
    ensures Wf(fs) && r.Some? ==> PlanMeans(fs, campaign, sha, r.value)
    ensures Wf(fs) ==> forall plan :: PlanMeans(fs, campaign, sha, plan) ==> r == Some(plan)
  {
    r := PlanJobs(fs, campaign, sha);
    if Wf(fs) {
      PlanExactly(fs, campaign, sha);
    }
  }

  lemma AddJobsStep(fs: Fs, campaign: nat, sha: Content -> Digest, jobs: seq<nat>, i: nat, plan: Plan)
    requires i < |jobs| && AddJobs(fs, campaign, sha, jobs[..i]) == Some(plan)
    ensures AddJobs(fs, campaign, sha, jobs[..i + 1]) == AddJob(fs, campaign, sha, plan, jobs[i])
  {
    assert jobs[..i + 1][..i] == jobs[..i];
  }

  /** Its loop over the jobs, and the checks behind it. */
  method PlanJobs(fs: Fs, campaign: nat, sha: Content -> Digest) returns (r: Option<Plan>)
    ensures r == PlanOf(fs, campaign, sha)
  {
    var plan := Plan([], [], map[]);
    for i := 0 to |fs.jobs|
      invariant AddJobs(fs, campaign, sha, fs.jobs[..i]) == Some(plan)
    {
      AddJobsStep(fs, campaign, sha, fs.jobs, i, plan);
      var next := AddOne(fs, campaign, sha, plan, fs.jobs[i]);
      if next.None? {
        FailedJobStays(fs, campaign, sha, fs.jobs, i + 1);
        return None;
      }
      plan := next.value;
    }
    assert fs.jobs[..|fs.jobs|] == fs.jobs;
    return if Acceptable(fs, plan) then Some(plan) else None;
  }

  // ---------- apply_plan ----------

  datatype Event = Start | Intent(target: Target) | Deleted(path: Path) | Complete(deleted: nat, preserved: nat)

  /** The journal of a run that is not cut off. */
  function Script(plan: Plan): seq<Event> {
    Begun(plan.targets) + [Complete(|plan.targets|, |plan.preserved|)]
  }

  function Begun(targets: seq<Target>): (s: seq<Event>)
    ensures |s| == 2 * |targets| + 1
  {
    if targets == [] then [Start]
    else
      var last := targets[|targets| - 1];
      Begun(targets[..|targets| - 1]) + [Intent(last), Deleted(last.path)]
  }

  lemma {:induction false} BegunGrows(targets: seq<Target>, k: nat)
    requires k < |targets|
    ensures Begun(targets[..k]) + [Intent(targets[k]), Deleted(targets[k].path)] <= Begun(targets)
  {
    if k == |targets| - 1 {
      assert Begun(targets) == Begun(targets[..k]) + [Intent(targets[k]), Deleted(targets[k].path)];
    } else {
      var before := targets[..|targets| - 1];
      assert before[..k] == targets[..k];
      BegunGrows(before, k);
    }
  }

  /** The journal names each target before it goes: `k` targets are gone, and the journal tells which but for the
      last. */
  predicate Accounted(journal: seq<Event>, plan: Plan, k: nat) {
    k <= |plan.targets| && journal <= Script(plan) && (k > 0 ==> 2 * k <= |journal|) && |journal| <= 2 * k + 2
  }

  /** Every removed target is named by a durable intent, and no other removal is recorded as done. */
  lemma {:induction false} IntentsComeFirst(journal: seq<Event>, plan: Plan, k: nat, i: nat)
    requires Accounted(journal, plan, k) && i < |plan.targets|
    ensures i < k ==> Intent(plan.targets[i]) in journal
    ensures 2 * i + 2 < |journal| && journal[2 * i + 2] == Deleted(plan.targets[i].path) ==> i < k
  {
    BegunGrows(plan.targets, i);
    if i < k {
      assert journal[2 * i + 1] == Script(plan)[2 * i + 1] == Intent(plan.targets[i]);
    }
  }

  /** `Denied`: an answer from outside, such as a held lock, a busy queue or a call that raises; `Changed`: something
      was found altered; `Cut`: a crash. */
  datatype Outcome = Completed(deleted: nat, preserved: nat) | Denied | Stale | Changed | Cut

  predicate Intact(fs: Fs, sha: Content -> Digest, preserved: map<Path, Digest>) {
    forall p :: p in preserved ==> Regular(fs, p) && sha(InodeOf(fs, p).content) == preserved[p]
  }

  /** Each target was still the file that was planned, with no other name, when its turn came. */
  predicate FoundAsPlanned(found: seq<Option<Target>>, plan: Plan, k: nat) {
    k <= |found| && k <= |plan.targets| && forall i :: 0 <= i < k ==> found[i] == Some(plan.targets[i])
  }

  /** What a run leaves behind: the durable journal, the paths removed, and what was found before each. */
  datatype Records = Records(journal: seq<Event>, unlinked: seq<Path>, found: seq<Option<Target>>)

  predicate Account(r: Records, plan: Plan, k: nat) {
    && Accounted(r.journal, plan, k) && r.unlinked == Paths(plan.targets)[..k] && FoundAsPlanned(r.found, plan, k)
  }

  /** Between two targets. */
  predicate Level(r: Records, plan: Plan, k: nat) {
    k <= |plan.targets| && Account(r, plan, k) && r.journal == Begun(plan.targets[..k]) && |r.found| == k
  }

  lemma AccountOfIntent(r: Records, plan: Plan, k: nat)
    requires k < |plan.targets| && Level(r, plan, k)
    ensures var t := plan.targets[k];
            Account(Records(r.journal + [Intent(t)], r.unlinked, r.found + [Some(t)]), plan, k)
  {
    ScriptGrows(plan, k);
  }

  lemma AccountOfRemoval(r: Records, plan: Plan, k: nat)
    requires k < |plan.targets| && Level(r, plan, k)
    ensures var t := plan.targets[k];
            Account(Records(r.journal + [Intent(t)], r.unlinked + [t.path], r.found + [Some(t)]), plan, k + 1)
  {
    ScriptGrows(plan, k);
    PathsGrow(plan.targets, k);
  }

  lemma AccountOfRecord(r: Records, plan: Plan, k: nat)
    requires k < |plan.targets| && Level(r, plan, k)
    ensures var t := plan.targets[k];
            Level(Records(r.journal + [Intent(t)] + [Deleted(t.path)], r.unlinked + [t.path], r.found + [Some(t)]),
                  plan, k + 1)
  {
    ScriptGrows(plan, k);
    PathsGrow(plan.targets, k);
  }

  lemma PathsGrow(targets: seq<Target>, k: nat)
    requires k < |targets|
    ensures Paths(targets)[..k + 1] == Paths(targets)[..k] + [targets[k].path]
  {
  }

  class Queue {
    const campaign: nat
    const sha: Content -> Digest
    var fs: Fs
    var locked: bool
    var journal: seq<Event>
    ghost var unlinked: seq<Path>
    /** What `metadata` gave for each target when its turn came. */
    ghost var found: seq<Option<Target>>
    /** Another program changed the file system. */
    ghost var disturbed: bool

    constructor (campaign: nat, sha: Content -> Digest, fs: Fs, locked: bool)
      ensures this.campaign == campaign && this.sha == sha && this.fs == fs && this.locked == locked
      ensures journal == [] && unlinked == [] && found == [] && !disturbed
    {
      this.campaign, this.sha, this.fs, this.locked, journal := campaign, sha, fs, locked, [];
      unlinked, found, disturbed := [], [], false;
    }

    method Elsewhere()
      modifies this`fs, this`disturbed
      ensures !disturbed ==> fs == old(fs)
      ensures (old(disturbed) ==> disturbed) && (old(Wf(fs)) ==> Wf(fs))
    {
      var changes: bool, next: Fs := *, *;
      if changes && Wf(next) {
        fs := next;
        disturbed := true;
      }
    }

    /** Appends and syncs one event; otherwise the write raises, or the run is cut off before it. */
    method Log(e: Event) returns (left: Option<Outcome>)
      modifies this`journal, this`fs, this`disturbed
      ensures journal == if left.None? then old(journal) + [e] else old(journal)
      ensures left.Some? ==> left.value.Denied? || left.value.Cut?
      ensures (!disturbed ==> fs == old(fs)) && (old(disturbed) ==> disturbed)
    {
      Elsewhere();
      var durable: bool, cut: bool := *, *;
      if !durable {
        return Some(if cut then Cut else Denied);
      }
      journal := journal + [e];
      return None;
    }

    /** What holds whenever the removal loop is left or cut off, `k` targets in. */
    ghost predicate At(was: Fs, plan: Plan, k: nat)
      reads this
    {
      Account(Records(journal, unlinked, found), plan, k) && (!disturbed ==> fs == Without(was, Gone(plan, k)))
    }

    /** The checks before one removal, and its intent; None when it may go on. */
    method Announce(t: Target) returns (left: Option<Outcome>)
      modifies this`fs, this`disturbed, this`journal, this`found
      ensures (!disturbed ==> fs == old(fs)) && (old(disturbed) ==> disturbed)
      ensures journal == if left.None? then old(journal) + [Intent(t)] else old(journal)
      ensures found == if left.None? then old(found) + [Some(t)] else old(found)
      ensures left.Some? ==> left.value.Denied? || left.value.Changed? || left.value.Cut?
      ensures left == Some(Changed) && !disturbed ==> Metadata(old(fs), t.path) != Some(t)
    {
      Elsewhere();
      var idle: bool := *;
      if !idle {
        return Some(Denied);
      }
      if Metadata(fs, t.path) != Some(t) {
        return Some(Changed);
      }
      ghost var now := Metadata(fs, t.path);
      left := Log(Intent(t));
      if left.None? {
        found := found + [now];
      }
    }

    /** The removal itself, and its record. */
    method Unlink(t: Target) returns (left: Option<Outcome>, ghost removed: bool)
      modifies this`fs, this`disturbed, this`journal, this`unlinked
      ensures (!disturbed && removed ==> fs == Without(old(fs), {t.path})) && (old(disturbed) ==> disturbed)
      ensures !disturbed && !removed ==> fs == old(fs)
      ensures unlinked == if removed then old(unlinked) + [t.path] else old(unlinked)
      ensures journal == if left.None? then old(journal) + [Deleted(t.path)] else old(journal)
      ensures left.None? ==> removed
      ensures left.Some? ==> left.value.Denied? || left.value.Changed? || left.value.Cut?
      ensures left == Some(Changed) && !disturbed ==> t.path !in old(fs).names
    {
      Elsewhere();
      var permitted: bool := *;
      if !permitted {
        return Some(Denied), false;
      }
      if t.path !in fs.names {
        return Some(Changed), false;
      }
      fs := Without(fs, {t.path});
      unlinked := unlinked + [t.path];
      left := Log(Deleted(t.path));
      removed := true;
    }

    /** One turn of the removal loop; None when the loop goes on. */
    method RemoveOne(ghost was: Fs, plan: Plan, k: nat) returns (left: Option<Outcome>, ghost removed: nat)
      requires k < |plan.targets| && At(was, plan, k) && Level(Records(journal, unlinked, found), plan, k)
      requires Metadata(Without(was, Gone(plan, k)), plan.targets[k].path) == Some(plan.targets[k])
      modifies this`fs, this`disturbed, this`journal, this`unlinked, this`found
      ensures k <= removed <= k + 1 && At(was, plan, removed) && (old(disturbed) ==> disturbed)
      ensures left.None? ==> removed == k + 1 && Level(Records(journal, unlinked, found), plan, k + 1)
      ensures left.Some? ==> left.value.Denied? || left.value.Changed? || left.value.Cut?
      ensures left == Some(Changed) ==> disturbed
    {
      var t := plan.targets[k];
      ghost var r := Records(journal, unlinked, found);
      AccountOfIntent(r, plan, k);
      AccountOfRemoval(r, plan, k);
      AccountOfRecord(r, plan, k);
      GoneGrows(was, plan, k);
      left := Announce(t);
      if left.Some? {
        return left, k;
      }
      ghost var gone;
      left, gone := Unlink(t);
      removed := if gone then k + 1 else k;
    }

    /** The removal loop. */
    method RemoveAll(ghost was: Fs, plan: Plan) returns (left: Option<Outcome>, ghost removed: nat)
      requires Wf(was) && Planned(was, campaign, sha, plan)
      requires At(was, plan, 0) && journal == [Start] && found == []
      modifies this`fs, this`disturbed, this`journal, this`unlinked, this`found
      ensures At(was, plan, removed) && (old(disturbed) ==> disturbed)
      ensures left.None? ==> removed == |plan.targets| && journal == Begun(plan.targets)
      ensures left.Some? ==> left.value.Denied? || left.value.Changed? || left.value.Cut?
      ensures left == Some(Changed) ==> disturbed
    {
      removed := 0;
      for k := 0 to |plan.targets|
        invariant At(was, plan, k) && Level(Records(journal, unlinked, found), plan, k)
        invariant removed == k && (old(disturbed) ==> disturbed)
      {
        UndisturbedMetadata(was, campaign, sha, plan, k);
        left, removed := RemoveOne(was, plan, k);
        if left.Some? {
          return;
        }
      }
      assert plan.targets[..|plan.targets|] == plan.targets;
      return None, |plan.targets|;
    }

    /** The checks after the loop. `seen` is the file system they were made on. */
    method Finish(ghost was: Fs, plan: Plan) returns (outcome: Outcome, ghost seen: Fs)
      requires At(was, plan, |plan.targets|) && journal == Begun(plan.targets)
      requires var now := Without(was, Gone(plan, |plan.targets|));
               Intact(now, sha, plan.preserved) && NothingLeft(now, campaign, sha)
      modifies this`fs, this`disturbed, this`journal
      ensures At(was, plan, |plan.targets|) && (old(disturbed) ==> disturbed)
      ensures outcome == Changed ==> disturbed
      ensures outcome != Stale
      ensures outcome.Completed? ==> outcome == Completed(|plan.targets|, |plan.preserved|) && journal == Script(plan)
      ensures outcome.Completed? ==> Intact(seen, sha, plan.preserved) && NothingLeft(seen, campaign, sha)
    {
      Elsewhere();
      seen := fs;
      if !Intact(fs, sha, plan.preserved) {
        return Changed, seen;
      }
      var idle: bool := *;
      if !idle {
        return Denied, seen;
      }
      var final := PlanJobs(fs, campaign, sha);
      if final.None? || final.value.targets != [] {
        return Changed, seen;
      }
      var left := Log(Complete(|plan.targets|, |plan.preserved|));
      if left.Some? {
        return left.value, seen;
      }
      return Completed(|plan.targets|, |plan.preserved|), seen;
    }

    /** `apply_plan`: `was` is the file system the plan was checked against. Whatever happens, and whenever it is cut
        off: only targets of the plan are gone, in order and each after its durable intent; a held lock stops it; and it
        finds something altered only if another program altered it. */
    method ApplyPlan(plan: Plan) returns (outcome: Outcome, ghost was: Fs, ghost removed: nat, ghost seen: Fs)
      requires journal == [] && unlinked == [] && found == [] && Wf(fs)
      modifies this
      ensures unlinked != [] || removed != 0 ==> Planned(was, campaign, sha, plan) && At(was, plan, removed)
      ensures !disturbed ==> was == old(fs) && (unlinked == [] ==> fs == was)
      ensures old(locked) ==> outcome == Denied && unlinked == [] && locked
      ensures !old(locked) ==> (locked <==> outcome == Cut)
      ensures outcome == Stale && !disturbed ==> !Planned(was, campaign, sha, plan)
      ensures outcome == Changed ==> disturbed
      ensures outcome.Completed? ==> Planned(was, campaign, sha, plan) && At(was, plan, |plan.targets|)
      ensures outcome.Completed? ==> outcome == Completed(|plan.targets|, |plan.preserved|) && journal == Script(plan)
      ensures outcome.Completed? ==> Intact(seen, sha, plan.preserved) && NothingLeft(seen, campaign, sha)
      ensures outcome.Completed? ==> EvidenceKept(was, seen, sha, plan.runs)
    {
      removed, was, seen := 0, fs, fs;
      var hashMatches: bool := *;
      if !hashMatches || locked {
        return Denied, was, removed, seen;
      }
      locked := true;
      outcome, was, removed, seen := ApplyLocked(plan);
      if outcome.Completed? {
        IntactKeepsEvidence(was, seen, campaign, sha, plan);
      }
      if outcome != Cut {
        locked := false;
      }
    }

    /** What is done under the lock: the plan is made once more, and must be the reviewed one. */
    method ApplyLocked(plan: Plan) returns (outcome: Outcome, ghost was: Fs, ghost removed: nat, ghost seen: Fs)
      requires journal == [] && unlinked == [] && found == [] && Wf(fs)
      modifies this`fs, this`disturbed, this`journal, this`unlinked, this`found
      ensures Wf(was)
      ensures unlinked != [] || removed != 0 ==> Planned(was, campaign, sha, plan) && At(was, plan, removed)
      ensures !disturbed ==> was == old(fs) && (unlinked == [] ==> fs == was)
      ensures outcome == Stale && !disturbed ==> !Planned(was, campaign, sha, plan)
      ensures outcome == Changed ==> disturbed
      ensures outcome.Completed? ==> Planned(was, campaign, sha, plan) && At(was, plan, |plan.targets|)
      ensures outcome.Completed? ==> outcome == Completed(|plan.targets|, |plan.preserved|) && journal == Script(plan)
      ensures outcome.Completed? ==> Intact(seen, sha, plan.preserved) && NothingLeft(seen, campaign, sha)
    {
      Elsewhere();
      removed, was, seen := 0, fs, fs;
      var idle: bool := *;
      if !idle {
        return Denied, was, removed, seen;
      }
      var current := PlanJobs(fs, campaign, sha);
      if current != Some(plan) {
        return Stale, was, removed, seen;
      }
      var closed: bool, newJournal: bool := *, *;
      if !closed || !newJournal {
        return Denied, was, removed, seen;
      }
      var left := Log(Start);
      if left.Some? {
        return left.value, was, removed, seen;
      }
      AtStart(was, plan);
      outcome, removed, seen := Carry(was, plan);
    }

    /** What follows the first journal record. */
    method Carry(ghost was: Fs, plan: Plan) returns (outcome: Outcome, ghost removed: nat, ghost seen: Fs)
      requires Wf(was) && Planned(was, campaign, sha, plan)
      requires At(was, plan, 0) && journal == [Start] && found == []
      modifies this`fs, this`disturbed, this`journal, this`unlinked, this`found
      ensures At(was, plan, removed) && (old(disturbed) ==> disturbed)
      ensures outcome != Stale && (outcome == Changed ==> disturbed)
      ensures outcome.Completed? ==> removed == |plan.targets|
      ensures outcome.Completed? ==> outcome == Completed(|plan.targets|, |plan.preserved|) && journal == Script(plan)
      ensures outcome.Completed? ==> Intact(seen, sha, plan.preserved) && NothingLeft(seen, campaign, sha)
    {
      var left: Option<Outcome>;
      left, removed := RemoveAll(was, plan);
      if left.Some? {
        return left.value, removed, fs;
      }
      UndisturbedEnd(was, campaign, sha, plan);
      outcome, seen := Finish(was, plan);
    }
  }

  lemma AtStart(was: Fs, plan: Plan)
    ensures Without(was, Gone(plan, 0)) == was && Paths(plan.targets)[..0] == [] && [Start] <= Script(plan)
  {
    assert was.names - Gone(plan, 0) == was.names;
    BegunStarts(plan);
  }

  predicate NothingLeft(fs: Fs, campaign: nat, sha: Content -> Digest) {
    PlanOf(fs, campaign, sha).Some? && PlanOf(fs, campaign, sha).value.targets == []
  }

  lemma ScriptGrows(plan: Plan, k: nat)
    requires k < |plan.targets|
    ensures var t := plan.targets[k];
            && Begun(plan.targets[..k + 1]) == Begun(plan.targets[..k]) + [Intent(t)] + [Deleted(t.path)]
            && Begun(plan.targets[..k]) + [Intent(t)] + [Deleted(t.path)] <= Script(plan)
  {
    BegunGrows(plan.targets, k);
    assert plan.targets[..k + 1][..k] == plan.targets[..k];
  }

  lemma {:induction false} BegunStarts(plan: Plan)
    ensures [Start] <= Script(plan)
  {
    BegunPrefix(plan.targets, 0);
    assert plan.targets[..0] == [];
  }

  lemma {:induction false} BegunPrefix(targets: seq<Target>, k: nat)
    requires k <= |targets|
    ensures Begun(targets[..k]) <= Begun(targets)
  {
    if k == |targets| {
      assert targets[..k] == targets;
    } else {
      BegunGrows(targets, k);
    }
  }

  lemma GoneGrows(was: Fs, plan: Plan, k: nat)
    requires k < |plan.targets|
    ensures Without(Without(was, Gone(plan, k)), {plan.targets[k].path}) == Without(was, Gone(plan, k + 1))
  {
    assert Gone(plan, k + 1) == Gone(plan, k) + {plan.targets[k].path};
    assert was.names - Gone(plan, k) - {plan.targets[k].path} == was.names - Gone(plan, k + 1);
  }

  /** With nobody else about, the next target is found as it was planned. */
  lemma UndisturbedMetadata(was: Fs, campaign: nat, sha: Content -> Digest, plan: Plan, k: nat)
    requires Wf(was) && Planned(was, campaign, sha, plan) && k < |plan.targets|
    ensures Metadata(Without(was, Gone(plan, k)), plan.targets[k].path) == Some(plan.targets[k])
  {
    PlanSelects(was, campaign, sha, plan);
    TargetsSpare(was, campaign, sha, plan, k);
    assert GoodTarget(was, plan.targets[k]);
    MetadataAgain(was, plan.targets[k].path, Gone(plan, k));
  }

  /** With nobody else about, the checks after the loop succeed. */
  lemma UndisturbedEnd(was: Fs, campaign: nat, sha: Content -> Digest, plan: Plan)
    requires Wf(was) && Planned(was, campaign, sha, plan)
    ensures var now := Without(was, Gone(plan, |plan.targets|));
            Intact(now, sha, plan.preserved) && NothingLeft(now, campaign, sha)
  {
    var gone := Gone(plan, |plan.targets|);
    PlanSelects(was, campaign, sha, plan);
    TargetsSpare(was, campaign, sha, plan, |plan.targets|);
    ResumesExactly(was, campaign, sha, plan, |plan.targets|);
    forall p | p in plan.preserved
      ensures Regular(Without(was, gone), p) && sha(InodeOf(Without(was, gone), p).content) == plan.preserved[p]
    {
      RegularWithout(was, gone, p);
    }
  }
}
