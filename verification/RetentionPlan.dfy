/** What a plan of scripts/experiment_retention.py says, in terms of the file system alone, and that `plan` gives
    exactly that plan. */
module RetentionPlan {
  import opened Results
  import opened Retention

  // ---------- one run ----------

  /** What an input manifest declares of one input. */
  predicate DeclaredBy(fs: Fs, row: Row, input: Input) {
    && row.columns == 3 && row.hex && input.recorded == row.digest && input.path == Real(fs, row.source)
    && Regular(fs, input.path) && fs.names[input.path] == Hard(input.ino)
    && input.size == fs.inodes[input.ino].size && input.mtime == fs.inodes[input.ino].mtime
  }

  /** The inputs are those of the rows with three columns, each name declared once. */
  predicate InputsAre(fs: Fs, rows: seq<Row>, inputs: map<InputName, Input>) {
    && (forall i :: 0 <= i < |rows| && rows[i].columns == 3 ==>
          rows[i].name in inputs && DeclaredBy(fs, rows[i], inputs[rows[i].name]))
    && (forall name :: name in inputs ==> Declares(rows, name))
    && (forall i, j :: 0 <= i < j < |rows| && rows[i].columns == rows[j].columns == 3 ==> rows[i].name != rows[j].name)
  }

  predicate Declares(rows: seq<Row>, name: InputName) {
    exists i :: 0 <= i < |rows| && rows[i].columns == 3 && rows[i].name == name
  }

  predicate SealedBy(fs: Fs, sha: Content -> Digest, r: Receipt, job: nat, file: JobFile) {
    && Read(fs, InJob(job, file)) != None && fs.names[InJob(job, file)].Hard?
    && file in r.digests && r.digests[file] == sha(Read(fs, InJob(job, file)).value)
  }

  /** A direct file that says what is wanted of it. */
  predicate Confirms(fs: Fs, p: Path) { p in fs.names && fs.names[p].Hard? && Read(fs, p) == Some(Verdict(true)) }

  /** The records of the job agree with its receipt. */
  predicate Proven(fs: Fs, sha: Content -> Digest, r: Receipt, job: nat) {
    && r.sound && r.job == job && r.expectedRuns == 20 && 1 <= r.ordinal <= 20
    && Confirms(fs, InJob(job, JobEnv)) && Confirms(fs, InJob(job, ResultEnv)) && Confirms(fs, InJob(job, CleanupText))
    && SealedBy(fs, sha, r, job, InputManifest)
    && (r.nvme ==>
          && SealedBy(fs, sha, r, job, NvmeResult) && SealedBy(fs, sha, r, job, NvmeRaw)
          && SealedBy(fs, sha, r, job, NvmeDone) && SealedBy(fs, sha, r, job, PowerLog))
    && (!r.nvme ==> Regular(fs, InJob(job, BootTiming)) && InodeOf(fs, InJob(job, BootTiming)).size != 0)
  }

  /** Every file of the job but its disk is a regular file of at most 256 MiB, and none is a Git repository. */
  ghost predicate Archivable(fs: Fs, job: nat) {
    forall file: JobFile | file != TargetDisk && InJob(job, file) in fs.names ::
      && file != Git && Regular(fs, InJob(job, file)) && InodeOf(fs, InJob(job, file)).size <= 268_435_456
  }

  /** The disk is the only name of its inode, and not the image the run was started from. */
  predicate OwnDisk(fs: Fs, job: nat, image: nat) {
    && Regular(fs, Disk(job)) && fs.names[Disk(job)] != Hard(image)
    && forall p :: p in fs.names && p != Disk(job) ==> fs.names[p] != fs.names[Disk(job)]
  }

  predicate ActionIs(fs: Fs, run: JobRun) {
    match run.action
    case Keep => run.ordinal == 1 && Image in run.inputs && OwnDisk(fs, run.job, run.inputs[Image].ino)
    case Delete => run.ordinal != 1 && Image in run.inputs && OwnDisk(fs, run.job, run.inputs[Image].ino)
    case AlreadyAbsent => run.ordinal != 1 && Disk(run.job) !in fs.names
  }

  /** A receipt of the campaign, as a direct regular file. */
  predicate Receipted(fs: Fs, campaign: nat, job: nat) {
    && Regular(fs, InJob(job, ReceiptJson)) && InodeOf(fs, InJob(job, ReceiptJson)).content.ReceiptDoc?
    && InodeOf(fs, InJob(job, ReceiptJson)).content.receipt.campaign == campaign
  }

  ghost predicate RunIs(fs: Fs, campaign: nat, sha: Content -> Digest, run: JobRun) {
    && Receipted(fs, campaign, run.job)
    && var doc := InodeOf(fs, InJob(run.job, ReceiptJson)).content;
    && Proven(fs, sha, doc.receipt, run.job) && run.ordinal == doc.receipt.ordinal && run.receiptSha == sha(doc)
    && InputsAre(fs, RowsOf(InodeOf(fs, InJob(run.job, InputManifest)).content), run.inputs)
    && Image in run.inputs && run.inputs[Image].recorded == doc.receipt.image
    && Vars in run.inputs && run.inputs[Vars].recorded == doc.receipt.vars
    && Archivable(fs, run.job) && ActionIs(fs, run)
  }

  // ---------- the plan ----------

  /** A job without a readable receipt file, or with one of another campaign. */
  predicate PassedOver(fs: Fs, campaign: nat, job: nat) {
    var p := InJob(job, ReceiptJson);
    Read(fs, p) != None ==>
      Regular(fs, p) && InodeOf(fs, p).content.ReceiptDoc? && InodeOf(fs, p).content.receipt.campaign != campaign
  }

  predicate Ascending(runs: seq<JobRun>) { forall i, j :: 0 <= i < j < |runs| ==> runs[i].job < runs[j].job }

  predicate HasJob(runs: seq<JobRun>, job: nat) { exists i :: 0 <= i < |runs| && runs[i].job == job }

  /** The runs are the jobs of the campaign, in order, each as its records say. */
  ghost predicate RunsAre(fs: Fs, campaign: nat, sha: Content -> Digest, jobs: seq<nat>, runs: seq<JobRun>) {
    && Ascending(runs)
    && (forall run :: run in runs ==> run.job in jobs && RunIs(fs, campaign, sha, run))
    && (forall job :: job in jobs && !HasJob(runs, job) ==> PassedOver(fs, campaign, job))
  }

  /** All the evidence: every file of every run but its disk, and nothing else. */
  ghost predicate EvidenceIs(fs: Fs, sha: Content -> Digest, runs: seq<JobRun>, preserved: map<Path, Digest>) {
    && (forall i, file :: 0 <= i < |runs| && file != TargetDisk && InJob(runs[i].job, file) in fs.names ==>
          InJob(runs[i].job, file) in preserved)
    && (forall p :: p in preserved ==>
          && p.InJob? && p.file != TargetDisk && HasJob(runs, p.job)
          && Read(fs, p) != None && preserved[p] == sha(Read(fs, p).value))
  }

  predicate TargetIs(fs: Fs, t: Target) {
    && Regular(fs, t.path) && fs.names[t.path] == Hard(t.ino)
    && t.size == fs.inodes[t.ino].size && t.mtime == fs.inodes[t.ino].mtime && t.blocks == fs.inodes[t.ino].blocks
  }

  predicate TargetsAre(fs: Fs, runs: seq<JobRun>, targets: seq<Target>) {
    Paths(targets) == Deletions(runs) && forall i :: 0 <= i < |targets| ==> TargetIs(fs, targets[i])
  }

  /** A file that declares inputs: the manifest of a job, or one anywhere else. */
  predicate Declaring(p: Path) {
    match p
    case InJob(_, file) => file.InputManifest?
    case Outside(_, manifest) => manifest
  }

  /** No target is an input of a run, or declared by any manifest under any name or as its later place under `done`. */
  predicate Undeclared(fs: Fs, runs: seq<JobRun>, t: Target) {
    && (forall i, name :: 0 <= i < |runs| && name in runs[i].inputs ==> runs[i].inputs[name].ino != t.ino)
    && forall p :: p in fs.names && Declaring(p) && Regular(fs, p) ==>
         forall row :: row in RowsOf(InodeOf(fs, p).content) ==> RowSpares(fs, row, t)
  }

  predicate RowSpares(fs: Fs, row: Row, t: Target) {
    row.columns >= 2 && row.absolute ==>
      && row.spelled != t.path
      && (Real(fs, row.source) in fs.names ==> fs.names[Real(fs, row.source)] != Hard(t.ino))
  }

  predicate ManifestsReadable(fs: Fs) {
    forall p :: p in fs.names && Declaring(p) ==> Regular(fs, p) && InodeOf(fs, p).size <= 8_388_608
  }

  /** Everything a plan says. */
  ghost predicate PlanMeans(fs: Fs, campaign: nat, sha: Content -> Digest, plan: Plan) {
    && RunsAre(fs, campaign, sha, fs.jobs, plan.runs) && EvidenceIs(fs, sha, plan.runs, plan.preserved)
    && TargetsAre(fs, plan.runs, plan.targets)
    && |plan.runs| == 20 && (forall n :: 1 <= n <= 20 ==> HasOrdinal(plan.runs, n))
    && ManifestsReadable(fs) && forall i :: 0 <= i < |plan.targets| ==> Undeclared(fs, plan.runs, plan.targets[i])
  }

  // ---------- check_run gives a run exactly when its records prove it ----------

  lemma {:induction false} RowsExactly(fs: Fs, rows: seq<Row>)
    ensures AddRows(fs, rows).Some? ==> InputsAre(fs, rows, AddRows(fs, rows).value)
    ensures forall inputs :: InputsAre(fs, rows, inputs) ==> AddRows(fs, rows) == Some(inputs)
  {
    if rows != [] {
      var before, row := rows[..|rows| - 1], rows[|rows| - 1];
      RowsExactly(fs, before);
      if AddRows(fs, rows).Some? {
        RowAdds(fs, before, AddRows(fs, before).value, row);
        assert before + [row] == rows;
      }
      forall inputs | InputsAre(fs, rows, inputs) ensures AddRows(fs, rows) == Some(inputs) {
        RowTakenOff(fs, rows, inputs);
      }
    }
  }

  lemma RowAdds(fs: Fs, before: seq<Row>, inputs: map<InputName, Input>, row: Row)
    requires InputsAre(fs, before, inputs) && AddRow(fs, inputs, row).Some?
    ensures InputsAre(fs, before + [row], AddRow(fs, inputs, row).value)
  {
    var rows, more := before + [row], AddRow(fs, inputs, row).value;
    forall name | name in more ensures Declares(rows, name) {
      if name in inputs {
        assert Declares(before, name);
        var i :| 0 <= i < |before| && before[i].columns == 3 && before[i].name == name;
        assert rows[i] == before[i];
      } else {
        assert rows[|before|] == row;
      }
    }
  }

  lemma RowTakenOff(fs: Fs, rows: seq<Row>, inputs: map<InputName, Input>)
    requires rows != [] && InputsAre(fs, rows, inputs)
    requires forall some :: InputsAre(fs, rows[..|rows| - 1], some) ==> AddRows(fs, rows[..|rows| - 1]) == Some(some)
    ensures AddRows(fs, rows) == Some(inputs)
  {
    var before, row := rows[..|rows| - 1], rows[|rows| - 1];
    if row.columns == 3 {
      var some := inputs - {row.name};
      forall name | name in some ensures Declares(before, name) {
        assert Declares(rows, name);
        var i :| 0 <= i < |rows| && rows[i].columns == 3 && rows[i].name == name;
        assert before[i] == rows[i];
      }
      assert InputsAre(fs, before, some);
      var p, input := Real(fs, row.source), inputs[row.name];
      assert DeclaredBy(fs, row, input);
      assert input == Input(p, row.digest, fs.names[p].ino, InodeOf(fs, p).size, InodeOf(fs, p).mtime);
      assert inputs == some[row.name := inputs[row.name]];
      assert row.name !in some;
      assert AddRow(fs, some, row) == Some(some[row.name := input]);
      assert AddRows(fs, before) == Some(some);
    } else {
      forall name | name in inputs ensures Declares(before, name) {
        assert Declares(rows, name);
        var i :| 0 <= i < |rows| && rows[i].columns == 3 && rows[i].name == name;
        assert before[i] == rows[i];
      }
      assert InputsAre(fs, before, inputs);
    }
  }

  lemma ProvenExactly(fs: Fs, sha: Content -> Digest, r: Receipt, job: nat)
    ensures Proven(fs, sha, r, job) <==>
              && r.sound && r.job == job && RecordsAgree(fs, sha, r, job)
              && r.expectedRuns == RUNS && 1 <= r.ordinal <= RUNS
  {
    SealExactly(fs, sha, r, job, InputManifest);
    SealExactly(fs, sha, r, job, NvmeResult);
    SealExactly(fs, sha, r, job, NvmeRaw);
    SealExactly(fs, sha, r, job, NvmeDone);
    SealExactly(fs, sha, r, job, PowerLog);
  }

  lemma SealExactly(fs: Fs, sha: Content -> Digest, r: Receipt, job: nat, file: JobFile)
    ensures SealedBy(fs, sha, r, job, file) <==> HashMatches(fs, sha, r, job, file)
  {
  }

  lemma WalkExactly(fs: Fs, job: nat)
    ensures Walkable(fs, job) <==> Archivable(fs, job)
  {
    if Archivable(fs, job) {
      forall p | p in Walk(fs, job) ensures Regular(fs, p) && InodeOf(fs, p).size <= EVIDENCE_LIMIT {
        assert p == InJob(job, p.file);
      }
    }
    if Walkable(fs, job) {
      forall file: JobFile | file != TargetDisk && InJob(job, file) in fs.names
        ensures file != Git && Regular(fs, InJob(job, file)) && InodeOf(fs, InJob(job, file)).size <= EVIDENCE_LIMIT
      {
        assert InJob(job, file) in Walk(fs, job);
      }
    }
  }

  lemma DiskExactly(fs: Fs, run: JobRun)
    requires Image in run.inputs
    ensures var disk := DiskOf(fs, run.job, run.ordinal, run.inputs[Image].ino);
            disk.Some? && disk.value.action == run.action <==> ActionIs(fs, run)
  {
    if Regular(fs, Disk(run.job)) {
      LinkExactly(fs, Disk(run.job));
    }
  }

  lemma LinkExactly(fs: Fs, p: Path)
    requires Regular(fs, p)
    ensures Links(fs, fs.names[p].ino) == {p} <==> forall q :: q in fs.names && q != p ==> fs.names[q] != fs.names[p]
  {
    if Links(fs, fs.names[p].ino) == {p} {
      forall q | q in fs.names && q != p ensures fs.names[q] != fs.names[p] {
        assert q !in Links(fs, fs.names[p].ino);
      }
    }
  }

  /** For a job of the campaign. */
  lemma PartExactly(fs: Fs, campaign: nat, sha: Content -> Digest, job: nat, r: Receipt)
    requires Member(fs, campaign, job) == Ours(r)
    ensures PartOf(fs, sha, job, r).Some? ==>
              && PartOf(fs, sha, job, r).value.run.job == job
              && RunIs(fs, campaign, sha, PartOf(fs, sha, job, r).value.run)
    ensures forall run :: RunIs(fs, campaign, sha, run) && run.job == job ==>
              PartOf(fs, sha, job, r).Some? && PartOf(fs, sha, job, r).value.run == run
  {
    ProvenExactly(fs, sha, r, job);
    WalkExactly(fs, job);
    if PartOf(fs, sha, job, r).Some? {
      PartIsRun(fs, campaign, sha, job, r);
    }
    forall run | RunIs(fs, campaign, sha, run) && run.job == job
      ensures PartOf(fs, sha, job, r).Some? && PartOf(fs, sha, job, r).value.run == run
    {
      RunIsPart(fs, campaign, sha, run, r);
    }
  }

  lemma PartIsRun(fs: Fs, campaign: nat, sha: Content -> Digest, job: nat, r: Receipt)
    requires Member(fs, campaign, job) == Ours(r) && PartOf(fs, sha, job, r).Some?
    requires Proven(fs, sha, r, job) <==>
               && r.sound && r.job == job && RecordsAgree(fs, sha, r, job)
               && r.expectedRuns == RUNS && 1 <= r.ordinal <= RUNS
    requires Walkable(fs, job) <==> Archivable(fs, job)
    ensures PartOf(fs, sha, job, r).value.run.job == job
    ensures RunIs(fs, campaign, sha, PartOf(fs, sha, job, r).value.run)
  {
    RowsExactly(fs, RowsOf(InodeOf(fs, InJob(job, InputManifest)).content));
    DiskExactly(fs, PartOf(fs, sha, job, r).value.run);
  }

  lemma RunIsChecked(fs: Fs, campaign: nat, sha: Content -> Digest, run: JobRun, r: Receipt)
    requires RunIs(fs, campaign, sha, run) && Member(fs, campaign, run.job) == Ours(r)
    requires r.sound && r.job == run.job && RecordsAgree(fs, sha, r, run.job)
    ensures CheckedInputs(fs, sha, r, run.job) == Some(run.inputs)
  {
    RowsExactly(fs, RowsOf(InodeOf(fs, InJob(run.job, InputManifest)).content));
  }

  lemma RunIsPart(fs: Fs, campaign: nat, sha: Content -> Digest, run: JobRun, r: Receipt)
    requires RunIs(fs, campaign, sha, run) && Member(fs, campaign, run.job) == Ours(r)
    requires Proven(fs, sha, r, run.job) <==>
               && r.sound && r.job == run.job && RecordsAgree(fs, sha, r, run.job)
               && r.expectedRuns == RUNS && 1 <= r.ordinal <= RUNS
    requires Walkable(fs, run.job) <==> Archivable(fs, run.job)
    ensures PartOf(fs, sha, run.job, r).Some? && PartOf(fs, sha, run.job, r).value.run == run
  {
    RunIsChecked(fs, campaign, sha, run, r);
    DiskExactly(fs, run);
  }

  lemma MemberExactly(fs: Fs, campaign: nat, job: nat)
    ensures Member(fs, campaign, job).NotOurs? <==> PassedOver(fs, campaign, job)
    ensures Member(fs, campaign, job).Ours? <==> Receipted(fs, campaign, job)
  {
  }

  // ---------- the loop over the jobs gives everything a plan says ----------

  lemma RunAdded(fs: Fs, campaign: nat, sha: Content -> Digest, before: seq<nat>, runs: seq<JobRun>, run: JobRun)
    requires RunsAre(fs, campaign, sha, before, runs) && RunIs(fs, campaign, sha, run)
    requires forall job :: job in before ==> job < run.job
    ensures RunsAre(fs, campaign, sha, before + [run.job], runs + [run])
  {
    AscendingMore(runs, run);
    forall job | job in before + [run.job] && !HasJob(runs + [run], job) ensures PassedOver(fs, campaign, job) {
      OneMoreJob(runs, run, job);
    }
  }

  lemma AscendingMore(runs: seq<JobRun>, run: JobRun)
    requires Ascending(runs) && forall earlier :: earlier in runs ==> earlier.job < run.job
    ensures Ascending(runs + [run])
  {
  }

  lemma OneMoreJob(runs: seq<JobRun>, run: JobRun, job: nat)
    ensures HasJob(runs + [run], job) <==> HasJob(runs, job) || run.job == job
  {
    var more := runs + [run];
    assert more[|runs|] == run;
    assert forall i :: 0 <= i < |runs| ==> more[i] == runs[i];
  }

  lemma EvidenceAdded(fs: Fs, sha: Content -> Digest, runs: seq<JobRun>, preserved: map<Path, Digest>, run: JobRun)
    requires EvidenceIs(fs, sha, runs, preserved) && Walkable(fs, run.job)
    ensures EvidenceIs(fs, sha, runs + [run], preserved + Preserved(fs, sha, run.job))
  {
    var more, evidence := runs + [run], Preserved(fs, sha, run.job);
    assert more[|runs|] == run;
    forall i, file | 0 <= i < |more| && file != TargetDisk && InJob(more[i].job, file) in fs.names
      ensures InJob(more[i].job, file) in preserved + evidence
    {
      if i == |runs| {
        assert InJob(run.job, file) in Walk(fs, run.job);
      } else {
        assert more[i] == runs[i];
      }
    }
    forall p | p in preserved + evidence
      ensures p.InJob? && p.file != TargetDisk && HasJob(more, p.job)
      ensures Read(fs, p) != None && (preserved + evidence)[p] == sha(Read(fs, p).value)
    {
      OneMoreJob(runs, run, p.job);
      assert p in evidence ==> p in Walk(fs, run.job);
    }
  }

  lemma TargetsAdded(fs: Fs, runs: seq<JobRun>, targets: seq<Target>, run: JobRun, target: Option<Target>)
    requires TargetsAre(fs, runs, targets) && (run.action == Delete <==> target.Some?)
    requires target.Some? ==> TargetIs(fs, target.value) && target.value.path == Disk(run.job)
    ensures TargetsAre(fs, runs + [run], if target.Some? then targets + [target.value] else targets)
  {
    assert (runs + [run])[..|runs|] == runs;
    if target.Some? {
      assert Paths(targets + [target.value]) == Paths(targets) + [Disk(run.job)];
    }
  }

  lemma {:induction false} JobsMean(fs: Fs, campaign: nat, sha: Content -> Digest, jobs: seq<nat>)
    requires AddJobs(fs, campaign, sha, jobs).Some?
    requires forall i, j :: 0 <= i < j < |jobs| ==> jobs[i] < jobs[j]
    ensures var plan := AddJobs(fs, campaign, sha, jobs).value;
      && RunsAre(fs, campaign, sha, jobs, plan.runs) && EvidenceIs(fs, sha, plan.runs, plan.preserved)
      && TargetsAre(fs, plan.runs, plan.targets)
  {
    if jobs != [] {
      var before, job := jobs[..|jobs| - 1], jobs[|jobs| - 1];
      JobsMean(fs, campaign, sha, before);
      var plan := AddJobs(fs, campaign, sha, before).value;
      assert before + [job] == jobs;
      MemberExactly(fs, campaign, job);
      match Member(fs, campaign, job) {
        case Ours(r) => PartAdded(fs, campaign, sha, before, plan, job, r);
        case NotOurs => JobPassed(fs, campaign, sha, before, job, plan.runs);
      }
    }
  }

  lemma JobPassed(fs: Fs, campaign: nat, sha: Content -> Digest, before: seq<nat>, job: nat, runs: seq<JobRun>)
    requires RunsAre(fs, campaign, sha, before, runs) && PassedOver(fs, campaign, job)
    ensures RunsAre(fs, campaign, sha, before + [job], runs)
  {
  }

  lemma PartAdded(fs: Fs, campaign: nat, sha: Content -> Digest, before: seq<nat>, plan: Plan, job: nat, r: Receipt)
    requires RunsAre(fs, campaign, sha, before, plan.runs) && EvidenceIs(fs, sha, plan.runs, plan.preserved)
    requires TargetsAre(fs, plan.runs, plan.targets) && forall earlier :: earlier in before ==> earlier < job
    requires Member(fs, campaign, job) == Ours(r) && PartOf(fs, sha, job, r).Some?
    ensures var next := Append(plan, PartOf(fs, sha, job, r).value);
      && RunsAre(fs, campaign, sha, before + [job], next.runs) && EvidenceIs(fs, sha, next.runs, next.preserved)
      && TargetsAre(fs, next.runs, next.targets)
  {
    PartExactly(fs, campaign, sha, job, r);
    PartSays(fs, sha, job, r);
    PartAppended(fs, campaign, sha, before, plan, PartOf(fs, sha, job, r).value);
  }

  lemma PartSays(fs: Fs, sha: Content -> Digest, job: nat, r: Receipt)
    requires Regular(fs, InJob(job, ReceiptJson)) && PartOf(fs, sha, job, r).Some?
    ensures PartOf(fs, sha, job, r).value.run.job == job && PartFits(fs, sha, PartOf(fs, sha, job, r).value)
  {
  }

  predicate PartFits(fs: Fs, sha: Content -> Digest, part: Part) {
    && Walkable(fs, part.run.job) && part.evidence == Preserved(fs, sha, part.run.job)
    && (part.run.action == Delete <==> part.target.Some?)
    && (part.target.Some? ==> TargetIs(fs, part.target.value) && part.target.value.path == Disk(part.run.job))
  }

  lemma PartAppended(fs: Fs, campaign: nat, sha: Content -> Digest, before: seq<nat>, plan: Plan, part: Part)
    requires RunsAre(fs, campaign, sha, before, plan.runs) && EvidenceIs(fs, sha, plan.runs, plan.preserved)
    requires TargetsAre(fs, plan.runs, plan.targets) && forall earlier :: earlier in before ==> earlier < part.run.job
    requires RunIs(fs, campaign, sha, part.run) && PartFits(fs, sha, part)
    ensures var next := Append(plan, part);
      && RunsAre(fs, campaign, sha, before + [part.run.job], next.runs)
      && EvidenceIs(fs, sha, next.runs, next.preserved) && TargetsAre(fs, next.runs, next.targets)
  {
    RunAdded(fs, campaign, sha, before, plan.runs, part.run);
    EvidenceAdded(fs, sha, plan.runs, plan.preserved, part.run);
    TargetsAdded(fs, plan.runs, plan.targets, part.run, part.target);
  }

  // ---------- and only one plan says it ----------

  lemma {:induction false} SameMembers(a: seq<JobRun>, b: seq<JobRun>)
    requires Ascending(a) && Ascending(b) && forall run :: run in a <==> run in b
    ensures a == b
  {
    assert a == [] || a[|a| - 1] in a;
    assert b == [] || b[|b| - 1] in b;
    if a != [] {
      var n, m := |a| - 1, |b| - 1;
      assert a[n] == b[m];
      forall run ensures run in a[..n] <==> run in b[..m] {
        LastOff(a, run);
        LastOff(b, run);
      }
      SameMembers(a[..n], b[..m]);
    }
  }

  lemma LastOff(a: seq<JobRun>, run: JobRun)
    requires a != [] && Ascending(a)
    ensures run in a[..|a| - 1] <==> run in a && run != a[|a| - 1]
  {
    assert a == a[..|a| - 1] + [a[|a| - 1]];
  }

  lemma SameRuns(fs: Fs, campaign: nat, sha: Content -> Digest, jobs: seq<nat>, a: seq<JobRun>, b: seq<JobRun>)
    requires RunsAre(fs, campaign, sha, jobs, a) && RunsAre(fs, campaign, sha, jobs, b)
    ensures a == b
  {
    forall run ensures run in a <==> run in b {
      if run in a {
        RunElsewhere(fs, campaign, sha, jobs, a, b, run);
      }
      if run in b {
        RunElsewhere(fs, campaign, sha, jobs, b, a, run);
      }
    }
    SameMembers(a, b);
  }

  lemma RunElsewhere(fs: Fs, campaign: nat, sha: Content -> Digest, jobs: seq<nat>, a: seq<JobRun>, b: seq<JobRun>,
                     run: JobRun)
    requires RunsAre(fs, campaign, sha, jobs, a) && RunsAre(fs, campaign, sha, jobs, b) && run in a
    ensures run in b
  {
    var i :| 0 <= i < |a| && a[i] == run;
    NotPassedOver(fs, campaign, sha, run);
    assert HasJob(b, run.job);
    var j :| 0 <= j < |b| && b[j].job == run.job;
    OneRun(fs, campaign, sha, run, b[j]);
  }

  lemma NotPassedOver(fs: Fs, campaign: nat, sha: Content -> Digest, run: JobRun)
    requires RunIs(fs, campaign, sha, run)
    ensures Member(fs, campaign, run.job).Ours? && !PassedOver(fs, campaign, run.job)
  {
    MemberExactly(fs, campaign, run.job);
  }

  lemma OneRun(fs: Fs, campaign: nat, sha: Content -> Digest, a: JobRun, b: JobRun)
    requires RunIs(fs, campaign, sha, a) && RunIs(fs, campaign, sha, b) && a.job == b.job
    ensures a == b
  {
    NotPassedOver(fs, campaign, sha, a);
    PartExactly(fs, campaign, sha, a.job, Member(fs, campaign, a.job).receipt);
  }

  lemma SameTargets(fs: Fs, runs: seq<JobRun>, a: seq<Target>, b: seq<Target>)
    requires TargetsAre(fs, runs, a) && TargetsAre(fs, runs, b)
    ensures a == b
  {
    forall i | 0 <= i < |a| ensures i < |b| && a[i] == b[i] {
      assert |Paths(a)| == |Paths(b)| && Paths(a)[i] == Paths(b)[i];
    }
    assert |Paths(a)| == |Paths(b)|;
  }

  lemma SameEvidence(fs: Fs, sha: Content -> Digest, runs: seq<JobRun>, a: map<Path, Digest>, b: map<Path, Digest>)
    requires EvidenceIs(fs, sha, runs, a) && EvidenceIs(fs, sha, runs, b)
    ensures a == b
  {
    EvidenceIn(fs, sha, runs, a, b);
    EvidenceIn(fs, sha, runs, b, a);
  }

  lemma EvidenceIn(fs: Fs, sha: Content -> Digest, runs: seq<JobRun>, a: map<Path, Digest>, b: map<Path, Digest>)
    requires EvidenceIs(fs, sha, runs, a) && EvidenceIs(fs, sha, runs, b)
    ensures forall p :: p in a ==> p in b && a[p] == b[p]
  {
    forall p | p in a ensures p in b && a[p] == b[p] {
      var i :| 0 <= i < |runs| && runs[i].job == p.job;
      assert p == InJob(runs[i].job, p.file);
    }
  }

  // ---------- the theorem ----------

  /** Every job of the campaign can be added. */
  lemma {:induction false} JobsAdd(fs: Fs, campaign: nat, sha: Content -> Digest, jobs: seq<nat>, runs: seq<JobRun>)
    requires forall run :: run in runs ==> RunIs(fs, campaign, sha, run)
    requires forall job :: job in jobs && !HasJob(runs, job) ==> PassedOver(fs, campaign, job)
    ensures AddJobs(fs, campaign, sha, jobs).Some?
  {
    if jobs != [] {
      var before, job := jobs[..|jobs| - 1], jobs[|jobs| - 1];
      JobsAdd(fs, campaign, sha, before, runs);
      MemberExactly(fs, campaign, job);
      if HasJob(runs, job) {
        var i :| 0 <= i < |runs| && runs[i].job == job;
        RunAdds(fs, campaign, sha, AddJobs(fs, campaign, sha, before).value, runs[i]);
      }
    }
  }

  lemma RunAdds(fs: Fs, campaign: nat, sha: Content -> Digest, plan: Plan, run: JobRun)
    requires RunIs(fs, campaign, sha, run)
    ensures AddJob(fs, campaign, sha, plan, run.job).Some?
  {
    NotPassedOver(fs, campaign, sha, run);
    PartExactly(fs, campaign, sha, run.job, Member(fs, campaign, run.job).receipt);
  }

  lemma AcceptedExactly(fs: Fs, plan: Plan)
    ensures Acceptable(fs, plan) <==>
              && |plan.runs| == 20 && (forall n :: 1 <= n <= 20 ==> HasOrdinal(plan.runs, n)) && ManifestsReadable(fs)
              && forall i :: 0 <= i < |plan.targets| ==> Undeclared(fs, plan.runs, plan.targets[i])
  {
    if InputsClear(plan) && ScanClear(fs, plan.targets) {
      forall i | 0 <= i < |plan.targets| ensures Undeclared(fs, plan.runs, plan.targets[i]) {
        ClearIsUndeclared(fs, plan, i);
      }
    }
    if ManifestsReadable(fs) && forall i :: 0 <= i < |plan.targets| ==> Undeclared(fs, plan.runs, plan.targets[i]) {
      UndeclaredIsClear(fs, plan);
    }
  }

  lemma ClearIsUndeclared(fs: Fs, plan: Plan, i: nat)
    requires InputsClear(plan) && ScanClear(fs, plan.targets) && i < |plan.targets|
    ensures Undeclared(fs, plan.runs, plan.targets[i])
  {
    var t := plan.targets[i];
    assert Candidate(plan.targets, t.ino);
    forall p | p in fs.names && Declaring(p) && Regular(fs, p)
      ensures forall row :: row in RowsOf(InodeOf(fs, p).content) ==> RowSpares(fs, row, t)
    {
      assert ManifestClear(fs, plan.targets, p);
      forall row | row in RowsOf(InodeOf(fs, p).content) ensures RowSpares(fs, row, t) {
        assert RowClear(fs, plan.targets, row);
      }
    }
  }

  lemma UndeclaredIsClear(fs: Fs, plan: Plan)
    requires ManifestsReadable(fs) && forall i :: 0 <= i < |plan.targets| ==> Undeclared(fs, plan.runs, plan.targets[i])
    ensures InputsClear(plan) && ScanClear(fs, plan.targets)
  {
    forall p | p in fs.names && IsManifest(p) ensures ManifestClear(fs, plan.targets, p) {
      forall row | row in RowsOf(InodeOf(fs, p).content) ensures RowClear(fs, plan.targets, row) {
        forall i | 0 <= i < |plan.targets| ensures RowSpares(fs, row, plan.targets[i]) {
          assert Undeclared(fs, plan.runs, plan.targets[i]);
        }
      }
    }
    forall i, name | 0 <= i < |plan.runs| && name in plan.runs[i].inputs
      ensures !Candidate(plan.targets, plan.runs[i].inputs[name].ino)
    {
      forall j | 0 <= j < |plan.targets| ensures plan.targets[j].ino != plan.runs[i].inputs[name].ino {
        assert Undeclared(fs, plan.runs, plan.targets[j]);
      }
    }
  }

  /** `plan` gives a plan exactly when the file system holds one, and then that one. */
  lemma PlanExactly(fs: Fs, campaign: nat, sha: Content -> Digest)
    requires Wf(fs)
    ensures PlanOf(fs, campaign, sha).Some? ==> PlanMeans(fs, campaign, sha, PlanOf(fs, campaign, sha).value)
    ensures forall plan :: PlanMeans(fs, campaign, sha, plan) ==> PlanOf(fs, campaign, sha) == Some(plan)
  {
    if PlanOf(fs, campaign, sha).Some? {
      JobsMean(fs, campaign, sha, fs.jobs);
      AcceptedExactly(fs, PlanOf(fs, campaign, sha).value);
    }
    forall plan | PlanMeans(fs, campaign, sha, plan) ensures PlanOf(fs, campaign, sha) == Some(plan) {
      OnlyPlan(fs, campaign, sha, plan);
    }
  }

  lemma OnlyPlan(fs: Fs, campaign: nat, sha: Content -> Digest, plan: Plan)
    requires Wf(fs) && PlanMeans(fs, campaign, sha, plan)
    ensures PlanOf(fs, campaign, sha) == Some(plan)
  {
    JobsAdd(fs, campaign, sha, fs.jobs, plan.runs);
    JobsMean(fs, campaign, sha, fs.jobs);
    var made := AddJobs(fs, campaign, sha, fs.jobs).value;
    SameRuns(fs, campaign, sha, fs.jobs, plan.runs, made.runs);
    SameTargets(fs, plan.runs, plan.targets, made.targets);
    SameEvidence(fs, sha, plan.runs, plan.preserved, made.preserved);
    AcceptedExactly(fs, plan);
  }

  /** The evidence of all runs reads as it did, by its digests. */
  ghost predicate EvidenceKept(was: Fs, now: Fs, sha: Content -> Digest, runs: seq<JobRun>) {
    forall i, file :: 0 <= i < |runs| && file != TargetDisk && InJob(runs[i].job, file) in was.names ==>
      SameDigest(Read(was, InJob(runs[i].job, file)), Read(now, InJob(runs[i].job, file)), sha)
  }

  predicate SameDigest(a: Option<Content>, b: Option<Content>, sha: Content -> Digest) {
    a.Some? && b.Some? && sha(a.value) == sha(b.value)
  }

  /** Checking the preserved files checks all the evidence. */
  lemma IntactKeepsEvidence(was: Fs, now: Fs, campaign: nat, sha: Content -> Digest, plan: Plan)
    requires Wf(was) && Planned(was, campaign, sha, plan)
    requires forall p :: p in plan.preserved ==> Regular(now, p) && sha(InodeOf(now, p).content) == plan.preserved[p]
    ensures EvidenceKept(was, now, sha, plan.runs)
  {
    PlanExactly(was, campaign, sha);
  }
}
