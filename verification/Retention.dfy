/** scripts/experiment_retention.py: planning which output disks of a finished campaign may be unlinked. The file
    system is paths, inodes and contents; documents are typed and digests are values of any function of the content. */
module Retention {
  import opened Results

  // ---------- the file system ----------

  datatype JobFile =
    | TargetDisk  // media/target.raw
    | ReceiptJson | JobEnv | ResultEnv | CleanupText | BootTiming
    | InputManifest | NvmeResult | NvmeRaw | NvmeDone | PowerLog
    | Git | Evidence(number: nat)

  /** A file of a job directory under `done`, or one anywhere else. */
  datatype Path = InJob(job: nat, file: JobFile) | Outside(name: nat, manifest: bool)

  type Digest = nat

  datatype InputName = Image | Vars | Named(id: nat)

  /** One line of an input manifest. `spelled` is what its text names once `/running/` is read as `/done/`. */
  datatype Row = Row(columns: nat, name: InputName, source: Path, absolute: bool, spelled: Path, digest: Digest,
                     hex: bool)

  /** `sound`: valid, passed, and of a reviewed tier, commit and workload. */
  datatype Receipt = Receipt(campaign: nat, sound: bool, nvme: bool, job: nat, ordinal: int, expectedRuns: int,
                             digests: map<JobFile, Digest>, image: Digest, vars: Digest)

  /** `Verdict(true)`: a job, result or cleanup record that says what the check wants to read. */
  datatype Content = ReceiptDoc(receipt: Receipt) | Rows(rows: seq<Row>) | Verdict(ok: bool) | Bytes(id: nat)

  datatype Inode = Inode(regular: bool, size: nat, mtime: int, blocks: nat, content: Content)

  /** A symbolic link is given with the path it finally leads to. */
  datatype Entry = Hard(ino: nat) | Symlink(to: Path)

  /** `jobs` are the directories of `done`, in order. */
  datatype Fs = Fs(jobs: seq<nat>, names: map<Path, Entry>, inodes: map<nat, Inode>)

  predicate Wf(fs: Fs) {
    && (forall i, j :: 0 <= i < j < |fs.jobs| ==> fs.jobs[i] < fs.jobs[j])
    && (forall p :: p in fs.names && fs.names[p].Hard? ==> fs.names[p].ino in fs.inodes)
  }

  /** `regular`: a direct regular file. */
  predicate Regular(fs: Fs, p: Path) {
    p in fs.names && fs.names[p].Hard? && fs.names[p].ino in fs.inodes && fs.inodes[fs.names[p].ino].regular
  }

  function InodeOf(fs: Fs, p: Path): Inode
    requires Regular(fs, p)
  {
    fs.inodes[fs.names[p].ino]
  }

  /** `Path.resolve`. */
  function Real(fs: Fs, p: Path): Path { if p in fs.names && fs.names[p].Symlink? then fs.names[p].to else p }

  function Links(fs: Fs, ino: nat): set<Path> { set p | p in fs.names && fs.names[p] == Hard(ino) }

  /** What reading a path gives. */
  function Read(fs: Fs, p: Path): Option<Content> {
    if Regular(fs, Real(fs, p)) then Some(InodeOf(fs, Real(fs, p)).content) else None
  }

  function Without(fs: Fs, gone: set<Path>): Fs { fs.(names := fs.names - gone) }

  // ---------- check_run ----------

  datatype Input = Input(path: Path, recorded: Digest, ino: nat, size: nat, mtime: int)

  predicate Says(fs: Fs, p: Path) { Regular(fs, p) && InodeOf(fs, p).content == Verdict(true) }

  predicate HashMatches(fs: Fs, sha: Content -> Digest, r: Receipt, job: nat, file: JobFile) {
    && Regular(fs, InJob(job, file))
    && file in r.digests && sha(InodeOf(fs, InJob(job, file)).content) == r.digests[file]
  }

  predicate RecordsAgree(fs: Fs, sha: Content -> Digest, r: Receipt, job: nat) {
    && Says(fs, InJob(job, JobEnv)) && Says(fs, InJob(job, ResultEnv)) && Says(fs, InJob(job, CleanupText))
    && HashMatches(fs, sha, r, job, InputManifest)
    && if r.nvme then
         && HashMatches(fs, sha, r, job, NvmeResult) && HashMatches(fs, sha, r, job, NvmeRaw)
         && HashMatches(fs, sha, r, job, NvmeDone) && HashMatches(fs, sha, r, job, PowerLog)
       else
         Regular(fs, InJob(job, BootTiming)) && InodeOf(fs, InJob(job, BootTiming)).size > 0
  }

  function RowsOf(c: Content): seq<Row> { if c.Rows? then c.rows else [] }

  function AddRow(fs: Fs, inputs: map<InputName, Input>, row: Row): Option<map<InputName, Input>> {
    if row.columns != 3 then Some(inputs)
    else if row.name in inputs || !row.hex then None
    else
      var p := Real(fs, row.source);
      if !Regular(fs, p) then None
      else
        var s := InodeOf(fs, p);
        Some(inputs[row.name := Input(p, row.digest, fs.names[p].ino, s.size, s.mtime)])
  }

  function AddRows(fs: Fs, rows: seq<Row>): Option<map<InputName, Input>> {
    if rows == [] then Some(map[])
    else
      var inputs :- AddRows(fs, rows[..|rows| - 1]);
      AddRow(fs, inputs, rows[|rows| - 1])
  }

  predicate Identified(r: Receipt, inputs: map<InputName, Input>) {
    && Image in inputs && inputs[Image].recorded == r.image
    && Vars in inputs && inputs[Vars].recorded == r.vars
  }

  /** The inputs of a run that passes every check. */
  function CheckedInputs(fs: Fs, sha: Content -> Digest, r: Receipt, job: nat): Option<map<InputName, Input>> {
    if r.sound && r.job == job && RecordsAgree(fs, sha, r, job) then
      var inputs :- AddRows(fs, RowsOf(InodeOf(fs, InJob(job, InputManifest)).content));
      if Identified(r, inputs) then Some(inputs) else None
    else None
  }

  // ---------- plan ----------

  datatype Action = Keep | Delete | AlreadyAbsent

  datatype Target = Target(path: Path, ino: nat, size: nat, mtime: int, blocks: nat)

  datatype JobRun = JobRun(job: nat, ordinal: int, receiptSha: Digest, inputs: map<InputName, Input>, action: Action)

  datatype Plan = Plan(runs: seq<JobRun>, targets: seq<Target>, preserved: map<Path, Digest>)

  const RUNS := 20
  const EVIDENCE_LIMIT := 256 * 1024 * 1024
  const MANIFEST_LIMIT := 8 * 1024 * 1024

  datatype Membership = NotOurs | Unreadable | Ours(receipt: Receipt)

  /** A job without a receipt, or of another campaign, is passed over. */
  function Member(fs: Fs, campaign: nat, job: nat): Membership {
    var p := InJob(job, ReceiptJson);
    if !Regular(fs, Real(fs, p)) then NotOurs
    else if !Regular(fs, p) || !InodeOf(fs, p).content.ReceiptDoc? then Unreadable
    else if InodeOf(fs, p).content.receipt.campaign != campaign then NotOurs
    else Ours(InodeOf(fs, p).content.receipt)
  }

  function Disk(job: nat): Path { InJob(job, TargetDisk) }

  /** `metadata`: a regular file with one name. */
  function Metadata(fs: Fs, p: Path): Option<Target> {
    if !Regular(fs, p) || Links(fs, fs.names[p].ino) != {p} then None
    else Some(Target(p, fs.names[p].ino, InodeOf(fs, p).size, InodeOf(fs, p).mtime, InodeOf(fs, p).blocks))
  }

  /** All files of a job directory but its disk. */
  function Walk(fs: Fs, job: nat): set<Path> {
    set p | p in fs.names && p.InJob? && p.job == job && p.file != TargetDisk
  }

  predicate Walkable(fs: Fs, job: nat) {
    && InJob(job, Git) !in fs.names
    && forall p :: p in Walk(fs, job) ==> Regular(fs, p) && InodeOf(fs, p).size <= EVIDENCE_LIMIT
  }

  function Preserved(fs: Fs, sha: Content -> Digest, job: nat): map<Path, Digest>
    requires Walkable(fs, job)
  {
    map p | p in Walk(fs, job) :: sha(InodeOf(fs, p).content)
  }

  /** What becomes of one output disk: the first run's is kept, and must be there. */
  datatype DiskPlan = DiskPlan(action: Action, target: Option<Target>)

  function DiskOf(fs: Fs, job: nat, ordinal: int, image: nat): Option<DiskPlan> {
    if Disk(job) !in fs.names then if ordinal == 1 then None else Some(DiskPlan(AlreadyAbsent, None))
    else
      var disk :- Metadata(fs, Disk(job));
      if disk.ino == image then None
      else Some(if ordinal == 1 then DiskPlan(Keep, None) else DiskPlan(Delete, Some(disk)))
  }

  /** What one job directory of the campaign adds to the plan. */
  datatype Part = Part(run: JobRun, target: Option<Target>, evidence: map<Path, Digest>)

  function PartOf(fs: Fs, sha: Content -> Digest, job: nat, r: Receipt): Option<Part>
    requires Regular(fs, InJob(job, ReceiptJson))
  {
    var inputs :- CheckedInputs(fs, sha, r, job);
    var disk :- DiskOf(fs, job, r.ordinal, inputs[Image].ino);
    if 1 <= r.ordinal <= RUNS && r.expectedRuns == RUNS && Walkable(fs, job) then
      var receiptSha := sha(InodeOf(fs, InJob(job, ReceiptJson)).content);
      Some(Assemble(job, r.ordinal, receiptSha, inputs, disk, Preserved(fs, sha, job)))
    else None
  }

  function Assemble(job: nat, ordinal: int, receiptSha: Digest, inputs: map<InputName, Input>, disk: DiskPlan,
                    evidence: map<Path, Digest>): Part {
    Part(JobRun(job, ordinal, receiptSha, inputs, disk.action), disk.target, evidence)
  }

  function Append(plan: Plan, part: Part): Plan {
    Plan(plan.runs + [part.run], if part.target.Some? then plan.targets + [part.target.value] else plan.targets,
         plan.preserved + part.evidence)
  }

  function AddJob(fs: Fs, campaign: nat, sha: Content -> Digest, plan: Plan, job: nat): Option<Plan> {
    match Member(fs, campaign, job)
    case NotOurs => Some(plan)
    case Unreadable => None
    case Ours(r) =>
      var part :- PartOf(fs, sha, job, r);
      Some(Append(plan, part))
  }

  function AddJobs(fs: Fs, campaign: nat, sha: Content -> Digest, jobs: seq<nat>): Option<Plan> {
    if jobs == [] then Some(Plan([], [], map[]))
    else
      var plan :- AddJobs(fs, campaign, sha, jobs[..|jobs| - 1]);
      AddJob(fs, campaign, sha, plan, jobs[|jobs| - 1])
  }

  predicate Candidate(targets: seq<Target>, ino: nat) { exists i :: 0 <= i < |targets| && targets[i].ino == ino }

  predicate HasOrdinal(runs: seq<JobRun>, n: int) { exists i :: 0 <= i < |runs| && runs[i].ordinal == n }

  predicate CoversCampaign(runs: seq<JobRun>) {
    |runs| == RUNS && forall n :: 1 <= n <= RUNS ==> HasOrdinal(runs, n)
  }

  predicate InputsClear(plan: Plan) {
    forall i, name :: 0 <= i < |plan.runs| && name in plan.runs[i].inputs ==>
      !Candidate(plan.targets, plan.runs[i].inputs[name].ino)
  }

  /** A declared input that exists is no candidate under any name, and no text spells a target. */
  predicate RowClear(fs: Fs, targets: seq<Target>, row: Row) {
    row.columns >= 2 && row.absolute ==>
      && (Real(fs, row.source) in fs.names && fs.names[Real(fs, row.source)].Hard? ==>
            !Candidate(targets, fs.names[Real(fs, row.source)].ino))
      && forall i :: 0 <= i < |targets| ==> targets[i].path != row.spelled
  }

  predicate IsManifest(p: Path) { (p.InJob? && p.file == InputManifest) || (p.Outside? && p.manifest) }

  predicate ManifestClear(fs: Fs, targets: seq<Target>, p: Path) {
    && Regular(fs, p) && InodeOf(fs, p).size <= MANIFEST_LIMIT
    && forall row :: row in RowsOf(InodeOf(fs, p).content) ==> RowClear(fs, targets, row)
  }

  predicate ScanClear(fs: Fs, targets: seq<Target>) {
    forall p :: p in fs.names && IsManifest(p) ==> ManifestClear(fs, targets, p)
  }

  predicate Acceptable(fs: Fs, plan: Plan) {
    CoversCampaign(plan.runs) && InputsClear(plan) && ScanClear(fs, plan.targets)
  }

  function PlanOf(fs: Fs, campaign: nat, sha: Content -> Digest): Option<Plan> {
    var plan :- AddJobs(fs, campaign, sha, fs.jobs);
    if Acceptable(fs, plan) then Some(plan) else None
  }

  // ---------- what a plan selects ----------

  /** A disk of its own: regular, and its inode has no other name. */
  predicate Expendable(fs: Fs, p: Path) {
    Regular(fs, p) && p.InJob? && p.file == TargetDisk && Links(fs, fs.names[p].ino) == {p}
  }

  predicate GoodTarget(fs: Fs, t: Target) { Expendable(fs, t.path) && Metadata(fs, t.path) == Some(t) }

  predicate GoodRun(fs: Fs, run: JobRun) {
    && (run.action == Keep <==> run.ordinal == 1)
    && (run.action != AlreadyAbsent <==> Disk(run.job) in fs.names)
    && (run.action != AlreadyAbsent ==>
          && Regular(fs, Disk(run.job)) && Image in run.inputs
          && fs.names[Disk(run.job)].ino != run.inputs[Image].ino)
    && forall name :: name in run.inputs ==>
         Regular(fs, run.inputs[name].path) && run.inputs[name].ino == fs.names[run.inputs[name].path].ino
  }

  /** The targets are the disks of the runs marked for deletion, in order and once each. */
  function Deletions(runs: seq<JobRun>): seq<Path> {
    if runs == [] then []
    else
      var last := runs[|runs| - 1];
      Deletions(runs[..|runs| - 1]) + (if last.action == Delete then [Disk(last.job)] else [])
  }

  function Paths(targets: seq<Target>): seq<Path> { seq(|targets|, i requires 0 <= i < |targets| => targets[i].path) }

  predicate Selection(fs: Fs, sha: Content -> Digest, jobs: seq<nat>, plan: Plan) {
    && (forall i :: 0 <= i < |plan.targets| ==> GoodTarget(fs, plan.targets[i]))
    && (forall i :: 0 <= i < |plan.runs| ==> plan.runs[i].job in jobs && GoodRun(fs, plan.runs[i]))
    && (forall i, j :: 0 <= i < j < |plan.runs| ==> plan.runs[i].job < plan.runs[j].job)
    && Paths(plan.targets) == Deletions(plan.runs)
    && GoodEvidence(fs, sha, plan.preserved)
  }

  predicate GoodEvidence(fs: Fs, sha: Content -> Digest, preserved: map<Path, Digest>) {
    forall p :: p in preserved ==>
      p.InJob? && p.file != TargetDisk && Regular(fs, p) && preserved[p] == sha(InodeOf(fs, p).content)
  }

  lemma {:induction false} RowsSelect(fs: Fs, rows: seq<Row>)
    requires AddRows(fs, rows).Some?
    ensures forall name :: name in AddRows(fs, rows).value ==>
              var input := AddRows(fs, rows).value[name];
              Regular(fs, input.path) && input.ino == fs.names[input.path].ino
  {
    if rows != [] {
      RowsSelect(fs, rows[..|rows| - 1]);
    }
  }

  predicate GoodPart(fs: Fs, sha: Content -> Digest, part: Part) {
    && GoodRun(fs, part.run) && GoodEvidence(fs, sha, part.evidence)
    && (part.run.action == Delete <==> part.target.Some?)
    && (part.target.Some? ==> GoodTarget(fs, part.target.value) && part.target.value.path == Disk(part.run.job))
  }

  lemma PartSelects(fs: Fs, sha: Content -> Digest, job: nat, r: Receipt)
    requires Regular(fs, InJob(job, ReceiptJson)) && PartOf(fs, sha, job, r).Some?
    ensures PartOf(fs, sha, job, r).value.run.job == job && GoodPart(fs, sha, PartOf(fs, sha, job, r).value)
  {
    RowsSelect(fs, RowsOf(InodeOf(fs, InJob(job, InputManifest)).content));
  }

  lemma SelectsOneMore(fs: Fs, sha: Content -> Digest, jobs: seq<nat>, plan: Plan, part: Part)
    requires Selection(fs, sha, jobs, plan) && GoodPart(fs, sha, part) && forall j :: j in jobs ==> j < part.run.job
    ensures Selection(fs, sha, jobs + [part.run.job], Append(plan, part))
  {
    var runs := plan.runs + [part.run];
    assert runs[..|runs| - 1] == plan.runs;
    if part.target.Some? {
      assert Paths(plan.targets + [part.target.value]) == Paths(plan.targets) + [Disk(part.run.job)];
    }
  }

  lemma {:induction false} JobsSelect(fs: Fs, campaign: nat, sha: Content -> Digest, jobs: seq<nat>)
    requires AddJobs(fs, campaign, sha, jobs).Some?
    requires forall i, j :: 0 <= i < j < |jobs| ==> jobs[i] < jobs[j]
    ensures Selection(fs, sha, jobs, AddJobs(fs, campaign, sha, jobs).value)
  {
    if jobs != [] {
      var before, job := jobs[..|jobs| - 1], jobs[|jobs| - 1];
      JobsSelect(fs, campaign, sha, before);
      var plan := AddJobs(fs, campaign, sha, before).value;
      assert before + [job] == jobs;
      match Member(fs, campaign, job) {
        case Ours(r) =>
          PartSelects(fs, sha, job, r);
          SelectsOneMore(fs, sha, before, plan, PartOf(fs, sha, job, r).value);
        case NotOurs => assert Selection(fs, sha, jobs, plan);
      }
    }
  }

  // ---------- planning again after part of it was carried out ----------

  function RedoRun(run: JobRun, gone: set<Path>): JobRun {
    if run.action == Delete && Disk(run.job) in gone then run.(action := AlreadyAbsent) else run
  }

  function RedoRuns(runs: seq<JobRun>, gone: set<Path>): seq<JobRun> {
    seq(|runs|, i requires 0 <= i < |runs| => RedoRun(runs[i], gone))
  }

  function Remaining(targets: seq<Target>, gone: set<Path>): seq<Target> {
    if targets == [] then []
    else
      var last := targets[|targets| - 1];
      var before := Remaining(targets[..|targets| - 1], gone);
      if last.path in gone then before else before + [last]
  }

  function Redo(plan: Plan, gone: set<Path>): Plan {
    Plan(RedoRuns(plan.runs, gone), Remaining(plan.targets, gone), plan.preserved)
  }

  predicate RunSpared(run: JobRun, gone: set<Path>) {
    && (run.ordinal == 1 ==> Disk(run.job) !in gone)
    && forall name :: name in run.inputs ==> run.inputs[name].path !in gone
  }

  /** Paths whose removal a plan can bear: disks of their own, of no kept run, and no input of any run. */
  predicate Spared(fs: Fs, runs: seq<JobRun>, gone: set<Path>) {
    && (forall p :: p in gone ==> Expendable(fs, p))
    && forall i :: 0 <= i < |runs| ==> RunSpared(runs[i], gone)
  }

  lemma RegularWithout(fs: Fs, gone: set<Path>, p: Path)
    requires forall q :: q in gone ==> Expendable(fs, q)
    ensures Real(Without(fs, gone), p) == Real(fs, p)
    ensures Regular(Without(fs, gone), p) <==> Regular(fs, p) && p !in gone
    ensures Regular(Without(fs, gone), p) ==> InodeOf(Without(fs, gone), p) == InodeOf(fs, p)
  {
  }

  lemma {:induction false} RowsAgain(fs: Fs, rows: seq<Row>, gone: set<Path>)
    requires forall q :: q in gone ==> Expendable(fs, q)
    requires AddRows(fs, rows).Some?
    requires forall name :: name in AddRows(fs, rows).value ==> AddRows(fs, rows).value[name].path !in gone
    ensures AddRows(Without(fs, gone), rows) == AddRows(fs, rows)
  {
    if rows != [] {
      var before, row := rows[..|rows| - 1], rows[|rows| - 1];
      var inputs := AddRows(fs, rows).value;
      forall name | name in AddRows(fs, before).value ensures AddRows(fs, before).value[name].path !in gone {
        assert inputs[name] == AddRows(fs, before).value[name];
      }
      RowsAgain(fs, before, gone);
      if row.columns == 3 {
        RegularWithout(fs, gone, row.source);
        RegularWithout(fs, gone, Real(fs, row.source));
        assert inputs[row.name].path == Real(fs, row.source);
      }
    }
  }

  lemma HashAgain(fs: Fs, sha: Content -> Digest, r: Receipt, job: nat, gone: set<Path>, file: JobFile)
    requires (forall q :: q in gone ==> Expendable(fs, q)) && file != TargetDisk
    ensures HashMatches(Without(fs, gone), sha, r, job, file) <==> HashMatches(fs, sha, r, job, file)
    ensures Says(Without(fs, gone), InJob(job, file)) <==> Says(fs, InJob(job, file))
  {
    RegularWithout(fs, gone, InJob(job, file));
  }

  lemma RecordsAgain(fs: Fs, sha: Content -> Digest, r: Receipt, job: nat, gone: set<Path>)
    requires forall q :: q in gone ==> Expendable(fs, q)
    ensures RecordsAgree(Without(fs, gone), sha, r, job) <==> RecordsAgree(fs, sha, r, job)
  {
    forall file: JobFile | file != TargetDisk
      ensures HashMatches(Without(fs, gone), sha, r, job, file) <==> HashMatches(fs, sha, r, job, file)
      ensures Says(Without(fs, gone), InJob(job, file)) <==> Says(fs, InJob(job, file))
    {
      HashAgain(fs, sha, r, job, gone, file);
    }
    RegularWithout(fs, gone, InJob(job, BootTiming));
  }

  lemma CheckAgain(fs: Fs, sha: Content -> Digest, r: Receipt, job: nat, gone: set<Path>)
    requires forall q :: q in gone ==> Expendable(fs, q)
    requires CheckedInputs(fs, sha, r, job).Some?
    requires forall name :: name in CheckedInputs(fs, sha, r, job).value ==>
               CheckedInputs(fs, sha, r, job).value[name].path !in gone
    ensures CheckedInputs(Without(fs, gone), sha, r, job) == CheckedInputs(fs, sha, r, job)
  {
    RecordsAgain(fs, sha, r, job, gone);
    RegularWithout(fs, gone, InJob(job, InputManifest));
    RowsAgain(fs, RowsOf(InodeOf(fs, InJob(job, InputManifest)).content), gone);
  }

  lemma WalkAgain(fs: Fs, sha: Content -> Digest, job: nat, gone: set<Path>)
    requires forall q :: q in gone ==> Expendable(fs, q)
    requires Walkable(fs, job)
    ensures Walkable(Without(fs, gone), job) && Preserved(Without(fs, gone), sha, job) == Preserved(fs, sha, job)
  {
    assert Walk(Without(fs, gone), job) == Walk(fs, job);
  }

  lemma MetadataAgain(fs: Fs, p: Path, gone: set<Path>)
    requires forall q :: q in gone ==> Expendable(fs, q)
    requires Metadata(fs, p).Some? && p !in gone
    ensures Metadata(Without(fs, gone), p) == Metadata(fs, p)
  {
    var ino := fs.names[p].ino;
    forall q | q in Links(Without(fs, gone), ino) ensures q in Links(fs, ino) {
    }
    assert Links(Without(fs, gone), ino) == {p};
  }

  function RedoPart(part: Part, gone: set<Path>): Part {
    Part(RedoRun(part.run, gone), if part.target.Some? && part.target.value.path in gone then None else part.target,
         part.evidence)
  }

  function RedoDisk(job: nat, disk: DiskPlan, gone: set<Path>): DiskPlan {
    if Disk(job) in gone then DiskPlan(AlreadyAbsent, None) else disk
  }

  lemma DiskAgain(fs: Fs, job: nat, ordinal: int, image: nat, gone: set<Path>)
    requires forall q :: q in gone ==> Expendable(fs, q)
    requires DiskOf(fs, job, ordinal, image).Some? && (ordinal == 1 ==> Disk(job) !in gone)
    ensures DiskOf(Without(fs, gone), job, ordinal, image)
            == Some(RedoDisk(job, DiskOf(fs, job, ordinal, image).value, gone))
    ensures Labelled(fs, job, DiskOf(fs, job, ordinal, image).value, gone)
  {
    if Disk(job) in fs.names && Disk(job) !in gone {
      MetadataAgain(fs, Disk(job), gone);
    }
  }

  /** A disk to delete is the job's own, and only such a disk is gone. */
  predicate Labelled(fs: Fs, job: nat, disk: DiskPlan, gone: set<Path>) {
    && (disk.action == Delete <==> disk.target.Some?)
    && (disk.target.Some? ==> disk.target.value.path == Disk(job))
    && (Disk(job) in gone ==> disk.action == Delete)
  }

  lemma RedoAssembled(fs: Fs, job: nat, ordinal: int, receiptSha: Digest, inputs: map<InputName, Input>, disk: DiskPlan,
                      evidence: map<Path, Digest>, gone: set<Path>)
    requires Labelled(fs, job, disk, gone)
    ensures RedoPart(Assemble(job, ordinal, receiptSha, inputs, disk, evidence), gone)
            == Assemble(job, ordinal, receiptSha, inputs, RedoDisk(job, disk, gone), evidence)
  {
  }

  predicate SameEvidence(fs: Fs, now: Fs, sha: Content -> Digest, job: nat, r: Receipt) {
    var receipt := InJob(job, ReceiptJson);
    && CheckedInputs(now, sha, r, job) == CheckedInputs(fs, sha, r, job)
    && Regular(now, receipt) && Regular(fs, receipt) && InodeOf(now, receipt) == InodeOf(fs, receipt)
    && Walkable(now, job) && Walkable(fs, job) && Preserved(now, sha, job) == Preserved(fs, sha, job)
  }

  lemma EvidenceAgain(fs: Fs, sha: Content -> Digest, job: nat, r: Receipt, gone: set<Path>)
    requires forall q :: q in gone ==> Expendable(fs, q)
    requires Regular(fs, InJob(job, ReceiptJson)) && PartOf(fs, sha, job, r).Some?
    requires RunSpared(PartOf(fs, sha, job, r).value.run, gone)
    ensures SameEvidence(fs, Without(fs, gone), sha, job, r)
  {
    CheckAgain(fs, sha, r, job, gone);
    WalkAgain(fs, sha, job, gone);
    RegularWithout(fs, gone, InJob(job, ReceiptJson));
  }

  /** The same run, marked as already done if its disk is gone. */
  lemma PartAgain(fs: Fs, sha: Content -> Digest, job: nat, r: Receipt, gone: set<Path>, now: Fs)
    requires forall q :: q in gone ==> Expendable(fs, q)
    requires Regular(fs, InJob(job, ReceiptJson)) && PartOf(fs, sha, job, r).Some?
    requires RunSpared(PartOf(fs, sha, job, r).value.run, gone)
    requires now == Without(fs, gone) && SameEvidence(fs, now, sha, job, r)
    ensures PartOf(now, sha, job, r) == Some(RedoPart(PartOf(fs, sha, job, r).value, gone))
  {
    var inputs := CheckedInputs(fs, sha, r, job).value;
    var disk := DiskOf(fs, job, r.ordinal, inputs[Image].ino).value;
    DiskAgain(fs, job, r.ordinal, inputs[Image].ino, gone);
    RedoAssembled(fs, job, r.ordinal, sha(InodeOf(fs, InJob(job, ReceiptJson)).content), inputs, disk,
                  Preserved(fs, sha, job), gone);
  }

  lemma RedoAppend(plan: Plan, part: Part, gone: set<Path>)
    ensures Redo(Append(plan, part), gone) == Append(Redo(plan, gone), RedoPart(part, gone))
  {
    assert RedoRuns(plan.runs + [part.run], gone) == RedoRuns(plan.runs, gone) + [RedoRun(part.run, gone)];
    if part.target.Some? {
      RemainingSnoc(plan.targets, part.target.value, gone);
    }
  }

  lemma RemainingSnoc(targets: seq<Target>, last: Target, gone: set<Path>)
    ensures Remaining(targets + [last], gone) ==
            if last.path in gone then Remaining(targets, gone) else Remaining(targets, gone) + [last]
  {
    assert (targets + [last])[..|targets|] == targets;
  }

  lemma {:induction false} JobsAgain(fs: Fs, campaign: nat, sha: Content -> Digest, jobs: seq<nat>, gone: set<Path>)
    requires AddJobs(fs, campaign, sha, jobs).Some?
    requires Spared(fs, AddJobs(fs, campaign, sha, jobs).value.runs, gone)
    ensures AddJobs(Without(fs, gone), campaign, sha, jobs) == Some(Redo(AddJobs(fs, campaign, sha, jobs).value, gone))
  {
    if jobs == [] {
      assert RedoRuns([], gone) == [];
    } else {
      var before, job := jobs[..|jobs| - 1], jobs[|jobs| - 1];
      var plan, next := AddJobs(fs, campaign, sha, before).value, AddJobs(fs, campaign, sha, jobs).value;
      assert plan.runs == next.runs[..|plan.runs|];
      assert Spared(fs, plan.runs, gone) by {
        forall i | 0 <= i < |plan.runs| ensures plan.runs[i] == next.runs[i] {
        }
      }
      JobsAgain(fs, campaign, sha, before, gone);
      MemberAgain(fs, campaign, job, gone);
      match Member(fs, campaign, job) {
        case Ours(r) =>
          assert next.runs[|plan.runs|] == PartOf(fs, sha, job, r).value.run;
          EvidenceAgain(fs, sha, job, r, gone);
          PartAgain(fs, sha, job, r, gone, Without(fs, gone));
          RedoAppend(plan, PartOf(fs, sha, job, r).value, gone);
        case NotOurs =>
      }
    }
  }

  lemma MemberAgain(fs: Fs, campaign: nat, job: nat, gone: set<Path>)
    requires forall q :: q in gone ==> Expendable(fs, q)
    ensures Member(fs, campaign, job).Ours? ==> Member(Without(fs, gone), campaign, job) == Member(fs, campaign, job)
    ensures Member(fs, campaign, job).NotOurs? ==> Member(Without(fs, gone), campaign, job) == NotOurs
  {
    var p := InJob(job, ReceiptJson);
    RegularWithout(fs, gone, p);
    RegularWithout(fs, gone, Real(fs, p));
  }

  // ---------- the guarantees ----------

  /** The paths of the first `k` targets. */
  function Gone(plan: Plan, k: nat): set<Path>
    requires k <= |plan.targets|
  {
    set i | 0 <= i < k :: plan.targets[i].path
  }

  lemma {:induction false} DeletionsAre(runs: seq<JobRun>, p: Path)
    ensures p in Deletions(runs) <==> exists i :: 0 <= i < |runs| && runs[i].action == Delete && Disk(runs[i].job) == p
  {
    if runs != [] {
      var before, last := runs[..|runs| - 1], runs[|runs| - 1];
      DeletionsAre(before, p);
      if i :| 0 <= i < |runs| && runs[i].action == Delete && Disk(runs[i].job) == p && i < |before| {
        assert before[i] == runs[i];
      }
      if p in Deletions(before) {
        var i :| 0 <= i < |before| && before[i].action == Delete && Disk(before[i].job) == p;
        assert runs[i] == before[i];
      }
    }
  }

  lemma {:induction false} DeletionsDiffer(runs: seq<JobRun>)
    requires forall i, j :: 0 <= i < j < |runs| ==> runs[i].job < runs[j].job
    ensures forall i, j :: 0 <= i < j < |Deletions(runs)| ==> Deletions(runs)[i] != Deletions(runs)[j]
  {
    if runs != [] {
      var before, last := runs[..|runs| - 1], runs[|runs| - 1];
      DeletionsDiffer(before);
      DeletionsAre(before, Disk(last.job));
      assert Disk(last.job) !in Deletions(before);
      forall i | 0 <= i < |Deletions(before)| ensures Deletions(before)[i] != Disk(last.job) {
        assert Deletions(before)[i] in Deletions(before);
      }
    }
  }

  predicate Planned(fs: Fs, campaign: nat, sha: Content -> Digest, plan: Plan) {
    PlanOf(fs, campaign, sha) == Some(plan)
  }

  lemma PlanSelects(fs: Fs, campaign: nat, sha: Content -> Digest, plan: Plan)
    requires Wf(fs) && Planned(fs, campaign, sha, plan)
    ensures Selection(fs, sha, fs.jobs, plan) && InputsClear(plan)
    ensures forall i, j :: 0 <= i < j < |plan.targets| ==> plan.targets[i].path != plan.targets[j].path
  {
    JobsSelect(fs, campaign, sha, fs.jobs);
    DeletionsDiffer(plan.runs);
    forall i | 0 <= i < |plan.targets| ensures plan.targets[i].path == Deletions(plan.runs)[i] {
      assert Paths(plan.targets)[i] == plan.targets[i].path;
    }
  }

  lemma TargetIsDeletion(fs: Fs, sha: Content -> Digest, jobs: seq<nat>, plan: Plan, i: nat)
    requires Selection(fs, sha, jobs, plan) && i < |plan.targets|
    ensures exists j :: 0 <= j < |plan.runs|
              && plan.runs[j].action == Delete && Disk(plan.runs[j].job) == plan.targets[i].path
  {
    assert Paths(plan.targets)[i] in Deletions(plan.runs);
    DeletionsAre(plan.runs, plan.targets[i].path);
  }

  /** Removing targets spares every run: its kept disk, and whatever it was started from. */
  lemma TargetsSpare(fs: Fs, campaign: nat, sha: Content -> Digest, plan: Plan, k: nat)
    requires Wf(fs) && Planned(fs, campaign, sha, plan) && k <= |plan.targets|
    ensures Spared(fs, plan.runs, Gone(plan, k))
  {
    PlanSelects(fs, campaign, sha, plan);
    forall r | 0 <= r < |plan.runs| ensures RunSpared(plan.runs[r], Gone(plan, k)) {
      var run := plan.runs[r];
      assert GoodRun(fs, run);
      forall i | 0 <= i < k && run.ordinal == 1 ensures plan.targets[i].path != Disk(run.job) {
        TargetIsDeletion(fs, sha, fs.jobs, plan, i);
        var j :| 0 <= j < |plan.runs|
          && plan.runs[j].action == Delete && Disk(plan.runs[j].job) == plan.targets[i].path;
        assert j == r || plan.runs[j].job != run.job;
      }
      forall i, name | 0 <= i < k && name in run.inputs ensures plan.targets[i].path != run.inputs[name].path {
        assert GoodTarget(fs, plan.targets[i]);
      }
    }
    forall i | 0 <= i < k ensures Expendable(fs, plan.targets[i].path) {
      assert GoodTarget(fs, plan.targets[i]);
    }
  }

  /** Cut off after any number of removals, no disk of a first run, no preserved file, no recorded input and nothing
      else that is no removed target has lost its content. */
  lemma NothingElseIsLost(fs: Fs, campaign: nat, sha: Content -> Digest, plan: Plan, k: nat)
    requires Wf(fs) && Planned(fs, campaign, sha, plan) && k <= |plan.targets|
    ensures var now := Without(fs, Gone(plan, k));
      && (forall r :: 0 <= r < |plan.runs| && plan.runs[r].ordinal == 1 ==>
            && Read(now, Disk(plan.runs[r].job)).Some?
            && Read(now, Disk(plan.runs[r].job)) == Read(fs, Disk(plan.runs[r].job)))
      && (forall p :: p in plan.preserved ==> Read(now, p) == Read(fs, p) && Read(now, p).Some?)
      && (forall r, name :: 0 <= r < |plan.runs| && name in plan.runs[r].inputs ==>
            Read(now, plan.runs[r].inputs[name].path) == Read(fs, plan.runs[r].inputs[name].path)
            && Read(now, plan.runs[r].inputs[name].path).Some?)
      && (forall p :: Real(fs, p) !in Gone(plan, k) ==> Read(now, p) == Read(fs, p))
  {
    var gone := Gone(plan, k);
    PlanSelects(fs, campaign, sha, plan);
    TargetsSpare(fs, campaign, sha, plan, k);
    forall p | Real(fs, p) !in gone ensures Read(Without(fs, gone), p) == Read(fs, p) {
      RegularWithout(fs, gone, p);
      RegularWithout(fs, gone, Real(fs, p));
    }
    forall r | 0 <= r < |plan.runs| ensures RunSpared(plan.runs[r], gone) && GoodRun(fs, plan.runs[r]) {
    }
    forall p | p in plan.preserved ensures p !in gone && Regular(fs, p) {
    }
  }

  /** Nor has any file that some input manifest declares, of this campaign or another, whatever name it is declared
      by. */
  lemma DeclaredInputsSurvive(fs: Fs, campaign: nat, sha: Content -> Digest, plan: Plan, k: nat, p: Path, row: Row)
    requires Wf(fs) && Planned(fs, campaign, sha, plan) && k <= |plan.targets|
    requires p in fs.names && IsManifest(p) && Regular(fs, p) && row in RowsOf(InodeOf(fs, p).content)
    requires row.columns >= 2 && row.absolute
    ensures Read(Without(fs, Gone(plan, k)), row.source) == Read(fs, row.source) && row.spelled !in Gone(plan, k)
  {
    PlanSelects(fs, campaign, sha, plan);
    assert ManifestClear(fs, plan.targets, p) && RowClear(fs, plan.targets, row);
    forall i | 0 <= i < k ensures plan.targets[i].path != Real(fs, row.source) {
      assert GoodTarget(fs, plan.targets[i]);
    }
    NothingElseIsLost(fs, campaign, sha, plan, k);
  }

  lemma {:induction false} RemainingIn(targets: seq<Target>, gone: set<Path>, t: Target)
    requires t in Remaining(targets, gone)
    ensures t in targets && t.path !in gone
  {
    if targets != [] && t in Remaining(targets[..|targets| - 1], gone) {
      RemainingIn(targets[..|targets| - 1], gone, t);
    }
  }

  lemma FewerCandidates(targets: seq<Target>, gone: set<Path>, ino: nat)
    requires Candidate(Remaining(targets, gone), ino)
    ensures Candidate(targets, ino)
  {
    var left := Remaining(targets, gone);
    var i :| 0 <= i < |left| && left[i].ino == ino;
    RemainingIn(targets, gone, left[i]);
    var j :| 0 <= j < |targets| && targets[j] == left[i];
    assert targets[j].ino == ino;
  }

  lemma ScanAgain(fs: Fs, targets: seq<Target>, gone: set<Path>)
    requires forall q :: q in gone ==> Expendable(fs, q)
    requires ScanClear(fs, targets)
    ensures ScanClear(Without(fs, gone), Remaining(targets, gone))
  {
    var now, left := Without(fs, gone), Remaining(targets, gone);
    forall p | p in now.names && IsManifest(p) ensures ManifestClear(now, left, p) {
      assert ManifestClear(fs, targets, p);
      RegularWithout(fs, gone, p);
      forall row | row in RowsOf(InodeOf(fs, p).content) ensures RowClear(now, left, row) {
        RowAgain(fs, targets, gone, row);
      }
    }
  }

  lemma RowAgain(fs: Fs, targets: seq<Target>, gone: set<Path>, row: Row)
    requires forall q :: q in gone ==> Expendable(fs, q)
    requires RowClear(fs, targets, row)
    ensures RowClear(Without(fs, gone), Remaining(targets, gone), row)
  {
    var now, left := Without(fs, gone), Remaining(targets, gone);
    if row.columns >= 2 && row.absolute {
      RegularWithout(fs, gone, row.source);
      var p := Real(fs, row.source);
      if p in now.names && now.names[p].Hard? && Candidate(left, now.names[p].ino) {
        FewerCandidates(targets, gone, now.names[p].ino);
      }
      forall i | 0 <= i < |left| ensures left[i].path != row.spelled {
        RemainingIn(targets, gone, left[i]);
      }
    }
  }

  /** Planning again after `k` removals succeeds and gives the same plan without them. */
  lemma Replan(fs: Fs, campaign: nat, sha: Content -> Digest, plan: Plan, k: nat)
    requires Wf(fs) && Planned(fs, campaign, sha, plan) && k <= |plan.targets|
    ensures Planned(Without(fs, Gone(plan, k)), campaign, sha, Redo(plan, Gone(plan, k)))
  {
    var gone := Gone(plan, k);
    TargetsSpare(fs, campaign, sha, plan, k);
    JobsAgain(fs, campaign, sha, fs.jobs, gone);
    ScanAgain(fs, plan.targets, gone);
    var redone := Redo(plan, gone);
    forall n | 1 <= n <= RUNS ensures HasOrdinal(redone.runs, n) {
      assert HasOrdinal(plan.runs, n);
      var i :| 0 <= i < |plan.runs| && plan.runs[i].ordinal == n;
      assert redone.runs[i].ordinal == n;
    }
    forall i, name | 0 <= i < |redone.runs| && name in redone.runs[i].inputs
      ensures !Candidate(redone.targets, redone.runs[i].inputs[name].ino)
    {
      assert redone.runs[i].inputs == plan.runs[i].inputs;
      if Candidate(redone.targets, redone.runs[i].inputs[name].ino) {
        FewerCandidates(plan.targets, gone, redone.runs[i].inputs[name].ino);
      }
    }
  }

  lemma {:induction false} RemainingSuffix(targets: seq<Target>, gone: set<Path>, k: nat)
    requires k <= |targets|
    requires forall i :: 0 <= i < |targets| ==> (targets[i].path in gone <==> i < k)
    ensures Remaining(targets, gone) == targets[k..]
  {
    if targets != [] {
      var n := |targets| - 1;
      RemainingSuffix(targets[..n], gone, if k <= n then k else n);
      if k <= n {
        assert targets[..n][k..] + [targets[n]] == targets[k..];
      }
    }
  }

  /** A plan made after a crash holds exactly the targets that are left, and the same preserved files; after completion
      it holds none. */
  lemma ResumesExactly(fs: Fs, campaign: nat, sha: Content -> Digest, plan: Plan, k: nat)
    requires Wf(fs) && Planned(fs, campaign, sha, plan) && k <= |plan.targets|
    ensures var again := PlanOf(Without(fs, Gone(plan, k)), campaign, sha);
            again.Some? && again.value.targets == plan.targets[k..] && again.value.preserved == plan.preserved
  {
    Replan(fs, campaign, sha, plan, k);
    PlanSelects(fs, campaign, sha, plan);
    RemainingSuffix(plan.targets, Gone(plan, k), k);
  }

  // ---------- what is left in the end ----------

  lemma {:induction false} FewOrdinals(runs: seq<JobRun>)
    ensures |set i | 0 <= i < |runs| :: runs[i].ordinal| <= |runs|
  {
    if runs != [] {
      var before, last := runs[..|runs| - 1], runs[|runs| - 1];
      FewOrdinals(before);
      var all, some := set i | 0 <= i < |runs| :: runs[i].ordinal, set i | 0 <= i < |before| :: before[i].ordinal;
      assert all == some + {last.ordinal} by {
        assert forall i :: 0 <= i < |before| ==> before[i] == runs[i];
        assert runs[|runs| - 1].ordinal in all;
      }
    }
  }

  lemma {:induction false} ManyOrdinals(n: nat, ordinals: set<int>)
    requires forall m :: 1 <= m <= n ==> m in ordinals
    ensures n <= |ordinals|
    decreases n
  {
    if n > 0 {
      ManyOrdinals(n - 1, ordinals - {n});
    }
  }

  /** Twenty runs that cover twenty ordinals have no ordinal twice. */
  lemma OneRunEach(runs: seq<JobRun>, i: nat, j: nat)
    requires CoversCampaign(runs) && i < j < |runs|
    ensures runs[i].ordinal != runs[j].ordinal
  {
    if runs[i].ordinal == runs[j].ordinal {
      var others := runs[..j] + runs[j + 1..];
      var ordinals := set k | 0 <= k < |others| :: others[k].ordinal;
      FewOrdinals(others);
      forall m | 1 <= m <= RUNS ensures m in ordinals {
        OrdinalElsewhere(runs, i, j, m);
      }
      ManyOrdinals(RUNS, ordinals);
    }
  }

  lemma OrdinalElsewhere(runs: seq<JobRun>, i: nat, j: nat, m: int)
    requires CoversCampaign(runs) && i < j < |runs| && runs[i].ordinal == runs[j].ordinal && 1 <= m <= RUNS
    ensures HasOrdinal(runs[..j] + runs[j + 1..], m)
  {
    var others := runs[..j] + runs[j + 1..];
    assert HasOrdinal(runs, m);
    var k :| 0 <= k < |runs| && runs[k].ordinal == m;
    var at := if k < j then k else if k == j then i else k - 1;
    assert others[at].ordinal == m;
  }

  /** When all targets are gone, the disk of exactly one run of the campaign is left: that of the first, which is not
      the image it was started from. */
  lemma OneDiskRemains(fs: Fs, campaign: nat, sha: Content -> Digest, plan: Plan, i: nat)
    requires Wf(fs) && Planned(fs, campaign, sha, plan) && i < |plan.runs|
    ensures Disk(plan.runs[i].job) in Without(fs, Gone(plan, |plan.targets|)).names <==> plan.runs[i].ordinal == 1
    ensures forall j :: 0 <= j < |plan.runs| && j != i ==> plan.runs[j].ordinal != plan.runs[i].ordinal
    ensures var run := plan.runs[i];
            run.ordinal == 1 ==> Regular(fs, Disk(run.job)) && Image in run.inputs
                                 && fs.names[Disk(run.job)].ino != run.inputs[Image].ino
  {
    PlanSelects(fs, campaign, sha, plan);
    TargetsSpare(fs, campaign, sha, plan, |plan.targets|);
    var run := plan.runs[i];
    assert GoodRun(fs, run) && RunSpared(run, Gone(plan, |plan.targets|));
    if run.action == Delete {
      DeletionsAre(plan.runs, Disk(run.job));
      var k :| 0 <= k < |Paths(plan.targets)| && Paths(plan.targets)[k] == Disk(run.job);
      assert plan.targets[k].path == Disk(run.job);
    }
    forall j | 0 <= j < |plan.runs| && j != i ensures plan.runs[j].ordinal != run.ordinal {
      if i < j {
        OneRunEach(plan.runs, i, j);
      } else {
        OneRunEach(plan.runs, j, i);
      }
    }
  }
}
