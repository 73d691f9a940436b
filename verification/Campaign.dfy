/** scripts/hvf_boot_performance_report.py and hvf_nvme_performance_report.py: which campaigns are accepted, how their
    runs are paired, and what the comparison of two campaigns claims. */
module Campaign {
  import opened Results
  import opened Sorting
  import opened Statistics

  datatype Role = Baseline | Candidate

  datatype Mode = AA | AB

  /** A checked attempt. `common` stands for the fields all runs must share, `binary` and `source` for the sealed
      build. */
  datatype Run = Run(id: nat, ordinal: nat, expected: nat, role: Role, started: int, finished: int, elapsed: real,
                     common: nat, binary: nat, source: nat)

  /** `run` is None when the manifest, the environment or the receipt could not be read. */
  datatype Attempt = Attempt(id: nat, run: Option<Run>)

  /** What `_manifest` and `_validate_receipt` demand of one run. */
  predicate Valid(r: Run) {
    && 6 <= r.expected && r.expected % 2 == 0 && 1 <= r.ordinal <= r.expected
    && r.started < r.finished && r.elapsed > 0.0
  }

  // ---------- what an accepted campaign is ----------

  predicate Covers(c: seq<Run>) { forall i :: 0 <= i < |c| ==> c[i].ordinal == i + 1 && c[i].expected == |c| }

  predicate Paired(c: seq<Run>) { forall k :: 0 <= k < |c| / 2 ==> c[2 * k].role != c[2 * k + 1].role }

  predicate Disjoint(c: seq<Run>) { forall i, j :: 0 <= i < j < |c| ==> c[i].finished <= c[j].started }

  predicate SameBuild(a: Run, b: Run) { a.binary == b.binary && a.source == b.source }

  /** All runs agree in the common fields, all runs of a role in the build; the two builds are one in an AA campaign
      and differ in both parts in an AB campaign. */
  predicate Comparable(c: seq<Run>, mode: Mode) {
    forall i, j :: 0 <= i < |c| && 0 <= j < |c| ==>
      && c[i].common == c[j].common
      && (c[i].role == c[j].role || mode == AA ==> SameBuild(c[i], c[j]))
      && (c[i].role != c[j].role && mode == AB ==> c[i].binary != c[j].binary && c[i].source != c[j].source)
  }

  predicate WellRun(c: seq<Run>, mode: Mode) {
    && c != [] && (forall i :: 0 <= i < |c| ==> Valid(c[i]))
    && Covers(c) && Paired(c) && Disjoint(c) && Comparable(c, mode)
  }

  predicate Registered(attempts: seq<Attempt>) {
    && (forall i :: 0 <= i < |attempts| ==> attempts[i].run.Some? && Valid(attempts[i].run.value))
    && forall i, j :: 0 <= i < j < |attempts| ==> attempts[i].id != attempts[j].id
  }

  /** The run of an attempt goes by the attempt's job id. */
  function RunOf(a: Attempt): Run
    requires a.run.Some?
  {
    a.run.value.(id := a.id)
  }

  function Runs(attempts: seq<Attempt>): seq<Run>
    requires forall i :: 0 <= i < |attempts| ==> attempts[i].run.Some?
  {
    seq(|attempts|, i requires 0 <= i < |attempts| => RunOf(attempts[i]))
  }

  /** The registered attempts, put in some order. */
  predicate Arranges(c: seq<Run>, attempts: seq<Attempt>) {
    Registered(attempts) && multiset(c) == multiset(Runs(attempts))
  }

  // ---------- what load_campaign checks ----------

  function Ordinal(r: Run): real { r.ordinal as real }

  function Range(n: nat): seq<real> { seq(n, i => (i + 1) as real) }

  predicate ChecksNeighbours(c: seq<Run>) {
    forall i :: 0 < i < |c| ==>
      && (i % 2 == 1 ==> c[i - 1].role != c[i].role)
      && c[i - 1].started <= c[i].started && c[i - 1].finished <= c[i].started
  }

  function OfRole(c: seq<Run>, role: Role): seq<Run> {
    if c == [] then []
    else
      var before := OfRole(c[..|c| - 1], role);
      if c[|c| - 1].role == role then before + [c[|c| - 1]] else before
  }

  predicate OneBuild(side: seq<Run>) { side != [] && forall i :: 0 <= i < |side| ==> SameBuild(side[0], side[i]) }

  predicate ChecksIdentity(c: seq<Run>, mode: Mode)
    requires c != []
  {
    && (forall i :: 0 <= i < |c| ==> c[i].common == c[0].common)
    && var baseline, candidate := OfRole(c, Baseline), OfRole(c, Candidate);
    && OneBuild(baseline) && OneBuild(candidate)
    && (mode == AA ==> SameBuild(baseline[0], candidate[0]))
    && (mode == AB ==> baseline[0].binary != candidate[0].binary && baseline[0].source != candidate[0].source)
  }

  lemma {:induction false} OfRoleIs(c: seq<Run>, role: Role, r: Run)
    ensures r in OfRole(c, role) <==> r in c && r.role == role
  {
    if c != [] {
      OfRoleIs(c[..|c| - 1], role, r);
      assert c == c[..|c| - 1] + [c[|c| - 1]];
    }
  }

  /** Checking each run against its predecessor is enough: any two runs are disjoint in time. */
  lemma {:induction false} NeighboursSuffice(c: seq<Run>, i: nat, j: nat)
    requires ChecksNeighbours(c) && i < j < |c| && forall k :: 0 <= k < |c| ==> Valid(c[k])
    ensures c[i].finished <= c[j].started
    decreases j - i
  {
    if i + 1 < j {
      NeighboursSuffice(c, i, j - 1);
      assert c[j - 1].finished <= c[j].started;
    }
  }

  lemma NeighboursAre(c: seq<Run>)
    requires |c| % 2 == 0 && forall k :: 0 <= k < |c| ==> Valid(c[k])
    ensures ChecksNeighbours(c) <==> Paired(c) && Disjoint(c)
  {
    if ChecksNeighbours(c) {
      forall i, j | 0 <= i < j < |c| ensures c[i].finished <= c[j].started {
        NeighboursSuffice(c, i, j);
      }
      forall k | 0 <= k < |c| / 2 ensures c[2 * k].role != c[2 * k + 1].role {
        assert (2 * k + 1) % 2 == 1;
      }
    }
    if Paired(c) && Disjoint(c) {
      forall i | 0 < i < |c| && i % 2 == 1 ensures c[i - 1].role != c[i].role {
        assert i - 1 == 2 * (i / 2);
      }
    }
  }

  lemma SideMembers(c: seq<Run>, role: Role, i: nat)
    requires i < |c| && c[i].role == role && OneBuild(OfRole(c, role))
    ensures SameBuild(OfRole(c, role)[0], c[i])
  {
    OfRoleIs(c, role, c[i]);
  }

  lemma IdentityIsComparable(c: seq<Run>, mode: Mode)
    requires c != [] && ChecksIdentity(c, mode)
    ensures Comparable(c, mode)
  {
    forall i | 0 <= i < |c| ensures SameBuild(OfRole(c, c[i].role)[0], c[i]) {
      SideMembers(c, c[i].role, i);
    }
  }

  lemma ComparableIsIdentity(c: seq<Run>, mode: Mode)
    requires |c| >= 2 && c[0].role != c[1].role && Comparable(c, mode)
    ensures ChecksIdentity(c, mode)
  {
    OfRoleIs(c, c[0].role, c[0]);
    OfRoleIs(c, c[1].role, c[1]);
    SideIn(c, Baseline, OfRole(c, Baseline));
    SideIn(c, Candidate, OfRole(c, Candidate));
  }

  lemma SideIn(c: seq<Run>, role: Role, side: seq<Run>)
    requires side == OfRole(c, role)
    ensures forall i :: 0 <= i < |side| ==> side[i] in c && side[i].role == role
  {
    forall i | 0 <= i < |side| ensures side[i] in c && side[i].role == role {
      assert side[i] in side;
      OfRoleIs(c, role, side[i]);
    }
  }

  // ---------- load_campaign ----------

  /** The checks on the runs once they are in order. */
  predicate Accepts(c: seq<Run>, mode: Mode) {
    && c != [] && |c| % 2 == 0 && (forall i :: 0 <= i < |c| ==> Valid(c[i]))
    && Covers(c) && ChecksNeighbours(c) && ChecksIdentity(c, mode)
  }

  lemma AcceptsIsWellRun(c: seq<Run>, mode: Mode)
    ensures Accepts(c, mode) <==> WellRun(c, mode)
  {
    if Accepts(c, mode) {
      NeighboursAre(c);
      IdentityIsComparable(c, mode);
    }
    if WellRun(c, mode) {
      assert Valid(c[0]) && c[0].expected == |c|;
      NeighboursAre(c);
      assert c[2 * 0].role != c[2 * 0 + 1].role;
      ComparableIsIdentity(c, mode);
    }
  }

  predicate SameSize(runs: seq<Run>, n: nat) { forall i :: 0 <= i < |runs| ==> runs[i].expected == n }

  predicate InSequence(c: seq<Run>, n: nat) { |c| == n && forall i :: 0 <= i < n ==> c[i].ordinal == i + 1 }

  lemma KeysAreRange(c: seq<Run>, n: nat)
    ensures Keys(c, Ordinal) == Range(n) <==> InSequence(c, n)
  {
    if Keys(c, Ordinal) == Range(n) {
      assert |c| == |Keys(c, Ordinal)| == n;
      forall i | 0 <= i < n ensures c[i].ordinal == i + 1 {
        assert Keys(c, Ordinal)[i] == Range(n)[i];
      }
    }
    if InSequence(c, n) {
      assert Keys(c, Ordinal) == Range(n);
    }
  }

  /** The ordinals cover 1..n exactly when the runs in order carry them one by one. */
  lemma OrdinalsInOrder(valid: seq<Run>, c: seq<Run>, n: nat)
    requires c == Sort(valid, Ordinal)
    ensures Sorted(Keys(valid, Ordinal)) == Range(n) <==> InSequence(c, n)
  {
    KeysOfSort(valid, Ordinal, Identity);
    KeysAreRange(c, n);
  }

  /** A well-run campaign can be found only by sorting. */
  lemma WellRunIsSorted(c: seq<Run>, mode: Mode, valid: seq<Run>)
    requires WellRun(c, mode) && multiset(c) == multiset(valid)
    ensures Sort(valid, Ordinal) == c
  {
    SortSorts(valid, Ordinal);
    SameLength(Sort(valid, Ordinal), c);
    OrderedUnique(Sort(valid, Ordinal), c, Ordinal, |c|);
  }

  predicate Distinct(ids: seq<nat>) { forall i, j :: 0 <= i < j < |ids| ==> ids[i] != ids[j] }

  function Ids(attempts: seq<Attempt>): seq<nat> { seq(|attempts|, i requires 0 <= i < |attempts| => attempts[i].id) }

  /** The first loop: the attempts that pass, and whether all did. */
  method Check(attempts: seq<Attempt>) returns (valid: seq<Run>, all: bool)
    ensures all <==> forall i :: 0 <= i < |attempts| ==> attempts[i].run.Some? && Valid(attempts[i].run.value)
    ensures all ==> valid == Runs(attempts)
    ensures forall i :: 0 <= i < |valid| ==> Valid(valid[i])
  {
    valid, all := [], true;
    for i := 0 to |attempts|
      invariant all <==> forall j :: 0 <= j < i ==> attempts[j].run.Some? && Valid(attempts[j].run.value)
      invariant all ==> |valid| == i && forall j :: 0 <= j < i ==> valid[j] == RunOf(attempts[j])
      invariant forall j :: 0 <= j < |valid| ==> Valid(valid[j])
    {
      var ok := false;
      if attempts[i].run.Some? {
        ok := CheckNumbers(attempts[i].run.value);
      }
      if ok {
        valid := valid + [RunOf(attempts[i])];
      } else {
        all := false;
      }
    }
  }

  /** The checks of one run's numbers. */
  method CheckNumbers(r: Run) returns (ok: bool)
    ensures ok <==> Valid(r)
  {
    if r.expected < 6 || r.expected % 2 != 0 || r.ordinal < 1 || r.ordinal > r.expected {
      return false;
    }
    return r.finished > r.started && r.elapsed > 0.0;
  }

  /** The loop over runs and their predecessors. */
  method CheckOrder(c: seq<Run>) returns (ok: bool)
    ensures ok <==> ChecksNeighbours(c)
  {
    ok := true;
    for i := 0 to |c|
      invariant ok <==> forall j :: 0 < j < i ==>
        && (j % 2 == 1 ==> c[j - 1].role != c[j].role)
        && c[j - 1].started <= c[j].started && c[j - 1].finished <= c[j].started
    {
      if i % 2 == 1 && c[i - 1].role == c[i].role {
        ok := false;
      }
      if i > 0 && (c[i].started < c[i - 1].started || c[i].started < c[i - 1].finished) {
        ok := false;
      }
    }
  }

  /** A campaign is accepted exactly when its attempts can be put in an order that makes it well run, and then in that
      order. */
  method LoadCampaign(attempts: seq<Attempt>, mode: Mode) returns (r: Option<seq<Run>>)
    ensures r.Some? ==> WellRun(r.value, mode) && Arranges(r.value, attempts)
    ensures forall c :: WellRun(c, mode) && Arranges(c, attempts) ==> r == Some(c)
  {
    if attempts == [] {
      EmptyIsNotWellRun(attempts, mode);
      return None;
    }
    var valid, all := Check(attempts);
    var distinct := Distinct(Ids(attempts));
    if !all || !distinct {
      assert !Registered(attempts) by {
        DistinctIds(attempts);
      }
      return None;
    }
    DistinctIds(attempts);
    var n := valid[0].expected;
    var consistent := SameSize(valid, n);
    var covers := Sorted(Keys(valid, Ordinal)) == Range(n);
    var c := Sort(valid, Ordinal);
    var inOrder := CheckOrder(c);
    LoadedInOrder(valid, c, n, mode);
    forall d | WellRun(d, mode) && Arranges(d, attempts) ensures d == c {
      WellRunIsSorted(d, mode, valid);
    }
    if !consistent || !covers || !inOrder || !ChecksIdentity(c, mode) {
      return None;
    }
    return Some(c);
  }

  lemma EmptyIsNotWellRun(attempts: seq<Attempt>, mode: Mode)
    requires attempts == []
    ensures forall c :: !(WellRun(c, mode) && Arranges(c, attempts))
  {
    forall c | WellRun(c, mode) && Arranges(c, attempts) ensures false {
      SameLength(c, Runs(attempts));
    }
  }

  lemma DistinctIds(attempts: seq<Attempt>)
    ensures Distinct(Ids(attempts)) <==> forall i, j :: 0 <= i < j < |attempts| ==> attempts[i].id != attempts[j].id
  {
    if Distinct(Ids(attempts)) {
      forall i, j | 0 <= i < j < |attempts| ensures attempts[i].id != attempts[j].id {
        assert Ids(attempts)[i] != Ids(attempts)[j];
      }
    }
  }

  lemma CoversIs(c: seq<Run>, n: nat)
    ensures SameSize(c, n) && InSequence(c, n) <==> Covers(c) && |c| == n
  {
    if Covers(c) && |c| == n {
      assert SameSize(c, n);
    }
  }

  /** The checks of the code, on the runs in order, against the definition. */
  lemma CodeAgrees(c: seq<Run>, n: nat, mode: Mode)
    requires c != [] && Valid(c[0]) && (forall i :: 0 <= i < |c| ==> Valid(c[i])) && (WellRun(c, mode) ==> |c| == n)
    ensures SameSize(c, n) && InSequence(c, n) && ChecksNeighbours(c) && ChecksIdentity(c, mode) <==> WellRun(c, mode)
  {
    CoversIs(c, n);
    AcceptsIsWellRun(c, mode);
    if SameSize(c, n) && InSequence(c, n) {
      assert c[0].expected == |c|;
    }
  }

  /** All that LoadCampaign needs to know about the runs it sorted. */
  lemma LoadedInOrder(valid: seq<Run>, c: seq<Run>, n: nat, mode: Mode)
    requires valid != [] && valid[0].expected == n && forall i :: 0 <= i < |valid| ==> Valid(valid[i])
    requires c == Sort(valid, Ordinal)
    ensures c != [] && multiset(c) == multiset(valid)
    ensures WellRun(c, mode) <==>
              && SameSize(valid, n) && Sorted(Keys(valid, Ordinal)) == Range(n)
              && ChecksNeighbours(c) && ChecksIdentity(c, mode)
  {
    SortSorts(valid, Ordinal);
    OrdinalsInOrder(valid, c, n);
    SameMembers(valid, c, n);
    if WellRun(c, mode) {
      assert valid[0] in multiset(c);
      var i :| 0 <= i < |c| && c[i] == valid[0];
      assert c[i].expected == |c|;
    }
    CodeAgrees(c, n, mode);
  }

  lemma SameMembers(valid: seq<Run>, c: seq<Run>, n: nat)
    requires multiset(c) == multiset(valid) && forall i :: 0 <= i < |valid| ==> Valid(valid[i])
    ensures forall i :: 0 <= i < |c| ==> Valid(c[i])
    ensures SameSize(valid, n) <==> SameSize(c, n)
  {
    forall i | 0 <= i < |c| ensures c[i] in valid {
      assert c[i] in multiset(valid);
    }
    forall i | 0 <= i < |valid| ensures valid[i] in c {
      assert valid[i] in multiset(c);
    }
  }

  // ---------- _summary and _paired ----------

  /** `next(job for job in pair if ...)`: None where Python would raise StopIteration. */
  function Next(pair: seq<Run>, role: Role): Option<Run> {
    if pair == [] then None else if pair[0].role == role then Some(pair[0]) else Next(pair[1..], role)
  }

  function Pair(c: seq<Run>, k: nat): seq<Run>
    requires 2 * k + 1 < |c|
  {
    c[2 * k..2 * k + 2]
  }

  /** The run of pair `k` that has the role, wherever in the pair it is. */
  function Of(c: seq<Run>, k: nat, role: Role): Run
    requires 2 * k + 1 < |c|
  {
    if c[2 * k].role == role then c[2 * k] else c[2 * k + 1]
  }

  /** In a well-run campaign both lookups succeed in every pair, and give its two different runs. */
  lemma LookupsAreTotal(c: seq<Run>, k: nat)
    requires Paired(c) && k < |c| / 2
    ensures forall role: Role :: Next(Pair(c, k), role) == Some(Of(c, k, role)) && Of(c, k, role).role == role
    ensures multiset{Of(c, k, Baseline), Of(c, k, Candidate)} == multiset{c[2 * k], c[2 * k + 1]}
  {
    assert c[2 * k].role != c[2 * k + 1].role;
    var pair := Pair(c, k);
    assert pair == [c[2 * k], c[2 * k + 1]];
    assert pair[1..] == [c[2 * k + 1]];
  }

  /** In percent of the baseline; `higher` when a greater value is the better one, and in the boot report. */
  function Delta(before: real, after: real, higher: bool): real
    requires before > 0.0
  {
    100.0 * (if higher then after - before else before - after) / before
  }

  /** `d` percent of the baseline are gained. */
  predicate Gains(before: real, after: real, higher: bool, d: real) {
    d * before == 100.0 * (if higher then after - before else before - after)
  }

  lemma DeltaGains(before: real, after: real, higher: bool)
    requires before > 0.0
    ensures Gains(before, after, higher, Delta(before, after, higher))
  {
  }

  /** The paired deltas, as the campaign defines them. */
  predicate Deltas(c: seq<Run>, deltas: seq<real>, higher: bool) {
    |deltas| == |c| / 2 && forall k :: 0 <= k < |deltas| ==> DeltaIs(c, k, deltas[k], higher)
  }

  predicate DeltaIs(c: seq<Run>, k: nat, d: real, higher: bool)
    requires 2 * k + 1 < |c|
  {
    Of(c, k, Baseline).elapsed > 0.0 && Gains(Of(c, k, Baseline).elapsed, Of(c, k, Candidate).elapsed, higher, d)
  }

  /** `_paired`, with the lookups of the code. */
  method PairedDeltas(c: seq<Run>, higher: bool) returns (deltas: seq<real>)
    requires Paired(c) && forall i :: 0 <= i < |c| ==> Valid(c[i])
    ensures Deltas(c, deltas, higher)
  {
    deltas := [];
    for k := 0 to |c| / 2
      invariant |deltas| == k
      invariant forall j :: 0 <= j < k ==> DeltaIs(c, j, deltas[j], higher)
    {
      LookupsAreTotal(c, k);
      assert Valid(c[2 * k]) && Valid(c[2 * k + 1]);
      var before, after := Next(Pair(c, k), Baseline).value.elapsed, Next(Pair(c, k), Candidate).value.elapsed;
      DeltaGains(before, after, higher);
      deltas := deltas + [Delta(before, after, higher)];
    }
  }

  // ---------- analyze ----------

  datatype Report = Report(aa: Interval, noise: real, ab: Interval, exceeds: bool)

  ghost predicate AnyDraws(draw: nat -> seq<seq<nat>>) { forall n: nat :: Draws(draw(n), n) }

  /** What `analyze` demands of the two campaigns together. */
  predicate Comparison(aa: seq<Run>, ab: seq<Run>) {
    && WellRun(aa, AA) && WellRun(ab, AB)
    && (forall i, j :: 0 <= i < |aa| && 0 <= j < |ab| ==> aa[i].id != ab[j].id)
    && aa[0].common == ab[0].common && SameBuild(aa[0], ab[0])
  }

  /** Faster by more than `noise` percent of the other run. */
  predicate Beats(candidate: Run, baseline: Run, noise: real) {
    100.0 * (baseline.elapsed - candidate.elapsed) > noise * baseline.elapsed
  }

  predicate PairBeats(c: seq<Run>, k: nat, noise: real)
    requires 2 * k + 1 < |c|
  {
    Beats(Of(c, k, Candidate), Of(c, k, Baseline), noise)
  }

  /** What `analyze` reports of the paired deltas of two campaigns. */
  function ReportOn(aaDeltas: seq<real>, abDeltas: seq<real>, draw: nat -> seq<seq<nat>>): Report
    requires |aaDeltas| > 0 && |abDeltas| > 0
    requires Draws(draw(|aaDeltas|), |aaDeltas|) && Draws(draw(|abDeltas|), |abDeltas|)
  {
    var aa, ab := PairedInterval(aaDeltas, draw(|aaDeltas|)), PairedInterval(abDeltas, draw(|abDeltas|));
    Report(aa, Noise(aa), ab, ExceedsNoise(ab, Noise(aa)))
  }

  /** The two campaigns, if they are comparable. */
  method LoadBoth(aaAttempts: seq<Attempt>, abAttempts: seq<Attempt>) returns (ok: bool, aa: seq<Run>, ab: seq<Run>)
    ensures ok ==> Comparison(aa, ab) && Arranges(aa, aaAttempts) && Arranges(ab, abAttempts)
    ensures forall c, d :: Arranges(c, aaAttempts) && Arranges(d, abAttempts) && Comparison(c, d) ==>
              ok && aa == c && ab == d
  {
    aa, ab := [], [];
    var first := LoadCampaign(aaAttempts, AA);
    if first.None? {
      return false, aa, ab;
    }
    aa := first.value;
    var second := LoadCampaign(abAttempts, AB);
    if second.None? {
      return false, aa, ab;
    }
    ab := second.value;
    if exists i, j :: 0 <= i < |aa| && 0 <= j < |ab| && aa[i].id == ab[j].id {
      return false, aa, ab;
    }
    ok := aa[0].common == ab[0].common && aa[0].binary == ab[0].binary && aa[0].source == ab[0].source;
  }

  /** Exactly the comparable campaigns are compared, each in its own order. The report is that of their paired deltas:
      the faster claim is made only when some candidate run beat the baseline run it was paired with by more than the
      noise of the AA campaign, and whenever every one did. */
  method Analyze(aaAttempts: seq<Attempt>, abAttempts: seq<Attempt>, draw: nat -> seq<seq<nat>>)
    returns (r: Option<Report>, aa: seq<Run>, ab: seq<Run>)
    requires AnyDraws(draw)
    ensures r.Some? ==> Comparison(aa, ab) && Arranges(aa, aaAttempts) && Arranges(ab, abAttempts)
    ensures forall c, d :: Arranges(c, aaAttempts) && Arranges(d, abAttempts) && Comparison(c, d) ==>
              r.Some? && aa == c && ab == d
    ensures r.Some? ==> Reports(r.value, aa, ab, draw)
    ensures r.Some? ==>
              Bounds(r.value.noise, r.value.aa) && forall bound :: Bounds(bound, r.value.aa) ==> r.value.noise <= bound
    ensures r.Some? ==> (r.value.exceeds <==> Clears(r.value.ab, r.value.aa))
    ensures r.Some? && r.value.exceeds ==> exists k :: 0 <= k < |ab| / 2 && PairBeats(ab, k, r.value.noise)
    ensures r.Some? && (forall k :: 0 <= k < |ab| / 2 ==> PairBeats(ab, k, r.value.noise)) ==> r.value.exceeds
  {
    var ok: bool;
    ok, aa, ab := LoadBoth(aaAttempts, abAttempts);
    if !ok {
      return None, aa, ab;
    }
    var report := MakeReport(aa, ab, draw);
    return Some(report), aa, ab;
  }

  method MakeReport(aa: seq<Run>, ab: seq<Run>, draw: nat -> seq<seq<nat>>) returns (r: Report)
    requires AnyDraws(draw) && Comparison(aa, ab)
    ensures Reports(r, aa, ab, draw)
    ensures Bounds(r.noise, r.aa) && forall bound :: Bounds(bound, r.aa) ==> r.noise <= bound
    ensures r.exceeds <==> Clears(r.ab, r.aa)
    ensures r.exceeds ==> exists k :: 0 <= k < |ab| / 2 && PairBeats(ab, k, r.noise)
    ensures (forall k :: 0 <= k < |ab| / 2 ==> PairBeats(ab, k, r.noise)) ==> r.exceeds
  {
    var aaDeltas := PairedDeltas(aa, true);
    var abDeltas := PairedDeltas(ab, true);
    assert Valid(aa[0]) && Valid(ab[0]) && aa[0].expected == |aa| && ab[0].expected == |ab|;
    r := ReportOn(aaDeltas, abDeltas, draw);
    ClaimIsSound(ab, abDeltas, draw(|abDeltas|), r.noise);
    ReportMeans(aaDeltas, abDeltas, draw);
  }

  /** The two intervals resample the deltas the two campaigns define. */
  ghost predicate Reports(r: Report, aa: seq<Run>, ab: seq<Run>, draw: nat -> seq<seq<nat>>)
    requires AnyDraws(draw)
  {
    exists aaDeltas, abDeltas ::
      && Deltas(aa, aaDeltas, true) && Deltas(ab, abDeltas, true) && |aaDeltas| > 0 && |abDeltas| > 0
      && ResampledInterval(r.aa, aaDeltas, draw(|aaDeltas|)) && ResampledInterval(r.ab, abDeltas, draw(|abDeltas|))
  }

  lemma ReportMeans(aaDeltas: seq<real>, abDeltas: seq<real>, draw: nat -> seq<seq<nat>>)
    requires |aaDeltas| > 0 && |abDeltas| > 0 && AnyDraws(draw)
    ensures var r := ReportOn(aaDeltas, abDeltas, draw);
      && ResampledInterval(r.aa, aaDeltas, draw(|aaDeltas|)) && ResampledInterval(r.ab, abDeltas, draw(|abDeltas|))
      && Bounds(r.noise, r.aa) && (forall bound :: Bounds(bound, r.aa) ==> r.noise <= bound)
      && (r.exceeds <==> Clears(r.ab, r.aa))
  {
    var aaDraws, abDraws := draw(|aaDeltas|), draw(|abDeltas|);
    IntervalMeans(aaDeltas, aaDraws);
    IntervalMeans(abDeltas, abDraws);
    IntervalWithin(aaDeltas, aaDraws, Least(aaDeltas), Max(aaDeltas));
    IntervalWithin(abDeltas, abDraws, Least(abDeltas), Max(abDeltas));
    var aa, ab := PairedInterval(aaDeltas, aaDraws), PairedInterval(abDeltas, abDraws);
    NoiseIsLeastBound(aa);
    ExceedsExactly(aa, ab);
  }

  lemma ClaimIsSound(ab: seq<Run>, deltas: seq<real>, draws: seq<seq<nat>>, noise: real)
    requires Deltas(ab, deltas, true) && |deltas| > 0 && Draws(draws, |deltas|)
    ensures var claimed := ExceedsNoise(PairedInterval(deltas, draws), noise);
      && (claimed ==> exists k :: 0 <= k < |ab| / 2 && PairBeats(ab, k, noise))
      && ((forall k :: 0 <= k < |ab| / 2 ==> PairBeats(ab, k, noise)) ==> claimed)
  {
    ExceedsSoundly(deltas, draws, noise);
    forall k | 0 <= k < |deltas| ensures deltas[k] < -noise <==> PairBeats(ab, k, noise) {
      assert DeltaIs(ab, k, deltas[k], true);
      BeatsIs(Of(ab, k, Candidate), Of(ab, k, Baseline), deltas[k], noise);
    }
  }

  lemma BeatsIs(candidate: Run, baseline: Run, d: real, noise: real)
    requires baseline.elapsed > 0.0 && Gains(baseline.elapsed, candidate.elapsed, true, d)
    ensures d < -noise <==> Beats(candidate, baseline, noise)
  {
    var b := baseline.elapsed;
    if d < -noise {
      assert d * b < -noise * b;
    } else {
      assert d * b >= -noise * b;
    }
  }

  /** The build check compares the first AB run, whatever its role: the AB baseline is the AA build exactly when the AB
      campaign starts with a baseline run. */
  lemma BaselineMatchesExactlyWhenFirst(aa: seq<Run>, ab: seq<Run>)
    requires Comparison(aa, ab)
    ensures ab[0].role == Baseline <==>
              forall j :: 0 <= j < |ab| && ab[j].role == Baseline ==> SameBuild(aa[0], ab[j])
  {
    assert Valid(ab[0]) && ab[0].expected == |ab|;
    assert ab[2 * 0].role != ab[2 * 0 + 1].role;
    if ab[0].role == Candidate {
      assert ab[1].role == Baseline && ab[1].binary != ab[0].binary;
    }
  }

  /** Six runs in time order; with `flip` each pair starts with the candidate. */
  function Six(firstId: nat, flip: bool, baseline: nat, candidate: nat): seq<Run> {
    seq(6, i requires 0 <= i < 6 =>
      var role := if (i % 2 == 0) != flip then Baseline else Candidate;
      var build := if role == Baseline then baseline else candidate;
      Run(firstId + i, i + 1, 6, role, 2 * i, 2 * i + 1, 1.0, 0, build, build))
  }

  lemma SixPaired(firstId: nat, flip: bool, baseline: nat, candidate: nat)
    ensures Paired(Six(firstId, flip, baseline, candidate))
  {
    var c := Six(firstId, flip, baseline, candidate);
    forall k | 0 <= k < |c| / 2 ensures c[2 * k].role != c[2 * k + 1].role {
      assert (2 * k) % 2 == 0 && (2 * k + 1) % 2 == 1;
    }
  }

  lemma SixComparable(firstId: nat, flip: bool, baseline: nat, candidate: nat, mode: Mode)
    requires mode == AA <==> baseline == candidate
    ensures Comparable(Six(firstId, flip, baseline, candidate), mode)
  {
    var c := Six(firstId, flip, baseline, candidate);
    forall i | 0 <= i < 6 ensures c[i].binary == c[i].source == if c[i].role == Baseline then baseline else candidate {
    }
  }

  lemma SixIsWellRun(firstId: nat, flip: bool, baseline: nat, candidate: nat, mode: Mode)
    requires mode == AA <==> baseline == candidate
    ensures WellRun(Six(firstId, flip, baseline, candidate), mode)
  {
    SixPaired(firstId, flip, baseline, candidate);
    SixComparable(firstId, flip, baseline, candidate, mode);
  }

  function AttemptsOf(c: seq<Run>): seq<Attempt> {
    seq(|c|, i requires 0 <= i < |c| => Attempt(c[i].id, Some(c[i])))
  }

  lemma SixArranges(firstId: nat, flip: bool, baseline: nat, candidate: nat)
    ensures var c := Six(firstId, flip, baseline, candidate); Arranges(c, AttemptsOf(c))
  {
    var c := Six(firstId, flip, baseline, candidate);
    assert Runs(AttemptsOf(c)) == c;
  }

  /** So the report compares two campaigns with different baselines. */
  method MismatchedBaselinesAccepted(draw: nat -> seq<seq<nat>>)
    returns (r: Option<Report>, aaAttempts: seq<Attempt>, abAttempts: seq<Attempt>, aa: seq<Run>, ab: seq<Run>)
    requires AnyDraws(draw)
    ensures Arranges(aa, aaAttempts) && Arranges(ab, abAttempts) && r.Some? && Reports(r.value, aa, ab, draw)
    ensures |aa| == |ab| == 6 && aa[0].role == ab[1].role == Baseline && !SameBuild(aa[0], ab[1])
  {
    SixIsWellRun(0, false, 1, 1, AA);
    SixIsWellRun(6, true, 2, 1, AB);
    SixArranges(0, false, 1, 1);
    SixArranges(6, true, 2, 1);
    ghost var c, d := Six(0, false, 1, 1), Six(6, true, 2, 1);
    forall i, j | 0 <= i < |c| && 0 <= j < |d| ensures c[i].id != d[j].id {
      assert c[i].id == 0 + i && d[j].id == 6 + j;
    }
    assert Comparison(c, d);
    aaAttempts, abAttempts := AttemptsOf(Six(0, false, 1, 1)), AttemptsOf(Six(6, true, 2, 1));
    r, aa, ab := Analyze(aaAttempts, abAttempts, draw);
  }

  // ---------- the storage report's schedule ----------

  /** `_expected_role`. */
  function ExpectedRole(ordinal: nat): Role
    requires ordinal > 0
  {
    if ((ordinal - 1) / 2 + ordinal) % 2 == 1 then Baseline else Candidate
  }

  predicate Scheduled(c: seq<Run>) {
    forall i :: 0 <= i < |c| ==> c[i].ordinal == i + 1 && c[i].role == ExpectedRole(i + 1)
  }

  lemma Halves(q: nat, r: nat)
    requires r < 2
    ensures (2 * q + r) / 2 == q && (2 * q + r) % 2 == r
  {
  }

  /** The schedule in fours: baseline, candidate, candidate, baseline. */
  lemma RolesOfFour(m: nat)
    ensures ExpectedRole(4 * m + 1) == Baseline && ExpectedRole(4 * m + 2) == Candidate
    ensures ExpectedRole(4 * m + 3) == Candidate && ExpectedRole(4 * m + 4) == Baseline
  {
    Halves(2 * m, 0);
    Halves(2 * m, 1);
    Halves(2 * m + 1, 0);
    Halves(2 * m + 1, 1);
    Halves(3 * m, 1);
    Halves(3 * m + 1, 0);
    Halves(3 * m + 2, 0);
    Halves(3 * m + 2, 1);
  }

  /** Of two pairs in a row, the first starts with the baseline and the second with the candidate. */
  lemma FourInTurn(c: seq<Run>, m: nat)
    requires Scheduled(c) && 4 * m + 4 <= |c|
    ensures c[4 * m].role == Baseline && c[4 * m + 1].role == Candidate
    ensures c[4 * m + 2].role == Candidate && c[4 * m + 3].role == Baseline
  {
    RolesOfFour(m);
    assert c[4 * m].role == ExpectedRole(4 * m + 1) && c[4 * m + 1].role == ExpectedRole(4 * m + 1 + 1);
    assert c[4 * m + 2].role == ExpectedRole(4 * m + 2 + 1) && c[4 * m + 3].role == ExpectedRole(4 * m + 3 + 1);
  }

  /** The schedule pairs the runs, so the lookups of `_paired` are total without a check of their own; pairs start with
      the baseline and with the candidate in turn. */
  lemma ScheduleAlternates(c: seq<Run>, k: nat)
    requires Scheduled(c) && 2 * k + 1 < |c|
    ensures c[2 * k].role != c[2 * k + 1].role
    ensures c[2 * k].role == Baseline <==> k % 2 == 0
  {
    var m := k / 2;
    RolesOfFour(m);
    assert c[2 * k].role == ExpectedRole(2 * k + 1) && c[2 * k + 1].role == ExpectedRole(2 * k + 1 + 1);
    if k % 2 == 0 {
      assert 2 * k + 1 == 4 * m + 1;
    } else {
      assert 2 * k + 1 == 4 * m + 3;
    }
  }

  function BaselineFirst(c: seq<Run>, pairs: nat): nat
    requires 2 * pairs <= |c|
  {
    if pairs == 0 then 0
    else BaselineFirst(c, pairs - 1) + (if c[2 * (pairs - 1)].role == Baseline then 1 else 0)
  }

  lemma BaselineFirstTwo(c: seq<Run>, pairs: nat)
    requires 2 * pairs + 4 <= |c|
    ensures BaselineFirst(c, pairs + 2)
            == BaselineFirst(c, pairs) + (if c[2 * pairs].role == Baseline then 1 else 0)
               + (if c[2 * pairs + 2].role == Baseline then 1 else 0)
  {
    assert BaselineFirst(c, pairs + 2)
           == BaselineFirst(c, pairs + 1) + (if c[2 * (pairs + 1)].role == Baseline then 1 else 0);
  }

  lemma {:induction false} BaselineFirstIs(c: seq<Run>, m: nat)
    requires Scheduled(c) && 4 * m <= |c|
    ensures BaselineFirst(c, 2 * m) == m
  {
    if m > 0 {
      BaselineFirstIs(c, m - 1);
      FourInTurn(c, m - 1);
      BaselineFirstTwo(c, 2 * (m - 1));
    }
  }

  /** With a multiple of four runs, half of the pairs start with the baseline. */
  lemma HalfBaselineFirst(c: seq<Run>, quarter: nat)
    requires Scheduled(c) && |c| == 4 * quarter
    ensures Paired(c) && BaselineFirst(c, 2 * quarter) == quarter
  {
    forall k | 0 <= k < |c| / 2 ensures c[2 * k].role != c[2 * k + 1].role {
      ScheduleAlternates(c, k);
    }
    BaselineFirstIs(c, quarter);
  }

  /** The sum of what the candidates took longer than the baselines they were paired with. */
  function Lead(c: seq<Run>, pairs: nat): real
    requires 2 * pairs <= |c|
  {
    if pairs == 0 then 0.0
    else Lead(c, pairs - 1) + Of(c, pairs - 1, Candidate).elapsed - Of(c, pairs - 1, Baseline).elapsed
  }

  /** Every run takes `slope` longer than the one before it. */
  predicate Drifts(c: seq<Run>, slope: real) { forall i :: 0 < i < |c| ==> c[i].elapsed == c[i - 1].elapsed + slope }

  lemma LeadTwo(c: seq<Run>, pairs: nat)
    requires 2 * pairs + 4 <= |c|
    ensures Lead(c, pairs + 2)
            == Lead(c, pairs) + Of(c, pairs, Candidate).elapsed - Of(c, pairs, Baseline).elapsed
               + Of(c, pairs + 1, Candidate).elapsed - Of(c, pairs + 1, Baseline).elapsed
  {
    assert Lead(c, pairs + 2)
           == Lead(c, pairs + 1) + Of(c, pairs + 1, Candidate).elapsed - Of(c, pairs + 1, Baseline).elapsed;
  }

  lemma LeadOfFour(c: seq<Run>, m: nat, slope: real)
    requires Scheduled(c) && 4 * m + 4 <= |c| && Drifts(c, slope)
    ensures Of(c, 2 * m, Candidate).elapsed - Of(c, 2 * m, Baseline).elapsed == slope
    ensures Of(c, 2 * m + 1, Candidate).elapsed - Of(c, 2 * m + 1, Baseline).elapsed == -slope
  {
    FourInTurn(c, m);
    assert c[4 * m + 1].elapsed == c[4 * m + 1 - 1].elapsed + slope;
    assert c[4 * m + 3].elapsed == c[4 * m + 3 - 1].elapsed + slope;
  }

  lemma LeadStays(c: seq<Run>, m: nat, slope: real)
    requires Scheduled(c) && 4 * m + 4 <= |c| && Drifts(c, slope)
    ensures Lead(c, 2 * m + 2) == Lead(c, 2 * m)
  {
    LeadOfFour(c, m, slope);
    LeadTwo(c, 2 * m);
  }

  lemma {:induction false} LeadOfDrift(c: seq<Run>, m: nat, slope: real)
    requires Scheduled(c) && 4 * m <= |c| && Drifts(c, slope)
    ensures Lead(c, 2 * m) == 0.0
  {
    if m > 0 {
      LeadOfDrift(c, m - 1, slope);
      LeadStays(c, m - 1, slope);
    }
  }

  /** What the schedule is for: a steady drift of the machine, alike for both builds, cancels out of the comparison. */
  lemma DriftCancels(c: seq<Run>, quarter: nat, slope: real)
    requires Scheduled(c) && |c| == 4 * quarter && Drifts(c, slope)
    ensures Lead(c, 2 * quarter) == 0.0
  {
    LeadOfDrift(c, quarter, slope);
  }
}
