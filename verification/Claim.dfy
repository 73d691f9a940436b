/** The A9 claim chain: the journey verifiers scripts/verify-windows-product-e2e-receipt.py (T17) and
    verify-windows-import-product-e2e-receipt.py (T19), and scripts/a9-release-claim.py, which combines their
    receipts. */
module Claim {
  import opened Results
  import opened Json

  // ---------- journey receipts ----------

  datatype Mode = Pilot | Release | OtherMode

  datatype Signing = Unverified | DevelopmentAdHoc | DevelopmentSigned | DeveloperIdNotarized | OtherSigning

  /** Identities, digests and times are numbers; an optional one is None where the receipt says "absent". */
  datatype Journey = Journey(
    job: nat, commit: nat, testedCommit: nat, hostedCommit: nat, mode: Mode, signing: Signing,
    expectedRuns: int, runCount: int, passes: int, failures: int, stages: seq<int>,
    started: int, finished: int, elapsedMs: int,
    valid: bool, completed: bool, noFailureCode: bool, hashesPresent: bool,
    productAutomated: bool, uiAutomated: bool, workerClean: bool, cleanMachine: bool,
    hostedGreen: bool, securityGreen: bool, hostedRun: Option<nat>, securityRun: Option<nat>,
    threeD: bool, criterionPass: bool, promotion: bool, pass: bool, claimEligible: bool,
    host: nat, macos: nat, app: Option<nat>, executable: Option<nat>)

  function RunsOf(mode: Mode): int { if mode == Pilot then 1 else if mode == Release then 3 else 0 }

  /** No stage has passed more often than the one before it; the first no more often than there were runs. */
  predicate Chain(runs: int, stages: seq<int>) { forall i :: 0 <= i < |stages| ==> InChain(runs, stages, i) }

  predicate InChain(runs: int, stages: seq<int>, i: nat)
    requires i < |stages|
  {
    0 <= stages[i] <= if i == 0 then runs else stages[i - 1]
  }

  function Last(runs: int, stages: seq<int>): int { if stages == [] then runs else stages[|stages| - 1] }

  /** The stage loop of both verifiers: the last count, or None. */
  method CheckStages(runs: int, stages: seq<int>) returns (last: Option<int>)
    ensures last == if Chain(runs, stages) then Some(Last(runs, stages)) else None
  {
    var previous := runs;
    for i := 0 to |stages|
      invariant forall k :: 0 <= k < i ==> InChain(runs, stages, k)
      invariant previous == if i == 0 then runs else stages[i - 1]
    {
      if stages[i] < 0 || stages[i] > previous {
        assert !InChain(runs, stages, i);
        return None;
      }
      previous := stages[i];
    }
    return Some(previous);
  }

  /** Squeezed between its last value and the number of runs, the whole chain is constant. */
  lemma {:induction false} Squeezed(runs: int, stages: seq<int>, i: nat)
    requires Chain(runs, stages) && Last(runs, stages) == runs && i < |stages|
    ensures stages[i] == runs
  {
    AtMostRuns(runs, stages, i);
    AtLeastLast(runs, stages, i);
  }

  lemma {:induction false} AtMostRuns(runs: int, stages: seq<int>, i: nat)
    requires Chain(runs, stages) && i < |stages|
    ensures stages[i] <= runs
  {
    assert InChain(runs, stages, i);
    if i > 0 {
      AtMostRuns(runs, stages, i - 1);
    }
  }

  lemma {:induction false} AtLeastLast(runs: int, stages: seq<int>, i: nat)
    requires Chain(runs, stages) && i < |stages|
    ensures stages[|stages| - 1] <= stages[i]
    decreases |stages| - i
  {
    if i + 1 < |stages| {
      AtLeastLast(runs, stages, i + 1);
      assert InChain(runs, stages, i + 1);
    }
  }

  /** What both verifiers check the same way. */
  predicate Sound(j: Journey, commit: nat) {
    && j.commit == j.testedCommit == commit && j.started <= j.finished
    && 0 <= j.elapsedMs && -1000 <= 1000 * (j.finished - j.started) - j.elapsedMs <= 1000
    && (j.mode == Pilot || j.mode == Release) && j.expectedRuns == RunsOf(j.mode) && j.signing != OtherSigning
    && 0 <= j.runCount <= j.expectedRuns && 0 <= j.passes && 0 <= j.failures && j.passes + j.failures == j.runCount
    && Chain(j.runCount, j.stages)
    && j.noFailureCode == j.completed && !j.threeD && !j.criterionPass && !j.promotion
  }

  /** The checks of both verifiers up to the computed verdicts: the last stage count, or None. */
  method CheckShared(j: Journey, commit: nat) returns (last: Option<int>)
    ensures last == if Sound(j, commit) then Some(Last(j.runCount, j.stages)) else None
  {
    if j.testedCommit != j.commit || j.commit != commit || j.finished < j.started {
      return None;
    }
    if j.mode != Pilot && j.mode != Release {
      return None;
    }
    var expected := if j.mode == Pilot then 1 else 3;
    if j.expectedRuns != expected || j.runCount < 0 || j.passes < 0 || j.failures < 0 || j.elapsedMs < 0 {
      return None;
    }
    if j.runCount > expected || j.passes + j.failures != j.runCount {
      return None;
    }
    var wall := (j.finished - j.started) * 1000;
    if wall - j.elapsedMs > 1000 || j.elapsedMs - wall > 1000 {
      return None;
    }
    last := CheckStages(j.runCount, j.stages);
    if j.signing == OtherSigning || j.noFailureCode != j.completed || j.threeD || j.criterionPass || j.promotion {
      return None;
    }
  }

  predicate AllRan(j: Journey) {
    && j.valid && j.completed && j.runCount == j.passes == j.expectedRuns
    && j.productAutomated && j.uiAutomated && j.workerClean && j.hashesPresent
  }

  /** Every run of the campaign went through every stage. */
  predicate Complete(j: Journey) { AllRan(j) && forall i :: 0 <= i < |j.stages| ==> j.stages[i] == j.expectedRuns }

  /** What only the T17 receipt may claim for itself. */
  predicate Promotable(j: Journey) {
    && j.mode == Release && Complete(j) && j.cleanMachine && j.signing == DeveloperIdNotarized
    && j.hostedGreen && j.securityGreen && j.hostedCommit == j.commit && j.hostedRun.Some? && j.securityRun.Some?
  }

  datatype Which = T17 | T19

  /** The receipts of one commit that say of themselves what their counters show. */
  predicate Accepts(which: Which, j: Journey, commit: nat) {
    Sound(j, commit) && j.pass == Complete(j) && j.claimEligible == (which == T17 && Promotable(j))
  }

  /** The run totals add up within one or three runs, the clock agrees to a second, and a failure code says that the
      journey did not complete. */
  predicate Reconciled(j: Journey) {
    && 0 <= j.failures <= j.runCount && 0 <= j.passes == j.runCount - j.failures <= j.expectedRuns
    && (j.mode == Pilot ==> j.expectedRuns == 1) && (j.mode != Pilot ==> j.mode == Release && j.expectedRuns == 3)
    && j.finished >= j.started && j.elapsedMs >= 0
    && j.elapsedMs - 1000 <= 1000 * (j.finished - j.started) <= j.elapsedMs + 1000
    && (j.completed <==> j.noFailureCode) && !j.threeD && !j.criterionPass && !j.promotion && j.signing != OtherSigning
  }

  /** `validate` of T17, which looks at the last stage only. A passing receipt has every stage counter at the number of
      runs; one that claims release readiness has three of each. */
  method ValidateT17(j: Journey, commit: nat) returns (ok: bool)
    ensures ok <==> Accepts(T17, j, commit)
    ensures ok && j.pass ==> j.failures == 0 && forall i :: 0 <= i < |j.stages| ==> j.stages[i] == j.runCount
    ensures ok && j.claimEligible ==> j.mode == Release && forall i :: 0 <= i < |j.stages| ==> j.stages[i] == 3
    ensures ok && j.mode == Release ==>
              (j.claimEligible <==>
                 && j.pass && j.cleanMachine && j.signing == DeveloperIdNotarized && j.hostedGreen && j.securityGreen
                 && j.hostedCommit == j.testedCommit == commit && j.hostedRun != None && j.securityRun != None)
    ensures ok ==> Reconciled(j)
  {
    var last := CheckShared(j, commit);
    if last.None? {
      return false;
    }
    var computedPass := j.valid && j.completed && j.runCount == j.expectedRuns && j.passes == j.expectedRuns
      && j.failures == 0 && last.value == j.expectedRuns && j.productAutomated && j.uiAutomated && j.workerClean
      && j.hashesPresent;
    PassRulesAgree(j, commit);
    var computedClaim := j.mode == Release && computedPass && j.cleanMachine && j.uiAutomated
      && j.signing == DeveloperIdNotarized && j.hostedGreen && j.securityGreen
      && j.hostedCommit == j.commit && j.hostedRun.Some? && j.securityRun.Some?;
    return j.pass == computedPass && j.claimEligible == computedClaim;
  }

  /** `validate` of T19, which looks at every stage and never grants a claim. */
  method ValidateT19(j: Journey, commit: nat) returns (ok: bool)
    ensures ok <==> Accepts(T19, j, commit)
    ensures ok && j.pass ==> j.failures == 0 && forall i :: 0 <= i < |j.stages| ==> j.stages[i] == j.runCount
    ensures ok ==> !j.claimEligible && Reconciled(j)
  {
    var last := CheckShared(j, commit);
    if last.None? || j.claimEligible {
      return false;
    }
    var complete := forall i :: 0 <= i < |j.stages| ==> j.stages[i] == j.expectedRuns;
    return j.pass == (j.valid && j.completed && j.runCount == j.expectedRuns && j.passes == j.expectedRuns && complete
                      && j.workerClean && j.uiAutomated && j.productAutomated && j.hashesPresent);
  }

  /** Looking at the last stage is as good as looking at every stage. */
  lemma PassRulesAgree(j: Journey, commit: nat)
    requires Sound(j, commit)
    ensures AllRan(j) && j.failures == 0 && Last(j.runCount, j.stages) == j.expectedRuns <==> Complete(j)
  {
    if AllRan(j) && Last(j.runCount, j.stages) == j.expectedRuns {
      forall i | 0 <= i < |j.stages| ensures j.stages[i] == j.expectedRuns {
        Squeezed(j.runCount, j.stages, i);
      }
    }
  }

  // ---------- the combined claim ----------

  /** Exact bytes, by their digest, and what they parse to. */
  datatype Doc<+T> = Doc(sha: nat, value: T)

  datatype CiKind = HostedFull | SecurityQuality

  datatype Conclusion = Success | NoSuccess(word: nat)

  datatype Ci = Ci(kind: CiKind, commit: nat, run: nat, conclusion: Conclusion)

  datatype Clean = Clean(commit: nat, host: nat, macos: nat, attestedAt: int)

  datatype Inputs = Inputs(t17: Doc<Journey>, t19: Doc<Journey>, hosted: Doc<Ci>, security: Doc<Ci>,
                           clean: Option<Doc<Clean>>)

  datatype JourneyRecord = JourneyRecord(sha: nat, job: nat, mode: Mode, expectedRuns: int, runCount: int, passes: int,
                                         pass: bool, signing: Signing, started: int, finished: int)

  datatype CiRecord = CiRecord(sha: nat, run: nat, conclusion: Conclusion)

  datatype HostRecord = HostRecord(sha: nat, attestedAt: int)

  datatype Condition =
    | NotRelease(journey: Which) | NotThreeOfThree(journey: Which) | NotNotarized(journey: Which)
    | CiNotSuccess(ci: CiKind) | NoCleanHost

  datatype Receipt = Receipt(
    commit: nat, host: nat, macos: nat, app: nat, executable: nat, t17: JourneyRecord, t19: JourneyRecord,
    hosted: CiRecord, security: CiRecord, clean: Option<HostRecord>, cleanMachine: bool,
    threeD: bool, criterionPass: bool, promotion: bool, unmet: seq<Condition>, eligible: bool)

  /** `journey`: None where it refuses. */
  function RecordOf(which: Which, j: Doc<Journey>, commit: nat): Option<JourneyRecord> {
    var v := j.value;
    if Accepts(which, v, commit) && v.hostedCommit == commit && !v.threeD && !v.criterionPass && !v.promotion
    then Some(JourneyRecord(j.sha, v.job, v.mode, v.expectedRuns, v.runCount, v.passes, v.pass, v.signing, v.started,
                            v.finished))
    else None
  }

  predicate AbsentOr(run: Option<nat>, attested: nat) { run.None? || run.value == attested }

  /** `ci_run`: the run the journeys name, if they name one. */
  function CiOf(ci: Doc<Ci>, kind: CiKind, commit: nat, first: Option<nat>, second: Option<nat>): Option<CiRecord> {
    if ci.value.kind == kind && ci.value.commit == commit
       && AbsentOr(first, ci.value.run) && AbsentOr(second, ci.value.run)
    then Some(CiRecord(ci.sha, ci.value.run, ci.value.conclusion))
    else None
  }

  function Min(a: int, b: int): int { if a <= b then a else b }

  /** `clean_host`, given the digest the operator recorded. */
  function HostOf(clean: Doc<Clean>, recorded: nat, commit: nat, t17: Journey, t19: Journey): Option<HostRecord> {
    if clean.sha == recorded && clean.value.commit == commit && clean.value.host == t17.host
       && clean.value.macos == t17.macos && clean.value.attestedAt <= Min(t17.started, t19.started)
    then Some(HostRecord(recorded, clean.value.attestedAt))
    else None
  }

  function UnmetOf(which: Which, r: JourneyRecord): seq<Condition> {
    (if r.mode == Release then [] else [NotRelease(which)])
    + (if r.expectedRuns == r.runCount == r.passes == 3 && r.pass then [] else [NotThreeOfThree(which)])
    + (if r.signing == DeveloperIdNotarized then [] else [NotNotarized(which)])
  }

  /** `unmet`. */
  function Unmet(r: Receipt): seq<Condition> {
    UnmetOf(T17, r.t17) + UnmetOf(T19, r.t19)
    + (if r.hosted.conclusion == Success then [] else [CiNotSuccess(HostedFull)])
    + (if r.security.conclusion == Success then [] else [CiNotSuccess(SecurityQuality)])
    + (if r.clean.Some? then [] else [NoCleanHost])
  }

  predicate WellFormedRecord(r: JourneyRecord) {
    && (r.mode == Pilot || r.mode == Release) && r.expectedRuns == RunsOf(r.mode)
    && 0 <= r.passes <= r.runCount <= r.expectedRuns && r.signing != OtherSigning && r.started <= r.finished
  }

  /** `validate_receipt`: the fixed rule, on the receipt alone. */
  predicate ValidReceipt(r: Receipt) {
    && !r.threeD && !r.criterionPass && !r.promotion
    && WellFormedRecord(r.t17) && WellFormedRecord(r.t19)
    && (r.clean.Some? ==> r.clean.value.attestedAt <= Min(r.t17.started, r.t19.started))
    && r.cleanMachine == r.clean.Some? && r.unmet == Unmet(r) && r.eligible == (r.unmet == [])
  }

  function WithVerdict(r: Receipt): Receipt {
    var judged := r.(unmet := Unmet(r));
    judged.(eligible := judged.unmet == [])
  }

  function Combine(commit: nat, host: nat, macos: nat, app: nat, executable: nat, t17: JourneyRecord,
                   t19: JourneyRecord, hosted: CiRecord, security: CiRecord, clean: Option<HostRecord>): Receipt {
    WithVerdict(Receipt(commit, host, macos, app, executable, t17, t19, hosted, security, clean, clean.Some?,
                        false, false, false, [], false))
  }

  /** `build`; `recorded` is the digest supplied with a clean-host attestation. */
  function Build(commit: nat, i: Inputs, recorded: Option<nat>): Option<Receipt> {
    var a, b := i.t17.value, i.t19.value;
    var t17 :- RecordOf(T17, i.t17, commit);
    var t19 :- RecordOf(T19, i.t19, commit);
    if a.host != b.host || a.macos != b.macos || a.app.None? || a.app != b.app || a.executable.None?
       || a.executable != b.executable
    then None
    else
      var hosted :- CiOf(i.hosted, HostedFull, commit, a.hostedRun, b.hostedRun);
      var security :- CiOf(i.security, SecurityQuality, commit, a.securityRun, b.securityRun);
      if i.clean.None? != recorded.None? then None
      else
        var clean := if i.clean.None? then None else HostOf(i.clean.value, recorded.value, commit, a, b);
        if i.clean.Some? && clean.None? then None
        else
          var r := Combine(commit, a.host, a.macos, a.app.value, a.executable.value, t17, t19, hosted, security, clean);
          if ValidReceipt(r) then Some(r) else None
  }

  // ---------- what a claim means ----------

  predicate ThreeOfThree(j: Journey) {
    && j.mode == Release && j.runCount == j.passes == j.expectedRuns == 3 && j.failures == 0 && j.pass
    && (forall k :: 0 <= k < |j.stages| ==> j.stages[k] == 3)
    && j.workerClean && j.uiAutomated && j.productAutomated && j.hashesPresent && j.signing == DeveloperIdNotarized
  }

  /** The fixed rule, spelled out on the inputs. */
  predicate Deserved(commit: nat, i: Inputs) {
    && ThreeOfThree(i.t17.value) && ThreeOfThree(i.t19.value)
    && i.hosted.value.conclusion == Success && i.security.value.conclusion == Success && i.clean.Some?
  }

  lemma RecordMeans(which: Which, d: Doc<Journey>, commit: nat)
    requires RecordOf(which, d, commit).Some?
    ensures WellFormedRecord(RecordOf(which, d, commit).value)
    ensures UnmetOf(which, RecordOf(which, d, commit).value) == [] <==> ThreeOfThree(d.value)
  {
  }

  lemma UnmetParts(r: Receipt)
    ensures Unmet(r) == [] <==>
              && UnmetOf(T17, r.t17) == [] && UnmetOf(T19, r.t19) == []
              && r.hosted.conclusion == Success && r.security.conclusion == Success && r.clean.Some?
  {
  }

  /** A claim is eligible exactly when it is deserved: every stage counter of both journeys is three. */
  lemma EligibleIffDeserved(commit: nat, i: Inputs, recorded: Option<nat>)
    requires Build(commit, i, recorded).Some?
    ensures Build(commit, i, recorded).value.eligible <==> Deserved(commit, i)
  {
    RecordMeans(T17, i.t17, commit);
    RecordMeans(T19, i.t19, commit);
    UnmetParts(Build(commit, i, recorded).value);
  }

  /** `build` never refuses what it built itself: its last check cannot fail. */
  lemma BuildPassesItsOwnCheck(commit: nat, i: Inputs, recorded: Option<nat>)
    requires RecordOf(T17, i.t17, commit).Some?
    requires RecordOf(T19, i.t19, commit).Some?
    requires i.t17.value.host == i.t19.value.host && i.t17.value.macos == i.t19.value.macos
    requires i.t17.value.app.Some? && i.t17.value.app == i.t19.value.app
    requires i.t17.value.executable.Some? && i.t17.value.executable == i.t19.value.executable
    requires CiOf(i.hosted, HostedFull, commit, i.t17.value.hostedRun, i.t19.value.hostedRun).Some?
    requires CiOf(i.security, SecurityQuality, commit, i.t17.value.securityRun, i.t19.value.securityRun).Some?
    requires i.clean.None? == recorded.None?
    requires i.clean.Some? ==> HostOf(i.clean.value, recorded.value, commit, i.t17.value, i.t19.value).Some?
    ensures Build(commit, i, recorded).Some?
  {
    RecordMeans(T17, i.t17, commit);
    RecordMeans(T19, i.t19, commit);
  }

  // ---------- what a receipt says of its inputs ----------

  predicate SharedBy(r: Receipt, j: Journey) {
    j.host == r.host && j.macos == r.macos && j.app == Some(r.app) && j.executable == Some(r.executable)
  }

  predicate RecordedOf(r: JourneyRecord, d: Doc<Journey>) {
    && r.sha == d.sha && r.job == d.value.job && r.mode == d.value.mode && r.signing == d.value.signing
    && r.expectedRuns == d.value.expectedRuns && r.runCount == d.value.runCount && r.passes == d.value.passes
    && r.pass == d.value.pass && r.started == d.value.started && r.finished == d.value.finished
  }

  /** The run of one kind that passed for the commit is the one both journeys name, if they name one. */
  predicate Attests(r: CiRecord, d: Doc<Ci>, kind: CiKind, commit: nat, first: Option<nat>, second: Option<nat>) {
    && r.sha == d.sha && r.run == d.value.run && r.conclusion == d.value.conclusion
    && d.value.kind == kind && d.value.commit == commit
    && (first == None || first == Some(r.run)) && (second == None || second == Some(r.run))
  }

  /** A host attested clean before both journeys, by the document whose digest was recorded. */
  predicate CleanHostBound(r: Receipt, d: Doc<Clean>, recorded: Option<nat>) {
    && r.cleanMachine && recorded == Some(d.sha) && r.clean == Some(HostRecord(d.sha, d.value.attestedAt))
    && d.value.commit == r.commit && d.value.host == r.host && d.value.macos == r.macos
    && d.value.attestedAt <= r.t17.started && d.value.attestedAt <= r.t19.started
  }

  predicate FallsShort(c: Condition, i: Inputs) {
    match c
    case NotRelease(which) => JourneyOf(i, which).mode != Release
    case NotThreeOfThree(which) =>
      var j := JourneyOf(i, which); j.expectedRuns != 3 || j.runCount != 3 || j.passes != 3 || !j.pass
    case NotNotarized(which) => JourneyOf(i, which).signing != DeveloperIdNotarized
    case CiNotSuccess(kind) => (if kind == HostedFull then i.hosted else i.security).value.conclusion != Success
    case NoCleanHost => i.clean.None?
  }

  function JourneyOf(i: Inputs, which: Which): Journey { if which == T17 then i.t17.value else i.t19.value }

  /** The order of the list of unmet conditions. */
  function Place(c: Condition): nat {
    match c
    case NotRelease(which) => if which == T17 then 0 else 3
    case NotThreeOfThree(which) => if which == T17 then 1 else 4
    case NotNotarized(which) => if which == T17 then 2 else 5
    case CiNotSuccess(kind) => if kind == HostedFull then 6 else 7
    case NoCleanHost => 8
  }

  /** The conditions that fail, each once and in order; eligible when there is none. */
  ghost predicate Judges(r: Receipt, i: Inputs) {
    && (forall c :: c in r.unmet <==> FallsShort(c, i))
    && (forall k, l :: 0 <= k < l < |r.unmet| ==> Place(r.unmet[k]) < Place(r.unmet[l]))
    && (r.eligible <==> forall c :: !FallsShort(c, i))
  }

  /** Everything a receipt says. */
  ghost predicate Describes(r: Receipt, commit: nat, i: Inputs, recorded: Option<nat>) {
    && r.commit == commit && SharedBy(r, i.t17.value) && SharedBy(r, i.t19.value)
    && RecordedOf(r.t17, i.t17) && RecordedOf(r.t19, i.t19)
    && Attests(r.hosted, i.hosted, HostedFull, commit, i.t17.value.hostedRun, i.t19.value.hostedRun)
    && Attests(r.security, i.security, SecurityQuality, commit, i.t17.value.securityRun, i.t19.value.securityRun)
    && (if i.clean.None? then r.clean.None? && recorded.None? && !r.cleanMachine
        else CleanHostBound(r, i.clean.value, recorded))
    && !r.threeD && !r.criterionPass && !r.promotion && Judges(r, i)
  }

  /** A receipt is made exactly when both journeys were accepted and tested at the commit, and there is a receipt that
      describes the inputs; it is then the only one. */
  lemma BuildsTheDescription(commit: nat, i: Inputs, recorded: Option<nat>)
    ensures Build(commit, i, recorded).Some? ==>
              && Testified(commit, i) && Describes(Build(commit, i, recorded).value, commit, i, recorded)
    ensures forall r :: Testified(commit, i) && Describes(r, commit, i, recorded) ==>
              Build(commit, i, recorded) == Some(r)
  {
    if Build(commit, i, recorded).Some? {
      DescribesInputs(commit, i, recorded);
    }
    forall r | Testified(commit, i) && Describes(r, commit, i, recorded) ensures Build(commit, i, recorded) == Some(r) {
      OneDescription(commit, i, recorded, r);
    }
  }

  predicate Testified(commit: nat, i: Inputs) {
    && Accepts(T17, i.t17.value, commit) && i.t17.value.hostedCommit == commit
    && Accepts(T19, i.t19.value, commit) && i.t19.value.hostedCommit == commit
  }

  lemma DescribesInputs(commit: nat, i: Inputs, recorded: Option<nat>)
    requires Build(commit, i, recorded).Some?
    ensures Testified(commit, i) && Describes(Build(commit, i, recorded).value, commit, i, recorded)
  {
    var r := Build(commit, i, recorded).value;
    BuildSays(commit, i, recorded);
    JudgesRight(r, i);
  }

  lemma BuildSays(commit: nat, i: Inputs, recorded: Option<nat>)
    requires Build(commit, i, recorded).Some?
    ensures Testified(commit, i) && Copies(Build(commit, i, recorded).value, i)
    ensures var r := Build(commit, i, recorded).value;
            && r.commit == commit && SharedBy(r, i.t17.value) && SharedBy(r, i.t19.value)
            && Attests(r.hosted, i.hosted, HostedFull, commit, i.t17.value.hostedRun, i.t19.value.hostedRun)
            && Attests(r.security, i.security, SecurityQuality, commit, i.t17.value.securityRun,
                       i.t19.value.securityRun)
            && (if i.clean.None? then r.clean.None? && recorded.None? && !r.cleanMachine
                else CleanHostBound(r, i.clean.value, recorded))
            && !r.threeD && !r.criterionPass && !r.promotion
            && r.unmet == Unmet(r) && r.eligible == (r.unmet == [])
  {
  }

  lemma JudgesRight(r: Receipt, i: Inputs)
    requires Copies(r, i) && r.unmet == Unmet(r) && r.eligible == (r.unmet == [])
    ensures Judges(r, i)
  {
    UnmetIs(r, i);
    if r.unmet != [] {
      assert r.unmet[0] in r.unmet;
    }
  }

  /** What the verdict is drawn from. */
  predicate Copies(r: Receipt, i: Inputs) {
    && RecordedOf(r.t17, i.t17) && RecordedOf(r.t19, i.t19)
    && r.hosted.conclusion == i.hosted.value.conclusion && r.security.conclusion == i.security.value.conclusion
    && r.clean.None? == i.clean.None?
  }

  /** Ascending places from `lo` to below `hi`. */
  predicate Placed(a: seq<Condition>, lo: nat, hi: nat) {
    && (forall k :: 0 <= k < |a| ==> lo <= Place(a[k]) < hi)
    && (forall k, l :: 0 <= k < l < |a| ==> Place(a[k]) < Place(a[l]))
  }

  lemma PlacedAfter(a: seq<Condition>, b: seq<Condition>, lo: nat, mid: nat, hi: nat)
    requires Placed(a, lo, mid) && Placed(b, mid, hi) && lo <= mid <= hi
    ensures Placed(a + b, lo, hi)
  {
  }

  lemma JourneyPlaced(which: Which, r: JourneyRecord, lo: nat)
    requires lo == if which == T17 then 0 else 3
    ensures Placed(UnmetOf(which, r), lo, lo + 3)
  {
    var mode := if r.mode == Release then [] else [NotRelease(which)];
    var three := if r.expectedRuns == r.runCount == r.passes == 3 && r.pass then [] else [NotThreeOfThree(which)];
    var signing := if r.signing == DeveloperIdNotarized then [] else [NotNotarized(which)];
    OneEach(mode, three, signing, lo);
    assert UnmetOf(which, r) == mode + three + signing;
  }

  lemma OneEach(a: seq<Condition>, b: seq<Condition>, c: seq<Condition>, lo: nat)
    requires Placed(a, lo, lo + 1) && Placed(b, lo + 1, lo + 2) && Placed(c, lo + 2, lo + 3)
    ensures Placed(a + b + c, lo, lo + 3)
  {
    PlacedAfter(a, b, lo, lo + 1, lo + 2);
    PlacedAfter(a + b, c, lo, lo + 2, lo + 3);
  }

  lemma UnmetPlaced(r: Receipt)
    ensures Placed(Unmet(r), 0, 9)
  {
    JourneyPlaced(T17, r.t17, 0);
    JourneyPlaced(T19, r.t19, 3);
    var first, second := UnmetOf(T17, r.t17), UnmetOf(T19, r.t19);
    var hosted := if r.hosted.conclusion == Success then [] else [CiNotSuccess(HostedFull)];
    var security := if r.security.conclusion == Success then [] else [CiNotSuccess(SecurityQuality)];
    var clean := if r.clean.Some? then [] else [NoCleanHost];
    PlacedAfter(first, second, 0, 3, 6);
    PlacedAfter(first + second, hosted, 0, 6, 7);
    PlacedAfter(first + second + hosted, security, 0, 7, 8);
    PlacedAfter(first + second + hosted + security, clean, 0, 8, 9);
    assert Unmet(r) == first + second + hosted + security + clean;
  }

  lemma InUnmetOf(which: Which, r: JourneyRecord, c: Condition)
    ensures c in UnmetOf(which, r) <==>
              || (c == NotRelease(which) && r.mode != Release)
              || (c == NotThreeOfThree(which) && (r.expectedRuns != 3 || r.runCount != 3 || r.passes != 3 || !r.pass))
              || (c == NotNotarized(which) && r.signing != DeveloperIdNotarized)
  {
  }

  /** The list of unmet conditions holds exactly those that fail, in order. */
  lemma UnmetIs(r: Receipt, i: Inputs)
    requires Copies(r, i)
    ensures Placed(Unmet(r), 0, 9)
    ensures forall c :: c in Unmet(r) <==> FallsShort(c, i)
  {
    UnmetPlaced(r);
    forall c ensures c in Unmet(r) <==> FallsShort(c, i) {
      InUnmetOf(T17, r.t17, c);
      InUnmetOf(T19, r.t19, c);
    }
  }

  lemma PlaceTells(c: Condition, d: Condition)
    requires Place(c) == Place(d)
    ensures c == d
  {
  }

  /** Two lists of the same conditions in the same order are the same. */
  lemma {:induction false} SameConditions(a: seq<Condition>, b: seq<Condition>)
    requires forall c :: c in a <==> c in b
    requires Placed(a, 0, 9) && Placed(b, 0, 9)
    ensures a == b
  {
    assert a == [] || a[0] in a;
    assert b == [] || b[0] in b;
    if a != [] {
      PlaceTells(a[0], b[0]);
      forall c ensures c in a[1..] <==> c in b[1..] {
        TailMember(a, c);
        TailMember(b, c);
      }
      SameConditions(a[1..], b[1..]);
    }
  }

  lemma TailMember(a: seq<Condition>, c: Condition)
    requires a != [] && Placed(a, 0, 9)
    ensures c in a[1..] <==> c in a && c != a[0]
  {
    assert a == [a[0]] + a[1..];
  }

  lemma OneDescription(commit: nat, i: Inputs, recorded: Option<nat>, r: Receipt)
    requires Testified(commit, i) && Describes(r, commit, i, recorded)
    ensures Build(commit, i, recorded) == Some(r)
  {
    PartsOf(commit, i, recorded, r);
    VerdictOf(r, i);
    CombinesTo(r);
    BuildPassesItsOwnCheck(commit, i, recorded);
  }

  lemma VerdictOf(r: Receipt, i: Inputs)
    requires Copies(r, i) && Judges(r, i)
    ensures r.unmet == Unmet(r) && r.eligible == (r.unmet == [])
  {
    UnmetIs(r, i);
    assert Placed(r.unmet, 0, 9);
    SameConditions(r.unmet, Unmet(r));
    assert r.unmet == [] || r.unmet[0] in r.unmet;
  }

  lemma CombinesTo(r: Receipt)
    requires r.unmet == Unmet(r) && r.eligible == (r.unmet == []) && r.cleanMachine == r.clean.Some?
    requires !r.threeD && !r.criterionPass && !r.promotion
    ensures r == Combine(r.commit, r.host, r.macos, r.app, r.executable, r.t17, r.t19, r.hosted, r.security, r.clean)
  {
  }

  lemma PartsOf(commit: nat, i: Inputs, recorded: Option<nat>, r: Receipt)
    requires Testified(commit, i) && Describes(r, commit, i, recorded)
    ensures RecordOf(T17, i.t17, commit) == Some(r.t17) && RecordOf(T19, i.t19, commit) == Some(r.t19)
    ensures CiOf(i.hosted, HostedFull, commit, i.t17.value.hostedRun, i.t19.value.hostedRun) == Some(r.hosted)
    ensures CiOf(i.security, SecurityQuality, commit, i.t17.value.securityRun, i.t19.value.securityRun)
            == Some(r.security)
    ensures i.clean.Some? ==>
              recorded.Some? && HostOf(i.clean.value, recorded.value, commit, i.t17.value, i.t19.value) == r.clean
  {
  }

  // ---------- build, step by step ----------

  method TakeJourney(which: Which, d: Doc<Journey>, commit: nat) returns (r: Option<JourneyRecord>)
    ensures r == RecordOf(which, d, commit)
  {
    var ok: bool;
    var j := d.value;
    if which == T17 {
      ok := ValidateT17(j, commit);
    } else {
      ok := ValidateT19(j, commit);
    }
    if !ok || j.hostedCommit != commit || j.threeD || j.criterionPass || j.promotion {
      return None;
    }
    return Some(JourneyRecord(d.sha, j.job, j.mode, j.expectedRuns, j.runCount, j.passes, j.pass, j.signing, j.started,
                              j.finished));
  }

  method TakeCi(d: Doc<Ci>, kind: CiKind, commit: nat, first: Option<nat>, second: Option<nat>)
    returns (r: Option<CiRecord>)
    ensures r == CiOf(d, kind, commit, first, second)
  {
    if d.value.kind != kind || d.value.commit != commit {
      return None;
    }
    if (first.Some? && first.value != d.value.run) || (second.Some? && second.value != d.value.run) {
      return None;
    }
    return Some(CiRecord(d.sha, d.value.run, d.value.conclusion));
  }

  method TakeHost(d: Doc<Clean>, recorded: nat, commit: nat, t17: Journey, t19: Journey)
    returns (r: Option<HostRecord>)
    ensures r == HostOf(d, recorded, commit, t17, t19)
  {
    if d.sha != recorded || d.value.commit != commit || d.value.host != t17.host || d.value.macos != t17.macos {
      return None;
    }
    if d.value.attestedAt > t17.started || d.value.attestedAt > t19.started {
      return None;
    }
    return Some(HostRecord(recorded, d.value.attestedAt));
  }

  /** `build`. */
  method MakeReceipt(commit: nat, i: Inputs, recorded: Option<nat>) returns (r: Option<Receipt>)
    ensures r == Build(commit, i, recorded)
    ensures r.Some? ==> Testified(commit, i) && Describes(r.value, commit, i, recorded)
    ensures forall s :: Testified(commit, i) && Describes(s, commit, i, recorded) ==> r == Some(s)
  {
    BuildsTheDescription(commit, i, recorded);
    var t17 := TakeJourney(T17, i.t17, commit);
    if t17.None? {
      return None;
    }
    var t19 := TakeJourney(T19, i.t19, commit);
    if t19.None? {
      return None;
    }
    var a, b := i.t17.value, i.t19.value;
    if a.host != b.host || a.macos != b.macos || a.app == None || a.app != b.app || a.executable == None
       || a.executable != b.executable {
      return None;
    }
    var hosted := TakeCi(i.hosted, HostedFull, commit, a.hostedRun, b.hostedRun);
    if hosted.None? {
      return None;
    }
    var security := TakeCi(i.security, SecurityQuality, commit, a.securityRun, b.securityRun);
    if security.None? || i.clean.None? != recorded.None? {
      return None;
    }
    var clean: Option<HostRecord> := None;
    if i.clean.Some? {
      clean := TakeHost(i.clean.value, recorded.value, commit, a, b);
      if clean.None? {
        return None;
      }
    }
    r := Some(Combine(commit, a.host, a.macos, a.app.value, a.executable.value, t17.value, t19.value, hosted.value,
                      security.value, clean));
    BuildPassesItsOwnCheck(commit, i, recorded);
    return if ValidReceipt(r.value) then r else None;
  }

  // ---------- the receipt as a document ----------

  datatype Key =
    | KeySchema | KeyCriterion | KeyCommit | KeyThreeD | KeyHost | KeyMacos | KeyApp | KeyExecutable | KeyJourneys
    | KeyCi | KeyCleanHost | KeyCleanMachine | KeyUnmet | KeyEligible | KeyCriterionPass | KeyPromotion
    | KeyT17 | KeyT19 | KeyReceiptSha | KeyJob | KeyMode | KeyExpectedRuns | KeyRunCount | KeyPasses | KeyPass
    | KeySigning | KeyStarted | KeyFinished | KeyHostedFull | KeySecurityQuality | KeyAttestationSha | KeyRun
    | KeyConclusion | KeyAttestedAt

  /** The strings of a receipt: fixed words, times, and everything else. */
  datatype Text =
    | SchemaWord | CriterionWord | AbsentWord | ModeWord(mode: Mode) | SigningWord(signing: Signing)
    | ConclusionWord(conclusion: Conclusion) | ConditionWord(condition: Condition) | Time(t: int) | Token(n: nat)

  type Document = Json<Key, Text>

  function EncodeJourney(r: JourneyRecord): Document {
    Obj(map[KeyReceiptSha := Str(Token(r.sha)), KeyJob := Str(Token(r.job)), KeyMode := Str(ModeWord(r.mode)),
            KeyExpectedRuns := Int(r.expectedRuns), KeyRunCount := Int(r.runCount), KeyPasses := Int(r.passes),
            KeyPass := Bool(r.pass), KeySigning := Str(SigningWord(r.signing)),
            KeyStarted := Str(Time(r.started)), KeyFinished := Str(Time(r.finished))])
  }

  function EncodeCi(r: CiRecord): Document {
    Obj(map[KeyAttestationSha := Str(Token(r.sha)), KeyRun := Str(Token(r.run)),
            KeyConclusion := Str(ConclusionWord(r.conclusion))])
  }

  function EncodeHost(r: Option<HostRecord>): Document {
    match r
    case None => Obj(map[KeyAttestationSha := Str(AbsentWord), KeyAttestedAt := Str(AbsentWord)])
    case Some(h) => Obj(map[KeyAttestationSha := Str(Token(h.sha)), KeyAttestedAt := Str(Time(h.attestedAt))])
  }

  function EncodeUnmet(unmet: seq<Condition>): Document {
    Arr(seq(|unmet|, i requires 0 <= i < |unmet| => Str(ConditionWord(unmet[i]))))
  }

  const RECEIPT_KEYS := {KeySchema, KeyCriterion, KeyCommit, KeyThreeD, KeyHost, KeyMacos, KeyApp, KeyExecutable,
                         KeyJourneys, KeyCi, KeyCleanHost, KeyCleanMachine, KeyUnmet, KeyEligible, KeyCriterionPass,
                         KeyPromotion}

  /** One field of a receipt, given the parts that are documents themselves. */
  function FieldOf(r: Receipt, k: Key, journeys: Document, ci: Document, host: Document, unmet: Document): Document {
    match k
    case KeySchema => Str(SchemaWord)
    case KeyCriterion => Str(CriterionWord)
    case KeyCommit => Str(Token(r.commit))
    case KeyThreeD => Bool(r.threeD)
    case KeyHost => Str(Token(r.host))
    case KeyMacos => Str(Token(r.macos))
    case KeyApp => Str(Token(r.app))
    case KeyExecutable => Str(Token(r.executable))
    case KeyJourneys => journeys
    case KeyCi => ci
    case KeyCleanHost => host
    case KeyCleanMachine => Bool(r.cleanMachine)
    case KeyUnmet => unmet
    case KeyEligible => Bool(r.eligible)
    case KeyCriterionPass => Bool(r.criterionPass)
    case KeyPromotion => Bool(r.promotion)
    case _ => Null
  }

  function Around(r: Receipt, journeys: Document, ci: Document, host: Document, unmet: Document): Document {
    Obj(map k | k in RECEIPT_KEYS :: FieldOf(r, k, journeys, ci, host, unmet))
  }

  function Two(k: Key, a: Document, l: Key, b: Document): Document { Obj(map[k := a, l := b]) }

  function Encode(r: Receipt): Document {
    Around(r, Two(KeyT17, EncodeJourney(r.t17), KeyT19, EncodeJourney(r.t19)),
           Two(KeyHostedFull, EncodeCi(r.hosted), KeySecurityQuality, EncodeCi(r.security)),
           EncodeHost(r.clean), EncodeUnmet(r.unmet))
  }

  /** A receipt holds no list but that of the unmet conditions, and those are strings. */
  lemma EncodeIsClear(r: Receipt)
    ensures Clear(Encode(r))
  {
    JourneyIsClear(r.t17);
    JourneyIsClear(r.t19);
    CiIsClear(r.hosted);
    CiIsClear(r.security);
    HostIsClear(r.clean);
    UnmetIsClear(r.unmet);
    TwoAreClear(KeyT17, EncodeJourney(r.t17), KeyT19, EncodeJourney(r.t19));
    TwoAreClear(KeyHostedFull, EncodeCi(r.hosted), KeySecurityQuality, EncodeCi(r.security));
    AroundIsClear(r, Two(KeyT17, EncodeJourney(r.t17), KeyT19, EncodeJourney(r.t19)),
                  Two(KeyHostedFull, EncodeCi(r.hosted), KeySecurityQuality, EncodeCi(r.security)),
                  EncodeHost(r.clean), EncodeUnmet(r.unmet));
  }

  lemma AroundIsClear(r: Receipt, journeys: Document, ci: Document, host: Document, unmet: Document)
    requires Clear(journeys) && Clear(ci) && Clear(host) && Clear(unmet)
    ensures Clear(Around(r, journeys, ci, host, unmet))
  {
  }

  lemma TwoAreClear(k: Key, a: Document, l: Key, b: Document)
    requires Clear(a) && Clear(b)
    ensures Clear(Two(k, a, l, b))
  {
  }

  lemma JourneyIsClear(r: JourneyRecord)
    ensures Clear(EncodeJourney(r))
  {
  }

  lemma CiIsClear(r: CiRecord)
    ensures Clear(EncodeCi(r))
  {
  }

  lemma HostIsClear(r: Option<HostRecord>)
    ensures Clear(EncodeHost(r))
  {
  }

  lemma UnmetIsClear(unmet: seq<Condition>)
    ensures Clear(EncodeUnmet(unmet))
  {
  }

  // ---------- reading a document, as validate_receipt does ----------

  /** `_object`: an object with exactly these fields. */
  predicate HasKeys(d: Document, keys: set<Key>) { d.Obj? && d.fields.Keys == keys }

  predicate TextAt(d: Document, k: Key) { d.Obj? && k in d.fields && d.fields[k].Str? }

  predicate TokenAt(d: Document, k: Key) { TextAt(d, k) && d.fields[k].s.Token? }

  predicate TimeAt(d: Document, k: Key) { TextAt(d, k) && d.fields[k].s.Time? }

  predicate IntAt(d: Document, k: Key) { d.Obj? && k in d.fields && d.fields[k].Int? }

  predicate BoolAt(d: Document, k: Key) { d.Obj? && k in d.fields && d.fields[k].Bool? }

  function ReadJourney(d: Document): Option<JourneyRecord> {
    if HasKeys(d, {KeyReceiptSha, KeyJob, KeyMode, KeyExpectedRuns, KeyRunCount, KeyPasses, KeyPass, KeySigning,
                   KeyStarted, KeyFinished})
       && TokenAt(d, KeyReceiptSha) && TokenAt(d, KeyJob) && TextAt(d, KeyMode) && d.fields[KeyMode].s.ModeWord?
       && IntAt(d, KeyExpectedRuns) && IntAt(d, KeyRunCount) && IntAt(d, KeyPasses) && BoolAt(d, KeyPass)
       && TextAt(d, KeySigning) && d.fields[KeySigning].s.SigningWord?
       && TimeAt(d, KeyStarted) && TimeAt(d, KeyFinished)
    then Some(JourneyRecord(
      d.fields[KeyReceiptSha].s.n, d.fields[KeyJob].s.n, d.fields[KeyMode].s.mode, d.fields[KeyExpectedRuns].n,
      d.fields[KeyRunCount].n, d.fields[KeyPasses].n, d.fields[KeyPass].b, d.fields[KeySigning].s.signing,
      d.fields[KeyStarted].s.t, d.fields[KeyFinished].s.t))
    else None
  }

  function ReadCi(d: Document): Option<CiRecord> {
    if HasKeys(d, {KeyAttestationSha, KeyRun, KeyConclusion}) && TokenAt(d, KeyAttestationSha) && TokenAt(d, KeyRun)
       && TextAt(d, KeyConclusion) && d.fields[KeyConclusion].s.ConclusionWord?
    then Some(CiRecord(d.fields[KeyAttestationSha].s.n, d.fields[KeyRun].s.n, d.fields[KeyConclusion].s.conclusion))
    else None
  }

  /** The outer None is a refusal, the inner one an absent attestation. */
  function ReadHost(d: Document): Option<Option<HostRecord>> {
    if d == EncodeHost(None) then Some(None)
    else if HasKeys(d, {KeyAttestationSha, KeyAttestedAt}) && TokenAt(d, KeyAttestationSha) && TimeAt(d, KeyAttestedAt)
    then Some(Some(HostRecord(d.fields[KeyAttestationSha].s.n, d.fields[KeyAttestedAt].s.t)))
    else None
  }

  function ReadUnmet(d: Document): Option<seq<Condition>> {
    if d.Arr? && forall i :: 0 <= i < |d.items| ==> d.items[i].Str? && d.items[i].s.ConditionWord?
    then Some(seq(|d.items|, i requires 0 <= i < |d.items| && d.items[i].Str? && d.items[i].s.ConditionWord? =>
                               d.items[i].s.condition))
    else None
  }

  function ReadJourneys(d: Document): Option<(JourneyRecord, JourneyRecord)> {
    if !HasKeys(d, {KeyT17, KeyT19}) then None
    else
      var t17 :- ReadJourney(d.fields[KeyT17]);
      var t19 :- ReadJourney(d.fields[KeyT19]);
      Some((t17, t19))
  }

  function ReadCis(d: Document): Option<(CiRecord, CiRecord)> {
    if !HasKeys(d, {KeyHostedFull, KeySecurityQuality}) then None
    else
      var hosted :- ReadCi(d.fields[KeyHostedFull]);
      var security :- ReadCi(d.fields[KeySecurityQuality]);
      Some((hosted, security))
  }

  /** A document with the fields of a receipt, those that are no documents themselves each of its own type. */
  predicate Shaped(d: Document) {
    && HasKeys(d, RECEIPT_KEYS)
    && d.fields[KeySchema] == Str(SchemaWord) && d.fields[KeyCriterion] == Str(CriterionWord)
    && TokenAt(d, KeyCommit) && TokenAt(d, KeyHost) && TokenAt(d, KeyMacos) && TokenAt(d, KeyApp)
    && TokenAt(d, KeyExecutable) && BoolAt(d, KeyThreeD) && BoolAt(d, KeyCleanMachine) && BoolAt(d, KeyEligible)
    && BoolAt(d, KeyCriterionPass) && BoolAt(d, KeyPromotion)
  }

  function Gather(d: Document, journeys: (JourneyRecord, JourneyRecord), ci: (CiRecord, CiRecord),
                  clean: Option<HostRecord>, unmet: seq<Condition>): Receipt
    requires Shaped(d)
  {
    Receipt(d.fields[KeyCommit].s.n, d.fields[KeyHost].s.n, d.fields[KeyMacos].s.n, d.fields[KeyApp].s.n,
            d.fields[KeyExecutable].s.n, journeys.0, journeys.1, ci.0, ci.1, clean,
            d.fields[KeyCleanMachine].b, d.fields[KeyThreeD].b, d.fields[KeyCriterionPass].b,
            d.fields[KeyPromotion].b, unmet, d.fields[KeyEligible].b)
  }

  function Read(d: Document): Option<Receipt> {
    if !Shaped(d) then None
    else
      var journeys :- ReadJourneys(d.fields[KeyJourneys]);
      var ci :- ReadCis(d.fields[KeyCi]);
      var clean :- ReadHost(d.fields[KeyCleanHost]);
      var unmet :- ReadUnmet(d.fields[KeyUnmet]);
      Some(Gather(d, journeys, ci, clean, unmet))
  }

  lemma ReadsJourney(r: JourneyRecord)
    ensures ReadJourney(EncodeJourney(r)) == Some(r)
  {
  }

  lemma ReadsHost(r: Option<HostRecord>)
    ensures ReadHost(EncodeHost(r)) == Some(r)
  {
    if r.Some? {
      assert EncodeHost(r).fields[KeyAttestationSha] != EncodeHost(None).fields[KeyAttestationSha];
    }
  }

  lemma ReadsUnmet(unmet: seq<Condition>)
    ensures ReadUnmet(EncodeUnmet(unmet)) == Some(unmet)
  {
    var d := EncodeUnmet(unmet);
    assert ReadUnmet(d).value == unmet;
  }

  lemma ReadsJourneys(a: JourneyRecord, b: JourneyRecord)
    ensures ReadJourneys(Two(KeyT17, EncodeJourney(a), KeyT19, EncodeJourney(b))) == Some((a, b))
  {
    ReadsJourney(a);
    ReadsJourney(b);
  }

  lemma ReadsCi(r: CiRecord)
    ensures ReadCi(EncodeCi(r)) == Some(r)
  {
  }

  lemma ReadsCis(a: CiRecord, b: CiRecord)
    ensures ReadCis(Two(KeyHostedFull, EncodeCi(a), KeySecurityQuality, EncodeCi(b))) == Some((a, b))
  {
    ReadsCi(a);
    ReadsCi(b);
  }

  lemma ReadsAround(r: Receipt, journeys: Document, ci: Document, host: Document, unmet: Document)
    requires ReadJourneys(journeys) == Some((r.t17, r.t19)) && ReadCis(ci) == Some((r.hosted, r.security))
    requires ReadHost(host) == Some(r.clean) && ReadUnmet(unmet) == Some(r.unmet)
    ensures Read(Around(r, journeys, ci, host, unmet)) == Some(r)
  {
    AroundIsShaped(r, journeys, ci, host, unmet);
  }

  lemma AroundIsShaped(r: Receipt, journeys: Document, ci: Document, host: Document, unmet: Document)
    ensures var d := Around(r, journeys, ci, host, unmet);
            && Shaped(d) && d.fields[KeyJourneys] == journeys && d.fields[KeyCi] == ci
            && d.fields[KeyCleanHost] == host && d.fields[KeyUnmet] == unmet
            && Gather(d, (r.t17, r.t19), (r.hosted, r.security), r.clean, r.unmet) == r
  {
    var d := Around(r, journeys, ci, host, unmet);
    assert d.fields.Keys == RECEIPT_KEYS;
  }

  /** What was written is read back; so different receipts are different documents. */
  lemma ReadsEncoded(r: Receipt)
    ensures Read(Encode(r)) == Some(r)
  {
    ReadsJourneys(r.t17, r.t19);
    ReadsCis(r.hosted, r.security);
    ReadsHost(r.clean);
    ReadsUnmet(r.unmet);
    ReadsAround(r, Two(KeyT17, EncodeJourney(r.t17), KeyT19, EncodeJourney(r.t19)),
                Two(KeyHostedFull, EncodeCi(r.hosted), KeySecurityQuality, EncodeCi(r.security)),
                EncodeHost(r.clean), EncodeUnmet(r.unmet));
  }

  // ---------- verify ----------

  function DigestOf(clean: Option<HostRecord>): Option<nat> { if clean.None? then None else Some(clean.value.sha) }

  /** `verify`, on the document as supplied. */
  predicate Verifies(d: Document, i: Inputs, expectedCommit: Option<nat>) {
    var read := Read(d);
    && read.Some? && ValidReceipt(read.value) && (expectedCommit.Some? ==> read.value.commit == expectedCommit.value)
    && read.value.clean.None? == i.clean.None?
    && var rebuilt := Build(read.value.commit, i, DigestOf(read.value.clean));
    && rebuilt.Some? && NoDifference(Encode(rebuilt.value), d)
  }

  method VerifyReceipt(d: Document, i: Inputs, expectedCommit: Option<nat>) returns (ok: bool)
    ensures ok <==> Verifies(d, i, expectedCommit)
  {
    var read := Read(d);
    if read.None? || !ValidReceipt(read.value) {
      return false;
    }
    var r := read.value;
    if (expectedCommit.Some? && r.commit != expectedCommit.value) || r.clean.None? != i.clean.None? {
      return false;
    }
    var rebuilt := MakeReceipt(r.commit, i, DigestOf(r.clean));
    if rebuilt.None? {
      return false;
    }
    var difference := FirstDifference(Encode(rebuilt.value), d);
    return difference.None?;
  }

  /** The digest an operator must have recorded for the attestation supplied. */
  function SuppliedDigest(i: Inputs): Option<nat> { if i.clean.None? then None else Some(i.clean.value.sha) }

  lemma BuiltFrom(commit: nat, i: Inputs, recorded: Option<nat>)
    requires Build(commit, i, recorded).Some?
    ensures var r := Build(commit, i, recorded).value;
            ValidReceipt(r) && r.commit == commit && recorded == SuppliedDigest(i) == DigestOf(r.clean)
            && r.clean.None? == i.clean.None?
  {
  }

  /** An accepted document is, to the last field, the encoding of what `build` derives from the inputs. */
  lemma VerifiedIsBuilt(d: Document, i: Inputs, expectedCommit: Option<nat>)
    requires Verifies(d, i, expectedCommit)
    ensures var r := Read(d).value;
            && Build(r.commit, i, SuppliedDigest(i)) == Some(r) && d == Encode(r)
            && (expectedCommit.Some? ==> r.commit == expectedCommit.value)
  {
    var read := Read(d).value;
    var rebuilt := Build(read.commit, i, DigestOf(read.clean)).value;
    BuiltFrom(read.commit, i, DigestOf(read.clean));
    EncodeIsClear(rebuilt);
    ClearIsSame(Encode(rebuilt), d);
    ReadsEncoded(rebuilt);
  }

  /** And every such document is accepted. */
  lemma BuiltIsVerified(commit: nat, i: Inputs)
    requires Build(commit, i, SuppliedDigest(i)).Some?
    ensures Verifies(Encode(Build(commit, i, SuppliedDigest(i)).value), i, Some(commit))
  {
    var r := Build(commit, i, SuppliedDigest(i)).value;
    BuiltFrom(commit, i, SuppliedDigest(i));
    ReadsEncoded(r);
    MatchesItself(Encode(r));
  }

  /** What the inputs of an eligible receipt have in common. */
  predicate OneRelease(commit: nat, i: Inputs) {
    && Deserved(commit, i)
    && i.t17.value.commit == i.t19.value.commit == i.hosted.value.commit == i.security.value.commit == commit
    && i.t17.value.hostedCommit == i.t19.value.hostedCommit == i.clean.value.value.commit == commit
    && i.hosted.value.kind == HostedFull && i.security.value.kind == SecurityQuality
    && SameMachine(i.t17.value, i.t19.value, i.clean.value.value)
    && RunsNamed(i.t17.value, i) && RunsNamed(i.t19.value, i)
  }

  /** One host with one macOS, one app and executable, attested clean before both journeys. */
  predicate SameMachine(a: Journey, b: Journey, clean: Clean) {
    && a.host == b.host == clean.host && a.macos == b.macos == clean.macos
    && a.app == b.app != None && a.executable == b.executable != None
    && clean.attestedAt <= a.started && clean.attestedAt <= b.started
  }

  predicate RunsNamed(j: Journey, i: Inputs) {
    && (j.hostedRun.Some? ==> j.hostedRun == Some(i.hosted.value.run))
    && (j.securityRun.Some? ==> j.securityRun == Some(i.security.value.run))
  }

  lemma EligibleIsOneRelease(commit: nat, i: Inputs, recorded: Option<nat>)
    requires Build(commit, i, recorded).Some? && Build(commit, i, recorded).value.eligible
    ensures OneRelease(commit, i)
  {
    EligibleIffDeserved(commit, i, recorded);
    DescribesInputs(commit, i, recorded);
  }

  /** So an accepted, eligible receipt speaks of one commit, one host, one macOS version, one app and one executable,
      each journey three times through all stages, and the two CI runs and the clean host of that commit. */
  lemma VerifiedClaim(d: Document, i: Inputs, expectedCommit: Option<nat>)
    requires Verifies(d, i, expectedCommit) && Read(d).value.eligible
    ensures OneRelease(Read(d).value.commit, i)
  {
    VerifiedIsBuilt(d, i, expectedCommit);
    EligibleIsOneRelease(Read(d).value.commit, i, SuppliedDigest(i));
  }
}
