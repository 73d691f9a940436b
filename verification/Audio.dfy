/** scripts/audio-teardown-result.py: authenticating the counters of one CoreAudio teardown against its event log, and
    the sums scripts/verify-audio-teardown-receipt.py checks. */
module Audio {
  import opened Results

  datatype Stats = Stats(
    framesRendered: nat, drops: nat, droppedBytes: nat, formatDrops: nat, ringFullDrops: nat,
    queueStopErrors: nat, queueDisposeErrors: nat,
    errors: nat, active: nat, stopping: nat, expectedStopping: nat, unexpected: nat,
    invalidRunState: nat, queueInvalidated: nat, enqueueDuringReset: nat, disposalPending: nat, unclassified: nat)

  /** The equations of `parse_stats`. */
  predicate Reconciles(s: Stats) {
    && s.drops == s.formatDrops + s.ringFullDrops
    && s.errors == s.active + s.stopping
    && s.expectedStopping == s.invalidRunState + s.enqueueDuringReset + s.disposalPending
    && s.stopping == s.expectedStopping + s.queueInvalidated + s.unclassified
    && s.unexpected == s.active + s.queueInvalidated + s.unclassified
  }

  // ---------- the stats line ----------

  /** A field's name is its place in the list of fields; any other name has a greater number. */
  const FIELDS := 17

  datatype Token = Malformed | Pair(name: nat, value: nat)

  function Values(s: Stats): seq<nat> {
    [s.framesRendered, s.drops, s.droppedBytes, s.formatDrops, s.ringFullDrops, s.queueStopErrors, s.queueDisposeErrors,
     s.errors, s.active, s.stopping, s.expectedStopping, s.unexpected,
     s.invalidRunState, s.queueInvalidated, s.enqueueDuringReset, s.disposalPending, s.unclassified]
  }

  function FromValues(v: seq<nat>): Stats
    requires |v| == FIELDS
  {
    Stats(v[0], v[1], v[2], v[3], v[4], v[5], v[6], v[7], v[8], v[9], v[10], v[11], v[12], v[13], v[14], v[15], v[16])
  }

  /** The line that says `s`. */
  predicate Says(tokens: seq<Token>, s: Stats) {
    |tokens| == FIELDS && forall i :: 0 <= i < FIELDS ==> tokens[i] == Pair(i, Values(s)[i])
  }

  lemma RepeatedSaysNothing(tokens: seq<Token>, j: nat, i: nat)
    requires j < i < |tokens| && tokens[i].Pair? && tokens[j].Pair? && tokens[i].name == tokens[j].name
    ensures forall s :: !Says(tokens, s)
  {
    forall s ensures !Says(tokens, s) {
      if Says(tokens, s) {
        NamedInOrder(tokens, s, i);
        NamedInOrder(tokens, s, j);
      }
    }
  }

  lemma NamedInOrder(tokens: seq<Token>, s: Stats, i: nat)
    requires Says(tokens, s) && i < |tokens|
    ensures tokens[i].Pair? && tokens[i].name == i
  {
  }

  /** `parse_stats`: a line is accepted exactly when it says, field by field and in order, counters that reconcile. */
  method ParseStats(tokens: seq<Token>) returns (r: Option<Stats>)
    ensures r.Some? ==> Says(tokens, r.value) && Reconciles(r.value)
    ensures forall s :: Says(tokens, s) && Reconciles(s) ==> r == Some(s)
  {
    var names: seq<nat>, values: seq<nat> := [], [];
    for i := 0 to |tokens|
      invariant |names| == |values| == i
      invariant forall j :: 0 <= j < i ==> tokens[j] == Pair(names[j], values[j])
      invariant forall j, k :: 0 <= j < k < i ==> names[j] != names[k]
    {
      if tokens[i].Malformed? || tokens[i].name in names {
        if tokens[i].Pair? {
          var j :| 0 <= j < i && names[j] == tokens[i].name;
          RepeatedSaysNothing(tokens, j, i);
        }
        return None;
      }
      names, values := names + [tokens[i].name], values + [tokens[i].value];
    }
    if |names| != FIELDS || exists i :: 0 <= i < FIELDS && names[i] != i {
      return None;
    }
    var s := FromValues(values);
    forall t | Says(tokens, t) ensures t == s {
      SaysOnce(tokens, t, values);
    }
    if s.drops != s.formatDrops + s.ringFullDrops || s.errors != s.active + s.stopping {
      return None;
    }
    var expectedTyped := s.invalidRunState + s.enqueueDuringReset + s.disposalPending;
    var typed := expectedTyped + s.queueInvalidated;
    if s.expectedStopping != expectedTyped || s.stopping != typed + s.unclassified {
      return None;
    }
    if s.unexpected != s.active + s.queueInvalidated + s.unclassified {
      return None;
    }
    return Some(s);
  }

  lemma SaysOnce(tokens: seq<Token>, t: Stats, values: seq<nat>)
    requires Says(tokens, t) && |values| == FIELDS && forall j :: 0 <= j < FIELDS ==> tokens[j].value == values[j]
    ensures t == FromValues(values)
  {
    forall j | 0 <= j < FIELDS ensures Values(t)[j] == values[j] {
      assert tokens[j] == Pair(j, Values(t)[j]);
    }
    assert Values(t) == values;
    assert FromValues(Values(t)) == t;
  }

  // ---------- the events ----------

  datatype Reason =
    | ActiveEnqueueFailure
    | InvalidRunState | QueueInvalidated | EnqueueDuringReset | DisposalPending | Unclassified
    | OtherReason

  datatype Operation = Stop | Dispose

  datatype Line =
    | Lifecycle(operation: Operation, status: int, success: bool)
    | Enqueue(stopping: bool, reason: Reason, osstatus: int, expected: bool)
    | Garbled   // begins like an event and is none
    | Unrelated

  /** `STATUS_REASON`. */
  function Classified(status: int): Reason {
    if status == -66_678 then InvalidRunState
    else if status == -66_671 then QueueInvalidated
    else if status == -66_632 then EnqueueDuringReset
    else if status == -66_685 then DisposalPending
    else Unclassified
  }

  /** `EXPECTED_STOPPING`. */
  predicate ExpectedStatus(status: int) { status == -66_678 || status == -66_632 || status == -66_685 }

  function StatusOf(r: Reason): int
    requires r in {InvalidRunState, QueueInvalidated, EnqueueDuringReset, DisposalPending}
  {
    match r
    case InvalidRunState => -66_678
    case QueueInvalidated => -66_671
    case EnqueueDuringReset => -66_632
    case DisposalPending => -66_685
  }

  /** The two tables agree: each typed reason is given for one status and no other, every other status is unclassified,
      and the expected statuses are those of the three reasons that enter the expected total. */
  lemma ReasonsAreStatuses(r: Reason, status: int)
    ensures r in {InvalidRunState, QueueInvalidated, EnqueueDuringReset, DisposalPending} ==>
              (Classified(status) == r <==> status == StatusOf(r))
    ensures ExpectedStatus(status) <==> Classified(status) in {InvalidRunState, EnqueueDuringReset, DisposalPending}
  {
  }

  /** A line that does not contradict itself. */
  predicate Truthful(l: Line) {
    match l
    case Lifecycle(_, status, success) => success == (status == 0)
    case Enqueue(false, reason, _, expected) => reason == ActiveEnqueueFailure && !expected
    case Enqueue(true, reason, status, expected) => reason == Classified(status) && expected == ExpectedStatus(status)
    case Garbled => false
    case Unrelated => true
  }

  /** Kinds of lines to count. */
  datatype Query = Any | Active | Flagged | Unflagged | For(reason: Reason) | Ended(operation: Operation)
                 | EndedBadly(operation: Operation)

  predicate Matches(l: Line, q: Query) {
    match q
    case Any => l.Enqueue?
    case Active => l.Enqueue? && !l.stopping
    case Flagged => l.Enqueue? && l.expected
    case Unflagged => l.Enqueue? && !l.expected
    case For(reason) => l.Enqueue? && l.stopping && l.reason == reason
    case Ended(operation) => l.Lifecycle? && l.operation == operation
    case EndedBadly(operation) => l.Lifecycle? && l.operation == operation && l.status != 0
  }

  function Count(lines: seq<Line>, q: Query): nat {
    if lines == [] then 0
    else Count(lines[..|lines| - 1], q) + (if Matches(lines[|lines| - 1], q) then 1 else 0)
  }

  /** What the log must say for the counters to be believed. */
  predicate Authentic(lines: seq<Line>, s: Stats) {
    && (forall i :: 0 <= i < |lines| ==> Truthful(lines[i]))
    && Count(lines, Any) == s.errors && Count(lines, Active) == s.active
    && Count(lines, For(InvalidRunState)) == s.invalidRunState
    && Count(lines, For(QueueInvalidated)) == s.queueInvalidated
    && Count(lines, For(EnqueueDuringReset)) == s.enqueueDuringReset
    && Count(lines, For(DisposalPending)) == s.disposalPending
    && Count(lines, For(Unclassified)) == s.unclassified
    && Count(lines, Ended(Stop)) == 1 && Count(lines, Ended(Dispose)) == 1
    && Count(lines, EndedBadly(Stop)) == s.queueStopErrors && Count(lines, EndedBadly(Dispose)) == s.queueDisposeErrors
  }

  lemma {:induction false} FlagsCount(lines: seq<Line>)
    requires forall i :: 0 <= i < |lines| ==> Truthful(lines[i])
    ensures Count(lines, Flagged) == Count(lines, For(InvalidRunState)) + Count(lines, For(EnqueueDuringReset))
                                     + Count(lines, For(DisposalPending))
    ensures Count(lines, Unflagged) == Count(lines, Active) + Count(lines, For(QueueInvalidated))
                                       + Count(lines, For(Unclassified))
  {
    if lines != [] {
      FlagsCount(lines[..|lines| - 1]);
    }
  }

  /** In every accepted log the events flagged expected number exactly the expected total, the others the unexpected
      total, and together they are all callback errors. */
  lemma FlagsAuthenticate(lines: seq<Line>, s: Stats)
    requires Authentic(lines, s) && Reconciles(s)
    ensures Count(lines, Flagged) == s.expectedStopping && Count(lines, Unflagged) == s.unexpected
    ensures s.expectedStopping + s.unexpected == s.errors
  {
    FlagsCount(lines);
  }

  lemma CountNext(lines: seq<Line>, i: nat, q: Query)
    requires i < |lines|
    ensures Count(lines[..i + 1], q) == Count(lines[..i], q) + (if Matches(lines[i], q) then 1 else 0)
  {
    assert lines[..i + 1][..i] == lines[..i];
  }

  lemma {:induction false} CountGrows(lines: seq<Line>, i: nat, q: Query)
    requires i <= |lines|
    ensures Count(lines[..i], q) <= Count(lines, q)
    decreases |lines| - i
  {
    if i == |lines| {
      assert lines[..i] == lines;
    } else {
      CountNext(lines, i, q);
      CountGrows(lines, i + 1, q);
    }
  }

  datatype Tally = Tally(events: nat, active: nat, counts: map<Reason, nat>, lifecycle: map<Operation, int>)

  const REASONS := {InvalidRunState, QueueInvalidated, EnqueueDuringReset, DisposalPending, Unclassified}

  /** The counters after some lines. */
  predicate Tallies(t: Tally, lines: seq<Line>) {
    && t.events == Count(lines, Any) && t.active == Count(lines, Active)
    && t.counts.Keys == REASONS && (forall r :: r in REASONS ==> t.counts[r] == Count(lines, For(r)))
    && forall o: Operation ::
         && Count(lines, Ended(o)) == (if o in t.lifecycle then 1 else 0)
         && Count(lines, EndedBadly(o)) == (if o in t.lifecycle && t.lifecycle[o] != 0 then 1 else 0)
  }

  /** One callback event. */
  method TallyEvent(t: Tally, lines: seq<Line>, i: nat) returns (r: Option<Tally>)
    requires i < |lines| && Tallies(t, lines[..i]) && lines[i].Enqueue?
    requires forall q :: Count(lines[..i + 1], q) == Count(lines[..i], q) + (if Matches(lines[i], q) then 1 else 0)
    ensures if Truthful(lines[i]) then r.Some? && Tallies(r.value, lines[..i + 1]) else r.None?
  {
    var l := lines[i];
    if !l.stopping {
      if l.reason != ActiveEnqueueFailure || l.expected {
        return None;
      }
      return Some(t.(events := t.events + 1, active := t.active + 1));
    }
    var classified := Classified(l.osstatus);
    if l.reason != classified || l.expected != ExpectedStatus(l.osstatus) {
      return None;
    }
    return Some(t.(events := t.events + 1, counts := t.counts[classified := t.counts[classified] + 1]));
  }

  predicate Repeats(lines: seq<Line>) { Count(lines, Ended(Stop)) > 1 || Count(lines, Ended(Dispose)) > 1 }

  /** One line; None for a line that contradicts itself or repeats an operation. */
  method TallyOne(t: Tally, lines: seq<Line>, i: nat) returns (r: Option<Tally>)
    requires i < |lines| && Tallies(t, lines[..i])
    ensures r.Some? ==> Truthful(lines[i]) && Tallies(r.value, lines[..i + 1])
    ensures r.None? ==> !Truthful(lines[i]) || Repeats(lines[..i + 1])
  {
    forall q ensures Count(lines[..i + 1], q) == Count(lines[..i], q) + (if Matches(lines[i], q) then 1 else 0) {
      CountNext(lines, i, q);
    }
    match lines[i] {
      case Unrelated => return Some(t);
      case Garbled => return None;
      case Lifecycle(operation, status, success) =>
        if operation in t.lifecycle || (status == 0) != success {
          return None;
        }
        return Some(t.(lifecycle := t.lifecycle[operation := status]));
      case Enqueue(_, _, _, _) =>
        r := TallyEvent(t, lines, i);
    }
  }

  /** `parse_events`: a log is accepted exactly when it is authentic. */
  method ParseEvents(lines: seq<Line>, s: Stats) returns (ok: bool)
    ensures ok <==> Authentic(lines, s)
  {
    var t := Tally(0, 0, map[InvalidRunState := 0, QueueInvalidated := 0, EnqueueDuringReset := 0, DisposalPending := 0,
                             Unclassified := 0], map[]);
    for i := 0 to |lines|
      invariant Tallies(t, lines[..i]) && forall j :: 0 <= j < i ==> Truthful(lines[j])
    {
      var next := TallyOne(t, lines, i);
      if next.None? {
        CountGrows(lines, i + 1, Ended(Stop));
        CountGrows(lines, i + 1, Ended(Dispose));
        return false;
      }
      t := next.value;
    }
    assert lines[..|lines|] == lines;
    return t.events == s.errors && t.active == s.active
      && t.counts[InvalidRunState] == s.invalidRunState && t.counts[QueueInvalidated] == s.queueInvalidated
      && t.counts[EnqueueDuringReset] == s.enqueueDuringReset && t.counts[DisposalPending] == s.disposalPending
      && t.counts[Unclassified] == s.unclassified
      && Stop in t.lifecycle && Dispose in t.lifecycle
      && s.queueStopErrors == (if t.lifecycle[Stop] != 0 then 1 else 0)
      && s.queueDisposeErrors == (if t.lifecycle[Dispose] != 0 then 1 else 0);
  }

  // ---------- the receipt over all lanes ----------

  function Add(a: Stats, b: Stats): Stats {
    Stats(a.framesRendered + b.framesRendered, a.drops + b.drops, a.droppedBytes + b.droppedBytes,
          a.formatDrops + b.formatDrops, a.ringFullDrops + b.ringFullDrops,
          a.queueStopErrors + b.queueStopErrors, a.queueDisposeErrors + b.queueDisposeErrors,
          a.errors + b.errors, a.active + b.active, a.stopping + b.stopping,
          a.expectedStopping + b.expectedStopping, a.unexpected + b.unexpected,
          a.invalidRunState + b.invalidRunState, a.queueInvalidated + b.queueInvalidated,
          a.enqueueDuringReset + b.enqueueDuringReset, a.disposalPending + b.disposalPending,
          a.unclassified + b.unclassified)
  }

  /** Fieldwise sums, which the receipt calls totals. */
  function Total(lanes: seq<Stats>): Stats {
    if lanes == [] then Stats(0, 0, 0, 0, 0, 0, 0, 0, 0, 0, 0, 0, 0, 0, 0, 0, 0)
    else Add(Total(lanes[..|lanes| - 1]), lanes[|lanes| - 1])
  }

  /** The equations of the receipt verifier. */
  predicate ReceiptReconciles(t: Stats) {
    && t.errors == t.active + t.stopping
    && t.expectedStopping == t.invalidRunState + t.enqueueDuringReset + t.disposalPending
    && t.stopping == t.invalidRunState + t.enqueueDuringReset + t.disposalPending + t.queueInvalidated + t.unclassified
    && t.unexpected == t.active + t.queueInvalidated + t.unclassified
  }

  predicate Quiet(s: Stats) { s.drops == 0 && s.queueStopErrors == 0 && s.queueDisposeErrors == 0 && s.unexpected == 0 }

  /** A lane `validate` lets through. */
  predicate CleanLane(s: Stats) { s.framesRendered > 0 && Quiet(s) }

  /** What the receipt verifier's `computed` asks of the totals. */
  predicate CleanTotals(t: Stats) { CleanLane(t) && t.active == 0 && t.unclassified == 0 }

  /** The totals of any number of accepted lanes satisfy the verifier's equations. */
  lemma {:induction false} TotalsReconcile(lanes: seq<Stats>)
    requires forall i :: 0 <= i < |lanes| ==> Reconciles(lanes[i])
    ensures Reconciles(Total(lanes)) && ReceiptReconciles(Total(lanes))
    ensures Total(lanes).drops == Total(lanes).formatDrops + Total(lanes).ringFullDrops
  {
    if lanes != [] {
      TotalsReconcile(lanes[..|lanes| - 1]);
    }
  }

  lemma {:induction false} QuietTotals(lanes: seq<Stats>)
    ensures Quiet(Total(lanes)) <==> forall i :: 0 <= i < |lanes| ==> Quiet(lanes[i])
    ensures Total(lanes).framesRendered > 0 <==> exists i :: 0 <= i < |lanes| && lanes[i].framesRendered > 0
  {
    if lanes != [] {
      var before, last := lanes[..|lanes| - 1], lanes[|lanes| - 1];
      QuietTotals(before);
      assert lanes == before + [last];
      assert lanes[|lanes| - 1] == last;
    }
  }

  /** Sums hide nothing: over accepted lanes, the totals are clean exactly when every lane was quiet and some lane
      rendered a frame. */
  lemma CleanTotalsMean(lanes: seq<Stats>)
    requires forall i :: 0 <= i < |lanes| ==> Reconciles(lanes[i])
    ensures CleanTotals(Total(lanes)) <==>
              && (forall i :: 0 <= i < |lanes| ==> Quiet(lanes[i]))
              && exists i :: 0 <= i < |lanes| && lanes[i].framesRendered > 0
  {
    TotalsReconcile(lanes);
    QuietTotals(lanes);
  }
}
