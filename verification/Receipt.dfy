/** scripts/snapshot-restore-channel.py: the incremental parser of one agent command receipt. */
module Receipt {
  import opened Bytes
  import opened Results

  const MAX_RECORD := 262144
  const MAX_OUTPUT := 65536
  const LF: Byte := 10
  const CR: Byte := 13

  datatype Reason = OversizedRecord | Interrupted | OversizedOutput | OversizedPartial

  /** `feed` returns bytes, returns None, or raises. */
  datatype Outcome = Done(output: seq<Byte>) | Waiting | Refused(reason: Reason)

  /** The lines one command's receipt is recognised by. */
  datatype Command = Command(header: seq<Byte>, end: seq<Byte>, markers: seq<seq<Byte>>)

  function CommandOf(text: seq<Byte>): Command {
    Command(Ascii("BVAGENT CMD ") + text + Ascii(" exit=0"), Ascii("BVAGENT END ") + text,
            [Ascii("BVAGENT CMD "), Ascii("BVAGENT END "), Ascii("BVAGENT SERVICE ")])
  }

  predicate IsMarker(c: Command, line: seq<Byte>) {
    exists i | 0 <= i < |c.markers| :: c.markers[i] <= line
  }

  lemma MarkerExactly(text: seq<Byte>, line: seq<Byte>)
    ensures IsMarker(CommandOf(text), line) <==>
              Ascii("BVAGENT CMD ") <= line || Ascii("BVAGENT END ") <= line || Ascii("BVAGENT SERVICE ") <= line
  {
    var c := CommandOf(text);
    assert c.markers[0] == Ascii("BVAGENT CMD ") && c.markers[1] == Ascii("BVAGENT END ");
    assert c.markers[2] == Ascii("BVAGENT SERVICE ");
  }

  /** `rstrip(b"\r")`. */
  function Strip(raw: seq<Byte>): (line: seq<Byte>)
    ensures line <= raw
  {
    if raw != [] && raw[|raw| - 1] == CR then Strip(raw[..|raw| - 1]) else raw
  }

  /** What is stripped is carriage returns, and all of them. */
  lemma {:induction false} StripExactly(raw: seq<Byte>)
    ensures Strip(raw) == [] || Strip(raw)[|Strip(raw)| - 1] != '\r' as int
    ensures forall i | |Strip(raw)| <= i < |raw| :: raw[i] == '\r' as int
  {
    if raw != [] && raw[|raw| - 1] == CR {
      StripExactly(raw[..|raw| - 1]);
    }
  }

  // ---------- lines ----------

  /** Position of the first line feed, or the length if there is none. */
  function LineEnd(data: seq<Byte>): (n: nat)
    ensures n <= |data|
  {
    if data == [] || data[0] == LF then 0 else 1 + LineEnd(data[1..])
  }

  /** No line feed before `n`, and one at `n` unless the data ends there. */
  ghost predicate FirstLfAt(data: seq<Byte>, n: nat) {
    n <= |data| && (n < |data| ==> data[n] == '\n' as int) && forall k | 0 <= k < n :: data[k] != '\n' as int
  }

  lemma {:induction false} LineEndIsFirst(data: seq<Byte>, n: nat)
    ensures FirstLfAt(data, n) <==> n == LineEnd(data)
  {
    if data != [] && data[0] != LF {
      LineEndIsFirst(data[1..], LineEnd(data[1..]));
      assert forall k | 0 < k < |data| :: data[k] == data[1..][k - 1];
    }
  }

  /** The complete lines of a stream, without their line feeds, and the partial record behind them. */
  function Lines(stream: seq<Byte>): seq<seq<Byte>>
    decreases |stream|
  {
    var n := LineEnd(stream);
    if n == |stream| then [] else [stream[..n]] + Lines(stream[n + 1..])
  }

  function Rest(stream: seq<Byte>): (rest: seq<Byte>)
    decreases |stream|
  {
    var n := LineEnd(stream);
    if n == |stream| then stream else Rest(stream[n + 1..])
  }

  lemma {:induction false} RestIsPartial(stream: seq<Byte>)
    ensures LineEnd(Rest(stream)) == |Rest(stream)|
    decreases |stream|
  {
    if LineEnd(stream) < |stream| {
      RestIsPartial(stream[LineEnd(stream) + 1..]);
    }
  }

  lemma FirstLineOff(stream: seq<Byte>, n: nat, more: seq<Byte>)
    requires n == LineEnd(stream) < |stream| && more == stream[n + 1..]
    ensures Lines(stream) == [stream[..n]] + Lines(more)
  {
  }

  lemma FirstRestOff(stream: seq<Byte>, n: nat, more: seq<Byte>)
    requires n == LineEnd(stream) < |stream| && more == stream[n + 1..]
    ensures Rest(stream) == Rest(more)
  {
  }

  /** Later bytes extend the partial record and nothing before it. */
  lemma {:induction false} LinesAppend(a: seq<Byte>, b: seq<Byte>)
    ensures Lines(a + b) == Lines(a) + Lines(Rest(a) + b) && Rest(a + b) == Rest(Rest(a) + b)
    decreases |a|
  {
    var n := LineEnd(a);
    if n == |a| {
      Associate([], [], Lines(a + b));
    } else {
      var more := a[n + 1..];
      FirstLine(a, b);
      FirstLineOff(a, n, more);
      FirstRestOff(a, n, more);
      FirstLineOff(a + b, n, more + b);
      FirstRestOff(a + b, n, more + b);
      LinesAppend(more, b);
      Associate([a[..n]], Lines(more), Lines(Rest(more) + b));
    }
  }

  lemma Associate<T>(x: seq<T>, y: seq<T>, z: seq<T>)
    ensures x + (y + z) == (x + y) + z && [] + z == z
  {
  }

  lemma FirstLine(a: seq<Byte>, b: seq<Byte>)
    requires LineEnd(a) < |a|
    ensures var n := LineEnd(a); LineEnd(a + b) == n && (a + b)[..n] == a[..n] && (a + b)[n + 1..] == a[n + 1..] + b
  {
    LineEndIsFirst(a, LineEnd(a));
    LineEndIsFirst(a + b, LineEnd(a));
  }

  // ---------- what one call does ----------

  /** The parser without its partial record. */
  datatype Mode = Mode(output: seq<Byte>, started: bool)

  /** One complete line: the next mode, or the end of the conversation. */
  function TakeLine(c: Command, m: Mode, raw: seq<Byte>): (Mode, Outcome) {
    var line := Strip(raw);
    if |raw| > MAX_RECORD then (m, Refused(OversizedRecord))
    else if !m.started then (m.(started := line == c.header), Waiting)
    else if line == c.end then (m, Done(m.output))
    else if IsMarker(c, line) then (m, Refused(Interrupted))
    else
      var output := m.output + (line + [LF]);
      (m.(output := output), if |output| > MAX_OUTPUT then Refused(OversizedOutput) else Waiting)
  }

  /** Lines in order, until one settles the outcome. */
  function TakeLines(c: Command, m: Mode, lines: seq<seq<Byte>>): (Mode, Outcome)
    decreases |lines|
  {
    if lines == [] then (m, Waiting)
    else
      var (t, r) := TakeLine(c, m, lines[0]);
      if r.Waiting? then TakeLines(c, t, lines[1..]) else (t, r)
  }

  /** What `feed` answers when the buffered bytes become `buffer`. */
  function Answer(c: Command, m: Mode, buffer: seq<Byte>): Outcome {
    var r := TakeLines(c, m, Lines(buffer)).1;
    if r.Waiting? && |Rest(buffer)| > MAX_RECORD then Refused(OversizedPartial) else r
  }

  class Parser {
    const command: Command
    var pending: seq<Byte>
    var output: seq<Byte>
    var started: bool

    ghost function View(): Mode
      reads this
    {
      Mode(output, started)
    }

    constructor (text: seq<Byte>)
      ensures command == CommandOf(text) && pending == [] && View() == Mode([], false)
    {
      command := CommandOf(text);
      pending, output, started := [], [], false;
    }

    method Feed(data: seq<Byte>) returns (r: Outcome)
      modifies this
      ensures r == Answer(command, old(View()), old(pending) + data)
      ensures View() == TakeLines(command, old(View()), Lines(old(pending) + data)).0
      ensures r.Waiting? ==> pending == Rest(old(pending) + data)
    {
      pending := pending + data;
      ghost var whole, before := pending, View();
      var n := FindLineFeed(pending);
      while n < |pending|
        invariant n == LineEnd(pending)
        invariant Rest(whole) == Rest(pending)
        invariant TakeLines(command, before, Lines(whole)) == TakeLines(command, View(), Lines(pending))
        decreases |pending|
      {
        var raw := pending[..n];
        pending := pending[n + 1..];
        var line := StripCr(raw);
        if |raw| > MAX_RECORD {
          return Refused(OversizedRecord);
        }
        if !started {
          if line == command.header {
            started := true;
          }
        } else {
          if line == command.end {
            return Done(output);
          }
          if IsMarker(command, line) {
            return Refused(Interrupted);
          }
          output := output + (line + [LF]);
          if |output| > MAX_OUTPUT {
            return Refused(OversizedOutput);
          }
        }
        n := FindLineFeed(pending);
      }
      if |pending| > MAX_RECORD {
        return Refused(OversizedPartial);
      }
      return Waiting;
    }
  }

  method FindLineFeed(data: seq<Byte>) returns (n: nat)
    ensures n == LineEnd(data)
  {
    n := 0;
    while n < |data| && data[n] != LF
      invariant n <= |data| && forall k | 0 <= k < n :: data[k] != LF
    {
      n := n + 1;
    }
    LineEndIsFirst(data, n);
  }

  method StripCr(raw: seq<Byte>) returns (line: seq<Byte>)
    ensures line == Strip(raw)
  {
    var n := |raw|;
    assert raw[..n] == raw;
    while n > 0 && raw[n - 1] == CR
      invariant 0 <= n <= |raw| && Strip(raw[..n]) == Strip(raw)
    {
      assert raw[..n][..n - 1] == raw[..n - 1];
      n := n - 1;
    }
    line := raw[..n];
  }

  // ---------- chunking does not matter ----------

  /** Equal results; refusals may give different reasons. */
  predicate SameOutcome(a: Outcome, b: Outcome) { a == b || (a.Refused? && b.Refused?) }

  lemma {:induction false} TakeLinesAppend(c: Command, m: Mode, a: seq<seq<Byte>>, b: seq<seq<Byte>>)
    ensures var (t, r) := TakeLines(c, m, a);
            TakeLines(c, m, a + b) == if r.Waiting? then TakeLines(c, t, b) else (t, r)
    decreases |a|
  {
    if a == [] {
      assert a + b == b;
    } else {
      assert (a + b)[1..] == a[1..] + b;
      TakeLinesAppend(c, TakeLine(c, m, a[0]).0, a[1..], b);
    }
  }

  /** A partial record over the limit is refused whatever follows it. */
  lemma LongRecordRefused(c: Command, m: Mode, partial: seq<Byte>, more: seq<Byte>)
    requires LineEnd(partial) == |partial| > MAX_RECORD
    ensures Answer(c, m, partial + more).Refused?
  {
    var joined := partial + more;
    LineEndIsFirst(partial, |partial|);
    LineEndIsFirst(joined, LineEnd(joined));
    assert forall k | 0 <= k < |partial| :: joined[k] == partial[k];
    assert LineEnd(joined) >= |partial|;
    FirstLineTooLong(c, m, joined);
  }

  lemma FirstLineTooLong(c: Command, m: Mode, buffer: seq<Byte>)
    requires LineEnd(buffer) > MAX_RECORD
    ensures Answer(c, m, buffer).Refused?
  {
    if LineEnd(buffer) < |buffer| {
      assert TakeLines(c, m, Lines(buffer)).1 == TakeLine(c, m, Lines(buffer)[0]).1;
    }
  }

  /** Feeding a prefix first: either it settles the outcome of the whole, or the rest does from where it stops. */
  lemma AnswerSplit(c: Command, m: Mode, a: seq<Byte>, b: seq<Byte>)
    ensures var (t, r) := (TakeLines(c, m, Lines(a)).0, Answer(c, m, a));
            if r.Waiting? then Answer(c, m, a + b) == Answer(c, t, Rest(a) + b) else SameOutcome(Answer(c, m, a + b), r)
  {
    LinesAppend(a, b);
    TakeLinesAppend(c, m, Lines(a), Lines(Rest(a) + b));
    var (t, r) := TakeLines(c, m, Lines(a));
    if r.Waiting? && |Rest(a)| > MAX_RECORD {
      RestIsPartial(a);
      LongRecordRefused(c, t, Rest(a), b);
    }
  }

  function Concat(chunks: seq<seq<Byte>>): seq<Byte> {
    if chunks == [] then [] else chunks[0] + Concat(chunks[1..])
  }

  /** Call after call on one parser, as `exchange` does, until a call settles the outcome. */
  function FeedAll(c: Command, m: Mode, pending: seq<Byte>, chunks: seq<seq<Byte>>): Outcome
    decreases |chunks|
  {
    if chunks == [] then Waiting
    else
      var buffer := pending + chunks[0];
      var r := Answer(c, m, buffer);
      if r.Waiting? then FeedAll(c, TakeLines(c, m, Lines(buffer)).0, Rest(buffer), chunks[1..]) else r
  }

  /** Any chunking of a stream gives the outcome of feeding it whole. */
  lemma {:induction false} ChunkingIrrelevant(c: Command, m: Mode, pending: seq<Byte>, chunks: seq<seq<Byte>>)
    requires LineEnd(pending) == |pending| <= MAX_RECORD
    ensures SameOutcome(FeedAll(c, m, pending, chunks), Answer(c, m, pending + Concat(chunks)))
    decreases |chunks|
  {
    if chunks == [] {
      assert pending + [] == pending;
    } else {
      var buffer := pending + chunks[0];
      var rest := Concat(chunks[1..]);
      AnswerSplit(c, m, buffer, rest);
      assert buffer + rest == pending + (chunks[0] + rest);
      if Answer(c, m, buffer).Waiting? {
        RestIsPartial(buffer);
        ChunkingIrrelevant(c, TakeLines(c, m, Lines(buffer)).0, Rest(buffer), chunks[1..]);
      }
    }
  }

  // ---------- exchange ----------

  /** One turn of the loop before its deadline: the log is found shorter than what was read, or is read from. */
  datatype Look = Shrunk | Read(chunk: seq<Byte>)

  datatype Refusal = BadArguments | IncompleteRecord | LogTruncated

  /** What is read before the log is first found shorter. */
  function Reads(looks: seq<Look>): seq<seq<Byte>> {
    if looks == [] || looks[0].Shrunk? then []
    else (if looks[0].chunk == [] then [] else [looks[0].chunk]) + Reads(looks[1..])
  }

  lemma ReadsStep(looks: seq<Look>, i: nat)
    requires i < |looks| && looks[i].Read?
    ensures var chunk, rest := looks[i].chunk, Reads(looks[i + 1..]);
            Reads(looks[i..]) == if chunk == [] then rest else [chunk] + rest
  {
    assert looks[i..][1..] == looks[i + 1..];
  }

  lemma FeedStep(c: Command, m: Mode, pending: seq<Byte>, chunk: seq<Byte>, rest: seq<seq<Byte>>)
    ensures var r := Answer(c, m, pending + chunk);
            FeedAll(c, m, pending, [chunk] + rest)
            == if r.Waiting? then FeedAll(c, TakeLines(c, m, Lines(pending + chunk)).0, Rest(pending + chunk), rest)
               else r
  {
    assert ([chunk] + rest)[1..] == rest;
  }

  predicate Acceptable(text: seq<Byte>, timeout: int) { text != [] && LF !in text && CR !in text && timeout > 0 }

  /** The log may be empty, or must end with a complete record. */
  predicate Complete(log: seq<Byte>) { log == [] || log[|log| - 1] == LF }

  /** `exchange`: `log` is what it finds, `looks` what happens before the deadline; still waiting after that is its
      timeout. The command is sent only behind a complete record, a settled receipt is that of all that was read, and a
      truncated log is an error only while the receipt is not settled. */
  method Exchange(text: seq<Byte>, timeout: int, log: seq<Byte>, looks: seq<Look>)
    returns (sent: seq<Byte>, r: Result<Outcome, Refusal>)
    ensures r == Err(BadArguments) <==> !Acceptable(text, timeout)
    ensures r == Err(IncompleteRecord) <==> Acceptable(text, timeout) && !Complete(log)
    ensures sent == if Acceptable(text, timeout) && Complete(log) then text + [LF] else []
    ensures Acceptable(text, timeout) && Complete(log) ==>
              var answer := Answer(CommandOf(text), Mode([], false), Concat(Reads(looks)));
              if answer.Waiting? && Shrunk in looks then r == Err(LogTruncated)
              else r.Ok? && SameOutcome(r.value, answer)
  {
    sent := [];
    if text == [] || LF in text || CR in text || timeout <= 0 {
      return sent, Err(BadArguments);
    }
    if log != [] && log[|log| - 1] != LF {
      return sent, Err(IncompleteRecord);
    }
    sent := text + [LF];
    var parser := new Parser(text);
    ChunkingIrrelevant(CommandOf(text), Mode([], false), [], Reads(looks));
    assert [] + Concat(Reads(looks)) == Concat(Reads(looks));
    for i := 0 to |looks|
      invariant parser.command == CommandOf(text) && Shrunk !in looks[..i]
      invariant FeedAll(parser.command, Mode([], false), [], Reads(looks))
             == FeedAll(parser.command, parser.View(), parser.pending, Reads(looks[i..]))
    {
      if looks[i].Shrunk? {
        return sent, Err(LogTruncated);
      }
      ReadsStep(looks, i);
      if looks[i].chunk != [] {
        FeedStep(parser.command, parser.View(), parser.pending, looks[i].chunk, Reads(looks[i + 1..]));
        var outcome := parser.Feed(looks[i].chunk);
        if !outcome.Waiting? {
          return sent, Ok(outcome);
        }
      }
    }
    assert looks == looks[..|looks|];
    return sent, Ok(Waiting);
  }

  // ---------- what a result is ----------

  function Body(lines: seq<seq<Byte>>): seq<Byte> {
    if lines == [] then [] else (Strip(lines[0]) + [LF]) + Body(lines[1..])
  }

  /** `lines[..e]` are output and `lines[e]` is the END. */
  ghost predicate EndsAt(c: Command, lines: seq<seq<Byte>>, output: seq<Byte>, e: nat) {
    && e < |lines| && Strip(lines[e]) == c.end
    && (forall i | 0 <= i <= e :: |lines[i]| <= 262_144)
    && (forall i | 0 <= i < e :: Strip(lines[i]) != c.end && !IsMarker(c, Strip(lines[i])))
    && |output + Body(lines[..e])| <= 65_536
  }

  /** `lines[h]` is the first header. */
  ghost predicate StartsAt(c: Command, lines: seq<seq<Byte>>, h: nat) {
    && h < |lines| && Strip(lines[h]) == c.header
    && (forall i | 0 <= i <= h :: |lines[i]| <= 262_144)
    && (forall i | 0 <= i < h :: Strip(lines[i]) != c.header)
  }

  /** The header is line `h`, the END line `h + 1 + e`, and `x` the stripped lines between them. */
  ghost predicate Transcript(c: Command, lines: seq<seq<Byte>>, h: nat, e: nat, x: seq<Byte>) {
    StartsAt(c, lines, h) && EndsAt(c, lines[h + 1..], [], e) && x == Body(lines[h + 1..][..e])
  }

  lemma BodyStep(lines: seq<seq<Byte>>, output: seq<Byte>, e: nat)
    requires 0 < e <= |lines|
    ensures output + Body(lines[..e]) == output + (Strip(lines[0]) + [LF]) + Body(lines[1..][..e - 1])
  {
    assert lines[..e][1..] == lines[1..][..e - 1];
  }

  lemma {:induction false} EndGivesDone(c: Command, m: Mode, lines: seq<seq<Byte>>, e: nat)
    requires m.started && EndsAt(c, lines, m.output, e)
    ensures TakeLines(c, m, lines).1 == Done(m.output + Body(lines[..e]))
    decreases e
  {
    if e == 0 {
      assert m.output + Body(lines[..0]) == m.output;
    } else {
      BodyStep(lines, m.output, e);
      EndGivesDone(c, m.(output := m.output + (Strip(lines[0]) + [LF])), lines[1..], e - 1);
    }
  }

  lemma {:induction false} DoneHasEnd(c: Command, m: Mode, lines: seq<seq<Byte>>) returns (e: nat)
    requires m.started && |m.output| <= MAX_OUTPUT && TakeLines(c, m, lines).1.Done?
    ensures EndsAt(c, lines, m.output, e)
    decreases |lines|
  {
    if Strip(lines[0]) == c.end {
      e := 0;
      assert m.output + Body(lines[..0]) == m.output;
    } else {
      var k := DoneHasEnd(c, m.(output := m.output + (Strip(lines[0]) + [LF])), lines[1..]);
      e := k + 1;
      BodyStep(lines, m.output, e);
      assert forall i | 0 < i <= e :: lines[i] == lines[1..][i - 1];
    }
  }

  lemma {:induction false} HeaderStarts(c: Command, m: Mode, lines: seq<seq<Byte>>, h: nat)
    requires !m.started && StartsAt(c, lines, h)
    ensures TakeLines(c, m, lines) == TakeLines(c, m.(started := true), lines[h + 1..])
    decreases h
  {
    if h > 0 {
      HeaderStarts(c, m, lines[1..], h - 1);
      assert lines[1..][h..] == lines[h + 1..];
    }
  }

  lemma {:induction false} DoneHasHeader(c: Command, m: Mode, lines: seq<seq<Byte>>) returns (h: nat)
    requires !m.started && TakeLines(c, m, lines).1.Done?
    ensures StartsAt(c, lines, h)
    decreases |lines|
  {
    if Strip(lines[0]) == c.header {
      h := 0;
    } else {
      var k := DoneHasHeader(c, m, lines[1..]);
      h := k + 1;
      assert forall i | 0 < i <= h :: lines[i] == lines[1..][i - 1];
    }
  }

  /** A fresh parser fed a whole stream returns `x` exactly when the stream has a first header, a first END behind
      it with nothing but output lines between, all within the limits, and `x` is those lines, stripped. */
  lemma ResultIsTranscript(c: Command, stream: seq<Byte>, x: seq<Byte>)
    ensures Answer(c, Mode([], false), stream) == Done(x) <==> HasTranscript(c, Lines(stream), x)
  {
    var lines := Lines(stream);
    if Answer(c, Mode([], false), stream) == Done(x) {
      var h, e := DoneHasTranscript(c, lines, x);
    }
    if h: nat, e: nat :| Transcript(c, lines, h, e, x) {
      TranscriptGivesDone(c, lines, h, e, x);
    }
  }

  ghost predicate HasTranscript(c: Command, lines: seq<seq<Byte>>, x: seq<Byte>) {
    exists h: nat, e: nat :: Transcript(c, lines, h, e, x)
  }

  lemma DoneHasTranscript(c: Command, lines: seq<seq<Byte>>, x: seq<Byte>) returns (h: nat, e: nat)
    requires TakeLines(c, Mode([], false), lines).1 == Done(x)
    ensures Transcript(c, lines, h, e, x)
  {
    h := DoneHasHeader(c, Mode([], false), lines);
    HeaderStarts(c, Mode([], false), lines, h);
    e := DoneHasEnd(c, Mode([], true), lines[h + 1..]);
    TranscriptGivesDone(c, lines, h, e, Body(lines[h + 1..][..e]));
  }

  lemma TranscriptGivesDone(c: Command, lines: seq<seq<Byte>>, h: nat, e: nat, x: seq<Byte>)
    requires Transcript(c, lines, h, e, x)
    ensures TakeLines(c, Mode([], false), lines).1 == Done(x)
  {
    HeaderStarts(c, Mode([], false), lines, h);
    EndGivesDone(c, Mode([], true), lines[h + 1..], e);
    assert [] + x == x;
  }

  // ---------- what a refusal is ----------

  /** The first `e` lines are output within the limits. */
  ghost predicate OutputTo(c: Command, lines: seq<seq<Byte>>, output: seq<Byte>, e: nat) {
    && e <= |lines| && |output + Body(lines[..e])| <= 65_536
    && forall i | 0 <= i < e :: |lines[i]| <= 262_144 && Strip(lines[i]) != c.end && !IsMarker(c, Strip(lines[i]))
  }

  /** ... and the next is too long, interrupts the receipt, or makes the output too long. */
  ghost predicate BreaksAt(c: Command, lines: seq<seq<Byte>>, output: seq<Byte>, e: nat) {
    && OutputTo(c, lines, output, e) && e < |lines|
    && (|| |lines[e]| > 262_144
        || (Strip(lines[e]) != c.end
            && (IsMarker(c, Strip(lines[e])) || |output + Body(lines[..e + 1])| > 65_536)))
  }

  /** `lines[n]` is too long, with no header before it. */
  ghost predicate LongAt(c: Command, lines: seq<seq<Byte>>, n: nat) {
    && n < |lines| && |lines[n]| > 262_144
    && forall i | 0 <= i < n :: |lines[i]| <= 262_144 && Strip(lines[i]) != c.header
  }

  ghost predicate HasLong(c: Command, lines: seq<seq<Byte>>) { exists n: nat :: LongAt(c, lines, n) }

  ghost predicate HasBreak(c: Command, lines: seq<seq<Byte>>) {
    exists h: nat, e: nat :: BreaksBehind(c, lines, h, e)
  }

  ghost predicate BreaksBehind(c: Command, lines: seq<seq<Byte>>, h: nat, e: nat) {
    StartsAt(c, lines, h) && BreaksAt(c, lines[h + 1..], [], e)
  }

  lemma {:induction false} BreakRefuses(c: Command, m: Mode, lines: seq<seq<Byte>>, e: nat)
    requires m.started && BreaksAt(c, lines, m.output, e)
    ensures TakeLines(c, m, lines).1.Refused?
    decreases e
  {
    BodyStep(lines, m.output, e + 1);
    if e == 0 {
      assert m.output + (Strip(lines[0]) + [LF]) + Body(lines[1..][..0]) == m.output + (Strip(lines[0]) + [LF]);
      assert TakeLine(c, m, lines[0]).1.Refused?;
    } else {
      BodyStep(lines, m.output, e);
      BreakRefuses(c, m.(output := m.output + (Strip(lines[0]) + [LF])), lines[1..], e - 1);
    }
  }

  lemma {:induction false} RefusedBreaks(c: Command, m: Mode, lines: seq<seq<Byte>>) returns (e: nat)
    requires m.started && |m.output| <= MAX_OUTPUT && TakeLines(c, m, lines).1.Refused?
    ensures BreaksAt(c, lines, m.output, e)
    decreases |lines|
  {
    BodyStep(lines, m.output, 1);
    var next := m.output + (Strip(lines[0]) + [LF]);
    assert next + Body(lines[1..][..0]) == next;
    if TakeLine(c, m, lines[0]).1.Waiting? {
      var k := RefusedBreaks(c, m.(output := next), lines[1..]);
      e := k + 1;
      BodyStep(lines, m.output, e);
      BodyStep(lines, m.output, e + 1);
      assert forall i | 0 < i <= e :: lines[i] == lines[1..][i - 1];
    } else {
      e := 0;
      assert m.output + Body(lines[..0]) == m.output;
    }
  }

  lemma {:induction false} LongRefuses(c: Command, m: Mode, lines: seq<seq<Byte>>, n: nat)
    requires !m.started && LongAt(c, lines, n)
    ensures TakeLines(c, m, lines).1.Refused?
    decreases n
  {
    if n > 0 {
      LongRefuses(c, m, lines[1..], n - 1);
    }
  }

  /** A refusal before the header is of a long record; otherwise there is a header. */
  lemma {:induction false} RefusedLongOrStarted(c: Command, m: Mode, lines: seq<seq<Byte>>) returns (n: nat)
    requires !m.started && TakeLines(c, m, lines).1.Refused?
    ensures LongAt(c, lines, n) || StartsAt(c, lines, n)
    decreases |lines|
  {
    if |lines[0]| > MAX_RECORD || Strip(lines[0]) == c.header {
      n := 0;
    } else {
      var k := RefusedLongOrStarted(c, m, lines[1..]);
      n := k + 1;
      assert forall i | 0 < i <= n :: lines[i] == lines[1..][i - 1];
    }
  }

  lemma LinesRefused(c: Command, lines: seq<seq<Byte>>)
    ensures TakeLines(c, Mode([], false), lines).1.Refused? <==> HasLong(c, lines) || HasBreak(c, lines)
  {
    var m := Mode([], false);
    if TakeLines(c, m, lines).1.Refused? {
      var n := RefusedLongOrStarted(c, m, lines);
      if !LongAt(c, lines, n) {
        HeaderStarts(c, m, lines, n);
        var e := RefusedBreaks(c, Mode([], true), lines[n + 1..]);
        assert BreaksBehind(c, lines, n, e);
      }
    }
    if n: nat :| LongAt(c, lines, n) {
      LongRefuses(c, m, lines, n);
    }
    if h: nat, e: nat :| BreaksBehind(c, lines, h, e) {
      HeaderStarts(c, m, lines, h);
      BreakRefuses(c, Mode([], true), lines[h + 1..], e);
    }
  }

  /** A fresh parser refuses a whole stream exactly when a record before its header is too long, when a line behind its
      header is too long, interrupts the receipt or makes the output too long, with only output between, or when the
      partial record is too long and the stream holds no result. */
  lemma RefusedExactly(c: Command, stream: seq<Byte>)
    ensures Answer(c, Mode([], false), stream).Refused? <==>
              || HasLong(c, Lines(stream)) || HasBreak(c, Lines(stream))
              || (|Rest(stream)| > 262_144 && forall x :: !HasTranscript(c, Lines(stream), x))
  {
    LinesRefused(c, Lines(stream));
    forall x ensures Answer(c, Mode([], false), stream) == Done(x) <==> HasTranscript(c, Lines(stream), x) {
      ResultIsTranscript(c, stream, x);
    }
    if Answer(c, Mode([], false), stream).Done? {
      assert HasTranscript(c, Lines(stream), Answer(c, Mode([], false), stream).output);
    }
  }

  // ---------- what the agent console prints ----------

  /** A finished command, as the console prints it. */
  function Printed(text: seq<Byte>, code: seq<Byte>, output: seq<Byte>): seq<Byte> {
    (Head(text, code) + [LF]) + ((output + [LF]) + (Tail(text) + [LF]))
  }

  lemma OneLine(line: seq<Byte>)
    requires LF !in line
    ensures Lines(line + [LF]) == [line] && Rest(line + [LF]) == []
  {
    var stream := line + [LF];
    LineEndIsFirst(stream, |line|);
    FirstLineOff(stream, |line|, []);
    FirstRestOff(stream, |line|, []);
    assert stream[..|line|] == line;
  }

  lemma BodyOfFirst(line: seq<Byte>, others: seq<seq<Byte>>)
    requires CR !in line
    ensures Body([line] + others) == line + [LF] + Body(others)
  {
    assert ([line] + others)[1..] == others;
  }

  /** The first line of a text with a line feed behind it. */
  lemma FirstOfText(text: seq<Byte>, n: nat, more: seq<Byte>)
    requires n == LineEnd(text) < |text| && more == text[n + 1..]
    ensures text == text[..n] + [LF] + more
    ensures Lines(text + [LF]) == [text[..n]] + Lines(more + [LF]) && Rest(text + [LF]) == Rest(more + [LF])
  {
    LineEndIsFirst(text, n);
    FirstLine(text, [LF]);
    FirstLineOff(text + [LF], n, more + [LF]);
    FirstRestOff(text + [LF], n, more + [LF]);
  }

  lemma {:induction false} WholeLines(text: seq<Byte>)
    ensures Rest(text + [LF]) == [] && Lines(text + [LF]) != []
    ensures CR !in text ==> Body(Lines(text + [LF])) == text + [LF]
    decreases |text|
  {
    var n := LineEnd(text);
    if n == |text| {
      LineEndIsFirst(text, n);
      OneLine(text);
      if CR !in text {
        BodyOfFirst(text, []);
        assert [text] + [] == [text] && text + [LF] + [] == text + [LF];
      }
    } else {
      var more := text[n + 1..];
      FirstOfText(text, n, more);
      WholeLines(more);
      if CR !in text {
        BodyOfFirst(text[..n], Lines(more + [LF]));
        assert text + [LF] == text[..n] + [LF] + (more + [LF]);
      }
    }
  }

  lemma {:induction false} LinesAreShort(stream: seq<Byte>)
    ensures forall i | 0 <= i < |Lines(stream)| :: |Lines(stream)[i]| <= |stream|
    decreases |stream|
  {
    var n := LineEnd(stream);
    if n < |stream| {
      var more := stream[n + 1..];
      FirstLineOff(stream, n, more);
      LinesAreShort(more);
      forall i | 0 <= i < |Lines(stream)| ensures |Lines(stream)[i]| <= |stream| {
        assert i > 0 ==> Lines(stream)[i] == Lines(more)[i - 1];
      }
    }
  }

  lemma LinesOfTwo(a: seq<Byte>, b: seq<Byte>)
    requires Rest(a) == []
    ensures Lines(a + b) == Lines(a) + Lines(b) && Rest(a + b) == Rest(b)
  {
    LinesAppend(a, b);
    assert [] + b == b;
  }

  lemma LinesOfParts(a: seq<Byte>, b: seq<Byte>, c: seq<Byte>)
    requires Rest(a) == Rest(b) == Rest(c) == []
    ensures Lines(a + (b + c)) == Lines(a) + Lines(b) + Lines(c)
  {
    LinesOfTwo(b, c);
    LinesOfTwo(a, b + c);
    Associate(Lines(a), Lines(b), Lines(c));
  }

  /** No line of it looks like one of the console's own. */
  ghost predicate Innocent(c: Command, lines: seq<seq<Byte>>) {
    forall i | 0 <= i < |lines| :: !IsMarker(c, Strip(lines[i])) && Strip(lines[i]) != c.header
  }

  predicate OneWord(text: seq<Byte>) { LF !in text && CR !in text }

  function Head(text: seq<Byte>, code: seq<Byte>): seq<Byte> { Ascii("BVAGENT CMD ") + text + Ascii(" exit=") + code }

  function Tail(text: seq<Byte>): seq<Byte> { Ascii("BVAGENT END ") + text }

  lemma PrintedLines(text: seq<Byte>, code: seq<Byte>, output: seq<Byte>)
    requires OneWord(text) && OneWord(code)
    ensures Lines(Printed(text, code, output)) == [Head(text, code)] + Lines(output + [LF]) + [Tail(text)]
  {
    OneLine(Head(text, code));
    OneLine(Tail(text));
    WholeLines(output);
    LinesOfParts(Head(text, code) + [LF], output + [LF], Tail(text) + [LF]);
  }

  /** The command's own lines are the ones the parser looks for. */
  lemma HeadAndTail(text: seq<Byte>, code: seq<Byte>)
    requires OneWord(text)
    ensures var c := CommandOf(text);
            && (code == Ascii("0") <==> c.header == Head(text, code)) && c.end == Tail(text) != c.header
            && IsMarker(c, c.end) && Strip(c.header) == c.header && Strip(c.end) == c.end
            && |c.header| == |text| + 19 && |c.end| == |text| + 12
  {
    var c, before := CommandOf(text), Ascii("BVAGENT CMD ") + text + Ascii(" exit=");
    assert Ascii(" exit=0") == Ascii(" exit=") + Ascii("0");
    assert c.header == before + Ascii("0") && Head(text, code) == before + code;
    assert c.header[|before|..] == Ascii("0") && Head(text, code)[|before|..] == code;
    assert c.markers[1] <= c.end;
    assert c.header[8] == 'C' as int && c.end[8] == 'E' as int;
  }

  /** A header, innocent lines and an END are a transcript of those lines. */
  lemma BracketedIsRead(c: Command, stream: seq<Byte>, body: seq<seq<Byte>>)
    requires Lines(stream) == [c.header] + body + [c.end] && Innocent(c, body) && |Body(body)| <= MAX_OUTPUT
    requires Strip(c.header) == c.header && Strip(c.end) == c.end && |c.header| <= MAX_RECORD && |c.end| <= MAX_RECORD
    requires IsMarker(c, c.end) && forall i | 0 <= i < |body| :: |body[i]| <= MAX_RECORD
    ensures Answer(c, Mode([], false), stream) == Done(Body(body))
  {
    var lines := Lines(stream);
    var after := lines[1..];
    assert after == body + [c.end] && after[..|body|] == body;
    assert [] + Body(body) == Body(body);
    assert Transcript(c, lines, 0, |body|, Body(body));
    ResultIsTranscript(c, stream, Body(body));
  }

  lemma BracketedOutputIsRead(c: Command, stream: seq<Byte>, output: seq<Byte>)
    requires Lines(stream) == [c.header] + Lines(output + [LF]) + [c.end]
    requires CR !in output && |output| + 1 <= MAX_OUTPUT && Innocent(c, Lines(output + [LF])) && IsMarker(c, c.end)
    requires Strip(c.header) == c.header && Strip(c.end) == c.end && |c.header| <= MAX_RECORD && |c.end| <= MAX_RECORD
    ensures Answer(c, Mode([], false), stream) == Done(output + [LF])
  {
    WholeLines(output);
    LinesAreShort(output + [LF]);
    BracketedIsRead(c, stream, Lines(output + [LF]));
  }

  lemma PrintedBrackets(text: seq<Byte>, code: seq<Byte>, output: seq<Byte>, c: Command, stream: seq<Byte>)
    requires OneWord(text) && code == Ascii("0") && c == CommandOf(text) && stream == Printed(text, code, output)
    ensures Lines(stream) == [c.header] + Lines(output + [LF]) + [c.end] && IsMarker(c, c.end)
    ensures Strip(c.header) == c.header && Strip(c.end) == c.end && |c.header| == |text| + 19 && |c.end| == |text| + 12
  {
    PrintedLines(text, code, output);
    HeadAndTail(text, code);
  }

  /** What a command that succeeded printed is what the parser returns. */
  lemma PrintedIsRead(text: seq<Byte>, code: seq<Byte>, output: seq<Byte>, c: Command, stream: seq<Byte>)
    requires OneWord(text) && code == Ascii("0") && c == CommandOf(text) && stream == Printed(text, code, output)
    requires |text| + 19 <= MAX_RECORD
    requires CR !in output && |output| + 1 <= MAX_OUTPUT && Innocent(c, Lines(output + [LF]))
    ensures Answer(c, Mode([], false), stream) == Done(output + [LF])
  {
    PrintedBrackets(text, code, output, c, stream);
    BracketedOutputIsRead(c, stream, output);
  }

  lemma NoHeaderNoResult(c: Command, stream: seq<Byte>)
    requires forall i | 0 <= i < |Lines(stream)| :: Strip(Lines(stream)[i]) != c.header
    ensures !Answer(c, Mode([], false), stream).Done?
  {
    if Answer(c, Mode([], false), stream).Done? {
      var h, e := DoneHasTranscript(c, Lines(stream), Answer(c, Mode([], false), stream).output);
    }
  }

  /** A command that failed has no result. */
  lemma FailureHasNoResult(text: seq<Byte>, code: seq<Byte>, output: seq<Byte>)
    requires OneWord(text) && OneWord(code) && code != Ascii("0") && Innocent(CommandOf(text), Lines(output + [LF]))
    ensures !Answer(CommandOf(text), Mode([], false), Printed(text, code, output)).Done?
  {
    PrintedLines(text, code, output);
    HeadAndTail(text, code);
    assert Strip(Head(text, code)) == Head(text, code);
    NoHeaderNoResult(CommandOf(text), Printed(text, code, output));
  }
}
