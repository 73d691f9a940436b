/** scripts/glyph_frame.py, `Frame.load`, and the printer it reads, `ppm_from_bgra` of scripts/iosurface_capture.py. */
module Ppm {
  import opened Bytes
  import opened Results

  const LF: Byte := 10
  const CR: Byte := 13
  const SPACE: Byte := 32
  const HASH: Byte := 35
  const UNDERSCORE: Byte := 95

  predicate Blank(b: Byte) { b == 32 || 9 <= b <= 13 }

  predicate Digit(b: Byte) { 48 <= b <= 57 }

  // ---------- Python's int() of a byte string without blanks ----------

  /** Digits, with single underscores between them. */
  function Natural(t: seq<Byte>): Option<nat> {
    if t == [] || !Digit(t[|t| - 1]) then None
    else
      var last, rest := t[|t| - 1] - 48, t[..|t| - 1];
      if rest == [] then Some(last)
      else
        var value :- Natural(if rest[|rest| - 1] == UNDERSCORE then rest[..|rest| - 1] else rest);
        Some(10 * value + last)
  }

  function Negated(n: Option<nat>): Option<int> {
    if n.None? then None
    else
      var value: int := n.value;
      Some(-value)
  }

  function Int(t: seq<Byte>): Option<int> {
    if t != [] && t[0] == 43 then Natural(t[1..])
    else if t != [] && t[0] == 45 then
      Negated(Natural(t[1..]))
    else Natural(t)
  }

  /** A number as Python formats it. */
  function Decimal(n: nat): (t: seq<Byte>)
    ensures t != [] && forall i :: 0 <= i < |t| ==> Digit(t[i])
  {
    if n < 10 then [48 + n] else Decimal(n / 10) + [48 + n % 10]
  }

  lemma {:induction false} NaturalOfDecimal(n: nat)
    ensures Natural(Decimal(n)) == Some(n)
  {
    if n >= 10 {
      NaturalOfDecimal(n / 10);
      assert Decimal(n)[..|Decimal(n)| - 1] == Decimal(n / 10);
    }
  }

  lemma IntOfDecimal(n: nat)
    ensures Int(Decimal(n)) == Some(n)
  {
    NaturalOfDecimal(n);
    assert Digit(Decimal(n)[0]);
  }

  /** A digit, with an underscore before it or without. */
  datatype Figure = Figure(apart: bool, digit: nat)

  /** One or more digits, the first without an underscore. */
  predicate Numeral(figures: seq<Figure>) {
    figures != [] && !figures[0].apart && forall i :: 0 <= i < |figures| ==> figures[i].digit < 10
  }

  function Written(figures: seq<Figure>): seq<Byte>
    requires forall i :: 0 <= i < |figures| ==> figures[i].digit < 10
  {
    if figures == [] then []
    else
      var last := figures[|figures| - 1];
      More(Written(figures[..|figures| - 1]), last)
  }

  function Meant(figures: seq<Figure>): nat {
    if figures == [] then 0 else 10 * Meant(figures[..|figures| - 1]) + figures[|figures| - 1].digit
  }

  lemma NaturalStep(before: seq<Byte>, apart: bool, digit: nat)
    requires digit < 10 && (before == [] ==> !apart) && (before != [] && !apart ==> before[|before| - 1] != UNDERSCORE)
    ensures var t := before + (if apart then ['_' as int] else []) + ['0' as int + digit];
            Natural(t) == if before == [] then Some(digit)
                          else if Natural(before).None? then None else Some(10 * Natural(before).value + digit)
  {
    var rest := before + (if apart then ['_' as int] else []);
    assert (rest + ['0' as int + digit])[..|rest|] == rest;
    assert if apart then rest[..|rest| - 1] == before else rest == before;
  }

  function More(before: seq<Byte>, last: Figure): (t: seq<Byte>)
    requires last.digit < 10
    ensures t != [] && Digit(t[|t| - 1])
  {
    before + (if last.apart then ['_' as int] else []) + ['0' as int + last.digit]
  }

  /** `t` is read as `n`. */
  predicate Reads(t: seq<Byte>, n: nat) { t != [] && Digit(t[|t| - 1]) && Natural(t) == Some(n) }

  lemma {:induction false} WrittenIsRead(figures: seq<Figure>)
    requires Numeral(figures)
    ensures Reads(Written(figures), Meant(figures))
  {
    var before, last := figures[..|figures| - 1], figures[|figures| - 1];
    if before == [] {
      OneFigure(last);
    } else {
      WrittenIsRead(before);
      OneMoreFigure(Written(before), Meant(before), last);
    }
  }

  lemma OneFigure(only: Figure)
    requires only.digit < 10 && !only.apart
    ensures Reads(More([], only), only.digit)
  {
    NaturalStep([], only.apart, only.digit);
  }

  lemma OneMoreFigure(before: seq<Byte>, n: nat, last: Figure)
    requires last.digit < 10 && Reads(before, n)
    ensures Reads(More(before, last), 10 * n + last.digit)
  {
    NaturalStep(before, last.apart, last.digit);
  }

  /** What is read as a number is digits, the last one behind digits and perhaps an underscore. */
  lemma NaturalSplits(t: seq<Byte>) returns (before: seq<Byte>, last: Figure)
    requires Natural(t).Some?
    ensures last.digit < 10 && |before| < |t| && t == More(before, last)
    ensures if before == [] then !last.apart else Natural(before).Some?
  {
    var rest := t[..|t| - 1];
    var apart := rest != [] && rest[|rest| - 1] == UNDERSCORE;
    before := if apart then rest[..|rest| - 1] else rest;
    last := Figure(apart, t[|t| - 1] - 48);
    assert rest == before + (if apart then ['_' as int] else []);
    assert t == rest + [t[|t| - 1]];
  }

  lemma {:induction false} ReadIsWritten(t: seq<Byte>) returns (figures: seq<Figure>)
    requires Natural(t).Some?
    ensures Numeral(figures) && Written(figures) == t
    decreases |t|
  {
    var before, last := NaturalSplits(t);
    if before == [] {
      figures := [last];
    } else {
      var some := ReadIsWritten(before);
      figures := some + [last];
      assert figures[..|figures| - 1] == some;
    }
  }

  /** What `int` takes for a natural number: digits with single underscores between them, which say nothing. */
  lemma NaturalExactly(t: seq<Byte>, n: nat)
    ensures Natural(t) == Some(n) <==>
              exists figures :: Numeral(figures) && Written(figures) == t && Meant(figures) == n
  {
    if Natural(t) == Some(n) {
      var figures := ReadIsWritten(t);
      WrittenIsRead(figures);
    }
    if figures :| Numeral(figures) && Written(figures) == t && Meant(figures) == n {
      WrittenIsRead(figures);
    }
  }

  /** A sign before it, if any. */
  lemma IntExactly(t: seq<Byte>)
    requires Natural(t).Some?
    ensures Int(t) == Natural(t) == Int(['+' as int] + t)
    ensures Int(['-' as int] + t).Some? && Int(['-' as int] + t).value + Natural(t).value == 0
  {
    var figures := ReadIsWritten(t);
    FirstIsDigit(figures);
    assert (['+' as int] + t)[1..] == t && (['-' as int] + t)[1..] == t;
  }

  /** Nothing else is a number. */
  lemma IntRefuses(t: seq<Byte>)
    ensures Int(t).Some? ==>
              Natural(t).Some? || (t != [] && t[0] in {'+' as int, '-' as int} && Natural(t[1..]).Some?)
  {
  }

  lemma {:induction false} FirstIsDigit(figures: seq<Figure>)
    requires Numeral(figures)
    ensures Written(figures) != [] && Digit(Written(figures)[0])
  {
    if |figures| > 1 {
      FirstIsDigit(figures[..|figures| - 1]);
    }
  }

  // ---------- the header ----------

  function SkipBlanks(data: seq<Byte>, o: nat): (r: nat)
    requires o <= |data|
    ensures o <= r <= |data| && (r < |data| ==> !Blank(data[r]))
    decreases |data| - o
  {
    if o < |data| && Blank(data[o]) then SkipBlanks(data, o + 1) else o
  }

  function TokenEnd(data: seq<Byte>, o: nat): (r: nat)
    requires o <= |data|
    ensures o <= r <= |data| && (o < |data| && !Blank(data[o]) ==> o < r)
    decreases |data| - o
  {
    if o < |data| && !Blank(data[o]) then TokenEnd(data, o + 1) else o
  }

  /** `data.find(b"\\n", offset)`. */
  function FindLf(data: seq<Byte>, o: nat): (r: Option<nat>)
    requires o <= |data|
    ensures r.Some? ==> o <= r.value < |data| && data[r.value] == LF
    decreases |data| - o
  {
    if o == |data| then None else if data[o] == LF then Some(o) else FindLf(data, o + 1)
  }

  /** Start and end of the next field, over blanks and comments. */
  function NextField(data: seq<Byte>, o: nat): (r: Option<(nat, nat)>)
    requires o <= |data|
    ensures r.Some? ==> o <= r.value.0 < r.value.1 <= |data|
    decreases |data| - o
  {
    var p := SkipBlanks(data, o);
    if p == |data| then None
    else if data[p] == HASH then
      var end :- FindLf(data, p);
      NextField(data, end + 1)
    else Some((p, TokenEnd(data, p)))
  }

  /** The next `n` fields, and where the last one ends. */
  function Fields(data: seq<Byte>, o: nat, n: nat): (r: Option<(seq<seq<Byte>>, nat)>)
    requires o <= |data|
    ensures r.Some? ==> |r.value.0| == n && r.value.1 <= |data|
    decreases n, |data|
  {
    if n == 0 then Some(([], o))
    else
      var field :- NextField(data, o);
      var rest :- Fields(data, field.1, n - 1);
      Some(([data[field.0..field.1]] + rest.0, rest.1))
  }

  // ---------- the frame ----------

  datatype Error = BadHeader | NotP6 | BadNumber | BadGeometry | LengthMismatch

  datatype Frame = Frame(width: nat, height: nat, pixels: seq<Byte>)

  /** Where the raster starts behind the separator at `o`: a CRLF is taken whole only if the length says so. */
  function RasterStart(data: seq<Byte>, o: nat, size: nat): nat
    requires o < |data|
  {
    if o + 1 < |data| && data[o] == CR && data[o + 1] == LF && |data| - (o + 1) == size + 1 then o + 2 else o + 1
  }

  function Raster(data: seq<Byte>, o: nat, width: int, height: int): Result<Frame, Error>
    requires o <= |data|
  {
    if width <= 0 || height <= 0 || o == |data| then Err(BadGeometry)
    else
      var size := width * height * 3;
      var start := RasterStart(data, o, size);
      if |data| - start != size then Err(LengthMismatch) else Ok(Frame(width, height, data[start..]))
  }

  function Interpret(fields: seq<seq<Byte>>, data: seq<Byte>, o: nat): Result<Frame, Error>
    requires |fields| == 4 && o <= |data|
  {
    if fields[0] != Ascii("P6") || fields[3] != Ascii("255") then Err(NotP6)
    else
      var width, height := Int(fields[1]), Int(fields[2]);
      if width.None? || height.None? then Err(BadNumber) else Raster(data, o, width.value, height.value)
  }

  function Parse(data: seq<Byte>): Result<Frame, Error> {
    var header := Fields(data, 0, 4);
    if header.None? then Err(BadHeader) else Interpret(header.value.0, data, header.value.1)
  }

  function Prepend(fields: seq<seq<Byte>>, rest: Option<(seq<seq<Byte>>, nat)>): Option<(seq<seq<Byte>>, nat)> {
    if rest.None? then None else Some((fields + rest.value.0, rest.value.1))
  }

  /** The scan has found `fields` and stands at `o`. */
  ghost predicate Reached(data: seq<Byte>, count: nat, fields: seq<seq<Byte>>, o: nat) {
    && o <= |data| && |fields| <= count
    && Fields(data, 0, count) == Prepend(fields, Fields(data, o, count - |fields|))
  }

  lemma ReachedStart(data: seq<Byte>, count: nat)
    ensures Reached(data, count, [], 0)
  {
    if Fields(data, 0, count).Some? {
      assert [] + Fields(data, 0, count).value.0 == Fields(data, 0, count).value.0;
    }
  }

  lemma ReachedComment(data: seq<Byte>, count: nat, fields: seq<seq<Byte>>, o: nat, p: nat)
    requires Reached(data, count, fields, o) && |fields| < count
    requires p <= |data| && NextField(data, o) == NextField(data, p)
    ensures Reached(data, count, fields, p)
  {
    SameFields(data, o, p, count - |fields|);
  }

  lemma ReachedField(data: seq<Byte>, count: nat, fields: seq<seq<Byte>>, o: nat, start: nat, end: nat)
    requires Reached(data, count, fields, o) && |fields| < count && NextField(data, o) == Some((start, end))
    ensures Reached(data, count, fields + [data[start..end]], end)
  {
    var n := count - |fields|;
    if Fields(data, end, n - 1).Some? {
      var rest := Fields(data, end, n - 1).value.0;
      assert fields + ([data[start..end]] + rest) == fields + [data[start..end]] + rest;
    }
  }

  lemma ReachedAll(data: seq<Byte>, count: nat, fields: seq<seq<Byte>>, o: nat)
    requires Reached(data, count, fields, o) && |fields| == count
    ensures Fields(data, 0, count) == Some((fields, o))
  {
    assert fields + [] == fields;
  }

  lemma ReachedNothing(data: seq<Byte>, count: nat, fields: seq<seq<Byte>>, o: nat)
    requires Reached(data, count, fields, o) && |fields| < count && NextField(data, o).None?
    ensures Fields(data, 0, count).None?
  {
  }

  method PassBlanks(data: seq<Byte>, from: nat) returns (o: nat)
    requires from <= |data|
    ensures o == SkipBlanks(data, from)
  {
    o := from;
    while o < |data| && Blank(data[o])
      invariant from <= o <= |data| && SkipBlanks(data, from) == SkipBlanks(data, o)
    {
      o := o + 1;
    }
  }

  method PassToken(data: seq<Byte>, start: nat) returns (o: nat)
    requires start <= |data|
    ensures o == TokenEnd(data, start)
  {
    o := start;
    while o < |data| && !Blank(data[o])
      invariant start <= o <= |data| && TokenEnd(data, start) == TokenEnd(data, o)
    {
      o := o + 1;
    }
  }

  datatype Turn = Truncated | Comment(next: nat) | Token(start: nat, end: nat)

  /** One turn of the header loop. */
  method ScanOne(data: seq<Byte>, o: nat) returns (turn: Turn)
    requires o <= |data|
    ensures match turn
            case Truncated => NextField(data, o).None?
            case Comment(next) => o < next <= |data| && NextField(data, o) == NextField(data, next)
            case Token(start, end) => NextField(data, o) == Some((start, end))
  {
    var start := PassBlanks(data, o);
    if start == |data| {
      return Truncated;
    }
    if data[start] == HASH {
      var end := FindLf(data, start);
      return if end.None? then Truncated else Comment(end.value + 1);
    }
    var end := PassToken(data, start);
    return Token(start, end);
  }

  /** The header loop of `Frame.load`: the fields and where the last one ends. */
  method ScanHeader(data: seq<Byte>, count: nat) returns (r: Option<(seq<seq<Byte>>, nat)>)
    ensures r == Fields(data, 0, count)
  {
    var o: nat, fields: seq<seq<Byte>> := 0, [];
    ReachedStart(data, count);
    while |fields| < count
      invariant Reached(data, count, fields, o)
      decreases count - |fields|, |data| - o
    {
      var turn := ScanOne(data, o);
      match turn {
        case Truncated =>
          ReachedNothing(data, count, fields, o);
          return None;
        case Comment(next) =>
          ReachedComment(data, count, fields, o, next);
          o := next;
        case Token(start, end) =>
          ReachedField(data, count, fields, o, start, end);
          o, fields := end, fields + [data[start..end]];
      }
    }
    ReachedAll(data, count, fields, o);
    return Some((fields, o));
  }

  /** `Frame.load`, after the file is read. */
  method Load(data: seq<Byte>) returns (r: Result<Frame, Error>)
    ensures r == Parse(data)
    ensures forall f :: r == Ok(f) <==> HoldsFrame(data, f)
  {
    forall f ensures Parse(data) == Ok(f) <==> HoldsFrame(data, f) {
      ParseExactly(data, f);
    }
    var header := ScanHeader(data, 4);
    if header.None? {
      return Err(BadHeader);
    }
    r := FinishLoad(header.value.0, data, header.value.1);
  }

  /** The checks after the header scan. */
  method FinishLoad(fields: seq<seq<Byte>>, data: seq<Byte>, end: nat) returns (r: Result<Frame, Error>)
    requires |fields| == 4 && end <= |data|
    ensures r == Interpret(fields, data, end)
  {
    if fields[0] != Ascii("P6") || fields[3] != Ascii("255") {
      return Err(NotP6);
    }
    var width, height := Int(fields[1]), Int(fields[2]);
    if width.None? || height.None? {
      return Err(BadNumber);
    }
    if width.value <= 0 || height.value <= 0 || end == |data| {
      return Err(BadGeometry);
    }
    var size := width.value * height.value * 3;
    var crlf := end + 1 < |data| && data[end] == CR && data[end + 1] == LF;
    var o := end + 1;
    if crlf && |data| - o == size + 1 {
      o := o + 1;
    }
    return if |data| - o != size then Err(LengthMismatch) else Ok(Frame(width.value, height.value, data[o..]));
  }

  /** Fields depend on the start only through the next field. */
  lemma SameFields(data: seq<Byte>, o: nat, p: nat, n: nat)
    requires o <= |data| && p <= |data| && n > 0 && NextField(data, o) == NextField(data, p)
    ensures Fields(data, o, n) == Fields(data, p, n)
  {
  }

  // ---------- the format, as a grammar ----------

  /** Blanks and comments; a comment runs to the next line feed. */
  ghost predicate Gap(data: seq<Byte>, o: nat, s: nat)
    requires s <= |data|
    decreases s - o
  {
    || o == s
    || (o < s && Blank(data[o]) && Gap(data, o + 1, s))
    || exists n: nat :: CommentTo(data, o, n, s) && Gap(data, n + 1, s)
  }

  predicate CommentTo(data: seq<Byte>, o: nat, n: nat, s: nat)
    requires s <= |data|
  {
    o < n < s && data[o] == '#' as int && data[n] == '\n' as int && forall k :: o < k < n ==> data[k] != '\n' as int
  }

  /** Bytes up to the next blank or the end, of which the first does not open a comment. */
  predicate IsToken(data: seq<Byte>, start: nat, end: nat) {
    && start < end <= |data| && data[start] != '#' as int && (forall i :: start <= i < end ==> !Blank(data[i]))
    && (end < |data| ==> Blank(data[end]))
  }

  lemma {:induction false} FindsLf(data: seq<Byte>, o: nat, n: nat)
    requires o <= n < |data| && data[n] == LF && forall k :: o <= k < n ==> data[k] != LF
    ensures FindLf(data, o) == Some(n)
    decreases n - o
  {
    if o < n {
      FindsLf(data, o + 1, n);
    }
  }

  lemma {:induction false} LfFound(data: seq<Byte>, o: nat)
    requires o <= |data| && FindLf(data, o).Some?
    ensures forall k :: o <= k < FindLf(data, o).value ==> data[k] != LF
    decreases |data| - o
  {
    if data[o] != LF {
      LfFound(data, o + 1);
    }
  }

  lemma {:induction false} GapSkipped(data: seq<Byte>, o: nat, s: nat)
    requires o <= s <= |data| && Gap(data, o, s)
    ensures NextField(data, o) == NextField(data, s)
    decreases s - o
  {
    if o < s {
      if Blank(data[o]) && Gap(data, o + 1, s) {
        GapSkipped(data, o + 1, s);
      } else {
        var n: nat :| CommentTo(data, o, n, s) && Gap(data, n + 1, s);
        FindsLf(data, o, n);
        GapSkipped(data, n + 1, s);
      }
    }
  }

  lemma {:induction false} BlanksAreGap(data: seq<Byte>, o: nat, p: nat, s: nat)
    requires o <= p <= s <= |data| && p == SkipBlanks(data, o) && Gap(data, p, s)
    ensures Gap(data, o, s)
    decreases p - o
  {
    if o < p {
      BlanksAreGap(data, o + 1, p, s);
    }
  }

  lemma {:induction false} TokenEnds(data: seq<Byte>, o: nat)
    requires o <= |data|
    ensures var e := TokenEnd(data, o);
            (forall i :: o <= i < e ==> !Blank(data[i])) && (e < |data| ==> Blank(data[e]))
    decreases |data| - o
  {
    if o < |data| && !Blank(data[o]) {
      TokenEnds(data, o + 1);
    }
  }

  lemma {:induction false} FieldBehindGap(data: seq<Byte>, o: nat)
    requires o <= |data| && NextField(data, o).Some?
    ensures var (start, end) := NextField(data, o).value; Gap(data, o, start) && IsToken(data, start, end)
    decreases |data| - o
  {
    var p := SkipBlanks(data, o);
    var (start, end) := NextField(data, o).value;
    if data[p] == HASH {
      var n := FindLf(data, p).value;
      LfFound(data, p);
      FieldBehindGap(data, n + 1);
      assert CommentTo(data, p, n, start);
    } else {
      TokenEnds(data, p);
    }
    BlanksAreGap(data, o, p, start);
  }

  /** The next field is the token behind the gap, for every gap and every token. */
  lemma NextFieldExactly(data: seq<Byte>, o: nat, start: nat, end: nat)
    requires o <= start <= |data|
    ensures NextField(data, o) == Some((start, end)) <==> Gap(data, o, start) && IsToken(data, start, end)
  {
    if Gap(data, o, start) && IsToken(data, start, end) {
      GapSkipped(data, o, start);
      TokenEndsAt(data, start, end);
    }
    if NextField(data, o) == Some((start, end)) {
      FieldBehindGap(data, o);
    }
  }

  type Span = (nat, nat)

  ghost predicate TokenAfter(data: seq<Byte>, o: nat, t: Span) {
    o <= t.0 <= t.1 <= |data| && Gap(data, o, t.0) && IsToken(data, t.0, t.1)
  }

  function Slice(data: seq<Byte>, t: Span): seq<Byte>
    requires t.0 <= t.1 <= |data|
  {
    data[t.0..t.1]
  }

  /** The file is the four tokens behind their gaps, one separator and the raster. */
  ghost predicate FrameAt(data: seq<Byte>, a: Span, b: Span, c: Span, d: Span, f: Frame) {
    && TokenAfter(data, 0, a) && TokenAfter(data, a.1, b) && TokenAfter(data, b.1, c) && TokenAfter(data, c.1, d)
    && Slice(data, a) == Ascii("P6") && Slice(data, d) == Ascii("255")
    && Int(Slice(data, b)) == Some(f.width) && Int(Slice(data, c)) == Some(f.height) && f.width > 0 && f.height > 0
    && RasterBehind(data[d.1..], f)
  }

  /** One blank byte and then the raster, or a CRLF and then the raster. */
  predicate RasterBehind(rest: seq<Byte>, f: Frame) {
    && |f.pixels| == f.width * f.height * 3
    && ((rest != [] && rest[1..] == f.pixels) || rest == ['\r' as int, '\n' as int] + f.pixels)
  }

  ghost predicate HoldsFrame(data: seq<Byte>, f: Frame) { exists a, b, c, d :: FrameAt(data, a, b, c, d, f) }

  /** A file loads as a frame exactly when it holds that frame. */
  lemma ParseExactly(data: seq<Byte>, f: Frame)
    ensures Parse(data) == Ok(f) <==> HoldsFrame(data, f)
  {
    if Parse(data) == Ok(f) {
      ParsedIsHeld(data, f);
    }
    if a, b, c, d :| FrameAt(data, a, b, c, d, f) {
      HeldIsParsed(data, a, b, c, d, f);
    }
  }

  lemma HeldIsParsed(data: seq<Byte>, a: Span, b: Span, c: Span, d: Span, f: Frame)
    requires FrameAt(data, a, b, c, d, f)
    ensures Parse(data) == Ok(f)
  {
    NextFieldExactly(data, 0, a.0, a.1);
    NextFieldExactly(data, a.1, b.0, b.1);
    NextFieldExactly(data, b.1, c.0, c.1);
    NextFieldExactly(data, c.1, d.0, d.1);
    Chained(data, a, b, c, d, 4);
    RasterExactly(data, d.1, f);
  }

  lemma RasterExactly(data: seq<Byte>, o: nat, f: Frame)
    requires o <= |data| && f.width > 0 && f.height > 0
    ensures Raster(data, o, f.width, f.height) == Ok(f) <==> RasterBehind(data[o..], f)
  {
    var rest, size := data[o..], f.width * f.height * 3;
    if rest != [] {
      assert rest[1..] == data[o + 1..];
      if |rest| > 1 {
        assert rest[2..] == data[o + 2..] && rest == [rest[0], rest[1]] + rest[2..];
      }
    }
  }

  lemma ParsedIsHeld(data: seq<Byte>, f: Frame)
    requires Parse(data) == Ok(f)
    ensures HoldsFrame(data, f)
  {
    var fields, end := Fields(data, 0, 4).value.0, Fields(data, 0, 4).value.1;
    var a, b, c, d := FourSpans(data, 4);
    RasterExactly(data, end, f);
    assert FrameAt(data, a, b, c, d, f);
  }

  lemma FourSpans(data: seq<Byte>, n: nat) returns (a: Span, b: Span, c: Span, d: Span)
    requires n == 4 && Fields(data, 0, n).Some?
    ensures TokenAfter(data, 0, a) && TokenAfter(data, a.1, b) && TokenAfter(data, b.1, c) && TokenAfter(data, c.1, d)
    ensures Fields(data, 0, n) == Some(([Slice(data, a), Slice(data, b), Slice(data, c), Slice(data, d)], d.1))
  {
    a := OneSpan(data, 0, n);
    b := OneSpan(data, a.1, n - 1);
    c := OneSpan(data, b.1, n - 2);
    d := OneSpan(data, c.1, n - 3);
    Chained(data, a, b, c, d, n);
  }

  lemma OneSpan(data: seq<Byte>, o: nat, n: nat) returns (t: Span)
    requires o <= |data| && n > 0 && Fields(data, o, n).Some?
    ensures NextField(data, o) == Some(t) && TokenAfter(data, o, t) && Fields(data, t.1, n - 1).Some?
  {
    t := NextField(data, o).value;
    FieldBehindGap(data, o);
  }

  // ---------- the printer ----------

  /** The pixels of a tight BGRA frame as RGB. */
  function Rgb(frame: seq<Byte>, count: nat): (r: seq<Byte>)
    requires |frame| == 4 * count
  {
    seq(3 * count, j requires 0 <= j < 3 * count => frame[4 * (j / 3) + 2 - j % 3])
  }

  function Header(width: nat, height: nat): seq<Byte> {
    Joined(Ascii("P6"), Decimal(width), Decimal(height), Ascii("255"))
  }

  /** One strided slice assignment: `rgb[to::3] = frame[from::4]`. */
  method AssignStride(rgb: array<Byte>, to: nat, frame: seq<Byte>, from: nat, count: nat)
    requires rgb.Length == 3 * count && |frame| == 4 * count && to < 3 && from < 4
    modifies rgb
    ensures forall j :: 0 <= j < rgb.Length ==> rgb[j] == if j % 3 == to then frame[4 * (j / 3) + from] else old(rgb[j])
  {
    for i := 0 to count
      invariant forall j :: 0 <= j < rgb.Length ==>
        rgb[j] == if j % 3 == to && j < 3 * i then frame[4 * (j / 3) + from] else old(rgb[j])
    {
      rgb[3 * i + to] := frame[4 * i + from];
    }
  }

  /** `ppm_from_bgra`; None for a frame of the wrong length. */
  method PpmFromBgra(frame: seq<Byte>, width: nat, height: nat) returns (r: Option<seq<Byte>>)
    ensures r == if |frame| == width * height * 4 then Some(Header(width, height) + [LF] + Rgb(frame, width * height))
                 else None
  {
    if |frame| != width * height * 4 {
      return None;
    }
    var count := width * height;
    var rgb := new Byte[3 * count];
    AssignStride(rgb, 0, frame, 2, count);
    AssignStride(rgb, 1, frame, 1, count);
    AssignStride(rgb, 2, frame, 0, count);
    assert rgb[..] == Rgb(frame, count);
    return Some(Header(width, height) + [LF] + rgb[..]);
  }

  // ---------- reading back what is printed ----------

  predicate Plain(token: seq<Byte>) {
    token != [] && token[0] != HASH && forall i :: 0 <= i < |token| ==> !Blank(token[i])
  }

  lemma {:induction false} TokenEndsAt(data: seq<Byte>, o: nat, end: nat)
    requires o <= end <= |data| && (forall i :: o <= i < end ==> !Blank(data[i])) && (end < |data| ==> Blank(data[end]))
    ensures TokenEnd(data, o) == end
    decreases end - o
  {
    if o < end {
      TokenEndsAt(data, o + 1, end);
    }
  }

  /** A token behind at most one blank, and before one or the end. */
  lemma NextFieldAt(data: seq<Byte>, o: nat, start: nat, token: seq<Byte>)
    requires Plain(token) && (start == o || (start == o + 1 && o < |data| && Blank(data[o])))
    requires Holds(data, start, token) && (start + |token| < |data| ==> Blank(data[start + |token|]))
    ensures NextField(data, o) == Some((start, start + |token|))
  {
    forall i | 0 <= i < |token| ensures data[start + i] == token[i] {
      assert data[start..start + |token|][i] == token[i];
    }
    TokenEndsAt(data, start, start + |token|);
    assert SkipBlanks(data, start) == start;
  }

  /** A token with its surroundings. */
  lemma TokenAmid(data: seq<Byte>, o: nat, before: seq<Byte>, token: seq<Byte>, after: seq<Byte>)
    requires data == before + token + after && Plain(token)
    requires |before| == o || (|before| == o + 1 && Blank(before[o]))
    requires after == [] || Blank(after[0])
    ensures |before| + |token| <= |data|
    ensures NextField(data, o) == Some((|before|, |before| + |token|)) && data[|before|..|before| + |token|] == token
  {
    var end := |before| + |token|;
    assert data[|before|..end] == token;
    NextFieldAt(data, o, |before|, token);
  }

  function Joined(a: seq<Byte>, b: seq<Byte>, c: seq<Byte>, d: seq<Byte>): seq<Byte> {
    a + [LF] + b + [SPACE] + c + [LF] + d
  }

  lemma FieldsChain(data: seq<Byte>, o: nat, first: (nat, nat), second: (nat, nat), n: nat)
    requires o <= |data| && n >= 2
    requires NextField(data, o) == Some(first) && NextField(data, first.1) == Some(second)
    ensures Fields(data, o, n)
            == Prepend([data[first.0..first.1], data[second.0..second.1]], Fields(data, second.1, n - 2))
  {
    var a, b, rest := data[first.0..first.1], data[second.0..second.1], Fields(data, second.1, n - 2);
    if rest.Some? {
      assert [a] + ([b] + rest.value.0) == [a, b] + rest.value.0;
    }
  }

  /** `token` is the next field behind `o`. */
  predicate IsNext(data: seq<Byte>, o: nat, start: nat, token: seq<Byte>) {
    && o <= |data| && start + |token| <= |data|
    && NextField(data, o) == Some((start, start + |token|)) && data[start..start + |token|] == token
  }

  lemma FirstToken(data: seq<Byte>, a: seq<Byte>, rest: seq<Byte>)
    requires data == [] + a + rest && Plain(a) && (rest == [] || Blank(rest[0]))
    ensures IsNext(data, 0, 0, a)
  {
    TokenAmid(data, 0, [], a, rest);
  }

  lemma LaterToken(data: seq<Byte>, before: seq<Byte>, s: Byte, token: seq<Byte>, rest: seq<Byte>)
    requires data == (before + [s]) + token + rest && Plain(token) && Blank(s) && (rest == [] || Blank(rest[0]))
    ensures IsNext(data, |before|, |before| + 1, token)
  {
    TokenAmid(data, |before|, before + [s], token, rest);
  }

  lemma TokenA(data: seq<Byte>, a: seq<Byte>, b: seq<Byte>, c: seq<Byte>, d: seq<Byte>, after: seq<Byte>)
    requires data == Joined(a, b, c, d) + after && Plain(a)
    ensures IsNext(data, 0, 0, a)
  {
    var rest := [LF] + b + [SPACE] + c + [LF] + d + after;
    assert data == [] + a + rest;
    FirstToken(data, a, rest);
  }

  lemma TokenB(data: seq<Byte>, a: seq<Byte>, b: seq<Byte>, c: seq<Byte>, d: seq<Byte>, after: seq<Byte>)
    requires data == Joined(a, b, c, d) + after && Plain(b)
    ensures IsNext(data, |a|, |a| + 1, b)
  {
    var rest := [SPACE] + c + [LF] + d + after;
    assert data == (a + [LF]) + b + rest;
    LaterToken(data, a, LF, b, rest);
  }

  lemma TokenC(data: seq<Byte>, a: seq<Byte>, b: seq<Byte>, c: seq<Byte>, d: seq<Byte>, after: seq<Byte>)
    requires data == Joined(a, b, c, d) + after && Plain(c)
    ensures IsNext(data, |a| + 1 + |b|, |a| + 1 + |b| + 1, c)
  {
    var before, rest := a + [LF] + b, [LF] + d + after;
    assert data == (before + [SPACE]) + c + rest;
    LaterToken(data, before, SPACE, c, rest);
  }

  lemma TokenD(data: seq<Byte>, a: seq<Byte>, b: seq<Byte>, c: seq<Byte>, d: seq<Byte>, after: seq<Byte>)
    requires data == Joined(a, b, c, d) + after && Plain(d) && (after == [] || Blank(after[0]))
    ensures IsNext(data, |a| + 1 + |b| + 1 + |c|, |a| + 1 + |b| + 1 + |c| + 1, d)
    ensures |Joined(a, b, c, d)| == |a| + 1 + |b| + 1 + |c| + 1 + |d|
  {
    var before := a + [LF] + b + [SPACE] + c;
    assert data == (before + [LF]) + d + after;
    LaterToken(data, before, LF, d, after);
  }

  /** The four tokens are the first four fields, and the last one ends at `end`. */
  predicate Tokens(data: seq<Byte>, a: seq<Byte>, b: seq<Byte>, c: seq<Byte>, d: seq<Byte>, end: nat) {
    var toB, toC := |a| + 1, |a| + 1 + |b| + 1;
    var toD := toC + |c| + 1;
    && IsNext(data, 0, 0, a) && IsNext(data, |a|, toB, b) && IsNext(data, toB + |b|, toC, c)
    && IsNext(data, toC + |c|, toD, d) && end == toD + |d|
  }

  lemma JoinedTokens(data: seq<Byte>, a: seq<Byte>, b: seq<Byte>, c: seq<Byte>, d: seq<Byte>, after: seq<Byte>)
    requires data == Joined(a, b, c, d) + after && Plain(a) && Plain(b) && Plain(c) && Plain(d)
    requires after == [] || Blank(after[0])
    ensures Tokens(data, a, b, c, d, |Joined(a, b, c, d)|)
  {
    TokenA(data, a, b, c, d, after);
    TokenB(data, a, b, c, d, after);
    TokenC(data, a, b, c, d, after);
    TokenD(data, a, b, c, d, after);
  }

  lemma FourFields(data: seq<Byte>, a: seq<Byte>, b: seq<Byte>, c: seq<Byte>, d: seq<Byte>, end: nat, n: nat)
    requires n == 4 && Tokens(data, a, b, c, d, end)
    ensures Fields(data, 0, n) == Some(([a, b, c, d], end))
  {
    var toB, toC := |a| + 1, |a| + 1 + |b| + 1;
    var toD := toC + |c| + 1;
    Chained(data, (0, |a|), (toB, toB + |b|), (toC, toC + |c|), (toD, toD + |d|), n);
  }

  lemma Chained(data: seq<Byte>, a: (nat, nat), b: (nat, nat), c: (nat, nat), d: (nat, nat), n: nat)
    requires n == 4 && NextField(data, 0) == Some(a)
    requires NextField(data, a.1) == Some(b) && NextField(data, b.1) == Some(c) && NextField(data, c.1) == Some(d)
    ensures Fields(data, 0, n)
            == Some(([data[a.0..a.1], data[b.0..b.1], data[c.0..c.1], data[d.0..d.1]], d.1))
  {
    FieldsChain(data, 0, a, b, n);
    FieldsChain(data, b.1, c, d, n - 2);
    var third, fourth := data[c.0..c.1], data[d.0..d.1];
    assert [third, fourth] + [] == [third, fourth];
    assert [data[a.0..a.1], data[b.0..b.1]] + [third, fourth] == [data[a.0..a.1], data[b.0..b.1], third, fourth];
  }

  lemma DecimalIsPlain(n: nat)
    ensures Plain(Decimal(n))
  {
  }

  lemma FieldsAreRead(data: seq<Byte>, end: nat, a: seq<Byte>, b: seq<Byte>, c: seq<Byte>, d: seq<Byte>, width: nat,
                      height: nat, n: nat)
    requires n == 4 && Fields(data, 0, n) == Some(([a, b, c, d], end)) && a == Ascii("P6") && d == Ascii("255")
    requires Int(b) == Some(width) && Int(c) == Some(height)
    ensures Parse(data) == Raster(data, end, width, height)
  {
  }

  lemma JoinedAreRead(data: seq<Byte>, a: seq<Byte>, b: seq<Byte>, c: seq<Byte>, d: seq<Byte>, rest: seq<Byte>,
                      width: nat, height: nat)
    requires data == Joined(a, b, c, d) + rest && Plain(a) && Plain(b) && Plain(c) && Plain(d)
    requires rest == [] || Blank(rest[0])
    requires a == Ascii("P6") && d == Ascii("255") && Int(b) == Some(width) && Int(c) == Some(height)
    ensures Parse(data) == Raster(data, |Joined(a, b, c, d)|, width, height)
  {
    JoinedTokens(data, a, b, c, d, rest);
    FourFields(data, a, b, c, d, |Joined(a, b, c, d)|, 4);
    FieldsAreRead(data, |Joined(a, b, c, d)|, a, b, c, d, width, height, 4);
  }

  lemma HeaderIsRead(width: nat, height: nat, rest: seq<Byte>)
    requires rest == [] || Blank(rest[0])
    ensures var head := Header(width, height); Parse(head + rest) == Raster(head + rest, |head|, width, height)
  {
    DecimalIsPlain(width);
    DecimalIsPlain(height);
    IntOfDecimal(width);
    IntOfDecimal(height);
    JoinedAreRead(Header(width, height) + rest, Ascii("P6"), Decimal(width), Decimal(height), Ascii("255"), rest,
                  width, height);
  }

  /** Behind a printed header, for every rest of the file: the raster is what follows one blank byte; a CRLF counts as
      one separator exactly when the rest is one byte longer than the raster needs. Everything else is refused. */
  lemma AfterHeader(width: nat, height: nat, rest: seq<Byte>)
    requires width > 0 && height > 0 && (rest == [] || Blank(rest[0]))
    ensures var size := width * height * 3;
            Parse(Header(width, height) + rest) ==
              if rest == [] then Err(BadGeometry)
              else if |rest| == size + 1 then Ok(Frame(width, height, rest[1..]))
              else if |rest| == size + 2 && rest[0] == CR && rest[1] == LF then Ok(Frame(width, height, rest[2..]))
              else Err(LengthMismatch)
  {
    HeaderIsRead(width, height, rest);
    AfterFields(width, height, Header(width, height), rest);
  }

  lemma AfterFields(width: nat, height: nat, head: seq<Byte>, rest: seq<Byte>)
    requires width > 0 && height > 0
    ensures var size := width * height * 3;
            Raster(head + rest, |head|, width, height) ==
              if rest == [] then Err(BadGeometry)
              else if |rest| == size + 1 then Ok(Frame(width, height, rest[1..]))
              else if |rest| == size + 2 && rest[0] == CR && rest[1] == LF then Ok(Frame(width, height, rest[2..]))
              else Err(LengthMismatch)
  {
    if rest != [] {
      assert (head + rest)[|head| + 1..] == rest[1..];
      if |rest| > 1 {
        assert (head + rest)[|head| + 2..] == rest[2..];
      }
    }
  }

  lemma RasterIsRead(width: nat, height: nat, raster: seq<Byte>)
    requires width > 0 && height > 0 && |raster| == width * height * 3
    ensures Parse(Header(width, height) + [LF] + raster) == Ok(Frame(width, height, raster))
  {
    AfterHeader(width, height, [LF] + raster);
    assert ([LF] + raster)[1..] == raster;
    assert Header(width, height) + [LF] + raster == Header(width, height) + ([LF] + raster);
  }

  /** What is printed is read back, for every frame, also when its first sample is a line feed. */
  lemma RoundTrip(frame: seq<Byte>, width: nat, height: nat)
    requires width > 0 && height > 0 && |frame| == width * height * 4
    ensures Parse(Header(width, height) + [LF] + Rgb(frame, width * height))
            == Ok(Frame(width, height, Rgb(frame, width * height)))
  {
    RasterIsRead(width, height, Rgb(frame, width * height));
  }

  /** The separator is never taken for a sample: a file with a lone CR and one with CRLF hold the same raster, whatever
      its first byte. */
  lemma SeparatorsAgree(width: nat, height: nat, raster: seq<Byte>)
    requires width > 0 && height > 0 && |raster| == width * height * 3
    ensures Parse(Header(width, height) + ([CR] + raster)) == Ok(Frame(width, height, raster))
    ensures Parse(Header(width, height) + ([CR, LF] + raster)) == Ok(Frame(width, height, raster))
  {
    AfterHeader(width, height, [CR] + raster);
    AfterHeader(width, height, [CR, LF] + raster);
    assert ([CR] + raster)[1..] == raster;
    assert ([CR, LF] + raster)[2..] == raster;
  }
}
