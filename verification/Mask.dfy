/** scripts/build-glyph-pixel-mask.py and verify-glyph-pixel-mask.py: proposing a pixel mask and checking captures
    against it. */
module Mask {
  import opened Bytes
  import opened Results
  import opened Sorting
  import opened Ppm

  const STROKES := 48
  const GUARDS := 16

  datatype Box = Box(x: int, y: int, w: int, h: int)

  type Colour = (Byte, Byte, Byte)

  predicate WellFormed(frame: Frame) {
    frame.width > 0 && frame.height > 0 && |frame.pixels| == 3 * (frame.width * frame.height)
  }

  function Area(box: Box): nat { if box.w > 0 && box.h > 0 then (box.w as nat) * (box.h as nat) else 0 }

  /** Both programs refuse the same boxes. */
  predicate Fits(box: Box, frame: Frame) {
    && box.x >= 0 && box.y >= 0 && box.w > 0 && box.h > 0
    && box.x + box.w <= frame.width && box.y + box.h <= frame.height
  }

  /** `region_pixels`, and the last line of `selected_offsets`: where pixel `i` of a box starts. */
  function Offset(width: int, box: Box, i: nat): int
    requires box.w > 0
  {
    ((box.y + i / box.w) * width + box.x + i % box.w) * 3
  }

  lemma RowOf(i: nat, w: nat, h: nat)
    requires 0 < w && i < w * h
    ensures 0 <= i / w < h && 0 <= i % w < w
  {
    if h <= i / w {
      Product(h, i / w, w);
    }
  }

  lemma Product(a: nat, b: nat, w: nat)
    requires a <= b
    ensures a * w <= b * w
  {
  }

  lemma CellInside(column: nat, row: nat, width: nat, height: nat)
    requires column < width && row < height
    ensures row * width + column < width * height
  {
    Product(row + 1, height, width);
    assert (row + 1) * width == row * width + width;
  }

  /** Every pixel of a box that fits lies inside the frame. */
  lemma OffsetInside(frame: Frame, box: Box, i: nat)
    requires WellFormed(frame) && Fits(box, frame) && i < Area(box)
    ensures 0 <= Offset(frame.width, box, i) && Offset(frame.width, box, i) + 3 <= |frame.pixels|
  {
    RowOf(i, box.w, box.h);
    CellInside(box.x + i % box.w, box.y + i / box.w, frame.width, frame.height);
  }

  function ColourAt(frame: Frame, box: Box, i: nat): Colour
    requires WellFormed(frame) && Fits(box, frame) && i < Area(box)
  {
    OffsetInside(frame, box, i);
    var o := Offset(frame.width, box, i);
    (frame.pixels[o], frame.pixels[o + 1], frame.pixels[o + 2])
  }

  /** The raster is stored row by row, three bytes for each pixel. */
  function PixelAt(frame: Frame, column: nat, row: nat): Colour
    requires WellFormed(frame) && column < frame.width && row < frame.height
  {
    CellInside(column, row, frame.width, frame.height);
    var o := 3 * (row * frame.width + column);
    (frame.pixels[o], frame.pixels[o + 1], frame.pixels[o + 2])
  }

  /** A box counts its own pixels row by row. */
  lemma BoxOfFrame(frame: Frame, box: Box, column: nat, row: nat, i: nat)
    requires WellFormed(frame) && Fits(box, frame) && column < box.w && row < box.h && i == row * box.w + column
    requires i < Area(box)
    ensures ColourAt(frame, box, i) == PixelAt(frame, box.x + column, box.y + row)
  {
    Divided(column, row, box.w, i);
    OffsetInside(frame, box, i);
  }

  lemma Divided(u: nat, v: nat, w: nat, n: nat)
    requires u < w && n == v * w + u
    ensures n / w == v && n % w == u
  {
    if n / w < v {
      Product(n / w + 1, v, w);
    } else if v < n / w {
      Product(v + 1, n / w, w);
    }
  }

  function Luminance(c: Colour): nat { c.0 * 299 + c.1 * 587 + c.2 * 114 }

  /** A grey pixel is as bright as its level; of white, red gives 29.9 percent, green 58.7 and blue 11.4. */
  lemma LuminanceShares(v: Byte)
    ensures Luminance((v, v, v)) == 1000 * v
    ensures Luminance((v, 0, 0)) == 299 * v && Luminance((0, v, 0)) == 587 * v && Luminance((0, 0, v)) == 114 * v
  {
  }

  // ---------- select ----------

  /** The pair (luminance, index) as one number; `i < n`. */
  function Key(luminance: nat, i: nat, n: nat): real { (luminance * n + i) as real }

  function Brightness(frame: Frame, box: Box): nat -> real
    requires WellFormed(frame) && Fits(box, frame)
  {
    (i: nat) => if i < Area(box) then Key(Luminance(ColourAt(frame, box, i)), i, Area(box)) else 0.0
  }

  function Indices(n: nat): seq<nat> { seq(n, i => i) }

  function AsReal(i: nat): real { i as real }

  predicate Roomy(box: Box) { Area(box) >= STROKES + GUARDS }

  function Ranked(frame: Frame, box: Box): seq<nat>
    requires WellFormed(frame) && Fits(box, frame)
  {
    Sort(Indices(Area(box)), Brightness(frame, box))
  }

  lemma RankedIs(frame: Frame, box: Box, n: nat)
    requires WellFormed(frame) && Fits(box, frame) && n == Area(box)
    ensures |Ranked(frame, box)| == n && multiset(Ranked(frame, box)) == multiset(Indices(n))
    ensures Ordered(Ranked(frame, box), Brightness(frame, box))
    ensures forall k :: 0 <= k < n ==> Ranked(frame, box)[k] < n
  {
    SortSorts(Indices(n), Brightness(frame, box));
    forall k | 0 <= k < n ensures Ranked(frame, box)[k] < n {
      var j := SameElements(Ranked(frame, box), Indices(n), k);
    }
  }

  function Ends(ranked: seq<nat>): seq<nat>
    requires |ranked| >= STROKES + GUARDS
  {
    ranked[..STROKES] + ranked[|ranked| - GUARDS..]
  }

  /** `sorted(strokes + guards)`, both of them sorted. */
  function Merged(dark: seq<nat>, light: seq<nat>): seq<nat> { Sort(Sort(dark, AsReal) + Sort(light, AsReal), AsReal) }

  function Pick(ranked: seq<nat>): seq<nat>
    requires |ranked| >= STROKES + GUARDS
  {
    Merged(ranked[..STROKES], ranked[|ranked| - GUARDS..])
  }

  /** None for a box that does not fit or is too small. */
  function Select(frame: Frame, box: Box): Option<seq<nat>>
    requires WellFormed(frame)
  {
    if !Fits(box, frame) || !Roomy(box) then None
    else
      RankedIs(frame, box, Area(box));
      Some(Pick(Ranked(frame, box)))
  }

  /** A box is refused exactly if it does not lie in the frame or has fewer than 64 pixels. */
  lemma SelectsExactly(frame: Frame, box: Box)
    requires WellFormed(frame)
    ensures Select(frame, box).Some? <==>
              && 0 <= box.x < box.x + box.w <= frame.width && 0 <= box.y < box.y + box.h <= frame.height
              && box.w * box.h >= 64
  {
  }

  // ---------- no index twice ----------

  predicate Distinct<T(==)>(s: seq<T>) { forall i, j :: 0 <= i < j < |s| ==> s[i] != s[j] }

  lemma {:induction false} DistinctOnce<T>(s: seq<T>, x: T)
    requires Distinct(s)
    ensures multiset(s)[x] <= 1
  {
    if s != [] {
      var before, last := s[..|s| - 1], s[|s| - 1];
      DistinctOnce(before, x);
      assert s == before + [last];
      forall i | 0 <= i < |before| ensures before[i] != last {
        assert s[i] != s[|s| - 1];
      }
      assert last !in multiset(before);
    }
  }

  lemma TwiceInBag<T>(s: seq<T>, i: nat, j: nat)
    requires i < j < |s| && s[i] == s[j]
    ensures multiset(s)[s[j]] >= 2
  {
    assert s == s[..j] + [s[j]] + s[j + 1..];
    assert s[..j][i] == s[j];
    assert s[j] in multiset(s[..j]);
  }

  lemma OnceDistinct<T(!new)>(s: seq<T>)
    requires forall x :: multiset(s)[x] <= 1
    ensures Distinct(s)
  {
    forall i, j | 0 <= i < j < |s| ensures s[i] != s[j] {
      if s[i] == s[j] {
        TwiceInBag(s, i, j);
      }
    }
  }

  /** A rearrangement of different indices has none twice. */
  lemma StillDistinct<T(!new)>(a: seq<T>, b: seq<T>)
    requires Distinct(a) && multiset(a) == multiset(b)
    ensures Distinct(b)
  {
    forall x ensures multiset(b)[x] <= 1 {
      DistinctOnce(a, x);
    }
    OnceDistinct(b);
  }

  lemma EndsDistinct(ranked: seq<nat>, a: nat, b: nat)
    requires Distinct(ranked) && a + b <= |ranked|
    ensures Distinct(ranked[..a] + ranked[|ranked| - b..])
  {
  }

  lemma SortedBag(dark: seq<nat>, light: seq<nat>)
    ensures multiset(Merged(dark, light)) == multiset(dark + light)
    ensures |Merged(dark, light)| == |dark| + |light|
  {
    SortSorts(dark, AsReal);
    SortSorts(light, AsReal);
    SortSorts(Sort(dark, AsReal) + Sort(light, AsReal), AsReal);
  }

  lemma MergedIs(dark: seq<nat>, light: seq<nat>, all: seq<nat>)
    requires all == dark + light && Distinct(all)
    ensures |Merged(dark, light)| == |all| && multiset(Merged(dark, light)) == multiset(all)
    ensures Distinct(Merged(dark, light))
  {
    SortedBag(dark, light);
    StillDistinct(all, Merged(dark, light));
  }

  lemma PickIs(ranked: seq<nat>, n: nat)
    requires multiset(ranked) == multiset(Indices(n)) && |ranked| == n >= STROKES + GUARDS
    ensures |Pick(ranked)| == STROKES + GUARDS && Distinct(Pick(ranked))
    ensures multiset(Pick(ranked)) == multiset(Ends(ranked))
  {
    StillDistinct(Indices(n), ranked);
    EndsDistinct(ranked, STROKES, GUARDS);
    MergedIs(ranked[..STROKES], ranked[n - GUARDS..], Ends(ranked));
  }

  /** The selected indices: those of the darkest and of the lightest pixels, in the box, none twice. */
  lemma SelectPicks(frame: Frame, box: Box, picked: seq<nat>, n: nat)
    requires WellFormed(frame) && Select(frame, box) == Some(picked) && n == Area(box)
    ensures |picked| == STROKES + GUARDS && Distinct(picked)
    ensures |Ranked(frame, box)| == n >= STROKES + GUARDS && multiset(picked) == multiset(Ends(Ranked(frame, box)))
    ensures forall k :: 0 <= k < |picked| ==> picked[k] < n
  {
    var ranked := Ranked(frame, box);
    RankedIs(frame, box, n);
    PickIs(ranked, n);
    forall k | 0 <= k < |picked| ensures picked[k] < n {
      var j := SameElements(picked, Ends(ranked), k);
    }
  }

  // ---------- when a proposed mask shows contrast ----------

  /** Some two of the pixels have different colours. */
  predicate Varied(frame: Frame, box: Box, pixels: seq<int>)
    requires WellFormed(frame) && Fits(box, frame) && InBox(box, pixels)
  {
    exists i, j :: 0 <= i < |pixels| && 0 <= j < |pixels|
      && ColourAt(frame, box, pixels[i]) != ColourAt(frame, box, pixels[j])
  }

  predicate InBox(box: Box, pixels: seq<int>) { forall i :: 0 <= i < |pixels| ==> 0 <= pixels[i] < Area(box) }

  function Tone(frame: Frame, box: Box, i: nat): nat
    requires WellFormed(frame) && Fits(box, frame) && i < Area(box)
  {
    Luminance(ColourAt(frame, box, i))
  }

  predicate TwoTones(frame: Frame, box: Box)
    requires WellFormed(frame) && Fits(box, frame)
  {
    exists i, j :: 0 <= i < Area(box) && 0 <= j < Area(box) && Tone(frame, box, i) != Tone(frame, box, j)
  }

  /** The combined key orders by luminance first. */
  lemma KeyOrders(a: nat, i: nat, b: nat, j: nat, n: nat)
    requires i < n && j < n && Key(a, i, n) <= Key(b, j, n)
    ensures a <= b
  {
    assert (b + 1) * n == b * n + n;
    if b < a {
      Product(b + 1, a, n);
    }
  }

  lemma DarkestFirst(frame: Frame, box: Box, n: nat, k: nat, i: nat)
    requires WellFormed(frame) && Fits(box, frame) && n == Area(box) && k < n && i < n
    requires |Ranked(frame, box)| == n && Ranked(frame, box)[k] < n
    requires Brightness(frame, box)(Ranked(frame, box)[k]) <= Brightness(frame, box)(i)
    ensures Tone(frame, box, Ranked(frame, box)[k]) <= Tone(frame, box, i)
  {
    KeyOrders(Tone(frame, box, Ranked(frame, box)[k]), Ranked(frame, box)[k], Tone(frame, box, i), i, n);
  }

  lemma LightestLast(frame: Frame, box: Box, n: nat, k: nat, i: nat)
    requires WellFormed(frame) && Fits(box, frame) && n == Area(box) && k < n && i < n
    requires |Ranked(frame, box)| == n && Ranked(frame, box)[k] < n
    requires Brightness(frame, box)(i) <= Brightness(frame, box)(Ranked(frame, box)[k])
    ensures Tone(frame, box, i) <= Tone(frame, box, Ranked(frame, box)[k])
  {
    KeyOrders(Tone(frame, box, i), i, Tone(frame, box, Ranked(frame, box)[k]), Ranked(frame, box)[k], n);
  }

  /** The first index ranked is as dark as any, the last as light as any. */
  lemma Extremes(frame: Frame, box: Box, n: nat, i: nat)
    requires WellFormed(frame) && Fits(box, frame) && n == Area(box) && i < n
    ensures var ranked := Ranked(frame, box);
            && |ranked| == n && ranked[0] < n && ranked[n - 1] < n
            && Tone(frame, box, ranked[0]) <= Tone(frame, box, i) <= Tone(frame, box, ranked[n - 1])
  {
    RankedIs(frame, box, n);
    var ranked := Ranked(frame, box);
    assert Indices(n)[i] == i;
    var k := SameElements(Indices(n), ranked, i);
    DarkestFirst(frame, box, n, 0, i);
    LightestLast(frame, box, n, n - 1, i);
  }

  /** With one luminance throughout, the ranking is by index. */
  lemma OneTone(frame: Frame, box: Box, n: nat)
    requires WellFormed(frame) && Fits(box, frame) && n == Area(box) && !TwoTones(frame, box)
    ensures Ranked(frame, box) == Indices(n)
  {
    RankedIs(frame, box, n);
    forall i, j | 0 <= i < j < n ensures Brightness(frame, box)(Indices(n)[i]) < Brightness(frame, box)(Indices(n)[j]) {
      assert Tone(frame, box, i) == Tone(frame, box, j);
    }
    OrderedUnique(Ranked(frame, box), Indices(n), Brightness(frame, box), n);
  }

  lemma VariedBag(frame: Frame, box: Box, a: seq<int>, b: seq<int>)
    requires WellFormed(frame) && Fits(box, frame) && InBox(box, a) && InBox(box, b) && multiset(a) == multiset(b)
    requires Varied(frame, box, a)
    ensures Varied(frame, box, b)
  {
    var i, j :| 0 <= i < |a| && 0 <= j < |a| && ColourAt(frame, box, a[i]) != ColourAt(frame, box, a[j]);
    var k := SameElements(a, b, i);
    var l := SameElements(a, b, j);
  }

  lemma EndsInBox(frame: Frame, box: Box, n: nat)
    requires WellFormed(frame) && Fits(box, frame) && n == Area(box) >= STROKES + GUARDS
    ensures |Ranked(frame, box)| == n && InBox(box, Ends(Ranked(frame, box))) && InBox(box, Ends(Indices(n)))
  {
    RankedIs(frame, box, n);
  }

  /** Exactly when the proposed pixels of a box have two colours: when the box holds two luminances, or else when its
      first 48 and last 16 pixels do. */
  lemma ContrastExactly(frame: Frame, box: Box, picked: seq<nat>, n: nat)
    requires WellFormed(frame) && Select(frame, box) == Some(picked) && n == Area(box)
    ensures n >= STROKES + GUARDS && InBox(box, picked) && InBox(box, Ends(Indices(n)))
    ensures Varied(frame, box, picked) <==> TwoTones(frame, box) || Varied(frame, box, Ends(Indices(n)))
  {
    SelectPicks(frame, box, picked, n);
    EndsInBox(frame, box, n);
    var ranked := Ranked(frame, box);
    if TwoTones(frame, box) {
      TonesShow(frame, box, n);
      VariedBag(frame, box, Ends(ranked), picked);
    } else {
      OneTone(frame, box, n);
      if Varied(frame, box, picked) {
        VariedBag(frame, box, picked, Ends(ranked));
      }
      if Varied(frame, box, Ends(Indices(n))) {
        VariedBag(frame, box, Ends(ranked), picked);
      }
    }
  }

  lemma TonesShow(frame: Frame, box: Box, n: nat)
    requires WellFormed(frame) && Fits(box, frame) && n == Area(box) >= STROKES + GUARDS && TwoTones(frame, box)
    ensures |Ranked(frame, box)| == n && InBox(box, Ends(Ranked(frame, box)))
    ensures Varied(frame, box, Ends(Ranked(frame, box)))
  {
    EndsInBox(frame, box, n);
    var i, j :| 0 <= i < n && 0 <= j < n && Tone(frame, box, i) != Tone(frame, box, j);
    Extremes(frame, box, n, i);
    Extremes(frame, box, n, j);
    var ends := Ends(Ranked(frame, box));
    assert ends[0] == Ranked(frame, box)[0] && ends[|ends| - 1] == Ranked(frame, box)[n - 1];
    assert ColourAt(frame, box, ends[0]) != ColourAt(frame, box, ends[|ends| - 1]);
  }

  // ---------- files and masks ----------

  datatype Name = Caption | Menu | Tab | Other(id: nat)

  datatype Region = Region(box: Box, pixels: seq<int>)

  datatype Mask = Mask(reference: nat, regions: seq<(Name, Region)>)

  datatype File = File(ino: nat, data: seq<Byte>)

  /** Every frame that loads is well formed. */
  lemma LoadedIsWellFormed(data: seq<Byte>)
    requires Parse(data).Ok?
    ensures WellFormed(Parse(data).value)
  {
  }

  /** What `selected_offsets` accepts. */
  predicate ValidRegion(region: Region, frame: Frame) {
    Fits(region.box, frame) && region.pixels != [] && InBox(region.box, region.pixels) && Distinct(region.pixels)
  }

  predicate Usable(region: Region, frame: Frame)
    requires WellFormed(frame)
  {
    ValidRegion(region, frame) && Varied(frame, region.box, region.pixels)
  }

  /** What both programs agree a capture must look like. */
  predicate SameGeometry(a: Frame, b: Frame) { a.width == b.width && a.height == b.height }

  predicate Agrees(region: Region, expected: Frame, capture: Frame)
    requires WellFormed(expected) && WellFormed(capture) && SameGeometry(expected, capture)
    requires ValidRegion(region, expected)
  {
    forall k :: 0 <= k < |region.pixels| ==>
      ColourAt(capture, region.box, region.pixels[k]) == ColourAt(expected, region.box, region.pixels[k])
  }

  predicate ReferenceLoads(mask: Mask, reference: File, sha: seq<Byte> -> nat) {
    Parse(reference.data).Ok? && sha(reference.data) == mask.reference
  }

  predicate CapturesLoad(reference: File, captures: seq<File>) {
    && SeparateFiles(reference, captures) && Parse(reference.data).Ok?
    && forall i :: 0 <= i < 3 ==> Fitting(captures[i], Parse(reference.data).value)
  }

  predicate Allowed(name: Name) { !name.Other? }

  predicate RegionsUsable(mask: Mask, frame: Frame)
    requires WellFormed(frame)
  {
    && mask.regions != []
    && forall i :: 0 <= i < |mask.regions| ==> Allowed(mask.regions[i].0) && Usable(mask.regions[i].1, frame)
  }

  /** The evidence `verify_cell` accepts. */
  ghost predicate Acceptable(mask: Mask, reference: File, captures: seq<File>, sha: seq<Byte> -> nat) {
    && ReferenceLoads(mask, reference, sha) && CapturesLoad(reference, captures)
    && WellFormed(Parse(reference.data).value) && RegionsUsable(mask, Parse(reference.data).value)
  }

  // ---------- verify_cell ----------

  /** The number of selected pixels that differ, counted from the raster bytes. */
  method CountMismatches(region: Region, expected: Frame, capture: Frame) returns (count: nat)
    requires WellFormed(expected) && WellFormed(capture) && SameGeometry(expected, capture)
    requires ValidRegion(region, expected)
    ensures count == 0 <==> Agrees(region, expected, capture)
    ensures count <= |region.pixels|
  {
    count := 0;
    for k := 0 to |region.pixels|
      invariant count <= k
      invariant count == 0 <==> forall j :: 0 <= j < k ==>
        ColourAt(capture, region.box, region.pixels[j]) == ColourAt(expected, region.box, region.pixels[j])
    {
      OffsetInside(expected, region.box, region.pixels[k]);
      var o := Offset(expected.width, region.box, region.pixels[k]);
      SameBytes(capture, expected, region.box, region.pixels[k]);
      if capture.pixels[o..o + 3] != expected.pixels[o..o + 3] {
        count := count + 1;
      }
    }
  }

  lemma SameBytes(a: Frame, b: Frame, box: Box, i: nat)
    requires WellFormed(a) && WellFormed(b) && SameGeometry(a, b) && Fits(box, a) && i < Area(box)
    ensures 0 <= Offset(a.width, box, i) && Offset(a.width, box, i) + 3 <= |a.pixels| == |b.pixels|
    ensures var o := Offset(a.width, box, i);
            a.pixels[o..o + 3] == b.pixels[o..o + 3] <==> ColourAt(a, box, i) == ColourAt(b, box, i)
  {
    OffsetInside(a, box, i);
    var o := Offset(a.width, box, i);
    var left, right := a.pixels[o..o + 3], b.pixels[o..o + 3];
    assert left[0] == a.pixels[o] && left[1] == a.pixels[o + 1] && left[2] == a.pixels[o + 2];
    assert right[0] == b.pixels[o] && right[1] == b.pixels[o + 1] && right[2] == b.pixels[o + 2];
  }

  predicate AgreesWith(region: Region, expected: Frame, capture: File)
    requires WellFormed(expected) && ValidRegion(region, expected) && Fitting(capture, expected)
  {
    WellFormed(Parse(capture.data).value) && Agrees(region, expected, Parse(capture.data).value)
  }

  datatype RegionResult = RegionResult(name: Name, selected: nat, mismatches: seq<nat>, matches: bool)

  /** One region against the three captures. */
  method CompareRegion(name: Name, region: Region, expected: Frame, frames: seq<Frame>) returns (r: RegionResult)
    requires WellFormed(expected) && ValidRegion(region, expected)
    requires forall i :: 0 <= i < |frames| ==> WellFormed(frames[i]) && SameGeometry(expected, frames[i])
    ensures r.name == name && r.selected == |region.pixels| && |r.mismatches| == |frames|
    ensures r.matches <==> forall i :: 0 <= i < |frames| ==> Agrees(region, expected, frames[i])
  {
    var counts: seq<nat>, matches := [], true;
    for i := 0 to |frames|
      invariant |counts| == i
      invariant matches <==> forall j :: 0 <= j < i ==> Agrees(region, expected, frames[j])
    {
      var count := CountMismatches(region, expected, frames[i]);
      counts := counts + [count];
      matches := matches && count == 0;
    }
    return RegionResult(name, |region.pixels|, counts, matches);
  }

  ghost predicate AllAgree(mask: Mask, expected: Frame, frames: seq<Frame>)
    requires WellFormed(expected) && RegionsUsable(mask, expected)
    requires forall i :: 0 <= i < |frames| ==> WellFormed(frames[i]) && SameGeometry(expected, frames[i])
  {
    forall k, i :: 0 <= k < |mask.regions| && 0 <= i < |frames| ==> Agrees(mask.regions[k].1, expected, frames[i])
  }

  /** The loop over the regions; None as soon as one is unusable. */
  method CompareAll(mask: Mask, expected: Frame, frames: seq<Frame>) returns (r: Option<(seq<RegionResult>, bool)>)
    requires WellFormed(expected) && mask.regions != []
    requires forall i :: 0 <= i < |mask.regions| ==> Allowed(mask.regions[i].0)
    requires forall i :: 0 <= i < |frames| ==> WellFormed(frames[i]) && SameGeometry(expected, frames[i])
    ensures r.Some? <==> RegionsUsable(mask, expected)
    ensures r.Some? ==> |r.value.0| == |mask.regions| && (r.value.1 <==> AllAgree(mask, expected, frames))
  {
    var results: seq<RegionResult>, all := [], true;
    for k := 0 to |mask.regions|
      invariant |results| == k
      invariant forall j :: 0 <= j < k ==> Usable(mask.regions[j].1, expected)
      invariant all <==> forall j, i :: 0 <= j < k && 0 <= i < |frames| ==>
        Agrees(mask.regions[j].1, expected, frames[i])
    {
      var (name, region) := mask.regions[k];
      if !Usable(region, expected) {
        return None;
      }
      var result := CompareRegion(name, region, expected, frames);
      results := results + [result];
      all := all && result.matches;
    }
    return Some((results, all));
  }

  /** A capture that loads, in the size of the reference. */
  predicate Fitting(file: File, expected: Frame) {
    Parse(file.data).Ok? && SameGeometry(expected, Parse(file.data).value)
  }

  predicate IsCapture(file: File, expected: Frame, frame: Frame) {
    Parse(file.data) == Ok(frame) && WellFormed(frame) && SameGeometry(expected, frame)
  }

  method LoadOne(file: File, expected: Frame) returns (r: Option<Frame>)
    ensures if Fitting(file, expected) then r.Some? && IsCapture(file, expected, r.value) else r.None?
  {
    var loaded := Load(file.data);
    if loaded.Err? || !SameGeometry(expected, loaded.value) {
      return None;
    }
    LoadedIsWellFormed(file.data);
    return Some(loaded.value);
  }

  /** Loads the captures; None if one is no frame or of another size. */
  method LoadAll(files: seq<File>, expected: Frame) returns (r: Option<seq<Frame>>)
    ensures r.Some? <==> forall i :: 0 <= i < |files| ==> Fitting(files[i], expected)
    ensures r.Some? ==>
              |r.value| == |files| && forall i :: 0 <= i < |files| ==> IsCapture(files[i], expected, r.value[i])
  {
    var frames: seq<Frame> := [];
    for i := 0 to |files|
      invariant |frames| == i
      invariant forall j :: 0 <= j < i ==> Fitting(files[j], expected) && IsCapture(files[j], expected, frames[j])
    {
      var frame := LoadOne(files[i], expected);
      if frame.None? {
        return None;
      }
      frames := frames + [frame.value];
    }
    return Some(frames);
  }

  predicate SeparateFiles(reference: File, captures: seq<File>) {
    && |captures| == 3
    && (forall i, j :: 0 <= i < j < |captures| ==> captures[i].ino != captures[j].ino)
    && (forall i :: 0 <= i < |captures| ==> captures[i].ino != reference.ino)
  }

  method CheckSeparate(reference: File, captures: seq<File>) returns (ok: bool)
    ensures ok <==> SeparateFiles(reference, captures)
  {
    if |captures| != 3 {
      return false;
    }
    var first, second, third := captures[0].ino, captures[1].ino, captures[2].ino;
    if second == first || third == first || third == second {
      return false;
    }
    return reference.ino != first && reference.ino != second && reference.ino != third;
  }

  /** `verify_cell`: what it accepts, and that it reports a match exactly when no selected pixel of any capture differs
      from the reference. */
  method VerifyCell(mask: Mask, reference: File, captures: seq<File>, sha: seq<Byte> -> nat)
    returns (r: Option<(seq<RegionResult>, bool)>)
    ensures r.Some? <==> Acceptable(mask, reference, captures, sha)
    ensures r.Some? ==> sha(reference.data) == mask.reference
    ensures r.Some? ==>
              var expected := Parse(reference.data).value;
              r.value.1 <==> forall k, i :: 0 <= k < |mask.regions| && 0 <= i < |captures| ==>
                               AgreesWith(mask.regions[k].1, expected, captures[i])
  {
    var separate := CheckSeparate(reference, captures);
    if !separate {
      return None;
    }
    var loaded := Load(reference.data);
    if loaded.Err? || sha(reference.data) != mask.reference {
      return None;
    }
    LoadedIsWellFormed(reference.data);
    if mask.regions == [] || exists i :: 0 <= i < |mask.regions| && !Allowed(mask.regions[i].0) {
      return None;
    }
    var frames := LoadAll(captures, loaded.value);
    if frames.None? {
      return None;
    }
    r := CompareAll(mask, loaded.value, frames.value);
  }

  // ---------- build ----------

  /** `build`: the mask of one reference, or None for a reference or a box it refuses. */
  method Build(data: seq<Byte>, boxes: seq<(Name, Box)>, sha: seq<Byte> -> nat) returns (r: Option<Mask>)
    ensures r.Some? ==> Parse(data).Ok? && WellFormed(Parse(data).value) && Proposed(Parse(data).value, boxes, r.value)
    ensures r.Some? ==> r.value.reference == sha(data)
    ensures r.None? && Parse(data).Ok? && WellFormed(Parse(data).value) ==>
              exists i :: 0 <= i < |boxes| && Select(Parse(data).value, boxes[i].1).None?
  {
    var loaded := Load(data);
    if loaded.Err? {
      return None;
    }
    LoadedIsWellFormed(data);
    var regions := Propose(loaded.value, boxes);
    return if regions.None? then None else Some(Mask(sha(data), regions.value));
  }

  /** The loop over the boxes. */
  method Propose(frame: Frame, boxes: seq<(Name, Box)>) returns (r: Option<seq<(Name, Region)>>)
    requires WellFormed(frame)
    ensures r.None? ==> exists i :: 0 <= i < |boxes| && Select(frame, boxes[i].1).None?
    ensures r.Some? ==>
              |r.value| == |boxes| && forall i :: 0 <= i < |boxes| ==> ProposedRegion(frame, boxes[i], r.value[i])
  {
    var regions: seq<(Name, Region)> := [];
    for i := 0 to |boxes|
      invariant |regions| == i
      invariant forall j :: 0 <= j < i ==> ProposedRegion(frame, boxes[j], regions[j])
    {
      var picked := Select(frame, boxes[i].1);
      if picked.None? {
        return None;
      }
      regions := regions + [(boxes[i].0, Region(boxes[i].1, picked.value))];
    }
    return Some(regions);
  }

  predicate ProposedRegion(frame: Frame, box: (Name, Box), region: (Name, Region))
    requires WellFormed(frame)
  {
    && region.0 == box.0 && region.1.box == box.1
    && Select(frame, box.1).Some? && region.1.pixels == Select(frame, box.1).value
  }

  predicate Proposed(frame: Frame, boxes: seq<(Name, Box)>, mask: Mask)
    requires WellFormed(frame)
  {
    && |mask.regions| == |boxes|
    && forall i :: 0 <= i < |boxes| ==> ProposedRegion(frame, boxes[i], mask.regions[i])
  }

  /** A proposed region passes every check of the verifier but the one on contrast, and that one exactly when the box
      shows contrast. */
  lemma ProposedIsUsable(frame: Frame, box: Box, picked: seq<nat>, n: nat)
    requires WellFormed(frame) && Select(frame, box) == Some(picked) && n == Area(box)
    ensures n >= STROKES + GUARDS && ValidRegion(Region(box, picked), frame) && InBox(box, Ends(Indices(n)))
    ensures Usable(Region(box, picked), frame) <==> TwoTones(frame, box) || Varied(frame, box, Ends(Indices(n)))
  {
    SelectPicks(frame, box, picked, n);
    ContrastExactly(frame, box, picked, n);
  }

  /** One row of 66 pixels of colour `most`, but for pixel 48, which is neither of the first 48 nor of the last 16. */
  function Speck(most: Colour, other: Colour): (frame: Frame)
    ensures WellFormed(frame) && Fits(Box(0, 0, 66, 1), frame)
  {
    Frame(66, 1, seq(198, o requires 0 <= o < 198 => Channel(if o / 3 == 48 then other else most, o % 3)))
  }

  function Channel(c: Colour, i: nat): Byte { if i == 0 then c.0 else if i == 1 then c.1 else c.2 }

  lemma SpeckColours(most: Colour, other: Colour, i: nat)
    requires i < 66
    ensures ColourAt(Speck(most, other), Box(0, 0, 66, 1), i) == if i == 48 then other else most
  {
    OffsetInside(Speck(most, other), Box(0, 0, 66, 1), i);
  }

  /** A box with two colours of one luminance whose proposed mask the verifier refuses: the ranking leaves out the one
      pixel that differs. */
  lemma ProposalRefused(most: Colour, other: Colour)
    requires most != other && Luminance(most) == Luminance(other)
    ensures var frame, box := Speck(most, other), Box(0, 0, 66, 1);
            && Select(frame, box).Some? && ColourAt(frame, box, 48) != ColourAt(frame, box, 0)
            && !Usable(Region(box, Select(frame, box).value), frame)
  {
    var frame, box := Speck(most, other), Box(0, 0, 66, 1);
    forall i: nat | i < 66 ensures ColourAt(frame, box, i) == if i == 48 then other else most {
      SpeckColours(most, other, i);
    }
    assert !TwoTones(frame, box);
    ProposedIsUsable(frame, box, Select(frame, box).value, 66);
    SpeckEnds(frame, box, most, other);
  }

  lemma SpeckEnds(frame: Frame, box: Box, most: Colour, other: Colour)
    requires WellFormed(frame) && Fits(box, frame) && Area(box) == 66 && InBox(box, Ends(Indices(66)))
    requires forall i: nat | i < 66 :: ColourAt(frame, box, i) == if i == 48 then other else most
    ensures !Varied(frame, box, Ends(Indices(66)))
  {
    var ends := Ends(Indices(66));
    forall k | 0 <= k < |ends| ensures ends[k] != 48 {
      assert ends[k] == if k < STROKES then k else k + 2;
    }
  }

  /** Such colours exist, so such a box does. */
  lemma SomeProposalIsRefused()
    ensures exists frame, box ::
              WellFormed(frame) && Select(frame, box).Some? && !Usable(Region(box, Select(frame, box).value), frame)
  {
    ProposalRefused((15, 0, 7), (0, 9, 0));
  }

  /** Any mask `build` proposes for boxes of two luminances each is accepted with any three captures of the right
      size. */
  lemma ProposedIsAccepted(reference: File, boxes: seq<(Name, Box)>, mask: Mask, captures: seq<File>,
                           sha: seq<Byte> -> nat)
    requires Parse(reference.data).Ok? && WellFormed(Parse(reference.data).value)
    requires Proposed(Parse(reference.data).value, boxes, mask) && mask.reference == sha(reference.data)
    requires boxes != [] && forall i :: 0 <= i < |boxes| ==>
               Allowed(boxes[i].0) && Fits(boxes[i].1, Parse(reference.data).value)
               && TwoTones(Parse(reference.data).value, boxes[i].1)
    requires CapturesLoad(reference, captures)
    ensures Acceptable(mask, reference, captures, sha)
  {
    var frame := Parse(reference.data).value;
    forall i | 0 <= i < |mask.regions| ensures Allowed(mask.regions[i].0) && Usable(mask.regions[i].1, frame) {
      assert ProposedRegion(frame, boxes[i], mask.regions[i]);
      var box := boxes[i].1;
      ProposedIsUsable(frame, box, Select(frame, box).value, Area(box));
    }
  }
}
