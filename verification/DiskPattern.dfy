/** The deterministic disk pattern of the workload embedded in scripts/render-hvf-nvme-workload-v2.py. */
module DiskPattern {
  import opened Results

  const SEED_CONSTANT: bv64 := 0x9E3779B97F4A7C15
  const PRECONDITION_TAG: bv32 := 0x42565031
  const MEASURED_WRITE_TAG_BASE: bv32 := 0x42565730

  // ---------- the mixer is a bijection on 64-bit words ----------

  // The three `value ^= value >> n` statements, the multiplication, and the inverse of each.

  function Right12(v: bv64): bv64 { v ^ (v >> 12) }

  function Left25(v: bv64): bv64 { v ^ (v << 25) }

  function Right27(v: bv64): bv64 { v ^ (v >> 27) }

  function Scale(v: bv64): bv64 { v * 2685821657736338717 }

  function Unright12(v: bv64): bv64 { v ^ (v >> 12) ^ (v >> 24) ^ (v >> 36) ^ (v >> 48) ^ (v >> 60) }

  function Unleft25(v: bv64): bv64 { v ^ (v << 25) ^ (v << 50) }

  function Unright27(v: bv64): bv64 { v ^ (v >> 27) ^ (v >> 54) }

  function Unscale(v: bv64): bv64 { v * 6415128727920758069 }

  function Mix(value: bv64): bv64 { Scale(Right27(Left25(Right12(value)))) }

  function Unmix(value: bv64): bv64 { Unright12(Unleft25(Unright27(Unscale(value)))) }

  /** Each identity on the expression itself, which the solver's rewriting settles at once. */
  lemma ExpressionsUndone(v: bv64)
    ensures Unright12(v ^ (v >> 12)) == v && Unleft25(v ^ (v << 25)) == v && Unright27(v ^ (v >> 27)) == v
    ensures Unscale(v * 2685821657736338717) == v && Scale(v * 6415128727920758069) == v
    ensures Right12(v ^ (v >> 12) ^ (v >> 24) ^ (v >> 36) ^ (v >> 48) ^ (v >> 60)) == v
    ensures Left25(v ^ (v << 25) ^ (v << 50)) == v && Right27(v ^ (v >> 27) ^ (v >> 54)) == v
  {
  }

  lemma StagesUndone(v: bv64)
    ensures Unright12(Right12(v)) == v && Unleft25(Left25(v)) == v
    ensures Unright27(Right27(v)) == v && Unscale(Scale(v)) == v
    ensures Right12(Unright12(v)) == v && Left25(Unleft25(v)) == v
    ensures Right27(Unright27(v)) == v && Scale(Unscale(v)) == v
  {
    ExpressionsUndone(v);
  }

  lemma MixBijective(v: bv64)
    ensures Unmix(Mix(v)) == v && Mix(Unmix(v)) == v
  {
    StagesUndone(v);
    StagesUndone(Right12(v));
    StagesUndone(Left25(Right12(v)));
    StagesUndone(Right27(Left25(Right12(v))));
    StagesUndone(Unscale(v));
    StagesUndone(Unright27(Unscale(v)));
    StagesUndone(Unleft25(Unright27(Unscale(v))));
  }

  lemma MixInjective(v: bv64, w: bv64)
    requires Mix(v) == Mix(w)
    ensures v == w
  {
    MixBijective(v);
    MixBijective(w);
  }

  // ---------- seeds ----------

  /** `block` is the two's complement word of the C# `long`. */
  function Seed(tag: bv32, block: bv64): bv64 {
    ((tag as bv64) << 32) ^ block ^ SEED_CONSTANT
  }

  /** Below 2^32 the block index stays clear of the tag; from there on tags and blocks can trade places. */
  lemma SeedInjective(tag: bv32, block: bv64, tag': bv32, block': bv64)
    ensures block < 0x1_0000_0000 && block' < 0x1_0000_0000 && Seed(tag, block) == Seed(tag', block')
            ==> tag == tag' && block == block'
    ensures Seed(tag, 0x1_0000_0000) == Seed(tag ^ 1, 0)
  {
  }

  // ---------- the pattern ----------

  /** The pattern below is cut by any mixer: only that it is injective matters. `Run` uses `Mix`. */
  type Mixer = bv64 -> bv64

  ghost predicate Injective(mix: Mixer) {
    forall v, w :: mix(v) == mix(w) ==> v == w
  }

  lemma MixIsInjective()
    ensures Injective(Mix)
  {
    forall v, w | Mix(v) == Mix(w) ensures v == w {
      MixInjective(v, w);
    }
  }

  function Plus(v: bv64, offset: bv64): bv64 { v + offset + 0xD1B54A32D192ED03 }

  function Minus(v: bv64, offset: bv64): bv64 { v - offset - 0xD1B54A32D192ED03 }

  lemma SumUndone(v: bv64, offset: bv64)
    ensures Minus(v + offset + 0xD1B54A32D192ED03, offset) == v
  {
  }

  lemma PlusInjective(v: bv64, w: bv64, offset: bv64)
    requires Plus(v, offset) == Plus(w, offset)
    ensures v == w
  {
    SumUndone(v, offset);
    SumUndone(w, offset);
  }

  /** `(ulong)offset` of word `k`. */
  function Offset(k: nat): bv64 {
    if k == 0 then 0 else Offset(k - 1) + 8
  }

  /** The state from which word `k` of the block is cut. */
  function Word(mix: Mixer, seed: bv64, k: nat): bv64 {
    mix(Plus(if k == 0 then seed else Word(mix, seed, k - 1), Offset(k)))
  }

  /** `(byte)(state >> (index * 8))`. */
  function ByteOf(state: bv64, index: nat): bv8
    requires index < 8
  {
    match index
    case 0 => (state & 0xFF) as bv8
    case 1 => ((state >> 8) & 0xFF) as bv8
    case 2 => ((state >> 16) & 0xFF) as bv8
    case 3 => ((state >> 24) & 0xFF) as bv8
    case 4 => ((state >> 32) & 0xFF) as bv8
    case 5 => ((state >> 40) & 0xFF) as bv8
    case 6 => ((state >> 48) & 0xFF) as bv8
    case _ => ((state >> 56) & 0xFF) as bv8
  }

  function PatternByte(mix: Mixer, seed: bv64, i: nat): bv8 {
    ByteOf(Word(mix, seed, i / 8), i % 8)
  }

  function PatternFrom(mix: Mixer, length: nat, seed: bv64): (bytes: seq<bv8>)
    ensures |bytes| == length
  {
    seq(length, i requires 0 <= i < length => PatternByte(mix, seed, i))
  }

  function Pattern(mix: Mixer, length: nat, tag: bv32, block: bv64): (bytes: seq<bv8>)
    ensures |bytes| == length
  {
    PatternFrom(mix, length, Seed(tag, block))
  }

  /** The bytes of a word, least significant first. */
  lemma LittleEndian(v: bv64)
    ensures v == (ByteOf(v, 0) as bv64) | ((ByteOf(v, 1) as bv64) << 8) | ((ByteOf(v, 2) as bv64) << 16)
                 | ((ByteOf(v, 3) as bv64) << 24) | ((ByteOf(v, 4) as bv64) << 32) | ((ByteOf(v, 5) as bv64) << 40)
                 | ((ByteOf(v, 6) as bv64) << 48) | ((ByteOf(v, 7) as bv64) << 56)
  {
  }

  lemma BytesDetermineWord(v: bv64, w: bv64)
    requires forall index: nat | index < 8 :: ByteOf(v, index) == ByteOf(w, index)
    ensures v == w
  {
    assert ByteOf(v, 0) == ByteOf(w, 0) && ByteOf(v, 1) == ByteOf(w, 1);
    assert ByteOf(v, 2) == ByteOf(w, 2) && ByteOf(v, 3) == ByteOf(w, 3);
    assert ByteOf(v, 4) == ByteOf(w, 4) && ByteOf(v, 5) == ByteOf(w, 5);
    assert ByteOf(v, 6) == ByteOf(w, 6) && ByteOf(v, 7) == ByteOf(w, 7);
  }

  lemma {:induction false} WordsDiffer(mix: Mixer, seed: bv64, seed': bv64, k: nat)
    requires Injective(mix) && seed != seed'
    ensures Word(mix, seed, k) != Word(mix, seed', k)
  {
    var v, w := if k == 0 then seed else Word(mix, seed, k - 1), if k == 0 then seed' else Word(mix, seed', k - 1);
    if k > 0 {
      WordsDiffer(mix, seed, seed', k - 1);
    }
    if mix(Plus(v, Offset(k))) == mix(Plus(w, Offset(k))) {
      PlusInjective(v, w, Offset(k));
    }
  }

  lemma PatternWord(mix: Mixer, length: nat, seed: bv64, k: nat)
    requires 8 * k + 8 <= length
    ensures var word := PatternFrom(mix, length, seed)[8 * k..8 * k + 8];
            forall index: nat | index < 8 :: word[index] == ByteOf(Word(mix, seed, k), index)
  {
    forall index: nat | index < 8
      ensures PatternFrom(mix, length, seed)[8 * k + index] == ByteOf(Word(mix, seed, k), index)
    {
      DivideOffset(k, index);
    }
  }

  lemma DivideOffset(k: nat, index: nat)
    requires index < 8
    ensures (8 * k + index) / 8 == k && (8 * k + index) % 8 == index
  {
  }

  lemma SlicesDetermineWord(a: seq<bv8>, b: seq<bv8>, v: bv64, w: bv64)
    requires |a| == |b| == 8 && a == b
    requires forall index: nat | index < 8 :: a[index] == ByteOf(v, index)
    requires forall index: nat | index < 8 :: b[index] == ByteOf(w, index)
    ensures v == w
  {
    forall index: nat | index < 8 ensures ByteOf(v, index) == ByteOf(w, index) {
      assert a[index] == b[index];
    }
    BytesDetermineWord(v, w);
  }

  /** Blocks with another tag or another index differ in every complete eight-byte word. */
  lemma PatternsDiffer(mix: Mixer, length: nat, tag: bv32, block: bv64, tag': bv32, block': bv64, k: nat)
    requires Injective(mix) && 8 * k + 8 <= length
    requires block < 0x1_0000_0000 && block' < 0x1_0000_0000 && (tag, block) != (tag', block')
    ensures Pattern(mix, length, tag, block)[8 * k..8 * k + 8] != Pattern(mix, length, tag', block')[8 * k..8 * k + 8]
  {
    SeedInjective(tag, block, tag', block');
    WordsDiffer(mix, Seed(tag, block), Seed(tag', block'), k);
    PatternWord(mix, length, Seed(tag, block), k);
    PatternWord(mix, length, Seed(tag', block'), k);
    var a := Pattern(mix, length, tag, block)[8 * k..8 * k + 8];
    var b := Pattern(mix, length, tag', block')[8 * k..8 * k + 8];
    if a == b {
      SlicesDetermineWord(a, b, Word(mix, Seed(tag, block), k), Word(mix, Seed(tag', block'), k));
    }
  }

  // ---------- the in-place methods ----------

  /** The inner loop: up to eight bytes of `state`. */
  method StoreWord(bytes: array<bv8>, offset: nat, take: nat, state: bv64)
    requires offset + take <= bytes.Length && take <= 8
    modifies bytes
    ensures forall i: nat | i < bytes.Length ::
              bytes[i] == if offset <= i < offset + take then ByteOf(state, i - offset) else old(bytes[i])
  {
    for index := 0 to take
      invariant forall i: nat | i < bytes.Length ::
          bytes[i] == if offset <= i < offset + index then ByteOf(state, i - offset) else old(bytes[i])
    {
      bytes[offset + index] := ByteOf(state, index);
    }
  }

  ghost predicate Filled(mix: Mixer, seed: bv64, bytes: seq<bv8>, upto: nat) {
    upto <= |bytes| && forall i: nat | i < upto :: bytes[i] == PatternByte(mix, seed, i)
  }

  lemma FillsWord(mix: Mixer, seed: bv64, before: seq<bv8>, after: seq<bv8>, k: nat, take: nat, state: bv64)
    requires Filled(mix, seed, before, 8 * k) && |after| == |before| >= 8 * k + take && take <= 8
    requires state == Word(mix, seed, k)
    requires forall i: nat | i < |after| ::
               after[i] == if 8 * k <= i < 8 * k + take then ByteOf(state, i - 8 * k) else before[i]
    ensures Filled(mix, seed, after, 8 * k + take)
  {
    forall i: nat | 8 * k <= i < 8 * k + take
      ensures after[i] == PatternByte(mix, seed, i)
    {
      DivideOffset(k, i - 8 * k);
    }
  }

  method FillPattern(mix: Mixer, bytes: array<bv8>, block: bv64, tag: bv32)
    modifies bytes
    ensures bytes[..] == Pattern(mix, bytes.Length, tag, block)
  {
    var seed := Seed(tag, block);
    FillFrom(mix, bytes, seed);
  }

  method FillFrom(mix: Mixer, bytes: array<bv8>, seed: bv64)
    modifies bytes
    ensures Filled(mix, seed, bytes[..], bytes.Length)
  {
    var k, state := 0, seed;
    while 8 * k < bytes.Length
      invariant 0 <= k
      invariant k == 0 ==> state == seed
      invariant k > 0 ==> state == Word(mix, seed, k - 1)
      invariant Filled(mix, seed, bytes[..], if 8 * k < bytes.Length then 8 * k else bytes.Length)
    {
      state := mix(Plus(state, Offset(k)));
      var take := if bytes.Length - 8 * k < 8 then bytes.Length - 8 * k else 8;
      ghost var before := bytes[..];
      StoreWord(bytes, 8 * k, take, state);
      FillsWord(mix, seed, before, bytes[..], k, take, state);
      k := k + 1;
    }
  }

  /** False is the readback mismatch exception. */
  method VerifyPattern(mix: Mixer, buffer: seq<bv8>, observed: array<bv8>, expected: array<bv8>, block: bv64, tag: bv32)
    returns (ok: bool)
    requires |buffer| == observed.Length == expected.Length && observed != expected
    modifies observed, expected
    ensures ok <==> buffer == Pattern(mix, |buffer|, tag, block)
    ensures observed[..] == buffer
  {
    forall i | 0 <= i < observed.Length { observed[i] := buffer[i]; }
    FillPattern(mix, expected, block, tag);
    ghost var pattern := expected[..];
    for index := 0 to observed.Length
      invariant observed[..] == buffer && expected[..] == pattern
      invariant buffer[..index] == pattern[..index]
    {
      if observed[index] != expected[index] {
        assert buffer[index] != pattern[index];
        return false;
      }
    }
    assert buffer == buffer[..observed.Length] && pattern == pattern[..observed.Length];
    return true;
  }

  // ---------- the write/readback run ----------

  /** The verified read passes of one run. */
  datatype Phase = Warmup | PostRead | AfterWrite(pass: bv32) {
    /** The tag of the write pass whose bytes this read pass expects. */
    function Tag(): bv32 {
      if AfterWrite? then MEASURED_WRITE_TAG_BASE + pass else PRECONDITION_TAG
    }
  }

  /** Whatever the disk answers: any bytes at all, stale, misplaced or made up. */
  type Disk = (Phase, bv32) -> seq<bv8>

  /** A digest of a pass's blocks, in order. */
  type Digest = seq<seq<bv8>> -> nat

  /** A loop index as the word the C# casts make of it. */
  function Index(block: nat): bv32 { (block % 0x1_0000_0000) as bv32 }

  function Widen(block: bv32): bv64 { block as bv64 }

  ghost predicate BlockVerifies(mix: Mixer, answer: seq<bv8>, tag: bv32, b: bv32, transfer: nat) {
    answer == Pattern(mix, transfer, tag, Widen(b))
  }

  ghost predicate PassVerifies(mix: Mixer, disk: Disk, phase: Phase, tag: bv32, blocks: nat, transfer: nat) {
    forall b | 0 <= b < blocks :: BlockVerifies(mix, disk(phase, Index(b)), tag, Index(b), transfer)
  }

  /** The blocks a read pass hashes, and those its write pass wrote. */
  ghost function Answers(disk: Disk, phase: Phase, blocks: nat): seq<seq<bv8>> {
    seq(blocks, b requires 0 <= b < blocks => disk(phase, Index(b)))
  }

  ghost function PassContents(mix: Mixer, tag: bv32, blocks: nat, transfer: nat): seq<seq<bv8>> {
    seq(blocks, b requires 0 <= b < blocks => Pattern(mix, transfer, tag, Widen(Index(b))))
  }

  lemma VerifiedAnswers(mix: Mixer, disk: Disk, phase: Phase, tag: bv32, blocks: nat, transfer: nat)
    requires PassVerifies(mix, disk, phase, tag, blocks, transfer)
    ensures Answers(disk, phase, blocks) == PassContents(mix, tag, blocks, transfer)
  {
    forall b | 0 <= b < blocks
      ensures Answers(disk, phase, blocks)[b] == PassContents(mix, tag, blocks, transfer)[b]
    {
      assert BlockVerifies(mix, disk(phase, Index(b)), tag, Index(b), transfer);
    }
  }

  lemma AnswersSnoc(disk: Disk, phase: Phase, blocks: nat)
    ensures Answers(disk, phase, blocks + 1) == Answers(disk, phase, blocks) + [disk(phase, Index(blocks))]
  {
  }

  /** None is an exception: a short read or a mismatch. */
  method VerifyBlock(mix: Mixer, buffer: seq<bv8>, tag: bv32, block: bv32, transfer: nat) returns (r: Option<seq<bv8>>)
    ensures r.Some? <==> BlockVerifies(mix, buffer, tag, block, transfer)
    ensures r.Some? ==> r.value == buffer
  {
    var observed, expected := new bv8[transfer], new bv8[transfer];
    if |buffer| != transfer {
      return None;
    }
    var ok := VerifyPattern(mix, buffer, observed, expected, Widen(block), tag);
    return if ok then Some(observed[..]) else None;
  }

  method VerifyAndHash(mix: Mixer, hash: Digest, disk: Disk, phase: Phase, tag: bv32, blocks: nat, transfer: nat)
    returns (r: Option<nat>)
    ensures r.Some? <==> PassVerifies(mix, disk, phase, tag, blocks, transfer)
    ensures r.Some? ==> r.value == hash(PassContents(mix, tag, blocks, transfer))
  {
    var hashed: seq<seq<bv8>> := [];
    for block := 0 to blocks
      invariant PassVerifies(mix, disk, phase, tag, block, transfer)
      invariant hashed == Answers(disk, phase, block)
    {
      var verified := VerifyBlock(mix, disk(phase, Index(block)), tag, Index(block), transfer);
      if verified.None? {
        return None;
      }
      hashed := hashed + [verified.value];
      AnswersSnoc(disk, phase, block);
    }
    VerifiedAnswers(mix, disk, phase, tag, blocks, transfer);
    return Some(hash(hashed));
  }

  const BLOCKS := 16384
  const TRANSFER := 131072
  const WRITE_PASSES: bv32 := 4

  ghost predicate RunVerifies(disk: Disk) {
    && PassVerifies(Mix, disk, Warmup, Warmup.Tag(), BLOCKS, TRANSFER)
    && PassVerifies(Mix, disk, PostRead, PostRead.Tag(), BLOCKS, TRANSFER)
    && forall pass: bv32 | pass < WRITE_PASSES ::
         PassVerifies(Mix, disk, AfterWrite(pass), AfterWrite(pass).Tag(), BLOCKS, TRANSFER)
  }

  datatype RunError = NotCanonical | ReadbackMismatch | IntegrityHashDiffers

  datatype Hashes = Hashes(warmup: nat, postRead: nat, final: nat)

  /** `Run` without its timing: it succeeds exactly on the canonical contract and a disk that returns every pass's own
      bytes, and its comparison of the two integrity hashes can then not fail. */
  method Run(hash: Digest, disk: Disk, fileMib: int, transferKib: int, readPasses: int, writePasses: int, settleMs: int)
    returns (r: Result<Hashes, RunError>)
    ensures r.Ok? <==>
              && fileMib == 2048 && transferKib == 128 && readPasses == 16 && writePasses == 4 && settleMs == 30000
              && RunVerifies(disk)
    ensures r.Err? ==> r.error != IntegrityHashDiffers
    ensures r.Ok? ==> r.value.warmup == r.value.postRead == hash(PassContents(Mix, PRECONDITION_TAG, BLOCKS, TRANSFER))
    ensures r.Ok? ==> r.value.final == hash(PassContents(Mix, MEASURED_WRITE_TAG_BASE + 3, BLOCKS, TRANSFER))
  {
    if fileMib != 2048 || transferKib != 128 || readPasses != 16 || writePasses != 4 || settleMs != 30000 {
      return Err(NotCanonical);
    }
    var warmup := VerifyAndHash(Mix, hash, disk, Warmup, Warmup.Tag(), BLOCKS, TRANSFER);
    if warmup.None? {
      return Err(ReadbackMismatch);
    }
    var postRead := VerifyAndHash(Mix, hash, disk, PostRead, PostRead.Tag(), BLOCKS, TRANSFER);
    if postRead.None? {
      return Err(ReadbackMismatch);
    }
    if warmup.value != postRead.value {
      return Err(IntegrityHashDiffers);
    }
    var final := 0;
    var pass: bv32 := 0;
    while pass < WRITE_PASSES
      invariant pass <= WRITE_PASSES
      invariant forall p: bv32 | p < pass ::
        PassVerifies(Mix, disk, AfterWrite(p), AfterWrite(p).Tag(), BLOCKS, TRANSFER)
      invariant pass == WRITE_PASSES ==> final == hash(PassContents(Mix, MEASURED_WRITE_TAG_BASE + 3, BLOCKS, TRANSFER))
      decreases WRITE_PASSES - pass
    {
      var verified := VerifyAndHash(Mix, hash, disk, AfterWrite(pass), AfterWrite(pass).Tag(), BLOCKS, TRANSFER);
      if verified.None? {
        return Err(ReadbackMismatch);
      }
      if pass == WRITE_PASSES - 1 {
        final := verified.value;
      }
      pass := pass + 1;
    }
    return Ok(Hashes(warmup.value, postRead.value, final));
  }

  /** The file is 2048 MiB in transfers of 128 KiB. */
  lemma FileSize()
    ensures TRANSFER == 128 * 1024 && BLOCKS * TRANSFER == 2048 * 1024 * 1024
  {
  }

  /** The tags in ASCII: BVP1, and BVW0 to BVW3. */
  lemma TagsSpelled(pass: bv32)
    requires pass < WRITE_PASSES
    ensures Letters(Warmup.Tag()) == Letters(PostRead.Tag()) == ['B' as int, 'V' as int, 'P' as int, '1' as int]
    ensures Letters(AfterWrite(pass).Tag()) == ['B' as int, 'V' as int, 'W' as int, '0' as int + pass as int]
    ensures pass == 0 || pass == 1 || pass == 2 || pass == 3
  {
  }

  function Letters(tag: bv32): seq<int> {
    [(tag >> 24) as int, ((tag >> 16) & 0xFF) as int, ((tag >> 8) & 0xFF) as int, (tag & 0xFF) as int]
  }

  /** Known words: the first two of the first block of the precondition, and of the last block of the last pass. */
  lemma KnownWords()
    ensures Word(Mix, Seed(0x4256_5031, 0), 0) == 0x8A03_664E_C213_0AB0
    ensures Word(Mix, Seed(0x4256_5031, 0), 1) == 0x179F_9DAC_4658_F056
    ensures Word(Mix, Seed(0x4256_5733, 16383), 0) == 0x85A6_7453_84B7_4BC2
    ensures Word(Mix, Seed(0x4256_5733, 16383), 1) == 0x21C3_51A6_917F_4BFA
  {
  }

  /** A readback that verifies holds nothing of any other pass or place: an aligned word of it that is what a write
      of (`tag`, `block`) put at that word proves that it was this pass's own write of this block. */
  lemma ReadbackIsOwnWrite(mix: Mixer, answer: seq<bv8>, ownTag: bv32, b: bv32, transfer: nat, tag: bv32, block: bv32,
                           k: nat)
    requires Injective(mix) && BlockVerifies(mix, answer, ownTag, b, transfer) && 8 * k + 8 <= transfer
    requires answer[8 * k..8 * k + 8] == Pattern(mix, transfer, tag, Widen(block))[8 * k..8 * k + 8]
    ensures tag == ownTag && block == b
  {
    if tag != ownTag || block != b {
      WidenInjective(block, b);
      PatternsDiffer(mix, transfer, ownTag, Widen(b), tag, Widen(block), k);
    }
  }

  /** The read passes of a run. */
  predicate Verified(phase: Phase) { phase.AfterWrite? ==> phase.pass < WRITE_PASSES }

  /** So a run that succeeds has, in every pass, read each block's own bytes of the pass before it: nothing stale,
      nothing misplaced, in not one aligned word. */
  lemma RunReadsItsOwnWrites(disk: Disk, phase: Phase, b: nat, tag: bv32, block: bv32, k: nat)
    requires RunVerifies(disk) && Verified(phase) && b < BLOCKS && 8 * k + 8 <= TRANSFER
    ensures |disk(phase, Index(b))| == TRANSFER
    ensures disk(phase, Index(b))[8 * k..8 * k + 8] == Pattern(Mix, TRANSFER, tag, Widen(block))[8 * k..8 * k + 8]
            <==> tag == phase.Tag() && block == Index(b)
  {
    assert PassVerifies(Mix, disk, phase, phase.Tag(), BLOCKS, TRANSFER);
    OwnWriteOnly(disk, phase, b, tag, block, TRANSFER, k);
  }

  /** What a disk that keeps every write answers. */
  function Faithful(transfer: nat): Disk { (phase: Phase, b: bv32) => Pattern(Mix, transfer, phase.Tag(), Widen(b)) }

  lemma FaithfulPass(phase: Phase, blocks: nat, transfer: nat)
    ensures PassVerifies(Mix, Faithful(transfer), phase, phase.Tag(), blocks, transfer)
  {
    forall b | 0 <= b < blocks
      ensures BlockVerifies(Mix, Faithful(transfer)(phase, Index(b)), phase.Tag(), Index(b), transfer)
    {
    }
  }

  /** Such a disk is accepted. */
  lemma FaithfulRuns()
    ensures RunVerifies(Faithful(TRANSFER))
  {
    FaithfulPass(Warmup, BLOCKS, TRANSFER);
    FaithfulPass(PostRead, BLOCKS, TRANSFER);
    forall pass: bv32 | pass < WRITE_PASSES
      ensures PassVerifies(Mix, Faithful(TRANSFER), AfterWrite(pass), AfterWrite(pass).Tag(), BLOCKS, TRANSFER)
    {
      FaithfulPass(AfterWrite(pass), BLOCKS, TRANSFER);
    }
  }

  lemma OwnWriteOnly(disk: Disk, phase: Phase, b: nat, tag: bv32, block: bv32, transfer: nat, k: nat)
    requires BlockVerifies(Mix, disk(phase, Index(b)), phase.Tag(), Index(b), transfer) && 8 * k + 8 <= transfer
    ensures |disk(phase, Index(b))| == transfer
    ensures disk(phase, Index(b))[8 * k..8 * k + 8] == Pattern(Mix, transfer, tag, Widen(block))[8 * k..8 * k + 8]
            <==> tag == phase.Tag() && block == Index(b)
  {
    var answer := disk(phase, Index(b));
    if answer[8 * k..8 * k + 8] == Pattern(Mix, transfer, tag, Widen(block))[8 * k..8 * k + 8] {
      MixIsInjective();
      ReadbackIsOwnWrite(Mix, answer, phase.Tag(), Index(b), transfer, tag, block, k);
    }
  }

  lemma WidenInjective(a: bv32, b: bv32)
    ensures Widen(a) < 0x1_0000_0000 && Widen(b) < 0x1_0000_0000
    ensures Widen(a) == Widen(b) ==> a == b
  {
  }

  /** ... and the write passes have different tags, so no pass can verify on an earlier pass's bytes. */
  lemma PassesHaveOwnTags(p: bv32, q: bv32)
    requires p < WRITE_PASSES && q < WRITE_PASSES
    ensures AfterWrite(p).Tag() != PRECONDITION_TAG && (AfterWrite(p).Tag() == AfterWrite(q).Tag() ==> p == q)
  {
  }
}
