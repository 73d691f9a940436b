/** The fixed-point loop that sizes the two FATs of the boot volume. */
module FatGeometry {

  const SECTOR := 512
  const SECTORS_PER_CLUSTER := 4
  const ROOT_SECTORS := 32

  /** Whole clusters left after the boot sector, the root directory and two FATs. Dafny's `/` by a
      positive constant is Python's floor division, for negative sizes too. */
  function Clusters(partitionSectors: int, fatSectors: int): int {
    (partitionSectors - 1 - ROOT_SECTORS - 2 * fatSectors) / SECTORS_PER_CLUSTER
  }

  /** FAT sectors those clusters ask for: two bytes per entry, two reserved entries. */
  function Wanted(partitionSectors: int, fatSectors: int): int {
    (2 * (Clusters(partitionSectors, fatSectors) + 2) + SECTOR - 1) / SECTOR
  }

  predicate IsFixed(partitionSectors: int, fatSectors: int) {
    Wanted(partitionSectors, fatSectors) == fatSectors
  }

  /** The only candidate, and the sizes for which it is one. */
  function Limit(partitionSectors: int): int { (partitionSectors + 995) / 1026 }

  predicate Settles(partitionSectors: int) { (partitionSectors + 995) % 1026 < 1024 }

  /** The loop variable after `n` turns, from 1. */
  function Turn(partitionSectors: int, n: nat): int {
    if n == 0 then 1 else Wanted(partitionSectors, Turn(partitionSectors, n - 1))
  }

  lemma Quotient(x: int, q: int)
    requires 1024 * q <= x < 1024 * q + 1024
    ensures x / 1024 == q
  {
  }

  /** The two nested roundings amount to one. */
  lemma WantedClosed(p: int, f: int)
    ensures Wanted(p, f) == (p + 995 - 2 * f) / 1024
  {
    Roundings(p - 33 - 2 * f, Clusters(p, f), Wanted(p, f));
    Quotient(p + 995 - 2 * f, Wanted(p, f));
  }

  lemma Roundings(x: int, c: int, w: int)
    requires c == x / 4 && w == (2 * (c + 2) + 511) / 512
    ensures 1024 * w <= x + 1028 < 1024 * w + 1024
  {
    assert 4 * c <= x <= 4 * c + 3;
    assert 256 * w - 257 <= c <= 256 * w - 2;
  }

  /** Some size is fixed exactly when the remainder condition holds, and it is then the only one. */
  lemma FixedExactlyWhenSettles(p: int, f: int)
    ensures IsFixed(p, f) <==> Settles(p) && f == Limit(p)
  {
    WantedClosed(p, f);
    var q, r := Limit(p), (p + 995) % 1026;
    assert p + 995 == 1026 * q + r;
  }

  /** Distance to the limit; a step of one that jumps across it must be the first of two. */
  function Distance(p: int, f: int): (d: nat) {
    var q := Limit(p);
    2 * (if f < q then q - f else f - q)
    + (if f != q && (f > q) == ((p + 995) % 1026 < 512) then 1 else 0)
  }

  lemma WantedNearLimit(p: int, f: int)
    requires Settles(p)
    ensures f != Limit(p) ==> Distance(p, Wanted(p, f)) < Distance(p, f)
    ensures f == Limit(p) ==> Wanted(p, f) == f
  {
    WantedClosed(p, f);
    var q, r, w := Limit(p), (p + 995) % 1026, Wanted(p, f);
    assert 1024 * (w - q) <= r - 2 * (f - q) < 1024 * (w - q) + 1024;
  }

  /** With no fixed point, sizes `Limit` and `Limit + 1` ask for each other. */
  lemma OscillatesAtLimit(p: int)
    requires !Settles(p)
    ensures Wanted(p, Limit(p)) == Limit(p) + 1
    ensures Wanted(p, Limit(p) + 1) == Limit(p)
  {
    WantedClosed(p, Limit(p));
    WantedClosed(p, Limit(p) + 1);
  }

  /** ... and the loop started at 1 runs into that cycle, so it never stops. */
  lemma CycleTurn(p: int, from: nat) returns (n: nat)
    requires !Settles(p)
    ensures Turn(p, n) == Limit(p) || Turn(p, n) == Limit(p) + 1
    decreases var f, q := Turn(p, from), Limit(p); if f < q then q - f else if f > q + 1 then f - q - 1 else 0
  {
    var f, q, r := Turn(p, from), Limit(p), (p + 995) % 1026;
    if f == q || f == q + 1 {
      n := from;
    } else {
      WantedClosed(p, f);
      var w := Wanted(p, f);
      assert 1024 * (w - q) <= r - 2 * (f - q) < 1024 * (w - q) + 1024;
      n := CycleTurn(p, from + 1);
    }
  }

  /** The loop stops, on every partition size, exactly when the remainder condition holds. */
  lemma {:induction false} LoopStopsExactlyWhenSettles(p: int)
    ensures (exists n: nat :: IsFixed(p, Turn(p, n))) <==> Settles(p)
  {
    if Settles(p) {
      var n := StopTurn(p, 0);
      FixedExactlyWhenSettles(p, Turn(p, n));
      assert IsFixed(p, Turn(p, n));
    } else {
      forall n: nat ensures !IsFixed(p, Turn(p, n)) {
        FixedExactlyWhenSettles(p, Turn(p, n));
      }
    }
  }

  lemma StopTurn(p: int, from: nat) returns (n: nat)
    requires Settles(p)
    ensures Turn(p, n) == Limit(p)
    decreases Distance(p, Turn(p, from))
  {
    if Turn(p, from) == Limit(p) {
      n := from;
    } else {
      WantedNearLimit(p, Turn(p, from));
      n := StopTurn(p, from + 1);
    }
  }

  /** The sizes the repository's own examples name. */
  lemma ShippedSizes()
    ensures Settles(128991) && Limit(128991) == 126 && Clusters(128991, 126) == 32176
    ensures !Settles(1055) && Turn(1055, 0) == 1 && Turn(1055, 1) == 2 && Turn(1055, 2) == 1
  {
    assert Wanted(1055, 1) == 2 && Wanted(1055, 2) == 1;
  }

  /** Every cluster has a FAT entry and the regions fit the partition with less than a cluster to spare. */
  predicate Fits(partitionSectors: int, fatSectors: int, rootSectors: int, clusters: int) {
    var used := 1 + rootSectors + 2 * fatSectors + SECTORS_PER_CLUSTER * clusters;
    && 2 * (clusters + 2) <= fatSectors * SECTOR < 2 * (clusters + 2) + SECTOR
    && used <= partitionSectors < used + SECTORS_PER_CLUSTER
  }

  /** The source loops forever on the other sizes, so this one asks for a size on which it stops. */
  method Geometry(partitionSectors: int) returns (fatSectors: int, rootSectors: int, clusters: int)
    requires Settles(partitionSectors)
    ensures Fits(partitionSectors, fatSectors, rootSectors, clusters)
    ensures fatSectors == Limit(partitionSectors) && rootSectors == ROOT_SECTORS
    ensures IsFixed(partitionSectors, fatSectors) && clusters == Clusters(partitionSectors, fatSectors)
  {
    rootSectors := 32;
    fatSectors := 1;
    while true
      decreases Distance(partitionSectors, fatSectors)
    {
      clusters := (partitionSectors - 1 - rootSectors - 2 * fatSectors) / SECTORS_PER_CLUSTER;
      var wanted := (2 * (clusters + 2) + SECTOR - 1) / SECTOR;
      FixedExactlyWhenSettles(partitionSectors, fatSectors);
      if wanted == fatSectors {
        return;
      }
      WantedNearLimit(partitionSectors, fatSectors);
      fatSectors := wanted;
    }
  }
}
