/** scripts/live-gates/a19_interrupt_observation.py and a19_interrupt_stop_points.py: reading one lsof listing, and the
    bytes that name a media pair. */
module StopPoints {
  import opened Bytes

  // ---------- read_fd_observed ----------

  predicate Begins(line: string, c: char) { line != "" && line[0] == c }

  /** The last of the first `n` lines that begins with `c`, or -1. */
  function LastLine(lines: seq<string>, n: nat, c: char): (r: int)
    requires n <= |lines|
    ensures -1 <= r < n && (r >= 0 ==> Begins(lines[r], c))
  {
    if n == 0 then -1 else if Begins(lines[n - 1], c) then n - 1 else LastLine(lines, n - 1, c)
  }

  /** `f[0-9]+`. */
  predicate FdName(line: string) {
    |line| > 1 && line[0] == 'f' && forall i :: 1 <= i < |line| ==> '0' <= line[i] <= '9'
  }

  /** Line `i` is the last before `k` that starts with `c`. */
  predicate LastBefore(lines: seq<string>, k: nat, c: char, i: int) {
    0 <= i < k <= |lines| && [c] <= lines[i] && forall j :: i < j < k ==> !([c] <= lines[j])
  }

  /** Line `k` names the disk; the process record it belongs to is the helper's, the descriptor record in that one is a
      number, and the access record in that one says read only. */
  ghost predicate Shows(lines: seq<string>, k: nat, owner: string, disk: string) {
    k < |lines| && lines[k] == "n" + disk && exists p, f, a :: Records(lines, k, owner, p, f, a)
  }

  predicate Records(lines: seq<string>, k: nat, owner: string, p: int, f: int, a: int) {
    && LastBefore(lines, k, 'p', p) && LastBefore(lines, k, 'f', f) && LastBefore(lines, k, 'a', a)
    && p < f < a && lines[p] == owner && FdName(lines[f]) && lines[a] == "ar"
  }

  lemma {:induction false} LastLineIs(lines: seq<string>, n: nat, c: char, i: int)
    requires n <= |lines|
    ensures LastBefore(lines, n, c, i) <==> 0 <= i == LastLine(lines, n, c)
  {
    if n > 0 {
      LastLineIs(lines, n - 1, c, i);
    }
  }

  lemma RecordsExactly(lines: seq<string>, k: nat, owner: string, p: int, f: int, a: int)
    requires k < |lines|
    ensures Records(lines, k, owner, p, f, a) <==>
              && 0 <= p == LastLine(lines, k, 'p') < f == LastLine(lines, k, 'f') < a == LastLine(lines, k, 'a')
              && lines[p] == owner && FdName(lines[f]) && lines[a] == "ar"
  {
    LastLineIs(lines, k, 'p', p);
    LastLineIs(lines, k, 'f', f);
    LastLineIs(lines, k, 'a', a);
  }

  lemma ShowsExactly(lines: seq<string>, k: nat, owner: string, disk: string)
    requires k < |lines|
    ensures Shows(lines, k, owner, disk) <==> ShowsLast(lines, k, owner, disk)
  {
    assert lines[k] == "n" + disk <==> Begins(lines[k], 'n') && lines[k][1..] == disk;
    forall p, f, a
      ensures Records(lines, k, owner, p, f, a) <==>
                && 0 <= p == LastLine(lines, k, 'p') < f == LastLine(lines, k, 'f') < a == LastLine(lines, k, 'a')
                && lines[p] == owner && FdName(lines[f]) && lines[a] == "ar"
    {
      RecordsExactly(lines, k, owner, p, f, a);
    }
  }

  /** The same, as the loop finds it. */
  predicate ShowsLast(lines: seq<string>, k: nat, owner: string, disk: string)
    requires k < |lines|
  {
    var p, f, a := LastLine(lines, k, 'p'), LastLine(lines, k, 'f'), LastLine(lines, k, 'a');
    && Begins(lines[k], 'n') && lines[k][1..] == disk
    && 0 <= p < f < a && lines[p] == owner && FdName(lines[f]) && lines[a] == "ar"
  }

  /** The variables of the loop. */
  datatype Memory = Memory(owned: bool, fd: string, access: string)

  /** What they are before line `i`, from the lines read. */
  predicate Remembers(m: Memory, lines: seq<string>, i: nat, owner: string)
    requires i <= |lines|
  {
    var p, f, a := LastLine(lines, i, 'p'), LastLine(lines, i, 'f'), LastLine(lines, i, 'a');
    && m.owned == (p >= 0 && lines[p] == owner)
    && m.fd == (if f > p then lines[f] else "")
    && m.access == (if a > f && a > p then lines[a] else "")
  }

  function Next(m: Memory, line: string, owner: string): Memory {
    if Begins(line, 'p') then Memory(line == owner, "", "")
    else if Begins(line, 'f') then m.(fd := line, access := "")
    else if Begins(line, 'a') then m.(access := line)
    else m
  }

  lemma RemembersNext(m: Memory, lines: seq<string>, i: nat, owner: string)
    requires i < |lines| && Remembers(m, lines, i, owner)
    ensures Remembers(Next(m, lines[i], owner), lines, i + 1, owner)
  {
  }

  lemma MemoryShows(m: Memory, lines: seq<string>, i: nat, owner: string, disk: string)
    requires i < |lines| && Remembers(m, lines, i, owner)
    ensures ShowsLast(lines, i, owner, disk) <==>
              Begins(lines[i], 'n') && lines[i][1..] == disk && m.owned && FdName(m.fd) && m.access == "ar"
  {
  }

  method CheckFd(line: string) returns (ok: bool)
    ensures ok <==> FdName(line)
  {
    if line == "" || line[0] != 'f' {
      return false;
    }
    for i := 1 to |line|
      invariant forall k :: 1 <= k < i ==> '0' <= line[k] <= '9'
    {
      if line[i] < '0' || line[i] > '9' {
        return false;
      }
    }
    return |line| >= 2;
  }

  /** `read_fd_observed`; `owner` is the record line of the helper's pid. */
  method ReadFdObserved(lines: seq<string>, owner: string, disk: string) returns (observed: bool)
    requires ['p'] <= owner
    ensures observed <==> exists k :: 0 <= k < |lines| && Shows(lines, k, owner, disk)
  {
    observed := ScanListing(lines, owner, disk);
    forall k | 0 <= k < |lines| ensures Shows(lines, k, owner, disk) <==> ShowsLast(lines, k, owner, disk) {
      ShowsExactly(lines, k, owner, disk);
    }
  }

  /** Its loop. */
  method ScanListing(lines: seq<string>, owner: string, disk: string) returns (observed: bool)
    requires Begins(owner, 'p')
    ensures observed <==> exists k :: 0 <= k < |lines| && ShowsLast(lines, k, owner, disk)
  {
    var m := Memory(false, "", "");
    for i := 0 to |lines|
      invariant Remembers(m, lines, i, owner)
      invariant forall k :: 0 <= k < i ==> !ShowsLast(lines, k, owner, disk)
    {
      RemembersNext(m, lines, i, owner);
      MemoryShows(m, lines, i, owner, disk);
      var line := lines[i];
      var number := CheckFd(m.fd);
      if Begins(line, 'p') {
        m := Memory(line == owner, "", "");
      } else if Begins(line, 'f') {
        m := m.(fd := line, access := "");
      } else if Begins(line, 'a') {
        m := m.(access := line);
      } else if Begins(line, 'n') && m.owned && number && m.access == "ar" {
        if line[1..] == disk {
          return true;
        }
      }
    }
    return false;
  }

  // ---------- stable_root ----------

  const LENGTH_BYTES := 8

  predicate Framable(values: seq<seq<Byte>>) { forall i :: 0 <= i < |values| ==> |values[i]| < Pow256(LENGTH_BYTES) }

  /** What the digest of the pair's name is fed: each value behind its length. */
  function Framed(values: seq<seq<Byte>>): seq<Byte>
    requires Framable(values)
  {
    if values == [] then [] else Pack(LENGTH_BYTES, |values[0]|) + (values[0] + Framed(values[1..]))
  }

  /** Eight bytes for the length of the first value, the value, and the others. */
  lemma FramedFirst(values: seq<seq<Byte>>, width: nat)
    requires values != [] && Framable(values) && width == 8
    ensures |values[0]| < Pow256(width)
    ensures Framed(values) == Pack(width, |values[0]|) + (values[0] + Framed(values[1..]))
  {
  }

  lemma SameHead(a: seq<Byte>, x: seq<Byte>, b: seq<Byte>, y: seq<Byte>)
    requires |a| == |b| && a + x == b + y
    ensures a == b && x == y
  {
    assert a == (a + x)[..|a|] && b == (b + y)[..|b|];
    assert x == (a + x)[|a|..] && y == (b + y)[|b|..];
  }

  lemma SameFirst(a: seq<Byte>, x: seq<Byte>, b: seq<Byte>, y: seq<Byte>, width: nat)
    requires |a| < Pow256(width) && |b| < Pow256(width)
    requires Pack(width, |a|) + (a + x) == Pack(width, |b|) + (b + y)
    ensures a == b && x == y
  {
    SameHead(Pack(width, |a|), a + x, Pack(width, |b|), b + y);
    UnpackPack(width, |a|);
    UnpackPack(width, |b|);
    SameHead(a, x, b, y);
  }

  /** Two lists of names that feed the digest the same bytes are the same list, whatever the names contain and however
      many there are: no two pairs share a root but by a collision of the digest. */
  lemma {:induction false} FramedInjective(a: seq<seq<Byte>>, b: seq<seq<Byte>>)
    requires Framable(a) && Framable(b) && Framed(a) == Framed(b)
    ensures a == b
  {
    if a != [] && b != [] {
      SameFirst(a[0], Framed(a[1..]), b[0], Framed(b[1..]), LENGTH_BYTES);
      FramedInjective(a[1..], b[1..]);
      assert a == [a[0]] + a[1..] && b == [b[0]] + b[1..];
    }
  }
}
