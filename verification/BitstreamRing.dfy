/** Writing a decode unit into the VPU's bitstream ring (src/video/imx_vpu.c).

    The unit is a list of chunks.  Each is copied with one memcpy, or two when it crosses the
    end of the ring; the specification writes the same bytes one at a time.  The program's ring
    has 0x200000 bytes; everything here holds for a ring of any size. */
module BitstreamRing {

  import opened Arith
  import opened CTypes

  function Concat(chunks: seq<seq<Byte>>): seq<Byte>
  {
    if chunks == [] then [] else chunks[0] + Concat(chunks[1..])
  }

  /** The bytes of the chunks, one after the other. */
  lemma {:induction false} ConcatJoins(a: seq<seq<Byte>>, chunk: seq<Byte>, b: seq<seq<Byte>>)
    ensures Concat([]) == [] && Concat(a + [chunk] + b) == Concat(a) + chunk + Concat(b)
    decreases |a|
  {
    if a == [] {
      assert ([chunk] + b)[1..] == b && a + [chunk] + b == [chunk] + b;
    } else {
      assert (a + [chunk] + b)[1..] == a[1..] + [chunk] + b;
      ConcatJoins(a[1..], chunk, b);
    }
  }

  /** The ring after writing `bytes` one by one from position p, wrapping at the end. */
  function Put(ring: seq<Byte>, p: nat, bytes: seq<Byte>): (r: seq<Byte>)
    requires p < |ring|
    ensures |r| == |ring|
    decreases |bytes|
  {
    if bytes == [] then ring
    else Put(ring[p := bytes[0]], (p + 1) % |ring|, bytes[1..])
  }

  /** The same from a position that may be one past the end. */
  function PutFrom(ring: seq<Byte>, p: nat, bytes: seq<Byte>): (r: seq<Byte>)
    requires 0 < |ring|
    ensures |r| == |ring|
  {
    Put(ring, p % |ring|, bytes)
  }

  /** No chunk reaches past the end of the ring for a second time. */
  predicate StaysInside(size: nat, target: nat, chunks: seq<seq<Byte>>)
    requires target <= size
    decreases |chunks|
  {
    chunks == [] ||
    var end := target + |chunks[0]|;
    if end <= size then StaysInside(size, end, chunks[1..])
    else end - size <= size && StaysInside(size, end - size, chunks[1..])
  }

  /** A memcpy into the ring: where it starts and how many bytes it has. */
  datatype Copy = Copy(at: int, length: int)

  /** The calls of memcpy that the loop makes. */
  function Copies(size: int, target: int, chunks: seq<seq<Byte>>): seq<Copy>
    decreases |chunks|
  {
    if chunks == [] then []
    else
      var length, room := |chunks[0]|, size - target;
      if target + length > size then
        [Copy(target, room), Copy(0, length - room)] + Copies(size, length - room, chunks[1..])
      else [Copy(target, length)] + Copies(size, target + length, chunks[1..])
  }

  predicate AllInside(size: int, copies: seq<Copy>)
  {
    forall k :: 0 <= k < |copies| ==>
      0 <= copies[k].at && 0 <= copies[k].length && copies[k].at + copies[k].length <= size
  }

  lemma AllInsideConcat(size: int, a: seq<Copy>, b: seq<Copy>)
    ensures AllInside(size, a + b) <==> AllInside(size, a) && AllInside(size, b)
  {
    assert forall k :: 0 <= k < |a| ==> (a + b)[k] == a[k];
    assert forall k :: 0 <= k < |b| ==> (a + b)[|a| + k] == b[k];
  }

  /** The copies stay inside the ring exactly when no chunk reaches past its end twice. */
  lemma {:induction false} CopiesInsideIff(size: nat, target: nat, chunks: seq<seq<Byte>>)
    requires target <= size
    ensures AllInside(size, Copies(size, target, chunks)) <==> StaysInside(size, target, chunks)
    decreases |chunks|
  {
    if chunks != [] {
      var length, room := |chunks[0]|, size - target;
      if target + length > size {
        var now := [Copy(target, room), Copy(0, length - room)];
        AllInsideConcat(size, now, Copies(size, length - room, chunks[1..]));
        assert now[1] == Copy(0, length - room);
        if length - room <= size { CopiesInsideIff(size, length - room, chunks[1..]); }
      } else {
        AllInsideConcat(size, [Copy(target, length)], Copies(size, target + length, chunks[1..]));
        CopiesInsideIff(size, target + length, chunks[1..]);
      }
    }
  }

  /** In particular when the whole unit is no larger than the ring. */
  lemma {:induction false} SmallUnitsStayInside(size: nat, target: nat, chunks: seq<seq<Byte>>)
    requires target <= size && |Concat(chunks)| <= size
    ensures StaysInside(size, target, chunks)
    decreases |chunks|
  {
    if chunks != [] {
      var end := target + |chunks[0]|;
      SmallUnitsStayInside(size, if end <= size then end else end - size, chunks[1..]);
    }
  }

  method MemCpy(dst: array<Byte>, at: nat, src: seq<Byte>)
    requires at + |src| <= dst.Length
    modifies dst
    ensures dst[..] == old(dst[..at]) + src + old(dst[at + |src|..])
  {
    forall k | 0 <= k < |src| {
      dst[at + k] := src[k];
    }
  }

  /** The copy loop of vpu_decode.  `start` is the VPU's write position; `target` is where the
      next chunk goes, which after a chunk ending exactly at the end is one past the ring. */
  method WriteUnit(ring: array<Byte>, start: nat, chunks: seq<seq<Byte>>)
    requires start < ring.Length
    requires StaysInside(ring.Length, start, chunks)
    modifies ring
    ensures ring[..] == PutFrom(old(ring[..]), start, Concat(chunks))
  {
    var size := ring.Length;
    var target := start;
    var k := 0;
    assert chunks[0..] == chunks;
    while k < |chunks|
      invariant 0 <= k <= |chunks| && 0 <= target <= size && StaysInside(size, target, chunks[k..])
      invariant PutFrom(ring[..], target, Concat(chunks[k..])) == PutFrom(old(ring[..]), start, Concat(chunks))
    {
      var entry := chunks[k];
      ghost var before, at, rest := ring[..], target, Concat(chunks[k + 1..]);
      assert chunks[k..][1..] == chunks[k + 1..];
      assert Concat(chunks[k..]) == entry + rest;
      if target + |entry| > size {
        var room := size - target;
        MemCpy(ring, target, entry[..room]);
        ghost var first := ring[..];
        assert first == before[..at] + entry[..room] + before[size..];
        MemCpy(ring, 0, entry[room..]);
        assert ring[..] == first[..0] + entry[room..] + first[|entry| - room..];
        target := |entry| - room;
        WrappedCopy(before, at, entry, rest);
      } else {
        MemCpy(ring, target, entry);
        assert ring[..] == before[..at] + entry + before[at + |entry|..];
        target := target + |entry|;
        FlatCopy(before, at, entry, rest);
      }
      k := k + 1;
    }
    assert chunks[k..] == [];
  }

  // ---------------------------------------------------------------------------------------
  // One memcpy, or two, against one byte at a time

  lemma {:induction false} PutConcat(ring: seq<Byte>, p: nat, a: seq<Byte>, b: seq<Byte>)
    requires p < |ring|
    ensures Put(ring, p, a + b) == Put(Put(ring, p, a), (p + |a|) % |ring|, b)
    decreases |a|
  {
    if a == [] {
      assert a + b == b;
      ModSmall(p, |ring|);
    } else {
      assert (a + b)[1..] == a[1..] + b;
      PutConcat(ring[p := a[0]], (p + 1) % |ring|, a[1..], b);
      ModAdd(p + 1, |a| - 1, |ring|);
    }
  }

  lemma {:induction false} PutFlat(ring: seq<Byte>, p: nat, a: seq<Byte>)
    requires p < |ring| && p + |a| <= |ring|
    ensures Put(ring, p, a) == ring[..p] + a + ring[p + |a|..]
    decreases |a|
  {
    if a == [] {
      assert ring == ring[..p] + ring[p..];
    } else {
      var next := ring[p := a[0]];
      if |a| > 1 {
        ModSmall(p + 1, |ring|);
        PutFlat(next, p + 1, a[1..]);
        assert a == [a[0]] + a[1..];
        assert next[..p + 1] == ring[..p] + [a[0]];
        assert next[p + |a|..] == ring[p + |a|..];
      } else {
        assert a[1..] == [];
        assert next == ring[..p] + a + ring[p + 1..];
      }
    }
  }

  lemma PutFromConcat(ring: seq<Byte>, p: nat, a: seq<Byte>, b: seq<Byte>)
    requires 0 < |ring|
    ensures PutFrom(ring, p, a + b) == PutFrom(PutFrom(ring, p, a), p + |a|, b)
  {
    PutConcat(ring, p % |ring|, a, b);
    ModAdd(p, |a|, |ring|);
  }

  lemma OneMemcpy(ring: seq<Byte>, at: nat, a: seq<Byte>)
    requires 0 < |ring| && at + |a| <= |ring|
    ensures PutFrom(ring, at, a) == ring[..at] + a + ring[at + |a|..]
  {
    if at < |ring| {
      ModSmall(at, |ring|);
      PutFlat(ring, at, a);
    } else {
      assert a == [] && ring == ring[..at] + a + ring[at..];
    }
  }

  lemma FlatCopy(ring: seq<Byte>, at: nat, a: seq<Byte>, rest: seq<Byte>)
    requires 0 < |ring| && at + |a| <= |ring|
    ensures PutFrom(ring, at, a + rest) == PutFrom(ring[..at] + a + ring[at + |a|..], at + |a|, rest)
  {
    PutFromConcat(ring, at, a, rest);
    OneMemcpy(ring, at, a);
  }

  lemma WrappedCopy(ring: seq<Byte>, at: nat, a: seq<Byte>, rest: seq<Byte>)
    requires 0 < |ring| && at <= |ring| < at + |a| <= 2 * |ring|
    ensures var room := |ring| - at;
            var first := ring[..at] + a[..room] + ring[|ring|..];
            var second := first[..0] + a[room..] + first[|a| - room..];
            PutFrom(ring, at, a + rest) == PutFrom(second, |a| - room, rest)
  {
    var room := |ring| - at;
    var first := ring[..at] + a[..room] + ring[|ring|..];
    assert a + rest == a[..room] + (a[room..] + rest);
    FlatCopy(ring, at, a[..room], a[room..] + rest);
    // one past the end is the beginning
    TurnBack(0, |ring|);
    ModSmall(0, |ring|);
    FlatCopy(first, 0, a[room..], rest);
  }

  lemma TurnBack(a: nat, d: nat)
    requires 0 < d
    ensures (a + d) % d == a % d
  {
    DivModUnique(a / d + 1, a % d, d);
  }

  // ---------------------------------------------------------------------------------------
  // The ring as a queue

  /** The `count` bytes from position `rd` on. */
  function Unread(ring: seq<Byte>, rd: nat, count: nat): (q: seq<Byte>)
    requires 0 < |ring|
    ensures |q| == count
  {
    seq(count, k requires 0 <= k => ring[(rd + k) % |ring|])
  }

  /** Where the position k ahead of p lies as seen from the next position. */
  lemma SeenFromNext(p: nat, k: nat, size: nat)
    requires p < size && k < size
    ensures k > 0 ==> ((p + 1) % size + (k - 1)) % size == (p + k) % size != p
    ensures k == 0 ==> ((p + 1) % size + (size - 1)) % size == (p + k) % size == p
  {
    ModSmall(p, size);
    if k > 0 {
      ModAdd(p + 1, k - 1, size);
      ModDistinct(p, 0, k, size);
    } else {
      ModAdd(p + 1, size - 1, size);
      TurnBack(p, size);
    }
  }

  /** Bytes written in at most a turn stay where they were put, and nothing else changes. */
  lemma {:induction false} PutAt(ring: seq<Byte>, p: nat, bytes: seq<Byte>, k: nat)
    requires p < |ring| && |bytes| <= |ring| && k < |ring|
    ensures Put(ring, p, bytes)[(p + k) % |ring|]
         == if k < |bytes| then bytes[k] else ring[(p + k) % |ring|]
    decreases |bytes|
  {
    if bytes != [] {
      SeenFromNext(p, k, |ring|);
      // the byte put first is a whole turn less one ahead of the next position
      var k' := if k == 0 then |ring| - 1 else k - 1;
      PutAt(ring[p := bytes[0]], (p + 1) % |ring|, bytes[1..], k');
    }
  }

  /** How far byte k of the queue lies ahead of the write position. */
  function Ahead(size: nat, count: nat, k: nat): nat
    requires count <= size
  {
    if k < count then size - count + k else k - count
  }

  lemma AheadOfWrite(size: nat, rd: nat, count: nat, k: nat)
    requires 0 < size && count <= size
    ensures ((rd + count) % size + Ahead(size, count, k)) % size == (rd + k) % size
  {
    ModAdd(rd + count, Ahead(size, count, k), size);
    if k < count {
      TurnBack(rd + k, size);
      assert rd + count + Ahead(size, count, k) == rd + k + size;
    }
  }

  /** Byte k of the queue after a unit was written behind its `count` bytes. */
  lemma QueueByte(ring: seq<Byte>, rd: nat, count: nat, bytes: seq<Byte>, k: nat)
    requires rd < |ring| && count + |bytes| <= |ring| && k < count + |bytes|
    ensures Put(ring, (rd + count) % |ring|, bytes)[(rd + k) % |ring|]
         == if k < count then ring[(rd + k) % |ring|] else bytes[k - count]
  {
    AheadOfWrite(|ring|, rd, count, k);
    PutAt(ring, (rd + count) % |ring|, bytes, Ahead(|ring|, count, k));
  }

  /** The ring refines a byte queue: a unit that fits the free space is appended to the bytes
      the VPU has not read yet. */
  lemma RingRefinesQueue(ring: seq<Byte>, rd: nat, count: nat, bytes: seq<Byte>)
    requires rd < |ring| && count + |bytes| <= |ring|
    ensures Unread(Put(ring, (rd + count) % |ring|, bytes), rd, count + |bytes|) == Unread(ring, rd, count) + bytes
  {
    var after := Unread(Put(ring, (rd + count) % |ring|, bytes), rd, count + |bytes|);
    var want := Unread(ring, rd, count) + bytes;
    forall k | 0 <= k < count + |bytes| ensures after[k] == want[k] {
      QueueByte(ring, rd, count, bytes, k);
    }
  }

  /** Some byte other than b. */
  function Other(b: Byte): (c: Byte)
    ensures c != b
  {
    if b == 0 then 1 else 0
  }

  ghost predicate UnreadSurvives(ring: seq<Byte>, rd: nat, count: nat, n: nat)
    requires rd < |ring|
  {
    forall bytes: seq<Byte> :: |bytes| == n ==>
      Unread(Put(ring, (rd + count) % |ring|, bytes), rd, count) == Unread(ring, rd, count)
  }

  /** A byte written into every position hit keeps that position's value to the end. */
  lemma {:induction false} PutPattern(ring: seq<Byte>, p: nat, bytes: seq<Byte>, f: nat -> Byte, k: nat)
    requires p < |ring|
    requires forall j :: 0 <= j < |bytes| ==> bytes[j] == f((p + j) % |ring|)
    ensures forall i :: 0 <= i < |ring| && ring[i] == f(i) ==> Put(ring, p, bytes)[i] == f(i)
    ensures k < |bytes| ==> Put(ring, p, bytes)[(p + k) % |ring|] == f((p + k) % |ring|)
    decreases |bytes|
  {
    if bytes != [] {
      var size := |ring|;
      ModSmall(p, size);
      assert bytes[0] == f((p + 0) % size) == f(p);
      var q := (p + 1) % size;
      forall j | 0 <= j < |bytes| - 1 ensures bytes[1..][j] == f((q + j) % size) {
        ModAdd(p + 1, j, size);
      }
      PutPattern(ring[p := bytes[0]], q, bytes[1..], f, if k == 0 then 0 else k - 1);
      if k > 0 {
        ModAdd(p + 1, k - 1, size);
      }
    }
  }

  /** The program only reports a unit larger than the free space, and writes it all the same:
      the bytes still to be read survive exactly when there are none or the unit fits. */
  lemma UnreadSurvivesIff(ring: seq<Byte>, rd: nat, count: nat, n: nat)
    requires rd < |ring| && count <= |ring|
    ensures UnreadSurvives(ring, rd, count, n) <==> count == 0 || count + n <= |ring|
  {
    var size := |ring|;
    var w := (rd + count) % size;
    if count == 0 || count + n <= size {
      forall bytes: seq<Byte> | |bytes| == n
        ensures Unread(Put(ring, w, bytes), rd, count) == Unread(ring, rd, count)
      {
        if count > 0 {
          RingRefinesQueue(ring, rd, count, bytes);
          assert Unread(Put(ring, w, bytes), rd, count + n)[..count] == Unread(Put(ring, w, bytes), rd, count);
        }
      }
    } else {
      // Overwrite every position with a value other than its own.
      var f: nat -> Byte := (i: nat) => if i < size then Other(ring[i]) else 0;
      var bytes: seq<Byte> := seq(n, j requires 0 <= j => f((w + j) % size));
      PutPattern(ring, w, bytes, f, size - count);
      // size - count ahead of the write position is the oldest unread byte
      ModAdd(rd + count, size - count, size);
      TurnBack(rd, size);
      ModSmall(rd, size);
      assert Unread(Put(ring, w, bytes), rd, count)[0] != Unread(ring, rd, count)[0];
    }
  }
}
