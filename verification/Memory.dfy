/** The memory routines of rt-thread/src/kservice.c on a flat byte memory.

    An address is an index into `mem`; a `long` is four bytes, so an address is aligned when it is
    a multiple of four.  The word loops store whole words; the contracts say what that means byte
    by byte. */
module Memory {

  type Byte = bv8
  type Word = bv32

  const LONG: nat := 4

  predicate Aligned(a: nat) { a % LONG == 0 }

  /** The bytes of a word as they lie in memory (little endian). */
  function Bytes(w: Word): (b: seq<Byte>)
    ensures |b| == 4
  {
    [(w & 0xFF) as Byte, ((w >> 8) & 0xFF) as Byte, ((w >> 16) & 0xFF) as Byte, ((w >> 24) & 0xFF) as Byte]
  }

  function Spread(d: Byte): Word {
    var half := ((d as Word) << 8) | (d as Word);
    half | (half << 16)
  }

  lemma {:induction false} SpreadBytes(d: Byte)
    ensures Bytes(Spread(d)) == [d, d, d, d]
  {
    var x := d as Word;
    SpreadWord(x);
  }

  lemma SpreadWord(x: Word)
    requires x <= 0xFF
    ensures var h := (x << 8) | x;
            var w := h | (h << 16);
            w & 0xFF == x && (w >> 8) & 0xFF == x && (w >> 16) & 0xFF == x && (w >> 24) & 0xFF == x
  {
  }

  ghost predicate Filled(now: seq<Byte>, was: seq<Byte>, s: nat, end: nat, d: Byte) {
    |now| == |was| && forall k | 0 <= k < |now| :: now[k] == if s <= k < end then d else was[k]
  }

  method StoreWord(mem: array<Byte>, a: nat, w: Word)
    requires a + 4 <= mem.Length
    modifies mem
    ensures mem[a..a + 4] == Bytes(w)
    ensures forall k | 0 <= k < mem.Length && !(a <= k < a + 4) :: mem[k] == old(mem[k])
  {
    var b := Bytes(w);
    mem[a], mem[a + 1], mem[a + 2], mem[a + 3] := b[0], b[1], b[2], b[3];
  }

  /** One aligned store of the fill word. */
  method FillWord(mem: array<Byte>, a: nat, d: Byte, ghost was: seq<Byte>, ghost s: nat)
    requires a + 4 <= mem.Length && s <= a && Filled(mem[..], was, s, a, d)
    modifies mem
    ensures Filled(mem[..], was, s, a + 4, d)
  {
    SpreadBytes(d);
    StoreWord(mem, a, Spread(d));
    assert forall k | a <= k < a + 4 :: mem[k] == mem[a..a + 4][k - a];
  }

  /** rt_memset: only the low byte of `c` counts, and whatever the length and the alignment,
      exactly `count` bytes from `s` on become that byte. */
  method Memset(mem: array<Byte>, s: nat, c: Word, count: nat) returns (r: nat)
    requires s + count <= mem.Length
    modifies mem
    ensures r == s
    ensures Filled(mem[..], old(mem[..]), s, s + count, (c & 0xFF) as Byte)
  {
    var d := (c & 0xFF) as Byte;
    var m: nat, left: nat := s, count;
    ghost var was := mem[..];
    if left >= LONG && Aligned(s) {
      while left >= LONG * 4
        invariant m + left == s + count && s <= m && Filled(mem[..], was, s, m, d)
      {
        FillWord(mem, m, d, was, s);
        FillWord(mem, m + 4, d, was, s);
        FillWord(mem, m + 8, d, was, s);
        FillWord(mem, m + 12, d, was, s);
        m, left := m + 16, left - 4 * LONG;
      }
      while left >= LONG
        invariant m + left == s + count && s <= m && Filled(mem[..], was, s, m, d)
      {
        FillWord(mem, m, d, was, s);
        m, left := m + 4, left - LONG;
      }
    }
    while left > 0
      invariant m + left == s + count && s <= m && Filled(mem[..], was, s, m, d)
    {
      mem[m] := d;
      m, left := m + 1, left - 1;
    }
    r := s;
  }

  /** `n` bytes at `dst` are what was at `src`; every other byte is as before. */
  ghost predicate Moved(now: seq<Byte>, was: seq<Byte>, dst: nat, src: nat, n: nat)
    requires src + n <= |was|
  {
    && |now| == |was|
    && forall k {:trigger now[k]} | 0 <= k < |now| ::
         now[k] == if dst <= k < dst + n then was[src + (k - dst)] else was[k]
  }

  /** Load a word, store a word. */
  method CopyWord(mem: array<Byte>, d: nat, s: nat)
    requires d + 4 <= mem.Length && s + 4 <= mem.Length
    modifies mem
    ensures Moved(mem[..], old(mem[..]), d, s, 4)
  {
    var b0, b1, b2, b3 := mem[s], mem[s + 1], mem[s + 2], mem[s + 3];
    mem[d], mem[d + 1], mem[d + 2], mem[d + 3] := b0, b1, b2, b3;
  }

  /** What forward copying may not do: write onto source bytes still to be read. */
  predicate ForwardSafe(dst: nat, src: nat, count: nat) {
    dst <= src || src + count <= dst
  }

  lemma ForwardStep(now: seq<Byte>, mid: seq<Byte>, was: seq<Byte>, dst: nat, src: nat, i: nat, w: nat, count: nat)
    requires src + count <= |was| && dst + count <= |was| && i + w <= count
    requires ForwardSafe(dst, src, count)
    requires Moved(mid, was, dst, src, i) && Moved(now, mid, dst + i, src + i, w)
    ensures Moved(now, was, dst, src, i + w)
  {
    forall k | 0 <= k < |now| ensures now[k] == if dst <= k < dst + (i + w) then was[src + (k - dst)] else was[k] {
      assert now[k] == if dst + i <= k < dst + i + w then mid[src + i + (k - (dst + i))] else mid[k];
      if dst + i <= k < dst + i + w {
        var x := src + (k - dst);
        assert src + i + (k - (dst + i)) == x && !(dst <= x < dst + i);
        assert mid[x] == was[x];
      }
    }
  }

  lemma WordStep(now: seq<Byte>, mid: seq<Byte>, was: seq<Byte>, dst: nat, src: nat, i: nat, d: nat, s: nat, count: nat)
    requires src + count <= |was| && dst + count <= |was| && i + 4 <= count && d == dst + i && s == src + i
    requires ForwardSafe(dst, src, count)
    requires Moved(mid, was, dst, src, i) && |mid| == |was| && Moved(now, mid, d, s, 4)
    ensures Moved(now, was, dst, src, i + 4)
  {
    ForwardStep(now, mid, was, dst, src, i, 4, count);
  }

  /** One turn of the word loops. */
  method NextWord(mem: array<Byte>, dst: nat, src: nat, i: nat, count: nat, ghost was: seq<Byte>)
    requires i + 4 <= count && dst + count <= mem.Length == |was| && src + count <= mem.Length
    requires ForwardSafe(dst, src, count) && Moved(mem[..], was, dst, src, i)
    modifies mem
    ensures Moved(mem[..], was, dst, src, i + 4)
  {
    ghost var mid := mem[..];
    var d, s := dst + i, src + i;
    CopyWord(mem, d, s);
    WordStep(mem[..], mid, was, dst, src, i, d, s, count);
  }

  /** One turn of a byte loop. */
  method NextByte(mem: array<Byte>, dst: nat, src: nat, i: nat, count: nat, ghost was: seq<Byte>)
    requires i < count && dst + count <= mem.Length == |was| && src + count <= mem.Length
    requires ForwardSafe(dst, src, count) && Moved(mem[..], was, dst, src, i)
    modifies mem
    ensures Moved(mem[..], was, dst, src, i + 1)
  {
    ghost var mid := mem[..];
    mem[dst + i] := mem[src + i];
    ForwardStep(mem[..], mid, was, dst, src, i, 1, count);
  }

  /** One turn of the big loop. */
  method NextFour(mem: array<Byte>, dst: nat, src: nat, i: nat, count: nat, ghost was: seq<Byte>)
    requires i + 16 <= count && dst + count <= mem.Length == |was| && src + count <= mem.Length
    requires ForwardSafe(dst, src, count) && Moved(mem[..], was, dst, src, i)
    modifies mem
    ensures Moved(mem[..], was, dst, src, i + 16)
  {
    NextWord(mem, dst, src, i, count, was);
    NextWord(mem, dst, src, i + 4, count, was);
    NextWord(mem, dst, src, i + 8, count, was);
    NextWord(mem, dst, src, i + 12, count, was);
  }

  /** rt_memcpy: word loops when both addresses are aligned and the block is big, bytes otherwise.
      Non-overlapping blocks are copied, and so are blocks that overlap with the destination in
      front. */
  method Memcpy(mem: array<Byte>, dst: nat, src: nat, count: nat) returns (r: nat)
    requires dst + count <= mem.Length && src + count <= mem.Length
    requires ForwardSafe(dst, src, count)
    modifies mem
    ensures r == dst && Moved(mem[..], old(mem[..]), dst, src, count)
  {
    var i: nat, len: nat := 0, count;
    ghost var was := mem[..];
    if len >= 4 * LONG && Aligned(src) && Aligned(dst) {
      while len >= 4 * LONG
        invariant i + len == count && Moved(mem[..], was, dst, src, i)
      {
        NextFour(mem, dst, src, i, count, was);
        i, len := i + 16, len - 4 * LONG;
      }
      while len >= LONG
        invariant i + len == count && Moved(mem[..], was, dst, src, i)
      {
        NextWord(mem, dst, src, i, count, was);
        i, len := i + 4, len - LONG;
      }
    }
    while len > 0
      invariant i + len == count && Moved(mem[..], was, dst, src, i)
    {
      NextByte(mem, dst, src, i, count, was);
      i, len := i + 1, len - 1;
    }
    r := dst;
  }

  /** rt_memmove: the old source bytes arrive for every overlap. */
  method Memmove(mem: array<Byte>, dest: nat, src: nat, n: nat) returns (r: nat)
    requires dest + n <= mem.Length && src + n <= mem.Length
    modifies mem
    ensures r == dest && Moved(mem[..], old(mem[..]), dest, src, n)
  {
    ghost var was := mem[..];
    if src < dest < src + n {
      var left: nat := n;
      while left > 0
        invariant left <= n
        invariant forall k | 0 <= k < mem.Length && dest + left <= k < dest + n :: mem[k] == was[src + (k - dest)]
        invariant forall k | 0 <= k < mem.Length && !(dest + left <= k < dest + n) :: mem[k] == was[k]
      {
        left := left - 1;
        mem[dest + left] := mem[src + left];
      }
    } else {
      var i: nat := 0;
      while i < n
        invariant i <= n && Moved(mem[..], was, dest, src, i)
      {
        NextByte(mem, dest, src, i, n, was);
        i := i + 1;
      }
    }
    r := dest;
  }
}
