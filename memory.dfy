/**
 * Memory of a 32-bit little-endian ARM Cortex-M core, seen as words.
 *
 * Every location thread creation writes is a naturally aligned 32-bit word,
 * so a region of memory is a sequence (or, where it is updated in place, an
 * array) of words; word `i` of a region at address `base` is at address
 * `base + 4 * i`.
 */
module Memory {

  newtype byte = x: int | 0 <= x < 256

  /** A 32-bit value: a register, a `uint32_t`, or a pointer cast to one. */
  type word = x: int | 0 <= x < 0x1_0000_0000

  /** The null pointer. */
  const NULL: word := 0

  /** Size of a word in bytes. */
  const WORD_SIZE: nat := 4

  /** Byte `i` of `w`, counting from the least significant (lowest addressed) one. */
  function ByteOf(w: word, i: nat): int
    requires i < WORD_SIZE
  {
    if i == 0 then w % 256
    else if i == 1 then w / 0x100 % 256
    else if i == 2 then w / 0x1_0000 % 256
    else w / 0x100_0000
  }

  /** The word whose four bytes all equal `b`: what `memset` with `b` leaves in a word. */
  function Splat(b: byte): (w: word)
    ensures forall i :: 0 <= i < WORD_SIZE ==> ByteOf(w, i) == b as int
  {
    var x := b as int;
    var w := x + 0x100 * (x + 0x100 * (x + 0x100 * x));
    assert w / 0x100 == x + 0x100 * (x + 0x100 * x);
    assert w / 0x1_0000 == x + 0x100 * x;
    assert w / 0x100_0000 == x;
    w
  }

  /** `n` words all equal to `v`. */
  function Fill(n: nat, v: word): (r: seq<word>)
    ensures |r| == n
    ensures forall k :: 0 <= k < n ==> r[k] == v
  {
    seq(n, _ => v)
  }

  /** `s` after `ws` is copied to word offset `off`. */
  function WriteWords(s: seq<word>, off: nat, ws: seq<word>): (r: seq<word>)
    requires off + |ws| <= |s|
    ensures |r| == |s|
    ensures r[off..off + |ws|] == ws
    ensures forall k :: 0 <= k < |s| && !(off <= k < off + |ws|) ==> r[k] == s[k]
  {
    s[..off] + ws + s[off + |ws|..]
  }

  /** Fill a whole region with the byte `b`: `memset(a, b, size)`. */
  method Memset(a: array<word>, b: byte)
    modifies a
    ensures a[..] == Fill(a.Length, Splat(b))
  {
    var v := Splat(b);
    var i := 0;
    while i < a.Length
      invariant 0 <= i <= a.Length
      invariant forall k :: 0 <= k < i ==> a[k] == v
    {
      a[i] := v;
      i := i + 1;
    }
  }

  /** Copy `ws` into `a` at word offset `off`. */
  method CopyWords(a: array<word>, off: nat, ws: seq<word>)
    requires off + |ws| <= a.Length
    modifies a
    ensures a[..] == WriteWords(old(a[..]), off, ws)
  {
    forall i | 0 <= i < |ws| {
      a[off + i] := ws[i];
    }
  }
}
