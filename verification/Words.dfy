/** The tracee's memory as ptrace shows it: a range of bytes, read and written one 8-byte
    little-endian word at a time (PTRACE_PEEKDATA, PTRACE_POKEDATA). */
module Words {
  type Byte = bv8

  /** The bytes of one machine word in memory order. */
  type Word = w: seq<Byte> | |w| == 8 witness [0, 0, 0, 0, 0, 0, 0, 0]

  type Memory = seq<Byte>

  const INT3: Byte := 0xCC

  function Peek(mem: Memory, a: nat): (w: Word)
    requires a + 8 <= |mem|
    ensures forall k :: 0 <= k < 8 ==> w[k] == mem[a + k]
  {
    mem[a..a + 8]
  }

  function Poke(mem: Memory, a: nat, w: Word): (m: Memory)
    requires a + 8 <= |mem|
    ensures |m| == |mem|
    ensures forall x :: 0 <= x < |mem| ==> m[x] == if a <= x < a + 8 then w[x - a] else mem[x]
  {
    mem[..a] + w + mem[a + 8..]
  }

  /** The word with the trap opcode as its first byte. */
  function Trapped(w: Word): (r: Word)
    ensures r[0] == INT3 && forall k :: 1 <= k < 8 ==> r[k] == w[k]
  {
    w[0 := INT3]
  }

  /** The value the kernel returns for a word of memory. */
  function Load(w: Word): bv64 {
    (w[0] as bv64)
    | ((w[1] as bv64) << 8)
    | ((w[2] as bv64) << 16)
    | ((w[3] as bv64) << 24)
    | ((w[4] as bv64) << 32)
    | ((w[5] as bv64) << 40)
    | ((w[6] as bv64) << 48)
    | ((w[7] as bv64) << 56)
  }

  /** The word of memory a value is stored as; also `int.to_bytes(8, "little")`. */
  function Store(v: bv64): Word {
    [(v & 0xFF) as bv8,
     ((v >> 8) & 0xFF) as bv8,
     ((v >> 16) & 0xFF) as bv8,
     ((v >> 24) & 0xFF) as bv8,
     ((v >> 32) & 0xFF) as bv8,
     ((v >> 40) & 0xFF) as bv8,
     ((v >> 48) & 0xFF) as bv8,
     ((v >> 56) & 0xFF) as bv8]
  }

  /** The mask expression that patches an instruction word. */
  function InstallBreakpoint(instruction: bv64): bv64 {
    (instruction & 0xFFFF_FFFF_FFFF_FF00) | 0xCC
  }

  lemma {:induction false} LoadStore(v: bv64)
    ensures Load(Store(v)) == v
  {
  }

  lemma {:induction false} StoreLoad(w: Word)
    ensures Store(Load(w)) == w
  {
  }

  /** Byte k of a value, counted from the low end. */
  function ByteAt(v: bv64, k: nat): Byte
    requires k < 8
  {
    Store(v)[k]
  }

  lemma {:induction false} InstallKeepsHighBytes(v: bv64, k: nat)
    requires 1 <= k < 8
    ensures ByteAt(InstallBreakpoint(v), k) == ByteAt(v, k)
  {
  }

  /** Setting the low byte of a little-endian word is setting the first byte in memory. */
  lemma {:induction false} InstallTrapsFirstByte(v: bv64)
    ensures Store(InstallBreakpoint(v)) == Trapped(Store(v))
  {
    var p, q := Store(InstallBreakpoint(v)), Trapped(Store(v));
    assert p[0] == q[0];
    forall k | 1 <= k < 8
      ensures p[k] == q[k]
    {
      InstallKeepsHighBytes(v, k);
    }
  }

  /** Peeked value in, patched value out: the word the C layer writes back. */
  method PatchedWord(w: Word) returns (r: Word)
    ensures r == Trapped(w)
  {
    r := Store(InstallBreakpoint(Load(w)));
    StoreLoad(w);
    InstallTrapsFirstByte(Load(w));
  }
}
