/** Reading and writing any range of the tracee's memory through 8-byte words. */
module MemoryAccess {
  import opened Words

  datatype Read = Bytes(data: seq<Byte>) | OsError

  /** The bytes of the words that a range of some size takes, counted from its start. */
  function Span(size: nat): (n: nat)
    ensures size <= n < size + 8 && n % 8 == 0
  {
    var remainder := size % 8;
    if remainder == 0 then size else size - remainder + 8
  }

  /** All the words that a range takes are mapped; the last one may reach beyond the range. */
  predicate Reachable(mem: Memory, address: nat, size: nat) {
    size == 0 || address + Span(size) <= |mem|
  }

  /** Memory with some bytes written over it. */
  function Overlaid(mem: Memory, address: nat, data: seq<Byte>): (m: Memory)
    requires data == [] || address + |data| <= |mem|
    ensures |m| == |mem|
    ensures forall x :: 0 <= x < |mem| ==>
              m[x] == if address <= x < address + |data| then data[x - address] else mem[x]
  {
    if data == [] then mem else mem[..address] + data + mem[address + |data|..]
  }

  function ReadRange(mem: Memory, address: nat, size: nat): Read {
    if size == 0 then Bytes([])
    else if Reachable(mem, address, size) then Bytes(mem[address..address + size])
    else OsError
  }

  /** How many bytes are written: all, or those of the whole words that are mapped. */
  function Stored(mem: Memory, address: nat, size: nat): (n: nat)
    ensures n <= size && (n > 0 ==> address + n <= |mem|)
  {
    if Reachable(mem, address, size) then size
    else
      var room := if address <= |mem| then (|mem| - address) / 8 else 0;
      8 * (if room < size / 8 then room else size / 8)
  }

  function WriteRange(mem: Memory, address: nat, data: seq<Byte>): Memory {
    Overlaid(mem, address, data[..Stored(mem, address, |data|)])
  }

  // -------------------------------------------------------------------------------- the laws

  /** What was written is read back, and what is outside the range reads as before. */
  lemma {:induction false} ReadAfterWrite(mem: Memory, address: nat, data: seq<Byte>, other: nat, size: nat)
    requires Reachable(mem, address, |data|)
    ensures ReadRange(WriteRange(mem, address, data), address, |data|) == Bytes(data)
    ensures other + size <= address || address + |data| <= other ==>
              ReadRange(WriteRange(mem, address, data), other, size) == ReadRange(mem, other, size)
  {
  }

  /** A write loses nothing if and only if all its words are mapped. */
  lemma {:induction false} StoredAllIff(mem: Memory, address: nat, size: nat)
    ensures Stored(mem, address, size) == size <==> Reachable(mem, address, size)
  {
  }

  /** Writing back what was read changes nothing. */
  lemma {:induction false} WriteWhatWasRead(mem: Memory, address: nat, size: nat)
    requires Reachable(mem, address, size)
    ensures WriteRange(mem, address, ReadRange(mem, address, size).data) == mem
  {
  }

  /** Writes to disjoint ranges commute, although their words may overlap. */
  lemma {:induction false} DisjointWritesCommute(mem: Memory, a: nat, d: seq<Byte>, b: nat, e: seq<Byte>)
    requires Reachable(mem, a, |d|) && Reachable(mem, b, |e|) && (a + |d| <= b || b + |e| <= a)
    ensures WriteRange(WriteRange(mem, a, d), b, e) == WriteRange(WriteRange(mem, b, e), a, d)
  {
  }

  // ---------------------------------------------------------------------- the steps of the loops

  /** Whole words and a last partial one. */
  lemma {:induction false} ReachableEnd(mem: Memory, address: nat, size: nat, k: nat)
    requires k == size - size % 8
    ensures size % 8 > 0 ==> (Reachable(mem, address, size) <==> address + k + 8 <= |mem|)
    ensures size % 8 == 0 && size > 0 ==> (Reachable(mem, address, size) <==> address + size <= |mem|)
  {
  }

  /** A range is its whole words and the beginning of its last one. */
  lemma {:induction false} ReadEnd(mem: Memory, address: nat, size: nat, k: nat, words: seq<Byte>)
    requires k == size - size % 8 && size % 8 > 0 && address + k + 8 <= |mem|
    requires words == if k == 0 then [] else mem[address..address + k]
    ensures ReadRange(mem, address, size) == Bytes(words + mem[address + k..address + k + 8][..size % 8])
  {
  }

  lemma {:induction false} NextWord(mem: Memory, address: nat, data: seq<Byte>, k: nat)
    requires k + 8 <= |data| && address + k + 8 <= |mem|
    ensures Overlaid(Overlaid(mem, address, data[..k]), address + k, data[k..k + 8])
            == Overlaid(mem, address, data[..k + 8])
  {
  }

  lemma {:induction false} LastWord(mem: Memory, m: Memory, address: nat, data: seq<Byte>, k: nat, w: Word)
    requires k < |data| < k + 8 && address + k + 8 <= |mem| == |m|
    requires forall x :: 0 <= x < |mem| ==> m[x] == if address <= x < address + k then data[x - address] else mem[x]
    requires forall j :: 0 <= j < 8 ==> w[j] == if j < |data| - k then data[k + j] else m[address + k + j]
    ensures Overlaid(m, address + k, w) == Overlaid(mem, address, data)
  {
  }

  /** One more whole word is stored if it is mapped. */
  lemma {:induction false} StoredNext(mem: Memory, address: nat, k: nat)
    requires k % 8 == 0
    ensures Stored(mem, address, k + 8) == if address + k + 8 <= |mem| then k + 8 else Stored(mem, address, k)
    ensures address + k + 8 <= |mem| ==> Stored(mem, address, k) == k
  {
  }

  /** A last partial word that is not mapped adds nothing. */
  lemma {:induction false} StoredTail(mem: Memory, address: nat, size: nat, k: nat)
    requires k == size - size % 8 && size % 8 > 0 && address + k + 8 > |mem|
    ensures Stored(mem, address, size) == Stored(mem, address, k)
  {
  }

  // ------------------------------------------------------------------------- the aligned accesses

  predicate Alignment(align: nat) {
    align == 2 || align == 4 || align == 8
  }

  /** Divisibility by one of the three alignments. */
  predicate Aligned(a: int, align: nat) {
    if align == 2 then a % 2 == 0 else if align == 4 then a % 4 == 0 else a % 8 == 0
  }

  lemma {:induction false} WordsStayAligned(base: int, k: int, align: nat)
    requires Aligned(base, align) && k % 8 == 0
    ensures Aligned(base + k, align)
  {
    if align == 2 {
      Halves(base, k);
    } else if align == 4 {
      Quarters(base, k);
    }
  }

  lemma {:induction false} Halves(base: int, k: int)
    requires base % 2 == 0 && k % 8 == 0
    ensures (base + k) % 2 == 0
  {
  }

  lemma {:induction false} Quarters(base: int, k: int)
    requires base % 4 == 0 && k % 8 == 0
    ensures (base + k) % 4 == 0
  {
  }

  lemma {:induction false} SmallNegative(x: int)
    requires -8 <= x < 0
    ensures x % 8 == if x == -8 then 0 else x + 8
  {
  }

  /** The word an address is in starts this many bytes before it. */
  function Prefix(address: nat, align: nat): (p: nat)
    requires Alignment(align)
    ensures p < align && p <= address && Aligned(address - p, align)
  {
    if align == 2 then address % 2 else if align == 4 then address % 4 else address % 8
  }

  /** What `read` with alignment gives. For a range shorter than the rest of its first word it takes
      that rest and then some bytes of the same word again. */
  function AlignedRange(mem: Memory, address: nat, size: nat, align: nat): Read
    requires Alignment(align)
  {
    var base := address - Prefix(address, align);
    if size >= base + 8 - address then
      if base + Span(address - base + size) <= |mem| then Bytes(mem[address..address + size]) else OsError
    else if base + 8 <= |mem| then
      Bytes(mem[address..base + 8] + mem[base..base + (size - (base + 8 - address)) % 8])
    else OsError
  }

  /** A long enough range is the rest of its first word and a range that starts at the next. */
  lemma {:induction false} AlignedJoins(mem: Memory, address: nat, size: nat, align: nat, base: nat)
    requires Alignment(align) && base == address - Prefix(address, align)
    requires size >= base + 8 - address && base + 8 <= |mem|
    ensures var rest := ReadRange(mem, base + 8, size - (base + 8 - address));
            AlignedRange(mem, address, size, align) ==
              if rest.OsError? then OsError else Bytes(mem[address..base + 8] + rest.data)
  {
  }

  lemma {:induction false} AlignedShortIs(mem: Memory, address: nat, size: nat, align: nat, base: nat)
    requires Alignment(align) && base == address - Prefix(address, align)
    requires size < base + 8 - address && base + 8 <= |mem|
    ensures AlignedRange(mem, address, size, align) ==
            Bytes(mem[address..base + 8] + mem[base..base + (size - (base + 8 - address)) % 8])
  {
  }

  lemma {:induction false} AlignedFirstFails(mem: Memory, address: nat, size: nat, align: nat)
    requires Alignment(align) && address - Prefix(address, align) + 8 > |mem|
    ensures AlignedRange(mem, address, size, align) == OsError
  {
  }

  /** Where the words are mapped, the aligned read is the read if and only if the range takes at least
      the rest of its first word. */
  lemma {:induction false} AlignedAgreesIff(mem: Memory, address: nat, size: nat, align: nat)
    requires Alignment(align) && Reachable(mem, address, size) && address + 8 <= |mem|
    requires address - Prefix(address, align) + Span(Prefix(address, align) + size) <= |mem|
    ensures AlignedRange(mem, address, size, align) == ReadRange(mem, address, size) <==>
            size >= 8 - Prefix(address, align)
  {
    var base := address - Prefix(address, align);
    if size < base + 8 - address {
      var remainder := (size - (base + 8 - address)) % 8;
      assert |AlignedRange(mem, address, size, align).data| == base + 8 - address + remainder > size;
      assert |ReadRange(mem, address, size).data| == size;
    }
  }

  /** With 8-byte alignment and whole words mapped, a mapped range is read even where its words without
      alignment would reach beyond the mapping. */
  lemma {:induction false} AlignedReadsToTheEnd(mem: Memory, address: nat, size: nat)
    requires |mem| % 8 == 0 && address + size <= |mem| && size >= 8 - Prefix(address, 8)
    ensures AlignedRange(mem, address, size, 8) == Bytes(mem[address..address + size])
  {
  }

  // -------------------------------------------------------------- the view as the program has it

  class MemoryView {
    var mem: Memory

    /** One word read: the kernel's value as little-endian bytes. */
    method Getter(a: int) returns (r: Read)
      ensures r == if 0 <= a && a + 8 <= |mem| then Bytes(mem[a..a + 8]) else OsError
    {
      if a < 0 || a + 8 > |mem| {
        return OsError;
      }
      var value := Load(Peek(mem, a));
      StoreLoad(Peek(mem, a));
      r := Bytes(Store(value));
    }

    /** One word written, from its little-endian bytes. The kernel's -1 arrives as an unsigned
        number, which the test for failure does not match: a failed write raises nothing. */
    method Setter(a: nat, w: Word) returns (raised: bool)
      modifies this
      ensures !raised
      ensures mem == if a + 8 <= |old(mem)| then Overlaid(old(mem), a, w) else old(mem)
    {
      var result := 0xFFFF_FFFF_FFFF_FFFF;
      if a + 8 <= |mem| {
        var value := Load(w);
        StoreLoad(w);
        mem := Poke(mem, a, Store(value));
        assert mem == Overlaid(old(mem), a, w);
        result := 0;
      }
      raised := result == -1;
    }

    /** The loop of `read` over the whole words. */
    method ReadWords(address: int, n: nat) returns (r: Read)
      requires n % 8 == 0
      ensures r == if n == 0 then Bytes([])
                   else if 0 <= address && address + n <= |mem| then Bytes(mem[address..address + n])
                   else OsError
    {
      var data := [];
      var k := 0;
      while k < n
        invariant k <= n && k % 8 == 0
        invariant k > 0 ==> 0 <= address && address + k <= |mem| && data == mem[address..address + k]
        invariant k == 0 ==> data == []
      {
        var w := Getter(address + k);
        if w.OsError? {
          return OsError;
        }
        data := data + w.data;
        k := k + 8;
      }
      r := Bytes(data);
    }

    /** `read` without alignment. */
    method Read(address: nat, size: nat) returns (r: Read)
      ensures r == ReadRange(mem, address, size)
    {
      var remainder := size % 8;
      var k := size - remainder;
      ReachableEnd(mem, address, size, k);
      r := ReadWords(address, k);
      if remainder > 0 && r.Bytes? {
        var w := Getter(address + k);
        if w.OsError? {
          return OsError;
        }
        ReadEnd(mem, address, size, k, r.data);
        r := Bytes(r.data + w.data[..remainder]);
      }
    }

    /** The loop of `write` over the whole words. */
    method WriteWords(address: nat, data: seq<Byte>, n: nat)
      requires n % 8 == 0 && n <= |data|
      modifies this
      ensures mem == Overlaid(old(mem), address, data[..Stored(old(mem), address, n)])
    {
      var k := 0;
      while k < n
        invariant k <= n && k % 8 == 0
        invariant mem == Overlaid(old(mem), address, data[..Stored(old(mem), address, k)])
      {
        StoredNext(old(mem), address, k);
        var raised := Setter(address + k, data[k..k + 8]);
        if address + k + 8 <= |old(mem)| {
          NextWord(old(mem), address, data, k);
        }
        k := k + 8;
      }
    }

    /** The read, change and write of the last word; the read raises if it is not mapped. */
    method WriteTail(address: nat, data: seq<Byte>, k: nat, ghost start: Memory) returns (ok: bool)
      requires k == |data| - |data| % 8 && |data| % 8 > 0
      requires mem == Overlaid(start, address, data[..Stored(start, address, k)])
      modifies this
      ensures ok <==> Reachable(start, address, |data|)
      ensures mem == WriteRange(start, address, data)
    {
      ReachableEnd(start, address, |data|, k);
      var previous := Getter(address + k);
      if previous.OsError? {
        StoredTail(start, address, |data|, k);
        return false;
      }
      StoredNext(start, address, k);
      var w: Word := data[k..] + previous.data[|data| - k..];
      assert forall j :: 0 <= j < 8 ==> previous.data[j] == mem[address + k + j];
      LastWord(start, mem, address, data, k, w);
      var raised := Setter(address + k, w);
      assert data[..|data|] == data;
      ok := true;
    }

    /** `write` without alignment: the tail keeps the rest of its word. It comes back without an
        error, everything stored or not, unless there is a tail and its word is not mapped. */
    method Write(address: nat, data: seq<Byte>) returns (ok: bool)
      modifies this
      ensures ok <==> |data| % 8 == 0 || Reachable(old(mem), address, |data|)
      ensures mem == WriteRange(old(mem), address, data)
    {
      var remainder := |data| % 8;
      var k := |data| - remainder;
      WriteWords(address, data, k);
      ok := true;
      if remainder > 0 {
        ok := WriteTail(address, data, k, old(mem));
      }
    }

    /** A word read that must be aligned. */
    method AlignedGetter(a: int, align: nat) returns (r: Read)
      requires Alignment(align) && Aligned(a, align)
      ensures r == if 0 <= a && a + 8 <= |mem| then Bytes(mem[a..a + 8]) else OsError
    {
      r := Getter(a);
    }

    /** The loop of `read` with alignment over the whole words. */
    method AlignedWords(base: nat, n: nat, align: nat) returns (r: Read)
      requires Alignment(align) && Aligned(base, align) && n % 8 == 0
      ensures r == if n == 0 then Bytes([]) else if base + n <= |mem| then Bytes(mem[base..base + n]) else OsError
    {
      var data := [];
      var k := 0;
      while k < n
        invariant k <= n && k % 8 == 0
        invariant k > 0 ==> base + k <= |mem| && data == mem[base..base + k]
        invariant k == 0 ==> data == []
      {
        WordsStayAligned(base, k, align);
        var w := AlignedGetter(base + k, align);
        if w.OsError? {
          return OsError;
        }
        data := data + w.data;
        k := k + 8;
      }
      r := Bytes(data);
    }

    /** The words after the first: the whole ones, then a part of the last. */
    method AlignedRest(next: nat, rest: nat, align: nat) returns (r: Read)
      requires Alignment(align) && Aligned(next, align)
      ensures r == ReadRange(mem, next, rest)
    {
      var remainder := rest % 8;
      var n := rest - remainder;
      ReachableEnd(mem, next, rest, n);
      r := AlignedWords(next, n, align);
      if remainder > 0 && r.Bytes? {
        WordsStayAligned(next, n, align);
        var w := AlignedGetter(next + n, align);
        if w.OsError? {
          return OsError;
        }
        ReadEnd(mem, next, rest, n, r.data);
        r := Bytes(r.data + w.data[..remainder]);
      }
    }

    /** The end of a range shorter than the rest of its first word. */
    method AlignedShort(base: nat, address: nat, size: nat, align: nat, data: seq<Byte>) returns (r: Read)
      requires Alignment(align) && Aligned(base, align) && base <= address < base + 8 && size < base + 8 - address
      requires base + 8 <= |mem| && data == mem[address..base + 8]
      requires base == address - Prefix(address, align)
      ensures r == AlignedRange(mem, address, size, align)
    {
      AlignedShortIs(mem, address, size, align, base);
      SmallNegative(size - (base + 8 - address));
      var remainder := (size - (base + 8 - address)) % 8;
      r := Bytes(data);
      if remainder > 0 {
        assert address + size - remainder == base;
        var w := AlignedGetter(address + size - remainder, align);
        assert w.data[..remainder] == mem[base..base + remainder];
        r := Bytes(data + w.data[..remainder]);
      }
    }

    /** The end of a range that takes at least the rest of its first word. */
    method AlignedLong(base: nat, address: nat, size: nat, align: nat, data: seq<Byte>) returns (r: Read)
      requires Alignment(align) && base == address - Prefix(address, align) && size >= base + 8 - address
      requires base + 8 <= |mem| && data == mem[address..base + 8]
      ensures r == AlignedRange(mem, address, size, align)
    {
      WordsStayAligned(base, 8, align);
      AlignedJoins(mem, address, size, align, base);
      var rest := AlignedRest(base + 8, size - (base + 8 - address), align);
      if rest.OsError? {
        return OsError;
      }
      r := Bytes(data + rest.data);
    }

    /** `read` with alignment: every word it asks for is aligned. */
    method AlignedRead(address: nat, size: nat, align: nat) returns (r: Read)
      requires Alignment(align)
      ensures r == AlignedRange(mem, address, size, align)
    {
      var prefix := Prefix(address, align);
      var base, first := address - prefix, 8 - prefix;
      r := AlignedGetter(base, align);
      if r.OsError? {
        AlignedFirstFails(mem, address, size, align);
        return;
      }
      var data := r.data[prefix..];
      assert data == mem[address..base + 8] && Aligned(base, align);
      if size >= first {
        r := AlignedLong(base, address, size, align, data);
      } else {
        r := AlignedShort(base, address, size, align, data);
      }
    }
  }
}
