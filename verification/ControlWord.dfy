/** The control register DR7 as the number the program computes with: what the masks, shifts and
    complements do to the number is what `DebugRegisters` does to the set of its one bits. */
module ControlWord {
  import opened DebugRegisters

  // ------------------------------------------------- Python's operators on non-negative integers

  predicate Bit(n: nat, i: nat) {
    if i == 0 then n % 2 == 1 else Bit(n / 2, i - 1)
  }

  /** `a | b` */
  function Or(a: nat, b: nat): nat
    decreases a + b
  {
    if a == 0 && b == 0 then 0 else 2 * Or(a / 2, b / 2) + (if a % 2 == 1 || b % 2 == 1 then 1 else 0)
  }

  /** `a & ~b` */
  function AndNot(a: nat, b: nat): nat {
    if a == 0 then 0 else 2 * AndNot(a / 2, b / 2) + (if a % 2 == 1 && b % 2 == 0 then 1 else 0)
  }

  /** `a << k` */
  function LeftShift(a: nat, k: nat): nat {
    if k == 0 then a else 2 * LeftShift(a, k - 1)
  }

  /** `a >> k` */
  function RightShift(a: nat, k: nat): nat {
    if k == 0 then a else RightShift(a, k - 1) / 2
  }

  /** The positions of the one bits; all are smaller than the number. */
  function BitsOf(n: nat): Bits {
    set i: nat | i < n && Bit(n, i)
  }

  // ----------------------------------------------------------------------- the operators on bits

  lemma {:induction false} BitBound(n: nat, i: nat)
    requires Bit(n, i)
    ensures i < n
  {
    if i > 0 {
      BitBound(n / 2, i - 1);
    }
  }

  lemma {:induction false} InBits(n: nat, i: nat)
    ensures i in BitsOf(n) <==> Bit(n, i)
  {
    if Bit(n, i) {
      BitBound(n, i);
    }
  }

  lemma {:induction false} DoubleBit(n: nat, low: nat, i: nat)
    requires low < 2
    ensures Bit(2 * n + low, i) <==> if i == 0 then low == 1 else Bit(n, i - 1)
  {
    assert (2 * n + low) / 2 == n && (2 * n + low) % 2 == low;
  }

  lemma {:induction false} ZeroBit(i: nat)
    ensures !Bit(0, i)
  {
    if i > 0 {
      ZeroBit(i - 1);
    }
  }

  lemma {:induction false} OrBit(a: nat, b: nat, i: nat)
    ensures Bit(Or(a, b), i) <==> Bit(a, i) || Bit(b, i)
    decreases i
  {
    ZeroBit(i);
    if a != 0 || b != 0 {
      DoubleBit(Or(a / 2, b / 2), if a % 2 == 1 || b % 2 == 1 then 1 else 0, i);
      if i > 0 {
        OrBit(a / 2, b / 2, i - 1);
      }
    }
  }

  lemma {:induction false} AndNotBit(a: nat, b: nat, i: nat)
    ensures Bit(AndNot(a, b), i) <==> Bit(a, i) && !Bit(b, i)
    decreases i
  {
    ZeroBit(i);
    if a != 0 {
      DoubleBit(AndNot(a / 2, b / 2), if a % 2 == 1 && b % 2 == 0 then 1 else 0, i);
      if i > 0 {
        AndNotBit(a / 2, b / 2, i - 1);
      }
    }
  }

  lemma {:induction false} LeftShiftBit(a: nat, k: nat, i: nat)
    ensures Bit(LeftShift(a, k), i) <==> i >= k && Bit(a, i - k)
  {
    if k > 0 {
      DoubleBit(LeftShift(a, k - 1), 0, i);
      if i > 0 {
        LeftShiftBit(a, k - 1, i - 1);
      }
    }
  }

  lemma {:induction false} RightShiftBit(a: nat, k: nat, i: nat)
    ensures Bit(RightShift(a, k), i) <==> Bit(a, i + k)
  {
    if k > 0 {
      RightShiftBit(a, k - 1, i + 1);
    }
  }

  lemma {:induction false} BitsOr(a: nat, b: nat)
    ensures BitsOf(Or(a, b)) == BitsOf(a) + BitsOf(b)
  {
    forall i: nat
      ensures i in BitsOf(Or(a, b)) <==> i in BitsOf(a) + BitsOf(b)
    {
      OrBit(a, b, i);
      InBits(a, i);
      InBits(b, i);
      InBits(Or(a, b), i);
    }
  }

  lemma {:induction false} BitsAndNot(a: nat, b: nat)
    ensures BitsOf(AndNot(a, b)) == BitsOf(a) - BitsOf(b)
  {
    forall i: nat
      ensures i in BitsOf(AndNot(a, b)) <==> i in BitsOf(a) - BitsOf(b)
    {
      AndNotBit(a, b, i);
      InBits(a, i);
      InBits(b, i);
      InBits(AndNot(a, b), i);
    }
  }

  lemma {:induction false} BitsLeftShift(a: nat, k: nat)
    ensures BitsOf(LeftShift(a, k)) == Shl(BitsOf(a), k)
  {
    forall i: nat
      ensures i in BitsOf(LeftShift(a, k)) <==> i in Shl(BitsOf(a), k)
    {
      LeftShiftBit(a, k, i);
      InBits(LeftShift(a, k), i);
      if i >= k {
        InBits(a, i - k);
        assert i == (i - k) + k;
      }
    }
  }

  // ------------------------------------------------------------------------ the control register

  /** The numbers of the condition and length tables. */
  function CondNumber(c: Condition): nat {
    match c case X => 0 case W => 1 case _ => 3
  }

  function LenNumber(n: int): nat {
    if n == 1 then 0 else if n == 2 then 1 else if n == 8 then 2 else 3
  }

  lemma {:induction false} SmallBits()
    ensures BitsOf(0) == {} && BitsOf(1) == {0} && BitsOf(2) == {1} && BitsOf(3) == {0, 1}
  {
    assert Bit(1, 0) && Bit(2, 1) && !Bit(2, 0) && Bit(3, 0) && Bit(3, 1) && !Bit(3, 2);
  }

  function ControlNumber(i: nat, bp: HwBp): nat {
    Or(Or(LeftShift(1, LocalAt(i)), LeftShift(CondNumber(bp.condition), CondAt(i))),
       LeftShift(LenNumber(bp.length), LenAt(i)))
  }

  function ClearedNumber(d: nat, i: nat): nat {
    AndNot(AndNot(d, LeftShift(3, CondAt(i))), LeftShift(3, LenAt(i)))
  }

  /** What installing writes to DR7. */
  function InstalledNumber(d: nat, i: nat, bp: HwBp): nat {
    Or(ClearedNumber(d, i), ControlNumber(i, bp))
  }

  /** What removing writes to DR7. */
  function RemovedNumber(d: nat, i: nat): nat {
    AndNot(d, LeftShift(1, LocalAt(i)))
  }

  lemma {:induction false} ControlBits(i: nat, bp: HwBp)
    ensures BitsOf(ControlNumber(i, bp)) ==
            {LocalAt(i)} + Shl(CondCode(bp.condition), CondAt(i)) + Shl(LenCode(bp.length), LenAt(i))
  {
    SmallBits();
    var one, cond := LeftShift(1, LocalAt(i)), LeftShift(CondNumber(bp.condition), CondAt(i));
    BitsLeftShift(1, LocalAt(i));
    BitsLeftShift(CondNumber(bp.condition), CondAt(i));
    BitsLeftShift(LenNumber(bp.length), LenAt(i));
    BitsOr(one, cond);
    BitsOr(Or(one, cond), LeftShift(LenNumber(bp.length), LenAt(i)));
    assert Shl({0}, LocalAt(i)) == {LocalAt(i)};
  }

  lemma {:induction false} ClearedBits(d: nat, i: nat)
    ensures BitsOf(ClearedNumber(d, i)) == BitsOf(d) - Shl(THREE, CondAt(i)) - Shl(THREE, LenAt(i))
  {
    SmallBits();
    BitsLeftShift(3, CondAt(i));
    BitsLeftShift(3, LenAt(i));
    BitsAndNot(d, LeftShift(3, CondAt(i)));
    BitsAndNot(AndNot(d, LeftShift(3, CondAt(i))), LeftShift(3, LenAt(i)));
  }

  lemma {:induction false} InstalledBits(d: nat, i: nat, bp: HwBp)
    ensures BitsOf(InstalledNumber(d, i, bp)) == Installed7(BitsOf(d), i, bp)
  {
    ClearedBits(d, i);
    ControlBits(i, bp);
    BitsOr(ClearedNumber(d, i), ControlNumber(i, bp));
  }

  lemma {:induction false} RemovedBits(d: nat, i: nat)
    ensures BitsOf(RemovedNumber(d, i)) == Removed7(BitsOf(d), i)
  {
    SmallBits();
    BitsLeftShift(1, LocalAt(i));
    BitsAndNot(d, LeftShift(1, LocalAt(i)));
    assert Shl({0}, LocalAt(i)) == {LocalAt(i)};
  }

  /** The register after an installation, bit by bit: the local enable bit 2i is set, the two bits from
      16 + 4i hold the condition (0 for X, 1 for W, 3 for RW), the two from 18 + 4i the length (0 for 1, 1 for
      2, 3 for 4, 2 for 8), and every other bit is as it was. */
  lemma {:induction false} InstalledRegister(d: nat, i: nat, bp: HwBp, b: nat)
    requires i < 4 && Known(bp)
    ensures Bit(InstalledNumber(d, i, bp), b) <==>
            if b == 2 * i then true
            else if b == 16 + 4 * i then bp.condition == W || bp.condition == RW
            else if b == 17 + 4 * i then bp.condition == RW
            else if b == 18 + 4 * i then bp.length == 2 || bp.length == 4
            else if b == 19 + 4 * i then bp.length == 4 || bp.length == 8
            else Bit(d, b)
  {
    InstalledBits(d, i, bp);
    InBits(InstalledNumber(d, i, bp), b);
    InBits(d, b);
    ShlBit(THREE, CondAt(i), b);
    ShlBit(THREE, LenAt(i), b);
    ShlBit(CondCode(bp.condition), CondAt(i), b);
    ShlBit(LenCode(bp.length), LenAt(i), b);
  }

  lemma {:induction false} ShlBit(v: Bits, k: nat, b: nat)
    ensures b in Shl(v, k) <==> b >= k && b - k in v
  {
    if b >= k && b - k in v {
      assert (b - k) + k in Shl(v, k);
    }
  }

  /** A removal clears bit 2i and no other. */
  lemma {:induction false} RemovedRegister(d: nat, i: nat, b: nat)
    ensures Bit(RemovedNumber(d, i), b) <==> b != 2 * i && Bit(d, b)
  {
    RemovedBits(d, i);
    InBits(RemovedNumber(d, i), b);
    InBits(d, b);
  }

  /** The two-bit field `(d >> k) & 3`. */
  lemma {:induction false} FieldBits(d: nat, k: nat)
    ensures BitsOf(RightShift(d, k) % 4) == Field(BitsOf(d), k)
  {
    var r := RightShift(d, k);
    RightShiftBit(d, k, 0);
    RightShiftBit(d, k, 1);
    InBits(d, k);
    InBits(d, k + 1);
    SmallBits();
    LowTwo(r);
  }

  lemma {:induction false} LowTwo(r: nat)
    ensures r % 4 == (if Bit(r, 0) then 1 else 0) + (if Bit(r, 1) then 2 else 0)
  {
    assert Bit(r, 1) == (r / 2 % 2 == 1);
  }
}
