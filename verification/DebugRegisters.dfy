/** The four hardware breakpoints of one thread. DR0 to DR3 hold the addresses; the control
    register DR7 holds, for each of them, a local enable bit, a two-bit condition and a two-bit
    length (section 13.1.1 of the AMD64 Architecture Programmer's Manual, Volume 2).

    A non-negative integer used for its bits is the set of the positions of its one bits, so that
    `|` is union, `& ~` is difference and `<<` moves every position up; `ControlWord` proves this of
    the numbers. */
module DebugRegisters {
  import opened Searches

  type Bits = set<nat>

  function Shl(v: Bits, k: nat): Bits {
    set b | b in v :: b + k
  }

  const THREE: Bits := {0, 1}

  /** The two-bit field that starts at a position: `(d >> k) & 3`. */
  function Field(d: Bits, k: nat): Bits {
    set b | b in THREE && b + k in d :: b
  }

  // ---------------------------------------------------------------------------------- the layout

  function LocalAt(i: nat): nat { 2 * i }

  function CondAt(i: nat): nat { 16 + 4 * i }

  function LenAt(i: nat): nat { 18 + 4 * i }

  /** All the bits of DR7 that belong to a slot. */
  function Own(i: nat): Bits {
    {LocalAt(i)} + Shl(THREE, CondAt(i)) + Shl(THREE, LenAt(i))
  }

  /** `Unknown` is any condition string missing from the manager's table, such as "W". */
  datatype Condition = X | W | RW | Unknown

  datatype HwBp = HwBp(address: int, condition: Condition, length: int)

  predicate Known(bp: HwBp) {
    bp.condition != Unknown && (bp.length == 1 || bp.length == 2 || bp.length == 4 || bp.length == 8)
  }

  function CondCode(c: Condition): Bits {
    match c case X => {} case W => {0} case _ => {0, 1}
  }

  function LenCode(n: int): Bits {
    if n == 1 then {} else if n == 2 then {0} else if n == 8 then {1} else {0, 1}
  }

  /** The two fields as the processor reads them; the condition code 2 is not one of ours. */
  function ReadCond(code: Bits): Condition {
    if 0 in code && 1 in code then RW else if 0 in code then W else if 1 in code then Unknown else X
  }

  function ReadLen(code: Bits): int {
    if 0 in code && 1 in code then 4 else if 0 in code then 2 else if 1 in code then 8 else 1
  }

  /** The processor reads the two fields as they are written; the fourth condition code, for accesses to
      ports, is nobody's. */
  lemma {:induction false} ReadCodes(bp: HwBp)
    requires Known(bp)
    ensures ReadCond(CondCode(bp.condition)) == bp.condition && ReadLen(LenCode(bp.length)) == bp.length
    ensures ReadCond({}) == X && ReadCond({0}) == W && ReadCond({1}) == Unknown && ReadCond({0, 1}) == RW
    ensures ReadLen({}) == 1 && ReadLen({0}) == 2 && ReadLen({1}) == 8 && ReadLen({0, 1}) == 4
  {
  }

  // -------------------------------------------------------------------------------- the manager

  datatype Slot = Empty | Holds(bp: HwBp)

  /** A thread's manager, with the registers it works on. */
  datatype Manager = Manager(slots: seq<Slot>, count: int, dr: seq<int>, dr7: Bits)

  const FRESH := Manager([Empty, Empty, Empty, Empty], 0, [0, 0, 0, 0], {})

  datatype Result = Done | NoSlots | NothingInstalled | NotFound | BadKey

  /** DR7 after installing in a slot: its fields cleared, then the new ones and the enable bit set. */
  function Installed7(d: Bits, i: nat, bp: HwBp): Bits {
    var ctrl := {LocalAt(i)} + Shl(CondCode(bp.condition), CondAt(i)) + Shl(LenCode(bp.length), LenAt(i));
    d - Shl(THREE, CondAt(i)) - Shl(THREE, LenAt(i)) + ctrl
  }

  /** DR7 after removing from a slot: only the enable bit goes. */
  function Removed7(d: Bits, i: nat): Bits {
    d - {LocalAt(i)}
  }

  /** The first slot with given contents, from a position on; the number of slots if there is none. */
  function FindSlot(slots: seq<Slot>, s: Slot, from: nat): (i: nat)
    requires from <= |slots|
    ensures from <= i <= |slots|
    ensures i < |slots| ==> slots[i] == s
    ensures forall j :: from <= j < i ==> slots[j] != s
  {
    First(slots, (t: Slot) => t == s, from)
  }

  predicate Shaped(m: Manager) {
    |m.slots| == 4 && |m.dr| == 4
  }

  /** An unknown condition or length is noticed after the address has been written. */
  function Install(m: Manager, bp: HwBp): (r: (Manager, Result))
    requires Shaped(m)
    ensures Shaped(r.0)
  {
    var i := FindSlot(m.slots, Empty, 0);
    if m.count >= 4 then (m, NoSlots)
    else if i == 4 then (m, NotFound)
    else if !Known(bp) then (m.(dr := m.dr[i := bp.address]), BadKey)
    else
      (Manager(m.slots[i := Holds(bp)], m.count + 1, m.dr[i := bp.address], Installed7(m.dr7, i, bp)), Done)
  }

  function Remove(m: Manager, bp: HwBp): (r: (Manager, Result))
    requires Shaped(m)
    ensures Shaped(r.0)
  {
    var i := FindSlot(m.slots, Holds(bp), 0);
    if m.count <= 0 then (m, NothingInstalled)
    else if i == 4 then (m, NotFound)
    else (Manager(m.slots[i := Empty], m.count - 1, m.dr[i := 0], Removed7(m.dr7, i)), Done)
  }

  // ------------------------------------------------------------------------------- the bit fields

  /** The breakpoint that a slot's registers describe, if the slot is enabled. */
  function Decode(addr: int, d: Bits, i: nat): Slot {
    if LocalAt(i) in d then Holds(HwBp(addr, ReadCond(Field(d, CondAt(i))), ReadLen(Field(d, LenAt(i)))))
    else Empty
  }

  /** Two values of DR7 that agree on a slot's bits read the same there. */
  lemma {:induction false} DecodeOwn(addr: int, d: Bits, e: Bits, i: nat)
    requires d * Own(i) == e * Own(i)
    ensures Decode(addr, d, i) == Decode(addr, e, i)
  {
    forall b | b in Own(i)
      ensures b in d <==> b in e
    {
      assert b in d * Own(i) <==> b in e * Own(i);
    }
    assert LocalAt(i) in Own(i);
    FieldOwn(d, e, CondAt(i), i);
    FieldOwn(d, e, LenAt(i), i);
  }

  lemma {:induction false} FieldOwn(d: Bits, e: Bits, k: nat, i: nat)
    requires Shl(THREE, k) <= Own(i)
    requires forall b :: b in Own(i) ==> (b in d <==> b in e)
    ensures Field(d, k) == Field(e, k)
  {
  }

  lemma {:induction false} Disjoint(i: nat, j: nat)
    requires i < 4 && j < 4 && i != j
    ensures Own(i) !! Own(j)
  {
  }

  /** The codes of the two tables read back as what they stand for. */
  lemma {:induction false} CodesRead(bp: HwBp)
    requires Known(bp)
    ensures CondCode(bp.condition) <= THREE && LenCode(bp.length) <= THREE
    ensures ReadCond(CondCode(bp.condition)) == bp.condition && ReadLen(LenCode(bp.length)) == bp.length
  {
  }

  lemma {:induction false} InstalledReads(d: Bits, i: nat, bp: HwBp)
    requires i < 4 && Known(bp)
    ensures Decode(bp.address, Installed7(d, i, bp), i) == Holds(bp)
  {
    CodesRead(bp);
    InstalledField(d, i, bp);
  }

  lemma {:induction false} InstalledField(d: Bits, i: nat, bp: HwBp)
    requires i < 4 && CondCode(bp.condition) <= THREE && LenCode(bp.length) <= THREE
    ensures Field(Installed7(d, i, bp), CondAt(i)) == CondCode(bp.condition)
    ensures Field(Installed7(d, i, bp), LenAt(i)) == LenCode(bp.length)
  {
    var c, l := CondCode(bp.condition), LenCode(bp.length);
    Written(d, c, l, i, 0);
    Written(d, c, l, i, 1);
    FieldIs(Installed7(d, i, bp), CondAt(i), c);
    FieldIs(Installed7(d, i, bp), LenAt(i), l);
  }

  lemma {:induction false} FieldIs(e: Bits, k: nat, c: Bits)
    requires c <= THREE && (0 + k in e <==> 0 in c) && (1 + k in e <==> 1 in c)
    ensures Field(e, k) == c
  {
  }

  lemma {:induction false} Written(d: Bits, c: Bits, l: Bits, i: nat, b: nat)
    requires b in THREE && c <= THREE && l <= THREE && i < 4
    ensures var e := d - Shl(THREE, CondAt(i)) - Shl(THREE, LenAt(i))
                     + ({LocalAt(i)} + Shl(c, CondAt(i)) + Shl(l, LenAt(i)));
            && (b + CondAt(i) in e <==> b in c)
            && (b + LenAt(i) in e <==> b in l)
  {
  }

  /** Installing changes no bit of DR7 outside the slot's own. */
  lemma {:induction false} InstallStaysInside(d: Bits, i: nat, bp: HwBp)
    requires i < 4 && Known(bp)
    ensures Installed7(d, i, bp) - Own(i) == d - Own(i)
  {
  }

  lemma {:induction false} RemoveStaysInside(d: Bits, i: nat)
    ensures Removed7(d, i) - Own(i) == d - Own(i)
    ensures Decode(0, Removed7(d, i), i) == Empty
  {
  }

  /** A write inside one slot leaves what the other slots decode to. */
  lemma {:induction false} DecodeOutside(addr: int, d: Bits, e: Bits, i: nat, j: nat)
    requires i < 4 && j < 4 && i != j && d - Own(i) == e - Own(i)
    ensures Decode(addr, d, j) == Decode(addr, e, j)
  {
    Disjoint(i, j);
    forall b | b in Own(j)
      ensures b in d <==> b in e
    {
      assert b in d - Own(i) <==> b in e - Own(i);
    }
    assert d * Own(j) == e * Own(j);
    DecodeOwn(addr, d, e, j);
  }

  // ------------------------------------------------------------------------------- the invariant

  function Occupied(slots: seq<Slot>): nat {
    if slots == [] then 0 else (if slots[0].Holds? then 1 else 0) + Occupied(slots[1..])
  }

  /** The bookkeeping alone, whatever the registers hold: the count is right. */
  ghost predicate Counted(m: Manager) {
    && Shaped(m)
    && m.count == Occupied(m.slots)
    && (forall i :: 0 <= i < 4 && m.slots[i].Holds? ==> Known(m.slots[i].bp))
  }

  /** Besides, a slot the manager takes for empty is not enabled in DR7. */
  ghost predicate Booked(m: Manager) {
    Counted(m) && forall i :: 0 <= i < 4 && m.slots[i].Empty? ==> Decode(m.dr[i], m.dr7, i) == Empty
  }

  /** What the registers of all four slots describe. */
  function Decoded(m: Manager): (s: seq<Slot>)
    requires Shaped(m)
    ensures |s| == 4
  {
    seq(4, i requires 0 <= i < 4 => Decode(m.dr[i], m.dr7, i))
  }

  /** The registers describe exactly the breakpoints the manager holds. */
  ghost predicate Valid(m: Manager) {
    Booked(m) && Decoded(m) == m.slots
  }

  lemma {:induction false} OccupiedUpdate(slots: seq<Slot>, i: nat, s: Slot)
    requires i < |slots|
    ensures Occupied(slots[i := s]) ==
            Occupied(slots) - (if slots[i].Holds? then 1 else 0) + (if s.Holds? then 1 else 0)
  {
    if i == 0 {
      assert slots[0 := s][1..] == slots[1..];
    } else {
      OccupiedUpdate(slots[1..], i - 1, s);
      assert slots[i := s][1..] == slots[1..][i - 1 := s];
    }
  }

  lemma {:induction false} OccupiedBounds(slots: seq<Slot>)
    ensures Occupied(slots) <= |slots|
    ensures Occupied(slots) == |slots| <==> Empty !in slots
    ensures Occupied(slots) == 0 <==> forall s :: s in slots ==> s.Empty?
  {
    if slots != [] {
      OccupiedBounds(slots[1..]);
      assert slots == [slots[0]] + slots[1..];
      assert Empty in slots <==> slots[0].Empty? || Empty in slots[1..];
    }
  }

  /** Writing one slot, its address register and its bits of DR7. */
  ghost predicate Rewritten(m: Manager, n: Manager, i: nat, s: Slot) {
    && Shaped(m) && Shaped(n) && i < 4
    && n.slots == m.slots[i := s]
    && (forall j :: 0 <= j < 4 && j != i ==> n.dr[j] == m.dr[j])
    && n.dr7 - Own(i) == m.dr7 - Own(i)
    && Decode(n.dr[i], n.dr7, i) == s
  }

  lemma {:induction false} RewriteKeeps(m: Manager, n: Manager, i: nat, s: Slot)
    requires Rewritten(m, n, i, s)
    ensures Decoded(n) == Decoded(m)[i := s]
  {
    forall j | 0 <= j < 4
      ensures Decoded(n)[j] == Decoded(m)[i := s][j]
    {
      if j != i {
        DecodeOutside(m.dr[j], m.dr7, n.dr7, i, j);
      }
    }
  }

  lemma {:induction false} RewriteBooks(m: Manager, n: Manager, i: nat, s: Slot)
    requires Counted(m) && Rewritten(m, n, i, s) && (s.Holds? ==> Known(s.bp))
    requires n.count == m.count - (if m.slots[i].Holds? then 1 else 0) + (if s.Holds? then 1 else 0)
    ensures Counted(n) && (Booked(m) ==> Booked(n)) && (Valid(m) ==> Valid(n))
  {
    OccupiedUpdate(m.slots, i, s);
    RewriteKeeps(m, n, i, s);
    if Booked(m) {
      forall j | 0 <= j < 4 && n.slots[j].Empty?
        ensures Decode(n.dr[j], n.dr7, j) == Empty
      {
        assert Decoded(n)[j] == Decoded(m)[i := s][j];
      }
    }
  }

  /** Installing fails exactly when all four slots are held or a key is unknown. Otherwise it takes
      the first empty slot and leaves every other slot, and every other bit of DR7, as it was. */
  lemma {:induction false} InstallEffect(m: Manager, bp: HwBp)
    requires Counted(m)
    ensures var (n, r) := Install(m, bp);
            var i := FindSlot(m.slots, Empty, 0);
            && (r == NoSlots <==> Empty !in m.slots) && (r == NoSlots ==> n == m)
            && (r == BadKey <==> Empty in m.slots && !Known(bp))
            && (r == BadKey ==> n == m.(dr := m.dr[i := bp.address]))
            && (r == Done <==> Empty in m.slots && Known(bp))
            && (r == Done ==> Rewritten(m, n, i, Holds(bp)) && m.slots[i] == Empty)
            && (r == Done ==> n.dr == m.dr[i := bp.address] && n.count == m.count + 1)
    ensures Counted(Install(m, bp).0) && (Booked(m) ==> Booked(Install(m, bp).0))
    ensures Valid(m) ==> Valid(Install(m, bp).0)
  {
    OccupiedBounds(m.slots);
    var (n, r) := Install(m, bp);
    var i := FindSlot(m.slots, Empty, 0);
    assert Empty in m.slots <==> i < 4;
    if r == Done {
      InstallStaysInside(m.dr7, i, bp);
      InstalledReads(m.dr7, i, bp);
      RewriteBooks(m, n, i, Holds(bp));
    } else if r == BadKey && Booked(m) {
      AddressOnly(m, n, i);
    }
  }

  lemma {:induction false} AddressOnly(m: Manager, n: Manager, i: nat)
    requires Booked(m) && Shaped(n) && i < 4 && m.slots[i] == Empty && n == m.(dr := m.dr[i := n.dr[i]])
    ensures Booked(n) && Decoded(n) == Decoded(m)
  {
  }

  /** Removing fails exactly when the breakpoint is in no slot. Otherwise it empties the first slot
      that holds it, clears its address, and leaves every other slot, and every other bit of DR7, as it
      was. */
  lemma {:induction false} RemoveEffect(m: Manager, bp: HwBp)
    requires Counted(m)
    ensures var (n, r) := Remove(m, bp);
            var i := FindSlot(m.slots, Holds(bp), 0);
            && (r == Done <==> Holds(bp) in m.slots)
            && (r == NothingInstalled <==> forall s :: s in m.slots ==> s.Empty?)
            && (r != Done ==> n == m)
            && (r == Done ==> Rewritten(m, n, i, Empty) && m.slots[i] == Holds(bp))
            && (r == Done ==> n.dr == m.dr[i := 0] && n.count == m.count - 1)
    ensures Counted(Remove(m, bp).0) && (Booked(m) ==> Booked(Remove(m, bp).0))
    ensures Valid(m) ==> Valid(Remove(m, bp).0)
  {
    OccupiedBounds(m.slots);
    var (n, r) := Remove(m, bp);
    var i := FindSlot(m.slots, Holds(bp), 0);
    assert Holds(bp) in m.slots <==> i < 4;
    if r == Done {
      RemoveStaysInside(m.dr7, i);
      RewriteBooks(m, n, i, Empty);
    }
  }

  // ----------------------------------------------------------------------------------- whole runs

  function One(s: Slot): multiset<HwBp> {
    if s.Holds? then multiset{s.bp} else multiset{}
  }

  /** The breakpoints in some slots. */
  function Held(slots: seq<Slot>): multiset<HwBp> {
    if slots == [] then multiset{} else One(slots[0]) + Held(slots[1..])
  }

  datatype Op = Add(bp: HwBp) | Drop(bp: HwBp)

  function Apply(m: Manager, op: Op): (r: (Manager, Result))
    requires Shaped(m)
    ensures Shaped(r.0)
  {
    match op
    case Add(bp) => Install(m, bp)
    case Drop(bp) => Remove(m, bp)
  }

  function Run(m: Manager, ops: seq<Op>): (n: Manager)
    requires Shaped(m)
    ensures Shaped(n)
    decreases |ops|
  {
    if ops == [] then m else Run(Apply(m, ops[0]).0, ops[1..])
  }

  /** The specification: a bag of at most four breakpoints. */
  function BagStep(held: multiset<HwBp>, op: Op): (multiset<HwBp>, Result) {
    match op
    case Add(bp) =>
      if |held| >= 4 then (held, NoSlots)
      else if !Known(bp) then (held, BadKey)
      else (held + multiset{bp}, Done)
    case Drop(bp) =>
      if |held| == 0 then (held, NothingInstalled)
      else if bp !in held then (held, NotFound)
      else (held - multiset{bp}, Done)
  }

  function BagRun(held: multiset<HwBp>, ops: seq<Op>): multiset<HwBp>
    decreases |ops|
  {
    if ops == [] then held else BagRun(BagStep(held, ops[0]).0, ops[1..])
  }

  lemma {:induction false} HeldSlots(slots: seq<Slot>, bp: HwBp)
    ensures |Held(slots)| == Occupied(slots)
    ensures bp in Held(slots) <==> Holds(bp) in slots
  {
    if slots != [] {
      HeldSlots(slots[1..], bp);
      assert slots == [slots[0]] + slots[1..];
    }
  }

  lemma {:induction false} HeldFill(slots: seq<Slot>, i: nat, bp: HwBp)
    requires i < |slots| && slots[i] == Empty
    ensures Held(slots[i := Holds(bp)]) == Held(slots) + multiset{bp}
  {
    if i == 0 {
      assert slots[0 := Holds(bp)][1..] == slots[1..];
    } else {
      HeldFill(slots[1..], i - 1, bp);
      assert slots[i := Holds(bp)][1..] == slots[1..][i - 1 := Holds(bp)];
    }
  }

  lemma {:induction false} HeldClear(slots: seq<Slot>, i: nat, bp: HwBp)
    requires i < |slots| && slots[i] == Holds(bp)
    ensures Held(slots[i := Empty]) == Held(slots) - multiset{bp}
  {
    var t := slots[i := Empty];
    HeldFill(t, i, bp);
    assert t[i := Holds(bp)] == slots;
    Minus(Held(t), bp);
  }

  lemma {:induction false} Minus(h: multiset<HwBp>, bp: HwBp)
    ensures h + multiset{bp} - multiset{bp} == h
  {
  }

  lemma {:induction false} AddRefines(m: Manager, bp: HwBp)
    requires Shaped(m) && m.count == Occupied(m.slots)
    ensures BagStep(Held(m.slots), Add(bp)) == (Held(Install(m, bp).0.slots), Install(m, bp).1)
  {
    HeldSlots(m.slots, bp);
    OccupiedBounds(m.slots);
    var i := FindSlot(m.slots, Empty, 0);
    if i < 4 {
      assert m.slots[i] in m.slots;
      HeldFill(m.slots, i, bp);
    }
  }

  lemma {:induction false} DropRefines(m: Manager, bp: HwBp)
    requires Shaped(m) && m.count == Occupied(m.slots)
    ensures BagStep(Held(m.slots), Drop(bp)) == (Held(Remove(m, bp).0.slots), Remove(m, bp).1)
  {
    var i := FindSlot(m.slots, Holds(bp), 0);
    assert Holds(bp) in m.slots <==> i < 4;
    assert bp in Held(m.slots) <==> i < 4 by {
      HeldSlots(m.slots, bp);
    }
    assert |Held(m.slots)| == m.count by {
      HeldSlots(m.slots, bp);
    }
    if i < 4 {
      HeldClear(m.slots, i, bp);
    }
  }

  /** Each operation on the registers is the operation on the bag. */
  lemma {:induction false} StepRefines(m: Manager, op: Op)
    requires Counted(m)
    ensures var (n, r) := Apply(m, op);
            BagStep(Held(m.slots), op) == (Held(n.slots), r)
    ensures Counted(Apply(m, op).0) && (Valid(m) ==> Valid(Apply(m, op).0))
  {
    if op.Add? {
      AddRefines(m, op.bp);
      InstallEffect(m, op.bp);
    } else {
      DropRefines(m, op.bp);
      RemoveEffect(m, op.bp);
    }
  }

  /** After any sequence of installs and removals, failed ones included, the enabled slots of the
      registers are the bag of breakpoints installed and not removed, and the count is its size. */
  lemma {:induction false} RunRefines(m: Manager, ops: seq<Op>)
    requires Valid(m)
    ensures var n := Run(m, ops);
            && Valid(n)
            && Held(Decoded(n)) == BagRun(Held(m.slots), ops)
            && n.count == |Held(Decoded(n))| <= 4
    decreases |ops|
  {
    if ops == [] {
      OccupiedBounds(m.slots);
      HeldSlots(m.slots, HwBp(0, X, 1));
    } else {
      StepRefines(m, ops[0]);
      RunRefines(Apply(m, ops[0]).0, ops[1..]);
    }
  }

  lemma {:induction false} FreshValid()
    ensures Valid(FRESH) && Held(FRESH.slots) == multiset{}
  {
  }

  // ------------------------------------------------------------------- the manager as the program has it

  class HardwareBreakpointManager {
    var slots: seq<Slot>
    var count: int
    var dr: seq<int>
    var dr7: Bits

    function State(): Manager
      reads this
    {
      Manager(slots, count, dr, dr7)
    }

    constructor ()
      ensures State() == FRESH
    {
      slots, count, dr, dr7 := FRESH.slots, FRESH.count, FRESH.dr, FRESH.dr7;
    }

    /** The scan of the slots in register order. */
    method Scan(s: Slot) returns (i: nat)
      ensures i == FindSlot(slots, s, 0)
    {
      i := 0;
      while i < |slots| && slots[i] != s
        invariant i <= |slots| && FindSlot(slots, s, 0) == FindSlot(slots, s, i)
      {
        i := i + 1;
      }
    }

    method InstallBreakpoint(bp: HwBp) returns (r: Result)
      requires Counted(State())
      modifies this
      ensures (State(), r) == Install(old(State()), bp)
      ensures Counted(State()) && (old(Valid(State())) ==> Valid(State()))
    {
      InstallEffect(State(), bp);
      if count >= 4 {
        return NoSlots;
      }
      var i := Scan(Empty);
      if i == |slots| {
        return NotFound;
      }
      dr := dr[i := bp.address];
      if !Known(bp) {
        return BadKey;
      }
      WriteControl(i, bp);
      slots := slots[i := Holds(bp)];
      count := count + 1;
      r := Done;
    }

    /** The control register is read, its fields for the slot cleared, and the new ones set. */
    method WriteControl(i: nat, bp: HwBp)
      modifies this`dr7
      ensures dr7 == Installed7(old(dr7), i, bp)
    {
      var ctrl := {LocalAt(i)} + Shl(CondCode(bp.condition), CondAt(i)) + Shl(LenCode(bp.length), LenAt(i));
      var current := dr7;
      current := current - Shl(THREE, CondAt(i));
      current := current - Shl(THREE, LenAt(i));
      dr7 := current + ctrl;
    }

    method RemoveBreakpoint(bp: HwBp) returns (r: Result)
      requires Counted(State())
      modifies this
      ensures (State(), r) == Remove(old(State()), bp)
      ensures Counted(State()) && (old(Valid(State())) ==> Valid(State()))
    {
      RemoveEffect(State(), bp);
      if count <= 0 {
        return NothingInstalled;
      }
      var i := Scan(Holds(bp));
      if i == |slots| {
        return NotFound;
      }
      dr := dr[i := 0];
      dr7 := dr7 - {LocalAt(i)};
      slots := slots[i := Empty];
      count := count - 1;
      r := Done;
    }

    /** The number of breakpoints that can still be installed: the slots DR7 does not enable. */
    method AvailableBreakpoints() returns (n: int)
      requires Valid(State())
      ensures 0 <= n <= 4
      ensures n == 4 - |Held(Decoded(State()))|
      ensures n > 0 <==> exists i :: 0 <= i < 4 && LocalAt(i) !in dr7
    {
      OccupiedBounds(slots);
      HeldSlots(slots, HwBp(0, X, 1));
      n := 4 - count;
      assert forall i :: 0 <= i < 4 ==> slots[i] == Decoded(State())[i];
      if Empty in slots {
        var i :| 0 <= i < 4 && slots[i] == Empty;
        assert LocalAt(i) !in dr7;
      } else {
        forall i | 0 <= i < 4
          ensures LocalAt(i) in dr7
        {
          assert slots[i] in slots;
        }
      }
    }
  }
}
