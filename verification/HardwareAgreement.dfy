/** Hardware breakpoints across threads: the breakpoint table, one manager per live thread, and the
    operations that are meant to keep them in agreement. */
module HardwareAgreement {
  import opened DebugRegisters
  import opened Searches

  /** A hardware breakpoint of the table. */
  datatype Entry = Entry(bp: HwBp, enabled: bool)

  type Registers = m: Manager | Shaped(m) witness FRESH

  datatype Helper = Helper(tid: int, manager: Registers)

  /** The hardware part of the breakpoint table and the managers, both in insertion order. */
  datatype World = World(table: seq<Entry>, helpers: seq<Helper>)

  // ---------------------------------------------------------------------------- the operations

  type Action = Registers -> (Registers, Result)

  function Adding(bp: HwBp): Action { m => Install(m, bp) }

  function Dropping(bp: HwBp): Action { m => Remove(m, bp) }

  /** Removing a breakpoint and installing it again. */
  function Reinstall(m: Registers, bp: HwBp): (Registers, Result) {
    var (n, r) := Remove(m, bp);
    if r != Done then (n, r) else Install(n, bp)
  }

  function Reinstalling(bp: HwBp): Action { m => Reinstall(m, bp) }

  /** One action on every manager from a position on; the first failure stops the loop. */
  function Each(hs: seq<Helper>, k: nat, f: Action): (r: (seq<Helper>, Result))
    requires k <= |hs|
    ensures |r.0| == |hs|
    decreases |hs| - k
  {
    if k == |hs| then (hs, Done) else
      var (m, res) := f(hs[k].manager);
      var next := hs[k := Helper(hs[k].tid, m)];
      if res != Done then (next, res) else Each(next, k + 1, f)
  }

  /** The place of an address in the table; its length if the address is not there. */
  function Lookup(table: seq<Entry>, address: int): (i: nat)
    ensures i <= |table|
    ensures i < |table| ==> table[i].bp.address == address
    ensures forall j :: 0 <= j < i ==> table[j].bp.address != address
  {
    First(table, (e: Entry) => e.bp.address == address, 0)
  }

  /** Storing under an address replaces what was there. */
  function Put(table: seq<Entry>, bp: HwBp): seq<Entry> {
    var i := Lookup(table, bp.address);
    if i < |table| then table[i := Entry(bp, true)] else table + [Entry(bp, true)]
  }

  function Set(w: World, bp: HwBp): (World, Result) {
    var (hs, r) := Each(w.helpers, 0, Adding(bp));
    (World(if r == Done then Put(w.table, bp) else w.table, hs), r)
  }

  function Unset(w: World, i: nat): (World, Result)
    requires i < |w.table|
  {
    var (hs, r) := Each(w.helpers, 0, Dropping(w.table[i].bp));
    (World(if r == Done then w.table[..i] + w.table[i + 1..] else w.table, hs), r)
  }

  /** Continuing applies a changed breakpoint's flag, whatever the flag was before. */
  function Sync(w: World, i: nat, on: bool): (World, Result)
    requires i < |w.table|
  {
    var bp := w.table[i].bp;
    var (hs, r) := Each(w.helpers, 0, if on then Adding(bp) else Dropping(bp));
    (World(w.table[i := Entry(bp, on)], hs), r)
  }

  /** The table, from a position on, installed in one manager, disabled entries included. */
  function InstallEach(m: Registers, table: seq<Entry>, k: nat, install: HwBp -> Action): (Registers, Result)
    requires k <= |table|
    decreases |table| - k
  {
    if k == |table| then (m, Done) else
      var (n, r) := install(table[k].bp)(m);
      if r != Done then (n, r) else InstallEach(n, table, k + 1, install)
  }

  /** The managers are a dictionary: one stored under a number that has one replaces it. */
  function Store(hs: seq<Helper>, h: Helper): seq<Helper> {
    var i := Place(hs, h.tid);
    if i < |hs| then hs[i := h] else hs + [h]
  }

  function Birth(w: World, tid: int): (World, Result) {
    var (m, r) := InstallEach(FRESH, w.table, 0, Adding);
    (w.(helpers := Store(w.helpers, Helper(tid, m))), r)
  }

  function Place(hs: seq<Helper>, tid: int): (i: nat)
    ensures i <= |hs|
    ensures i < |hs| ==> hs[i].tid == tid
    ensures forall j :: 0 <= j < i ==> hs[j].tid != tid
  {
    First(hs, (h: Helper) => h.tid == tid, 0)
  }

  function Death(w: World, tid: int): World {
    var i := Place(w.helpers, tid);
    if i < |w.helpers| then w.(helpers := w.helpers[..i] + w.helpers[i + 1..]) else w
  }

  /** The enabled breakpoints of the table, from a position on, installed again in every manager. */
  function ReinstallEach(hs: seq<Helper>, table: seq<Entry>, k: nat): (r: (seq<Helper>, Result))
    requires k <= |table|
    ensures |r.0| == |hs|
    decreases |table| - k
  {
    if k == |table| then (hs, Done)
    else if !table[k].enabled then ReinstallEach(hs, table, k + 1)
    else
      var (next, r) := Each(hs, 0, Reinstalling(table[k].bp));
      if r != Done then (next, r) else ReinstallEach(next, table, k + 1)
  }

  // ------------------------------------------------------------------------------ the invariant

  function Share(e: Entry): multiset<HwBp> {
    if e.enabled then multiset{e.bp} else multiset{}
  }

  /** The enabled breakpoints of the table. */
  function Bag(table: seq<Entry>): multiset<HwBp> {
    if table == [] then multiset{} else Share(table[0]) + Bag(table[1..])
  }

  ghost predicate Unique(table: seq<Entry>) {
    forall i, j :: 0 <= i < j < |table| ==> table[i].bp.address != table[j].bp.address
  }

  /** A manager's registers describe exactly what it holds, and it holds the given bag. */
  ghost predicate HoldsBag(m: Registers, held: multiset<HwBp>) {
    Valid(m) && Held(m.slots) == held
  }

  ghost predicate AllHold(hs: seq<Helper>, held: multiset<HwBp>) {
    forall i :: 0 <= i < |hs| ==> HoldsBag(hs[i].manager, held)
  }

  /** An action with the same result on every manager either runs on all of them or fails on the
      first one and touches no other. */
  lemma {:induction false} EachEffect(hs: seq<Helper>, k: nat, f: Action, res: Result,
                                      P: (int, Registers) -> bool, Q: (int, Registers) -> bool)
    requires k <= |hs| && (k > 0 ==> res == Done)
    requires forall i, m :: P(i, m) ==> Q(i, f(m).0) && f(m).1 == res
    requires forall i :: 0 <= i < k ==> Q(i, hs[i].manager)
    requires forall i :: k <= i < |hs| ==> P(i, hs[i].manager)
    ensures var (gs, r) := Each(hs, k, f);
            && r == (if k == |hs| then Done else res)
            && (forall i :: 0 <= i < |hs| ==> gs[i].tid == hs[i].tid)
            && (forall i :: 0 <= i < |hs| && (i == 0 || r == Done) ==> Q(i, gs[i].manager))
            && (r != Done ==> forall i :: 0 < i < |hs| ==> gs[i] == hs[i])
    decreases |hs| - k
  {
    if k < |hs| {
      var m := f(hs[k].manager).0;
      var next := hs[k := Helper(hs[k].tid, m)];
      if res == Done {
        EachEffect(next, k + 1, f, res, P, Q);
      }
    }
  }

  lemma {:induction false} ActAll(hs: seq<Helper>, f: Action, held: multiset<HwBp>, b: multiset<HwBp>, res: Result)
    requires AllHold(hs, held) && (res != Done ==> b == held)
    requires forall m :: HoldsBag(m, held) ==> HoldsBag(f(m).0, b) && f(m).1 == res
    ensures var (gs, r) := Each(hs, 0, f);
            && r == (if hs == [] then Done else res)
            && AllHold(gs, if hs == [] then held else b)
  {
    EachEffect(hs, 0, f, res, (i: int, m: Registers) => HoldsBag(m, held), (i: int, m: Registers) => HoldsBag(m, b));
  }

  lemma {:induction false} AddOne(m: Registers, bp: HwBp, held: multiset<HwBp>)
    requires HoldsBag(m, held)
    ensures HoldsBag(Install(m, bp).0, BagStep(held, Add(bp)).0) && Install(m, bp).1 == BagStep(held, Add(bp)).1
  {
    StepRefines(m, Add(bp));
  }

  lemma {:induction false} DropOne(m: Registers, bp: HwBp, held: multiset<HwBp>)
    requires HoldsBag(m, held)
    ensures HoldsBag(Remove(m, bp).0, BagStep(held, Drop(bp)).0) && Remove(m, bp).1 == BagStep(held, Drop(bp)).1
  {
    StepRefines(m, Drop(bp));
  }

  lemma {:induction false} AddAll(hs: seq<Helper>, bp: HwBp, held: multiset<HwBp>)
    requires AllHold(hs, held)
    ensures var (gs, r) := Each(hs, 0, Adding(bp));
            && r == (if hs == [] then Done else BagStep(held, Add(bp)).1)
            && AllHold(gs, if hs == [] then held else BagStep(held, Add(bp)).0)
  {
    var (b, res) := BagStep(held, Add(bp));
    forall m: Registers | HoldsBag(m, held)
      ensures HoldsBag(Adding(bp)(m).0, b) && Adding(bp)(m).1 == res
    {
      AddOne(m, bp, held);
    }
    ActAll(hs, Adding(bp), held, b, res);
  }

  lemma {:induction false} DropAll(hs: seq<Helper>, bp: HwBp, held: multiset<HwBp>)
    requires AllHold(hs, held)
    ensures var (gs, r) := Each(hs, 0, Dropping(bp));
            && r == (if hs == [] then Done else BagStep(held, Drop(bp)).1)
            && AllHold(gs, if hs == [] then held else BagStep(held, Drop(bp)).0)
  {
    var (b, res) := BagStep(held, Drop(bp));
    forall m: Registers | HoldsBag(m, held)
      ensures HoldsBag(Dropping(bp)(m).0, b) && Dropping(bp)(m).1 == res
    {
      DropOne(m, bp, held);
    }
    ActAll(hs, Dropping(bp), held, b, res);
  }

  /** A failed removal, or a failed installation for want of a slot, changes nothing at all. */
  lemma {:induction false} FailureChangesNothing(hs: seq<Helper>, bp: HwBp)
    requires hs != [] && Valid(hs[0].manager)
    ensures Install(hs[0].manager, bp).1 == NoSlots ==> Each(hs, 0, Adding(bp)) == (hs, NoSlots)
    ensures Remove(hs[0].manager, bp).1 != Done ==> Each(hs, 0, Dropping(bp)).0 == hs
  {
    assert hs[0 := Helper(hs[0].tid, hs[0].manager)] == hs;
  }

  // ----------------------------------------------------------------------------- bags of the table

  lemma {:induction false} Carry(o: multiset<HwBp>, a: multiset<HwBp>, x: multiset<HwBp>, b: multiset<HwBp>,
                                 y: multiset<HwBp>)
    requires a + x == b + y
    ensures (o + a) + x == (o + b) + y
  {
    assert (o + a) + x == o + (a + x);
    assert (o + b) + y == o + (b + y);
  }

  lemma {:induction false} Sizes(a: multiset<HwBp>, x: multiset<HwBp>, b: multiset<HwBp>, y: multiset<HwBp>)
    requires a + x == b + y
    ensures |a| + |x| == |b| + |y|
  {
    assert |a + x| == |a| + |x| && |b + y| == |b| + |y|;
  }

  lemma {:induction false} BagUpdate(table: seq<Entry>, i: nat, e: Entry)
    requires i < |table|
    ensures Bag(table[i := e]) + Share(table[i]) == Bag(table) + Share(e)
  {
    var t := table[1..];
    if i == 0 {
      assert table[0 := e][1..] == t;
    } else {
      BagUpdate(t, i - 1, e);
      assert table[i := e][1..] == t[i - 1 := e];
      Carry(Share(table[0]), Bag(t[i - 1 := e]), Share(table[i]), Bag(t), Share(e));
    }
  }

  lemma {:induction false} BagAppend(table: seq<Entry>, e: Entry)
    ensures Bag(table + [e]) == Bag(table) + Share(e)
  {
    if table == [] {
      assert [e][1..] == [];
    } else {
      var t := table[1..];
      BagAppend(t, e);
      assert (table + [e])[1..] == t + [e];
      Carry(Share(table[0]), Bag(t + [e]), multiset{}, Bag(t), Share(e));
    }
  }

  lemma {:induction false} BagDelete(table: seq<Entry>, i: nat)
    requires i < |table|
    ensures Bag(table[..i] + table[i + 1..]) + Share(table[i]) == Bag(table)
  {
    var d := table[..i] + table[i + 1..];
    if i == 0 {
      assert d == table[1..];
    } else {
      var t := table[1..];
      BagDelete(t, i - 1);
      assert d[1..] == t[..i - 1] + t[i..];
      Carry(Share(table[0]), Bag(d[1..]), Share(table[i]), Bag(t), multiset{});
    }
  }

  lemma {:induction false} BagSize(table: seq<Entry>)
    ensures |Bag(table)| <= |table|
    ensures |Bag(table)| == |table| <==> forall i :: 0 <= i < |table| ==> table[i].enabled
  {
    if table != [] {
      BagSize(table[1..]);
      assert forall i :: 0 < i < |table| ==> table[i] == table[1..][i - 1];
      assert forall i :: 0 <= i < |table| - 1 ==> table[1..][i] == table[i + 1];
    }
  }

  lemma {:induction false} BagMember(table: seq<Entry>, bp: HwBp)
    ensures bp in Bag(table) <==> exists i :: 0 <= i < |table| && table[i] == Entry(bp, true)
  {
    if table != [] {
      BagMember(table[1..], bp);
      if i :| 0 <= i < |table| && table[i] == Entry(bp, true) {
        assert i > 0 ==> table[1..][i - 1] == Entry(bp, true);
      }
      if i :| 0 <= i < |table| - 1 && table[1..][i] == Entry(bp, true) {
        assert table[i + 1] == Entry(bp, true);
      }
    }
  }

  // -------------------------------------------------------------------------- setting and unsetting

  ghost predicate TableFine(table: seq<Entry>) {
    && Unique(table)
    && (forall e :: e in table ==> Known(e.bp))
    && |Bag(table)| <= 4
  }

  ghost predicate Agree(w: World) {
    TableFine(w.table) && AllHold(w.helpers, Bag(w.table))
  }

  lemma {:induction false} PutFine(table: seq<Entry>, bp: HwBp)
    requires Unique(table) && (forall e :: e in table ==> Known(e.bp)) && Known(bp)
    ensures Unique(Put(table, bp)) && forall e :: e in Put(table, bp) ==> Known(e.bp)
  {
  }

  lemma {:induction false} PutBag(table: seq<Entry>, bp: HwBp)
    ensures var i := Lookup(table, bp.address);
            Bag(Put(table, bp)) + (if i < |table| then Share(table[i]) else multiset{}) == Bag(table) + multiset{bp}
  {
    var i := Lookup(table, bp.address);
    if i < |table| {
      BagUpdate(table, i, Entry(bp, true));
    } else {
      BagAppend(table, Entry(bp, true));
    }
  }

  /** Whether some enabled breakpoint of the table has an address. */
  predicate Taken(table: seq<Entry>, address: int) {
    var i := Lookup(table, address);
    i < |table| && table[i].enabled
  }

  /** Setting a breakpoint at capacity fails in the first manager and changes nothing; with an
      unknown condition or length it changes no breakpoint. Otherwise it succeeds, and the threads
      still agree with the table if and only if no enabled breakpoint had that address. */
  lemma {:induction false} SetAgreesIff(w: World, bp: HwBp)
    requires Agree(w) && w.helpers != []
    ensures var (v, r) := Set(w, bp);
            && (r == NoSlots <==> |Bag(w.table)| == 4) && (r == NoSlots ==> v == w)
            && (r == BadKey <==> |Bag(w.table)| < 4 && !Known(bp))
            && (r == Done <==> |Bag(w.table)| < 4 && Known(bp))
            && (r != Done ==> v.table == w.table && Agree(v))
            && (r == Done ==> v.table == Put(w.table, bp) && (Agree(v) <==> !Taken(w.table, bp.address)))
  {
    var held := Bag(w.table);
    AddAll(w.helpers, bp, held);
    AddOne(w.helpers[0].manager, bp, held);
    FailureChangesNothing(w.helpers, bp);
    var (v, r) := Set(w, bp);
    if r == Done {
      PutFine(w.table, bp);
      PutBag(w.table, bp);
      AgreeAfterPut(w, v, bp);
    }
  }

  lemma {:induction false} AgreeAfterPut(w: World, v: World, bp: HwBp)
    requires Agree(w) && v.helpers != [] && AllHold(v.helpers, Bag(w.table) + multiset{bp})
    requires |Bag(w.table)| < 4 && v.table == Put(w.table, bp)
    requires Unique(v.table) && forall e :: e in v.table ==> Known(e.bp)
    ensures Agree(v) <==> !Taken(w.table, bp.address)
  {
    PutBag(w.table, bp);
    if Taken(w.table, bp.address) {
      Sizes(Bag(v.table), Share(w.table[Lookup(w.table, bp.address)]), Bag(w.table), multiset{bp});
      assert HoldsBag(v.helpers[0].manager, Bag(w.table) + multiset{bp});
    } else {
      assert Bag(v.table) == Bag(w.table) + multiset{bp};
    }
  }

  lemma {:induction false} DeleteFine(table: seq<Entry>, i: nat)
    requires Unique(table) && (forall e :: e in table ==> Known(e.bp)) && i < |table|
    ensures var t := table[..i] + table[i + 1..];
            Unique(t) && forall e :: e in t ==> Known(e.bp)
  {
  }

  lemma {:induction false} Without(b: multiset<HwBp>, x: HwBp, held: multiset<HwBp>)
    requires b + multiset{x} == held
    ensures x in held && b == held - multiset{x}
  {
  }

  /** A table with unique addresses holds each breakpoint once. */
  lemma {:induction false} BagOnce(table: seq<Entry>, i: nat)
    requires Unique(table) && i < |table|
    ensures Bag(table)[table[i].bp] == (if table[i].enabled then 1 else 0)
  {
    var bp := table[i].bp;
    var t := table[..i] + table[i + 1..];
    BagDelete(table, i);
    BagMember(t, bp);
    forall j | 0 <= j < |t|
      ensures t[j].bp != bp
    {
      assert t[j] == table[if j < i then j else j + 1];
    }
    assert Bag(t)[bp] == 0;
    assert (Bag(t) + Share(table[i]))[bp] == Share(table[i])[bp];
  }

  /** Unsetting succeeds exactly for an enabled breakpoint; a disabled one stays in the table, since
      no manager holds it. The threads agree with the table either way. */
  lemma {:induction false} UnsetAgrees(w: World, i: nat)
    requires Agree(w) && w.helpers != [] && i < |w.table|
    ensures var (v, r) := Unset(w, i);
            && (r == Done <==> w.table[i].enabled)
            && (r != Done ==> v == w)
            && Agree(v)
  {
    var bp, held := w.table[i].bp, Bag(w.table);
    BagOnce(w.table, i);
    DropAll(w.helpers, bp, held);
    DropOne(w.helpers[0].manager, bp, held);
    FailureChangesNothing(w.helpers, bp);
    if w.table[i].enabled {
      BagDelete(w.table, i);
      DeleteFine(w.table, i);
      Without(Bag(w.table[..i] + w.table[i + 1..]), bp, held);
    }
  }

  lemma {:induction false} FlagFine(table: seq<Entry>, i: nat, on: bool)
    requires Unique(table) && (forall e :: e in table ==> Known(e.bp)) && i < |table|
    ensures var t := table[i := Entry(table[i].bp, on)];
            Unique(t) && forall e :: e in t ==> Known(e.bp)
  {
  }

  lemma {:induction false} SyncOn(w: World, i: nat)
    requires Agree(w) && w.helpers != [] && i < |w.table|
    ensures var (v, r) := Sync(w, i, true);
            r == Done && Agree(v) <==> !w.table[i].enabled && |Bag(w.table)| < 4
  {
    var bp, held := w.table[i].bp, Bag(w.table);
    var (v, r) := Sync(w, i, true);
    AddAll(w.helpers, bp, held);
    assert w.table[i] in w.table && Known(bp);
    assert r == Done <==> |held| < 4;
    if r == Done {
      assert HoldsBag(v.helpers[0].manager, held + multiset{bp});
      assert |held + multiset{bp}| == |held| + 1;
      BagUpdate(w.table, i, Entry(bp, true));
      FlagFine(w.table, i, true);
      if w.table[i].enabled {
        Sizes(Bag(v.table), multiset{bp}, held, multiset{bp});
      } else {
        assert Bag(v.table) == held + multiset{bp};
      }
    }
  }

  lemma {:induction false} SyncOff(w: World, i: nat)
    requires Agree(w) && w.helpers != [] && i < |w.table|
    ensures var (v, r) := Sync(w, i, false);
            r == Done && Agree(v) <==> w.table[i].enabled
  {
    var bp, held := w.table[i].bp, Bag(w.table);
    var (v, r) := Sync(w, i, false);
    DropAll(w.helpers, bp, held);
    BagOnce(w.table, i);
    assert r == Done <==> w.table[i].enabled;
    if r == Done {
      BagUpdate(w.table, i, Entry(bp, false));
      FlagFine(w.table, i, false);
      Without(Bag(v.table), bp, held);
    }
  }

  /** Applying a changed flag on continuing succeeds and keeps the agreement if and only if the flag
      really flipped and, when it was set, a slot was free. */
  lemma {:induction false} SyncAgreesIff(w: World, i: nat, on: bool)
    requires Agree(w) && w.helpers != [] && i < |w.table|
    ensures var (v, r) := Sync(w, i, on);
            r == Done && Agree(v) <==> on != w.table[i].enabled && (on ==> |Bag(w.table)| < 4)
  {
    if on {
      SyncOn(w, i);
    } else {
      SyncOff(w, i);
    }
  }

  /** Enabling a breakpoint that is enabled breaks the agreement. */
  lemma {:induction false} EnabledTwice() returns (w: World)
    ensures Agree(w) && |w.table| == 1 && w.table[0].enabled && |w.helpers| == 1
    ensures var (v, r) := Sync(w, 0, true); !(r == Done && Agree(v))
  {
    var bp := HwBp(8, X, 1);
    FreshValid();
    AddOne(FRESH, bp, multiset{});
    w := World([Entry(bp, true)], [Helper(1, Install(FRESH, bp).0)]);
    assert w.table[1..] == [] && Bag(w.table) == multiset{bp};
    SyncAgreesIff(w, 0, true);
  }

  // --------------------------------------------------------------------------- threads come and go

  /** One more breakpoint fits as long as a slot is free. */
  ghost predicate Fits(install: HwBp -> Action) {
    forall m, bp, held :: HoldsBag(m, held) && |held| <= 4 && Known(bp) ==>
      && (install(bp)(m).1 == Done <==> |held| < 4)
      && (|held| < 4 ==> HoldsBag(install(bp)(m).0, held + multiset{bp}))
  }

  lemma {:induction false} AddingFits()
    ensures Fits(Adding)
  {
    forall m, bp, held | HoldsBag(m, held) && |held| <= 4 && Known(bp)
      ensures Adding(bp)(m).1 == Done <==> |held| < 4
      ensures |held| < 4 ==> HoldsBag(Adding(bp)(m).0, held + multiset{bp})
    {
      AddOne(m, bp, held);
    }
  }

  lemma {:induction false} InstallEachFits(m: Registers, table: seq<Entry>, k: nat, held: multiset<HwBp>,
                                           install: HwBp -> Action)
    requires k <= |table| && HoldsBag(m, held) && |held| <= 4 && Fits(install)
    requires forall e :: e in table ==> Known(e.bp)
    ensures var (n, r) := InstallEach(m, table, k, install);
            && (r == Done <==> |held| + |table| - k <= 4)
            && (r == Done ==> Valid(n) && |Held(n.slots)| == |held| + |table| - k)
    decreases |table| - k
  {
    if k < |table| {
      assert table[k] in table;
      var bp := table[k].bp;
      assert |held + multiset{bp}| == |held| + 1;
      if |held| < 4 {
        InstallEachFits(install(bp)(m).0, table, k + 1, held + multiset{bp}, install);
      }
    }
  }

  lemma {:induction false} InstallEachHolds(m: Registers, table: seq<Entry>, k: nat, held: multiset<HwBp>,
                                            install: HwBp -> Action)
    requires k <= |table| && HoldsBag(m, held) && |held| + |table| - k <= 4 && Fits(install)
    requires forall i :: 0 <= i < |table| ==> Known(table[i].bp) && table[i].enabled
    ensures HoldsBag(InstallEach(m, table, k, install).0, held + Bag(table[k..]))
    decreases |table| - k
  {
    if k < |table| {
      var bp := table[k].bp;
      assert |held + multiset{bp}| == |held| + 1;
      InstallEachHolds(install(bp)(m).0, table, k + 1, held + multiset{bp}, install);
      assert table[k..][1..] == table[k + 1..];
      assert (held + multiset{bp}) + Bag(table[k + 1..]) == held + (multiset{bp} + Bag(table[k + 1..]));
    }
  }

  /** A new thread gets every breakpoint of the table, also the disabled ones, so it joins without an
      error and in agreement if and only if none is disabled. */
  lemma {:induction false} BirthAgreesIff(w: World, tid: int)
    requires Agree(w)
    ensures var (v, r) := Birth(w, tid);
            r == Done && Agree(v) <==> forall i :: 0 <= i < |w.table| ==> w.table[i].enabled
  {
    var table := w.table;
    FreshValid();
    BagSize(table);
    AddingFits();
    InstallEachFits(FRESH, table, 0, multiset{}, Adding);
    if |Bag(table)| == |table| {
      forall i | 0 <= i < |table|
        ensures Known(table[i].bp)
      {
        assert table[i] in table;
      }
      InstallEachHolds(FRESH, table, 0, multiset{}, Adding);
      assert table[0..] == table && multiset{} + Bag(table) == Bag(table);
    }
    var (m, r) := InstallEach(FRESH, table, 0, Adding);
    JoinAgreesIff(w, Helper(tid, m));
  }

  lemma {:induction false} JoinAgreesIff(w: World, h: Helper)
    requires Agree(w)
    ensures Agree(w.(helpers := Store(w.helpers, h))) <==> HoldsBag(h.manager, Bag(w.table))
  {
    var i, hs := Place(w.helpers, h.tid), Store(w.helpers, h);
    assert hs[i] == h && forall j :: 0 <= j < |hs| && j != i ==> hs[j] == w.helpers[j];
    StoredHold(w.helpers, hs, i, Bag(w.table));
  }

  lemma {:induction false} StoredHold(was: seq<Helper>, hs: seq<Helper>, i: nat, held: multiset<HwBp>)
    requires AllHold(was, held) && i < |hs|
    requires forall j :: 0 <= j < |hs| && j != i ==> j < |was| && hs[j] == was[j]
    ensures AllHold(hs, held) <==> HoldsBag(hs[i].manager, held)
  {
  }

  /** A disabled breakpoint is installed in a new thread. */
  lemma {:induction false} DisabledAtBirth() returns (w: World)
    ensures Agree(w) && |w.table| == 1 && w.helpers == []
    ensures var (v, r) := Birth(w, 1); !(r == Done && Agree(v))
  {
    w := World([Entry(HwBp(8, X, 1), false)], []);
    assert w.table[1..] == [] && Bag(w.table) == multiset{};
    BirthAgreesIff(w, 1);
  }

  /** After a thread's exit the others still agree with the table. */
  lemma {:induction false} DeathAgrees(w: World, tid: int)
    requires Agree(w)
    ensures Agree(Death(w, tid))
  {
  }

  /** One manager for each thread. */
  ghost predicate Distinct(hs: seq<Helper>) {
    forall i, j :: 0 <= i < j < |hs| ==> hs[i].tid != hs[j].tid
  }

  lemma {:induction false} StoreKeepsDistinct(hs: seq<Helper>, h: Helper)
    requires Distinct(hs)
    ensures Distinct(Store(hs, h))
  {
    PlaceFinds(hs, h.tid);
    assert forall i :: 0 <= i < |hs| ==> hs[i] in hs;
  }

  /** It drops a manager of that thread and no other's. */
  lemma {:induction false} DeathDrops(w: World, tid: int, h: Helper)
    ensures h in Death(w, tid).helpers ==> h in w.helpers
    ensures h in w.helpers && h.tid != tid ==> h in Death(w, tid).helpers
  {
    var i := Place(w.helpers, tid);
    if i < |w.helpers| {
      Dropped(w.helpers, i, h);
    }
  }

  lemma {:induction false} Dropped(hs: seq<Helper>, i: nat, h: Helper)
    requires i < |hs|
    ensures var gs := hs[..i] + hs[i + 1..];
            (h in gs ==> h in hs) && (h in hs && h.tid != hs[i].tid ==> h in gs)
  {
    var gs := hs[..i] + hs[i + 1..];
    if j :| 0 <= j < |hs| && j != i && hs[j] == h {
      assert h == gs[if j < i then j else j - 1];
    }
  }

  lemma {:induction false} PlaceFinds(hs: seq<Helper>, tid: int)
    ensures Place(hs, tid) < |hs| <==> exists h :: h in hs && h.tid == tid
  {
    var i := Place(hs, tid);
    if i < |hs| {
      assert hs[i] in hs;
    }
  }

  // ------------------------------------------------------------------------------ back from gdb

  /** What a re-installation does to the books, and the slots whose registers it writes: the one that
      held the breakpoint, and the first empty one then. */
  function Reslot(slots: seq<Slot>, bp: HwBp): (r: (seq<Slot>, set<nat>))
    ensures |r.0| == |slots|
  {
    var i := FindSlot(slots, Holds(bp), 0);
    if i == |slots| then (slots, {})
    else
      var t := slots[i := Empty];
      var k := FindSlot(t, Empty, 0);
      if k == |t| then (slots, {}) else (t[k := Holds(bp)], {i, k})
  }

  /** The books after the first k breakpoints of the table, and the slots written by then. They depend
      on the books alone. */
  function Plan(slots: seq<Slot>, table: seq<Entry>, k: nat): (r: (seq<Slot>, set<nat>))
    requires k <= |table|
    ensures |r.0| == |slots|
  {
    if k == 0 then (slots, {})
    else
      var (t, written) := Plan(slots, table, k - 1);
      if !table[k - 1].enabled then (t, written)
      else (Reslot(t, table[k - 1].bp).0, written + Reslot(t, table[k - 1].bp).1)
  }

  lemma {:induction false} OnlySlot(slots: seq<Slot>, i: nat, bp: HwBp)
    requires i < |slots| && slots[i] == Holds(bp) && Held(slots)[bp] == 1
    ensures Holds(bp) !in slots[i := Empty]
  {
    HeldClear(slots, i, bp);
    HeldSlots(slots[i := Empty], bp);
    assert (Held(slots) - multiset{bp})[bp] == 0;
  }

  /** Slots in a set are described by the registers; the others hold and describe what they did. */
  ghost predicate Described(m: Registers, n: Registers, written: set<nat>) {
    forall j :: 0 <= j < 4 ==>
      if j in written then Decoded(n)[j] == n.slots[j]
      else n.slots[j] == m.slots[j] && Decoded(n)[j] == Decoded(m)[j]
  }

  /** The two writes of a re-installation. It succeeds also with all four slots held, whatever the
      registers held, and every slot it does not write keeps what it holds and describes. */
  lemma {:induction false} ReinstallEffect(m: Registers, bp: HwBp)
    requires Counted(m) && Known(bp) && Held(m.slots)[bp] == 1
    ensures var (n, r) := Reinstall(m, bp);
            && r == Done && Counted(n) && Held(n.slots) == Held(m.slots)
            && n.slots == Reslot(m.slots, bp).0 && Described(m, n, Reslot(m.slots, bp).1)
            && (forall j :: 0 <= j < 4 && n.slots[j] == Holds(bp) ==> j in Reslot(m.slots, bp).1)
  {
    var (a, r) := Remove(m, bp);
    HeldSlots(m.slots, bp);
    RemoveEffect(m, bp);
    var i := FindSlot(m.slots, Holds(bp), 0);
    RewriteKeeps(m, a, i, Empty);
    OnlySlot(m.slots, i, bp);
    HeldClear(m.slots, i, bp);
    assert a.slots[i] == Empty;
    InstallEffect(a, bp);
    var (n, q) := Install(a, bp);
    var k := FindSlot(a.slots, Empty, 0);
    RewriteKeeps(a, n, k, Holds(bp));
    HeldFill(a.slots, k, bp);
    assert Held(n.slots) == Held(m.slots) - multiset{bp} + multiset{bp};
    TwoWrites(m, a, n, i, k, bp);
  }

  lemma {:induction false} TwoWrites(m: Registers, a: Registers, n: Registers, i: nat, k: nat, bp: HwBp)
    requires i < 4 && k < 4 && Holds(bp) !in a.slots
    requires a.slots == m.slots[i := Empty] && n.slots == a.slots[k := Holds(bp)]
    requires Decoded(a) == Decoded(m)[i := Empty] && Decoded(n) == Decoded(a)[k := Holds(bp)]
    ensures Described(m, n, {i, k})
    ensures forall j :: 0 <= j < 4 && n.slots[j] == Holds(bp) ==> j == k
  {
    assert forall j :: 0 <= j < 4 ==> a.slots[j] != Holds(bp);
  }

  /** A manager during the re-installation, against how gdb left it: the slots written so far are
      described by the registers, those of the breakpoints re-installed among them. */
  ghost predicate Partly(left: Registers, m: Registers, table: seq<Entry>, k: nat) {
    && Counted(m) && Held(m.slots) == Bag(table) && k <= |table|
    && m.slots == Plan(left.slots, table, k).0 && Described(left, m, Plan(left.slots, table, k).1)
    && Rewritten(m.slots, table, k, Plan(left.slots, table, k).1)
  }

  /** The slots that hold one of the first k breakpoints have been written. */
  ghost predicate Rewritten(slots: seq<Slot>, table: seq<Entry>, k: nat, written: set<nat>)
    requires k <= |table| && |slots| == 4
  {
    forall i, j :: 0 <= i < 4 && 0 <= j < k && table[j].enabled && slots[i] == Holds(table[j].bp) ==> i in written
  }

  lemma {:induction false} DescribedTwice(left: Registers, m: Registers, n: Registers, written: set<nat>,
                                          more: set<nat>)
    requires Described(left, m, written) && Described(m, n, more)
    ensures Described(left, n, written + more)
  {
  }

  lemma {:induction false} RewrittenMore(m: Registers, n: Registers, table: seq<Entry>, k: nat, written: set<nat>,
                                         more: set<nat>)
    requires k < |table| && Rewritten(m.slots, table, k, written) && Described(m, n, more)
    requires forall j :: 0 <= j < 4 && n.slots[j] == Holds(table[k].bp) ==> j in more
    ensures Rewritten(n.slots, table, k + 1, written + more)
  {
  }

  lemma {:induction false} PartlyStep(left: Registers, m: Registers, table: seq<Entry>, k: nat)
    requires k < |table| && Partly(left, m, table, k) && table[k].enabled && Unique(table) && Known(table[k].bp)
    ensures var (n, r) := Reinstall(m, table[k].bp);
            r == Done && Partly(left, n, table, k + 1)
  {
    var bp := table[k].bp;
    BagOnce(table, k);
    ReinstallEffect(m, bp);
    var n := Reinstall(m, bp).0;
    var written, more := Plan(left.slots, table, k).1, Reslot(m.slots, bp).1;
    assert Plan(left.slots, table, k + 1) == (n.slots, written + more);
    DescribedTwice(left, m, n, written, more);
    RewrittenMore(m, n, table, k, written, more);
  }

  /** In the end every held slot has been written, so the registers are right if and only if no slot
      that is left alone is enabled. */
  lemma {:induction false} PartlyAllIff(left: Registers, m: Registers, table: seq<Entry>)
    requires Partly(left, m, table, |table|)
    ensures HoldsBag(m, Bag(table)) <==>
            forall j :: 0 <= j < 4 && j !in Plan(left.slots, table, |table|).1 ==> LocalAt(j) !in left.dr7
  {
    var written := Plan(left.slots, table, |table|).1;
    forall j | 0 <= j < 4 && j !in written
      ensures m.slots[j] == Empty && (Decoded(m)[j] == Empty <==> LocalAt(j) !in left.dr7)
    {
      if m.slots[j].Holds? {
        assert m.slots[j] in m.slots;
        HeldSlots(m.slots, m.slots[j].bp);
        BagMember(table, m.slots[j].bp);
        assert false;
      }
    }
    if forall j :: 0 <= j < 4 && j !in written ==> LocalAt(j) !in left.dr7 {
      assert forall j :: 0 <= j < 4 ==> Decoded(m)[j] == m.slots[j];
      assert Decoded(m) == m.slots;
    }
  }

  ghost predicate AllPartly(left: seq<Helper>, hs: seq<Helper>, table: seq<Entry>, k: nat) {
    |left| == |hs| && forall i :: 0 <= i < |hs| ==> Partly(left[i].manager, hs[i].manager, table, k)
  }

  lemma {:induction false} ReinstallRow(left: seq<Helper>, hs: seq<Helper>, table: seq<Entry>, k: nat)
    requires k < |table| && AllPartly(left, hs, table, k) && table[k].enabled && Unique(table) && Known(table[k].bp)
    ensures var (gs, r) := Each(hs, 0, Reinstalling(table[k].bp));
            r == Done && AllPartly(left, gs, table, k + 1) && forall i :: 0 <= i < |hs| ==> gs[i].tid == hs[i].tid
  {
    var f := Reinstalling(table[k].bp);
    forall i, m | 0 <= i < |left| && Partly(left[i].manager, m, table, k)
      ensures Partly(left[i].manager, f(m).0, table, k + 1) && f(m).1 == Done
    {
      PartlyStep(left[i].manager, m, table, k);
    }
    ActPartly(left, hs, table, k, f);
  }

  lemma {:induction false} ActPartly(left: seq<Helper>, hs: seq<Helper>, table: seq<Entry>, k: nat, f: Action)
    requires k < |table| && AllPartly(left, hs, table, k)
    requires forall i, m :: 0 <= i < |left| && Partly(left[i].manager, m, table, k) ==>
               Partly(left[i].manager, f(m).0, table, k + 1) && f(m).1 == Done
    ensures var (gs, r) := Each(hs, 0, f);
            r == Done && AllPartly(left, gs, table, k + 1) && forall i :: 0 <= i < |hs| ==> gs[i].tid == hs[i].tid
  {
    EachEffect(hs, 0, f, Done,
               (i: int, m: Registers) => 0 <= i < |left| && Partly(left[i].manager, m, table, k),
               (i: int, m: Registers) => 0 <= i < |left| && Partly(left[i].manager, m, table, k + 1));
  }

  lemma {:induction false} SkipPartly(left: seq<Helper>, hs: seq<Helper>, table: seq<Entry>, k: nat)
    requires k < |table| && AllPartly(left, hs, table, k) && !table[k].enabled
    ensures AllPartly(left, hs, table, k + 1)
  {
    forall i | 0 <= i < |hs|
      ensures Partly(left[i].manager, hs[i].manager, table, k + 1)
    {
      assert Plan(left[i].manager.slots, table, k + 1) == Plan(left[i].manager.slots, table, k);
    }
  }

  lemma {:induction false} ReinstallRows(left: seq<Helper>, hs: seq<Helper>, table: seq<Entry>, k: nat)
    requires k <= |table| && AllPartly(left, hs, table, k) && Unique(table)
    requires forall e :: e in table ==> Known(e.bp)
    ensures var (gs, r) := ReinstallEach(hs, table, k);
            r == Done && AllPartly(left, gs, table, |table|) && forall i :: 0 <= i < |hs| ==> gs[i].tid == hs[i].tid
    decreases |table| - k
  {
    if k < |table| {
      if !table[k].enabled {
        SkipPartly(left, hs, table, k);
        ReinstallRows(left, hs, table, k + 1);
      } else {
        assert table[k] in table;
        ReinstallRow(left, hs, table, k);
        ReinstallRows(left, Each(hs, 0, Reinstalling(table[k].bp)).0, table, k + 1);
      }
    }
  }

  /** Gdb uses the registers as it likes; the managers' own books are untouched. */
  ghost predicate LeftByGdb(hs: seq<Helper>, left: seq<Helper>) {
    && |left| == |hs|
    && forall i :: 0 <= i < |hs| ==>
         && left[i].tid == hs[i].tid && left[i].manager.slots == hs[i].manager.slots
         && left[i].manager.count == hs[i].manager.count
  }

  /** Gdb has left no slot enabled that the re-installation does not write. */
  ghost predicate SparesClear(left: seq<Helper>, table: seq<Entry>) {
    forall i, j :: 0 <= i < |left| && 0 <= j < 4 && j !in Plan(left[i].manager.slots, table, |table|).1 ==>
      LocalAt(j) !in left[i].manager.dr7
  }

  /** However gdb left the registers, re-installing succeeds, also with all four slots held; and the
      registers of every thread describe the table again if and only if gdb left no slot enabled that
      the re-installation does not write. */
  lemma {:induction false} GdbRestoresIff(w: World, left: seq<Helper>)
    requires Agree(w) && LeftByGdb(w.helpers, left)
    ensures var (gs, r) := ReinstallEach(left, w.table, 0);
            && r == Done && (Agree(w.(helpers := gs)) <==> SparesClear(left, w.table))
            && forall i :: 0 <= i < |gs| ==> gs[i].tid == w.helpers[i].tid
  {
    forall i | 0 <= i < |left|
      ensures Partly(left[i].manager, left[i].manager, w.table, 0)
    {
      assert HoldsBag(w.helpers[i].manager, Bag(w.table));
    }
    ReinstallRows(left, left, w.table, 0);
    var gs := ReinstallEach(left, w.table, 0).0;
    forall i | 0 <= i < |gs|
      ensures HoldsBag(gs[i].manager, Bag(w.table)) <==>
              forall j :: 0 <= j < 4 && j !in Plan(left[i].manager.slots, w.table, |w.table|).1 ==>
                LocalAt(j) !in left[i].manager.dr7
    {
      PartlyAllIff(left[i].manager, gs[i].manager, w.table);
    }
  }

  /** With no breakpoint in the table, a slot that gdb leaves enabled stays so. */
  lemma {:induction false} GdbLeavesOne() returns (w: World, left: seq<Helper>)
    ensures Agree(w) && LeftByGdb(w.helpers, left) && |left| == 1
    ensures !Agree(w.(helpers := ReinstallEach(left, w.table, 0).0))
  {
    FreshValid();
    w := World([], [Helper(1, FRESH)]);
    left := [Helper(1, FRESH.(dr7 := {LocalAt(0)}))];
    GdbRestoresIff(w, left);
    assert LocalAt(0) in left[0].manager.dr7;
  }

  /** In particular when it left no slot enabled that the managers take for empty. */
  lemma {:induction false} FreeSlotsClear(w: World, left: seq<Helper>)
    requires Agree(w) && LeftByGdb(w.helpers, left) && forall i :: 0 <= i < |left| ==> Booked(left[i].manager)
    ensures SparesClear(left, w.table)
  {
    forall i, j | 0 <= i < |left| && 0 <= j < 4 && j !in Plan(left[i].manager.slots, w.table, |w.table|).1
      ensures LocalAt(j) !in left[i].manager.dr7
    {
      assert HoldsBag(w.helpers[i].manager, Bag(w.table));
      FreeSlotClear(left[i].manager, w.table, j);
    }
  }

  lemma {:induction false} FreeSlotClear(m: Registers, table: seq<Entry>, j: nat)
    requires Booked(m) && Held(m.slots) == Bag(table) && TableFine(table)
    requires j < 4 && j !in Plan(m.slots, table, |table|).1
    ensures LocalAt(j) !in m.dr7
  {
    HeldAreWritten(m, table, j);
    assert Decode(m.dr[j], m.dr7, j) == Empty;
  }

  /** A held slot is written by the re-installation. */
  lemma {:induction false} HeldAreWritten(m: Registers, table: seq<Entry>, j: nat)
    requires Counted(m) && Held(m.slots) == Bag(table) && Unique(table) && (forall e :: e in table ==> Known(e.bp))
    requires j < 4 && j !in Plan(m.slots, table, |table|).1
    ensures m.slots[j] == Empty
  {
    var hs := [Helper(0, m)];
    assert Partly(m, m, table, 0);
    ReinstallRows(hs, hs, table, 0);
    var n := ReinstallEach(hs, table, 0).0[0].manager;
    assert Partly(m, n, table, |table|);
    if n.slots[j].Holds? {
      assert n.slots[j] in n.slots;
      HeldSlots(n.slots, n.slots[j].bp);
      BagMember(table, n.slots[j].bp);
      assert false;
    }
  }

  // ----------------------------------------------------------------------------------- whole runs

  datatype Event =
    | Setting(bp: HwBp)
    | Unsetting(i: nat)
    | Syncing(i: nat, on: bool)
    | Starting(tid: int)
    | Exiting(tid: int)
    | GdbBack(left: seq<Helper>)

  /** What the caller and the system must respect: addresses in use are not set again, a flag applied
      has flipped and finds a slot, no breakpoint is disabled when a thread starts, one thread is
      left, and gdb leaves no spare slot enabled. */
  ghost predicate Legal(w: World, e: Event) {
    match e
    case Setting(bp) => w.helpers != [] && !Taken(w.table, bp.address)
    case Unsetting(i) => w.helpers != [] && i < |w.table|
    case Syncing(i, on) =>
      w.helpers != [] && i < |w.table| && on != w.table[i].enabled && (on ==> |Bag(w.table)| < 4)
    case Starting(_) => forall i :: 0 <= i < |w.table| ==> w.table[i].enabled
    case Exiting(_) => true
    case GdbBack(left) => LeftByGdb(w.helpers, left) && SparesClear(left, w.table)
  }

  ghost function After(w: World, e: Event): World
    requires Legal(w, e)
  {
    match e
    case Setting(bp) => Set(w, bp).0
    case Unsetting(i) => Unset(w, i).0
    case Syncing(i, on) => Sync(w, i, on).0
    case Starting(tid) => Birth(w, tid).0
    case Exiting(tid) => Death(w, tid)
    case GdbBack(left) => w.(helpers := ReinstallEach(left, w.table, 0).0)
  }

  lemma {:induction false} EventAgrees(w: World, e: Event)
    requires Agree(w) && Legal(w, e)
    ensures Agree(After(w, e))
  {
    match e
    case Setting(bp) => SetAgreesIff(w, bp);
    case Unsetting(i) => UnsetAgrees(w, i);
    case Syncing(i, on) => SyncAgreesIff(w, i, on);
    case Starting(tid) => BirthAgreesIff(w, tid);
    case Exiting(tid) => DeathAgrees(w, tid);
    case GdbBack(left) => GdbRestoresIff(w, left);
  }

  ghost predicate LegalRun(w: World, es: seq<Event>)
    decreases |es|
  {
    es == [] || (Legal(w, es[0]) && LegalRun(After(w, es[0]), es[1..]))
  }

  ghost function RunAll(w: World, es: seq<Event>): World
    requires LegalRun(w, es)
    decreases |es|
  {
    if es == [] then w else RunAll(After(w, es[0]), es[1..])
  }

  lemma {:induction false} EachKeepsThreads(hs: seq<Helper>, k: nat, f: Action)
    requires k <= |hs|
    ensures forall i :: 0 <= i < |hs| ==> Each(hs, k, f).0[i].tid == hs[i].tid
    decreases |hs| - k
  {
    if k < |hs| {
      var (m, res) := f(hs[k].manager);
      var next := hs[k := Helper(hs[k].tid, m)];
      if res == Done {
        EachKeepsThreads(next, k + 1, f);
      }
    }
  }

  lemma {:induction false} EventKeepsDistinct(w: World, e: Event)
    requires Agree(w) && Legal(w, e) && Distinct(w.helpers)
    ensures Distinct(After(w, e).helpers)
  {
    match e
    case Setting(bp) => EachKeepsThreads(w.helpers, 0, Adding(bp));
    case Unsetting(i) => EachKeepsThreads(w.helpers, 0, Dropping(w.table[i].bp));
    case Syncing(i, on) =>
      EachKeepsThreads(w.helpers, 0, if on then Adding(w.table[i].bp) else Dropping(w.table[i].bp));
    case Starting(tid) =>
      StoreKeepsDistinct(w.helpers, Helper(tid, InstallEach(FRESH, w.table, 0, Adding).0));
    case Exiting(tid) =>
    case GdbBack(left) => GdbRestoresIff(w, left);
  }

  /** No thread ever has two managers, however numbers are reused. */
  lemma {:induction false} OneManagerEach(w: World, es: seq<Event>)
    requires Agree(w) && LegalRun(w, es) && Distinct(w.helpers)
    ensures Distinct(RunAll(w, es).helpers)
    decreases |es|
  {
    if es != [] {
      EventAgrees(w, es[0]);
      EventKeepsDistinct(w, es[0]);
      OneManagerEach(After(w, es[0]), es[1..]);
    }
  }

  /** Over every legal run, each live thread's registers describe exactly the enabled hardware
      breakpoints of the table, so any two threads describe the same ones. */
  lemma {:induction false} ThreadsAgree(w: World, es: seq<Event>)
    requires Agree(w) && LegalRun(w, es)
    ensures var v := RunAll(w, es);
            && Agree(v)
            && forall i :: 0 <= i < |v.helpers| ==> Held(Decoded(v.helpers[i].manager)) == Bag(v.table)
    decreases |es|
  {
    if es == [] {
      forall i | 0 <= i < |w.helpers|
        ensures Held(Decoded(w.helpers[i].manager)) == Bag(w.table)
      {
        assert HoldsBag(w.helpers[i].manager, Bag(w.table));
      }
    } else {
      EventAgrees(w, es[0]);
      ThreadsAgree(After(w, es[0]), es[1..]);
    }
  }

  // -------------------------------------------------------------- the interface as the program has it

  class HardwareInterface {
    var table: seq<Entry>
    var helpers: seq<Helper>

    function State(): World
      reads this
    {
      World(table, helpers)
    }

    /** One action on each manager in turn; an error leaves the loop. */
    method ForEachHelper(f: Action) returns (r: Result)
      modifies this`helpers
      ensures (helpers, r) == Each(old(helpers), 0, f)
    {
      var k := 0;
      while k < |helpers|
        invariant k <= |helpers| && Each(helpers, k, f) == Each(old(helpers), 0, f)
        decreases |helpers| - k
      {
        var (m, res) := f(helpers[k].manager);
        helpers := helpers[k := Helper(helpers[k].tid, m)];
        if res != Done {
          return res;
        }
        k := k + 1;
      }
      r := Done;
    }

    method SetBreakpoint(bp: HwBp) returns (r: Result)
      requires Agree(State()) && helpers != []
      modifies this
      ensures (State(), r) == Set(old(State()), bp)
      ensures r == NoSlots ==> State() == old(State())
      ensures Agree(State()) <==> r != Done || !Taken(old(table), bp.address)
    {
      SetAgreesIff(State(), bp);
      r := ForEachHelper(Adding(bp));
      if r == Done {
        table := Put(table, bp);
      }
    }

    method UnsetBreakpoint(i: nat) returns (r: Result)
      requires Agree(State()) && helpers != [] && i < |table|
      modifies this
      ensures (State(), r) == Unset(old(State()), i)
      ensures Agree(State())
    {
      UnsetAgrees(State(), i);
      r := ForEachHelper(Dropping(table[i].bp));
      if r == Done {
        table := table[..i] + table[i + 1..];
      }
    }

    /** The whole table installed in the manager of a new thread. */
    method InstallTable() returns (m: Registers, r: Result)
      ensures (m, r) == InstallEach(FRESH, table, 0, Adding)
    {
      var k := 0;
      m, r := FRESH, Done;
      while k < |table|
        invariant k <= |table| && InstallEach(m, table, k, Adding) == InstallEach(FRESH, table, 0, Adding)
      {
        var (n, res) := Install(m, table[k].bp);
        if res != Done {
          return n, res;
        }
        m, k := n, k + 1;
      }
    }

    method RegisterNewThread(tid: int) returns (r: Result)
      requires Agree(State())
      modifies this`helpers
      ensures (State(), r) == Birth(old(State()), tid)
      ensures r == Done && Agree(State()) <==> forall i :: 0 <= i < |table| ==> table[i].enabled
    {
      BirthAgreesIff(State(), tid);
      var m: Registers;
      m, r := InstallTable();
      helpers := Store(helpers, Helper(tid, m));
    }

    /** Drops the manager of a thread; a thread without one is an error. */
    method UnregisterThread(tid: int) returns (ok: bool)
      requires Agree(State())
      modifies this`helpers
      ensures State() == Death(old(State()), tid) && Agree(State())
      ensures ok <==> exists h :: h in old(helpers) && h.tid == tid
    {
      DeathAgrees(State(), tid);
      PlaceFinds(helpers, tid);
      var i := Place(helpers, tid);
      if i == |helpers| {
        return false;
      }
      helpers := helpers[..i] + helpers[i + 1..];
      ok := true;
    }

    /** Back from gdb, which used the registers of the threads in the meantime. */
    method MigrateFromGdb(ghost before: seq<Helper>) returns (r: Result)
      requires Agree(World(table, before)) && LeftByGdb(before, helpers)
      modifies this`helpers
      ensures r == Done && (Agree(State()) <==> SparesClear(old(helpers), table))
      ensures helpers == ReinstallEach(old(helpers), table, 0).0
    {
      GdbRestoresIff(World(table, before), helpers);
      var k := 0;
      r := Done;
      while k < |table|
        invariant k <= |table| && r == Done
        invariant ReinstallEach(helpers, table, k) == ReinstallEach(old(helpers), table, 0)
      {
        if table[k].enabled {
          r := ForEachHelper(Reinstalling(table[k].bp));
          if r != Done {
            return;
          }
        }
        k := k + 1;
      }
    }
  }
}
