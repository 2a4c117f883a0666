/** The two breakpoint layers: the table of the Python layer, where the user sets, toggles and
    deletes, and the list of the C layer, which is brought up to date when the process continues. */
module TwoLayers {
  import opened Words
  import opened SoftwareBreakpoints
  import opened Searches

  datatype Row = Row(addr: nat, hardware: bool, enabled: bool, changed: bool)

  datatype World = World(table: seq<Row>, c: State)

  // ----------------------------------------------------------------------------- the operations

  /** The row of an address; the table's length if there is none. */
  function RowOf(table: seq<Row>, a: nat): (i: nat)
    ensures i <= |table|
    ensures i < |table| ==> table[i].addr == a
    ensures forall j :: 0 <= j < i ==> table[j].addr != a
  {
    First(table, (r: Row) => r.addr == a, 0)
  }

  /** Storing a breakpoint replaces the one with the same address. */
  function Put(table: seq<Row>, r: Row): seq<Row> {
    var i := RowOf(table, r.addr);
    if i < |table| then table[i := r] else table + [r]
  }

  /** Setting a breakpoint; hardware ones do not reach the list, and if a manager refuses one, an
      exception keeps it out of the table too. */
  function SetAt(w: World, a: nat, hardware: bool, refused: bool): World
    requires Mapped(w.c.bps, |w.c.mem|) && (!hardware ==> a + 8 <= |w.c.mem|)
  {
    if hardware && refused then w
    else World(Put(w.table, Row(a, hardware, true, false)), if hardware then w.c else RegisterAt(w.c, a))
  }

  /** `enable` and `disable` only mark the table. */
  function Toggle(w: World, i: nat, on: bool): World
    requires i < |w.table|
  {
    w.(table := w.table[i := w.table[i].(enabled := on, changed := true)])
  }

  /** Deleting a breakpoint; a hardware one that a manager refuses to remove stays in the table. */
  function DeleteAt(w: World, i: nat, refused: bool): World
    requires i < |w.table| && Mapped(w.c.bps, |w.c.mem|)
  {
    if w.table[i].hardware && refused then w
    else World(w.table[..i] + w.table[i + 1..], if w.table[i].hardware then w.c else UnregisterAt(w.c, w.table[i].addr))
  }

  /** `finish` with a breakpoint already at the return address: if it is disabled, the C layer is
      told to enable it and the table is not. */
  function FinishAt(w: World, i: nat): World
    requires i < |w.table| && Mapped(w.c.bps, |w.c.mem|)
  {
    if w.table[i].enabled then w else w.(c := ToggleAt(w.c, w.table[i].addr, true))
  }

  /** The changed rows among the first k. */
  function Pending(table: seq<Row>, k: nat): (p: seq<Row>)
    requires k <= |table|
  {
    if k == 0 then []
    else Pending(table, k - 1) + (if table[k - 1].changed then [table[k - 1]] else [])
  }

  function Cleared(table: seq<Row>): (t: seq<Row>)
    ensures |t| == |table|
  {
    seq(|table|, i requires 0 <= i < |table| => table[i].(changed := false))
  }

  /** The C state after the first n pending flags have been applied. */
  function Applied(c: State, pending: seq<Row>, n: nat): (d: State)
    requires n <= |pending| && Mapped(c.bps, |c.mem|)
    ensures Mapped(d.bps, |d.mem|)
  {
    if n == 0 then c
    else
      var d := Applied(c, pending, n - 1);
      var r := pending[n - 1];
      if r.hardware then d else ToggleAt(d, r.addr, r.enabled)
  }

  /** The first pending hardware breakpoint that its managers refuse to change, from a position on. */
  function FirstRefused(pending: seq<Row>, refused: set<nat>, from: nat): (i: nat)
    requires from <= |pending|
    ensures from <= i <= |pending|
  {
    First(pending, (r: Row) => r.hardware && r.addr in refused, from)
  }

  /** How many pending flags `cont` applies: the marks are cleared first, then a refusal raises. */
  function Reached(w: World, refused: set<nat>): (n: nat)
    ensures n <= |Pending(w.table, |w.table|)|
  {
    FirstRefused(Pending(w.table, |w.table|), refused, 0)
  }

  /** The two layers when `cont` has applied the flags, just before it resumes the threads. */
  function Synced(w: World, refused: set<nat>): World
    requires Mapped(w.c.bps, |w.c.mem|)
  {
    World(Cleared(w.table), Applied(w.c, Pending(w.table, |w.table|), Reached(w, refused)))
  }

  // ------------------------------------------------------------------------------- the invariant

  predicate Software(table: seq<Row>, a: int) {
    exists i :: 0 <= i < |table| && table[i].addr == a && !table[i].hardware
  }

  predicate SoftwareEnabled(table: seq<Row>, a: int) {
    exists i :: 0 <= i < |table| && table[i].addr == a && !table[i].hardware && table[i].enabled
  }

  ghost predicate Unique(table: seq<Row>) {
    forall i, j :: 0 <= i < j < |table| ==> table[i].addr != table[j].addr
  }

  /** Same addresses in both layers, and same flags wherever no change is pending. */
  ghost predicate Linked(w: World) {
    && Unique(w.table)
    && Sorted(w.c.bps) && Mapped(w.c.bps, |w.c.mem|)
    && (forall a :: Listed(w.c.bps, a) <==> Software(w.table, a))
    && FlagsOk(w.table, w.c.bps)
  }

  ghost predicate FlagsOk(table: seq<Row>, bps: seq<Node>) {
    forall i :: 0 <= i < |table| && !table[i].hardware && !table[i].changed ==>
      (Armed(bps, table[i].addr) <==> table[i].enabled)
  }

  /** The list is the table's software breakpoints: same addresses, same flags. */
  ghost predicate Agreed(w: World) {
    forall a :: && (Listed(w.c.bps, a) <==> Software(w.table, a))
                && (Armed(w.c.bps, a) <==> SoftwareEnabled(w.table, a))
  }

  // ---------------------------------------------------------------------------- the C operations

  lemma {:induction false} RegisterMembers(s: State, a: nat)
    requires Sorted(s.bps) && Mapped(s.bps, |s.mem|) && a + 8 <= |s.mem|
    ensures var q := RegisterAt(s, a).bps;
            Sorted(q) && forall x :: (Listed(q, x) <==> x == a || Listed(s.bps, x))
                                     && (Armed(q, x) <==> x == a || Armed(s.bps, x))
  {
    var i := Find(s.bps, a, 0);
    var word := Peek(s.mem, a);
    var b := Node(a, word, Trapped(word), true);
    if i < |s.bps| {
      ToggleMembers(s.bps, i, true, 0);
      forall x
        ensures var q := RegisterAt(s, a).bps;
                (Listed(q, x) <==> x == a || Listed(s.bps, x)) && (Armed(q, x) <==> x == a || Armed(s.bps, x))
      {
        ToggleMembers(s.bps, i, true, x);
      }
    } else {
      InsertKeepsOrder(s.bps, b);
      forall x
        ensures var q := RegisterAt(s, a).bps;
                (Listed(q, x) <==> x == a || Listed(s.bps, x)) && (Armed(q, x) <==> x == a || Armed(s.bps, x))
      {
        InsertMembers(s.bps, b, x);
      }
    }
  }

  lemma {:induction false} UnregisterMembers(s: State, a: nat)
    requires Sorted(s.bps) && Mapped(s.bps, |s.mem|)
    ensures var q := UnregisterAt(s, a).bps;
            Sorted(q) && forall x :: (Listed(q, x) <==> x != a && Listed(s.bps, x))
                                     && (Armed(q, x) <==> x != a && Armed(s.bps, x))
  {
    var i := Find(s.bps, a, 0);
    if i < |s.bps| {
      forall x
        ensures var q := UnregisterAt(s, a).bps;
                && Sorted(q) && (Listed(q, x) <==> x != a && Listed(s.bps, x))
                && (Armed(q, x) <==> x != a && Armed(s.bps, x))
      {
        RemoveMembers(s.bps, i, x);
      }
      RemoveMembers(s.bps, i, 0);
    }
  }

  lemma {:induction false} ToggleMembersAt(s: State, a: nat, on: bool)
    requires Sorted(s.bps) && Mapped(s.bps, |s.mem|)
    ensures var q := ToggleAt(s, a, on).bps;
            Sorted(q) && forall x :: (Listed(q, x) <==> Listed(s.bps, x))
                                     && (Armed(q, x) <==> if x == a && Listed(s.bps, a) then on else Armed(s.bps, x))
  {
    var i := Find(s.bps, a, 0);
    if i < |s.bps| {
      ToggleMembers(s.bps, i, on, 0);
      forall x
        ensures var q := ToggleAt(s, a, on).bps;
                && (Listed(q, x) <==> Listed(s.bps, x))
                && (Armed(q, x) <==> if x == a && Listed(s.bps, a) then on else Armed(s.bps, x))
      {
        ToggleMembers(s.bps, i, on, x);
      }
    }
  }

  // --------------------------------------------------------------------------- applying the flags

  lemma {:induction false} PendingRows(table: seq<Row>, k: nat)
    requires k <= |table| && Unique(table)
    ensures var p := Pending(table, k);
            && Unique(p)
            && (forall i :: 0 <= i < k && table[i].changed ==> table[i] in p)
            && (forall r :: r in p ==> exists i :: 0 <= i < k && table[i] == r && r.changed)
  {
    if k > 0 {
      PendingRows(table, k - 1);
      var q, p := Pending(table, k - 1), Pending(table, k);
      if table[k - 1].changed {
        assert p[|q|] == table[k - 1];
        forall j | 0 <= j < |q|
          ensures p[j].addr != table[k - 1].addr
        {
          assert p[j] == q[j] && q[j] in q;
        }
        forall r | r in p
          ensures exists i :: 0 <= i < k && table[i] == r && r.changed
        {
          if r !in q {
            assert r == table[k - 1];
          }
        }
      }
    }
  }

  predicate Touched(p: seq<Row>, n: nat, x: int)
    requires n <= |p|
  {
    exists j :: 0 <= j < n && p[j].addr == x && !p[j].hardware
  }

  /** Applied flags are in the list; every other flag is as it was, and so are the addresses. */
  ghost predicate FlagsApplied(was: seq<Node>, q: seq<Node>, p: seq<Row>, n: nat)
    requires n <= |p|
  {
    && (forall x :: Listed(q, x) <==> Listed(was, x))
    && (forall j :: 0 <= j < n && !p[j].hardware && Listed(was, p[j].addr) ==>
          (Armed(q, p[j].addr) <==> p[j].enabled))
    && (forall x :: !Touched(p, n, x) ==> (Armed(q, x) <==> Armed(was, x)))
  }

  lemma {:induction false} OneMoreFlag(was: seq<Node>, q: seq<Node>, t: seq<Node>, p: seq<Row>, n: nat)
    requires n < |p| && Unique(p) && FlagsApplied(was, q, p, n)
    requires forall x :: Listed(t, x) <==> Listed(q, x)
    requires forall x :: Armed(t, x) <==>
                         if x == p[n].addr && Listed(q, p[n].addr) then p[n].enabled else Armed(q, x)
    requires !p[n].hardware
    ensures FlagsApplied(was, t, p, n + 1)
  {
  }

  lemma {:induction false} HardwareSkipped(was: seq<Node>, q: seq<Node>, p: seq<Row>, n: nat)
    requires n < |p| && FlagsApplied(was, q, p, n) && p[n].hardware
    ensures FlagsApplied(was, q, p, n + 1)
  {
  }

  ghost predicate AppliedWell(c: State, p: seq<Row>, n: nat)
    requires n <= |p| && Mapped(c.bps, |c.mem|)
  {
    Sorted(Applied(c, p, n).bps) && FlagsApplied(c.bps, Applied(c, p, n).bps, p, n)
  }

  lemma {:induction false} AppliedEffect(c: State, p: seq<Row>, n: nat)
    requires n <= |p| && Unique(p) && Sorted(c.bps) && Mapped(c.bps, |c.mem|)
    ensures AppliedWell(c, p, n)
  {
    if n == 0 {
      NoFlagApplied(c.bps, p);
    } else {
      AppliedEffect(c, p, n - 1);
      AppliedNext(c, p, n - 1);
    }
  }

  lemma {:induction false} NoFlagApplied(bps: seq<Node>, p: seq<Row>)
    ensures FlagsApplied(bps, bps, p, 0)
  {
  }

  lemma {:induction false} AppliedNext(c: State, p: seq<Row>, n: nat)
    requires n < |p| && Unique(p) && Mapped(c.bps, |c.mem|) && AppliedWell(c, p, n)
    ensures AppliedWell(c, p, n + 1)
  {
    AppliedMore(c.bps, Applied(c, p, n), p, n, Applied(c, p, n + 1).bps);
  }

  lemma {:induction false} AppliedMore(was: seq<Node>, d: State, p: seq<Row>, n: nat, q: seq<Node>)
    requires n < |p| && Unique(p) && Sorted(d.bps) && Mapped(d.bps, |d.mem|) && FlagsApplied(was, d.bps, p, n)
    requires q == if p[n].hardware then d.bps else ToggleAt(d, p[n].addr, p[n].enabled).bps
    ensures Sorted(q) && FlagsApplied(was, q, p, n + 1)
  {
    if p[n].hardware {
      HardwareSkipped(was, d.bps, p, n);
    } else {
      ToggleMembersAt(d, p[n].addr, p[n].enabled);
      OneMoreFlag(was, d.bps, q, p, n);
    }
  }

  /** `cont` gets through all the flags if and only if no change of a hardware breakpoint is refused; otherwise
      it stops at such a one. */
  lemma {:induction false} ReachedAllIff(w: World, refused: set<nat>)
    requires Unique(w.table)
    ensures var p, n := Pending(w.table, |w.table|), Reached(w, refused);
            && (n < |p| ==> p[n].hardware && p[n].addr in refused)
            && (n == |p| <==> forall i :: 0 <= i < |w.table| && w.table[i].changed && w.table[i].hardware ==>
                  w.table[i].addr !in refused)
  {
    PendingRows(w.table, |w.table|);
    var p, n := Pending(w.table, |w.table|), Reached(w, refused);
    if n < |p| {
      assert p[n] in p;
    }
  }

  /** After a `cont` the layers are linked if and only if each flag it did not reach was already the
      list's. When nothing is refused it reaches all of them, and the layers agree. */
  lemma {:induction false} ContLinksIff(w: World, refused: set<nat>)
    requires Linked(w)
    ensures var p, n := Pending(w.table, |w.table|), Reached(w, refused);
            && (Linked(Synced(w, refused)) <==> RestFine(w, p, n))
            && (n == |p| ==> Agreed(Synced(w, refused)))
  {
    var p, n := Pending(w.table, |w.table|), Reached(w, refused);
    var v := Synced(w, refused);
    PendingRows(w.table, |w.table|);
    PendingListed(w, p);
    AppliedEffect(w.c, p, n);
    ClearedKeeps(w.table);
    AppliedReflects(w, p, n);
    if RestFine(w, p, n) {
      RestFineFlags(w, v.c.bps, p, n);
    }
    if FlagsOk(v.table, v.c.bps) {
      FlagsRestFine(w, v.c.bps, p, n);
    }
  }

  /** A disabling that comes after a refused hardware change is lost. */
  lemma {:induction false} RefusedChangeUnlinks() returns (w: World)
    ensures Linked(w) && !Linked(Synced(w, {0}))
  {
    var word := seq(8, _ => 0x90 as Byte);
    var node := Node(8, word, Trapped(word), true);
    var hard, soft := Row(0, true, false, true), Row(8, false, false, true);
    w := World([hard, soft], State(seq(16, _ => 0x90 as Byte), [node]));
    assert w.table[1] == soft && w.c.bps[0] == node;
    assert forall a :: Listed(w.c.bps, a) <==> a == 8;
    assert Linked(w);
    var p := Pending(w.table, 2);
    assert Pending(w.table, 1) == [hard] && p == [hard, soft];
    assert Reached(w, {0}) == 0 && p[1] == soft && Armed(w.c.bps, 8);
    ContLinksIff(w, {0});
  }

  lemma {:induction false} AppliedReflects(w: World, p: seq<Row>, n: nat)
    requires Linked(w) && p == Pending(w.table, |w.table|) && n <= |p|
    ensures Reflected(w, Applied(w.c, p, n).bps, p, n)
  {
    PendingRows(w.table, |w.table|);
    PendingListed(w, p);
    AppliedEffect(w.c, p, n);
    forall i | 0 <= i < |w.table| && !w.table[i].hardware
      ensures Armed(Applied(w.c, p, n).bps, w.table[i].addr) <==>
              if Touched(p, n, w.table[i].addr) then w.table[i].enabled else Armed(w.c.bps, w.table[i].addr)
    {
      TouchedRow(w.table, p, n, i);
    }
  }

  lemma {:induction false} PendingListed(w: World, p: seq<Row>)
    requires Linked(w) && p == Pending(w.table, |w.table|)
    ensures forall j :: 0 <= j < |p| && !p[j].hardware ==> Listed(w.c.bps, p[j].addr)
  {
    PendingRows(w.table, |w.table|);
    forall j | 0 <= j < |p| && !p[j].hardware
      ensures Listed(w.c.bps, p[j].addr)
    {
      assert p[j] in p;
      assert Software(w.table, p[j].addr);
    }
  }

  lemma {:induction false} ClearedKeeps(table: seq<Row>)
    requires Unique(table)
    ensures Unique(Cleared(table))
    ensures forall x :: Software(Cleared(table), x) <==> Software(table, x)
    ensures forall x :: SoftwareEnabled(Cleared(table), x) <==> SoftwareEnabled(table, x)
  {
    var t := Cleared(table);
    forall i | 0 <= i < |table|
      ensures t[i] == table[i].(changed := false)
    {
    }
  }

  lemma {:induction false} TouchedRow(table: seq<Row>, p: seq<Row>, n: nat, i: nat)
    requires Unique(table) && p == Pending(table, |table|) && n <= |p| && i < |table|
    ensures Touched(p, n, table[i].addr) ==> exists j :: 0 <= j < n && p[j] == table[i]
  {
    PendingRows(table, |table|);
    if j :| 0 <= j < n && p[j].addr == table[i].addr && !p[j].hardware {
      assert p[j] in p;
    }
  }

  /** What a row's flag is in the list after the applied ones: its own, or the old one. */
  ghost predicate Reflected(w: World, bps: seq<Node>, p: seq<Row>, n: nat)
    requires n <= |p|
  {
    forall i :: 0 <= i < |w.table| && !w.table[i].hardware ==>
      (Armed(bps, w.table[i].addr) <==>
       if Touched(p, n, w.table[i].addr) then w.table[i].enabled else Armed(w.c.bps, w.table[i].addr))
  }

  /** Every flag not reached is already the list's. */
  ghost predicate RestFine(w: World, p: seq<Row>, n: nat) {
    forall j :: n <= j < |p| && !p[j].hardware ==> (Armed(w.c.bps, p[j].addr) <==> p[j].enabled)
  }

  lemma {:induction false} RestFineFlags(w: World, bps: seq<Node>, p: seq<Row>, n: nat)
    requires Linked(w) && p == Pending(w.table, |w.table|) && n <= |p| && Reflected(w, bps, p, n)
    requires RestFine(w, p, n)
    ensures FlagsOk(Cleared(w.table), bps)
  {
    PendingRows(w.table, |w.table|);
    forall i | 0 <= i < |w.table| && !w.table[i].hardware
      ensures Armed(bps, w.table[i].addr) <==> w.table[i].enabled
    {
      if w.table[i].changed {
        var j :| 0 <= j < |p| && p[j] == w.table[i];
        assert j < n ==> Touched(p, n, w.table[i].addr);
      }
    }
  }

  lemma {:induction false} FlagsRestFine(w: World, bps: seq<Node>, p: seq<Row>, n: nat)
    requires Linked(w) && p == Pending(w.table, |w.table|) && n <= |p| && Reflected(w, bps, p, n)
    requires FlagsOk(Cleared(w.table), bps)
    ensures RestFine(w, p, n)
  {
    PendingRows(w.table, |w.table|);
    var t := Cleared(w.table);
    forall j | n <= j < |p| && !p[j].hardware
      ensures Armed(w.c.bps, p[j].addr) <==> p[j].enabled
    {
      assert p[j] in p;
      var i :| 0 <= i < |w.table| && w.table[i] == p[j];
      assert t[i] == w.table[i].(changed := false);
      assert !Touched(p, n, p[j].addr);
    }
  }

  // ---------------------------------------------------------------------------- the other events

  lemma {:induction false} PutRows(table: seq<Row>, r: Row)
    requires Unique(table)
    ensures var t := Put(table, r);
            && Unique(t)
            && (forall x :: Software(t, x) <==> if x == r.addr then !r.hardware else Software(table, x))
            && (forall i :: 0 <= i < |t| && t[i].addr != r.addr ==> t[i] in table)
            && (forall i :: 0 <= i < |t| && t[i].addr == r.addr ==> t[i] == r)
  {
    var i, t := RowOf(table, r.addr), Put(table, r);
    assert t[i] == r;
    forall j | 0 <= j < |table| && j != i
      ensures t[j] == table[j] && table[j].addr != r.addr
    {
    }
  }

  /** Setting a breakpoint, also again at the same address, keeps the layers linked if and only if
      it does not put a hardware breakpoint over a software one; a refused one changes nothing. */
  lemma {:induction false} SetLinksIff(w: World, a: nat, hardware: bool, refused: bool)
    requires Linked(w) && (!hardware ==> a + 8 <= |w.c.mem|)
    ensures Linked(SetAt(w, a, hardware, refused)) <==> !(hardware && !refused && Software(w.table, a))
  {
    var r := Row(a, hardware, true, false);
    PutRows(w.table, r);
    var t := Put(w.table, r);
    if !hardware {
      RegisterMembers(w.c, a);
    } else if !Software(w.table, a) {
    } else {
      assert Listed(w.c.bps, a) && !Software(t, a);
    }
  }

  /** Toggling sets one row's flag and marks the row; every other row and the C layer stay. */
  lemma {:induction false} ToggleEffect(w: World, i: nat, on: bool)
    requires i < |w.table|
    ensures var v := Toggle(w, i, on);
            && v.c == w.c && |v.table| == |w.table|
            && v.table[i].enabled == on && v.table[i].changed
            && v.table[i].addr == w.table[i].addr && v.table[i].hardware == w.table[i].hardware
            && forall j :: 0 <= j < |w.table| && j != i ==> v.table[j] == w.table[j]
  {
  }

  lemma {:induction false} ToggleLinks(w: World, i: nat, on: bool)
    requires Linked(w) && i < |w.table|
    ensures Linked(Toggle(w, i, on))
  {
    var t := Toggle(w, i, on).table;
    assert forall j :: 0 <= j < |t| ==> t[j].addr == w.table[j].addr && t[j].hardware == w.table[j].hardware;
    forall x
      ensures Software(t, x) <==> Software(w.table, x)
    {
      if j :| 0 <= j < |w.table| && w.table[j].addr == x && !w.table[j].hardware {
        assert t[j].addr == x && !t[j].hardware;
      }
    }
  }

  lemma {:induction false} DeletedRows(table: seq<Row>, i: nat)
    requires Unique(table) && i < |table|
    ensures var t := table[..i] + table[i + 1..];
            && Unique(t)
            && (forall x :: Software(t, x) <==> x != table[i].addr && Software(table, x))
            && (forall j :: 0 <= j < |t| ==> t[j] in table && t[j].addr != table[i].addr)
  {
    var t := table[..i] + table[i + 1..];
    forall j | 0 <= j < |t|
      ensures t[j] == table[if j < i then j else j + 1]
    {
    }
    forall j | 0 <= j < |table| && j != i
      ensures table[j] == t[if j < i then j else j - 1]
    {
    }
  }

  lemma {:induction false} DeleteLinks(w: World, i: nat, refused: bool)
    requires Linked(w) && i < |w.table|
    ensures Linked(DeleteAt(w, i, refused))
  {
    var a := w.table[i].addr;
    var v := DeleteAt(w, i, false);
    DeletedRows(w.table, i);
    UnregisterMembers(w.c, a);
    if w.table[i].hardware {
      OneRow(w.table, i);
    }
    forall j | 0 <= j < |v.table| && !v.table[j].hardware && !v.table[j].changed
      ensures Armed(v.c.bps, v.table[j].addr) <==> v.table[j].enabled
    {
      var k :| 0 <= k < |w.table| && w.table[k] == v.table[j];
    }
  }

  lemma {:induction false} OneRow(table: seq<Row>, i: nat)
    requires Unique(table) && i < |table|
    ensures Software(table, table[i].addr) <==> !table[i].hardware
  {
  }

  /** Finishing towards a disabled breakpoint unlinks the layers, unless it is a hardware one or its
      change is still pending. */
  lemma {:induction false} FinishLinksIff(w: World, i: nat)
    requires Linked(w) && i < |w.table|
    ensures Linked(FinishAt(w, i)) <==> w.table[i].enabled || w.table[i].hardware || w.table[i].changed
  {
    var r := w.table[i];
    OneRow(w.table, i);
    ToggleMembersAt(w.c, r.addr, true);
    var v := FinishAt(w, i);
    if !r.enabled && (r.hardware || r.changed) {
      forall j | 0 <= j < |w.table| && !w.table[j].hardware && !w.table[j].changed
        ensures Armed(v.c.bps, w.table[j].addr) <==> w.table[j].enabled
      {
        assert j != i;
      }
    }
  }

  // ----------------------------------------------------------------------------------- whole runs

  datatype Action =
    | Setting(a: nat, hardware: bool, refused: bool)
    | Toggling(i: nat, on: bool)
    | Deleting(i: nat, refused: bool)
    | Finishing(i: nat)
    | Continuing(refusals: set<nat>)
    | Waiting

  /** The conditions under which each action keeps the layers linked, and those under which the list
      keeps the program's own words. */
  ghost predicate Allowed(original: Memory, w: World, e: Action) {
    match e
    case Setting(a, hardware, refused) =>
      if hardware then refused || !Software(w.table, a) else Permitted(original, w.c, Register(a))
    case Toggling(i, _) => i < |w.table|
    case Deleting(i, _) =>
      i < |w.table| && (!w.table[i].hardware ==> Permitted(original, w.c, Unregister(w.table[i].addr)))
    case Finishing(i) =>
      i < |w.table| && (w.table[i].enabled || w.table[i].hardware || w.table[i].changed)
    case Continuing(refused) => RestFine(w, Pending(w.table, |w.table|), Reached(w, refused))
    case Waiting => true
  }

  ghost function After(original: Memory, w: World, e: Action): World
    requires Allowed(original, w, e) && Mapped(w.c.bps, |w.c.mem|)
  {
    match e
    case Setting(a, hardware, refused) => SetAt(w, a, hardware, refused)
    case Toggling(i, on) => Toggle(w, i, on)
    case Deleting(i, refused) => DeleteAt(w, i, refused)
    case Finishing(i) => FinishAt(w, i)
    case Continuing(refused) =>
      var v := Synced(w, refused);
      if Reached(w, refused) == |Pending(w.table, |w.table|)| then v.(c := FlushAll(v.c, true)) else v
    case Waiting => w.(c := FlushAll(w.c, false))
  }

  lemma {:induction false} AppliedClean(original: Memory, c: State, p: seq<Row>, n: nat)
    requires n <= |p| && Clean(original, c) && Mapped(c.bps, |c.mem|)
    ensures Clean(original, Applied(c, p, n))
  {
    if n > 0 {
      AppliedClean(original, c, p, n - 1);
      CleanToggle(original, Applied(c, p, n - 1), p[n - 1].addr, p[n - 1].enabled);
    }
  }

  lemma {:induction false} ActionKeepsLinked(original: Memory, w: World, e: Action)
    requires Linked(w) && Allowed(original, w, e)
    ensures Linked(After(original, w, e))
  {
    match e
    case Setting(a, hardware, refused) => SetLinksIff(w, a, hardware, refused);
    case Toggling(i, on) => ToggleLinks(w, i, on);
    case Deleting(i, refused) => DeleteLinks(w, i, refused);
    case Finishing(i) => FinishLinksIff(w, i);
    case Continuing(refused) => ContLinksIff(w, refused);
    case Waiting =>
  }

  lemma {:induction false} ActionKeepsClean(original: Memory, w: World, e: Action)
    requires Linked(w) && Clean(original, w.c) && Allowed(original, w, e)
    ensures Clean(original, After(original, w, e).c)
  {
    match e
    case Setting(a, hardware, _) => if !hardware { CleanRegister(original, w.c, a); }
    case Toggling(i, on) =>
    case Deleting(i, _) => if !w.table[i].hardware { CleanUnregister(original, w.c, w.table[i].addr); }
    case Finishing(i) => CleanToggle(original, w.c, w.table[i].addr, true);
    case Continuing(refused) =>
      AppliedClean(original, w.c, Pending(w.table, |w.table|), Reached(w, refused));
      CleanResume(original, Synced(w, refused).c);
    case Waiting => CleanStop(original, w.c);
  }

  ghost predicate AllowedRun(original: Memory, w: World, es: seq<Action>)
    decreases |es|
  {
    es == [] || (&& Mapped(w.c.bps, |w.c.mem|) && Allowed(original, w, es[0])
                 && AllowedRun(original, After(original, w, es[0]), es[1..]))
  }

  ghost function RunAll(original: Memory, w: World, es: seq<Action>): World
    requires AllowedRun(original, w, es)
    decreases |es|
  {
    if es == [] then w else RunAll(original, After(original, w, es[0]), es[1..])
  }

  lemma {:induction false} RunsStayLinked(original: Memory, w: World, es: seq<Action>)
    requires Linked(w) && Clean(original, w.c) && AllowedRun(original, w, es)
    ensures var v := RunAll(original, w, es);
            Linked(v) && Clean(original, v.c)
    decreases |es|
  {
    if es != [] {
      ActionKeepsLinked(original, w, es[0]);
      ActionKeepsClean(original, w, es[0]);
      RunsStayLinked(original, After(original, w, es[0]), es[1..]);
    }
  }

  /** After any allowed run, when `cont` reaches the C layer the two layers agree, and the memory
      the threads resume on is the program's with a trap exactly at the software breakpoints that
      the user sees enabled. */
  lemma {:induction false} ContinueTrapsWhatTheUserSees(original: Memory, w: World, es: seq<Action>, refused: set<nat>)
    requires Linked(w) && Clean(original, w.c) && AllowedRun(original, w, es)
    requires var v := RunAll(original, w, es); Reached(v, refused) == |Pending(v.table, |v.table|)|
    ensures var v := RunAll(original, w, es);
            && Mapped(v.c.bps, |v.c.mem|)
            && Agreed(Synced(v, refused))
            && var mem := FlushAll(Synced(v, refused).c, true).mem;
               && |mem| == |original|
               && forall x :: 0 <= x < |mem| ==> mem[x] == if SoftwareEnabled(v.table, x) then INT3 else original[x]
  {
    RunsStayLinked(original, w, es);
    var v := RunAll(original, w, es);
    ContLinksIff(v, refused);
    ClearedKeeps(v.table);
    AppliedClean(original, v.c, Pending(v.table, |v.table|), Reached(v, refused));
    CleanResume(original, Synced(v, refused).c);
  }

  // ------------------------------------------------------------------ the user's last word decides

  predicate HardwareEnabled(table: seq<Row>, a: int) {
    exists i :: 0 <= i < |table| && table[i].addr == a && table[i].hardware && table[i].enabled
  }

  /** The user's action is about an address and is carried out. */
  predicate Concerns(w: World, e: Action, a: nat) {
    match e
    case Setting(b, hardware, refused) => b == a && !(hardware && refused)
    case Toggling(i, _) => i < |w.table| && w.table[i].addr == a
    case Deleting(i, refused) => i < |w.table| && w.table[i].addr == a && !(w.table[i].hardware && refused)
    case _ => false
  }

  /** No action of a run is about the address. */
  ghost predicate Leaves(original: Memory, w: World, es: seq<Action>, a: nat)
    requires AllowedRun(original, w, es)
    decreases |es|
  {
    es == [] || (!Concerns(w, es[0], a) && Leaves(original, After(original, w, es[0]), es[1..], a))
  }

  /** The action asks for an enabled breakpoint of a kind at the address it is about. */
  predicate AsksFor(w: World, e: Action, hardware: bool) {
    match e
    case Setting(_, hard, _) => hard == hardware
    case Toggling(i, on) => on && i < |w.table| && w.table[i].hardware == hardware
    case _ => false
  }

  lemma {:induction false} ShownRow(table: seq<Row>, i: nat)
    requires Unique(table) && i < |table|
    ensures SoftwareEnabled(table, table[i].addr) <==> !table[i].hardware && table[i].enabled
    ensures HardwareEnabled(table, table[i].addr) <==> table[i].hardware && table[i].enabled
  {
  }

  /** Right after an action the table shows what it asked for. */
  lemma {:induction false} ActionShows(original: Memory, w: World, e: Action, a: nat)
    requires Linked(w) && Allowed(original, w, e) && Concerns(w, e, a)
    ensures var t := After(original, w, e).table;
            && (SoftwareEnabled(t, a) <==> AsksFor(w, e, false))
            && (HardwareEnabled(t, a) <==> AsksFor(w, e, true))
  {
    var t := After(original, w, e).table;
    match e
    case Setting(_, hardware, _) =>
      PutRows(w.table, Row(a, hardware, true, false));
      assert t[RowOf(w.table, a)].addr == a;
      ShownRow(t, RowOf(w.table, a));
    case Toggling(i, on) =>
      ToggleEffect(w, i, on);
      ToggleLinks(w, i, on);
      ShownRow(t, i);
    case Deleting(i, _) => DeletedRows(w.table, i);
  }

  /** An action about another address leaves what the table shows at this one. */
  lemma {:induction false} OthersStay(original: Memory, w: World, e: Action, a: nat)
    requires Linked(w) && Allowed(original, w, e) && !Concerns(w, e, a)
    ensures var t := After(original, w, e).table;
            && (SoftwareEnabled(t, a) <==> SoftwareEnabled(w.table, a))
            && (HardwareEnabled(t, a) <==> HardwareEnabled(w.table, a))
  {
    var v := After(original, w, e);
    match e
    case Setting(b, hardware, refused) =>
      if !(hardware && refused) {
        PutElsewhere(w.table, Row(b, hardware, true, false), a);
      }
    case Toggling(i, on) => SameShown(w.table, v.table, i, a);
    case Deleting(i, refused) =>
      if !(w.table[i].hardware && refused) {
        DeletedElsewhere(w.table, i, a);
      }
    case Continuing(_) => ClearedShows(w.table, a);
    case _ =>
  }

  lemma {:induction false} PutElsewhere(table: seq<Row>, r: Row, a: nat)
    requires r.addr != a
    ensures SoftwareEnabled(Put(table, r), a) <==> SoftwareEnabled(table, a)
    ensures HardwareEnabled(Put(table, r), a) <==> HardwareEnabled(table, a)
  {
    var i, t := RowOf(table, r.addr), Put(table, r);
    if i < |table| {
      SameShown(table, t, i, a);
    } else {
      assert forall j :: 0 <= j < |table| ==> t[j] == table[j];
    }
  }

  lemma {:induction false} SameShown(table: seq<Row>, t: seq<Row>, i: nat, a: nat)
    requires i < |table| == |t| && table[i].addr == t[i].addr != a
    requires forall j :: 0 <= j < |t| && j != i ==> t[j] == table[j]
    ensures SoftwareEnabled(t, a) <==> SoftwareEnabled(table, a)
    ensures HardwareEnabled(t, a) <==> HardwareEnabled(table, a)
  {
  }

  lemma {:induction false} DeletedElsewhere(table: seq<Row>, i: nat, a: nat)
    requires i < |table| && table[i].addr != a
    ensures var t := table[..i] + table[i + 1..];
            && (SoftwareEnabled(t, a) <==> SoftwareEnabled(table, a))
            && (HardwareEnabled(t, a) <==> HardwareEnabled(table, a))
  {
    var t := table[..i] + table[i + 1..];
    assert forall j :: 0 <= j < |t| ==> t[j] == table[if j < i then j else j + 1];
    assert forall j :: 0 <= j < |table| && j != i ==> table[j] == t[if j < i then j else j - 1];
  }

  lemma {:induction false} ClearedShows(table: seq<Row>, a: nat)
    ensures SoftwareEnabled(Cleared(table), a) <==> SoftwareEnabled(table, a)
    ensures HardwareEnabled(Cleared(table), a) <==> HardwareEnabled(table, a)
  {
    var t := Cleared(table);
    assert forall j :: 0 <= j < |table| ==> t[j] == table[j].(changed := false);
  }

  lemma {:induction false} LeavesStays(original: Memory, w: World, es: seq<Action>, a: nat)
    requires Linked(w) && Clean(original, w.c) && AllowedRun(original, w, es) && Leaves(original, w, es, a)
    ensures var t := RunAll(original, w, es).table;
            && (SoftwareEnabled(t, a) <==> SoftwareEnabled(w.table, a))
            && (HardwareEnabled(t, a) <==> HardwareEnabled(w.table, a))
    decreases |es|
  {
    if es != [] {
      OthersStay(original, w, es[0], a);
      ActionKeepsLinked(original, w, es[0]);
      ActionKeepsClean(original, w, es[0]);
      LeavesStays(original, After(original, w, es[0]), es[1..], a);
    }
  }

  /** The last action about an address decides what the next `cont` does there. The memory that the threads
      resume on has a trap if that action set a software breakpoint or enabled one, and the program's own
      byte if it set a hardware one, disabled, or deleted; and the table shows an enabled hardware
      breakpoint exactly if it set or enabled one. */
  lemma {:induction false} LastActionDecides(original: Memory, w: World, e: Action, more: seq<Action>, a: nat,
                                             refused: set<nat>)
    requires Linked(w) && Clean(original, w.c) && AllowedRun(original, w, [e] + more) && Concerns(w, e, a)
    requires AllowedRun(original, After(original, w, e), more) && Leaves(original, After(original, w, e), more, a)
    requires var v := RunAll(original, w, [e] + more); Reached(v, refused) == |Pending(v.table, |v.table|)|
    requires a < |original|
    ensures var v := RunAll(original, w, [e] + more);
            && Mapped(v.c.bps, |v.c.mem|)
            && var mem := FlushAll(Synced(v, refused).c, true).mem;
               && |mem| == |original|
               && (e.Setting? ==> mem[a] == if e.hardware then original[a] else INT3)
               && (e.Toggling? ==> mem[a] == if e.on && !w.table[e.i].hardware then INT3 else original[a])
               && (e.Deleting? ==> mem[a] == original[a])
               && (HardwareEnabled(v.table, a) <==>
                   || (e.Setting? && e.hardware)
                   || (e.Toggling? && e.on && w.table[e.i].hardware))
  {
    var n := After(original, w, e);
    assert ([e] + more)[1..] == more;
    ContinueTrapsWhatTheUserSees(original, w, [e] + more, refused);
    ActionShows(original, w, e, a);
    ActionKeepsLinked(original, w, e);
    ActionKeepsClean(original, w, e);
    LeavesStays(original, n, more, a);
    assert RunAll(original, w, [e] + more) == RunAll(original, n, more);
  }

  // -------------------------------------------------------------- the interface as the program has it

  class PtraceInterface {
    var table: seq<Row>
    const state: GlobalState

    constructor (state: GlobalState)
      ensures this.state == state && table == []
    {
      this.state := state;
      table := [];
    }

    ghost function Value(): World
      reads this, state
    {
      World(table, state.Value())
    }

    method SetBreakpoint(a: nat, hardware: bool, refused: bool) returns (ok: bool)
      requires Linked(Value()) && (!hardware ==> a + 8 <= |state.mem|)
      modifies this, state
      ensures Value() == SetAt(old(Value()), a, hardware, refused) && ok == !(hardware && refused)
      ensures Linked(Value()) <==> !(hardware && !refused && Software(old(table), a))
    {
      SetLinksIff(Value(), a, hardware, refused);
      if hardware {
        if refused {
          return false;
        }
      } else {
        state.RegisterBreakpoint(a);
      }
      table := Put(table, Row(a, hardware, true, false));
      ok := true;
    }

    method UnsetBreakpoint(i: nat, refused: bool) returns (ok: bool)
      requires Linked(Value()) && i < |table|
      modifies this, state
      ensures Value() == DeleteAt(old(Value()), i, refused) && ok == !(old(table)[i].hardware && refused)
      ensures Linked(Value())
    {
      DeleteLinks(Value(), i, refused);
      if table[i].hardware {
        if refused {
          return false;
        }
      } else {
        state.UnregisterBreakpoint(table[i].addr);
      }
      table := table[..i] + table[i + 1..];
      ok := true;
    }

    /** `enable` and `disable` of a breakpoint. */
    method Enable(i: nat)
      requires Linked(Value()) && i < |table|
      modifies this`table
      ensures Value() == Toggle(old(Value()), i, true) && Linked(Value())
      ensures |table| == |old(table)| && table[i].enabled && table[i].changed
      ensures forall j :: 0 <= j < |table| && j != i ==> table[j] == old(table)[j]
    {
      ToggleLinks(Value(), i, true);
      table := table[i := table[i].(enabled := true, changed := true)];
    }

    method Disable(i: nat)
      requires Linked(Value()) && i < |table|
      modifies this`table
      ensures Value() == Toggle(old(Value()), i, false) && Linked(Value())
      ensures |table| == |old(table)| && !table[i].enabled && table[i].changed
      ensures forall j :: 0 <= j < |table| && j != i ==> table[j] == old(table)[j]
    {
      ToggleLinks(Value(), i, false);
      table := table[i := table[i].(enabled := false, changed := true)];
    }

    /** The first loop of `cont`: collects the changed breakpoints and clears their marks. */
    method CollectChanged() returns (changed: seq<Row>)
      modifies this`table
      ensures changed == Pending(old(table), |old(table)|) && table == Cleared(old(table))
    {
      changed := [];
      var i := 0;
      while i < |table|
        invariant 0 <= i <= |table| == |old(table)|
        invariant changed == Pending(old(table), i)
        invariant forall j :: 0 <= j < i ==> table[j] == old(table)[j].(changed := false)
        invariant forall j :: i <= j < |table| ==> table[j] == old(table)[j]
      {
        if table[i].changed {
          changed := changed + [table[i]];
          table := table[i := table[i].(changed := false)];
        }
        i := i + 1;
      }
      assert table == Cleared(old(table));
    }

    /** The second loop: applies each flag in its layer; a refusal by the hardware layer leaves it. */
    method ApplyChanged(changed: seq<Row>, refused: set<nat>) returns (ok: bool)
      requires state.Valid()
      modifies state
      ensures state.Valid()
      ensures var n := FirstRefused(changed, refused, 0);
              state.Value() == Applied(old(state.Value()), changed, n) && ok == (n == |changed|)
    {
      var i := 0;
      while i < |changed|
        invariant 0 <= i <= |changed| && state.Valid()
        invariant state.Value() == Applied(old(state.Value()), changed, i)
        invariant FirstRefused(changed, refused, 0) == FirstRefused(changed, refused, i)
      {
        var r := changed[i];
        if r.hardware {
          if r.addr in refused {
            return false;
          }
        } else {
          ApplyOne(r);
        }
        i := i + 1;
      }
      ok := true;
    }

    method ApplyOne(r: Row)
      requires state.Valid()
      modifies state
      ensures state.Valid() && state.Value() == ToggleAt(old(state.Value()), r.addr, r.enabled)
    {
      if r.enabled {
        state.EnableBreakpoint(r.addr);
      } else {
        state.DisableBreakpoint(r.addr);
      }
    }

    /** `cont`, up to the call that resumes the threads, which an exception does not reach. */
    method Synchronise(refused: set<nat>) returns (ok: bool)
      requires Linked(Value())
      modifies this, state
      ensures Value() == Synced(old(Value()), refused)
      ensures ok <==> Reached(old(Value()), refused) == |Pending(old(table), |old(table)|)|
      ensures ok ==> Linked(Value()) && Agreed(Value())
    {
      ContLinksIff(Value(), refused);
      var changed := CollectChanged();
      ok := ApplyChanged(changed, refused);
    }
  }
}
