/** Whole sessions as the user sees them: breakpoints are set, toggled and deleted in the table, and
    every continue stops the thread at the next breakpoint that the table shows enabled. */
module UserSessions {
  import opened Words
  import opened SoftwareBreakpoints
  import T = Transparency
  import L = TwoLayers

  /** The addresses that the table shows enabled, of either kind. */
  function EnabledAddresses(table: seq<L.Row>): set<nat> {
    set i | 0 <= i < |table| && table[i].enabled :: table[i].addr
  }

  /** What the program must not do, in terms of the table: execute a trap opcode of its own, read the
      address of an enabled software breakpoint other than the one it is at, or write into the word at
      any software breakpoint. */
  ghost predicate Gentle(cpu: T.Cpu, s: T.Core, table: seq<L.Row>) {
    && s.ip < |s.mem| && s.mem[s.ip] != INT3
    && (forall x :: x in cpu.loads(s) && L.SoftwareEnabled(table, x) ==> x == s.ip)
    && (forall x, i :: x in cpu.stores(s) && 0 <= i < |table| && !table[i].hardware ==>
          !(table[i].addr <= x < table[i].addr + 8))
  }

  /** The table shows a hardware breakpoint enabled at the address, and no software one. */
  predicate ByHardware(table: seq<L.Row>, a: nat) {
    a in EnabledAddresses(table) && !L.SoftwareEnabled(table, a)
  }

  /** The native run first meets an enabled breakpoint of the table after k steps: at once if it is a
      hardware one where the thread is, set since it stopped. */
  ghost predicate NextHit(cpu: T.Cpu, s: T.Core, table: seq<L.Row>, rf: bool, k: nat) {
    var n := T.Native(cpu, s, k);
    && (k == 0 <==> ByHardware(table, s.ip) && !rf)
    && n.ip in EnabledAddresses(table) && n.ip < |n.mem|
    && (forall i :: 0 < i < k ==> T.Native(cpu, s, i).ip !in EnabledAddresses(table))
    && (forall i :: 0 <= i < k ==> Gentle(cpu, T.Native(cpu, s, i), table))
  }

  /** What the user does to the table at a stop, the hardware changes that would be refused, and how
      many native steps the run that follows takes to the next enabled breakpoint. */
  datatype Visit = Visit(actions: seq<L.Action>, refused: set<nat>, k: nat)

  predicate AtStop(actions: seq<L.Action>) {
    forall i :: 0 <= i < |actions| ==> !actions[i].Continuing? && !actions[i].Waiting?
  }

  /** The edits can be made, and the words of the list are mapped. */
  ghost predicate Editable(original: Memory, w: L.World, r: Visit) {
    L.AllowedRun(original, w, r.actions) &&
    var v := L.RunAll(original, w, r.actions);
    Mapped(v.c.bps, |v.c.mem|)
  }

  /** The two layers when the threads are resumed. */
  ghost function Edited(original: Memory, w: L.World, r: Visit): (y: L.World)
    requires Editable(original, w, r)
    ensures Mapped(y.c.bps, |y.c.mem|)
  {
    L.Synced(L.RunAll(original, w, r.actions), r.refused)
  }

  /** The conditions of one round: the edits are allowed ones and no hardware change is refused; no trap
      is left at the current address; the program reaches an enabled breakpoint undisturbed, and if it
      is a software one, none is enabled a byte after it. */
  ghost predicate FairVisit(cpu: T.Cpu, s: T.Core, rf: bool, w: L.World, r: Visit) {
    && AtStop(r.actions) && Editable(s.mem, w, r)
    && var v := L.RunAll(s.mem, w, r.actions);
    && L.Reached(v, r.refused) == |L.Pending(v.table, |v.table|)|
    && T.Untrapped(s, s.(mem := L.Synced(v, r.refused).c.mem))
    && NextHit(cpu, s, v.table, rf, r.k)
    && !Shadowed(v.table, T.Native(cpu, s, r.k).ip)
  }

  predicate Shadowed(table: seq<L.Row>, a: nat) {
    L.SoftwareEnabled(table, a) && a + 1 in EnabledAddresses(table)
  }

  /** The round that the resumed layers make of a visit. */
  function AsRound(y: L.World, k: nat): T.Round {
    T.Round(y.c.mem, y.c.bps, EnabledAddresses(y.table), k)
  }

  /** Both layers at the next stop, with the memory the thread then has. */
  function AtNextStop(y: L.World, n: T.Core): L.World {
    L.World(y.table, State(n.mem, y.c.bps))
  }

  // --------------------------------------------------------------------- from the table to the list

  lemma {:induction false} TableShowsList(y: L.World)
    requires L.Agreed(y)
    ensures T.Sees(EnabledAddresses(y.table), y.c.bps)
  {
    forall i | 0 <= i < |y.c.bps| && y.c.bps[i].enabled
      ensures y.c.bps[i].addr in EnabledAddresses(y.table)
    {
      assert Armed(y.c.bps, y.c.bps[i].addr);
      assert L.SoftwareEnabled(y.table, y.c.bps[i].addr);
    }
  }

  lemma {:induction false} GentleToList(cpu: T.Cpu, s: T.Core, y: L.World)
    requires L.Agreed(y) && Gentle(cpu, s, y.table)
    ensures T.Gentle(cpu, s, y.c.bps)
  {
    forall x, i | x in cpu.stores(s) && 0 <= i < |y.c.bps|
      ensures !(y.c.bps[i].addr <= x < y.c.bps[i].addr + 8)
    {
      assert Listed(y.c.bps, y.c.bps[i].addr);
      assert L.Software(y.table, y.c.bps[i].addr);
    }
  }

  lemma {:induction false} HitToList(cpu: T.Cpu, s: T.Core, y: L.World, rf: bool, k: nat)
    requires L.Agreed(y) && NextHit(cpu, s, y.table, rf, k)
    ensures T.NextHit(cpu, s, y.c.bps, EnabledAddresses(y.table), rf, k)
  {
    TableShowsList(y);
    forall i | 0 <= i < k
      ensures T.Gentle(cpu, T.Native(cpu, s, i), y.c.bps)
    {
      GentleToList(cpu, T.Native(cpu, s, i), y);
    }
  }

  /** Clearing the marks changes nothing of what the program may do or meet. */
  lemma {:induction false} ClearedSame(table: seq<L.Row>)
    requires L.Unique(table)
    ensures EnabledAddresses(L.Cleared(table)) == EnabledAddresses(table)
  {
    var t := L.Cleared(table);
    assert forall i :: 0 <= i < |table| ==> t[i].addr == table[i].addr && t[i].enabled == table[i].enabled;
    forall a
      ensures a in EnabledAddresses(t) <==> a in EnabledAddresses(table)
    {
      if a in EnabledAddresses(table) {
        var i :| 0 <= i < |table| && table[i].enabled && table[i].addr == a;
        assert t[i].enabled && t[i].addr == a;
      }
    }
  }

  lemma {:induction false} GentleCleared(cpu: T.Cpu, s: T.Core, table: seq<L.Row>)
    requires L.Unique(table) && Gentle(cpu, s, table)
    ensures Gentle(cpu, s, L.Cleared(table))
  {
    L.ClearedKeeps(table);
  }

  lemma {:induction false} HitCleared(cpu: T.Cpu, s: T.Core, table: seq<L.Row>, rf: bool, k: nat)
    requires L.Unique(table) && NextHit(cpu, s, table, rf, k)
    ensures NextHit(cpu, s, L.Cleared(table), rf, k)
  {
    ClearedSame(table);
    L.ClearedKeeps(table);
    forall i | 0 <= i < k
      ensures Gentle(cpu, T.Native(cpu, s, i), L.Cleared(table))
    {
      GentleCleared(cpu, T.Native(cpu, s, i), table);
    }
  }

  // ----------------------------------------------------------------------------------- one round

  /** What holds of the layers when the threads are resumed. */
  ghost predicate Ready(s: T.Core, y: L.World) {
    L.Linked(y) && L.Agreed(y) && Clean(s.mem, y.c)
  }

  lemma {:induction false} EditsReady(s: T.Core, w: L.World, r: Visit)
    requires L.Linked(w) && Clean(s.mem, w.c) && Editable(s.mem, w, r)
    requires var v := L.RunAll(s.mem, w, r.actions); L.Reached(v, r.refused) == |L.Pending(v.table, |v.table|)|
    ensures L.Linked(L.RunAll(s.mem, w, r.actions)) && Ready(s, Edited(s.mem, w, r))
  {
    L.RunsStayLinked(s.mem, w, r.actions);
    var v := L.RunAll(s.mem, w, r.actions);
    L.ContLinksIff(v, r.refused);
    L.AppliedClean(s.mem, v.c, L.Pending(v.table, |v.table|), L.Reached(v, r.refused));
  }

  lemma {:induction false} ReadyFair(cpu: T.Cpu, s: T.Core, rf: bool, y: L.World, k: nat)
    requires Ready(s, y) && T.Untrapped(s, s.(mem := y.c.mem)) && NextHit(cpu, s, y.table, rf, k)
    requires !Shadowed(y.table, T.Native(cpu, s, k).ip)
    ensures T.Fair(cpu, s, rf, AsRound(y, k))
    ensures T.Hard(y.c.bps, EnabledAddresses(y.table), T.Native(cpu, s, k).ip)
            == ByHardware(y.table, T.Native(cpu, s, k).ip)
  {
    HitToList(cpu, s, y, rf, k);
    assert State(s.(mem := y.c.mem).mem, y.c.bps) == y.c;
  }

  lemma {:induction false} StaysLinked(y: L.World, n: T.Core)
    requires L.Linked(y) && Clean(n.mem, State(n.mem, y.c.bps))
    ensures L.Linked(AtNextStop(y, n))
  {
    forall i | 0 <= i < |y.c.bps|
      ensures y.c.bps[i].addr + 8 <= |n.mem|
    {
      assert CleanRecord(n.mem, y.c.bps[i]);
    }
  }

  /** A visit that is fair in terms of the table is a fair round of the two layers: the thread goes on to
      exactly the native state at the next breakpoint that the table shows enabled, and the layers are
      ready for the next visit. */
  lemma {:induction false} VisitRefines(cpu: T.Cpu, s: T.Core, rf: bool, w: L.World, r: Visit)
    requires T.Local(cpu) && L.Linked(w) && Clean(s.mem, w.c) && FairVisit(cpu, s, rf, w, r)
    ensures var y := Edited(s.mem, w, r);
            var n := T.Native(cpu, s, r.k);
            && T.Fair(cpu, s, rf, AsRound(y, r.k))
            && T.Playable(s, rf, AsRound(y, r.k)) && T.Play(cpu, s, rf, AsRound(y, r.k)) == n
            && T.FlagAfter(cpu, s, rf, AsRound(y, r.k)) == ByHardware(y.table, n.ip)
            && T.Hard(y.c.bps, EnabledAddresses(y.table), n.ip) == ByHardware(y.table, n.ip)
            && L.Linked(AtNextStop(y, n)) && Clean(n.mem, AtNextStop(y, n).c)
  {
    EditsReady(s, w, r);
    var v, y := L.RunAll(s.mem, w, r.actions), Edited(s.mem, w, r);
    HitCleared(cpu, s, v.table, rf, r.k);
    ClearedSame(v.table);
    L.ClearedKeeps(v.table);
    ReadyFair(cpu, s, rf, y, r.k);
    T.RoundRefines(cpu, s, rf, AsRound(y, r.k));
    StaysLinked(y, T.Native(cpu, s, r.k));
  }

  // ------------------------------------------------------------------------------- whole sessions

  ghost predicate FairVisits(cpu: T.Cpu, s: T.Core, rf: bool, w: L.World, rs: seq<Visit>)
    decreases |rs|
  {
    rs == [] ||
    (&& FairVisit(cpu, s, rf, w, rs[0])
     && var y, n := Edited(s.mem, w, rs[0]), T.Native(cpu, s, rs[0].k);
     && FairVisits(cpu, n, ByHardware(y.table, n.ip), AtNextStop(y, n), rs[1..]))
  }

  /** The rounds that the debugger plays when the user makes these visits. */
  ghost function Rounds(cpu: T.Cpu, d: T.Core, rf: bool, w: L.World, rs: seq<Visit>): seq<T.Round>
    requires T.Local(cpu)
    decreases |rs|
  {
    if rs == [] || !Editable(d.mem, w, rs[0]) then []
    else
      var y := Edited(d.mem, w, rs[0]);
      var r := AsRound(y, rs[0].k);
      if !T.Playable(d, rf, r) then []
      else
        var n := T.Play(cpu, d, rf, r);
        [r] + Rounds(cpu, n, T.FlagAfter(cpu, d, rf, r), AtNextStop(y, n), rs[1..])
  }

  /** Over a whole session of setting, toggling and deleting breakpoints and continuing, the thread stops
      in exactly the native states at the breakpoints that the table shows enabled when it reaches
      them. */
  lemma {:induction false} UserSessionRefines(cpu: T.Cpu, s: T.Core, rf: bool, w: L.World, rs: seq<Visit>)
    requires T.Local(cpu) && L.Linked(w) && Clean(s.mem, w.c) && FairVisits(cpu, s, rf, w, rs)
    ensures var played := Rounds(cpu, s, rf, w, rs);
            && SameLengths(played, rs) && T.FairSession(cpu, s, rf, played)
            && T.Stops(cpu, s, rf, played) == T.NativeStops(cpu, s, played)
  {
    SessionFair(cpu, s, rf, w, rs);
    T.SessionRefines(cpu, s, rf, Rounds(cpu, s, rf, w, rs));
  }

  /** Visits that are fair in terms of the table are played as fair rounds. */
  lemma {:induction false} SessionFair(cpu: T.Cpu, s: T.Core, rf: bool, w: L.World, rs: seq<Visit>)
    requires T.Local(cpu) && L.Linked(w) && Clean(s.mem, w.c) && FairVisits(cpu, s, rf, w, rs)
    ensures T.FairSession(cpu, s, rf, Rounds(cpu, s, rf, w, rs)) && SameLengths(Rounds(cpu, s, rf, w, rs), rs)
    decreases |rs|
  {
    if rs != [] {
      VisitRefines(cpu, s, rf, w, rs[0]);
      var y, n := Edited(s.mem, w, rs[0]), T.Native(cpu, s, rs[0].k);
      var r, flag := AsRound(y, rs[0].k), ByHardware(y.table, n.ip);
      SessionFair(cpu, n, flag, AtNextStop(y, n), rs[1..]);
      var rest := Rounds(cpu, n, flag, AtNextStop(y, n), rs[1..]);
      assert Rounds(cpu, s, rf, w, rs) == [r] + rest;
      OneMoreRound(cpu, s, rf, r, flag, rest, rs);
    }
  }

  /** The rounds take as many native steps as the visits say. */
  ghost predicate SameLengths(played: seq<T.Round>, rs: seq<Visit>) {
    |played| == |rs| && forall i :: 0 <= i < |rs| ==> played[i].k == rs[i].k
  }

  lemma {:induction false} OneMoreRound(cpu: T.Cpu, s: T.Core, rf: bool, r: T.Round, flag: bool, rest: seq<T.Round>,
                                        rs: seq<Visit>)
    requires T.Fair(cpu, s, rf, r) && rs != [] && r.k == rs[0].k && SameLengths(rest, rs[1..])
    requires flag == T.Hard(r.bps, r.seen, T.Native(cpu, s, r.k).ip)
    requires T.FairSession(cpu, T.Native(cpu, s, r.k), flag, rest)
    ensures T.FairSession(cpu, s, rf, [r] + rest) && SameLengths([r] + rest, rs)
  {
    assert ([r] + rest)[1..] == rest;
  }
}
