/** One traced thread on a deterministic processor. The debugged run patches, traps, rewinds,
    restores, steps over and patches again; it is compared with the run of the same program
    without a debugger. */
module Transparency {
  import opened Words
  import opened SoftwareBreakpoints

  datatype Core = Core(ip: nat, regs: seq<bv64>, mem: Memory)

  /** A processor: what one instruction does, and which bytes it reads (its own included) and
      writes. */
  datatype Cpu = Cpu(step: Core -> Core, loads: Core -> set<nat>, stores: Core -> set<nat>)

  ghost predicate Agrees(cpu: Cpu, s: Core, m: Memory) {
    |m| == |s.mem| && forall x :: x in cpu.loads(s) && x < |m| ==> m[x] == s.mem[x]
  }

  /** The instruction does the same on a memory that agrees on the bytes it reads, and touches
      only the bytes it writes. */
  ghost predicate LocalAt(cpu: Cpu, s: Core, m: Memory) {
    var r, q := cpu.step(s), cpu.step(s.(mem := m));
    && |r.mem| == |s.mem| == |q.mem| == |m|
    && q.ip == r.ip && q.regs == r.regs
    && forall x :: 0 <= x < |m| ==> q.mem[x] == if x in cpu.stores(s) then r.mem[x] else m[x]
  }

  ghost predicate Local(cpu: Cpu) {
    forall s: Core, m: Memory :: Agrees(cpu, s, m) ==> LocalAt(cpu, s, m)
  }

  function Native(cpu: Cpu, s: Core, k: nat): Core {
    if k == 0 then s else cpu.step(Native(cpu, s, k - 1))
  }

  datatype Outcome = Ran(core: Core) | Trap(core: Core)

  /** One instruction on real hardware: the trap opcode only moves past itself. */
  function Exec(cpu: Cpu, d: Core): Outcome {
    if d.ip < |d.mem| && d.mem[d.ip] == INT3 then Trap(d.(ip := d.ip + 1)) else Ran(cpu.step(d))
  }

  function Steps(cpu: Cpu, d: Core, k: nat): Core {
    if k == 0 then d else Exec(cpu, Steps(cpu, d, k - 1)).core
  }

  predicate NoTrap(cpu: Cpu, d: Core, k: nat) {
    forall i :: 0 <= i < k ==> Exec(cpu, Steps(cpu, d, i)).Ran?
  }

  // ------------------------------------------------------------ what the debugger does in a stop

  function Patch(d: Core, bps: seq<Node>, patch: bool): (r: Core)
    requires Mapped(bps, |d.mem|)
    ensures |r.mem| == |d.mem|
  {
    d.(mem := FlushAll(State(d.mem, bps), patch).mem)
  }

  /** `prepare_for_run`: a thread standing on a listed address, enabled or not, is stepped in
      memory as it is; then every enabled breakpoint is patched in. */
  ghost function Prepare(cpu: Cpu, d: Core, bps: seq<Node>): Core
    requires Local(cpu) && Mapped(bps, |d.mem|)
  {
    StepKeepsSize(cpu, d);
    Patch(if Listed(bps, d.ip) then Exec(cpu, d).core else d, bps, true)
  }

  /** The breakpoint table shows at least the list's enabled breakpoints; what else it shows are
      hardware ones. */
  ghost predicate Sees(seen: set<nat>, bps: seq<Node>) {
    forall i :: 0 <= i < |bps| && bps[i].enabled ==> bps[i].addr in seen
  }

  /** The trap handler looks in the table: an enabled breakpoint of either kind at the reported address
      wins over one a byte below. */
  function Rewind(ip: nat, seen: set<nat>): nat {
    if ip in seen then ip else if ip > 0 && ip - 1 in seen then ip - 1 else ip
  }

  /** A stop after a trap: memory restored, instruction pointer put back. */
  function AfterTrap(d: Core, bps: seq<Node>, seen: set<nat>): Core
    requires Mapped(bps, |d.mem|)
  {
    Patch(d, bps, false).(ip := Rewind(d.ip, seen))
  }

  /** An enabled hardware breakpoint: it stops the thread before the instruction. */
  predicate Hard(bps: seq<Node>, seen: set<nat>, a: nat) {
    a in seen && !Armed(bps, a)
  }

  /** A hardware breakpoint at the address the thread is at fires at once, unless the processor's resume
      flag is set, as it is by a stop at a hardware breakpoint. */
  predicate Blocked(bps: seq<Node>, seen: set<nat>, rf: bool, a: nat) {
    Hard(bps, seen, a) && !rf
  }

  /** Where a thread that has reached an enabled breakpoint is stopped by the processor. */
  function Halt(cpu: Cpu, d: Core, bps: seq<Node>, seen: set<nat>): Core {
    if Hard(bps, seen, d.ip) then d else Exec(cpu, d).core
  }

  lemma {:induction false} StepKeepsSize(cpu: Cpu, d: Core)
    requires Local(cpu)
    ensures |Exec(cpu, d).core.mem| == |d.mem|
  {
    assert Agrees(cpu, d, d.mem);
  }

  // ------------------------------------------------------------------------- the two runs match

  /** What the program must not do in a state: execute a trap opcode of its own, read an
      enabled breakpoint's byte other than its own first one, or write into a recorded word. */
  ghost predicate Gentle(cpu: Cpu, s: Core, bps: seq<Node>) {
    && s.ip < |s.mem| && s.mem[s.ip] != INT3
    && (forall x :: x in cpu.loads(s) && Armed(bps, x) ==> x == s.ip)
    && (forall x, i :: x in cpu.stores(s) && 0 <= i < |bps| ==> !(bps[i].addr <= x < bps[i].addr + 8))
  }

  /** The debugged core is the native one with the enabled breakpoints patched in. */
  ghost predicate PatchedAs(s: Core, d: Core, bps: seq<Node>) {
    d.ip == s.ip && d.regs == s.regs && TrapsExactly(s.mem, d.mem, bps)
  }

  /** The debugged core stands where the native one does; its memory may already hold traps
      of enabled breakpoints set since the stop. */
  ghost predicate StoppedAs(s: Core, d: Core, bps: seq<Node>) {
    d.ip == s.ip && d.regs == s.regs && Clean(s.mem, State(d.mem, bps))
  }

  /** No trap stands at the address the thread is at. */
  predicate Untrapped(s: Core, d: Core) {
    s.ip < |s.mem| == |d.mem| && d.mem[s.ip] == s.mem[s.ip]
  }

  /** Recorded words stay the program's, since it does not write into them. */
  lemma {:induction false} RecordsSurvive(cpu: Cpu, s: Core, bps: seq<Node>)
    requires Local(cpu) && Gentle(cpu, s, bps) && CleanRecords(s.mem, bps)
    ensures |cpu.step(s).mem| == |s.mem| && CleanRecords(cpu.step(s).mem, bps)
  {
    assert Agrees(cpu, s, s.mem);
    assert LocalAt(cpu, s, s.mem);
    forall i | 0 <= i < |bps|
      ensures CleanRecord(cpu.step(s).mem, bps[i])
    {
      assert CleanRecord(s.mem, bps[i]);
      forall k | 0 <= k < 8
        ensures bps[i].instruction[k] == cpu.step(s).mem[bps[i].addr + k]
      {
        assert bps[i].addr + k !in cpu.stores(s);
      }
    }
  }

  /** An instruction at an address that is not enabled runs in patched memory as natively. */
  lemma {:induction false} PatchedStep(cpu: Cpu, s: Core, d: Core, bps: seq<Node>)
    requires Local(cpu) && Gentle(cpu, s, bps) && PatchedAs(s, d, bps) && !Armed(bps, s.ip)
    ensures Exec(cpu, d).Ran? && PatchedAs(cpu.step(s), Exec(cpu, d).core, bps)
  {
    assert Agrees(cpu, s, d.mem);
    assert LocalAt(cpu, s, d.mem);
    assert d == s.(mem := d.mem);
    var r, q := cpu.step(s), cpu.step(d);
    assert Agrees(cpu, s, s.mem);
    assert LocalAt(cpu, s, s.mem) && s == s.(mem := s.mem);
    forall x | 0 <= x < |s.mem|
      ensures q.mem[x] == if Armed(bps, x) then INT3 else r.mem[x]
    {
      if i :| 0 <= i < |bps| && bps[i].addr == x && bps[i].enabled {
        assert x !in cpu.stores(s);
      }
    }
  }

  /** For n steps the native run is gentle and meets no enabled address. */
  ghost predicate Undisturbed(cpu: Cpu, s: Core, bps: seq<Node>, n: nat) {
    forall i :: 0 <= i < n ==> Gentle(cpu, Native(cpu, s, i), bps) && !Armed(bps, Native(cpu, s, i).ip)
  }

  /** As long as the native run meets no enabled address, the debugged run has not trapped and
      is the native run with the breakpoints patched in. */
  lemma {:induction false} RunRefines(cpu: Cpu, s: Core, d: Core, bps: seq<Node>, n: nat)
    requires Local(cpu) && PatchedAs(s, d, bps) && Undisturbed(cpu, s, bps, n)
    ensures NoTrap(cpu, d, n) && PatchedAs(Native(cpu, s, n), Steps(cpu, d, n), bps)
  {
    if n > 0 {
      RunRefines(cpu, s, d, bps, n - 1);
      PatchedStep(cpu, Native(cpu, s, n - 1), Steps(cpu, d, n - 1), bps);
    }
  }

  /** Stepping over from a stop, in memory that holds no trap at the current address. */
  lemma {:induction false} StepOver(cpu: Cpu, s: Core, d: Core, bps: seq<Node>)
    requires Local(cpu) && Gentle(cpu, s, bps) && StoppedAs(s, d, bps) && Untrapped(s, d)
    ensures Exec(cpu, d).Ran? && StoppedAs(cpu.step(s), Exec(cpu, d).core, bps)
  {
    assert Agrees(cpu, s, d.mem);
    assert LocalAt(cpu, s, d.mem);
    assert d == s.(mem := d.mem);
    RecordsSurvive(cpu, s, bps);
    assert Agrees(cpu, s, s.mem);
    assert LocalAt(cpu, s, s.mem) && s == s.(mem := s.mem);
  }

  /** A stopped core that is patched is patched. */
  lemma {:induction false} PatchStopped(s: Core, d: Core, bps: seq<Node>)
    requires StoppedAs(s, d, bps)
    ensures PatchedAs(s, Patch(d, bps, true), bps)
  {
    CleanResume(s.mem, State(d.mem, bps));
  }

  function Head(ip: nat, bps: seq<Node>): nat {
    if Listed(bps, ip) then 1 else 0
  }

  /** How many native steps the preparation itself makes: a breakpoint that fires holds it back. */
  function Moved(bps: seq<Node>, seen: set<nat>, rf: bool, a: nat): nat {
    if Blocked(bps, seen, rf, a) then 0 else Head(a, bps)
  }

  lemma {:induction false} PrepareRefines(cpu: Cpu, s: Core, d: Core, bps: seq<Node>)
    requires Local(cpu) && Gentle(cpu, s, bps) && StoppedAs(s, d, bps) && Untrapped(s, d)
    ensures PatchedAs(Native(cpu, s, Head(s.ip, bps)), Prepare(cpu, d, bps), bps)
    ensures CleanRecords(Native(cpu, s, Head(s.ip, bps)).mem, bps)
  {
    if Listed(bps, s.ip) {
      StepOver(cpu, s, d, bps);
      PatchStopped(cpu.step(s), Exec(cpu, d).core, bps);
      assert Native(cpu, s, 1) == cpu.step(Native(cpu, s, 0)) == cpu.step(s);
    } else {
      PatchStopped(s, d, bps);
    }
  }

  lemma {:induction false} NativeShift(cpu: Cpu, s: Core, j: nat, i: nat)
    ensures Native(cpu, Native(cpu, s, j), i) == Native(cpu, s, j + i)
  {
    if i > 0 {
      NativeShift(cpu, s, j, i - 1);
    }
  }

  lemma {:induction false} RecordsSurviveRun(cpu: Cpu, s: Core, bps: seq<Node>, n: nat)
    requires Local(cpu) && CleanRecords(s.mem, bps)
    requires forall i :: 0 <= i < n ==> Gentle(cpu, Native(cpu, s, i), bps)
    ensures |Native(cpu, s, n).mem| == |s.mem| && CleanRecords(Native(cpu, s, n).mem, bps)
  {
    if n > 0 {
      RecordsSurviveRun(cpu, s, bps, n - 1);
      RecordsSurvive(cpu, Native(cpu, s, n - 1), bps);
    }
  }

  /** The native run from s first meets an enabled breakpoint of the table after k steps, and does
      nothing on the way that the breakpoints would disturb. It meets one at once if a hardware one has
      been set where it is. */
  ghost predicate NextHit(cpu: Cpu, s: Core, bps: seq<Node>, seen: set<nat>, rf: bool, k: nat) {
    && Sees(seen, bps) && (k == 0 <==> Blocked(bps, seen, rf, s.ip))
    && Native(cpu, s, k).ip in seen
    && Native(cpu, s, k).ip < |Native(cpu, s, k).mem|
    && (forall i :: 0 < i < k ==> Native(cpu, s, i).ip !in seen)
    && (forall i :: 0 <= i < k ==> Gentle(cpu, Native(cpu, s, i), bps))
  }

  /** A software breakpoint with an enabled one of either kind a byte further, which the trap handler
      takes for it. */
  ghost predicate Shadowed(bps: seq<Node>, seen: set<nat>, a: nat) {
    Armed(bps, a) && a + 1 in seen
  }

  /** At an enabled breakpoint the patched core is halted, by a trap if it is a software one, and the
      stop that follows is the native state exactly when the breakpoint is not a software one with an
      enabled breakpoint of either kind one byte further. */
  lemma {:induction false} TrapRefines(cpu: Cpu, s: Core, d: Core, bps: seq<Node>, seen: set<nat>)
    requires PatchedAs(s, d, bps) && Sorted(bps) && CleanRecords(s.mem, bps) && Sees(seen, bps)
    requires s.ip in seen && s.ip < |s.mem|
    ensures Armed(bps, s.ip) ==> Exec(cpu, d).Trap?
    ensures var h := Halt(cpu, d, bps, seen);
            Mapped(bps, |h.mem|) && (AfterTrap(h, bps, seen) == s <==> !Shadowed(bps, seen, s.ip))
  {
    var h := Halt(cpu, d, bps, seen);
    CleanStop(s.mem, State(h.mem, bps));
  }

  /** The preparation, with the processor's part: a breakpoint that fires holds the single step back. */
  ghost function Prepared(cpu: Cpu, d: Core, bps: seq<Node>, blocked: bool): Core
    requires Local(cpu) && Mapped(bps, |d.mem|)
  {
    if blocked then Patch(d, bps, true) else Prepare(cpu, d, bps)
  }

  /** Where the thread is k native steps on: after the preparation and the free run. */
  ghost function Arrived(cpu: Cpu, d: Core, bps: seq<Node>, seen: set<nat>, rf: bool, k: nat): Core
    requires Local(cpu) && Mapped(bps, |d.mem|) && Moved(bps, seen, rf, d.ip) <= k
  {
    Steps(cpu, Prepared(cpu, d, bps, Blocked(bps, seen, rf, d.ip)), k - Moved(bps, seen, rf, d.ip))
  }

  /** The debugger through one continue of k native steps: preparation, free run, halt, stop. */
  ghost function Continue(cpu: Cpu, d: Core, bps: seq<Node>, seen: set<nat>, rf: bool, k: nat): Core
    requires Local(cpu) && Mapped(bps, |d.mem|) && Moved(bps, seen, rf, d.ip) <= k
  {
    var h := Halt(cpu, Arrived(cpu, d, bps, seen, rf, k), bps, seen);
    if Mapped(bps, |h.mem|) then AfterTrap(h, bps, seen) else h
  }

  /** The preparation makes its native steps and no more. */
  lemma {:induction false} PreparedRefines(cpu: Cpu, s: Core, d: Core, bps: seq<Node>, seen: set<nat>, rf: bool, k: nat)
    requires Local(cpu) && StoppedAs(s, d, bps) && Untrapped(s, d) && NextHit(cpu, s, bps, seen, rf, k)
    ensures Mapped(bps, |d.mem|) && Moved(bps, seen, rf, s.ip) <= k
    ensures PatchedAs(Native(cpu, s, Moved(bps, seen, rf, s.ip)),
                      Prepared(cpu, d, bps, Blocked(bps, seen, rf, s.ip)), bps)
  {
    if Blocked(bps, seen, rf, s.ip) {
      PatchStopped(s, d, bps);
    } else {
      assert Gentle(cpu, Native(cpu, s, 0), bps);
      PrepareRefines(cpu, s, d, bps);
    }
  }

  /** The run after the preparation is the native run up to the next enabled breakpoint, with no trap
      before it, and no hardware breakpoint but the one the thread was stopped by. */
  lemma {:induction false} FreeRunRefines(cpu: Cpu, s: Core, d: Core, bps: seq<Node>, seen: set<nat>, rf: bool, k: nat)
    requires Local(cpu) && StoppedAs(s, d, bps) && Untrapped(s, d) && NextHit(cpu, s, bps, seen, rf, k)
    requires Mapped(bps, |d.mem|) && Moved(bps, seen, rf, s.ip) <= k
    ensures var p := Prepared(cpu, d, bps, Blocked(bps, seen, rf, s.ip));
            var n := k - Moved(bps, seen, rf, s.ip);
            && NoTrap(cpu, p, n)
            && PatchedAs(Native(cpu, s, k), Steps(cpu, p, n), bps)
            && (forall i :: 0 <= i < n ==>
                  !Hard(bps, seen, Steps(cpu, p, i).ip) || (i == 0 && rf && Moved(bps, seen, rf, s.ip) == 0))
  {
    var h := Moved(bps, seen, rf, s.ip);
    var p, n, s' := Prepared(cpu, d, bps, Blocked(bps, seen, rf, s.ip)), k - h, Native(cpu, s, h);
    PreparedRefines(cpu, s, d, bps, seen, rf, k);
    HitAfterHead(cpu, s, bps, seen, rf, k);
    RunRefines(cpu, s', p, bps, n);
    NativeShift(cpu, s, h, n);
    forall i | 0 <= i < n
      ensures !Hard(bps, seen, Steps(cpu, p, i).ip) || (i == 0 && rf && h == 0)
    {
      RunRefines(cpu, s', p, bps, i);
      NativeShift(cpu, s, h, i);
      assert h + i > 0 ==> Native(cpu, s, h + i).ip !in seen;
    }
  }

  lemma {:induction false} HitAfterHead(cpu: Cpu, s: Core, bps: seq<Node>, seen: set<nat>, rf: bool, k: nat)
    requires NextHit(cpu, s, bps, seen, rf, k)
    ensures var h := Moved(bps, seen, rf, s.ip);
            h <= k && Undisturbed(cpu, Native(cpu, s, h), bps, k - h)
  {
    var h := Moved(bps, seen, rf, s.ip);
    forall i | 0 <= i < k - h
      ensures Gentle(cpu, Native(cpu, Native(cpu, s, h), i), bps)
      ensures !Armed(bps, Native(cpu, Native(cpu, s, h), i).ip)
    {
      NativeShift(cpu, s, h, i);
      assert Gentle(cpu, Native(cpu, s, h + i), bps);
      assert h + i > 0 ==> Native(cpu, s, h + i).ip !in seen;
    }
  }

  /** One continue from a stop to the next: the debugged thread stops in exactly the native state at
      the first enabled breakpoint of the table that it reaches, in memory without traps, if and only
      if that is not a software one with an enabled breakpoint of either kind a byte after it. */
  lemma {:induction false} ContinueRefines(cpu: Cpu, s: Core, d: Core, bps: seq<Node>, seen: set<nat>, rf: bool, k: nat)
    requires Local(cpu) && StoppedAs(s, d, bps) && Untrapped(s, d) && NextHit(cpu, s, bps, seen, rf, k)
    ensures Mapped(bps, |d.mem|) && Moved(bps, seen, rf, s.ip) <= k
    ensures Continue(cpu, d, bps, seen, rf, k) == Native(cpu, s, k) <==> !Shadowed(bps, seen, Native(cpu, s, k).ip)
    ensures StoppedAs(Native(cpu, s, k), Native(cpu, s, k), bps)
    ensures Arrived(cpu, d, bps, seen, rf, k).ip == Native(cpu, s, k).ip
    ensures Mapped(bps, |Halt(cpu, Arrived(cpu, d, bps, seen, rf, k), bps, seen).mem|)
  {
    PreparedRefines(cpu, s, d, bps, seen, rf, k);
    var n := Native(cpu, s, k);
    var e := Arrived(cpu, d, bps, seen, rf, k);
    assert PatchedAs(n, e, bps) by {
      FreeRunRefines(cpu, s, d, bps, seen, rf, k);
    }
    RecordsSurviveRun(cpu, s, bps, k);
    TrapRefines(cpu, n, e, bps, seen);
  }

  // ------------------------------------------------------------------------------ whole sessions

  /** What the user's edits at a stop leave, in memory, list and table, and how many native steps the run
      that follows takes to the next enabled breakpoint. */
  datatype Round = Round(mem: Memory, bps: seq<Node>, seen: set<nat>, k: nat)

  /** The conditions of one round, all on the native state and the breakpoints: memory differs from the
      program's by traps of enabled breakpoints only, none of them at the current address, and the
      program reaches an enabled breakpoint undisturbed, with none one byte after it if it is a
      software one. */
  ghost predicate Fair(cpu: Cpu, s: Core, rf: bool, r: Round) {
    && StoppedAs(s, s.(mem := r.mem), r.bps) && Untrapped(s, s.(mem := r.mem))
    && NextHit(cpu, s, r.bps, r.seen, rf, r.k)
    && !Shadowed(r.bps, r.seen, Native(cpu, s, r.k).ip)
  }

  predicate Playable(d: Core, rf: bool, r: Round) {
    Mapped(r.bps, |r.mem|) && Moved(r.bps, r.seen, rf, d.ip) <= r.k
  }

  /** The debugger through one round. */
  ghost function Play(cpu: Cpu, d: Core, rf: bool, r: Round): Core
    requires Local(cpu) && Playable(d, rf, r)
  {
    Continue(cpu, d.(mem := r.mem), r.bps, r.seen, rf, r.k)
  }

  /** The resume flag after a round: set if a hardware breakpoint ended it. */
  ghost predicate FlagAfter(cpu: Cpu, d: Core, rf: bool, r: Round)
    requires Local(cpu) && Playable(d, rf, r)
  {
    Hard(r.bps, r.seen, Arrived(cpu, d.(mem := r.mem), r.bps, r.seen, rf, r.k).ip)
  }

  lemma {:induction false} RoundRefines(cpu: Cpu, s: Core, rf: bool, r: Round)
    requires Local(cpu) && Fair(cpu, s, rf, r)
    ensures Playable(s, rf, r) && Play(cpu, s, rf, r) == Native(cpu, s, r.k)
    ensures FlagAfter(cpu, s, rf, r) == Hard(r.bps, r.seen, Native(cpu, s, r.k).ip)
    ensures StoppedAs(Native(cpu, s, r.k), Native(cpu, s, r.k), r.bps)
  {
    ContinueRefines(cpu, s, s.(mem := r.mem), r.bps, r.seen, rf, r.k);
  }

  ghost predicate FairSession(cpu: Cpu, s: Core, rf: bool, rs: seq<Round>)
    decreases |rs|
  {
    rs == [] ||
    (&& Fair(cpu, s, rf, rs[0])
     && var n := Native(cpu, s, rs[0].k);
     && FairSession(cpu, n, Hard(rs[0].bps, rs[0].seen, n.ip), rs[1..]))
  }

  /** The states in which the debugger stops, in order. */
  ghost function Stops(cpu: Cpu, d: Core, rf: bool, rs: seq<Round>): seq<Core>
    requires Local(cpu)
    decreases |rs|
  {
    if rs == [] || !Playable(d, rf, rs[0]) then []
    else
      var n := Play(cpu, d, rf, rs[0]);
      [n] + Stops(cpu, n, FlagAfter(cpu, d, rf, rs[0]), rs[1..])
  }

  /** The native states at the same points. */
  function NativeStops(cpu: Cpu, s: Core, rs: seq<Round>): seq<Core>
    decreases |rs|
  {
    if rs == [] then []
    else
      var n := Native(cpu, s, rs[0].k);
      [n] + NativeStops(cpu, n, rs[1..])
  }

  /** Over a whole session of edits and continues, every stop of the debugged thread is the
      native state at the next enabled breakpoint. */
  lemma {:induction false} SessionRefines(cpu: Cpu, s: Core, rf: bool, rs: seq<Round>)
    requires Local(cpu) && FairSession(cpu, s, rf, rs)
    ensures Stops(cpu, s, rf, rs) == NativeStops(cpu, s, rs)
    decreases |rs|
  {
    if rs != [] {
      RoundRefines(cpu, s, rf, rs[0]);
      var n := Native(cpu, s, rs[0].k);
      SessionRefines(cpu, n, Hard(rs[0].bps, rs[0].seen, n.ip), rs[1..]);
    }
  }

  // ------------------------------------------------------------ exactly where transparency fails

  /** A breakpoint set at the current address is already in memory when the preparation steps
      over it. The step is then native only if the instruction there does nothing but move on
      by one byte. */
  lemma {:induction false} StepOverNativeIff(cpu: Cpu, s: Core, d: Core, bps: seq<Node>)
    requires Local(cpu) && Gentle(cpu, s, bps) && StoppedAs(s, d, bps) && Listed(bps, s.ip)
    ensures PatchedAs(cpu.step(s), Prepare(cpu, d, bps), bps) <==>
            Untrapped(s, d) || cpu.step(s) == s.(ip := s.ip + 1)
  {
    if Untrapped(s, d) {
      PrepareRefines(cpu, s, d, bps);
      assert Native(cpu, s, 1) == cpu.step(Native(cpu, s, 0)) == cpu.step(s);
    } else {
      var skipped := s.(ip := s.ip + 1);
      assert Exec(cpu, d) == Trap(d.(ip := d.ip + 1));
      PatchStopped(skipped, d.(ip := d.ip + 1), bps);
      if PatchedAs(cpu.step(s), Prepare(cpu, d, bps), bps) {
        TrapsDetermine(cpu, s, Prepare(cpu, d, bps).mem, bps);
      }
    }
  }

  /** A trap with no enabled breakpoint at the reported address or the one below leaves the thread where it
      was reported. */
  lemma {:induction false} OtherTrapStays(d: Core, bps: seq<Node>, seen: set<nat>)
    requires Mapped(bps, |d.mem|) && d.ip !in seen && (d.ip == 0 || d.ip - 1 !in seen)
    ensures AfterTrap(d, bps, seen) == Patch(d, bps, false)
  {
  }

  /** `step`: one instruction in memory as it is, and a stop for which every breakpoint of the table counts
      as disabled. */
  ghost function SingleStep(cpu: Cpu, d: Core, bps: seq<Node>, seen: set<nat>, rf: bool): Core
    requires Local(cpu) && Mapped(bps, |d.mem|)
  {
    StepKeepsSize(cpu, d);
    AfterTrap(if Blocked(bps, seen, rf, d.ip) then d else Exec(cpu, d).core, bps, {})
  }

  /** A `step` from a stop does not move if a hardware breakpoint has been set where the thread is. Otherwise
      it ends one native instruction on, in memory without traps, whatever breakpoints are enabled there
      or a byte below, if and only if no trap stood at the address or the instruction only moves one byte
      on. */
  lemma {:induction false} SingleStepNativeIff(cpu: Cpu, s: Core, d: Core, bps: seq<Node>, seen: set<nat>, rf: bool)
    requires Local(cpu) && Gentle(cpu, s, bps) && StoppedAs(s, d, bps)
    ensures Mapped(bps, |d.mem|)
    ensures if Blocked(bps, seen, rf, s.ip) then SingleStep(cpu, d, bps, seen, rf) == s
            else SingleStep(cpu, d, bps, seen, rf) == cpu.step(s) <==>
                 Untrapped(s, d) || cpu.step(s) == s.(ip := s.ip + 1)
  {
    if Blocked(bps, seen, rf, s.ip) {
      CleanStop(s.mem, State(d.mem, bps));
    } else if Untrapped(s, d) {
      StepOver(cpu, s, d, bps);
      CleanStop(cpu.step(s).mem, State(Exec(cpu, d).core.mem, bps));
    } else {
      assert Exec(cpu, d) == Trap(d.(ip := d.ip + 1));
      CleanStop(s.mem, State(d.mem, bps));
    }
  }

  lemma {:induction false} TrapsDetermine(cpu: Cpu, s: Core, m: Memory, bps: seq<Node>)
    requires Local(cpu) && Gentle(cpu, s, bps)
    requires TrapsExactly(s.mem, m, bps) && TrapsExactly(cpu.step(s).mem, m, bps)
    ensures cpu.step(s).mem == s.mem
  {
    assert Agrees(cpu, s, s.mem);
    assert LocalAt(cpu, s, s.mem) && s == s.(mem := s.mem);
    forall x | 0 <= x < |s.mem|
      ensures cpu.step(s).mem[x] == s.mem[x]
    {
      if i :| 0 <= i < |bps| && bps[i].addr == x && bps[i].enabled {
        assert x !in cpu.stores(s);
      }
    }
  }

  /** A processor whose instructions all do nothing and are n bytes long. */
  ghost function Nops(n: nat): Cpu {
    Cpu((s: Core) => s.(ip := s.ip + n), (s: Core) => {s.ip}, (s: Core) => {})
  }

  lemma {:induction false} NopsLocal(n: nat)
    ensures Local(Nops(n))
  {
  }

  function NopNode(a: nat): Node {
    var word := seq(8, _ => 0x90 as Byte);
    Node(a, word, Trapped(word), true)
  }

  /** Breakpoints at 3 and 4 on a row of one-byte instructions: the stop at 3 is reported at 4. */
  lemma {:induction false} NeighbourStops() returns (s: Core, bps: seq<Node>)
    ensures bps == [NopNode(3), NopNode(4)] && |s.mem| == 16 && Local(Nops(1))
    ensures Mapped(bps, |s.mem|) && Moved(bps, {3, 4}, false, s.ip) <= 3
    ensures Continue(Nops(1), s, bps, {3, 4}, false, 3) != Native(Nops(1), s, 3)
  {
    var cpu, seen := Nops(1), {3, 4};
    s := Core(0, [], seq(16, _ => 0x90 as Byte));
    bps := [NopNode(3), NopNode(4)];
    NopsLocal(1);
    NopRun(s, 1, 1);
    NopRun(s, 1, 2);
    NopRun(s, 1, 3);
    assert Armed(bps, 3) by {
      assert bps[0].addr == 3;
    }
    assert forall i :: 0 <= i < 3 ==> Gentle(cpu, Native(cpu, s, i), bps);
    assert NextHit(cpu, s, bps, seen, false, 3);
    ContinueRefines(cpu, s, s, bps, seen, false, 3);
  }

  lemma {:induction false} NopRun(s: Core, n: nat, k: nat)
    ensures Native(Nops(n), s, k) == s.(ip := s.ip + n * k)
  {
    if k > 0 {
      NopRun(s, n, k - 1);
    }
  }

  /** A breakpoint set at the current address makes a two-byte instruction end after one byte. */
  lemma {:induction false} TrapSteppedOver() returns (s: Core, d: Core, bps: seq<Node>)
    ensures bps == [NopNode(0)] && StoppedAs(s, d, bps) && Local(Nops(2))
    ensures !PatchedAs(Nops(2).step(s), Prepare(Nops(2), d, bps), bps)
  {
    s := Core(0, [], seq(16, _ => 0x90 as Byte));
    d := s.(mem := s.mem[0 := INT3]);
    bps := [NopNode(0)];
    NopsLocal(2);
    assert Listed(bps, 0) by {
      assert bps[0].addr == 0;
    }
    assert Armed(bps, 0) by {
      assert bps[0].enabled;
    }
    StepOverNativeIff(Nops(2), s, d, bps);
  }

  // -------------------------------------------------------------------------- the continue loop

  /** A free run of n instructions to the next stop, with nothing that stops it before; a hardware
      breakpoint at the first one is passed if the resume flag is still set. */
  ghost predicate Reaches(cpu: Cpu, p: Core, bps: seq<Node>, seen: set<nat>, exempt: bool, n: nat) {
    && NoTrap(cpu, p, n) && (n == 0 ==> !exempt)
    && (forall i :: 0 <= i < n ==> !Hard(bps, seen, Steps(cpu, p, i).ip) || (i == 0 && exempt))
    && (Hard(bps, seen, Steps(cpu, p, n).ip) || Exec(cpu, Steps(cpu, p, n)).Trap?)
  }

  /** The thread gets to its next stop, k native steps on. */
  ghost predicate Ends(cpu: Cpu, d: Core, bps: seq<Node>, seen: set<nat>, rf: bool, k: nat)
    requires Local(cpu)
  {
    && Mapped(bps, |d.mem|) && Moved(bps, seen, rf, d.ip) <= k
    && var p := Prepared(cpu, d, bps, Blocked(bps, seen, rf, d.ip));
    && var moved := Moved(bps, seen, rf, d.ip);
    && Reaches(cpu, p, bps, seen, rf && moved == 0, k - moved)
    && Mapped(bps, |Halt(cpu, Arrived(cpu, d, bps, seen, rf, k), bps, seen).mem|)
  }

  lemma {:induction false} ContinueEnds(cpu: Cpu, s: Core, d: Core, bps: seq<Node>, seen: set<nat>, rf: bool, k: nat)
    requires Local(cpu) && StoppedAs(s, d, bps) && Untrapped(s, d) && NextHit(cpu, s, bps, seen, rf, k)
    ensures Ends(cpu, d, bps, seen, rf, k)
  {
    PreparedRefines(cpu, s, d, bps, seen, rf, k);
    FreeRunRefines(cpu, s, d, bps, seen, rf, k);
    RecordsSurviveRun(cpu, s, bps, k);
    TrapRefines(cpu, Native(cpu, s, k), Arrived(cpu, d, bps, seen, rf, k), bps, seen);
  }

  /** A traced thread with its resume flag, the breakpoint list, and the enabled addresses of the table. */
  class Tracee {
    var core: Core
    var rf: bool
    var bps: seq<Node>
    var seen: set<nat>

    /** Continue and wait: it ends, and it ends in the native state. */
    method ContinueAndWait(cpu: Cpu, ghost s: Core, ghost k: nat)
      requires Local(cpu) && StoppedAs(s, core, bps) && Untrapped(s, core) && NextHit(cpu, s, bps, seen, rf, k)
      modifies this`core, this`rf
      ensures Mapped(bps, |old(core).mem|) && Moved(bps, seen, old(rf), old(core).ip) <= k
      ensures core == Continue(cpu, old(core), bps, seen, old(rf), k)
      ensures core == Native(cpu, s, k) <==> !Shadowed(bps, seen, Native(cpu, s, k).ip)
      ensures rf == Hard(bps, seen, Native(cpu, s, k).ip)
    {
      ContinueRefines(cpu, s, core, bps, seen, rf, k);
      ContinueEnds(cpu, s, core, bps, seen, rf, k);
      RunOnce(cpu, k);
    }

    method RunOnce(cpu: Cpu, ghost k: nat)
      requires Local(cpu) && Ends(cpu, core, bps, seen, rf, k)
      modifies this`core, this`rf
      ensures core == Continue(cpu, old(core), bps, seen, old(rf), k)
      ensures rf == Hard(bps, seen, Arrived(cpu, old(core), bps, seen, old(rf), k).ip)
    {
      ghost var moved := Moved(bps, seen, rf, core.ip);
      var stepped := PrepareForRun(cpu);
      rf := RunToStop(cpu, rf && !stepped, k - moved);
      StopAfterTrap();
    }

    /** The single step over a listed address, which a hardware breakpoint that fires holds back, and the
        patching loop. */
    method PrepareForRun(cpu: Cpu) returns (stepped: bool)
      requires Local(cpu) && Mapped(bps, |core.mem|)
      modifies this`core
      ensures core == Prepared(cpu, old(core), bps, Blocked(bps, seen, rf, old(core).ip))
      ensures stepped <==> Moved(bps, seen, rf, old(core).ip) == 1
    {
      StepKeepsSize(cpu, core);
      var onBreakpoint := OnBreakpoint();
      stepped := onBreakpoint && !Blocked(bps, seen, rf, core.ip);
      if stepped {
        core := Exec(cpu, core).core;
      }
      WriteWords(true);
    }

    /** The loop over the list that patches or restores. */
    method WriteWords(patch: bool)
      requires Mapped(bps, |core.mem|)
      modifies this`core
      ensures core == Patch(old(core), bps, patch)
    {
      var mem := WriteEnabled(core.mem, bps, patch);
      core := core.(mem := mem);
    }

    /** The thread runs freely until a trap or a hardware breakpoint, which it meets after n more
        instructions. */
    method RunToStop(cpu: Cpu, resuming: bool, ghost n: nat) returns (hard: bool)
      requires Reaches(cpu, core, bps, seen, resuming, n)
      modifies this`core
      ensures core == Halt(cpu, Steps(cpu, old(core), n), bps, seen)
      ensures hard == Hard(bps, seen, Steps(cpu, old(core), n).ip)
    {
      ghost var i := 0;
      var exempt := resuming;
      while exempt || !Hard(bps, seen, core.ip)
        invariant i <= n && core == Steps(cpu, old(core), i) && (exempt <==> i == 0 && resuming)
        decreases n - i
      {
        var o := Exec(cpu, core);
        if o.Trap? {
          core := o.core;
          return false;
        }
        core := o.core;
        exempt := false;
        i := i + 1;
      }
      hard := true;
    }

    /** Restore memory, then let the trap handler correct the instruction pointer. */
    method StopAfterTrap()
      requires Mapped(bps, |core.mem|)
      modifies this`core
      ensures core == AfterTrap(old(core), bps, seen)
    {
      WriteWords(false);
      core := core.(ip := Rewind(core.ip, seen));
    }

    /** The search over the list for the thread's address. */
    method OnBreakpoint() returns (hit: bool)
      ensures hit <==> Listed(bps, core.ip)
    {
      hit := false;
      var i := 0;
      while i < |bps| && !hit
        invariant 0 <= i <= |bps|
        invariant hit <==> exists j :: 0 <= j < i && bps[j].addr == core.ip
      {
        if bps[i].addr == core.ip {
          hit := true;
        }
        i := i + 1;
      }
    }
  }
}
