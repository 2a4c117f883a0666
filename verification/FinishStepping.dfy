/** Step-mode `finish`: single steps, counting calls and returns by their opcodes, until the current
    function has returned. */
module FinishStepping {
  import opened Words

  /** What an instruction does to the depth of the call stack. */
  datatype Kind = Call | Return | Other

  /** What the opcode tests say about the word at the instruction pointer. */
  datatype Opcode = BreakpointOp | CallOp | ReturnOp | PlainOp

  /** A stopped thread about to execute an instruction: where it is, what the opcode tests say there,
      and what the instruction will do. The program sees the first two. */
  datatype Point = Point(ip: nat, op: Opcode, kind: Kind)

  /** How a `finish` stands after a number of steps: still stepping, returned, or cut short at a
      breakpoint. The positions are those of the thread in its trace. */
  datatype Outcome = Stepping | Returned(at: nat) | Interrupted(at: nat)

  // ------------------------------------------------------------------------------------ opcodes

  predicate IsBreakpoint(w: Word) {
    w[0] == INT3
  }

  predicate IsCall(w: Word) {
    w[0] == 0xE8 || (w[0] == 0xFF && (w[1] >> 3) & 7 == 2)
  }

  predicate IsReturn(w: Word) {
    w[0] == 0xC3 || w[0] == 0xCB || w[0] == 0xC2 || w[0] == 0xCA
  }

  function Classify(w: Word): Opcode {
    if IsBreakpoint(w) then BreakpointOp
    else if IsCall(w) then CallOp
    else if IsReturn(w) then ReturnOp
    else PlainOp
  }

  /** The opcode tests tell this instruction's kind. */
  predicate Recognised(p: Point) {
    && (p.op == CallOp <==> p.kind == Call)
    && (p.op == ReturnOp <==> p.kind == Return)
  }

  /** Near calls are E8, and FF with 2 in the middle field of the ModR/M byte whatever its other two
      fields are; no call is a return or a breakpoint. */
  lemma {:induction false} CallEncodings(w: Word)
    ensures IsCall(w) <==> w[0] == 0xE8 || (w[0] == 0xFF && w[1] & 0x38 == 0x10)
    ensures IsCall(w) ==> !IsReturn(w) && !IsBreakpoint(w)
  {
  }

  /** Near and far returns, with and without an operand: C2, C3, CA and CB. Nothing else is one, and no
      return is a breakpoint, which is CC. */
  lemma {:induction false} ReturnEncodings(w: Word)
    ensures IsReturn(w) <==> w[0] & 0xF6 == 0xC2
    ensures IsBreakpoint(w) <==> w[0] == 0xCC
    ensures IsReturn(w) ==> !IsBreakpoint(w)
  {
  }

  // -------------------------------------------------------------------------------- the program

  function Counted(counter: int, op: Opcode): int {
    if op == CallOp then counter + 1 else if op == ReturnOp then counter - 1 else counter
  }

  /** The loop from a position of the trace on; the last step, over the return, follows it. */
  function StepFrom(t: seq<Point>, k: nat, previous: nat, counter: int): Outcome
    decreases |t| - k
  {
    if k >= |t| then Stepping
    else if t[k].ip == previous || t[k].op == BreakpointOp then Interrupted(k)
    else
      var c := Counted(counter, t[k].op);
      if c > 0 then StepFrom(t, k + 1, t[k].ip, c)
      else if k + 1 < |t| then Returned(k + 1)
      else Stepping
  }

  /** The instructions executed before the first one that is looked at: one, or two when the thread
      stands on a listed breakpoint and is first stepped over it. */
  function Uncounted(onBreakpoint: bool): nat {
    if onBreakpoint then 2 else 1
  }

  /** `stepping_finish`: after stepping over a breakpoint the saved registers are still the old ones. */
  function Finish(t: seq<Point>, onBreakpoint: bool): Outcome
    requires t != []
  {
    StepFrom(t, Uncounted(onBreakpoint), t[0].ip, 1)
  }

  // ----------------------------------------------------------------------------- the call stack

  function Effect(k: Kind): int {
    match k case Call => 1 case Return => -1 case Other => 0
  }

  /** The depth of the call stack at a position, relative to the start. */
  function Depth(t: seq<Point>, k: nat): int
    requires k <= |t|
  {
    if k == 0 then 0 else Depth(t, k - 1) + Effect(t[k - 1].kind)
  }

  /** The first position at which the function that was running at the start has returned. */
  ghost predicate FirstBelow(t: seq<Point>, k: nat) {
    k <= |t| && Depth(t, k) < 0 && NeverBelow(t, k)
  }

  ghost predicate NeverBelow(t: seq<Point>, n: nat)
    requires n <= |t|
  {
    forall j :: 0 <= j < n ==> Depth(t, j) >= 0
  }

  /** The uncounted instructions end at the depth they began and never go below it. */
  ghost predicate NeutralStart(t: seq<Point>, u: nat) {
    u <= |t| && Depth(t, u) == 0 && forall j :: 0 <= j < u ==> Depth(t, j) >= 0
  }

  ghost predicate AllRecognised(t: seq<Point>, u: nat) {
    forall k :: u <= k < |t| ==> Recognised(t[k])
  }

  /** The instruction pointer that the loop compares with: the last one, and at the first position
      it looks at, the one `finish` was called at. */
  function Previous(t: seq<Point>, u: nat, k: nat): nat
    requires 1 <= u <= k <= |t|
  {
    if k == u then t[0].ip else t[k - 1].ip
  }

  /** A breakpoint, or an instruction pointer that did not move, as the loop sees them. */
  predicate Noisy(t: seq<Point>, u: nat, k: nat)
    requires 1 <= u <= k < |t|
  {
    t[k].op == BreakpointOp || t[k].ip == Previous(t, u, k)
  }

  ghost predicate QuietUpTo(t: seq<Point>, u: nat, n: nat)
    requires 1 <= u && n <= |t|
  {
    forall k :: u <= k < n ==> !Noisy(t, u, k)
  }

  ghost predicate NotBelow(t: seq<Point>, u: nat, n: nat)
    requires 1 <= u <= n <= |t|
  {
    forall j :: u <= j < n ==> Depth(t, j) >= Depth(t, u)
  }

  /** How the loop stands at a position, relative to where it started counting. */
  ghost predicate OnTrack(t: seq<Point>, u: nat, k: nat, previous: nat, counter: int) {
    && 1 <= u <= k <= |t|
    && counter == 1 + Depth(t, k) - Depth(t, u) >= 1
    && previous == Previous(t, u, k)
    && QuietUpTo(t, u, k) && NotBelow(t, u, k)
  }

  /** The loop returns exactly at the first position one below the depth at which it started
      counting, and is interrupted exactly at the first noisy position before that. */
  ghost predicate Follows(t: seq<Point>, u: nat, o: Outcome) {
    1 <= u <= |t| &&
    match o
    case Stepping => QuietUpTo(t, u, |t|) && NotBelow(t, u, |t|)
    case Returned(n) => u < n < |t| && QuietUpTo(t, u, n) && NotBelow(t, u, n) && Depth(t, n) == Depth(t, u) - 1
    case Interrupted(n) => u <= n < |t| && QuietUpTo(t, u, n) && Noisy(t, u, n) && NotBelow(t, u, n + 1)
  }

  lemma {:induction false} StepFromFollows(t: seq<Point>, u: nat, k: nat, previous: nat, counter: int)
    requires OnTrack(t, u, k, previous, counter) && AllRecognised(t, u)
    ensures Follows(t, u, StepFrom(t, k, previous, counter))
    decreases |t| - k
  {
    if k < |t| {
      if t[k].ip == previous || t[k].op == BreakpointOp {
        assert Noisy(t, u, k);
      } else {
        var c := Counted(counter, t[k].op);
        if c > 0 {
          StepFromFollows(t, u, k + 1, t[k].ip, c);
        }
      }
    }
  }

  lemma {:induction false} FinishFollows(t: seq<Point>, b: bool)
    requires AllRecognised(t, Uncounted(b)) && |t| >= Uncounted(b)
    ensures Follows(t, Uncounted(b), Finish(t, b))
  {
    StepFromFollows(t, Uncounted(b), Uncounted(b), t[0].ip, 1);
  }

  // ------------------------------------------------------------ encodings that are not recognised

  /** The opcode tests never take an instruction for a call or a return that it is not. */
  ghost predicate NoFalseHits(t: seq<Point>, u: nat) {
    forall k :: u <= k < |t| ==>
      (t[k].op == CallOp ==> t[k].kind == Call) && (t[k].op == ReturnOp ==> t[k].kind == Return)
  }

  /** The instructions of one kind that the tests miss, from the first one looked at up to a position. */
  function Missed(t: seq<Point>, u: nat, k: nat, kind: Kind): (n: nat)
    requires u <= k <= |t|
    ensures n == 0 <==> forall j :: u <= j < k && t[j].kind == kind ==> Recognised(t[j])
  {
    if k == u then 0
    else Missed(t, u, k - 1, kind) + (if t[k - 1].kind == kind && !Recognised(t[k - 1]) then 1 else 0)
  }

  /** How far the depth is from what the counter says. */
  function Drift(t: seq<Point>, u: nat, k: nat): int
    requires u <= k <= |t|
  {
    Missed(t, u, k, Call) - Missed(t, u, k, Return)
  }

  lemma {:induction false} MissedGrows(t: seq<Point>, u: nat, j: nat, k: nat, kind: Kind)
    requires u <= j <= k <= |t|
    ensures Missed(t, u, j, kind) <= Missed(t, u, k, kind)
  {
    if j < k {
      MissedGrows(t, u, j, k - 1, kind);
    }
  }

  ghost predicate Covered(t: seq<Point>, u: nat, n: nat)
    requires n <= |t|
  {
    forall j :: u <= j < n ==> Depth(t, j) - Depth(t, u) >= Drift(t, u, j)
  }

  /** The counter is what is left of the depth without the missed instructions, at every position that
      the loop passes. */
  lemma {:induction false} StepFromDrifts(t: seq<Point>, u: nat, k: nat, previous: nat, counter: int)
    requires 1 <= u <= k <= |t| && NoFalseHits(t, u)
    requires counter == 1 + Depth(t, k) - Depth(t, u) - Drift(t, u, k) >= 1
    requires Covered(t, u, k)
    ensures StepFrom(t, k, previous, counter).Returned? ==>
              var n := StepFrom(t, k, previous, counter).at;
              && u < n < |t|
              && Depth(t, n) == Depth(t, u) - 1 + Drift(t, u, n)
              && Covered(t, u, n)
    decreases |t| - k
  {
    if k < |t| && t[k].ip != previous && t[k].op != BreakpointOp {
      DriftStep(t, u, k, counter);
      var c := Counted(counter, t[k].op);
      if c > 0 {
        StepFromDrifts(t, u, k + 1, t[k].ip, c);
      }
    }
  }

  lemma {:induction false} DriftStep(t: seq<Point>, u: nat, k: nat, counter: int)
    requires 1 <= u <= k < |t| && NoFalseHits(t, u)
    requires counter == 1 + Depth(t, k) - Depth(t, u) - Drift(t, u, k) >= 1
    requires Covered(t, u, k)
    ensures Counted(counter, t[k].op) == 1 + Depth(t, k + 1) - Depth(t, u) - Drift(t, u, k + 1) >= 0
    ensures Covered(t, u, k + 1)
  {
    assert Depth(t, k + 1) == Depth(t, k) + Effect(t[k].kind);
  }

  lemma {:induction false} StartDepths(t: seq<Point>, b: bool)
    requires |t| >= Uncounted(b)
    ensures Depth(t, 0) == 0 && Depth(t, 1) == Effect(t[0].kind)
    ensures b ==> Depth(t, 2) == Effect(t[0].kind) + Effect(t[1].kind)
  {
    assert b ==> Depth(t, 2) == Depth(t, 1) + Effect(t[1].kind);
  }

  /** The instructions that are not looked at are neutral when, there being one, it is neither a call nor
      a return, or, there being two, neither is, or the first calls and the second returns. */
  lemma {:induction false} NeutralStartIff(t: seq<Point>, b: bool)
    requires |t| >= Uncounted(b)
    ensures NeutralStart(t, Uncounted(b)) <==>
            if b then (t[0].kind == Other && t[1].kind == Other) || (t[0].kind == Call && t[1].kind == Return)
            else t[0].kind == Other
  {
    StartDepths(t, b);
  }

  /** When `finish` comes back without an interruption, the thread is just after the first return out of
      the function it was called in, if and only if the depth was never below the start before, and the
      calls missed, with what the instructions not looked at did, make up for the returns missed. */
  lemma {:induction false} FinishReturnsIff(t: seq<Point>, b: bool)
    requires t != [] && NoFalseHits(t, Uncounted(b)) && Finish(t, b).Returned?
    ensures var u, n := Uncounted(b), Finish(t, b).at;
            && u < n < |t|
            && (FirstBelow(t, n) <==>
                Depth(t, u) + Drift(t, u, n) == 0 && NeverBelow(t, n))
  {
    var u, n := Uncounted(b), Finish(t, b).at;
    StepFromDrifts(t, u, u, t[0].ip, 1);
    assert Depth(t, n) == Depth(t, n - 1) + Effect(t[n - 1].kind);
    assert Depth(t, n) == Depth(t, u) - 1 + Drift(t, u, n);
    if FirstBelow(t, n) {
      assert Depth(t, n - 1) >= 0;
    }
  }

  /** From a neutral start: if and only if it missed as many calls as returns, and no return that took
      the depth below the start before. */
  lemma {:induction false} NeutralReturnsIff(t: seq<Point>, b: bool)
    requires t != [] && NoFalseHits(t, Uncounted(b)) && Finish(t, b).Returned? && NeutralStart(t, Uncounted(b))
    ensures var u, n := Uncounted(b), Finish(t, b).at;
            && u < n < |t|
            && (FirstBelow(t, n) <==> Missed(t, u, n, Call) == Missed(t, u, n, Return) && NotBelow(t, u, n))
  {
    FinishReturnsIff(t, b);
  }

  /** If it missed no return: if and only if the start is neutral and it missed no call. */
  lemma {:induction false} MissedCallsEndEarly(t: seq<Point>, b: bool)
    requires t != [] && NoFalseHits(t, Uncounted(b)) && Finish(t, b).Returned?
    requires var n := Finish(t, b).at;
             n <= |t| && forall k :: Uncounted(b) <= k < n && t[k].kind == Return ==> Recognised(t[k])
    ensures var n := Finish(t, b).at;
            FirstBelow(t, n) <==>
            NeutralStart(t, Uncounted(b)) && forall k :: Uncounted(b) <= k < n && t[k].kind == Call ==> Recognised(t[k])
  {
    var u, n := Uncounted(b), Finish(t, b).at;
    FinishReturnsIff(t, b);
    StepFromDrifts(t, u, u, t[0].ip, 1);
    StartDepths(t, b);
    assert Missed(t, u, n, Return) == 0;
    forall j | u <= j < n
      ensures Depth(t, j) >= Depth(t, u)
    {
      MissedGrows(t, u, j, n, Return);
    }
  }

  /** From a neutral start, if it missed no call: if and only if it missed no return; otherwise it goes on
      into a caller. */
  lemma {:induction false} MissedReturnsOvershoot(t: seq<Point>, b: bool)
    requires t != [] && NoFalseHits(t, Uncounted(b)) && Finish(t, b).Returned? && NeutralStart(t, Uncounted(b))
    requires var n := Finish(t, b).at;
             n <= |t| && forall k :: Uncounted(b) <= k < n && t[k].kind == Call ==> Recognised(t[k])
    ensures var n := Finish(t, b).at;
            FirstBelow(t, n) <==> forall k :: Uncounted(b) <= k < n && t[k].kind == Return ==> Recognised(t[k])
  {
    var u, n := Uncounted(b), Finish(t, b).at;
    NeutralReturnsIff(t, b);
    StepFromDrifts(t, u, u, t[0].ip, 1);
    assert Missed(t, u, n, Call) == 0;
    if Missed(t, u, n, Return) == 0 {
      forall j | u <= j < n
        ensures Depth(t, j) >= Depth(t, u)
      {
        MissedGrows(t, u, j, n, Return);
      }
    }
  }

  /** With a neutral start, `finish` is exact while nothing interrupts it: it has come back, and at
      the right place, as soon as the function has returned, and not before. */
  lemma {:induction false} FinishExact(t: seq<Point>, b: bool)
    requires AllRecognised(t, Uncounted(b)) && NeutralStart(t, Uncounted(b)) && QuietUpTo(t, Uncounted(b), |t|)
    ensures forall k :: 0 <= k < |t| ==> (Finish(t, b) == Returned(k) <==> FirstBelow(t, k))
    ensures Finish(t, b) == Stepping <==> forall k :: 0 <= k < |t| ==> Depth(t, k) >= 0
  {
    FinishFollows(t, b);
    var u := Uncounted(b);
    match Finish(t, b)
    case Stepping =>
      forall k | 0 <= k < |t|
        ensures Depth(t, k) >= 0
      {
        assert k >= u ==> Depth(t, k) >= Depth(t, u);
      }
    case Returned(n) =>
      assert FirstBelow(t, n);
      assert n < |t| && !(Depth(t, n) >= 0);
    case Interrupted(_) =>
  }

  /** An interrupted `finish` stops at the first breakpoint or stuck instruction pointer, with the
      function not yet returned. */
  lemma {:induction false} FinishInterrupted(t: seq<Point>, b: bool)
    requires AllRecognised(t, Uncounted(b)) && NeutralStart(t, Uncounted(b)) && Finish(t, b).Interrupted?
    ensures var n := Finish(t, b).at;
            && Uncounted(b) <= n < |t| && QuietUpTo(t, Uncounted(b), n) && Noisy(t, Uncounted(b), n)
            && forall k :: 0 <= k <= n ==> Depth(t, k) >= 0
  {
    FinishFollows(t, b);
  }

  /** The words of a plain instruction, an E8 call, its C3 return and a C3 return: `finish` comes back right
      after the last. */
  lemma {:induction false} PlainReturnsEnd() returns (t: seq<Point>)
    ensures |t| == 5 && forall k :: 0 <= k < 5 ==> Recognised(t[k])
    ensures Finish(t, false) == Returned(4) && FirstBelow(t, 4)
  {
    var call: Word := [0xE8, 1, 0, 0, 0, 0, 0, 0];
    var ret: Word := [0xC3, 0, 0, 0, 0, 0, 0, 0];
    var nop: Word := [0x90, 0, 0, 0, 0, 0, 0, 0];
    t := [Point(0, Classify(nop), Other), Point(1, Classify(call), Call), Point(9, Classify(ret), Return),
          Point(6, Classify(ret), Return), Point(20, Classify(nop), Other)];
    CallEncodings(nop);
    ReturnEncodings(ret);
    ReturnEncodings(nop);
    assert (0xC3 as Byte) & 0xF6 == 0xC2 && (0x90 as Byte) & 0xF6 != 0xC2;
    assert Classify(nop) == PlainOp && Classify(call) == CallOp && Classify(ret) == ReturnOp;
    assert Depth(t, 0) == 0 && Depth(t, 1) == 0;
    assert Depth(t, 2) == 1 && Depth(t, 3) == 0;
    assert Depth(t, 4) == -1;
    assert StepFrom(t, 3, 9, 1) == Returned(4);
    assert StepFrom(t, 2, 1, 2) == Returned(4);
    assert StepFrom(t, 1, 0, 1) == Returned(4);
  }

  /** A call in an encoding the opcode test does not know, such as one with a prefix byte, is a missed
      one: here `finish` ends one level too deep. */
  lemma {:induction false} PrefixedCallEndsEarly() returns (t: seq<Point>)
    ensures NeutralStart(t, 1) && QuietUpTo(t, 1, |t|)
    ensures Finish(t, false).Returned? && !FirstBelow(t, Finish(t, false).at)
  {
    var call: Word := [0x41, 0xFF, 0xD0, 0, 0, 0, 0, 0];
    t := [Point(0, PlainOp, Other), Point(1, Classify(call), Call), Point(9, ReturnOp, Return),
          Point(4, ReturnOp, Return)];
    assert Classify(call) == PlainOp;
    assert Depth(t, 0) == 0;
    assert Depth(t, 1) == 0;
    assert Depth(t, 2) == 1;
    assert Depth(t, 3) == 0;
    assert StepFrom(t, 2, 1, 1) == Returned(3);
    assert StepFrom(t, 1, 0, 1) == Returned(3);
  }

  /** A missed call and its missed return cancel out: here `finish` misses both and is right. */
  lemma {:induction false} MissesCancel() returns (t: seq<Point>)
    ensures NeutralStart(t, 1) && Finish(t, false).Returned? && FirstBelow(t, Finish(t, false).at)
    ensures |t| == 5 && !Recognised(t[1]) && !Recognised(t[2])
  {
    var call: Word := [0x41, 0xFF, 0xD0, 0, 0, 0, 0, 0];
    var ret: Word := [0xF3, 0xC3, 0, 0, 0, 0, 0, 0];
    t := [Point(0, PlainOp, Other), Point(1, Classify(call), Call), Point(9, Classify(ret), Return),
          Point(4, ReturnOp, Return), Point(20, PlainOp, Other)];
    assert Classify(call) == PlainOp && Classify(ret) == PlainOp;
    assert Depth(t, 0) == 0;
    assert Depth(t, 1) == 0;
    assert Depth(t, 2) == 1;
    assert Depth(t, 3) == 0;
    assert Depth(t, 4) == -1;
    assert StepFrom(t, 3, 9, 1) == Returned(4);
    assert StepFrom(t, 2, 1, 1) == Returned(4);
    assert StepFrom(t, 1, 0, 1) == Returned(4);
  }

  // ------------------------------------------------------------- the function as the program has it

  method IsCallInstruction(w: Word) returns (call: bool)
    ensures call <==> w[0] == 0xE8 || (w[0] == 0xFF && w[1] & 0x38 == 0x10)
  {
    CallEncodings(w);
    if w[0] == 0xE8 {
      return true;
    }
    if w[0] == 0xFF {
      var reg := (w[1] >> 3) & 7;
      if reg == 2 {
        return true;
      }
    }
    call := false;
  }

  /** What the thread shows at each stop: the instruction pointer and the word read there. */
  datatype Stop = Stop(ip: nat, window: Word)

  predicate Shows(stops: seq<Stop>, t: seq<Point>) {
    |stops| == |t| && forall k :: 0 <= k < |t| ==> stops[k].ip == t[k].ip && Classify(stops[k].window) == t[k].op
  }

  /** What one pass of the loop does with the word it reads. */
  method Count(w: Word, counter: int) returns (hit: bool, c: int)
    ensures hit <==> Classify(w) == BreakpointOp
    ensures !hit ==> c == Counted(counter, Classify(w))
  {
    CallEncodings(w);
    if w[0] == INT3 {
      return true, counter;
    }
    var call := IsCallInstruction(w);
    hit := false;
    c := counter;
    if call {
      c := counter + 1;
    } else if IsReturn(w) {
      c := counter - 1;
    }
  }

  /** The stepping loop, on as many stops of the thread as there have been. */
  method SteppingFinish(stops: seq<Stop>, onBreakpoint: bool, ghost t: seq<Point>) returns (r: Outcome)
    requires t != [] && Shows(stops, t)
    ensures r == Finish(t, onBreakpoint)
  {
    var at := if onBreakpoint then 1 else 0;
    var ip := stops[0].ip;
    var counter := 1;
    while counter > 0
      invariant counter > 0 ==> StepFrom(t, at + 1, ip, counter) == Finish(t, onBreakpoint)
      invariant counter <= 0 ==>
                  at < |t| && Finish(t, onBreakpoint) == (if at + 1 < |t| then Returned(at + 1) else Stepping)
      decreases |t| - at
    {
      if at + 1 >= |stops| {
        return Stepping;
      }
      at := at + 1;
      var previous := ip;
      ip := stops[at].ip;
      var hit, c := Count(stops[at].window, counter);
      if ip == previous || hit {
        return Interrupted(at);
      }
      counter := c;
    }
    r := if at + 1 < |stops| then Returned(at + 1) else Stepping;
  }
}
