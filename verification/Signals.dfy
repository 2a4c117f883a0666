/** Signals caught, hijacked and forwarded: from the statuses of one wait to what the next
    continue delivers to each thread. */
module Signals {
  import opened Options
  import opened HijackChains

  const SIGSTOP := 19

  datatype Catcher = Catcher(callback: bool, recursive: bool, enabled: bool, hits: nat)

  /** A live thread: the signal number of its context, and the one its C node will be
      continued with. */
  datatype Thread = Thread(tid: int, number: int, toForward: int)

  datatype State = State(catchers: map<int, Catcher>, threads: seq<Thread>, marked: set<int>, resume: bool)

  /** A stop reported by a wait: the signal, whether the debugger claims it for itself (system
      call stop, requested interrupt, breakpoint, step or event), the signal a callback run on
      that account assigned to the thread, and what the signal callbacks will do. */
  datatype Status = Status(tid: int, signum: int, claimed: bool, before: Answer, cb: Callbacks)

  function RulesOf(cs: map<int, Catcher>): (r: map<int, Rule>)
    ensures r.Keys == cs.Keys
  {
    map n | n in cs :: Rule(cs[n].enabled && cs[n].callback, cs[n].recursive)
  }

  /** The chain of a signal; one that is not caught stays as it is. */
  function ChainOf(rules: map<int, Rule>, st: Status): Chain {
    if st.signum in rules then Walk(rules, st.cb, st.signum)
    else Chain(st.signum, st.signum, [], false, false)
  }

  /** Every enabled catcher the chain passes counts a hit. */
  function Hit(cs: map<int, Catcher>, c: Chain): (r: map<int, Catcher>)
    ensures r.Keys == cs.Keys
  {
    map n | n in cs ::
      if n in c.ran || (n == c.last && cs[n].enabled && !cs[n].callback) then cs[n].(hits := cs[n].hits + 1)
      else cs[n]
  }

  /** An enabled catcher without a callback stops the process. */
  predicate Halts(cs: map<int, Catcher>, c: Chain) {
    c.last in cs && cs[c.last].enabled && !cs[c.last].callback
  }

  predicate Live(ts: seq<Thread>, tid: int) {
    exists i :: 0 <= i < |ts| && ts[i].tid == tid
  }

  function SetNumber(ts: seq<Thread>, tid: int, n: int): (r: seq<Thread>)
    ensures |r| == |ts|
    ensures forall i :: 0 <= i < |ts| ==> r[i] == if ts[i].tid == tid then ts[i].(number := n) else ts[i]
  {
    seq(|ts|, i requires 0 <= i < |ts| => if ts[i].tid == tid then ts[i].(number := n) else ts[i])
  }

  /** Whether a thread is marked to have its signal forwarded. */
  predicate Marks(c: Chain, st: Status) {
    st.before.Assign? || c.touched || (!c.looped && !st.claimed && st.signum != SIGSTOP)
  }

  /** One status of a wait; a loop keeps the mark for an unclaimed signal from being set. */
  function Handle(s: State, st: Status): State {
    if !Live(s.threads, st.tid) then s
    else
      var c := ChainOf(RulesOf(s.catchers), st);
      State(Hit(s.catchers, c),
            SetNumber(s.threads, st.tid, c.number),
            if Marks(c, st) then s.marked + {st.tid} else s.marked,
            s.resume && !Halts(s.catchers, c))
  }

  function HandleAll(s: State, sts: seq<Status>): State {
    if sts == [] then s else Handle(HandleAll(s, sts[..|sts| - 1]), sts[|sts| - 1])
  }

  /** What a continue delivers to a thread; 0 is nothing. */
  function Due(t: Thread, marked: set<int>, blocked: set<int>): int {
    if t.tid in marked && t.number != 0 && t.number !in blocked then t.number else t.toForward
  }

  function Deliveries(s: State, blocked: set<int>): (r: seq<int>)
    ensures |r| == |s.threads|
    ensures forall i :: 0 <= i < |r| ==> r[i] == Due(s.threads[i], s.marked, blocked)
  {
    seq(|s.threads|, i requires 0 <= i < |s.threads| => Due(s.threads[i], s.marked, blocked))
  }

  function Continued(s: State, blocked: set<int>): (r: State)
    ensures |r.threads| == |s.threads|
  {
    s.(marked := {},
       threads := seq(|s.threads|, i requires 0 <= i < |s.threads| =>
         var t := s.threads[i];
         Thread(t.tid, if t.tid in s.marked && t.number != 0 && t.number !in blocked then 0 else t.number, 0)))
  }

  // ---------------------------------------------------------------------------- one whole cycle

  /** Nothing is waiting to be forwarded. */
  predicate Rested(s: State) {
    s.marked == {} && forall i :: 0 <= i < |s.threads| ==> s.threads[i].toForward == 0
  }

  /** The statuses of a wait all have chains that end. */
  predicate NoLoop(rules: map<int, Rule>, ts: seq<Thread>, sts: seq<Status>) {
    forall j :: 0 <= j < |sts| && Live(ts, sts[j].tid) ==> !ChainOf(rules, sts[j]).looped
  }

  /** The k-th status is the first one whose chain loops. */
  ghost predicate FirstLoop(rules: map<int, Rule>, ts: seq<Thread>, sts: seq<Status>, k: int) {
    0 <= k < |sts| && NoLoop(rules, ts, sts[..k]) && !NoLoop(rules, ts, [sts[k]])
  }

  predicate OncePerThread(sts: seq<Status>) {
    forall i, j :: 0 <= i < j < |sts| ==> sts[i].tid != sts[j].tid
  }

  /** The statuses handled so far have set each thread's number and mark, and nothing else. */
  predicate Reflects(s: State, t: State, sts: seq<Status>) {
    && RulesOf(t.catchers) == RulesOf(s.catchers)
    && |t.threads| == |s.threads|
    && (forall i :: 0 <= i < |s.threads| ==>
          ReflectsOne(RulesOf(s.catchers), s.threads[i], t.threads[i], t.marked, sts))
  }

  predicate ReflectsOne(rules: map<int, Rule>, before: Thread, after: Thread, marked: set<int>, sts: seq<Status>) {
    && after.tid == before.tid && after.toForward == before.toForward
    && (forall j :: 0 <= j < |sts| && sts[j].tid == before.tid ==>
          && after.number == ChainOf(rules, sts[j]).number
          && (after.tid in marked <==> Marks(ChainOf(rules, sts[j]), sts[j])))
    && ((forall j :: 0 <= j < |sts| ==> sts[j].tid != before.tid) ==>
          after.number == before.number && after.tid !in marked)
  }

  lemma {:induction false} HitKeepsRules(cs: map<int, Catcher>, c: Chain)
    ensures RulesOf(Hit(cs, c)) == RulesOf(cs)
  {
  }

  lemma {:induction false} StatusesReflected(s: State, sts: seq<Status>)
    requires s.marked == {} && OncePerThread(sts)
    ensures Reflects(s, HandleAll(s, sts), sts)
  {
    if sts != [] {
      var n := |sts| - 1;
      var past, st := sts[..n], sts[n];
      StatusesReflected(s, past);
      var m := HandleAll(s, past);
      var t := HandleAll(s, sts);
      HitKeepsRules(m.catchers, ChainOf(RulesOf(m.catchers), st));
      forall i | 0 <= i < |s.threads|
        ensures ReflectsOne(RulesOf(s.catchers), s.threads[i], t.threads[i], t.marked, sts)
      {
        assert ReflectsOne(RulesOf(s.catchers), s.threads[i], m.threads[i], m.marked, past);
        OneMoreStatus(RulesOf(s.catchers), s.threads[i], m, t, i, past, st);
        assert past + [st] == sts;
      }
    }
  }

  lemma {:induction false} OneMoreStatus(rules: map<int, Rule>, before: Thread, m: State, t: State, i: nat,
                                         past: seq<Status>, st: Status)
    requires i < |m.threads| && t == Handle(m, st) && rules == RulesOf(m.catchers)
    requires ReflectsOne(rules, before, m.threads[i], m.marked, past)
    requires forall j :: 0 <= j < |past| ==> past[j].tid != st.tid
    ensures ReflectsOne(rules, before, t.threads[i], t.marked, past + [st])
  {
    if st.tid == before.tid {
      assert Live(m.threads, st.tid);
    }
    var sts := past + [st];
    assert forall j :: 0 <= j < |past| ==> sts[j] == past[j];
    assert sts[|past|] == st;
  }

  /** A signal that the user gives to a thread while the process is stopped. */
  datatype Assignment = Assignment(tid: int, number: int)

  function AssignAll(s: State, given: seq<Assignment>): State {
    if given == [] then s
    else
      var t, a := AssignAll(s, given[..|given| - 1]), given[|given| - 1];
      t.(threads := SetNumber(t.threads, a.tid, a.number), marked := t.marked + {a.tid})
  }

  /** The last signal given to a thread. */
  function LastGiven(given: seq<Assignment>, tid: int): Option<int> {
    if given == [] then None
    else if given[|given| - 1].tid == tid then Some(given[|given| - 1].number)
    else LastGiven(given[..|given| - 1], tid)
  }

  lemma {:induction false} GivenReflected(s: State, given: seq<Assignment>, i: nat)
    requires i < |s.threads|
    ensures var t := AssignAll(s, given);
            var tid := s.threads[i].tid;
            && |t.threads| == |s.threads|
            && t.threads[i] == (if LastGiven(given, tid).Some? then s.threads[i].(number := LastGiven(given, tid).value)
                                else s.threads[i])
            && (tid in t.marked <==> tid in s.marked || LastGiven(given, tid).Some?)
  {
    if given != [] {
      GivenReflected(s, given[..|given| - 1], i);
    }
  }

  /** The last number of a status's chain is to be passed on: the debugger does not claim the signal for
      itself, it is not SIGSTOP (19) and no loop is met, or a callback assigned a number, on the debugger's
      own account or along the chain. */
  ghost predicate PassedAlong(c: Chain, st: Status) {
    || (!st.claimed && st.signum != 19 && !c.looped)
    || st.before.Assign?
    || (exists k :: 0 <= k < |c.ran| && st.cb(c.ran[..k], c.ran[k]).Assign?)
  }

  lemma {:induction false} MarksIffPassedAlong(rules: map<int, Rule>, st: Status)
    ensures Marks(ChainOf(rules, st), st) <==> PassedAlong(ChainOf(rules, st), st)
  {
    if st.signum in rules {
      FollowTouched(rules, st.cb, st.signum, {st.signum}, [], false);
    }
  }

  /** Over a wait, what the user assigns at the stop, and the continue after it: each thread is delivered
      the last signal the user gave it, or else the last number of its chain when that is to be passed on,
      in either case if it is not zero and not blocked, and otherwise nothing; afterwards nothing is
      waiting, and a number that was delivered is cleared. */
  lemma {:induction false} CycleDelivers(s: State, sts: seq<Status>, given: seq<Assignment>, blocked: set<int>, i: nat)
    requires Rested(s) && OncePerThread(sts) && NoLoop(RulesOf(s.catchers), s.threads, sts) && i < |s.threads|
    ensures var t := AssignAll(HandleAll(s, sts), given);
            var tid := s.threads[i].tid;
            && |t.threads| == |s.threads|
            && (LastGiven(given, tid).Some? ==>
                  var n := LastGiven(given, tid).value;
                  Deliveries(t, blocked)[i] == if n != 0 && n !in blocked then n else 0)
            && (LastGiven(given, tid).None? ==>
                  && (forall j :: 0 <= j < |sts| && sts[j].tid == tid ==>
                        var c := ChainOf(RulesOf(s.catchers), sts[j]);
                        Deliveries(t, blocked)[i] ==
                        if PassedAlong(c, sts[j]) && c.number != 0 && c.number !in blocked then c.number else 0)
                  && ((forall j :: 0 <= j < |sts| ==> sts[j].tid != tid) ==> Deliveries(t, blocked)[i] == 0))
            && Rested(Continued(t, blocked))
            && Continued(t, blocked).threads[i] ==
               t.threads[i].(number := if Deliveries(t, blocked)[i] != 0 then 0 else t.threads[i].number)
            && Deliveries(Continued(t, blocked), blocked)[i] == 0
  {
    StatusesReflected(s, sts);
    var h := HandleAll(s, sts);
    assert ReflectsOne(RulesOf(s.catchers), s.threads[i], h.threads[i], h.marked, sts);
    GivenReflected(h, given, i);
    forall j | 0 <= j < |sts|
      ensures Marks(ChainOf(RulesOf(s.catchers), sts[j]), sts[j]) <==>
              PassedAlong(ChainOf(RulesOf(s.catchers), sts[j]), sts[j])
    {
      MarksIffPassedAlong(RulesOf(s.catchers), sts[j]);
    }
  }

  /** A signal that a callback of the debugger's own stop gives to the thread is delivered if and only if
      the chain of the signal that stopped the thread ends in the same number and it is not blocked. */
  lemma {:induction false} AssignedSignalDeliveredIff(s: State, sts: seq<Status>, blocked: set<int>, i: nat, j: nat)
    requires Rested(s) && OncePerThread(sts) && NoLoop(RulesOf(s.catchers), s.threads, sts)
    requires i < |s.threads| && j < |sts| && sts[j].tid == s.threads[i].tid
    requires sts[j].before.Assign? && sts[j].before.number != 0
    ensures var n := sts[j].before.number;
            |HandleAll(s, sts).threads| == |s.threads| &&
            (Deliveries(HandleAll(s, sts), blocked)[i] == n <==>
             ChainOf(RulesOf(s.catchers), sts[j]).number == n && n !in blocked)
  {
    CycleDelivers(s, sts, [], blocked, i);
  }

  /** So one that a breakpoint's callback gives to the thread is overwritten by the trap itself, which is
      then delivered in its place, if nobody catches traps. */
  lemma {:induction false} SignalSetAtBreakpointIsLost(s: State, sts: seq<Status>, blocked: set<int>, i: nat, j: nat)
    requires Rested(s) && OncePerThread(sts) && NoLoop(RulesOf(s.catchers), s.threads, sts)
    requires i < |s.threads| && j < |sts| && sts[j].tid == s.threads[i].tid
    requires sts[j].signum == 5 && sts[j].claimed && sts[j].before.Assign? && 5 !in s.catchers && 5 !in blocked
    ensures |HandleAll(s, sts).threads| == |s.threads| && Deliveries(HandleAll(s, sts), blocked)[i] == 5
  {
    CycleDelivers(s, sts, [], blocked, i);
  }

  // ------------------------------------------------------------------------ hits and stopping

  /** The handler of a number is consulted by a chain. */
  predicate Consulted(c: Chain, n: int) {
    n in c.ran || n == c.last
  }

  /** The statuses of live threads whose chains consult the catcher of n. */
  function Consultations(rules: map<int, Rule>, ts: seq<Thread>, sts: seq<Status>, n: int): nat {
    if sts == [] then 0
    else
      var st := sts[|sts| - 1];
      Consultations(rules, ts, sts[..|sts| - 1], n)
      + if Live(ts, st.tid) && Consulted(ChainOf(rules, st), n) then 1 else 0
  }

  /** Over the statuses of a wait every enabled catcher counts one hit for each status that consults it and a
      disabled one none; nothing else of a catcher changes; and the process stays stopped if and only if it
      was to, or some status of a live thread ends at an enabled catcher without a callback. */
  lemma {:induction false} HitsAndStops(s: State, sts: seq<Status>)
    ensures var t := HandleAll(s, sts);
            var rules := RulesOf(s.catchers);
            && t.catchers.Keys == s.catchers.Keys && RulesOf(t.catchers) == rules
            && (forall n :: n in s.catchers ==>
                  t.catchers[n] == s.catchers[n].(hits := t.catchers[n].hits) &&
                  t.catchers[n].hits == s.catchers[n].hits
                    + if s.catchers[n].enabled then Consultations(rules, s.threads, sts, n) else 0)
            && (forall tid :: Live(t.threads, tid) <==> Live(s.threads, tid))
            && (t.resume <==> s.resume && forall j :: 0 <= j < |sts| && Live(s.threads, sts[j].tid) ==>
                  var last := ChainOf(rules, sts[j]).last;
                  !(last in s.catchers && s.catchers[last].enabled && !s.catchers[last].callback))
  {
    HitsCounted(s, sts);
    StopsIff(s, sts);
  }

  /** The catchers after some statuses: their rules stay and only their hits grow. */
  ghost predicate Grown(s: State, t: State, sts: seq<Status>) {
    && RulesOf(t.catchers) == RulesOf(s.catchers)
    && (forall n :: n in s.catchers ==>
          t.catchers[n] == s.catchers[n].(hits := s.catchers[n].hits
            + if s.catchers[n].enabled then Consultations(RulesOf(s.catchers), s.threads, sts, n) else 0))
    && (forall tid :: Live(t.threads, tid) <==> Live(s.threads, tid))
  }

  lemma {:induction false} HitsCounted(s: State, sts: seq<Status>)
    ensures Grown(s, HandleAll(s, sts), sts)
  {
    if sts != [] {
      var past, st := sts[..|sts| - 1], sts[|sts| - 1];
      HitsCounted(s, past);
      HitOnce(HandleAll(s, past), st);
    }
  }

  /** A chain does not end at an enabled catcher without a callback. */
  predicate GoesOn(cs: map<int, Catcher>, c: Chain) {
    !(c.last in cs && cs[c.last].enabled && !cs[c.last].callback)
  }

  lemma {:induction false} StopsIff(s: State, sts: seq<Status>)
    ensures HandleAll(s, sts).resume <==> s.resume && forall j :: 0 <= j < |sts| && Live(s.threads, sts[j].tid) ==>
              GoesOn(s.catchers, ChainOf(RulesOf(s.catchers), sts[j]))
  {
    if sts != [] {
      var past, st := sts[..|sts| - 1], sts[|sts| - 1];
      StopsIff(s, past);
      HitsCounted(s, past);
      assert past + [st] == sts;
    }
  }

  /** One status: each enabled catcher it consults counts one hit. */
  lemma {:induction false} HitOnce(s: State, st: Status)
    ensures var t := Handle(s, st);
            var c := ChainOf(RulesOf(s.catchers), st);
            && RulesOf(t.catchers) == RulesOf(s.catchers)
            && (forall n :: n in s.catchers ==>
                  t.catchers[n] == s.catchers[n].(hits := s.catchers[n].hits
                    + if Live(s.threads, st.tid) && s.catchers[n].enabled && Consulted(c, n) then 1 else 0))
            && (forall tid :: Live(t.threads, tid) <==> Live(s.threads, tid))
  {
    var t, c := Handle(s, st), ChainOf(RulesOf(s.catchers), st);
    if st.signum in s.catchers {
      EachCallbackAtMostOnce(RulesOf(s.catchers), st.cb, st.signum);
      WalkFollows(RulesOf(s.catchers), st.cb, st.signum);
    }
    if Live(s.threads, st.tid) {
      HitKeepsRules(s.catchers, c);
      forall tid
        ensures Live(t.threads, tid) <==> Live(s.threads, tid)
      {
        if i :| 0 <= i < |s.threads| && s.threads[i].tid == tid {
          assert t.threads[i].tid == tid;
        }
      }
    }
  }

  /** A loop is reported exactly for a caught signal whose enabled recursive hijacks never end. */
  lemma {:induction false} SignalLoopIffEndless(rules: map<int, Rule>, st: Status)
    requires Constant(st.cb)
    ensures ChainOf(rules, st).looped <==> st.signum in rules && Endless(rules, st.cb, st.signum)
  {
    if st.signum in rules {
      LoopIffEndless(rules, st.cb, st.signum);
    }
  }

  // ---------------------------------------------------------------------------- the handlers

  /** The hits of the part of a chain that follows the first k callbacks. */
  function HitSince(cs: map<int, Catcher>, c: Chain, k: nat): (r: map<int, Catcher>)
    requires k <= |c.ran|
    ensures r.Keys == cs.Keys
  {
    Hit(cs, c.(ran := c.ran[k..]))
  }

  class SignalHandler {
    var catchers: map<int, Catcher>
    var threads: seq<Thread>
    var marked: set<int>
    var resume: bool

    constructor (threads: seq<Thread>)
      ensures Value() == State(map[], threads, {}, true)
    {
      catchers := map[];
      this.threads := threads;
      marked := {};
      resume := true;
    }

    ghost function Value(): State
      reads this
    {
      State(catchers, threads, marked, resume)
    }

    /** The catcher of a signal, and those of the signals it is hijacked to. */
    method ManageCaughtSignal(n: int, cb: Callbacks, visited: set<int>, ran: seq<int>, touched: bool) returns (c: Chain)
      requires n in visited && visited <= catchers.Keys
      modifies this`catchers, this`resume
      ensures c == Follow(RulesOf(old(catchers)), cb, n, visited, ran, touched)
      ensures |ran| <= |c.ran| && catchers == HitSince(old(catchers), c, |ran|)
      ensures resume == (old(resume) && !Halts(old(catchers), c))
      decreases |catchers.Keys - visited|, 1
    {
      var h := catchers[n];
      ghost var cs := catchers;
      if !h.enabled || !h.callback {
        c := WithoutCallback(n, cb, visited, ran, touched);
        return;
      }
      catchers := catchers[n := h.(hits := h.hits + 1)];
      var answer := cb(ran, n);
      var t := Left(answer, n);
      if t != n && h.recursive && t in catchers && t !in visited {
        c := PassOn(cs, n, t, cb, visited, ran, touched);
      } else {
        EndedHere(cs, cb, n, visited, ran, touched);
        c := Chain(n, t, ran + [n], touched || answer.Assign?, t != n && h.recursive && t in catchers);
      }
    }

    /** The recursive call for the signal a catcher, whose hit is counted, hijacked to. */
    method PassOn(ghost cs: map<int, Catcher>, n: int, t: int, cb: Callbacks, visited: set<int>, ran: seq<int>,
                  touched: bool) returns (c: Chain)
      requires n in visited && visited <= cs.Keys && cs[n].enabled && cs[n].callback && cs[n].recursive
      requires t == Left(cb(ran, n), n) && t != n && t in cs && t !in visited
      requires catchers == cs[n := cs[n].(hits := cs[n].hits + 1)]
      modifies this`catchers, this`resume
      ensures c == Follow(RulesOf(cs), cb, n, visited, ran, touched)
      ensures |ran| <= |c.ran| && catchers == HitSince(cs, c, |ran|)
      ensures resume == (old(resume) && !Halts(cs, c))
      decreases |catchers.Keys - visited|, 0
    {
      PassedOn(cs, cb, n, visited, ran, touched);
      assert |ran + [n]| == |ran| + 1;
      c := ManageCaughtSignal(t, cb, visited + {t}, ran + [n], touched || cb(ran, n).Assign?);
    }

    /** A catcher that is disabled, or has no callback and stops the process. */
    method WithoutCallback(n: int, ghost cb: Callbacks, ghost visited: set<int>, ran: seq<int>, touched: bool)
      returns (c: Chain)
      requires n in visited && visited <= catchers.Keys && !(catchers[n].enabled && catchers[n].callback)
      modifies this`catchers, this`resume
      ensures c == Follow(RulesOf(old(catchers)), cb, n, visited, ran, touched)
      ensures |ran| <= |c.ran| && catchers == HitSince(old(catchers), c, |ran|)
      ensures resume == (old(resume) && !Halts(old(catchers), c))
    {
      var h := catchers[n];
      EndedHere(catchers, cb, n, visited, ran, touched);
      c := Chain(n, n, ran, touched, false);
      if h.enabled {
        catchers := catchers[n := h.(hits := h.hits + 1)];
        resume := false;
      }
    }

    /** One status; false when a hijacking loop is reported. */
    method HandleChange(st: Status) returns (ok: bool)
      modifies this
      ensures ok <==> NoLoop(RulesOf(old(catchers)), old(threads), [st])
      ensures Value() == Handle(old(Value()), st)
    {
      ok := true;
      assert [st][0] == st;
      if !Live(threads, st.tid) {
        return;
      }
      if st.before.Assign? {
        threads := SetNumber(threads, st.tid, st.before.number);
        marked := marked + {st.tid};
      }
      var c := HandleSignal(st);
      threads := SetNumber(threads, st.tid, c.number);
      assert threads == SetNumber(old(threads), st.tid, c.number);
      if c.touched {
        marked := marked + {st.tid};
      }
      if c.looped {
        ok := false;
        return;
      }
      if !st.claimed && st.signum != SIGSTOP {
        marked := marked + {st.tid};
      }
    }

    method HandleSignal(st: Status) returns (c: Chain)
      modifies this`catchers, this`resume
      ensures c == ChainOf(RulesOf(old(catchers)), st)
      ensures catchers == Hit(old(catchers), c)
      ensures resume == (old(resume) && !Halts(old(catchers), c))
    {
      if st.signum in catchers {
        c := ManageCaughtSignal(st.signum, st.cb, {st.signum}, [], false);
        assert c.ran[0..] == c.ran;
        assert c.(ran := c.ran) == c;
      } else {
        c := Chain(st.signum, st.signum, [], false, false);
        assert Hit(catchers, c) == catchers;
      }
    }

    /** All the statuses of a wait, up to the first hijacking loop. */
    method ManageChange(sts: seq<Status>) returns (ok: bool)
      modifies this
      ensures ok <==> NoLoop(RulesOf(old(catchers)), old(threads), sts)
      ensures if ok then Value() == HandleAll(old(Value()), sts)
              else exists k :: FirstLoop(RulesOf(old(catchers)), old(threads), sts, k) &&
                     Value() == HandleAll(old(Value()), sts[..k + 1])
    {
      ok := true;
      ghost var start := Value();
      for i := 0 to |sts|
        invariant ok && Value() == HandleAll(start, sts[..i])
        invariant NoLoop(RulesOf(start.catchers), start.threads, sts[..i])
      {
        assert sts[..i + 1][..i] == sts[..i];
        HandledKeepRules(start, sts[..i]);
        ok := HandleChange(sts[i]);
        assert [sts[i]][0] == sts[i];
        if !ok {
          assert FirstLoop(RulesOf(start.catchers), start.threads, sts, i);
          return;
        }
      }
      assert sts[..|sts|] == sts;
    }

    /** The user gives a thread a signal. */
    method SetSignal(tid: int, number: int)
      modifies this`threads, this`marked
      ensures Value() == AssignAll(old(Value()), [Assignment(tid, number)])
    {
      threads := SetNumber(threads, tid, number);
      marked := marked + {tid};
      assert [Assignment(tid, number)][..0] == [];
    }

    /** Hands each marked thread's signal over to its C node. */
    method ForwardSignals(blocked: set<int>)
      modifies this`threads, this`marked
      ensures marked == {} && |threads| == |old(threads)|
      ensures forall i :: 0 <= i < |threads| ==> threads[i] == Handed(old(threads)[i], old(marked), blocked)
    {
      var i := 0;
      while i < |threads|
        invariant 0 <= i <= |threads| == |old(threads)| && marked == old(marked)
        invariant forall j :: 0 <= j < i ==> threads[j] == Handed(old(threads)[j], marked, blocked)
        invariant forall j :: i <= j < |threads| ==> threads[j] == old(threads)[j]
      {
        var t := threads[i];
        if t.tid in marked {
          if t.number != 0 && t.number !in blocked {
            threads := threads[i := t.(toForward := t.number, number := 0)];
          }
        }
        i := i + 1;
      }
      marked := {};
    }

    /** A continue: forward what is marked, then continue every thread with its signal. */
    method Cont(blocked: set<int>) returns (delivered: seq<int>)
      modifies this`threads, this`marked
      ensures delivered == Deliveries(old(Value()), blocked)
      ensures Value() == Continued(old(Value()), blocked)
    {
      ghost var start := Value();
      if marked != {} {
        ForwardSignals(blocked);
      }
      ghost var handed := threads;
      assert forall j :: 0 <= j < |handed| ==> handed[j] == Handed(start.threads[j], start.marked, blocked);
      delivered := [];
      var i := 0;
      while i < |threads|
        invariant 0 <= i <= |threads| == |handed| && |delivered| == i && marked == {}
        invariant forall j :: 0 <= j < i ==> delivered[j] == handed[j].toForward
        invariant forall j :: 0 <= j < i ==> threads[j] == handed[j].(toForward := 0)
        invariant forall j :: i <= j < |threads| ==> threads[j] == handed[j]
      {
        delivered := delivered + [threads[i].toForward];
        threads := threads[i := threads[i].(toForward := 0)];
        i := i + 1;
      }
      assert delivered == Deliveries(start, blocked);
      assert threads == Continued(start, blocked).threads;
    }
  }

  function Handed(t: Thread, marked: set<int>, blocked: set<int>): Thread {
    if t.tid in marked && t.number != 0 && t.number !in blocked then t.(toForward := t.number, number := 0) else t
  }

  lemma {:induction false} HandledKeepRules(s: State, sts: seq<Status>)
    ensures var t := HandleAll(s, sts);
            && RulesOf(t.catchers) == RulesOf(s.catchers)
            && |t.threads| == |s.threads|
            && forall tid :: Live(t.threads, tid) <==> Live(s.threads, tid)
  {
    if sts != [] {
      var past, st := sts[..|sts| - 1], sts[|sts| - 1];
      HandledKeepRules(s, past);
      var m, t := HandleAll(s, past), HandleAll(s, sts);
      HitKeepsRules(m.catchers, ChainOf(RulesOf(m.catchers), st));
      assert forall i :: 0 <= i < |m.threads| ==> t.threads[i].tid == m.threads[i].tid;
    }
  }

  lemma {:induction false} CountingKeepsRules(cs: map<int, Catcher>, n: int)
    requires n in cs
    ensures RulesOf(cs[n := cs[n].(hits := cs[n].hits + 1)]) == RulesOf(cs)
  {
  }

  /** Following the chain from a catcher that passes the signal on is following it from the
      next; the first one's callback ran first and does not run again. */
  lemma {:induction false} PassedOnChain(rules: map<int, Rule>, cb: Callbacks, n: int, visited: set<int>, ran: seq<int>,
                                         touched: bool)
    requires n in visited && visited <= rules.Keys && rules[n] == Rule(true, true)
    requires var t := Left(cb(ran, n), n); t != n && t in rules && t !in visited
    ensures var t := Left(cb(ran, n), n);
            var c := Follow(rules, cb, n, visited, ran, touched);
            && |rules.Keys - (visited + {t})| < |rules.Keys - visited|
            && c == Follow(rules, cb, t, visited + {t}, ran + [n], touched || cb(ran, n).Assign?)
            && |ran| < |c.ran| && c.ran[|ran|] == n
            && forall i :: |ran| < i < |c.ran| ==> c.ran[i] != n
  {
    Shrinks(rules.Keys, visited, Left(cb(ran, n), n));
    FollowExtends(rules, cb, n, visited, ran, touched);
  }

  /** Counting one catcher and going on with the next is handling the chain from the first. */
  lemma {:induction false} PassedOn(cs: map<int, Catcher>, cb: Callbacks, n: int, visited: set<int>, ran: seq<int>,
                                    touched: bool)
    requires n in visited && visited <= cs.Keys && cs[n].enabled && cs[n].callback && cs[n].recursive
    requires var t := Left(cb(ran, n), n); t != n && t in cs && t !in visited
    ensures var t := Left(cb(ran, n), n);
            var mid := cs[n := cs[n].(hits := cs[n].hits + 1)];
            var c := Follow(RulesOf(mid), cb, t, visited + {t}, ran + [n], touched || cb(ran, n).Assign?);
            && |mid.Keys - (visited + {t})| < |mid.Keys - visited|
            && c == Follow(RulesOf(cs), cb, n, visited, ran, touched)
            && |ran| < |c.ran|
            && HitSince(mid, c, |ran| + 1) == HitSince(cs, c, |ran|)
            && Halts(mid, c) == Halts(cs, c)
  {
    var rules := RulesOf(cs);
    var mid := cs[n := cs[n].(hits := cs[n].hits + 1)];
    assert rules[n] == Rule(true, true);
    CountingKeepsRules(cs, n);
    assert mid.Keys == cs.Keys;
    PassedOnChain(rules, cb, n, visited, ran, touched);
    HitsAdd(cs, mid, n, Follow(rules, cb, n, visited, ran, touched), |ran|);
  }

  /** A chain that ends at the catcher it is at. */
  lemma {:induction false} EndedHere(cs: map<int, Catcher>, cb: Callbacks, n: int, visited: set<int>, ran: seq<int>,
                                     touched: bool)
    requires n in visited && visited <= cs.Keys
    requires var t := Left(cb(ran, n), n);
             !(cs[n].enabled && cs[n].callback && cs[n].recursive && t != n && t in cs && t !in visited)
    ensures var h := cs[n];
            var t := Left(cb(ran, n), n);
            var c := if h.enabled && h.callback
                     then Chain(n, t, ran + [n], touched || cb(ran, n).Assign?, t != n && h.recursive && t in cs)
                     else Chain(n, n, ran, touched, false);
            && c == Follow(RulesOf(cs), cb, n, visited, ran, touched)
            && HitSince(cs, c, |ran|) == if h.enabled then cs[n := h.(hits := h.hits + 1)] else cs
  {
  }

  lemma {:induction false} HitsAdd(cs: map<int, Catcher>, mid: map<int, Catcher>, n: int, c: Chain, k: nat)
    requires n in cs && cs[n].enabled && cs[n].callback && mid == cs[n := cs[n].(hits := cs[n].hits + 1)]
    requires k < |c.ran| && c.ran[k] == n && forall i :: k < i < |c.ran| ==> c.ran[i] != n
    ensures HitSince(mid, c, k + 1) == HitSince(cs, c, k)
    ensures Halts(mid, c) == Halts(cs, c)
  {
  }
}
