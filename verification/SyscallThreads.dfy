/** The system call dispatcher with several traced threads. The flags that tell an entry from an exit
    belong to the handlers, so the threads share them. */
module SyscallThreads {
  import opened Options
  import opened HijackChains
  import opened Syscalls

  /** The handlers, and the number of the call each thread inside one is inside of. */
  datatype Threads = Threads(handlers: Handlers, inside: map<int, int>)

  datatype Happening =
    | Entering(tid: int, number: int, cb: Callbacks)
    | Exiting(tid: int, cb: Callbacks)
    | Toggling(number: int, on: bool)
    | Installing(number: int, handler: Handler)
    | Removing(number: int)

  /** No thread is inside a call. */
  ghost predicate Nobody(s: Threads, n: int) {
    forall tid :: tid in s.inside ==> s.inside[tid] != n
  }

  /** A handler whose flags matter: it exists and does something at one of the stops. */
  predicate Awake(hs: Handlers, n: int) {
    n in hs && !Dormant(hs[n])
  }

  /** A thread enters only from outside and leaves only from inside, a handler changes only while nobody
      is inside its call, and no hijacking loop is met. */
  ghost predicate Possible(s: Threads, e: Happening) {
    match e
    case Entering(tid, n, cb) => tid !in s.inside && !HandleStop(s.handlers, n, cb).looped
    case Exiting(tid, _) => tid in s.inside
    case Toggling(n, _) => Nobody(s, n)
    case Installing(n, h) => Nobody(s, n) && !h.entered && !h.skip
    case Removing(n) => Nobody(s, n)
  }

  function Next(s: Threads, e: Happening): Threads {
    match e
    case Entering(tid, n, cb) =>
      var o := HandleStop(s.handlers, n, cb);
      Threads(o.handlers, s.inside[tid := o.number])
    case Exiting(tid, cb) =>
      if tid !in s.inside then s
      else Threads(HandleStop(s.handlers, s.inside[tid], cb).handlers, s.inside - {tid})
    case Toggling(n, on) =>
      if n !in s.handlers then s
      else s.(handlers := s.handlers[n := s.handlers[n].(enabled := on, entered := false)])
    case Installing(n, h) => s.(handlers := s.handlers[n := h])
    case Removing(n) => s.(handlers := s.handlers - {n})
  }

  /** The stop is taken for what it is, or the handler does nothing at either stop. */
  predicate Right(s: Threads, e: Happening) {
    match e
    case Entering(_, n, _) => Awake(s.handlers, n) ==> !s.handlers[n].entered
    case Exiting(tid, _) =>
      tid in s.inside && Awake(s.handlers, s.inside[tid]) ==> s.handlers[s.inside[tid]].entered
    case _ => true
  }

  /** A handler nobody is inside of carries no flag; one somebody is inside of, unless it does nothing, is
      entered, by one thread only. */
  ghost predicate AllPaired(s: Threads) {
    && (forall n :: n in s.handlers && Nobody(s, n) ==> !s.handlers[n].entered)
    && (forall n :: n in s.handlers && s.handlers[n].skip ==> s.handlers[n].entered)
    && (forall tid :: tid in s.inside && Awake(s.handlers, s.inside[tid]) ==> s.handlers[s.inside[tid]].entered)
    && (forall t, u :: t in s.inside && u in s.inside && t != u && s.inside[t] == s.inside[u] ==>
          !Awake(s.handlers, s.inside[t]))
  }

  /** Nobody is inside the call, or its handler does nothing anyway. */
  ghost predicate Free(s: Threads, n: int) {
    Nobody(s, n) || !Awake(s.handlers, n)
  }

  /** An entry starts and ends, after its hijacks, at a call that is free. */
  ghost predicate Apart(s: Threads, e: Happening) {
    e.Entering? ==> Free(s, e.number) && Free(s, HandleStop(s.handlers, e.number, e.cb).number)
  }

  // ------------------------------------------------------------------------------------ one event

  lemma {:induction false} EntryFlags(s: Threads, tid: int, n: int, cb: Callbacks)
    requires AllPaired(s) && Possible(s, Entering(tid, n, cb)) && Apart(s, Entering(tid, n, cb))
    ensures var o := HandleStop(s.handlers, n, cb);
            && (forall m :: m in s.handlers && m != o.number ==> o.handlers[m] == s.handlers[m])
            && (o.number in s.handlers ==>
                  && Dormant(o.handlers[o.number]) == Dormant(s.handlers[o.number])
                  && (o.handlers[o.number].skip ==> o.handlers[o.number].entered)
                  && (Awake(s.handlers, o.number) ==> o.handlers[o.number].entered))
  {
    var hs := s.handlers;
    if n in hs && !hs[n].entered {
      WalkEnds(RulesOf(hs), cb, n, n);
    }
  }

  lemma {:induction false} EntryPairs(s: Threads, tid: int, n: int, cb: Callbacks)
    requires AllPaired(s) && Possible(s, Entering(tid, n, cb)) && Apart(s, Entering(tid, n, cb))
    ensures AllPaired(Next(s, Entering(tid, n, cb)))
  {
    EntryFlags(s, tid, n, cb);
    var o := HandleStop(s.handlers, n, cb);
    var t := Next(s, Entering(tid, n, cb));
    assert t.inside[tid] == o.number;
    forall m | m in t.handlers && Nobody(t, m)
      ensures Nobody(s, m) && m != o.number
    {
      assert forall u :: u in s.inside ==> t.inside[u] == s.inside[u];
    }
    forall u | u in s.inside && s.inside[u] == o.number
      ensures !Awake(s.handlers, o.number)
    {
    }
  }

  lemma {:induction false} ExitPairs(s: Threads, tid: int, cb: Callbacks)
    requires AllPaired(s) && tid in s.inside
    ensures AllPaired(Next(s, Exiting(tid, cb)))
  {
    var f, t := s.inside[tid], Next(s, Exiting(tid, cb));
    ExitFlags(s, tid, cb);
    forall m | m in t.handlers && Nobody(t, m)
      ensures m == f || Nobody(s, m)
    {
      assert forall u :: u in s.inside && s.inside[u] != f ==> u in t.inside && t.inside[u] == s.inside[u];
    }
  }

  lemma {:induction false} ExitFlags(s: Threads, tid: int, cb: Callbacks)
    requires AllPaired(s) && tid in s.inside
    ensures var f := s.inside[tid];
            var o := HandleStop(s.handlers, f, cb);
            && o.handlers.Keys == s.handlers.Keys
            && (forall m :: m in s.handlers && m != f ==> o.handlers[m] == s.handlers[m])
            && (f in s.handlers ==> !o.handlers[f].entered && !o.handlers[f].skip
                                    && Dormant(o.handlers[f]) == Dormant(s.handlers[f]))
  {
    var f := s.inside[tid];
    if f in s.handlers && !s.handlers[f].entered {
      assert !RulesOf(s.handlers)[f].active;
    }
  }

  lemma {:induction false} ChangePairs(s: Threads, e: Happening)
    requires AllPaired(s) && Possible(s, e) && !e.Entering? && !e.Exiting?
    ensures AllPaired(Next(s, e))
  {
    forall tid | tid in s.inside
      ensures s.inside[tid] != e.number
    {
    }
  }

  /** A handler is enabled or disabled as it is for one thread. */
  lemma {:induction false} TogglingDecides(s: Threads, n: int, on: bool)
    requires AllPaired(s) && Nobody(s, n) && n in s.handlers
    ensures Next(s, Toggling(n, on)) == s.(handlers := s.handlers[n := s.handlers[n].(enabled := on)])
    ensures Next(s, Toggling(n, on)).handlers == Step(State(s.handlers, None), Toggle(n, on)).handlers
  {
  }

  lemma {:induction false} EventPairs(s: Threads, e: Happening)
    requires AllPaired(s) && Possible(s, e) && Apart(s, e)
    ensures Right(s, e) && AllPaired(Next(s, e))
  {
    match e
    case Entering(tid, n, cb) => EntryPairs(s, tid, n, cb);
    case Exiting(tid, cb) => ExitPairs(s, tid, cb);
    case _ => ChangePairs(s, e);
  }

  // ----------------------------------------------------------------------------------- whole runs

  ghost predicate PossibleRun(s: Threads, es: seq<Happening>)
    decreases |es|
  {
    es == [] || (Possible(s, es[0]) && PossibleRun(Next(s, es[0]), es[1..]))
  }

  ghost predicate ApartRun(s: Threads, es: seq<Happening>)
    decreases |es|
  {
    es == [] || (Apart(s, es[0]) && ApartRun(Next(s, es[0]), es[1..]))
  }

  /** Every stop of a run is taken for what it is. */
  predicate RightRun(s: Threads, es: seq<Happening>)
    decreases |es|
  {
    es == [] || (Right(s, es[0]) && RightRun(Next(s, es[0]), es[1..]))
  }

  /** For any number of threads: as long as no two are inside one call whose handler does something,
      every stop is taken for what it is. */
  lemma {:induction false} ApartRunsAreRight(s: Threads, es: seq<Happening>)
    requires AllPaired(s) && PossibleRun(s, es) && ApartRun(s, es)
    ensures RightRun(s, es)
    decreases |es|
  {
    if es != [] {
      EventPairs(s, es[0]);
      ApartRunsAreRight(Next(s, es[0]), es[1..]);
    }
  }

  // ---------------------------------------------------------------------------- exactly which runs

  /** The flag of a handler that does something can no longer be right for all the threads inside its
      call: two are inside, or one is and the handler is not entered. */
  ghost predicate Broken(s: Threads, n: int) {
    Awake(s.handlers, n) && (Shared(s, n) || (!s.handlers[n].entered && !Nobody(s, n)))
  }

  ghost predicate Shared(s: Threads, n: int) {
    exists t, u :: t in s.inside && u in s.inside && t != u && s.inside[t] == n == s.inside[u]
  }

  /** A stop taken for what it is changes no flag but that of the handler it ends at; an entry sets it, if
      that handler does something, and an exit clears it. */
  lemma {:induction false} StopFlags(s: Threads, e: Happening, n: int)
    requires (e.Entering? || e.Exiting?) && Possible(s, e) && Right(s, e) && Awake(s.handlers, n)
    ensures var f := if e.Entering? then HandleStop(s.handlers, e.number, e.cb).number else s.inside[e.tid];
            var t := Next(s, e);
            && Awake(t.handlers, n)
            && (t.handlers[n].entered <==> if f == n then e.Entering? else s.handlers[n].entered)
  {
    var hs, m := s.handlers, if e.Entering? then e.number else s.inside[e.tid];
    if m in hs && !hs[m].entered {
      WalkEnds(RulesOf(hs), e.cb, m, m);
    }
  }

  /** Whatever happens next, somebody stays in the way. */
  lemma {:induction false} StaysBroken(s: Threads, e: Happening, n: int)
    requires Broken(s, n) && Possible(s, e) && Right(s, e)
    ensures Broken(Next(s, e), n)
  {
    var t := Next(s, e);
    if e.Entering? {
      StopFlags(s, e, n);
      EntryStaysBroken(s, t, e.tid, n);
    } else if e.Exiting? {
      StopFlags(s, e, n);
      ExitStaysBroken(s, t, e.tid, n);
    } else {
      assert e.number != n;
      assert t.inside == s.inside && t.handlers[n] == s.handlers[n];
    }
  }

  lemma {:induction false} EntryStaysBroken(s: Threads, t: Threads, tid: int, n: int)
    requires Broken(s, n) && tid !in s.inside && tid in t.inside && t.inside == s.inside[tid := t.inside[tid]]
    requires Awake(t.handlers, n)
    requires t.handlers[n].entered <==> if t.inside[tid] == n then true else s.handlers[n].entered
    ensures Broken(t, n)
  {
    if Shared(s, n) {
      var u, v :| u in s.inside && v in s.inside && u != v && s.inside[u] == n == s.inside[v];
      assert t.inside[u] == n == t.inside[v];
    } else {
      var u :| u in s.inside && s.inside[u] == n;
      assert t.inside[u] == n;
    }
  }

  lemma {:induction false} ExitStaysBroken(s: Threads, t: Threads, tid: int, n: int)
    requires Broken(s, n) && tid in s.inside && t.inside == s.inside - {tid} && Awake(t.handlers, n)
    requires s.inside[tid] == n ==> s.handlers[n].entered
    requires t.handlers[n].entered <==> if s.inside[tid] == n then false else s.handlers[n].entered
    ensures Broken(t, n)
  {
    if Shared(s, n) {
      var u, v :| u in s.inside && v in s.inside && u != v && s.inside[u] == n == s.inside[v];
      if s.inside[tid] == n {
        var other := if u == tid then v else u;
        assert other in t.inside && t.inside[other] == n;
      } else {
        assert t.inside[u] == n == t.inside[v];
      }
    } else {
      var u :| u in s.inside && s.inside[u] == n;
      assert u in t.inside && t.inside[u] == n;
    }
  }

  function After(s: Threads, es: seq<Happening>): Threads
    decreases |es|
  {
    if es == [] then s else After(Next(s, es[0]), es[1..])
  }

  lemma {:induction false} BrokenRun(s: Threads, es: seq<Happening>, n: int)
    requires Broken(s, n) && PossibleRun(s, es) && RightRun(s, es)
    ensures Broken(After(s, es), n)
    decreases |es|
  {
    if es != [] {
      StaysBroken(s, es[0], n);
      BrokenRun(Next(s, es[0]), es[1..], n);
    }
  }

  predicate OnlyExits(es: seq<Happening>) {
    forall i :: 0 <= i < |es| ==> es[i].Exiting?
  }

  /** When the threads inside leave, one of the exits is taken for an entry. */
  lemma {:induction false} SomeExitWrong(s: Threads, n: int, cb: Callbacks) returns (es: seq<Happening>)
    requires Broken(s, n)
    ensures OnlyExits(es) && PossibleRun(s, es) && !RightRun(s, es)
  {
    if s.handlers[n].entered {
      var t, u :| t in s.inside && u in s.inside && t != u && s.inside[t] == n == s.inside[u];
      SecondExitWrong(s, t, u, cb);
      es := [Exiting(u, cb), Exiting(t, cb)];
    } else {
      var t :| t in s.inside && s.inside[t] == n;
      es := [Exiting(t, cb)];
    }
  }

  /** Two threads inside one call: when both leave, the second exit is taken for an entry. */
  lemma {:induction false} SecondExitWrong(s: Threads, t: int, u: int, cb: Callbacks)
    requires t in s.inside && u in s.inside && t != u && s.inside[t] == s.inside[u] && Awake(s.handlers, s.inside[t])
    requires s.handlers[s.inside[t]].entered
    ensures PossibleRun(s, [Exiting(u, cb), Exiting(t, cb)]) && !RightRun(s, [Exiting(u, cb), Exiting(t, cb)])
  {
    var es := [Exiting(u, cb), Exiting(t, cb)];
    assert es[1..] == [Exiting(t, cb)] && es[1..][1..] == [];
    var n := Next(s, es[0]);
    assert n.inside[t] == s.inside[t] && !n.handlers[n.inside[t]].entered;
    assert !Right(n, Exiting(t, cb));
  }

  /** An entry that is not kept apart is taken for an exit, or leaves two threads inside one call. */
  lemma {:induction false} OverlapBreaks(s: Threads, tid: int, n: int, cb: Callbacks)
    requires AllPaired(s) && Possible(s, Entering(tid, n, cb)) && !Apart(s, Entering(tid, n, cb))
    ensures Right(s, Entering(tid, n, cb)) ==>
              Broken(Next(s, Entering(tid, n, cb)), HandleStop(s.handlers, n, cb).number)
  {
    var hs, e := s.handlers, Entering(tid, n, cb);
    var f, t := HandleStop(hs, n, cb).number, Next(s, e);
    if Right(s, e) {
      var u :| u in s.inside && s.inside[u] == f;
      assert t.inside[u] == f == t.inside[tid];
      StopFlags(s, e, f);
    }
  }

  lemma {:induction false} OverlapFails(s: Threads, es: seq<Happening>, cb: Callbacks) returns (more: seq<Happening>)
    requires AllPaired(s) && PossibleRun(s, es) && !ApartRun(s, es) && RightRun(s, es)
    ensures OnlyExits(more) && PossibleRun(After(s, es), more) && !RightRun(After(s, es), more)
    decreases |es|
  {
    var n := Next(s, es[0]);
    if Apart(s, es[0]) {
      EventPairs(s, es[0]);
      more := OverlapFails(n, es[1..], cb);
    } else {
      var f := HandleStop(s.handlers, es[0].number, es[0].cb).number;
      OverlapBreaks(s, es[0].tid, es[0].number, es[0].cb);
      BrokenRun(n, es[1..], f);
      more := SomeExitWrong(After(s, es), f, cb);
    }
  }

  lemma {:induction false} PairedAfter(s: Threads, es: seq<Happening>)
    requires AllPaired(s) && PossibleRun(s, es) && ApartRun(s, es)
    ensures AllPaired(After(s, es))
    decreases |es|
  {
    if es != [] {
      EventPairs(s, es[0]);
      PairedAfter(Next(s, es[0]), es[1..]);
    }
  }

  lemma {:induction false} ExitsAreApart(s: Threads, es: seq<Happening>)
    requires OnlyExits(es)
    ensures ApartRun(s, es)
    decreases |es|
  {
    if es != [] {
      ExitsAreApart(Next(s, es[0]), es[1..]);
    }
  }

  /** For any number of threads and every run: all its stops, and those at which the threads inside may
      then leave, are taken for what they are if and only if every entry of the run finds nobody inside
      the call it starts at, nor inside the one it ends at after its hijacks, unless their handlers do
      nothing. */
  lemma {:induction false} RunRightIff(s: Threads, es: seq<Happening>)
    requires AllPaired(s) && PossibleRun(s, es)
    ensures (&& RightRun(s, es)
             && forall more :: OnlyExits(more) && PossibleRun(After(s, es), more) ==> RightRun(After(s, es), more))
            <==> ApartRun(s, es)
  {
    var t := After(s, es);
    if ApartRun(s, es) {
      ApartRunsAreRight(s, es);
      PairedAfter(s, es);
      forall more | OnlyExits(more) && PossibleRun(t, more)
        ensures RightRun(t, more)
      {
        ExitsAreApart(t, more);
        ApartRunsAreRight(t, more);
      }
    } else if RightRun(s, es) {
      var more := OverlapFails(s, es, (ran, n) => Leave);
      assert !RightRun(t, more);
    }
  }
}
