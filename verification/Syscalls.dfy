/** The system call dispatcher of one traced thread. The kernel stops the thread when it
    enters and when it leaves a system call and does not say which; the dispatcher tells them
    apart by a flag on the handler of the number it finds. */
module Syscalls {
  import opened Options
  import opened HijackChains

  datatype Handler = Handler(
    onEnter: bool, onExit: bool, enterPrint: bool, exitPrint: bool,  // which callbacks are set
    recursive: bool, enabled: bool, hits: nat,
    entered: bool, skip: bool)

  type Handlers = map<int, Handler>

  function RulesOf(hs: Handlers): (r: map<int, Rule>)
    ensures r.Keys == hs.Keys
  {
    map n | n in hs :: Rule(hs[n].onEnter && hs[n].enabled, hs[n].recursive)
  }

  /** A handler that does nothing at either stop: disabled, not printing, and without an exit
      callback. */
  predicate Dormant(h: Handler) {
    !h.enabled && !h.enterPrint && !h.exitPrint && !h.onExit
  }

  /** A handler without user callbacks stops the process. */
  predicate Stops(h: Handler) {
    !h.onEnter && !h.onExit && h.enabled
  }

  /** The flags left by the enter walk. */
  function EnterEffect(hs: Handlers, c: Chain): (r: Handlers)
    requires c.last in hs
    ensures r.Keys == hs.Keys
  {
    var h := hs[c.last];
    if c.looped then hs
    else if h.onEnter && h.enabled then
      if c.number == c.last then hs[c.last := h.(entered := true)]
      else if c.number in hs then hs[c.number := hs[c.number].(entered := true, skip := true)]
      else hs
    else if Dormant(h) then hs
    else hs[c.last := h.(entered := true)]
  }

  function ExitEffect(h: Handler): Handler {
    h.(hits := if h.enabled && !h.skip then h.hits + 1 else h.hits, entered := false, skip := false)
  }

  /** What a stop leaves: the handlers, the number, the enter callbacks that ran, whether the user's exit
      callback ran, whether the process has to stay stopped, and whether a loop was reported. */
  datatype Outcome = Outcome(handlers: Handlers, number: int, ran: seq<int>, exited: bool, halt: bool, looped: bool)

  /** What the dispatcher does at a stop, whichever of the two it is. */
  function HandleStop(hs: Handlers, n: int, cb: Callbacks): Outcome {
    if n !in hs then Outcome(hs, n, [], false, false, false)
    else if hs[n].entered then
      Outcome(hs[n := ExitEffect(hs[n])], n, [], hs[n].onExit && hs[n].enabled && !hs[n].skip, Stops(hs[n]), false)
    else
      var c := Walk(RulesOf(hs), cb, n);
      EachCallbackAtMostOnce(RulesOf(hs), cb, n);
      Outcome(EnterEffect(hs, c), c.number, c.ran, false, !c.looped && Stops(hs[c.last]), c.looped)
  }

  // ---------------------------------------------------------------------------- runs of stops

  datatype Event =
    | Enter(number: int, cb: Callbacks)
    | Exit(cb: Callbacks)
    | Toggle(number: int, on: bool)
    | Install(number: int, handler: Handler)
    | Remove(number: int)

  /** The handlers, and the number of the system call the thread is inside of. */
  datatype State = State(handlers: Handlers, inside: Option<int>)

  /** Enter and exit stops alternate, handlers change only outside, and no loop is found. */
  predicate Legal(s: State, e: Event) {
    match e
    case Enter(n, cb) => s.inside.None? && !HandleStop(s.handlers, n, cb).looped
    case Exit(_) => s.inside.Some?
    case Install(_, h) => s.inside.None? && !h.entered && !h.skip
    case Toggle(_, _) => s.inside.None?
    case Remove(_) => s.inside.None?
  }

  function Step(s: State, e: Event): State {
    match e
    case Enter(n, cb) =>
      var o := HandleStop(s.handlers, n, cb);
      State(o.handlers, Some(o.number))
    case Exit(cb) =>
      if s.inside.None? then s else State(HandleStop(s.handlers, s.inside.value, cb).handlers, None)
    case Toggle(n, on) =>
      if n !in s.handlers then s
      else s.(handlers := s.handlers[n := s.handlers[n].(enabled := on, entered := false)])
    case Install(n, h) => s.(handlers := s.handlers[n := h])
    case Remove(n) => s.(handlers := s.handlers - {n})
  }

  /** Outside a system call no handler carries a flag; inside one only the handler of the
      final number may, and it has been entered unless it would do nothing anyway. */
  ghost predicate Paired(s: State) {
    && (forall n :: n in s.handlers && Some(n) != s.inside ==> !s.handlers[n].entered && !s.handlers[n].skip)
    && (s.inside.Some? && s.inside.value in s.handlers ==>
          var h := s.handlers[s.inside.value];
          (!Dormant(h) ==> h.entered) && (h.skip ==> h.entered))
  }

  lemma {:induction false} EnterPairs(s: State, n: int, cb: Callbacks)
    requires Paired(s) && Legal(s, Enter(n, cb))
    ensures Paired(Step(s, Enter(n, cb)))
  {
    var hs := s.handlers;
    if n in hs {
      WalkEnds(RulesOf(hs), cb, n, n);
    }
  }

  lemma {:induction false} StepPairs(s: State, e: Event)
    requires Paired(s) && Legal(s, e)
    ensures Paired(Step(s, e))
  {
    match e {
      case Enter(n, cb) => EnterPairs(s, n, cb);
      case Exit(cb) =>
      case _ =>
    }
  }

  predicate LegalRun(s: State, es: seq<Event>)
    decreases |es|
  {
    es == [] || (Legal(s, es[0]) && LegalRun(Step(s, es[0]), es[1..]))
  }

  function Run(s: State, es: seq<Event>): State
    decreases |es|
  {
    if es == [] then s else Run(Step(s, es[0]), es[1..])
  }

  /** The pairing of enter and exit stops holds in every run. */
  lemma {:induction false} RunsPair(s: State, es: seq<Event>)
    requires Paired(s) && LegalRun(s, es)
    ensures Paired(Run(s, es))
    decreases |es|
  {
    if es != [] {
      StepPairs(s, es[0]);
      RunsPair(Step(s, es[0]), es[1..]);
    }
  }

  /** So an exit stop is always taken for what it is: the handler of the final number is
      exited, or, if it does nothing at either stop, neither its flags nor a callback run. */
  lemma {:induction false} ExitIsExit(s: State, cb: Callbacks)
    requires Paired(s) && s.inside.Some? && s.inside.value in s.handlers
    ensures var f := s.inside.value;
            var h := s.handlers[f];
            var o := HandleStop(s.handlers, f, cb);
            && o.ran == [] && !o.looped
            && o.handlers == (if h.entered then s.handlers[f := ExitEffect(h)] else s.handlers)
            && (!Dormant(h) ==> h.entered)
  {
  }

  // ------------------------------------------------------------------ stopping and exit callbacks

  /** The call was reached by a hijack that is not recursive. */
  predicate Sneaked(hs: Handlers, o: Outcome) {
    o.ran != [] && var from := o.ran[|o.ran| - 1]; from != o.number && from in hs && !hs[from].recursive
  }

  /** The process stays stopped at the entry of a call exactly when its final handler is enabled without a
      user callback and was not reached by a hijack that is not recursive, and at its exit exactly when
      that handler is enabled without a user callback. The user's exit callback runs at the exit
      alone, exactly when the final handler has one, is enabled and was not so reached. The entry leaves
      its flag exactly when that handler is enabled, prints, or has an exit callback, or was so reached. */
  lemma {:induction false} CallStopsIff(s: State, es: seq<Event>, n: int, entry: Callbacks, exit: Callbacks)
    requires Paired(s) && LegalRun(s, es) && Legal(Run(s, es), Enter(n, entry))
    ensures var before := Run(s, es);
            var hs := before.handlers;
            var o := HandleStop(hs, n, entry);
            var x := HandleStop(Step(before, Enter(n, entry)).handlers, o.number, exit);
            var silent := o.number in hs && hs[o.number].enabled && !hs[o.number].onEnter && !hs[o.number].onExit;
            && (o.halt <==> silent && !Sneaked(hs, o))
            && (x.halt <==> silent)
            && !o.exited
            && (x.exited <==> o.number in hs && hs[o.number].enabled && hs[o.number].onExit && !Sneaked(hs, o))
            && x.ran == []
            && (o.number in hs ==>
                  var h := hs[o.number];
                  o.handlers[o.number].entered <==>
                  h.enabled || h.enterPrint || h.exitPrint || h.onExit || Sneaked(hs, o))
  {
    RunsPair(s, es);
    var before := Run(s, es);
    StepPairs(before, Enter(n, entry));
    EntryLeaves(before, n, entry);
  }

  /** What an entry leaves of its final handler. */
  lemma {:induction false} EntryLeaves(s: State, n: int, cb: Callbacks)
    requires Paired(s) && Legal(s, Enter(n, cb))
    ensures var hs := s.handlers;
            var o := HandleStop(hs, n, cb);
            && (o.number in hs ==>
                  var h := o.handlers[o.number];
                  h == hs[o.number].(entered := h.entered, skip := Sneaked(hs, o)))
            && (o.number in hs ==>
                  (o.handlers[o.number].entered <==> !Dormant(hs[o.number]) || Sneaked(hs, o)))
            && (o.halt <==> o.number in hs && Stops(hs[o.number]) && !Sneaked(hs, o))
  {
    var hs := s.handlers;
    if n in hs {
      WalkEnds(RulesOf(hs), cb, n, n);
      WalkFollows(RulesOf(hs), cb, n);
    }
  }

  // ------------------------------------------------------------------------------- hit counts

  /** The handler stays as it is: enabled, with an enter callback of the user's. */
  predicate Steady(hs: Handlers, h: int) {
    h in hs && hs[h].enabled && hs[h].onEnter
  }

  predicate Untouched(e: Event, h: int) {
    e.Enter? || e.Exit? || e.number != h
  }

  /** Whether the thread is inside a call whose enter callback left the number alone. */
  function InCall(s: State, h: int): nat {
    if s.inside == Some(h) && h in s.handlers && s.handlers[h].entered && !s.handlers[h].skip then 1 else 0
  }

  /** The enter callbacks of h run by an event that left the number alone. */
  function KeptBy(s: State, e: Event, h: int): nat {
    if e.Enter? then KeptCalls(e.cb, HandleStop(s.handlers, e.number, e.cb).ran, h) else 0
  }

  lemma {:induction false} StepCounts(s: State, e: Event, h: int)
    requires Paired(s) && Legal(s, e) && Steady(s.handlers, h) && Untouched(e, h)
    ensures var t := Step(s, e);
            && Steady(t.handlers, h)
            && t.handlers[h].hits + InCall(t, h) == s.handlers[h].hits + InCall(s, h) + KeptBy(s, e, h)
  {
    var hs := s.handlers;
    match e {
      case Enter(n, cb) =>
        if n in hs {
          WalkEnds(RulesOf(hs), cb, n, h);
        }
      case Exit(cb) =>
        if s.inside.value in hs {
          ExitIsExit(s, cb);
        }
      case _ =>
    }
  }

  function KeptInRun(s: State, es: seq<Event>, h: int): nat
    decreases |es|
  {
    if es == [] then 0 else KeptBy(s, es[0], h) + KeptInRun(Step(s, es[0]), es[1..], h)
  }

  /** Over a whole run a handler's hits are the calls of its enter callback that left the number
      alone, less the one the thread is still inside of; system calls reached by a hijack that
      is not recursive count for neither. */
  lemma {:induction false} HitsCountKeptCalls(s: State, es: seq<Event>, h: int)
    requires Paired(s) && LegalRun(s, es) && Steady(s.handlers, h)
    requires forall i :: 0 <= i < |es| ==> Untouched(es[i], h)
    ensures var t := Run(s, es);
            && Steady(t.handlers, h)
            && t.handlers[h].hits + InCall(t, h) == s.handlers[h].hits + InCall(s, h) + KeptInRun(s, es, h)
    decreases |es|
  {
    if es != [] {
      StepCounts(s, es[0], h);
      StepPairs(s, es[0]);
      HitsCountKeptCalls(Step(s, es[0]), es[1..], h);
    }
  }

  /** A loop error breaks the pairing: the number left is that of a handler that was not
      entered, so the stop at which the thread leaves the call is taken for another entry. */
  lemma {:induction false} LoopErrorUnpairs(s: State, n: int, cb: Callbacks, cb': Callbacks)
    requires Paired(s) && s.inside.None? && n in s.handlers && HandleStop(s.handlers, n, cb).looped
    ensures var o := HandleStop(s.handlers, n, cb);
            && o.number in s.handlers && !o.handlers[o.number].entered
            && HandleStop(o.handlers, o.number, cb').ran != []
  {
    FollowLoopTarget(RulesOf(s.handlers), cb, n, {n}, [], false);
    var o := HandleStop(s.handlers, n, cb);
    FollowRuns(RulesOf(s.handlers), cb', o.number, {o.number}, [], false);
  }

  lemma {:induction false} FollowLoopTarget(
    rules: map<int, Rule>, cb: Callbacks, n: int, visited: set<int>, ran: seq<int>, touched: bool)
    requires n in visited && visited <= rules.Keys
    requires forall m :: m in visited && m != n ==> rules[m].active
    ensures var c := Follow(rules, cb, n, visited, ran, touched);
            c.looped ==> c.number in rules && rules[c.number].active
    decreases |rules.Keys - visited|
  {
    if rules[n].active {
      var answer := cb(ran, n);
      var t := Left(answer, n);
      if t != n && rules[n].recursive && t in rules && t !in visited {
        Shrinks(rules.Keys, visited, t);
        FollowLoopTarget(rules, cb, t, visited + {t}, ran + [n], touched || answer.Assign?);
      }
    }
  }

  lemma {:induction false} FollowRuns(
    rules: map<int, Rule>, cb: Callbacks, n: int, visited: set<int>, ran: seq<int>, touched: bool)
    requires n in visited && visited <= rules.Keys
    ensures |Follow(rules, cb, n, visited, ran, touched).ran| >= |ran| + (if rules[n].active then 1 else 0)
    decreases |rules.Keys - visited|
  {
    if rules[n].active {
      var answer := cb(ran, n);
      var t := Left(answer, n);
      if t != n && rules[n].recursive && t in rules && t !in visited {
        Shrinks(rules.Keys, visited, t);
        FollowRuns(rules, cb, t, visited + {t}, ran + [n], touched || answer.Assign?);
      }
    }
  }

  /** The flags belong to the handler and not to the thread: while one thread is inside a call, the
      entry of another into the same call is taken for the first one's exit, and that exit for an
      entry. */
  lemma {:induction false} TwoThreadsShareFlags(hs: Handlers, n: int, entry: Callbacks, exit: Callbacks)
    requires n in hs && hs[n].entered && hs[n].enabled && hs[n].onEnter
    ensures var o := HandleStop(hs, n, entry);
            o.ran == [] && HandleStop(o.handlers, n, exit).ran != []
  {
    FollowRuns(RulesOf(HandleStop(hs, n, entry).handlers), exit, n, {n}, [], false);
  }

  /** The dispatcher reports a loop exactly when the stop is taken for the entry of a handled call and the
      enabled recursive hijacks never end. */
  lemma {:induction false} SyscallLoopIffEndless(hs: Handlers, n: int, cb: Callbacks)
    requires Constant(cb)
    ensures HandleStop(hs, n, cb).looped <==> n in hs && !hs[n].entered && Endless(RulesOf(hs), cb, n)
  {
    if n in hs {
      LoopIffEndless(RulesOf(hs), cb, n);
    }
  }

  /** After a handler is enabled or disabled outside a call, its enter callback runs at the next entry if and
      only if it has one and was enabled; its flags are clear and all else is as before. */
  lemma {:induction false} ToggleDecides(s: State, n: int, on: bool, cb: Callbacks)
    requires Paired(s) && s.inside.None? && n in s.handlers
    ensures var t := Step(s, Toggle(n, on));
            && t == s.(handlers := s.handlers[n := s.handlers[n].(enabled := on)])
            && (HandleStop(t.handlers, n, cb).ran != [] <==> on && s.handlers[n].onEnter)
  {
    var hs := Step(s, Toggle(n, on)).handlers;
    WalkFollows(RulesOf(hs), cb, n);
  }

  // --------------------------------------------------------------------------- the dispatcher

  class Dispatcher {
    var handlers: Handlers
    var number: int    // the thread's system call number
    var resume: bool

    constructor ()
      ensures handlers == map[] && resume
    {
      handlers := map[];
      number := 0;
      resume := true;
    }

    /** The enter callback of one handler, and those of the numbers it hijacks to. */
    method OnEnter(n: int, cb: Callbacks, visited: set<int>, ran: seq<int>, touched: bool) returns (c: Chain)
      requires n in visited && visited <= handlers.Keys && number == n
      modifies this
      ensures c == Follow(RulesOf(old(handlers)), cb, n, visited, ran, touched)
      ensures c.last in old(handlers) && handlers == EnterEffect(old(handlers), c)
      ensures number == c.number
      ensures resume == (old(resume) && (c.looped || !Stops(old(handlers)[c.last])))
      decreases |handlers.Keys - visited|
    {
      var h := handlers[n];
      ghost var rules := RulesOf(handlers);
      assert rules[n] == Rule(h.onEnter && h.enabled, h.recursive);
      if h.onEnter && h.enabled {
        var answer := cb(ran, n);
        number := Left(answer, n);
        c := Chain(n, number, ran + [n], touched || answer.Assign?, false);
        if number != n {
          if number in handlers {
            if h.recursive {
              if number in visited {
                c := c.(looped := true);
                return;
              }
              Shrinks(handlers.Keys, visited, number);
              c := OnEnter(number, cb, visited + {number}, ran + [n], touched || answer.Assign?);
              return;
            } else {
              handlers := handlers[number := handlers[number].(entered := true, skip := true)];
            }
          }
        } else {
          handlers := handlers[n := h.(entered := true)];
        }
      } else {
        c := Chain(n, n, ran, touched, false);
        EnterWithoutCallback(n);
      }
    }

    /** The rest of the enter path for a handler whose user callback does not run. */
    method EnterWithoutCallback(n: int)
      requires n in handlers && !(handlers[n].onEnter && handlers[n].enabled)
      modifies this`handlers, this`resume
      ensures handlers == if Dormant(old(handlers)[n]) then old(handlers)
                          else old(handlers)[n := old(handlers)[n].(entered := true)]
      ensures resume == (old(resume) && !Stops(old(handlers)[n]))
    {
      var h := handlers[n];
      if h.enterPrint || h.exitPrint || h.onExit {
        handlers := handlers[n := h.(entered := true)];
      }
      if !h.onEnter && !h.onExit && h.enabled {
        handlers := handlers[n := h.(entered := true)];
        resume := false;
      }
    }

    /** A system call stop; the results say whether a hijacking loop was reported and whether the user's
        exit callback ran. */
    method HandleSyscall(cb: Callbacks) returns (looped: bool, exited: bool)
      modifies this
      ensures var o := HandleStop(old(handlers), old(number), cb);
              && handlers == o.handlers && number == o.number && looped == o.looped && exited == o.exited
              && resume == (old(resume) && !o.halt)
    {
      looped, exited := false, false;
      if number !in handlers {
        return;
      }
      var h := handlers[number];
      if !h.entered {
        EachCallbackAtMostOnce(RulesOf(handlers), cb, number);
        var c := OnEnter(number, cb, {number}, [], false);
        looped := c.looped;
      } else {
        if h.enabled && !h.skip {
          h := h.(hits := h.hits + 1);
        }
        exited := h.onExit && h.enabled && !h.skip;
        handlers := handlers[number := h.(entered := false, skip := false)];
        if Stops(h) {
          resume := false;
        }
      }
    }
  }
}
