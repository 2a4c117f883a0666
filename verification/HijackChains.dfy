/** Following hijacks: a callback may replace the number of the system call or signal being
    handled, and a recursive handler passes the new number on to the handler of that number,
    unless the chain has been there before. System calls and signals share this walk. */
module HijackChains {
  import opened Options

  /** What the walk asks of a handler: whether its callback runs, and whether it is recursive. */
  datatype Rule = Rule(active: bool, recursive: bool)

  /** What a callback does with the number: leave it alone or assign it. */
  datatype Answer = Leave | Assign(number: int)

  /** Arbitrary callbacks: the answer may depend on the callbacks already run in this event. */
  type Callbacks = (seq<int>, int) -> Answer

  /** How a walk ended: the handler consulted last, the number left, the handlers whose
      callbacks ran, whether any of them assigned the number, and whether a loop was found. */
  datatype Chain = Chain(last: int, number: int, ran: seq<int>, touched: bool, looped: bool)

  function Left(a: Answer, n: int): int {
    if a.Assign? then a.number else n
  }

  function Follow(rules: map<int, Rule>, cb: Callbacks, n: int, visited: set<int>, ran: seq<int>, touched: bool): Chain
    requires n in visited && visited <= rules.Keys
    decreases |rules.Keys - visited|
  {
    if !rules[n].active then Chain(n, n, ran, touched, false)
    else
      var answer := cb(ran, n);
      var t := Left(answer, n);
      var touched' := touched || answer.Assign?;
      if t != n && rules[n].recursive && t in rules then
        if t in visited then Chain(n, t, ran + [n], touched', true)
        else
          Shrinks(rules.Keys, visited, t);
          Follow(rules, cb, t, visited + {t}, ran + [n], touched')
      else Chain(n, t, ran + [n], touched', false)
  }

  lemma {:induction false} Shrinks(keys: set<int>, visited: set<int>, t: int)
    requires t in keys && t !in visited
    ensures |keys - (visited + {t})| < |keys - visited|
  {
    assert keys - visited == (keys - (visited + {t})) + {t};
  }

  /** The walk for one event. */
  function Walk(rules: map<int, Rule>, cb: Callbacks, n: int): Chain
    requires n in rules
  {
    Follow(rules, cb, n, {n}, [], false)
  }

  predicate Distinct(s: seq<int>) {
    forall i, j :: 0 <= i < j < |s| ==> s[i] != s[j]
  }

  lemma {:induction false} FollowRunsOnce(
    rules: map<int, Rule>, cb: Callbacks, n: int, visited: set<int>, ran: seq<int>, touched: bool)
    requires n in visited && visited <= rules.Keys
    requires Distinct(ran) && forall i :: 0 <= i < |ran| ==> ran[i] in visited && ran[i] != n && rules[ran[i]].active
    ensures var c := Follow(rules, cb, n, visited, ran, touched);
            && Distinct(c.ran)
            && c.last in rules
            && (forall i :: 0 <= i < |c.ran| ==> c.ran[i] in rules && rules[c.ran[i]].active)
    decreases |rules.Keys - visited|
  {
    if rules[n].active {
      var answer := cb(ran, n);
      var t := Left(answer, n);
      if t != n && rules[n].recursive && t in rules && t !in visited {
        Shrinks(rules.Keys, visited, t);
        FollowRunsOnce(rules, cb, t, visited + {t}, ran + [n], touched || answer.Assign?);
      }
    }
  }

  /** Whatever the callbacks do, the walk ends, and it runs each active handler's callback at
      most once. */
  lemma {:induction false} EachCallbackAtMostOnce(rules: map<int, Rule>, cb: Callbacks, n: int)
    requires n in rules
    ensures var c := Walk(rules, cb, n);
            && Distinct(c.ran)
            && c.last in rules
            && forall i :: 0 <= i < |c.ran| ==> c.ran[i] in rules && rules[c.ran[i]].active
  {
    FollowRunsOnce(rules, cb, n, {n}, [], false);
  }

  // ------------------------------------------------------------------ loop detection is exact

  /** Hijacks to a fixed number. */
  ghost predicate Constant(cb: Callbacks) {
    forall r: seq<int>, n: int :: cb(r, n) == cb([], n)
  }

  /** Where an enabled recursive hijack passes a number on to. */
  function Hop(rules: map<int, Rule>, cb: Callbacks, n: int): Option<int> {
    if n in rules && rules[n].active then
      var t := Left(cb([], n), n);
      if t != n && rules[n].recursive && t in rules then Some(t) else None
    else None
  }

  function Hops(rules: map<int, Rule>, cb: Callbacks, n: int, k: nat): Option<int> {
    if k == 0 then Some(n)
    else
      match Hops(rules, cb, n, k - 1)
      case None => None
      case Some(m) => Hop(rules, cb, m)
  }

  ghost predicate Endless(rules: map<int, Rule>, cb: Callbacks, n: int) {
    forall k: nat :: Hops(rules, cb, n, k).Some?
  }

  /** Numbers that hop only among themselves never stop. */
  lemma {:induction false} ClosedNeverStops(rules: map<int, Rule>, cb: Callbacks, n: int, s: set<int>, k: nat)
    requires n in s && forall m :: m in s ==> Hop(rules, cb, m).Some? && Hop(rules, cb, m).value in s
    ensures Hops(rules, cb, n, k).Some? && Hops(rules, cb, n, k).value in s
  {
    if k > 0 {
      ClosedNeverStops(rules, cb, n, s, k - 1);
    }
  }

  lemma {:induction false} FollowLoops(
    rules: map<int, Rule>, cb: Callbacks, start: int, n: int, visited: set<int>, ran: seq<int>, touched: bool)
    requires Constant(cb) && n in visited && visited <= rules.Keys && start in visited
    requires Hops(rules, cb, start, |ran|) == Some(n)
    requires forall m :: m in visited && m != n ==> Hop(rules, cb, m).Some? && Hop(rules, cb, m).value in visited
    ensures Follow(rules, cb, n, visited, ran, touched).looped <==> Endless(rules, cb, start)
    decreases |rules.Keys - visited|
  {
    assert cb(ran, n) == cb([], n);
    assert Hops(rules, cb, start, |ran| + 1) == Hop(rules, cb, n);
    if Hop(rules, cb, n).Some? {
      var t := Hop(rules, cb, n).value;
      if t in visited {
        forall k: nat
          ensures Hops(rules, cb, start, k).Some?
        {
          ClosedNeverStops(rules, cb, start, visited, k);
        }
      } else {
        Shrinks(rules.Keys, visited, t);
        FollowLoops(rules, cb, start, t, visited + {t}, ran + [n], touched || cb(ran, n).Assign?);
      }
    } else {
      assert !Endless(rules, cb, start);
    }
  }

  /** For hijacks to fixed numbers a loop is reported if and only if following the enabled
      recursive hijacks from the start never ends. */
  lemma {:induction false} LoopIffEndless(rules: map<int, Rule>, cb: Callbacks, n: int)
    requires Constant(cb) && n in rules
    ensures Walk(rules, cb, n).looped <==> Endless(rules, cb, n)
  {
    assert Hops(rules, cb, n, 0) == Some(n);
    FollowLoops(rules, cb, n, n, {n}, [], false);
  }

  // --------------------------------------------------------------------- where a walk ends

  /** How many of the callbacks run were handler h's and left the number as it was. */
  function KeptCalls(cb: Callbacks, ran: seq<int>, h: int): nat {
    if ran == [] then 0
    else
      var before := ran[..|ran| - 1];
      KeptCalls(cb, before, h)
      + (if ran[|ran| - 1] == h && Left(cb(before, h), h) == h then 1 else 0)
  }

  /** A walk that found no loop ends at a handler whose callback does not run, or whose
      callback left the number, or gave one that is not passed on. */
  predicate EndsWell(rules: map<int, Rule>, c: Chain) {
    && c.last in rules
    && if rules[c.last].active then c.number == c.last || !rules[c.last].recursive || c.number !in rules
       else c.number == c.last
  }

  lemma {:induction false} FollowEnds(
    rules: map<int, Rule>, cb: Callbacks, n: int, visited: set<int>, ran: seq<int>, touched: bool, h: int)
    requires n in visited && visited <= rules.Keys
    ensures var c := Follow(rules, cb, n, visited, ran, touched);
            && (!c.looped ==> EndsWell(rules, c))
            && KeptCalls(cb, c.ran, h) == KeptCalls(cb, ran, h)
               + (if !c.looped && c.last == c.number == h && h in rules && rules[h].active then 1 else 0)
    decreases |rules.Keys - visited|
  {
    if rules[n].active {
      var answer := cb(ran, n);
      var t := Left(answer, n);
      assert (ran + [n])[..|ran|] == ran;
      if t != n && rules[n].recursive && t in rules && t !in visited {
        Shrinks(rules.Keys, visited, t);
        FollowEnds(rules, cb, t, visited + {t}, ran + [n], touched || answer.Assign?, h);
      }
    }
  }

  lemma {:induction false} WalkEnds(rules: map<int, Rule>, cb: Callbacks, n: int, h: int)
    requires n in rules
    ensures var c := Walk(rules, cb, n);
            && (!c.looped ==> EndsWell(rules, c))
            && KeptCalls(cb, c.ran, h) ==
               if !c.looped && c.last == c.number == h && h in rules && rules[h].active then 1 else 0
  {
    FollowEnds(rules, cb, n, {n}, [], false, h);
  }

  /** The number that the k-th callback of a run leaves. */
  function LeftBy(cb: Callbacks, ran: seq<int>, k: nat): int
    requires k < |ran|
  {
    Left(cb(ran[..k], ran[k]), ran[k])
  }

  /** Each callback that ran is active, and hands the number on to the next one, being recursive. */
  predicate HandsOn(rules: map<int, Rule>, cb: Callbacks, ran: seq<int>) {
    && (forall k :: 0 <= k < |ran| ==> ran[k] in rules && rules[ran[k]].active)
    && (forall k :: 0 <= k < |ran| - 1 ==> rules[ran[k]].recursive && LeftBy(cb, ran, k) == ran[k + 1] != ran[k])
  }

  /** How a walk in which some callback ran ends: the number is what the last callback left. If that one
      kept it, or is not recursive, or left the number of no handler, it is the end. Otherwise the number is
      that of a handler that has run, which is a loop, or of one whose callback does not run. */
  predicate EndsAsLeft(rules: map<int, Rule>, cb: Callbacks, c: Chain)
    requires c.ran != []
  {
    var end := c.ran[|c.ran| - 1];
    var passed := c.number != end && end in rules && rules[end].recursive && c.number in rules;
    && c.number == LeftBy(cb, c.ran, |c.ran| - 1)
    && (c.looped <==> passed && c.number in c.ran)
    && (passed && !c.looped ==> !rules[c.number].active)
    && c.last == if passed && !c.looped then c.number else end
  }

  /** The whole walk, from the callbacks alone. */
  lemma {:induction false} WalkFollows(rules: map<int, Rule>, cb: Callbacks, n: int)
    requires n in rules
    ensures var c := Walk(rules, cb, n);
            && HandsOn(rules, cb, c.ran)
            && if !rules[n].active then c.ran == [] && c.number == c.last == n && !c.looped
               else c.ran != [] && c.ran[0] == n && EndsAsLeft(rules, cb, c)
  {
    FollowFollows(rules, cb, n, {n}, [], false);
  }

  /** The walk so far has come to n. */
  ghost predicate CameTo(rules: map<int, Rule>, cb: Callbacks, n: int, visited: set<int>, ran: seq<int>) {
    && visited <= rules.Keys && (forall m :: m in visited <==> m in ran || m == n) && n !in ran
    && HandsOn(rules, cb, ran)
    && (ran != [] ==> rules[ran[|ran| - 1]].recursive && LeftBy(cb, ran, |ran| - 1) == n != ran[|ran| - 1])
  }

  lemma {:induction false} FollowFollows(
    rules: map<int, Rule>, cb: Callbacks, n: int, visited: set<int>, ran: seq<int>, touched: bool)
    requires n in visited && CameTo(rules, cb, n, visited, ran)
    ensures var c := Follow(rules, cb, n, visited, ran, touched);
            && ran <= c.ran && HandsOn(rules, cb, c.ran)
            && (if rules[n].active then |c.ran| > |ran| && c.ran[|ran|] == n else c == Chain(n, n, ran, touched, false))
            && (c.ran != [] ==> EndsAsLeft(rules, cb, c))
    decreases |rules.Keys - visited|
  {
    if rules[n].active {
      var answer := cb(ran, n);
      var t, more := Left(answer, n), ran + [n];
      if t != n && rules[n].recursive && t in rules && t !in visited {
        Shrinks(rules.Keys, visited, t);
        CameFurther(rules, cb, n, t, visited, ran);
        FollowFollows(rules, cb, t, visited + {t}, more, touched || answer.Assign?);
        assert more[|ran|] == n;
      } else {
        EndsHere(rules, cb, n, visited, ran, touched);
      }
    } else if ran != [] {
      EndsInactive(rules, cb, n, visited, ran, touched);
    }
  }

  lemma {:induction false} EndsInactive(
    rules: map<int, Rule>, cb: Callbacks, n: int, visited: set<int>, ran: seq<int>, touched: bool)
    requires n in visited && CameTo(rules, cb, n, visited, ran) && !rules[n].active && ran != []
    ensures EndsAsLeft(rules, cb, Chain(n, n, ran, touched, false))
  {
  }

  lemma {:induction false} CameFurther(
    rules: map<int, Rule>, cb: Callbacks, n: int, t: int, visited: set<int>, ran: seq<int>)
    requires n in visited && CameTo(rules, cb, n, visited, ran) && rules[n].active && rules[n].recursive
    requires t == Left(cb(ran, n), n) && t != n && t in rules && t !in visited
    ensures CameTo(rules, cb, t, visited + {t}, ran + [n])
  {
    HandsOnMore(rules, cb, ran, n);
  }

  lemma {:induction false} EndsHere(
    rules: map<int, Rule>, cb: Callbacks, n: int, visited: set<int>, ran: seq<int>, touched: bool)
    requires n in visited && CameTo(rules, cb, n, visited, ran) && rules[n].active
    requires var t := Left(cb(ran, n), n); !(t != n && rules[n].recursive && t in rules && t !in visited)
    ensures var c := Follow(rules, cb, n, visited, ran, touched);
            c.ran == ran + [n] && HandsOn(rules, cb, c.ran) && EndsAsLeft(rules, cb, c)
  {
    HandsOnMore(rules, cb, ran, n);
    var t, more := Left(cb(ran, n), n), ran + [n];
    assert t in more <==> t in ran || t == n;
  }

  lemma {:induction false} HandsOnMore(rules: map<int, Rule>, cb: Callbacks, ran: seq<int>, n: int)
    requires HandsOn(rules, cb, ran) && n in rules && rules[n].active
    requires ran != [] ==> rules[ran[|ran| - 1]].recursive && LeftBy(cb, ran, |ran| - 1) == n != ran[|ran| - 1]
    ensures HandsOn(rules, cb, ran + [n]) && LeftBy(cb, ran + [n], |ran|) == Left(cb(ran, n), n)
  {
    var more := ran + [n];
    assert more[..|ran|] == ran;
    forall k | 0 <= k < |ran|
      ensures LeftBy(cb, more, k) == LeftBy(cb, ran, k)
    {
      assert more[..k] == ran[..k];
    }
  }

  /** The number was touched if and only if some callback that ran assigned it. */
  lemma {:induction false} FollowTouched(
    rules: map<int, Rule>, cb: Callbacks, n: int, visited: set<int>, ran: seq<int>, touched: bool)
    requires n in visited && visited <= rules.Keys
    requires touched <==> exists i :: 0 <= i < |ran| && cb(ran[..i], ran[i]).Assign?
    ensures var c := Follow(rules, cb, n, visited, ran, touched);
            c.touched <==> exists i :: 0 <= i < |c.ran| && cb(c.ran[..i], c.ran[i]).Assign?
    decreases |rules.Keys - visited|
  {
    if rules[n].active {
      var answer := cb(ran, n);
      var t := Left(answer, n);
      var more := ran + [n];
      assert more[..|ran|] == ran && more[|ran|] == n;
      assert forall i :: 0 <= i < |ran| ==> more[..i] == ran[..i];
      if t != n && rules[n].recursive && t in rules && t !in visited {
        Shrinks(rules.Keys, visited, t);
        FollowTouched(rules, cb, t, visited + {t}, more, touched || answer.Assign?);
      }
    }
  }

  /** A walk adds its handlers after those already run, the current one first and then only
      ones not visited before. */
  lemma {:induction false} FollowExtends(
    rules: map<int, Rule>, cb: Callbacks, n: int, visited: set<int>, ran: seq<int>, touched: bool)
    requires n in visited && visited <= rules.Keys
    ensures var c := Follow(rules, cb, n, visited, ran, touched);
            && ran <= c.ran
            && (rules[n].active ==> |c.ran| > |ran| && c.ran[|ran|] == n)
            && (!rules[n].active ==> c.ran == ran)
            && forall i :: |ran| < i < |c.ran| ==> c.ran[i] !in visited
    decreases |rules.Keys - visited|
  {
    if rules[n].active {
      var answer := cb(ran, n);
      var t := Left(answer, n);
      if t != n && rules[n].recursive && t in rules && t !in visited {
        Shrinks(rules.Keys, visited, t);
        FollowExtends(rules, cb, t, visited + {t}, ran + [n], touched || answer.Assign?);
      }
    }
  }
}
