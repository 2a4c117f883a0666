/** The two thread registries: the C layer's lists of live and dead nodes, whose register blocks the
    Python layer points into, and the Python layer's list of thread contexts. */
module ThreadRegistry {
  import opened Searches

  /** A node of the C layer; nodes are numbered in the order of their allocation. */
  datatype Node = Node(id: nat, tid: int)

  /** A thread context: its thread, the node whose registers it reads, and whether it is dead. */
  datatype Context = Context(tid: int, node: nat, dead: bool)

  datatype State = State(live: seq<Node>, dead: seq<Node>, contexts: seq<Context>, next: nat)

  const START := State([], [], [], 0)

  datatype Event = Register(tid: int) | Exit(tid: int)

  // ----------------------------------------------------------------------------- the operations

  function FindNode(nodes: seq<Node>, tid: int, from: nat): (i: nat)
    requires from <= |nodes|
    ensures from <= i <= |nodes|
    ensures i < |nodes| ==> nodes[i].tid == tid
    ensures forall j :: from <= j < i ==> nodes[j].tid != tid
  {
    First(nodes, (n: Node) => n.tid == tid, from)
  }

  /** The first context of a thread, dead or not. */
  function FindContext(cs: seq<Context>, tid: int, from: nat): (i: nat)
    requires from <= |cs|
    ensures from <= i <= |cs|
    ensures i < |cs| ==> cs[i].tid == tid
    ensures forall j :: from <= j < i ==> cs[j].tid != tid
  {
    First(cs, (c: Context) => c.tid == tid, from)
  }

  /** `get_thread_by_id`: the first context of a thread that is not dead. */
  function Lookup(cs: seq<Context>, tid: int, from: nat): (i: nat)
    requires from <= |cs|
    ensures from <= i <= |cs|
    ensures i < |cs| ==> cs[i].tid == tid && !cs[i].dead
    ensures forall j :: from <= j < i ==> cs[j].tid != tid || cs[j].dead
  {
    First(cs, (c: Context) => c.tid == tid && !c.dead, from)
  }

  /** A thread is registered with both layers; the C layer keeps one node for a live thread. */
  function RegisterThread(s: State, tid: int): State {
    var i := FindNode(s.live, tid, 0);
    if i < |s.live| then s.(contexts := s.contexts + [Context(tid, s.live[i].id, false)])
    else State([Node(s.next, tid)] + s.live, s.dead, s.contexts + [Context(tid, s.next, false)], s.next + 1)
  }

  function MoveToDead(s: State, tid: int): State {
    var i := FindNode(s.live, tid, 0);
    if i < |s.live| then s.(live := s.live[..i] + s.live[i + 1..], dead := [s.live[i]] + s.dead) else s
  }

  /** `set_thread_as_dead`: marks the first context of the thread. */
  function MarkDead(cs: seq<Context>, tid: int): (r: seq<Context>)
    ensures |r| == |cs|
  {
    var i := FindContext(cs, tid, 0);
    if i < |cs| then cs[i := cs[i].(dead := true)] else cs
  }

  /** An exit is handled only for a thread with a context that is not dead. */
  function ExitThread(s: State, tid: int): State {
    if Lookup(s.contexts, tid, 0) < |s.contexts| then
      var t := MoveToDead(s, tid);
      t.(contexts := MarkDead(t.contexts, tid))
    else s
  }

  function Step(s: State, e: Event): State {
    match e
    case Register(tid) => RegisterThread(s, tid)
    case Exit(tid) => ExitThread(s, tid)
  }

  function Run(s: State, es: seq<Event>): State
    decreases |es|
  {
    if es == [] then s else Run(Step(s, es[0]), es[1..])
  }

  // ------------------------------------------------------------------------------- the invariant

  predicate IsLive(s: State, tid: int) {
    exists i :: 0 <= i < |s.live| && s.live[i].tid == tid
  }

  /** One node per live thread, the most recently registered first. */
  ghost predicate LiveOrdered(live: seq<Node>) {
    && (forall i, j :: 0 <= i < j < |live| ==> live[i].tid != live[j].tid)
    && (forall i, j :: 0 <= i < j < |live| ==> live[i].id > live[j].id)
  }

  /** The nodes ever allocated are the live and the dead ones, each once. */
  ghost predicate Conserved(s: State) {
    && |s.live| + |s.dead| == s.next
    && (forall i :: 0 <= i < |s.live| ==> s.live[i].id < s.next)
    && (forall i :: 0 <= i < |s.dead| ==> s.dead[i].id < s.next)
    && (forall i, j :: 0 <= i < j < |s.dead| ==> s.dead[i].id != s.dead[j].id)
    && (forall i, j :: 0 <= i < |s.live| && 0 <= j < |s.dead| ==> s.live[i].id != s.dead[j].id)
  }

  /** No context's registers dangle: its node is on one of the lists, with the same thread. */
  ghost predicate NoDangling(s: State) {
    forall c :: c in s.contexts ==> Node(c.node, c.tid) in s.live || Node(c.node, c.tid) in s.dead
  }

  /** Every live thread of the C layer is found by the Python layer. */
  ghost predicate LiveFound(s: State) {
    forall i :: 0 <= i < |s.live| ==> Lookup(s.contexts, s.live[i].tid, 0) < |s.contexts|
  }

  ghost predicate Valid(s: State) {
    LiveOrdered(s.live) && Conserved(s) && NoDangling(s) && LiveFound(s)
  }

  lemma {:induction false} LookupFinds(cs: seq<Context>, tid: int)
    ensures Lookup(cs, tid, 0) < |cs| <==> exists c :: c in cs && c.tid == tid && !c.dead
  {
  }

  lemma {:induction false} LookupKept(cs: seq<Context>, ds: seq<Context>, tid: int)
    requires Lookup(cs, tid, 0) < |cs| && cs[Lookup(cs, tid, 0)] in ds
    ensures Lookup(ds, tid, 0) < |ds|
  {
  }

  lemma {:induction false} RegisterKeeps(s: State, tid: int)
    requires Valid(s)
    ensures Valid(RegisterThread(s, tid))
  {
    var t := RegisterThread(s, tid);
    var c := t.contexts[|s.contexts|];
    assert t.contexts == s.contexts + [c];
    forall i | 0 <= i < |t.live|
      ensures Lookup(t.contexts, t.live[i].tid, 0) < |t.contexts|
    {
      if t.live[i].tid == tid {
        assert c in t.contexts;
        LookupFinds(t.contexts, tid);
      } else {
        assert t.live[i] in s.live;
        LookupKept(s.contexts, t.contexts, t.live[i].tid);
      }
    }
    RegisterNodes(s, tid);
  }

  lemma {:induction false} RegisterNodes(s: State, tid: int)
    requires LiveOrdered(s.live) && Conserved(s) && NoDangling(s)
    ensures var t := RegisterThread(s, tid);
            LiveOrdered(t.live) && Conserved(t) && NoDangling(t)
  {
    var i := FindNode(s.live, tid, 0);
    if i < |s.live| {
      assert s.live[i] in s.live;
    } else {
      NewNode(s, RegisterThread(s, tid), tid);
    }
  }

  lemma {:induction false} NewNode(s: State, t: State, tid: int)
    requires LiveOrdered(s.live) && Conserved(s) && NoDangling(s)
    requires forall i :: 0 <= i < |s.live| ==> s.live[i].tid != tid
    requires t == State([Node(s.next, tid)] + s.live, s.dead, s.contexts + [Context(tid, s.next, false)], s.next + 1)
    ensures LiveOrdered(t.live) && Conserved(t) && NoDangling(t)
  {
  }

  lemma {:induction false} RemovedNodes(live: seq<Node>, i: nat)
    requires LiveOrdered(live) && i < |live|
    ensures var r := live[..i] + live[i + 1..];
            LiveOrdered(r) && forall n :: n in r <==> n in live && n.tid != live[i].tid
  {
  }

  lemma {:induction false} MovedConserved(s: State, i: nat)
    requires LiveOrdered(s.live) && Conserved(s) && i < |s.live|
    ensures Conserved(s.(live := s.live[..i] + s.live[i + 1..], dead := [s.live[i]] + s.dead))
  {
  }

  /** Moving a node from one list to the other. */
  lemma {:induction false} MoveKeeps(s: State, tid: int)
    requires LiveOrdered(s.live) && Conserved(s)
    ensures var t := MoveToDead(s, tid);
            && LiveOrdered(t.live) && Conserved(t)
            && (forall n :: n in t.live <==> n in s.live && n.tid != tid)
            && (forall n :: n in s.live || n in s.dead ==> n in t.live || n in t.dead)
  {
    var i := FindNode(s.live, tid, 0);
    if i < |s.live| {
      RemovedNodes(s.live, i);
      MovedConserved(s, i);
    } else {
      assert forall n :: n in s.live ==> n.tid != tid;
    }
  }

  lemma {:induction false} MarkKeeps(cs: seq<Context>, tid: int)
    ensures var ds := MarkDead(cs, tid);
            && (forall d :: d in ds ==> exists c :: c in cs && c.tid == d.tid && c.node == d.node)
            && (forall c :: c in cs && c.tid != tid ==> c in ds)
  {
  }

  lemma {:induction false} ExitFound(s: State, t: State, tid: int)
    requires LiveFound(s) && t.contexts == MarkDead(s.contexts, tid)
    requires forall n :: n in t.live ==> n in s.live && n.tid != tid
    ensures LiveFound(t)
  {
    MarkKeeps(s.contexts, tid);
    forall i | 0 <= i < |t.live|
      ensures Lookup(t.contexts, t.live[i].tid, 0) < |t.contexts|
    {
      assert t.live[i] in t.live;
      var k := Lookup(s.contexts, t.live[i].tid, 0);
      assert s.contexts[k] in s.contexts;
      LookupKept(s.contexts, t.contexts, t.live[i].tid);
    }
  }

  lemma {:induction false} ExitKeeps(s: State, tid: int)
    requires Valid(s)
    ensures Valid(ExitThread(s, tid))
  {
    if Lookup(s.contexts, tid, 0) < |s.contexts| {
      var t := ExitThread(s, tid);
      MoveKeeps(s, tid);
      ExitFound(s, t, tid);
    }
  }

  /** A registration adds one context, which is not dead and reads the registers of the thread's live node;
      no other context changes. */
  lemma {:induction false} RegisterFinds(s: State, tid: int)
    ensures var t := RegisterThread(s, tid);
            && |t.contexts| == |s.contexts| + 1 && t.contexts[..|s.contexts|] == s.contexts
            && var c := t.contexts[|s.contexts|];
            && c.tid == tid && !c.dead && Node(c.node, tid) in t.live
            && t.dead == s.dead && forall n :: n in s.live ==> n in t.live
  {
    var i := FindNode(s.live, tid, 0);
    var t := RegisterThread(s, tid);
    if i < |s.live| {
      assert s.live[i] == Node(s.live[i].id, tid);
    } else {
      assert t.live[0] == Node(s.next, tid);
    }
  }

  /** Over every run of registrations and exits, thread numbers reused or not: one node per live
      thread, newest first; no node is lost; no context's registers dangle; and every live thread is
      found by the Python layer. */
  lemma {:induction false} RegistryKept(s: State, es: seq<Event>)
    requires Valid(s)
    ensures Valid(Run(s, es))
    decreases |es|
  {
    if es != [] {
      match es[0] {
        case Register(tid) => RegisterKeeps(s, tid);
        case Exit(tid) => ExitKeeps(s, tid);
      }
      RegistryKept(Step(s, es[0]), es[1..]);
    }
  }

  // --------------------------------------------------------------------------- the detaching order

  /** A node that has left the live list does not come back. */
  lemma {:induction false} DeadStaysDead(s: State, es: seq<Event>, n: Node)
    requires n.id < s.next && n !in s.live
    ensures n !in Run(s, es).live
    decreases |es|
  {
    if es != [] {
      DeadStaysDead(Step(s, es[0]), es[1..], n);
    }
  }

  /** The thread registered first, which is the process itself, is the last on the live list for as
      long as it lives, whatever the other threads do: detaching in list order leaves it for last. */
  lemma {:induction false} FirstThreadDetachedLast(pid: int, es: seq<Event>)
    ensures var s := Run(START, [Register(pid)] + es);
            && Valid(s)
            && (Node(0, pid) in s.live ==> s.live[|s.live| - 1] == Node(0, pid))
            && (Node(0, pid) !in s.live ==> Node(0, pid) in s.dead)
  {
    var run := [Register(pid)] + es;
    RegistryKept(START, run);
    var s := Run(START, run);
    assert run[1..] == es;
    var first := RegisterThread(START, pid);
    assert s == Run(first, es);
    assert first.contexts[0] == Context(pid, 0, false);
    FirstContextStays(first, es);
    OldestNode(s, Node(0, pid));
  }

  lemma {:induction false} OldestNode(s: State, n: Node)
    requires Valid(s) && n.id == 0 && |s.contexts| > 0 && s.contexts[0].tid == n.tid && s.contexts[0].node == n.id
    ensures n in s.live ==> s.live[|s.live| - 1] == n
    ensures n !in s.live ==> n in s.dead
  {
    if n in s.live {
      var i :| 0 <= i < |s.live| && s.live[i] == n;
      OldestLast(s.live, i);
    } else {
      assert s.contexts[0] in s.contexts;
    }
  }

  lemma {:induction false} OldestLast(live: seq<Node>, i: nat)
    requires LiveOrdered(live) && i < |live| && live[i].id == 0
    ensures i == |live| - 1
  {
    assert live[|live| - 1].id >= 0;
  }

  lemma {:induction false} FirstContextStays(s: State, es: seq<Event>)
    requires s.contexts != []
    ensures var t := Run(s, es);
            && t.contexts != []
            && t.contexts[0].tid == s.contexts[0].tid && t.contexts[0].node == s.contexts[0].node
    decreases |es|
  {
    if es != [] {
      FirstContextStays(Step(s, es[0]), es[1..]);
    }
  }

  // ---------------------------------------------------------------------------- forwarding signals

  /** The forwarding loop finds no context for a marked thread and tries the same node again. */
  predicate Stuck(s: State, marked: set<int>, cursor: nat) {
    cursor < |s.live| && s.live[cursor].tid in marked &&
    Lookup(s.contexts, s.live[cursor].tid, 0) == |s.contexts|
  }

  /** The contexts of the marked threads among the first k live ones, in list order. */
  function Forwarded(s: State, marked: set<int>, k: nat): seq<nat>
    requires k <= |s.live|
  {
    if k == 0 then []
    else Forwarded(s, marked, k - 1)
         + if s.live[k - 1].tid in marked then [Lookup(s.contexts, s.live[k - 1].tid, 0)] else []
  }

  /** Those are live contexts of marked threads, and every marked live thread's is among them. */
  lemma {:induction false} ForwardedAre(s: State, marked: set<int>, k: nat)
    requires LiveFound(s) && k <= |s.live|
    ensures forall c :: c in Forwarded(s, marked, k) ==>
              c < |s.contexts| && !s.contexts[c].dead && s.contexts[c].tid in marked
    ensures forall i :: 0 <= i < k && s.live[i].tid in marked ==>
              Lookup(s.contexts, s.live[i].tid, 0) in Forwarded(s, marked, k)
  {
    if k > 0 {
      ForwardedAre(s, marked, k - 1);
    }
  }

  /** The cursor of the forwarding loop after a number of passes. */
  function Cursor(s: State, marked: set<int>, passes: nat): (c: nat)
    ensures c <= |s.live|
  {
    if passes == 0 then 0
    else
      var c := Cursor(s, marked, passes - 1);
      if c == |s.live| || Stuck(s, marked, c) then c else c + 1
  }

  lemma {:induction false} CursorHeld(s: State, marked: set<int>, i: nat, passes: nat)
    requires Stuck(s, marked, i)
    ensures Cursor(s, marked, passes) <= i
  {
    if passes > 0 {
      CursorHeld(s, marked, i, passes - 1);
    }
  }

  lemma {:induction false} CursorMoves(s: State, marked: set<int>, passes: nat)
    requires passes <= |s.live| && forall i :: 0 <= i < |s.live| ==> !Stuck(s, marked, i)
    ensures Cursor(s, marked, passes) == passes
  {
    if passes > 0 {
      CursorMoves(s, marked, passes - 1);
    }
  }

  /** The forwarding loop ends if and only if the Python layer has a context for every marked thread
      on the live list. */
  lemma {:induction false} ForwardingEndsIff(s: State, marked: set<int>)
    ensures (exists n :: Cursor(s, marked, n) == |s.live|) <==>
            forall i :: 0 <= i < |s.live| && s.live[i].tid in marked ==>
              exists c :: c in s.contexts && c.tid == s.live[i].tid && !c.dead
  {
    forall i | 0 <= i < |s.live|
      ensures Stuck(s, marked, i) <==>
              s.live[i].tid in marked && forall c :: c in s.contexts && c.tid == s.live[i].tid ==> c.dead
    {
      var k := Lookup(s.contexts, s.live[i].tid, 0);
      assert k < |s.contexts| ==> s.contexts[k] in s.contexts;
    }
    if forall i :: 0 <= i < |s.live| ==> !Stuck(s, marked, i) {
      CursorMoves(s, marked, |s.live|);
    } else {
      var i :| 0 <= i < |s.live| && Stuck(s, marked, i);
      forall n
        ensures Cursor(s, marked, n) != |s.live|
      {
        CursorHeld(s, marked, i, n);
      }
    }
  }

  /** In every reachable state it does end, one pass per live thread. */
  lemma {:induction false} ForwardingEnds(es: seq<Event>, marked: set<int>)
    ensures var s := Run(START, es);
            Cursor(s, marked, |s.live|) == |s.live|
  {
    var s := Run(START, es);
    RegistryKept(START, es);
    forall i | 0 <= i < |s.live|
      ensures !Stuck(s, marked, i)
    {
      assert Lookup(s.contexts, s.live[i].tid, 0) < |s.contexts|;
    }
    CursorMoves(s, marked, |s.live|);
  }

  // ------------------------------------------------------------------------- reused thread numbers

  /** The converse: a context that is not dead has its node on the live list, and no thread has two
      such contexts. */
  ghost predicate Tidy(s: State) {
    && (forall c :: c in s.contexts && !c.dead ==> Node(c.node, c.tid) in s.live)
    && (forall i, j :: 0 <= i < j < |s.contexts| && !s.contexts[i].dead && !s.contexts[j].dead ==>
          s.contexts[i].tid != s.contexts[j].tid)
  }

  /** In a tidy state the context found for a live thread reads the registers of its own node. */
  lemma {:induction false} TidyLookup(s: State, i: nat)
    requires Valid(s) && Tidy(s) && i < |s.live|
    ensures var k := Lookup(s.contexts, s.live[i].tid, 0);
            k < |s.contexts| && s.contexts[k].node == s.live[i].id
  {
  }

  lemma {:induction false} RegisterTidy(s: State, tid: int)
    requires Valid(s) && Tidy(s) && !IsLive(s, tid)
    ensures Tidy(RegisterThread(s, tid))
  {
  }

  /** The exit of a live thread leaves things tidy if and only if no dead context has its number: an
      earlier one would be marked in its place. */
  lemma {:induction false} ExitTidyIff(s: State, tid: int)
    requires Valid(s) && Tidy(s) && IsLive(s, tid)
    ensures Tidy(ExitThread(s, tid)) <==> !s.contexts[FindContext(s.contexts, tid, 0)].dead
  {
    var i := FindNode(s.live, tid, 0);
    assert Lookup(s.contexts, s.live[i].tid, 0) < |s.contexts|;
    var k := Lookup(s.contexts, tid, 0);
    var f := FindContext(s.contexts, tid, 0);
    var t := ExitThread(s, tid);
    assert forall n :: n in t.live <==> n in s.live && n.tid != tid by {
      MoveKeeps(s, tid);
    }
    assert t.contexts == s.contexts[f := s.contexts[f].(dead := true)];
    if s.contexts[f].dead {
      ExitLeavesOne(t, tid, k);
    } else {
      assert f == k;
      ExitStaysTidy(s, t, tid, k);
    }
  }

  lemma {:induction false} ExitLeavesOne(t: State, tid: int, k: nat)
    requires k < |t.contexts| && t.contexts[k].tid == tid && !t.contexts[k].dead
    requires forall n :: n in t.live ==> n.tid != tid
    ensures !Tidy(t)
  {
    assert t.contexts[k] in t.contexts;
  }

  lemma {:induction false} ExitStaysTidy(s: State, t: State, tid: int, k: nat)
    requires Tidy(s) && k < |s.contexts| && s.contexts[k].tid == tid && !s.contexts[k].dead
    requires t.contexts == s.contexts[k := s.contexts[k].(dead := true)]
    requires forall n: Node :: n in s.live && n.tid != tid ==> n in t.live
    ensures Tidy(t)
  {
  }

  ghost predicate Distinct(cs: seq<Context>) {
    forall i, j :: 0 <= i < j < |cs| ==> cs[i].tid != cs[j].tid
  }

  /** No registration of the run uses a number that a context already has. */
  ghost predicate FreshRun(s: State, es: seq<Event>)
    decreases |es|
  {
    es == [] ||
    (&& (es[0].Register? ==> FindContext(s.contexts, es[0].tid, 0) == |s.contexts|)
     && FreshRun(Step(s, es[0]), es[1..]))
  }

  lemma {:induction false} FreshStep(s: State, e: Event)
    requires Valid(s) && Tidy(s) && Distinct(s.contexts)
    requires e.Register? ==> FindContext(s.contexts, e.tid, 0) == |s.contexts|
    ensures Tidy(Step(s, e)) && Distinct(Step(s, e).contexts)
  {
    if e.Register? {
      forall i | 0 <= i < |s.live|
        ensures s.live[i].tid != e.tid
      {
        assert Lookup(s.contexts, s.live[i].tid, 0) < |s.contexts|;
      }
      RegisterTidy(s, e.tid);
    } else {
      var k := Lookup(s.contexts, e.tid, 0);
      if k < |s.contexts| {
        assert s.contexts[k] in s.contexts;
        assert FindContext(s.contexts, e.tid, 0) == k;
        ExitTidyIff(s, e.tid);
      }
    }
  }

  /** Without reused numbers every run stays tidy: the two layers have the same live threads. */
  lemma {:induction false} FreshRunsTidy(s: State, es: seq<Event>)
    requires Valid(s) && Tidy(s) && Distinct(s.contexts) && FreshRun(s, es)
    ensures Valid(Run(s, es)) && Tidy(Run(s, es))
    decreases |es|
  {
    RegistryKept(s, es);
    if es != [] {
      RegistryKept(s, [es[0]]);
      assert Run(s, [es[0]]) == Run(Step(s, es[0]), [es[0]][1..]) == Step(s, es[0]);
      FreshStep(s, es[0]);
      FreshRunsTidy(Step(s, es[0]), es[1..]);
    }
  }

  /** A number reused once is enough: after its second exit the Python layer still has a live context. */
  lemma {:induction false} ReusedNumberLeavesZombie(tid: int)
    ensures var s := Run(START, [Register(tid), Exit(tid), Register(tid), Exit(tid)]);
            s.live == [] && Lookup(s.contexts, tid, 0) < |s.contexts|
  {
    var a := RegisterThread(START, tid);
    assert a == State([Node(0, tid)], [], [Context(tid, 0, false)], 1);
    var b := ExitThread(a, tid);
    assert b == State([], [Node(0, tid)], [Context(tid, 0, true)], 1);
    var c := RegisterThread(b, tid);
    assert c == State([Node(1, tid)], [Node(0, tid)], [Context(tid, 0, true), Context(tid, 1, false)], 2);
    var d := ExitThread(c, tid);
    assert c.contexts[0].dead && !c.contexts[1].dead;
    assert FindContext(c.contexts, tid, 0) == 0 && Lookup(c.contexts, tid, 0) == 1;
    assert MarkDead(c.contexts, tid) == c.contexts;
    assert FindNode(c.live, tid, 0) == 0 && MoveToDead(c, tid).live == [];
    var es := [Register(tid), Exit(tid), Register(tid), Exit(tid)];
    assert es[1..] == [Exit(tid), Register(tid), Exit(tid)];
    assert es[1..][1..] == [Register(tid), Exit(tid)];
    assert es[1..][1..][1..] == [Exit(tid)];
    assert Run(c, [Exit(tid)]) == Run(d, [Exit(tid)][1..]) == d;
    assert Run(b, es[1..][1..]) == d;
    assert Run(a, es[1..]) == d;
  }

  // ------------------------------------------------------------ the registries as the program has them

  class Registry {
    var live: seq<Node>
    var dead: seq<Node>
    var contexts: seq<Context>
    var next: nat

    function Value(): State
      reads this
    {
      State(live, dead, contexts, next)
    }

    constructor ()
      ensures Value() == START && Valid(Value())
    {
      live, dead, contexts, next := [], [], [], 0;
    }

    method RegisterNewThread(tid: int)
      requires Valid(Value())
      modifies this
      ensures Value() == RegisterThread(old(Value()), tid)
      ensures Valid(Value())
    {
      RegisterKeeps(Value(), tid);
      var i := 0;
      while i < |live|
        invariant 0 <= i <= |live| && Value() == old(Value())
        invariant FindNode(live, tid, 0) == FindNode(live, tid, i)
      {
        if live[i].tid == tid {
          contexts := contexts + [Context(tid, live[i].id, false)];
          return;
        }
        i := i + 1;
      }
      live := [Node(next, tid)] + live;
      contexts := contexts + [Context(tid, next, false)];
      next := next + 1;
    }

    /** The C layer's part of an exit. */
    method UnregisterNode(tid: int)
      modifies this`live, this`dead
      ensures Value() == MoveToDead(old(Value()), tid)
    {
      var i := 0;
      while i < |live|
        invariant 0 <= i <= |live| && Value() == old(Value())
        invariant FindNode(live, tid, 0) == FindNode(live, tid, i)
      {
        if live[i].tid == tid {
          dead := [live[i]] + dead;
          live := live[..i] + live[i + 1..];
          return;
        }
        i := i + 1;
      }
    }

    method GetThreadById(tid: int) returns (i: nat)
      ensures i == Lookup(contexts, tid, 0)
    {
      i := 0;
      while i < |contexts| && !(contexts[i].tid == tid && !contexts[i].dead)
        invariant 0 <= i <= |contexts|
        invariant Lookup(contexts, tid, 0) == Lookup(contexts, tid, i)
      {
        i := i + 1;
      }
    }

    method SetThreadAsDead(tid: int)
      modifies this`contexts
      ensures contexts == MarkDead(old(contexts), tid)
    {
      var i := 0;
      while i < |contexts|
        invariant 0 <= i <= |contexts| && contexts == old(contexts)
        invariant FindContext(contexts, tid, 0) == FindContext(contexts, tid, i)
      {
        if contexts[i].tid == tid {
          contexts := contexts[i := contexts[i].(dead := true)];
          return;
        }
        i := i + 1;
      }
    }

    method HandleExit(tid: int)
      requires Valid(Value())
      modifies this
      ensures Value() == ExitThread(old(Value()), tid)
      ensures Valid(Value())
    {
      ExitKeeps(Value(), tid);
      var i := GetThreadById(tid);
      if i < |contexts| {
        UnregisterNode(tid);
        SetThreadAsDead(tid);
      }
    }

    /** The forwarding loop: the contexts of the marked live threads, in list order. It stays at a
        node for whose thread there is no context, which cannot be in a valid registry. */
    method ContextsToForward(marked: set<int>) returns (found: seq<nat>)
      requires Valid(Value())
      ensures forall k :: k in found ==> k < |contexts| && !contexts[k].dead && contexts[k].tid in marked
      ensures forall i :: 0 <= i < |live| && live[i].tid in marked ==> Lookup(contexts, live[i].tid, 0) in found
      ensures found == Forwarded(Value(), marked, |live|)
    {
      var cursor := 0;
      found := [];
      while cursor < |live|
        invariant 0 <= cursor <= |live|
        invariant found == Forwarded(Value(), marked, cursor)
        decreases |live| - cursor
      {
        if live[cursor].tid in marked {
          var k := GetThreadById(live[cursor].tid);
          if k == |contexts| {
            assert false;
            continue;
          }
          found := found + [k];
        }
        cursor := cursor + 1;
      }
      ForwardedAre(Value(), marked, |live|);
    }
  }
}
