/** The breakpoint list of the C layer: nodes in ascending address order, each holding the
    8-byte word found at its address and the same word with a trap opcode in front. The words
    of close breakpoints overlap, and both loops write them over each other in list order. */
module SoftwareBreakpoints {
  import opened Words
  import opened Searches

  datatype Node = Node(addr: nat, instruction: Word, patched: Word, enabled: bool)

  /** What the C functions read and write: the tracee's memory and the list. */
  datatype State = State(mem: Memory, bps: seq<Node>)

  datatype Event =
    | Register(addr: nat)
    | Unregister(addr: nat)
    | Enable(addr: nat)
    | Disable(addr: nat)
    | Resume
    | Stop

  // ---------------------------------------------------------------- the functions computed

  predicate Listed(bps: seq<Node>, a: int) {
    exists i :: 0 <= i < |bps| && bps[i].addr == a
  }

  predicate Armed(bps: seq<Node>, a: int) {
    exists i :: 0 <= i < |bps| && bps[i].addr == a && bps[i].enabled
  }

  predicate Mapped(bps: seq<Node>, size: nat) {
    forall i :: 0 <= i < |bps| ==> bps[i].addr + 8 <= size
  }

  predicate Sorted(bps: seq<Node>) {
    forall i, j :: 0 <= i < j < |bps| ==> bps[i].addr < bps[j].addr
  }

  /** The word a loop over the list writes for a node. */
  function Image(b: Node, patch: bool): Word {
    if patch then b.patched else b.instruction
  }

  /** Memory after the first k nodes of a patching or restoring loop. */
  function Flush(mem: Memory, bps: seq<Node>, k: nat, patch: bool): (m: Memory)
    requires k <= |bps| && Mapped(bps, |mem|)
    ensures |m| == |mem|
  {
    if k == 0 then mem
    else
      var m := Flush(mem, bps, k - 1, patch);
      if bps[k - 1].enabled then Poke(m, bps[k - 1].addr, Image(bps[k - 1], patch)) else m
  }

  /** The first node holding an address, from a given position on; the length if there is none. */
  function Find(bps: seq<Node>, a: nat, from: nat): (i: nat)
    requires from <= |bps|
    ensures from <= i <= |bps|
    ensures i < |bps| ==> bps[i].addr == a
    ensures forall j :: from <= j < i ==> bps[j].addr != a
  {
    First(bps, (b: Node) => b.addr == a, from)
  }

  /** Where a new node goes: before the first node with a greater address. */
  function Position(bps: seq<Node>, a: nat, from: nat): (i: nat)
    requires from <= |bps|
    ensures from <= i <= |bps|
    ensures i < |bps| ==> bps[i].addr > a
    ensures forall j :: from <= j < i ==> bps[j].addr <= a
  {
    First(bps, (b: Node) => b.addr > a, from)
  }

  function Insert(bps: seq<Node>, b: Node): seq<Node> {
    var i := Position(bps, b.addr, 0);
    bps[..i] + [b] + bps[i..]
  }

  /** `register_breakpoint`: traps the address at once, and records the word found there if
      the address is new. */
  function RegisterAt(s: State, a: nat): (t: State)
    requires Mapped(s.bps, |s.mem|) && a + 8 <= |s.mem|
    ensures |t.mem| == |s.mem| && Mapped(t.bps, |t.mem|)
  {
    var word := Peek(s.mem, a);
    var mem := Poke(s.mem, a, Trapped(word));
    var i := Find(s.bps, a, 0);
    if i < |s.bps| then State(mem, s.bps[i := s.bps[i].(enabled := true)])
    else State(mem, Insert(s.bps, Node(a, word, Trapped(word), true)))
  }

  /** `unregister_breakpoint`: drops the node and leaves memory as it is. */
  function UnregisterAt(s: State, a: nat): (t: State)
    requires Mapped(s.bps, |s.mem|)
    ensures |t.mem| == |s.mem| && Mapped(t.bps, |t.mem|)
  {
    var i := Find(s.bps, a, 0);
    if i < |s.bps| then s.(bps := s.bps[..i] + s.bps[i + 1..]) else s
  }

  /** `enable_breakpoint` and `disable_breakpoint`: set the flag and write the node's word. */
  function ToggleAt(s: State, a: nat, on: bool): (t: State)
    requires Mapped(s.bps, |s.mem|)
    ensures |t.mem| == |s.mem| && Mapped(t.bps, |t.mem|)
  {
    var i := Find(s.bps, a, 0);
    if i < |s.bps| then State(Poke(s.mem, a, Image(s.bps[i], on)), s.bps[i := s.bps[i].(enabled := on)])
    else s
  }

  /** The patching loop before a run, or the restoring loop after a stop. */
  function FlushAll(s: State, patch: bool): (t: State)
    requires Mapped(s.bps, |s.mem|)
    ensures |t.mem| == |s.mem| && t.bps == s.bps
  {
    s.(mem := Flush(s.mem, s.bps, |s.bps|, patch))
  }

  function Step(s: State, e: Event): (t: State)
    requires Mapped(s.bps, |s.mem|)
    requires e.Register? ==> e.addr + 8 <= |s.mem|
    ensures |t.mem| == |s.mem| && Mapped(t.bps, |t.mem|)
  {
    match e
    case Register(a) => RegisterAt(s, a)
    case Unregister(a) => UnregisterAt(s, a)
    case Enable(a) => ToggleAt(s, a, true)
    case Disable(a) => ToggleAt(s, a, false)
    case Resume => FlushAll(s, true)
    case Stop => FlushAll(s, false)
  }

  /** All the words an event list registers are mapped. */
  predicate InRange(es: seq<Event>, size: nat) {
    forall i :: 0 <= i < |es| && es[i].Register? ==> es[i].addr + 8 <= size
  }

  function Run(s: State, es: seq<Event>): (t: State)
    requires Mapped(s.bps, |s.mem|) && InRange(es, |s.mem|)
    ensures |t.mem| == |s.mem| && Mapped(t.bps, |t.mem|)
    decreases |es|
  {
    if es == [] then s else Run(Step(s, es[0]), es[1..])
  }

  // ------------------------------------------------------------------- who writes a byte last

  /** The last enabled node among the first k whose word covers a byte, or -1. */
  function LastWriter(bps: seq<Node>, k: nat, x: nat): (i: int)
    requires k <= |bps|
    ensures -1 <= i < k
    ensures i >= 0 ==> bps[i].enabled && bps[i].addr <= x < bps[i].addr + 8
    ensures forall j :: i < j < k && bps[j].enabled ==> !(bps[j].addr <= x < bps[j].addr + 8)
  {
    if k == 0 then -1
    else if bps[k - 1].enabled && bps[k - 1].addr <= x < bps[k - 1].addr + 8 then k - 1
    else LastWriter(bps, k - 1, x)
  }

  lemma {:induction false} FlushByte(mem: Memory, bps: seq<Node>, k: nat, patch: bool, x: nat)
    requires k <= |bps| && Mapped(bps, |mem|) && x < |mem|
    ensures var w := LastWriter(bps, k, x);
            Flush(mem, bps, k, patch)[x] == if w < 0 then mem[x] else Image(bps[w], patch)[x - bps[w].addr]
  {
    if k > 0 {
      FlushByte(mem, bps, k - 1, patch, x);
    }
  }

  /** In ascending order nothing overwrites the first byte of an enabled node's word. */
  lemma {:induction false} ArmedWritesItself(bps: seq<Node>, i: nat)
    requires Sorted(bps) && i < |bps| && bps[i].enabled
    ensures LastWriter(bps, |bps|, bps[i].addr) == i
  {
  }

  // -------------------------------------------------------------------------- the invariants

  /** The program's own memory with a trap opcode at every enabled listed address. */
  predicate TrapsExactly(original: Memory, mem: Memory, bps: seq<Node>) {
    && |mem| == |original|
    && forall x :: 0 <= x < |mem| ==> mem[x] == if Armed(bps, x) then INT3 else original[x]
  }

  /** What holds of one node in every run: its first byte is the program's, and any other
      recorded byte is the program's or a trap that another listed breakpoint had put there. */
  predicate Recorded(original: Memory, bps: seq<Node>, b: Node) {
    && b.addr + 8 <= |original|
    && b.patched == Trapped(b.instruction)
    && b.instruction[0] == original[b.addr]
    && forall k :: 1 <= k < 8 && b.instruction[k] != original[b.addr + k] ==>
         b.instruction[k] == INT3 && Listed(bps, b.addr + k)
  }

  /** The invariant of runs that only register, resume and stop. */
  ghost predicate Tangled(original: Memory, s: State) {
    && |s.mem| == |original|
    && Sorted(s.bps)
    && (forall i :: 0 <= i < |s.bps| ==> s.bps[i].enabled && Recorded(original, s.bps, s.bps[i]))
    && forall x :: 0 <= x < |s.mem| && s.mem[x] != original[x] ==> s.mem[x] == INT3 && Listed(s.bps, x)
  }

  /** Every recorded word is the program's own. */
  predicate CleanRecords(original: Memory, bps: seq<Node>) {
    forall i :: 0 <= i < |bps| ==> CleanRecord(original, bps[i])
  }

  predicate CleanRecord(original: Memory, b: Node) {
    && b.addr + 8 <= |original|
    && b.patched == Trapped(b.instruction)
    && forall k :: 0 <= k < 8 ==> b.instruction[k] == original[b.addr + k]
  }

  /** The invariant of runs that also enable, disable and remove. */
  ghost predicate Clean(original: Memory, s: State) {
    && |s.mem| == |original|
    && Sorted(s.bps)
    && CleanRecords(original, s.bps)
    && forall x :: 0 <= x < |s.mem| && s.mem[x] != original[x] ==> s.mem[x] == INT3 && Armed(s.bps, x)
  }

  /** An event may follow: a new breakpoint finds no trap of another one in the bytes it
      records, and a breakpoint is removed only while its own trap is not in memory. */
  predicate Permitted(original: Memory, s: State, e: Event) {
    match e
    case Register(a) =>
      a + 8 <= |s.mem| == |original| && (Listed(s.bps, a) || forall x :: a < x < a + 8 ==> s.mem[x] == original[x])
    case Unregister(a) => Listed(s.bps, a) ==> a < |s.mem| == |original| && s.mem[a] == original[a]
    case _ => true
  }

  // ------------------------------------------------------------- one event keeps the invariant

  /** Entry j of the list after an insertion. */
  lemma {:induction false} InsertAt(bps: seq<Node>, b: Node, j: nat)
    requires j <= |bps|
    ensures |Insert(bps, b)| == |bps| + 1
    ensures var i := Position(bps, b.addr, 0);
            Insert(bps, b)[j] == if j < i then bps[j] else if j == i then b else bps[j - 1]
  {
  }

  lemma {:induction false} InsertKeepsOrder(bps: seq<Node>, b: Node)
    requires Sorted(bps) && !Listed(bps, b.addr)
    ensures Sorted(Insert(bps, b))
  {
  }

  lemma {:induction false} InsertMembers(bps: seq<Node>, b: Node, x: int)
    ensures Listed(Insert(bps, b), x) <==> x == b.addr || Listed(bps, x)
    ensures Armed(Insert(bps, b), x) <==> (x == b.addr && b.enabled) || Armed(bps, x)
  {
    var i := Position(bps, b.addr, 0);
    InsertAt(bps, b, i);
    forall j | 0 <= j < |bps|
      ensures bps[j] in Insert(bps, b)
    {
      InsertAt(bps, b, if j < i then j else j + 1);
    }
    forall j | 0 <= j <= |bps|
      ensures Insert(bps, b)[j] == b || Insert(bps, b)[j] in bps
    {
      InsertAt(bps, b, j);
    }
  }

  lemma {:induction false} ToggleMembers(bps: seq<Node>, i: nat, on: bool, x: int)
    requires Sorted(bps) && i < |bps|
    ensures var r := bps[i := bps[i].(enabled := on)];
            && Sorted(r)
            && (Listed(r, x) <==> Listed(bps, x))
            && (Armed(r, x) <==> if x == bps[i].addr then on else Armed(bps, x))
  {
    var r := bps[i := bps[i].(enabled := on)];
    assert forall j :: 0 <= j < |bps| && j != i ==> r[j] == bps[j] && bps[j].addr != bps[i].addr;
    assert r[i].addr == bps[i].addr;
  }

  lemma {:induction false} RemovedNodes(bps: seq<Node>, i: nat, c: Node)
    requires Sorted(bps) && i < |bps|
    ensures c in bps[..i] + bps[i + 1..] <==> c in bps && c.addr != bps[i].addr
  {
  }

  lemma {:induction false} RemoveKeepsOrder(bps: seq<Node>, i: nat)
    requires Sorted(bps) && i < |bps|
    ensures Sorted(bps[..i] + bps[i + 1..])
  {
  }

  lemma {:induction false} RemoveMembers(bps: seq<Node>, i: nat, x: int)
    requires Sorted(bps) && i < |bps|
    ensures var r := bps[..i] + bps[i + 1..];
            && Sorted(r)
            && (Listed(r, x) <==> x != bps[i].addr && Listed(bps, x))
            && (Armed(r, x) <==> x != bps[i].addr && Armed(bps, x))
  {
    var r := bps[..i] + bps[i + 1..];
    RemoveKeepsOrder(bps, i);
    if j :| 0 <= j < |bps| && bps[j].addr == x && j != i {
      RemovedNodes(bps, i, bps[j]);
      assert bps[j] in r;
    }
    if j :| 0 <= j < |r| && r[j].addr == x {
      RemovedNodes(bps, i, r[j]);
      assert r[j] in bps;
    }
  }

  /** Writing back a peeked word with a trap in front changes one byte. */
  lemma {:induction false} TrapOneByte(mem: Memory, a: nat)
    requires a + 8 <= |mem|
    ensures Poke(mem, a, Trapped(Peek(mem, a))) == mem[a := INT3]
  {
  }

  /** How a list grows by one enabled node at a new address. */
  ghost predicate Grown(p: seq<Node>, q: seq<Node>, b: Node) {
    && b.enabled
    && Sorted(q)
    && (forall x: int {:trigger Listed(q, x)} {:trigger Listed(p, x)} :: Listed(q, x) <==> x == b.addr || Listed(p, x))
    && (forall x: int {:trigger Armed(q, x)} {:trigger Armed(p, x)} :: Armed(q, x) <==> x == b.addr || Armed(p, x))
    && (forall j :: 0 <= j < |q| ==> q[j] == b || q[j] in p)
  }

  lemma {:induction false} InsertGrows(bps: seq<Node>, b: Node)
    requires Sorted(bps) && !Listed(bps, b.addr) && b.enabled
    ensures Grown(bps, Insert(bps, b), b)
  {
    var q := Insert(bps, b);
    InsertKeepsOrder(bps, b);
    forall x: int
      ensures Listed(q, x) <==> x == b.addr || Listed(bps, x)
      ensures Armed(q, x) <==> x == b.addr || Armed(bps, x)
    {
      InsertMembers(bps, b, x);
    }
    forall j | 0 <= j < |q|
      ensures q[j] == b || q[j] in bps
    {
      InsertAt(bps, b, j);
    }
  }

  /** The effect of registering a new address: one more node, one trapped byte. */
  lemma {:induction false} RegisterNew(s: State, a: nat) returns (b: Node, i: nat)
    requires Mapped(s.bps, |s.mem|) && Sorted(s.bps) && a + 8 <= |s.mem| && !Listed(s.bps, a)
    ensures b.addr == a && b.instruction == Peek(s.mem, a) && b.patched == Trapped(b.instruction)
    ensures Grown(s.bps, RegisterAt(s, a).bps, b)
    ensures i < |RegisterAt(s, a).bps| && RegisterAt(s, a).bps[i] == b
    ensures RegisterAt(s, a).mem == s.mem[a := INT3]
  {
    b := Node(a, Peek(s.mem, a), Trapped(Peek(s.mem, a)), true);
    i := Position(s.bps, a, 0);
    InsertAt(s.bps, b, i);
    InsertGrows(s.bps, b);
    TrapOneByte(s.mem, a);
  }

  lemma {:induction false} TangledRegister(original: Memory, s: State, a: nat)
    requires Tangled(original, s) && a + 8 <= |s.mem|
    ensures Tangled(original, RegisterAt(s, a))
  {
    if Listed(s.bps, a) {
      TrapOneByte(s.mem, a);
      assert RegisterAt(s, a) == State(s.mem[a := INT3], s.bps);
    } else {
      var b, i := RegisterNew(s, a);
      TangledGrown(original, s, RegisterAt(s, a), b);
    }
  }

  lemma {:induction false} RecordedGrows(original: Memory, p: seq<Node>, q: seq<Node>, b: Node, c: Node)
    requires Recorded(original, p, c) && Grown(p, q, b)
    ensures Recorded(original, q, c)
  {
  }

  lemma {:induction false} NewRecorded(original: Memory, s: State, q: seq<Node>, b: Node)
    requires Tangled(original, s) && Grown(s.bps, q, b) && !Listed(s.bps, b.addr) && b.addr + 8 <= |s.mem|
    requires b.instruction == Peek(s.mem, b.addr) && b.patched == Trapped(b.instruction)
    ensures Recorded(original, q, b)
  {
  }

  lemma {:induction false} TangledGrown(original: Memory, s: State, t: State, b: Node)
    requires Tangled(original, s) && Grown(s.bps, t.bps, b) && !Listed(s.bps, b.addr)
    requires b.addr + 8 <= |s.mem| && t.mem == s.mem[b.addr := INT3]
    requires b.instruction == Peek(s.mem, b.addr) && b.patched == Trapped(b.instruction)
    ensures Tangled(original, t)
  {
    NewRecorded(original, s, t.bps, b);
    forall j | 0 <= j < |t.bps|
      ensures t.bps[j].enabled && Recorded(original, t.bps, t.bps[j])
    {
      if t.bps[j] != b {
        assert t.bps[j] in s.bps;
        var i :| 0 <= i < |s.bps| && s.bps[i] == t.bps[j];
        RecordedGrows(original, s.bps, t.bps, b, t.bps[j]);
      }
    }
  }

  lemma {:induction false} TangledResume(original: Memory, s: State)
    requires Tangled(original, s)
    ensures TrapsExactly(original, FlushAll(s, true).mem, s.bps)
    ensures Tangled(original, FlushAll(s, true))
  {
    forall x | 0 <= x < |s.mem|
      ensures FlushAll(s, true).mem[x] == if Armed(s.bps, x) then INT3 else original[x]
    {
      TangledByte(original, s, x);
    }
  }

  lemma {:induction false} TangledByte(original: Memory, s: State, x: nat)
    requires Tangled(original, s) && x < |s.mem|
    ensures FlushAll(s, true).mem[x] == if Armed(s.bps, x) then INT3 else original[x]
  {
    FlushByte(s.mem, s.bps, |s.bps|, true, x);
    if i :| 0 <= i < |s.bps| && s.bps[i].addr == x {
      ArmedWritesItself(s.bps, i);
    }
  }

  lemma {:induction false} TangledStop(original: Memory, s: State)
    requires Tangled(original, s)
    ensures FlushAll(s, false).mem == original
  {
    forall x | 0 <= x < |s.mem|
      ensures FlushAll(s, false).mem[x] == original[x]
    {
      FlushByte(s.mem, s.bps, |s.bps|, false, x);
      if i :| 0 <= i < |s.bps| && s.bps[i].addr == x {
        ArmedWritesItself(s.bps, i);
      }
    }
  }

  lemma {:induction false} CleanGrown(original: Memory, s: State, t: State, b: Node)
    requires Clean(original, s) && Grown(s.bps, t.bps, b)
    requires b.addr < |s.mem| && t.mem == s.mem[b.addr := INT3] && CleanRecord(original, b)
    ensures Clean(original, t)
  {
  }

  /** How a list changes when one node's flag is set. */
  ghost predicate Flagged(p: seq<Node>, q: seq<Node>, a: nat, on: bool) {
    && Sorted(q)
    && (forall x: int {:trigger Armed(q, x)} {:trigger Armed(p, x)} ::
          Armed(q, x) <==> if x == a then on else Armed(p, x))
    && (forall j :: 0 <= j < |q| ==> exists c :: c in p && q[j] == c.(enabled := q[j].enabled))
  }

  lemma {:induction false} ToggleFlags(bps: seq<Node>, i: nat, on: bool)
    requires Sorted(bps) && i < |bps|
    ensures Flagged(bps, bps[i := bps[i].(enabled := on)], bps[i].addr, on)
  {
    var q := bps[i := bps[i].(enabled := on)];
    forall x: int
      ensures Sorted(q) && (Armed(q, x) <==> if x == bps[i].addr then on else Armed(bps, x))
    {
      ToggleMembers(bps, i, on, x);
    }
    forall j | 0 <= j < |q|
      ensures exists c :: c in bps && q[j] == c.(enabled := q[j].enabled)
    {
      assert bps[j] in bps;
    }
  }

  lemma {:induction false} CleanFlagged(original: Memory, s: State, t: State, a: nat, on: bool)
    requires Clean(original, s) && Flagged(s.bps, t.bps, a, on) && |t.mem| == |s.mem| && a < |s.mem|
    requires forall x :: 0 <= x < |s.mem| && x != a ==> t.mem[x] == s.mem[x] || t.mem[x] == original[x]
    requires t.mem[a] == if on then INT3 else original[a]
    ensures Clean(original, t)
  {
  }

  lemma {:induction false} CleanRegister(original: Memory, s: State, a: nat)
    requires Clean(original, s) && Permitted(original, s, Register(a))
    ensures Clean(original, RegisterAt(s, a))
  {
    if Listed(s.bps, a) {
      TrapOneByte(s.mem, a);
      ToggleFlags(s.bps, Find(s.bps, a, 0), true);
      CleanFlagged(original, s, RegisterAt(s, a), a, true);
    } else {
      var b, i := RegisterNew(s, a);
      CleanGrown(original, s, RegisterAt(s, a), b);
    }
  }

  /** A clean node's word brings back the program's bytes, but for its own trap. */
  lemma {:induction false} NodeBytes(original: Memory, mem: Memory, b: Node, on: bool)
    requires CleanRecord(original, b) && |mem| == |original|
    ensures var m := Poke(mem, b.addr, Image(b, on));
            && (forall x :: 0 <= x < |mem| && x != b.addr ==> m[x] == mem[x] || m[x] == original[x])
            && m[b.addr] == if on then INT3 else original[b.addr]
  {
  }

  lemma {:induction false} CleanToggle(original: Memory, s: State, a: nat, on: bool)
    requires Clean(original, s)
    ensures Clean(original, ToggleAt(s, a, on))
  {
    var i := Find(s.bps, a, 0);
    if i < |s.bps| {
      ToggleFlags(s.bps, i, on);
      NodeBytes(original, s.mem, s.bps[i], on);
      CleanFlagged(original, s, ToggleAt(s, a, on), a, on);
    }
  }

  lemma {:induction false} CleanUnregister(original: Memory, s: State, a: nat)
    requires Clean(original, s) && Permitted(original, s, Unregister(a))
    ensures Clean(original, UnregisterAt(s, a))
  {
    var i := Find(s.bps, a, 0);
    if i < |s.bps| {
      var t := UnregisterAt(s, a);
      assert Listed(s.bps, a);
      RemoveKeepsOrder(s.bps, i);
      forall x: int
        ensures Armed(t.bps, x) <==> x != a && Armed(s.bps, x)
      {
        RemoveMembers(s.bps, i, x);
      }
      forall j | 0 <= j < |t.bps|
        ensures t.bps[j] in s.bps
      {
        RemovedNodes(s.bps, i, t.bps[j]);
      }
      CleanShrunk(original, s, t, a);
    }
  }

  lemma {:induction false} CleanShrunk(original: Memory, s: State, t: State, a: nat)
    requires Clean(original, s) && t.mem == s.mem && Sorted(t.bps) && a < |s.mem| && s.mem[a] == original[a]
    requires forall x: int :: Armed(t.bps, x) <==> x != a && Armed(s.bps, x)
    requires forall j :: 0 <= j < |t.bps| ==> t.bps[j] in s.bps
    ensures Clean(original, t)
  {
    forall j | 0 <= j < |t.bps|
      ensures CleanRecord(original, t.bps[j])
    {
      assert t.bps[j] in s.bps;
      var i :| 0 <= i < |s.bps| && s.bps[i] == t.bps[j];
    }
  }

  lemma {:induction false} CleanResume(original: Memory, s: State)
    requires Clean(original, s)
    ensures TrapsExactly(original, FlushAll(s, true).mem, s.bps)
    ensures Clean(original, FlushAll(s, true))
  {
    var m := FlushAll(s, true).mem;
    forall x | 0 <= x < |s.mem|
      ensures m[x] == if Armed(s.bps, x) then INT3 else original[x]
    {
      CleanPatchedByte(original, s, x);
    }
    TrapsAreClean(original, State(m, s.bps));
  }

  lemma {:induction false} CleanPatchedByte(original: Memory, s: State, x: nat)
    requires Clean(original, s) && x < |s.mem| && Mapped(s.bps, |s.mem|)
    ensures Flush(s.mem, s.bps, |s.bps|, true)[x] == if Armed(s.bps, x) then INT3 else original[x]
  {
    FlushByte(s.mem, s.bps, |s.bps|, true, x);
    if i :| 0 <= i < |s.bps| && s.bps[i].addr == x && s.bps[i].enabled {
      ArmedWritesItself(s.bps, i);
    }
    var w := LastWriter(s.bps, |s.bps|, x);
    assert w >= 0 ==> CleanRecord(original, s.bps[w]);
  }

  lemma {:induction false} TrapsAreClean(original: Memory, s: State)
    requires TrapsExactly(original, s.mem, s.bps) && Sorted(s.bps) && CleanRecords(original, s.bps)
    ensures Clean(original, s)
  {
  }

  lemma {:induction false} CleanStop(original: Memory, s: State)
    requires Clean(original, s)
    ensures FlushAll(s, false).mem == original
  {
    forall x | 0 <= x < |s.mem|
      ensures FlushAll(s, false).mem[x] == original[x]
    {
      FlushByte(s.mem, s.bps, |s.bps|, false, x);
      if i :| 0 <= i < |s.bps| && s.bps[i].addr == x && s.bps[i].enabled {
        ArmedWritesItself(s.bps, i);
      }
    }
  }

  // ------------------------------------------------------------------------------ whole runs

  /** A resume and the stop that ends it. */
  function Cycle(s: State): State
    requires Mapped(s.bps, |s.mem|)
  {
    FlushAll(FlushAll(s, true), false)
  }

  /** Events of a run in which nothing is disabled, re-enabled or removed. */
  predicate OnlyRegisters(es: seq<Event>) {
    forall i :: 0 <= i < |es| ==> es[i].Register? || es[i].Resume? || es[i].Stop?
  }

  lemma {:induction false} TangledRun(original: Memory, s: State, es: seq<Event>)
    requires Tangled(original, s) && OnlyRegisters(es) && InRange(es, |original|)
    ensures Tangled(original, Run(s, es))
    decreases |es|
  {
    if es != [] {
      match es[0] {
        case Register(a) => TangledRegister(original, s, a);
        case Resume => TangledResume(original, s);
        case Stop => TangledStop(original, s);
      }
      TangledRun(original, Step(s, es[0]), es[1..]);
    }
  }

  /** Breakpoints registered in any order and at any distance, with resumes and stops in
      between: the next resume puts traps at exactly the listed addresses, and the next stop
      gives back the program's memory, even where a recorded word holds a neighbour's trap. */
  lemma {:induction false} OverlapSafety(original: Memory, es: seq<Event>)
    requires OnlyRegisters(es) && InRange(es, |original|)
    ensures var s := Run(State(original, []), es);
            && Sorted(s.bps)
            && TrapsExactly(original, FlushAll(s, true).mem, s.bps)
            && FlushAll(s, false).mem == original
            && Cycle(s).mem == original
  {
    var s := Run(State(original, []), es);
    TangledRun(original, State(original, []), es);
    TangledResume(original, s);
    TangledStop(original, s);
    TangledStop(original, FlushAll(s, true));
  }

  /** Every event of a run is permitted in the state it meets. */
  predicate PermittedRun(original: Memory, s: State, es: seq<Event>)
    requires Mapped(s.bps, |s.mem|) && InRange(es, |s.mem|)
    decreases |es|
  {
    es == [] || (Permitted(original, s, es[0]) && PermittedRun(original, Step(s, es[0]), es[1..]))
  }

  lemma {:induction false} CleanStep(original: Memory, s: State, e: Event)
    requires Clean(original, s) && Permitted(original, s, e)
    ensures Clean(original, Step(s, e))
  {
    match e {
      case Register(a) => CleanRegister(original, s, a);
      case Unregister(a) => CleanUnregister(original, s, a);
      case Enable(a) => CleanToggle(original, s, a, true);
      case Disable(a) => CleanToggle(original, s, a, false);
      case Resume => CleanResume(original, s);
      case Stop => CleanStop(original, s);
    }
  }

  /** Every permitted run keeps the list sorted and memory equal to the program's except for
      traps of enabled breakpoints; its next stop gives the program's memory back. */
  lemma {:induction false} PermittedRunsRestore(original: Memory, s: State, es: seq<Event>)
    requires Clean(original, s) && InRange(es, |original|) && PermittedRun(original, s, es)
    ensures var t := Run(s, es);
            && Clean(original, t)
            && FlushAll(t, false).mem == original
            && TrapsExactly(original, FlushAll(t, true).mem, t.bps)
            && Cycle(t).mem == original
    decreases |es|
  {
    if es == [] {
      CleanStop(original, s);
      CleanResume(original, s);
      CleanStop(original, FlushAll(s, true));
    } else {
      CleanStep(original, s, es[0]);
      PermittedRunsRestore(original, Step(s, es[0]), es[1..]);
    }
  }

  // ----------------------------------------------------- exactly when the invariant is at risk

  predicate OnlyToggles(es: seq<Event>) {
    forall i :: 0 <= i < |es| ==> es[i].Enable? || es[i].Disable?
  }

  /** Disables every node but one, from position k on. */
  function Silence(bps: seq<Node>, k: nat, keep: nat): (es: seq<Event>)
    requires k <= |bps|
    ensures OnlyToggles(es)
    decreases |bps| - k
  {
    if k == |bps| then []
    else if k == keep then Silence(bps, k + 1, keep)
    else [Disable(bps[k].addr)] + Silence(bps, k + 1, keep)
  }

  /** Whether two lists differ at most in their enabled flags. */
  predicate SameWords(p: seq<Node>, q: seq<Node>) {
    && |p| == |q|
    && forall i :: 0 <= i < |p| ==> p[i].addr == q[i].addr && p[i].instruction == q[i].instruction
  }

  predicate Muted(bps: seq<Node>, k: nat, keep: nat) {
    forall i :: 0 <= i < k && i < |bps| && i != keep ==> !bps[i].enabled
  }

  lemma {:induction false} FindInOrder(p: seq<Node>, q: seq<Node>, k: nat)
    requires SameWords(p, q) && Sorted(q) && k < |q|
    ensures Find(p, q[k].addr, 0) == k
  {
  }

  lemma {:induction false} SilenceWorks(s: State, bps: seq<Node>, k: nat, keep: nat)
    requires Mapped(s.bps, |s.mem|) && Sorted(bps) && k <= |bps| && keep < |bps|
    requires SameWords(s.bps, bps) && Muted(s.bps, k, keep) && s.bps[keep].enabled
    ensures var t := Run(s, Silence(bps, k, keep));
            SameWords(t.bps, bps) && Muted(t.bps, |bps|, keep) && t.bps[keep].enabled
    decreases |bps| - k
  {
    if k < |bps| {
      if k == keep {
        SilenceWorks(s, bps, k + 1, keep);
      } else {
        var t := s.bps[k := s.bps[k].(enabled := false)];
        FindInOrder(s.bps, bps, k);
        assert ToggleAt(s, bps[k].addr, false).bps == t;
        SilenceWorks(ToggleAt(s, bps[k].addr, false), bps, k + 1, keep);
        assert Silence(bps, k, keep)[1..] == Silence(bps, k + 1, keep);
      }
    }
  }

  /** With a single enabled node, a resume and a stop leave that node's word in memory. */
  lemma {:induction false} SoloCycle(s: State, i: nat, x: nat)
    requires Mapped(s.bps, |s.mem|) && i < |s.bps| && s.bps[i].enabled && Muted(s.bps, |s.bps|, i)
    requires s.bps[i].addr <= x < s.bps[i].addr + 8
    ensures Cycle(s).mem[x] == s.bps[i].instruction[x - s.bps[i].addr]
  {
    var u := FlushAll(s, true);
    FlushByte(u.mem, u.bps, |u.bps|, false, x);
  }

  /** A list that holds one word differing from the program's memory can be driven, by
      disabling the other breakpoints, to a stop that leaves the wrong byte behind. */
  lemma {:induction false} UncleanRecordBreaks(original: Memory, s: State, i: nat, b: Node, x: nat)
    returns (es: seq<Event>)
    requires Mapped(s.bps, |s.mem|) && Sorted(s.bps) && |s.mem| == |original|
    requires i < |s.bps| && s.bps[i] == b && b.enabled
    requires b.addr <= x < b.addr + 8 && b.instruction[x - b.addr] != original[x]
    ensures OnlyToggles(es) && Cycle(Run(s, es)).mem != original
  {
    es := Silence(s.bps, 0, i);
    SilenceWorks(s, s.bps, 0, i);
    SoloCycle(Run(s, es), i, x);
  }

  lemma {:induction false} TogglesArePermitted(original: Memory, s: State, es: seq<Event>)
    requires Mapped(s.bps, |s.mem|) && OnlyToggles(es)
    ensures PermittedRun(original, s, es)
    decreases |es|
  {
    if es != [] {
      TogglesArePermitted(original, Step(s, es[0]), es[1..]);
    }
  }

  lemma {:induction false} PermittedRegistrationIsSafe(original: Memory, s: State, a: nat, es: seq<Event>)
    requires Clean(original, s) && Permitted(original, s, Register(a)) && OnlyToggles(es)
    ensures Cycle(Run(RegisterAt(s, a), es)).mem == original
  {
    var t := RegisterAt(s, a);
    CleanRegister(original, s, a);
    TogglesArePermitted(original, t, es);
    PermittedRunsRestore(original, t, es);
  }

  lemma {:induction false} ForbiddenRegistrationBreaks(original: Memory, s: State, a: nat) returns (es: seq<Event>)
    requires Clean(original, s) && !Listed(s.bps, a) && a + 8 <= |original|
    requires !Permitted(original, s, Register(a))
    ensures OnlyToggles(es) && Cycle(Run(RegisterAt(s, a), es)).mem != original
  {
    var x :| a < x < a + 8 && s.mem[x] != original[x];
    es := TrapInWordBreaks(original, s, a, x);
  }

  lemma {:induction false} TrapInWordBreaks(original: Memory, s: State, a: nat, x: nat) returns (es: seq<Event>)
    requires Mapped(s.bps, |s.mem|) && Sorted(s.bps) && |s.mem| == |original| && !Listed(s.bps, a)
    requires a < x < a + 8 <= |original| && s.mem[x] != original[x]
    ensures OnlyToggles(es) && Cycle(Run(RegisterAt(s, a), es)).mem != original
  {
    var b, i := RegisterNew(s, a);
    es := UncleanRecordBreaks(original, RegisterAt(s, a), i, b, x);
  }

  /** Registering a new breakpoint is safe against every later enabling and disabling if and
      only if the seven bytes after its address hold no trap of another breakpoint. */
  lemma {:induction false} RegistrationSafeIffPermitted(original: Memory, s: State, a: nat)
    requires Clean(original, s) && !Listed(s.bps, a) && a + 8 <= |original|
    ensures Permitted(original, s, Register(a)) <==>
            forall es :: OnlyToggles(es) ==> Cycle(Run(RegisterAt(s, a), es)).mem == original
  {
    if Permitted(original, s, Register(a)) {
      forall es | OnlyToggles(es)
        ensures Cycle(Run(RegisterAt(s, a), es)).mem == original
      {
        PermittedRegistrationIsSafe(original, s, a, es);
      }
    } else {
      var es := ForbiddenRegistrationBreaks(original, s, a);
    }
  }

  /** A byte after a stop: some enabled node covers it, or it is left alone. */
  lemma {:induction false} StopByte(original: Memory, s: State, x: nat)
    requires Mapped(s.bps, |s.mem|) && |s.mem| == |original| && CleanRecords(original, s.bps) && x < |s.mem|
    ensures FlushAll(s, false).mem[x] ==
            if exists j :: 0 <= j < |s.bps| && s.bps[j].enabled && s.bps[j].addr <= x < s.bps[j].addr + 8
            then original[x] else s.mem[x]
  {
    FlushByte(s.mem, s.bps, |s.bps|, false, x);
  }

  /** Whether an enabled breakpoint lies in the seven bytes below an address. */
  predicate CoveredFromBelow(bps: seq<Node>, a: nat) {
    exists j :: 0 <= j < |bps| && bps[j].enabled && bps[j].addr < a < bps[j].addr + 8
  }

  /** Removing a breakpoint leaves its trap behind, unless it was not in memory or an enabled
      breakpoint in the seven bytes below writes over it at the next stop. */
  lemma {:induction false} RemovalSafeIff(original: Memory, s: State, a: nat)
    requires Clean(original, s) && Listed(s.bps, a)
    ensures FlushAll(UnregisterAt(s, a), false).mem == original <==>
            a < |original| && (s.mem[a] == original[a] || CoveredFromBelow(s.bps, a))
  {
    var i := Find(s.bps, a, 0);
    var t := UnregisterAt(s, a);
    forall c: Node
      ensures c in t.bps <==> c in s.bps && c.addr != a
    {
      RemovedNodes(s.bps, i, c);
    }
    RemovalBytes(original, s, t, a);
  }

  lemma {:induction false} RemovalBytes(original: Memory, s: State, t: State, a: nat)
    requires Clean(original, s) && Listed(s.bps, a)
    requires t.mem == s.mem && Mapped(t.bps, |t.mem|) && forall c :: c in t.bps <==> c in s.bps && c.addr != a
    ensures FlushAll(t, false).mem == original <==>
            a < |original| && (s.mem[a] == original[a] || CoveredFromBelow(s.bps, a))
  {
    var m := FlushAll(t, false).mem;
    forall x | 0 <= x < |original| && x != a
      ensures m[x] == original[x]
    {
      StopByte(original, t, x);
      if Armed(s.bps, x) {
        var j :| 0 <= j < |s.bps| && s.bps[j].addr == x && s.bps[j].enabled;
        assert s.bps[j] in t.bps;
      }
    }
    StopByte(original, t, a);
    if CoveredFromBelow(s.bps, a) {
      var j :| 0 <= j < |s.bps| && s.bps[j].enabled && s.bps[j].addr < a < s.bps[j].addr + 8;
      assert s.bps[j] in t.bps;
    }
  }

  /** A breakpoint set at 5 and removed before the next stop leaves its trap. */
  lemma {:induction false} RemovedTrapStays() returns (original: Memory)
    ensures |original| == 16 && forall x :: 0 <= x < 16 ==> original[x] == 0x90
    ensures FlushAll(UnregisterAt(RegisterAt(State(original, []), 5), 5), false).mem != original
  {
    original := seq(16, _ => 0x90 as Byte);
    var start := State(original, []);
    var s := RegisterAt(start, 5);
    CleanRegister(original, start, 5);
    var b, i := RegisterNew(start, 5);
    assert Insert([], b) == [b] && s.bps[0].addr == 5;
    RemovalSafeIff(original, s, 5);
  }

  /** Registering downwards without a stop in between records a neighbour's trap: with
      breakpoints at 5 and then 3, some disabling makes the next stop leave a trap behind. */
  lemma {:induction false} DescendingRegistrationFails() returns (original: Memory, es: seq<Event>)
    ensures |original| == 16 && forall x :: 0 <= x < 16 ==> original[x] == 0x90
    ensures OnlyToggles(es)
    ensures Cycle(Run(RegisterAt(RegisterAt(State(original, []), 5), 3), es)).mem != original
  {
    original := seq(16, _ => 0x90 as Byte);
    var start := State(original, []);
    var s := RegisterAt(start, 5);
    CleanRegister(original, start, 5);
    var b, i := RegisterNew(start, 5);
    assert s.mem[5] != original[5];
    assert !Listed(start.bps, 3);
    es := ForbiddenRegistrationBreaks(original, s, 3);
  }

  // ------------------------------------------------------------------------- the C functions

  /** The loop over the enabled nodes, with their patched or their recorded words. */
  method WriteEnabled(mem: Memory, bps: seq<Node>, patch: bool) returns (m: Memory)
    requires Mapped(bps, |mem|)
    ensures m == FlushAll(State(mem, bps), patch).mem
  {
    m := mem;
    var i := 0;
    while i < |bps|
      invariant 0 <= i <= |bps| && |m| == |mem| && m == Flush(mem, bps, i, patch)
    {
      if bps[i].enabled {
        m := Poke(m, bps[i].addr, if patch then bps[i].patched else bps[i].instruction);
      }
      i := i + 1;
    }
  }

  /** The part of the C layer's global state the breakpoint functions work on. */
  class GlobalState {
    var mem: Memory
    var bps: seq<Node>

    constructor (mem: Memory)
      ensures Value() == State(mem, [])
    {
      this.mem := mem;
      bps := [];
    }

    ghost function Value(): State
      reads this
    {
      State(mem, bps)
    }

    ghost predicate Valid()
      reads this
    {
      Mapped(bps, |mem|) && Sorted(bps)
    }

    method RegisterBreakpoint(address: nat)
      requires Valid() && address + 8 <= |mem|
      modifies this
      ensures Valid() && Value() == RegisterAt(old(Value()), address)
    {
      var word := Peek(mem, address);
      var patched := PatchedWord(word);
      mem := Poke(mem, address, patched);
      var i := 0;
      while i < |bps|
        invariant 0 <= i <= |bps|
        invariant bps == old(bps) && mem == Poke(old(mem), address, Trapped(word))
        invariant Find(bps, address, 0) == Find(bps, address, i)
      {
        if bps[i].addr == address {
          ToggleMembers(bps, i, true, 0);
          bps := bps[i := bps[i].(enabled := true)];
          return;
        }
        i := i + 1;
      }
      var b := Node(address, word, patched, true);
      var next := FindPosition(address);
      InsertKeepsOrder(bps, b);
      bps := bps[..next] + [b] + bps[next..];
      assert bps == Insert(old(bps), b);
    }

    /** The walk that keeps the list in ascending address order. */
    method FindPosition(address: nat) returns (next: nat)
      requires !Listed(bps, address)
      ensures next == Position(bps, address, 0)
    {
      if |bps| == 0 || bps[0].addr > address {
        return 0;
      }
      next := 1;
      while next < |bps| && bps[next].addr < address
        invariant 1 <= next <= |bps|
        invariant Position(bps, address, 0) == Position(bps, address, next)
      {
        next := next + 1;
      }
    }

    method UnregisterBreakpoint(address: nat)
      requires Valid()
      modifies this`bps
      ensures Valid() && Value() == UnregisterAt(old(Value()), address)
    {
      var i := 0;
      while i < |bps|
        invariant 0 <= i <= |bps|
        invariant bps == old(bps)
        invariant Find(bps, address, 0) == Find(bps, address, i)
      {
        if bps[i].addr == address {
          RemoveMembers(bps, i, 0);
          bps := bps[..i] + bps[i + 1..];
          return;
        }
        i := i + 1;
      }
    }

    method EnableBreakpoint(address: nat)
      requires Valid()
      modifies this
      ensures Valid() && Value() == ToggleAt(old(Value()), address, true)
    {
      var i := FindBreakpoint(address);
      if i < |bps| {
        ToggleMembers(bps, i, true, 0);
        bps := bps[i := bps[i].(enabled := true)];
        mem := Poke(mem, address, bps[i].patched);
      }
    }

    method DisableBreakpoint(address: nat)
      requires Valid()
      modifies this
      ensures Valid() && Value() == ToggleAt(old(Value()), address, false)
    {
      var i := FindBreakpoint(address);
      if i < |bps| {
        ToggleMembers(bps, i, false, 0);
        bps := bps[i := bps[i].(enabled := false)];
        mem := Poke(mem, address, bps[i].instruction);
      }
    }

    /** The search loop that enabling and disabling share. */
    method FindBreakpoint(address: nat) returns (i: nat)
      ensures i == Find(bps, address, 0)
    {
      i := 0;
      while i < |bps| && bps[i].addr != address
        invariant 0 <= i <= |bps|
        invariant Find(bps, address, 0) == Find(bps, address, i)
      {
        i := i + 1;
      }
    }

    /** The loop that ends every preparation for a run. */
    method PatchAll()
      requires Valid()
      modifies this`mem
      ensures Valid() && Value() == FlushAll(old(Value()), true)
    {
      mem := WriteEnabled(mem, bps, true);
    }

    /** The loop that ends every wait and every step-mode finish. */
    method RestoreAll()
      requires Valid()
      modifies this`mem
      ensures Valid() && Value() == FlushAll(old(Value()), false)
    {
      mem := WriteEnabled(mem, bps, false);
    }
  }
}
