/** The main thread and the polling thread of a debugger. Commands travel through one queue,
    return values and exceptions through another, and each side waits for the other with the
    queues' `join`. Every operation of either thread on a queue is one step of the machine. */
module CommandQueues {

  /** Commands, by what they do to the running flag and what they return. */
  datatype Kind =
    | Plain     // breakpoint, catch_signal, handle_syscall, gdb, poke, ...: no effect on the flag
    | Stopping  // run, attach, detach, step_until, finish: cleared on success
    | Cont      // set first, then continued
    | Step      // set on success
    | Wait      // cleared on success
    | Peek      // always returns something
    | Kill
    | Terminate // ends the polling thread

  datatype Command = Command(id: nat, kind: Kind)

  /** What a command puts on the response queue: a value read, or an exception. */
  datatype Response = Response(id: nat, isValue: bool)

  /** Where the polling thread is. */
  datatype Poller =
    | Waiting                  // get on the command queue
    | Executing(cmd: Command)
    | Replying(r: Response)    // put on the response queue
    | Finishing(replied: bool) // task_done on the command queue
    | Draining                 // join on the response queue
    | Terminated

  /** What the main thread has left to do in the current call. */
  datatype Op =
    | Put(kind: Kind)
    | Join                            // join on the command queue
    | Check(caught: bool)             // is there a response? if so take it
    | Ack(r: Response, caught: bool)  // task_done on the response queue, then raise
    | Take                            // blocking get on the response queue
    | AckTake(r: Response)            // task_done on the response queue, then return or raise
    | Reap                            // join on the polling thread

  datatype State = State(
    cmdQ: seq<Command>, cmdUnfinished: int,
    respQ: seq<Response>, respUnfinished: int,
    poller: Poller, ops: seq<Op>,
    running: bool, instanced: bool,
    nextId: nat,
    produced: seq<nat>, delivered: seq<nat>)  // ids of responses put, and of those handed to the caller

  const Start := State([], 0, [], 0, Waiting, [], false, false, 0, [], [])

  // --------------------------------------------------------------------------- the API calls

  predicate Ordinary(k: Kind) {
    k.Plain? || k.Stopping? || k.Step? || k.Wait?
  }

  /** What a call does after its batches: nothing, or one of the commands with a pattern of its own. */
  datatype Tail = End | ContTail | PeekTail | KillTail | TerminateTail

  /** A call of the API: batches of commands, each put and then joined and checked, and a tail. An
      exception met on the way is raised, unless `caught`: `kill` swallows it and goes on to its
      own command. */
  datatype Call = Call(batches: seq<seq<Kind>>, caught: bool, tail: Tail)

  function Puts(kinds: seq<Kind>): seq<Op> {
    seq(|kinds|, i requires 0 <= i < |kinds| => Put(kinds[i]))
  }

  const KillBody := [Put(Kill), Join, Check(false)]
  const ContBody := [Put(Cont), Join, Check(false), Put(Wait)]
  const PeekBody := [Put(Peek), Join, Take]
  const TerminateBody := [Put(Terminate), Reap]

  function TailOps(t: Tail): seq<Op> {
    match t
    case End => []
    case ContTail => ContBody
    case PeekTail => PeekBody
    case KillTail => KillBody
    case TerminateTail => TerminateBody
  }

  function Program(c: Call): seq<Op>
    decreases |c.batches|
  {
    if c.batches == [] then TailOps(c.tail)
    else Puts(c.batches[0]) + ([Join, Check(c.caught)] + Program(c.(batches := c.batches[1..])))
  }

  predicate LegalCall(c: Call) {
    && (forall i :: 0 <= i < |c.batches| ==> forall j :: 0 <= j < |c.batches[i]| ==> Ordinary(c.batches[i][j]))
    && (c.caught ==> c.tail.KillTail?)
  }

  /** What making sure that the process is stopped does: nothing if it is not running; otherwise a join
      and a check, before which an interrupt may wait, once or twice; or the interrupt raises before
      any join, because the first thread is dead or cannot be signalled. */
  datatype Stop = NotRunning | Joined | Interrupted(again: bool) | Raised

  function StopBatches(stop: Stop): seq<seq<Kind>> {
    match stop
    case NotRunning => []
    case Joined => [[]]
    case Interrupted(again) => if again then [[], [Wait], []] else [[], []]
    case Raised => []
  }

  /** The methods of the debugger, with what they find on the way. */
  datatype Api =
    | Commands(kinds: seq<Kind>)          // breakpoint, step, finish, detach, pretty printing, ...
    | OneEach(kinds: seq<Kind>)           // gdb and back, or pretty printing with checks in between
    | NoCommand                           // toggles, registers, maps; or the first thread turns out dead
    | ContApi
    | PeekApi
    | KillApi(catches: bool)              // whether an exception met is one that kill swallows
    | WaitApi(again: bool)                // wait and interrupt
    | TerminateApi

  function Singles(kinds: seq<Kind>): seq<seq<Kind>> {
    seq(|kinds|, i requires 0 <= i < |kinds| => [kinds[i]])
  }

  function ApiBody(a: Api): Call {
    match a
    case Commands(kinds) => Call([kinds], false, End)
    case OneEach(kinds) => Call(Singles(kinds), false, End)
    case NoCommand => Call([], false, End)
    case ContApi => Call([], false, ContTail)
    case PeekApi => Call([], false, PeekTail)
    case KillApi(catches) => Call([], catches, KillTail)
    case WaitApi(again) => Call(if again then [[], [Wait]] else [[]], false, End)
    case TerminateApi => Call([], false, TerminateTail)
  }

  /** The call a method makes, given what its checks for a stopped process did, one after the other. */
  function ApiCall(a: Api, stops: seq<Stop>): Call
    decreases |stops|
  {
    if stops == [] then ApiBody(a)
    else if stops[0].Raised? then
      if a.KillApi? && a.catches then ApiBody(a) else Call([], false, End)
    else
      var c := ApiCall(a, stops[1..]);
      c.(batches := StopBatches(stops[0]) + c.batches)
  }

  // --------------------------------------------------------------------------------- one step

  datatype Label =
    | Begin(call: Call)
    | BeginRun(traced: bool)   // with the anti-debugging handler queued behind it or not
    | MainStep
    | PollerStep(ok: bool)

  /** A call that finds the process running joins before it puts anything. The exceptions are a kill
      whose interrupt raised, and terminating. */
  predicate Careful(c: Call, running: bool) {
    || !running
    || (c.batches != [] && c.batches[0] == [])
    || (c.batches == [] && (c.tail.KillTail? || c.tail.TerminateTail? || c.tail.End?))
  }

  predicate Enabled(s: State, l: Label) {
    match l
    case Begin(c) =>
      && s.ops == [] && !s.poller.Terminated? && LegalCall(c) && Careful(c, s.running)
      && (s.instanced || c.tail.End? || c.tail.KillTail? || c.tail.TerminateTail?)
    case BeginRun(_) => s.ops == [] && !s.poller.Terminated? && !s.instanced
    case MainStep =>
      s.ops != [] &&
      (match s.ops[0]
       case Join => s.cmdUnfinished == 0
       case Take => s.respQ != []
       case Reap => s.poller.Terminated?
       case _ => true)
    case PollerStep(_) =>
      (match s.poller
       case Waiting => s.cmdQ != []
       case Draining => s.respUnfinished == 0
       case Terminated => false
       case _ => true)
  }

  /** The running flag after a command. */
  function Flag(k: Kind, ok: bool, running: bool): bool {
    match k
    case Cont => true
    case Step => if ok then true else running
    case Wait => if ok then false else running
    case Stopping => if ok then false else running
    case _ => running
  }

  /** Whether executing a command puts a response on the queue. */
  predicate Answers(k: Kind, ok: bool) {
    k.Peek? || (!ok && !k.Terminate?)
  }

  function MainNext(s: State): State
    requires s.ops != []
  {
    var rest := s.ops[1..];
    match s.ops[0]
    case Put(k) =>
      s.(cmdQ := s.cmdQ + [Command(s.nextId, k)], cmdUnfinished := s.cmdUnfinished + 1,
         nextId := s.nextId + 1, ops := rest, instanced := s.instanced && !k.Kill?)
    case Join => s.(ops := rest)
    case Check(caught) =>
      if s.respQ == [] then s.(ops := rest)
      else s.(respQ := s.respQ[1..], ops := [Ack(s.respQ[0], caught)] + rest)
    case Ack(r, caught) =>
      s.(respUnfinished := s.respUnfinished - 1, delivered := s.delivered + [r.id],
         ops := if caught then KillBody else [])
    case Take =>
      if s.respQ == [] then s
      else s.(respQ := s.respQ[1..], ops := [AckTake(s.respQ[0])] + rest)
    case AckTake(r) =>
      s.(respUnfinished := s.respUnfinished - 1, delivered := s.delivered + [r.id], ops := rest)
    case Reap => s.(ops := rest)
  }

  function PollerNext(s: State, ok: bool): State {
    match s.poller
    case Waiting =>
      if s.cmdQ == [] then s else s.(cmdQ := s.cmdQ[1..], poller := Executing(s.cmdQ[0]))
    case Executing(c) =>
      if c.kind.Terminate? then s.(cmdUnfinished := s.cmdUnfinished - 1, poller := Terminated)
      else
        s.(running := Flag(c.kind, ok, s.running),
           poller := if Answers(c.kind, ok) then Replying(Response(c.id, ok)) else Finishing(false))
    case Replying(r) =>
      s.(respQ := s.respQ + [r], respUnfinished := s.respUnfinished + 1,
         produced := s.produced + [r.id], poller := Finishing(true))
    case Finishing(replied) =>
      s.(cmdUnfinished := s.cmdUnfinished - 1, poller := if replied then Draining else Waiting)
    case Draining => s.(poller := Waiting)
    case Terminated => s
  }

  function RunBatch(traced: bool): seq<Kind> {
    if traced then [Stopping, Plain] else [Stopping]
  }

  function Next(s: State, l: Label): State
    requires Enabled(s, l)
  {
    match l
    case Begin(c) => s.(ops := Program(c))
    case BeginRun(traced) =>
      s.(running := false, instanced := true, ops := Program(Call([RunBatch(traced)], false, End)))
    case MainStep => MainNext(s)
    case PollerStep(ok) => PollerNext(s, ok)
  }

  // ------------------------------------------------------------------------------ the invariant

  /** Commands not executed yet, oldest first. */
  function Unexecuted(s: State): seq<Command> {
    (if s.poller.Executing? then [s.poller.cmd] else []) + s.cmdQ
  }

  function Busy(p: Poller): int {
    if p.Executing? || p.Replying? || p.Finishing? then 1 else 0
  }

  predicate Acking(ops: seq<Op>) {
    ops != [] && (ops[0].Ack? || ops[0].AckTake?)
  }

  predicate HeadPut(ops: seq<Op>) {
    ops != [] && ops[0].Put?
  }

  /** A response is on its way to the main thread. */
  predicate Pending(s: State) {
    s.poller.Replying? || s.poller == Finishing(true) || (s.poller.Draining? && s.respUnfinished != 0)
  }

  /** The response on its way. */
  predicate PendingIs(s: State, id: int) {
    if s.poller.Replying? then s.poller.r.id == id else |s.respQ| == 1 && s.respQ[0].id == id
  }

  /** The rest of a call that leaves nothing unjoined. */
  predicate Sound(ops: seq<Op>)
    decreases |ops|
  {
    ops == [] ||
    match ops[0]
    case Put(k) =>
      if k.Peek? then ops == PeekBody
      else if k.Cont? then ops == ContBody
      else if k.Kill? then ops == KillBody
      else if k.Terminate? then ops == TerminateBody
      else |ops| >= 2 && (ops[1].Join? || (ops[1].Put? && Ordinary(ops[1].kind))) && Sound(ops[1..])
    case Join => |ops| >= 2 && ops[1].Check? && Sound(ops[1..])
    case Check(caught) => (caught ==> EndsInKill(ops[1..])) && Sound(ops[1..])
    case _ => false
  }

  predicate EndsInKill(ops: seq<Op>) {
    |ops| >= 3 && ops[|ops| - 3..] == KillBody
  }

  /** Between cont's own command and the wait it leaves behind. */
  predicate InCont(ops: seq<Op>) {
    ops == [Join, Check(false), Put(Wait)] || ops == [Check(false), Put(Wait)] || ops == [Put(Wait)]
  }

  /** About to raise a response. */
  predicate InAck(ops: seq<Op>) {
    ops != [] && ops[0].Ack? && (ops[0].caught ==> EndsInKill(ops[1..]))
  }

  /** Only cont ends by putting a command. */
  predicate EndsInPut(ops: seq<Op>) {
    ops != [] && ops[|ops| - 1].Put?
  }

  /** Between a peek's command and its result. */
  predicate InPeek(ops: seq<Op>) {
    ops == [Join, Take] || ops == [Take] || (|ops| == 1 && ops[0].AckTake?)
  }

  /** Unfinished counts, and where the only response can be. */
  predicate Counted(s: State) {
    && s.cmdUnfinished == |s.cmdQ| + Busy(s.poller)
    && s.respUnfinished == |s.respQ| + (if Acking(s.ops) then 1 else 0)
    && s.respUnfinished <= 1
    && (s.poller != Finishing(true) && !s.poller.Draining? ==> s.respUnfinished == 0)
    && (s.poller == Finishing(true) ==> s.respUnfinished == 1)
  }

  /** Responses are delivered once each and in order; at most the last one is still under way. */
  predicate Conserved(s: State) {
    s.produced == s.delivered
      + (if Acking(s.ops) then [s.ops[0].r.id] else [])
      + (if s.respQ == [] then [] else [s.respQ[0].id])
  }

  function Ids(u: seq<Command>): (r: seq<nat>)
    ensures |r| == |u| && forall i :: 0 <= i < |u| ==> r[i] == u[i].id
  {
    seq(|u|, i requires 0 <= i < |u| => u[i].id)
  }

  /** The commands that answered, the one answering, and those still to be executed. */
  function Timeline(s: State): seq<nat> {
    s.produced + (if s.poller.Replying? then [s.poller.r.id] else []) + Ids(Unexecuted(s))
  }

  predicate Increasing(t: seq<nat>, bound: nat) {
    && (forall i, j :: 0 <= i < j < |t| ==> t[i] < t[j])
    && (forall i :: 0 <= i < |t| ==> t[i] < bound)
  }

  /** Every command is executed once, in the order in which it was put. */
  predicate Numbered(s: State) {
    Increasing(Timeline(s), s.nextId)
  }

  /** Nothing has been queued behind a command that answered. */
  predicate Open(s: State) {
    Pending(s) ==> s.cmdQ == [] && !HeadPut(s.ops)
  }

  /** What the main thread knows from where it is. */
  predicate Placed(s: State) {
    Shape(s.ops) && Settling(s) && Corner(s) && PeeksLast(s) && PlacedEnd(s)
  }

  predicate Shape(ops: seq<Op>) {
    Sound(ops) || InCont(ops) || InPeek(ops) || InAck(ops) || ops == [Reap]
  }

  /** After a join nothing is unfinished; without an instance nothing is left behind. */
  predicate Settling(s: State) {
    && (s.ops != [] && !s.ops[0].Put? && !s.ops[0].Join? && !s.ops[0].Reap? ==> s.cmdUnfinished == 0)
    && (!s.instanced ==> !EndsInPut(s.ops))
  }

  predicate Corner(s: State) {
    && (s.ops == [] ==> PlacedIdle(s))
    && (InCont(s.ops) ==> PlacedCont(s))
    && (InPeek(s.ops) ==> PlacedPeek(s))
    && (HeadPut(s.ops) && (s.ops[0].kind.Cont? || s.ops[0].kind.Peek?) ==> |Unexecuted(s)| == 0)
  }

  /** A peek is waited for on its own. */
  predicate PeeksLast(s: State) {
    PeeksIn(Unexecuted(s), s.ops)
  }

  predicate PeeksIn(u: seq<Command>, ops: seq<Op>) {
    forall i :: 0 <= i < |u| && u[i].kind.Peek? ==> ops == [Join, Take]
  }

  /** The terminating command is the last one, and the main thread waits for it. */
  predicate PlacedEnd(s: State) {
    && EndIn(Unexecuted(s), s.ops)
    && (s.ops == [Reap] && !s.poller.Terminated? ==> EndsWithTerminate(Unexecuted(s)))
    && (s.poller.Terminated? ==> s.cmdQ == [] && (s.ops == [] || s.ops == [Reap]))
  }

  predicate EndIn(u: seq<Command>, ops: seq<Op>) {
    forall i :: 0 <= i < |u| && u[i].kind.Terminate? ==> i == |u| - 1 && ops == [Reap]
  }

  predicate EndsWithTerminate(u: seq<Command>) {
    |u| > 0 && u[|u| - 1].kind.Terminate?
  }

  /** Between calls only a wait is outstanding, and while it is not over, or has failed, the
      running flag is set. */
  predicate PlacedIdle(s: State) {
    var u := Unexecuted(s);
    && |u| <= 1
    && (|u| == 1 ==> u[0].kind.Wait? && s.running)
    && (Pending(s) ==> s.running)
    && (!s.instanced ==> |u| == 0 && s.cmdUnfinished == 0 && s.respUnfinished == 0)
  }

  predicate PlacedCont(s: State)
    requires s.ops != []
  {
    var u := Unexecuted(s);
    if s.ops[0].Join? && |u| == 1 then u[0].kind.Cont?
    else |u| == 0 && s.running && (s.ops[0].Put? ==> s.cmdUnfinished == 0 && s.respUnfinished == 0)
  }

  /** The response a peek takes is its own. */
  predicate PlacedPeek(s: State)
    requires s.ops != []
  {
    var u := Unexecuted(s);
    match s.ops[0]
    case Join =>
      if |u| == 1 then u[0].kind.Peek? && u[0].id == s.nextId - 1
      else |u| == 0 && Pending(s) && PendingIs(s, s.nextId - 1)
    case Take => |s.respQ| == 1 && s.respQ[0].id == s.nextId - 1
    case AckTake(r) => r.id == s.nextId - 1
    case _ => true
  }

  predicate Good(s: State) {
    Counted(s) && Conserved(s) && Numbered(s) && Open(s) && Placed(s)
  }

  /** Commands still to be put, up to the join that follows them. */
  predicate Batch(ops: seq<Op>)
    decreases |ops|
  {
    ops != [] && (ops[0].Join? || ops[0].Reap? || (ops[0].Put? && Batch(ops[1..])))
  }

  /** A response is undrained, and a command is queued, or about to be queued, behind it. */
  predicate Doomed(s: State) {
    Counted(s) && Pending(s) && (s.cmdQ != [] || HeadPut(s.ops)) && Batch(s.ops)
  }

  // ------------------------------------------------------------------ every step keeps it

  /** The shapes of a rest of a call exclude each other. */
  lemma {:induction false} ShapesDisjoint(ops: seq<Op>)
    ensures Sound(ops) ==> !InCont(ops) && !InPeek(ops) && !InAck(ops)
  {
    assert !Sound([Put(Wait)]);
    assert !Sound([Check(false), Put(Wait)]) by {
      assert [Check(false), Put(Wait)][1..] == [Put(Wait)];
    }
    assert !Sound([Join, Check(false), Put(Wait)]) by {
      assert [Join, Check(false), Put(Wait)][1..] == [Check(false), Put(Wait)];
    }
  }

  lemma {:induction false} PutUnexecuted(s: State)
    requires HeadPut(s.ops)
    ensures Unexecuted(MainNext(s)) == Unexecuted(s) + [Command(s.nextId, s.ops[0].kind)]
    ensures Timeline(MainNext(s)) == Timeline(s) + [s.nextId]
  {
  }

  lemma {:induction false} FetchUnexecuted(s: State, ok: bool)
    requires s.poller.Waiting? && s.cmdQ != []
    ensures Unexecuted(PollerNext(s, ok)) == Unexecuted(s)
    ensures Timeline(PollerNext(s, ok)) == Timeline(s)
  {
  }

  lemma {:induction false} ExecuteUnexecuted(s: State, ok: bool)
    requires s.poller.Executing?
    ensures Unexecuted(s) == [s.poller.cmd] + s.cmdQ
    ensures Unexecuted(PollerNext(s, ok)) == s.cmdQ == Unexecuted(s)[1..]
    ensures var t := Timeline(s);
            Timeline(PollerNext(s, ok)) ==
            if PollerNext(s, ok).poller.Replying? then t else t[..|s.produced|] + t[|s.produced| + 1..]
  {
    var c := s.poller.cmd;
    assert Ids(Unexecuted(s)) == [c.id] + Ids(s.cmdQ);
    assert Timeline(s) == s.produced + [c.id] + Ids(s.cmdQ);
  }

  lemma {:induction false} StillIncreasing(t: seq<nat>, i: nat, bound: nat)
    requires Increasing(t, bound) && i < |t|
    ensures Increasing(t[..i] + t[i + 1..], bound)
  {
  }

  /** What is left of a call after a command is put. */
  lemma {:induction false} PutShape(ops: seq<Op>)
    requires Shape(ops) && HeadPut(ops)
    ensures var k, r := ops[0].kind, ops[1..];
            && (k.Cont? ==> r == [Join, Check(false), Put(Wait)])
            && (k.Peek? ==> r == [Join, Take])
            && (k.Terminate? ==> r == [Reap])
            && (k.Kill? ==> r == [Join, Check(false)])
            && (Ordinary(k) ==>
                  if ops == [Put(Wait)] then r == [] else Sound(r) && r != [] && (r[0].Join? || r[0].Put?))
            && (Ordinary(k) && HeadPut(r) ==> Ordinary(r[0].kind))
  {
  }

  lemma {:induction false} PutKeepsPlaced(s: State)
    requires Counted(s) && Open(s) && Placed(s) && HeadPut(s.ops)
    ensures Placed(MainNext(s))
  {
    var t := MainNext(s);
    PutUnexecuted(s);
    PutShape(s.ops);
    PutShaped(s, t);
    PutCorner(s, t);
    PutQueue(Unexecuted(s), Command(s.nextId, s.ops[0].kind), s.ops);
  }

  lemma {:induction false} PutShaped(s: State, t: State)
    requires Shape(s.ops) && Settling(s) && HeadPut(s.ops) && t == MainNext(s)
    ensures Shape(t.ops) && Settling(t)
  {
    PutShape(s.ops);
    assert s.ops[0].kind.Kill? ==> Sound(t.ops) by {
      assert [Join, Check(false)][1..] == [Check(false)] && [Check(false)][1..] == [];
    }
  }

  lemma {:induction false} PutQueue(u: seq<Command>, c: Command, ops: seq<Op>)
    requires Shape(ops) && HeadPut(ops) && c.kind == ops[0].kind && PeeksIn(u, ops) && EndIn(u, ops)
    ensures PeeksIn(u + [c], ops[1..]) && EndIn(u + [c], ops[1..])
    ensures ops[1..] == [Reap] ==> EndsWithTerminate(u + [c])
  {
    PutShape(ops);
  }

  lemma {:induction false} PutCorner(s: State, t: State)
    requires Counted(s) && Open(s) && Placed(s) && HeadPut(s.ops) && t == MainNext(s)
    ensures Corner(t)
  {
    PutUnexecuted(s);
    PutShape(s.ops);
    var k := s.ops[0].kind;
    if k.Cont? || k.Peek? {
      assert |Unexecuted(s)| == 0 && Unexecuted(t)[0] == Command(s.nextId, k);
    } else if s.ops == [Put(Wait)] {
      assert Unexecuted(s) == [] && Unexecuted(t)[0] == Command(s.nextId, Wait);
      assert EndsInPut(s.ops);
    } else {
      PutElsewhere(s.ops);
    }
  }

  lemma {:induction false} PutElsewhere(ops: seq<Op>)
    requires Shape(ops) && HeadPut(ops) && !ops[0].kind.Cont? && !ops[0].kind.Peek? && ops != [Put(Wait)]
    ensures var r := ops[1..];
            r != [] && !InCont(r) && !InPeek(r) && (HeadPut(r) ==> Ordinary(r[0].kind))
  {
    PutShape(ops);
    ShapesDisjoint(ops[1..]);
  }

  lemma {:induction false} PutKeepsGood(s: State)
    requires Good(s) && HeadPut(s.ops)
    ensures Good(MainNext(s))
  {
    PutUnexecuted(s);
    ShapesDisjoint(s.ops);
    ShapesDisjoint(s.ops[1..]);
    assert Numbered(MainNext(s));
    PutKeepsPlaced(s);
  }

  lemma {:induction false} JoinKeepsGood(s: State)
    requires Good(s) && Enabled(s, MainStep) && s.ops[0].Join?
    ensures Good(MainNext(s))
  {
    var t := MainNext(s);
    assert t.ops == s.ops[1..] && Unexecuted(t) == Unexecuted(s) == [];
  }

  lemma {:induction false} FetchKeepsGood(s: State, ok: bool)
    requires Good(s) && s.poller.Waiting? && s.cmdQ != []
    ensures Good(PollerNext(s, ok))
  {
    FetchUnexecuted(s, ok);
    assert Placed(PollerNext(s, ok));
  }

  lemma {:induction false} CheckKeepsGood(s: State)
    requires Good(s) && s.ops != [] && s.ops[0].Check?
    ensures Good(MainNext(s))
  {
    if s.respQ == [] {
      PassKeepsGood(s);
    } else {
      ResponseTaken(s, MainNext(s));
    }
  }

  lemma {:induction false} ResponseTaken(s: State, t: State)
    requires Good(s) && s.ops != [] && s.ops[0].Check? && s.respQ != [] && t == MainNext(s)
    ensures Good(t)
  {
    assert Unexecuted(t) == Unexecuted(s) == [];
    assert t.ops[1..] == s.ops[1..];
    assert EndsInPut(t.ops) ==> EndsInPut(s.ops);
    TakenCounted(s, t);
    TakenPlaced(s, t);
  }

  lemma {:induction false} TakenCounted(s: State, t: State)
    requires Good(s) && s.ops != [] && s.ops[0].Check? && s.respQ != [] && t == MainNext(s)
    ensures Counted(t) && Conserved(t) && Numbered(t)
  {
    assert Timeline(t) == Timeline(s);
  }

  lemma {:induction false} TakenPlaced(s: State, t: State)
    requires Good(s) && s.ops != [] && s.ops[0].Check? && s.respQ != [] && t == MainNext(s)
    requires Unexecuted(t) == Unexecuted(s) == [] && t.ops[1..] == s.ops[1..]
    requires EndsInPut(t.ops) ==> EndsInPut(s.ops)
    ensures Placed(t)
  {
  }

  lemma {:induction false} PassKeepsGood(s: State)
    requires Good(s) && s.ops != [] && s.ops[0].Check? && s.respQ == []
    ensures Good(MainNext(s))
  {
    var t := MainNext(s);
    ShapesDisjoint(s.ops);
    ShapesDisjoint(t.ops);
    assert Sound(t.ops) || t.ops == [Put(Wait)];
    assert Unexecuted(t) == Unexecuted(s) == [];
  }

  lemma {:induction false} TakeKeepsGood(s: State)
    requires Good(s) && Enabled(s, MainStep) && s.ops[0].Take?
    ensures Good(MainNext(s))
  {
    ShapesDisjoint(s.ops);
    assert Unexecuted(MainNext(s)) == Unexecuted(s);
  }

  lemma {:induction false} AckKeepsGood(s: State)
    requires Good(s) && Acking(s.ops)
    ensures Good(MainNext(s))
  {
    var t := MainNext(s);
    assert Unexecuted(t) == Unexecuted(s) == [];
    ShapesDisjoint(s.ops);
    assert t.respUnfinished == 0 && t.respQ == [];
    assert t.produced == t.delivered;
    assert t.ops == [] || t.ops == KillBody;
    AckedPlaced(s, t);
  }

  lemma {:induction false} AckedPlaced(s: State, t: State)
    requires Placed(s) && Acking(s.ops) && t == MainNext(s) && (t.ops == [] || t.ops == KillBody)
    requires Unexecuted(t) == [] && t.cmdUnfinished == 0 && t.respUnfinished == 0 && !t.poller.Replying?
    requires t.poller != Finishing(true)
    ensures Placed(t)
  {
    if t.ops == KillBody {
      assert Sound(KillBody);
      ShapesDisjoint(KillBody);
      assert s.ops[0].Ack? && s.ops[0].caught;
    } else {
      assert Sound([]);
    }
  }

  lemma {:induction false} ReapKeepsGood(s: State)
    requires Good(s) && Enabled(s, MainStep) && s.ops[0].Reap?
    ensures Good(MainNext(s))
  {
    assert s.ops == [Reap];
    assert Unexecuted(MainNext(s)) == Unexecuted(s) == [];
  }

  /** Whether another command is queued or about to be queued behind the one executing. */
  predicate NoneBehind(s: State) {
    s.cmdQ == [] && !HeadPut(s.ops)
  }

  lemma {:induction false} ExecuteKeepsGood(s: State, ok: bool)
    requires Good(s) && s.poller.Executing? && !s.poller.cmd.kind.Terminate?
    requires NoneBehind(s) || !Answers(s.poller.cmd.kind, ok)
    ensures Good(PollerNext(s, ok))
  {
    ExecuteNumbered(s, ok);
    ExecuteKeepsPlaced(s, ok);
  }

  lemma {:induction false} ExecuteNumbered(s: State, ok: bool)
    requires Numbered(s) && s.poller.Executing?
    ensures Numbered(PollerNext(s, ok))
  {
    ExecuteUnexecuted(s, ok);
    assert |s.produced| < |Timeline(s)|;
    StillIncreasing(Timeline(s), |s.produced|, s.nextId);
    assert PollerNext(s, ok).nextId == s.nextId;
  }

  lemma {:induction false} ExecuteKeepsPlaced(s: State, ok: bool)
    requires Counted(s) && Placed(s) && s.poller.Executing? && !s.poller.cmd.kind.Terminate?
    requires NoneBehind(s) || !Answers(s.poller.cmd.kind, ok)
    ensures Placed(PollerNext(s, ok))
  {
    var t := PollerNext(s, ok);
    assert t.ops == s.ops && t.cmdUnfinished == s.cmdUnfinished;
    ExecuteKeepsCorner(s, ok);
    ExecuteUnexecuted(s, ok);
    assert Unexecuted(s)[0] == s.poller.cmd;
    RestOfQueue(Unexecuted(s), s.ops);
  }

  lemma {:induction false} RestOfQueue(u: seq<Command>, ops: seq<Op>)
    requires u != [] && PeeksIn(u, ops) && EndIn(u, ops) && !u[0].kind.Terminate?
    ensures PeeksIn(u[1..], ops) && EndIn(u[1..], ops)
    ensures EndsWithTerminate(u) ==> EndsWithTerminate(u[1..])
  {
  }

  lemma {:induction false} ExecuteKeepsCorner(s: State, ok: bool)
    requires Counted(s) && Corner(s) && PeeksLast(s) && s.poller.Executing? && !s.poller.cmd.kind.Terminate?
    requires NoneBehind(s) || !Answers(s.poller.cmd.kind, ok)
    ensures Corner(PollerNext(s, ok))
  {
    ExecuteUnexecuted(s, ok);
    assert Unexecuted(s)[0] == s.poller.cmd;
  }

  lemma {:induction false} TerminateKeepsGood(s: State, ok: bool)
    requires Good(s) && s.poller.Executing? && s.poller.cmd.kind.Terminate?
    ensures Good(PollerNext(s, ok))
  {
    ExecuteNumbered(s, ok);
    ExecuteUnexecuted(s, ok);
    assert Unexecuted(s)[0] == s.poller.cmd;
    assert s.cmdQ == [] && s.ops == [Reap];
  }

  lemma {:induction false} ReplyKeepsGood(s: State, ok: bool)
    requires Good(s) && (s.poller.Replying? || s.poller.Finishing? || s.poller.Draining?)
    requires Enabled(s, PollerStep(ok))
    ensures Good(PollerNext(s, ok))
  {
  }

  // ------------------------------------------------------------------------------ calls begin

  lemma {:induction false} PutsSound(kinds: seq<Kind>, ops: seq<Op>)
    requires forall i :: 0 <= i < |kinds| ==> Ordinary(kinds[i])
    requires Sound(ops) && ops != [] && ops[0].Join?
    ensures Sound(Puts(kinds) + ops)
    decreases |kinds|
  {
    if kinds == [] {
      assert Puts(kinds) + ops == ops;
    } else {
      PutsSound(kinds[1..], ops);
      assert (Puts(kinds) + ops)[1..] == Puts(kinds[1..]) + ops;
    }
  }

  lemma {:induction false} CheckedSound(ops: seq<Op>, caught: bool)
    requires Sound(ops) && (caught ==> EndsInKill(ops))
    ensures Sound([Join, Check(caught)] + ops)
  {
    var checked := [Check(caught)] + ops;
    assert checked[1..] == ops;
    assert ([Join, Check(caught)] + ops)[1..] == checked;
  }

  lemma {:induction false} TailSound(t: Tail)
    ensures Sound(TailOps(t))
  {
  }

  lemma {:induction false} TailEnds(t: Tail)
    ensures EndsInPut(TailOps(t)) <==> t.ContTail?
    ensures t.KillTail? ==> EndsInKill(TailOps(t))
  {
    match t
    case End =>
    case ContTail => assert ContBody[3] == Put(Wait);
    case PeekTail => assert PeekBody[2] == Take;
    case KillTail => assert KillBody[0..] == KillBody && KillBody[2] == Check(false);
    case TerminateTail => assert TerminateBody[1] == Reap;
  }

  lemma {:induction false} SameEnd(pre: seq<Op>, ops: seq<Op>)
    requires ops != []
    ensures EndsInPut(pre + ops) <==> EndsInPut(ops)
    ensures EndsInKill(ops) ==> EndsInKill(pre + ops)
  {
    var p := pre + ops;
    assert |ops| >= 3 ==> p[|p| - 3..] == ops[|ops| - 3..];
  }

  /** Only cont's program ends by putting a command, and a kill's ends with its own. */
  lemma {:induction false} ProgramEnds(c: Call)
    ensures EndsInPut(Program(c)) <==> c.tail.ContTail?
    ensures c.tail.KillTail? ==> EndsInKill(Program(c))
    decreases |c.batches|
  {
    if c.batches == [] {
      TailEnds(c.tail);
    } else {
      ProgramEnds(c.(batches := c.batches[1..]));
      BatchEnds(c.batches[0], c.caught, Program(c.(batches := c.batches[1..])));
    }
  }

  lemma {:induction false} BatchEnds(kinds: seq<Kind>, caught: bool, rest: seq<Op>)
    ensures var p := Puts(kinds) + ([Join, Check(caught)] + rest);
            (EndsInPut(p) <==> EndsInPut(rest)) && (EndsInKill(rest) ==> EndsInKill(p))
  {
    var checked := [Join, Check(caught)] + rest;
    if rest == [] {
      assert !EndsInPut(checked);
    } else {
      SameEnd([Join, Check(caught)], rest);
    }
    SameEnd(Puts(kinds), checked);
  }

  lemma {:induction false} ProgramSound(c: Call)
    requires LegalCall(c)
    ensures Sound(Program(c))
    decreases |c.batches|
  {
    if c.batches == [] {
      TailSound(c.tail);
    } else {
      var d := c.(batches := c.batches[1..]);
      ProgramSound(d);
      ProgramEnds(d);
      CheckedSound(Program(d), c.caught);
      PutsSound(c.batches[0], [Join, Check(c.caught)] + Program(d));
    }
  }

  /** How a program starts. */
  lemma {:induction false} ProgramHead(c: Call)
    ensures var p := Program(c);
            if c.batches == [] then p == TailOps(c.tail)
            else if c.batches[0] == [] then p != [] && p[0] == Join
            else p != [] && p[0] == Put(c.batches[0][0])
  {
    if c.batches != [] {
      assert c.batches[0] == [] ==> Puts(c.batches[0]) == [];
    }
  }

  /** Every method of the debugger makes a legal call, whatever its checks find. */
  lemma {:induction false} ApiCallsLegal(a: Api, stops: seq<Stop>, running: bool)
    requires OrdinaryApi(a) && Checked(a, stops, running)
    ensures LegalCall(ApiCall(a, stops)) && Careful(ApiCall(a, stops), running)
    ensures ApiCall(a, stops).tail.ContTail? ==> a.ContApi?
    ensures ApiCall(a, stops).tail.PeekTail? ==> a.PeekApi?
    decreases |stops|
  {
    if stops == [] {
      BodyLegal(a);
    } else if !stops[0].Raised? {
      ApiCallsLegal(a, stops[1..], false);
      Prepended(ApiCall(a, stops[1..]), StopBatches(stops[0]));
    }
  }

  /** Making sure that the process is stopped joins before anything else if it is running, and puts nothing
      but one wait, when the interrupt has to wait again, which it then joins too. */
  lemma {:induction false} StopBatchesAre(stop: Stop)
    ensures var bs := StopBatches(stop);
            && (bs == [] <==> stop.NotRunning? || stop.Raised?)
            && (bs != [] ==> bs[0] == [])
            && (forall i :: 0 <= i < |bs| ==> bs[i] == [] || bs[i] == [Wait])
            && ([Wait] in bs <==> stop == Interrupted(true))
            && (stop == Interrupted(true) ==> bs == [[], [Wait], []])
  {
    match stop
    case Interrupted(again) =>
      if again {
        assert StopBatches(stop)[1] == [Wait];
      }
    case _ =>
  }

  predicate OrdinaryApi(a: Api) {
    a.Commands? || a.OneEach? ==> forall i :: 0 <= i < |a.kinds| ==> Ordinary(a.kinds[i])
  }

  /** All methods but wait, interrupt and terminate make sure first that the process is stopped. */
  predicate Checked(a: Api, stops: seq<Stop>, running: bool) {
    if a.WaitApi? || a.TerminateApi? then stops == []
    else running ==> stops != [] && !stops[0].NotRunning?
  }

  /** The machine makes every call that a method makes between calls, with a process or without one;
      continuing and reading memory demand one. */
  lemma {:induction false} ApiCallsEnabled(s: State, a: Api, stops: seq<Stop>)
    requires OrdinaryApi(a) && Checked(a, stops, s.running)
    requires s.ops == [] && !s.poller.Terminated? && (a.ContApi? || a.PeekApi? ==> s.instanced)
    ensures Enabled(s, Begin(ApiCall(a, stops)))
  {
    ApiCallsLegal(a, stops, s.running);
  }

  lemma {:induction false} BodyLegal(a: Api)
    requires OrdinaryApi(a)
    ensures LegalCall(ApiBody(a))
  {
  }

  lemma {:induction false} Prepended(c: Call, pre: seq<seq<Kind>>)
    requires LegalCall(c) && forall i :: 0 <= i < |pre| ==> pre[i] == [] || pre[i] == [Wait]
    ensures LegalCall(c.(batches := pre + c.batches))
  {
  }

  lemma {:induction false} BeginKeepsGood(s: State, ops: seq<Op>, t: State)
    requires Good(s) && s.ops == [] && Sound(ops) && !s.poller.Terminated?
    requires t == s.(ops := ops, instanced := t.instanced, running := t.running)
    requires if t.instanced == s.instanced then t.running == s.running else !s.instanced && !t.running
    requires !t.instanced ==> !EndsInPut(ops)
    requires HeadPut(ops) && (ops[0].kind.Cont? || ops[0].kind.Peek?) ==> !t.running
    requires ops != [] ==> ops[0].Join? || ops[0].Put?
    requires !(Pending(s) && HeadPut(ops))
    ensures Good(t)
  {
    ShapesDisjoint(ops);
    assert Unexecuted(t) == Unexecuted(s);
    assert forall i :: 0 <= i < |Unexecuted(s)| ==> Unexecuted(s)[i].kind.Wait?;
  }

  // ------------------------------------------------------------------------- doom is for ever

  lemma {:induction false} SoundBatch(ops: seq<Op>)
    requires Sound(ops) && HeadPut(ops)
    ensures Batch(ops)
    decreases |ops|
  {
    if Ordinary(ops[0].kind) {
      if !ops[1].Join? {
        SoundBatch(ops[1..]);
      }
    } else {
      assert ops[1].Join? || ops[1].Reap?;
    }
  }

  lemma {:induction false} ExecuteDooms(s: State, ok: bool)
    requires Good(s) && s.poller.Executing?
    requires !NoneBehind(s) && Answers(s.poller.cmd.kind, ok)
    ensures Doomed(PollerNext(s, ok))
  {
    ExecuteUnexecuted(s, ok);
    ShapesDisjoint(s.ops);
    if HeadPut(s.ops) {
      SoundBatch(s.ops);
    }
  }

  /** From a doomed state every step leads to a doomed state: the main thread never gets past
      its join. */
  lemma {:induction false} DoomedStep(s: State, l: Label)
    requires Doomed(s) && Enabled(s, l)
    ensures Doomed(Next(s, l))
  {
    var t := Next(s, l);
    if l.MainStep? && s.ops[0].Put? {
      assert Batch(t.ops) && !Acking(t.ops);
      assert t.cmdQ != [];
    }
  }

  /** Both threads are blocked for good. */
  predicate Jammed(s: State) {
    Doomed(s) && (s.ops[0].Join? || s.ops[0].Reap?) && s.poller.Draining?
  }

  lemma {:induction false} JammedIffStuck(s: State)
    requires Doomed(s)
    ensures Jammed(s) <==> forall l :: !Enabled(s, l)
  {
    if !Jammed(s) {
      assert Enabled(s, MainStep) || Enabled(s, PollerStep(true));
    }
  }

  // ------------------------------------------------------------------------------ every step

  /** A command answers with another one queued behind it, or a call that puts a command before it
      joins begins while a response is undrained. */
  predicate Overtaken(s: State, l: Label) {
    match l
    case PollerStep(ok) => s.poller.Executing? && Answers(s.poller.cmd.kind, ok) && !NoneBehind(s)
    case Begin(c) => Pending(s) && HeadPut(Program(c))
    case _ => false
  }

  lemma {:induction false} BeginStep(s: State, c: Call)
    requires Good(s) && Enabled(s, Begin(c))
    ensures if Overtaken(s, Begin(c)) then Doomed(Next(s, Begin(c))) else Good(Next(s, Begin(c)))
  {
    ProgramSound(c);
    ProgramEnds(c);
    BeginHead(c, s.running);
    var p := Program(c);
    if Overtaken(s, Begin(c)) {
      BeginDooms(s, p);
    } else {
      BeginKeepsGood(s, p, s.(ops := p));
    }
  }

  lemma {:induction false} BeginDooms(s: State, ops: seq<Op>)
    requires Counted(s) && s.ops == [] && Pending(s) && Sound(ops) && HeadPut(ops)
    ensures Doomed(s.(ops := ops))
  {
    SoundBatch(ops);
  }

  lemma {:induction false} BeginHead(c: Call, running: bool)
    requires LegalCall(c) && Careful(c, running)
    ensures var p := Program(c);
            p != [] ==> p[0].Join? || (p[0].Put? && (p[0].kind.Cont? || p[0].kind.Peek? ==> !running))
  {
    ProgramHead(c);
    if c.batches != [] && c.batches[0] != [] {
      assert Ordinary(c.batches[0][0]);
    }
  }

  lemma {:induction false} RunStep(s: State, traced: bool)
    requires Good(s) && Enabled(s, BeginRun(traced))
    ensures Good(Next(s, BeginRun(traced)))
  {
    var c := Call([RunBatch(traced)], false, End);
    ProgramSound(c);
    ProgramEnds(c);
    ProgramHead(c);
    BeginKeepsGood(s, Program(c), Next(s, BeginRun(traced)));
  }

  lemma {:induction false} MainKeepsGood(s: State)
    requires Good(s) && Enabled(s, MainStep)
    ensures Good(MainNext(s))
  {
    match s.ops[0]
    case Put(_) => PutKeepsGood(s);
    case Join => JoinKeepsGood(s);
    case Check(_) => CheckKeepsGood(s);
    case Take => TakeKeepsGood(s);
    case Ack(_, _) => AckKeepsGood(s);
    case AckTake(_) => AckKeepsGood(s);
    case Reap => ReapKeepsGood(s);
  }

  lemma {:induction false} PollerKeepsGood(s: State, ok: bool)
    requires Good(s) && Enabled(s, PollerStep(ok))
    ensures if Overtaken(s, PollerStep(ok)) then Doomed(PollerNext(s, ok)) else Good(PollerNext(s, ok))
  {
    match s.poller
    case Waiting => FetchKeepsGood(s, ok);
    case Executing(c) =>
      if Overtaken(s, PollerStep(ok)) {
        ExecuteDooms(s, ok);
      } else if c.kind.Terminate? {
        TerminateKeepsGood(s, ok);
      } else {
        ExecuteKeepsGood(s, ok);
      }
    case _ => ReplyKeepsGood(s, ok);
  }

  /** Every step keeps the invariant, or lets a command overtake a response, which dooms the state. */
  lemma {:induction false} StepKeepsGood(s: State, l: Label)
    requires Good(s) && Enabled(s, l)
    ensures if Overtaken(s, l) then Doomed(Next(s, l)) else Good(Next(s, l))
  {
    match l
    case Begin(c) => BeginStep(s, c);
    case BeginRun(traced) => RunStep(s, traced);
    case MainStep => MainKeepsGood(s);
    case PollerStep(ok) => PollerKeepsGood(s, ok);
  }

  lemma {:induction false} GoodIsNotDoomed(s: State)
    ensures !(Good(s) && Doomed(s))
  {
  }

  /** A good state in the middle of a call is never stuck. */
  lemma {:induction false} GoodMoves(s: State)
    requires Good(s) && s.ops != []
    ensures Enabled(s, MainStep) || Enabled(s, PollerStep(true))
  {
  }

  // ------------------------------------------------------------------------------ whole runs

  predicate Possible(s: State, ls: seq<Label>)
    decreases |ls|
  {
    ls == [] || (Enabled(s, ls[0]) && Possible(Next(s, ls[0]), ls[1..]))
  }

  function After(s: State, ls: seq<Label>): State
    requires Possible(s, ls)
    decreases |ls|
  {
    if ls == [] then s else After(Next(s, ls[0]), ls[1..])
  }

  /** No command that answers has another one queued behind it, and nothing is put while a response is
      undrained. */
  predicate Orderly(s: State, ls: seq<Label>)
    requires Possible(s, ls)
    decreases |ls|
  {
    ls == [] || (!Overtaken(s, ls[0]) && Orderly(Next(s, ls[0]), ls[1..]))
  }

  lemma {:induction false} DoomedForEver(s: State, ls: seq<Label>)
    requires Doomed(s) && Possible(s, ls)
    ensures Doomed(After(s, ls))
    decreases |ls|
  {
    if ls != [] {
      DoomedStep(s, ls[0]);
      DoomedForEver(Next(s, ls[0]), ls[1..]);
    }
  }

  lemma {:induction false} RunKeepsGood(s: State, ls: seq<Label>)
    requires Good(s) && Possible(s, ls)
    ensures if Orderly(s, ls) then Good(After(s, ls)) else Doomed(After(s, ls))
    decreases |ls|
  {
    if ls != [] {
      StepKeepsGood(s, ls[0]);
      if Overtaken(s, ls[0]) {
        DoomedForEver(Next(s, ls[0]), ls[1..]);
      } else {
        RunKeepsGood(Next(s, ls[0]), ls[1..]);
      }
    }
  }

  lemma {:induction false} StartIsGood()
    ensures Good(Start)
  {
  }

  /** In every interleaving the response queue holds at most one item, commands unfinished are
      those queued and the one in flight, and a join that returns leaves the response of every
      joined command visible; the responses are delivered in order and once, and all of them before
      the polling thread takes another command; a peek takes its own; and between calls nothing but
      the wait that cont leaves behind is unjoined. */
  predicate Safe(s: State) {
    && |s.respQ| <= 1
    && s.cmdUnfinished == |s.cmdQ| + Busy(s.poller)
    && (s.ops != [] && (s.ops[0].Check? || s.ops[0].Take?) ==> s.cmdQ == [] && (Pending(s) ==> |s.respQ| == 1))
    && s.delivered <= s.produced && |s.produced| <= |s.delivered| + 1
    && (s.poller.Waiting? || s.poller.Executing? ==> s.delivered == s.produced)
    && (forall i, j :: 0 <= i < j < |s.delivered| ==> s.delivered[i] < s.delivered[j])
    && (s.ops != [] && s.ops[0].AckTake? ==> |s.ops| == 1 && s.ops[0].r.id == s.nextId - 1)
    && (s.ops == [] ==> PlacedIdle(s))
  }

  lemma {:induction false} GoodIsSafe(s: State)
    requires Good(s)
    ensures Safe(s)
  {
    forall i, j | 0 <= i < j < |s.delivered|
      ensures s.delivered[i] < s.delivered[j]
    {
      assert s.delivered[i] == s.produced[i] == Timeline(s)[i];
      assert s.delivered[j] == s.produced[j] == Timeline(s)[j];
    }
    if s.ops != [] && s.ops[0].AckTake? {
      GoodPeek(s);
    }
  }

  lemma {:induction false} GoodPeek(s: State)
    requires Placed(s) && s.ops != [] && s.ops[0].AckTake?
    ensures |s.ops| == 1 && s.ops[0].r.id == s.nextId - 1
  {
  }

  lemma {:induction false} QueuesSafe(ls: seq<Label>)
    requires Possible(Start, ls) && Orderly(Start, ls)
    ensures Safe(After(Start, ls))
  {
    StartIsGood();
    RunKeepsGood(Start, ls);
    GoodIsSafe(After(Start, ls));
  }

  /** A run ends in a state from which a call can still return if and only if it was orderly;
      otherwise no continuation gets past the join, and a state without a next step is one where
      both threads wait for each other. */
  lemma {:induction false} NoDeadlockIffOrderly(ls: seq<Label>)
    requires Possible(Start, ls)
    ensures var s := After(Start, ls);
            && (Orderly(Start, ls) <==> Good(s))
            && (Orderly(Start, ls) && s.ops != [] ==> Enabled(s, MainStep) || Enabled(s, PollerStep(true)))
            && (!Orderly(Start, ls) ==>
                  && (forall more :: Possible(s, more) ==> Doomed(After(s, more)))
                  && ((forall l :: !Enabled(s, l)) <==> Jammed(s)))
  {
    StartIsGood();
    RunKeepsGood(Start, ls);
    var s := After(Start, ls);
    GoodIsNotDoomed(s);
    if Orderly(Start, ls) {
      if s.ops != [] {
        GoodMoves(s);
      }
    } else {
      JammedIffStuck(s);
      forall more | Possible(s, more)
        ensures Doomed(After(s, more))
      {
        DoomedForEver(s, more);
      }
    }
  }

  // ------------------------------------------------------------- the running flag and the answers

  /** The state before the i-th step of a run. */
  function StateAt(s: State, ls: seq<Label>, i: nat): State
    requires Possible(s, ls) && i <= |ls|
    decreases i
  {
    if i == 0 then s else StateAt(Next(s, ls[0]), ls[1..], i - 1)
  }

  /** The step executes a command of a kind. */
  predicate Executes(s: State, l: Label, k: Kind) {
    l.PollerStep? && s.poller.Executing? && s.poller.cmd.kind == k
  }

  /** A continue is executed, or a step succeeds. */
  predicate SetsRunning(s: State, l: Label) {
    Executes(s, l, Cont) || (Executes(s, l, Step) && l.ok)
  }

  /** A wait succeeds, or a run, an attachment, a detachment or a finish does, or a run begins. */
  predicate SetsStopped(s: State, l: Label) {
    l.BeginRun? || (l.PollerStep? && l.ok && (Executes(s, l, Wait) || Executes(s, l, Stopping)))
  }

  /** Nothing after the i-th step stops the process. */
  ghost predicate NotStoppedSince(s: State, ls: seq<Label>, i: int)
    requires Possible(s, ls) && -1 <= i
  {
    forall j :: i < j < |ls| ==> !SetsStopped(StateAt(s, ls, j), ls[j])
  }

  lemma {:induction false} NotStoppedSinceFront(s: State, ls: seq<Label>, i: int)
    requires ls != [] && Possible(s, ls) && 0 <= i
    ensures NotStoppedSince(s, ls, i) <==> NotStoppedSince(Next(s, ls[0]), ls[1..], i - 1)
    ensures NotStoppedSince(s, ls, -1) <==> !SetsStopped(s, ls[0]) && NotStoppedSince(s, ls, 0)
  {
    var n, rest := Next(s, ls[0]), ls[1..];
    forall j | 0 < j < |ls|
      ensures StateAt(s, ls, j) == StateAt(n, rest, j - 1) && ls[j] == rest[j - 1]
    {
    }
    if NotStoppedSince(s, ls, i) {
      forall j | i - 1 < j < |rest|
        ensures !SetsStopped(StateAt(n, rest, j), rest[j])
      {
        assert !SetsStopped(StateAt(s, ls, j + 1), ls[j + 1]);
      }
    }
  }

  /** In every run, between every two steps: the process counts as running if and only if something has set
      it running, or it was from the start, and nothing has stopped it since. */
  lemma {:induction false} RunningIff(s: State, ls: seq<Label>)
    requires Possible(s, ls)
    ensures After(s, ls).running <==>
            || (s.running && NotStoppedSince(s, ls, -1))
            || (exists i :: 0 <= i < |ls| && SetsRunning(StateAt(s, ls, i), ls[i]) && NotStoppedSince(s, ls, i))
    decreases |ls|
  {
    if ls != [] {
      var n, rest := Next(s, ls[0]), ls[1..];
      RunningIff(n, rest);
      NotStoppedSinceFront(s, ls, 0);
      if i :| 0 <= i < |rest| && SetsRunning(StateAt(n, rest, i), rest[i]) && NotStoppedSince(n, rest, i) {
        NotStoppedSinceFront(s, ls, i + 1);
        assert SetsRunning(StateAt(s, ls, i + 1), ls[i + 1]);
      }
      if i :| 0 <= i < |ls| && SetsRunning(StateAt(s, ls, i), ls[i]) && NotStoppedSince(s, ls, i) {
        NotStoppedSinceFront(s, ls, i);
        if i > 0 {
          assert SetsRunning(StateAt(n, rest, i - 1), rest[i - 1]);
        }
      }
    }
  }

  /** The responses somewhere between the polling thread and the caller. */
  predicate UnderWay(s: State, r: Response) {
    || s.poller == Replying(r)
    || r in s.respQ
    || (exists i :: 0 <= i < |s.ops| && (s.ops[i] == AckTake(r) || (s.ops[i].Ack? && s.ops[i].r == r)))
  }

  /** The step in which the command with the response's number succeeds, if the response is a value, or
      fails, if it is an exception. */
  predicate Answered(s: State, l: Label, r: Response) {
    && l == PollerStep(r.isValue) && s.poller.Executing? && s.poller.cmd.id == r.id
    && (r.isValue ==> s.poller.cmd.kind.Peek?)
  }

  lemma {:induction false} NewResponse(s: State, l: Label, r: Response)
    requires Enabled(s, l) && UnderWay(Next(s, l), r)
    ensures UnderWay(s, r) || Answered(s, l, r)
  {
    var t := Next(s, l);
    if i :| 0 <= i < |t.ops| && (t.ops[i] == AckTake(r) || (t.ops[i].Ack? && t.ops[i].r == r)) {
      match l
      case Begin(c) => ProgramCalm(c);
      case BeginRun(traced) => ProgramCalm(Call([RunBatch(traced)], false, End));
      case MainStep => MovedResponse(s, r, i);
      case PollerStep(_) => assert t.ops == s.ops;
    }
  }

  lemma {:induction false} MovedResponse(s: State, r: Response, i: nat)
    requires Enabled(s, MainStep) && i < |MainNext(s).ops|
    requires var op := MainNext(s).ops[i]; op == AckTake(r) || (op.Ack? && op.r == r)
    ensures UnderWay(s, r)
  {
    var t := MainNext(s);
    if (s.ops[0].Check? || s.ops[0].Take?) && s.respQ != [] {
      assert i > 0 ==> t.ops[i] == s.ops[i];
    } else if !s.ops[0].Ack? {
      assert t.ops[i] == s.ops[i + 1];
    }
  }

  /** A program has no response in it yet. */
  lemma {:induction false} ProgramCalm(c: Call)
    ensures forall i :: 0 <= i < |Program(c)| ==> !Program(c)[i].Ack? && !Program(c)[i].AckTake?
    decreases |c.batches|
  {
    if c.batches != [] {
      ProgramCalm(c.(batches := c.batches[1..]));
    }
  }

  /** Every response on its way to the caller is a value if and only if its command was a read that
      succeeded, and an exception if and only if its command failed. */
  lemma {:induction false} ResponsesAnswer(s: State, ls: seq<Label>, r: Response)
    requires Possible(s, ls) && UnderWay(After(s, ls), r)
    ensures UnderWay(s, r) || exists i :: 0 <= i < |ls| && Answered(StateAt(s, ls, i), ls[i], r)
    decreases |ls|
  {
    if ls != [] {
      var n, rest := Next(s, ls[0]), ls[1..];
      ResponsesAnswer(n, rest, r);
      if UnderWay(n, r) {
        NewResponse(s, ls[0], r);
        assert Answered(s, ls[0], r) ==> Answered(StateAt(s, ls, 0), ls[0], r);
      } else {
        var i :| 0 <= i < |rest| && Answered(StateAt(n, rest, i), rest[i], r);
        assert Answered(StateAt(s, ls, i + 1), ls[i + 1], r);
      }
    }
  }

  /** The value or exception that a read of memory takes is what the execution of its own command gave: in
      every orderly run there is a step that executed the command put last, and succeeded exactly if a
      value is returned. */
  lemma {:induction false} PeekReturnsItsOwn(ls: seq<Label>)
    requires Possible(Start, ls) && Orderly(Start, ls)
    requires var s := After(Start, ls); s.ops != [] && s.ops[0].AckTake?
    ensures var s := After(Start, ls);
            exists i :: 0 <= i < |ls| && ls[i] == PollerStep(s.ops[0].r.isValue) &&
              var at := StateAt(Start, ls, i); at.poller.Executing? && at.poller.cmd.id == s.nextId - 1
  {
    var s := After(Start, ls);
    QueuesSafe(ls);
    assert s.ops[0] == AckTake(s.ops[0].r);
    ResponsesAnswer(Start, ls, s.ops[0].r);
    var i :| 0 <= i < |ls| && Answered(StateAt(Start, ls, i), ls[i], s.ops[0].r);
    assert ls[i] == PollerStep(s.ops[0].r.isValue);
  }

  // ---------------------------------------------------------------------------- calls return

  function OpWeight(op: Op): nat {
    match op
    case Put(_) => 10
    case Check(_) => 4
    case Ack(_, _) => 3
    case Take => 2
    case _ => 1
  }

  function Weight(ops: seq<Op>): nat
    decreases |ops|
  {
    if ops == [] then 0 else OpWeight(ops[0]) + Weight(ops[1..])
  }

  /** How many more steps the two threads can make before the main thread begins a new call. */
  function Measure(s: State): nat {
    Weight(s.ops) + 8 * |s.cmdQ|
    + match s.poller
      case Waiting => 0
      case Executing(_) => 7
      case Replying(_) => 5
      case Finishing(_) => 3
      case Draining => 1
      case Terminated => 0
  }

  lemma {:induction false} SuffixLighter(ops: seq<Op>, i: nat)
    requires i <= |ops|
    ensures Weight(ops[i..]) <= Weight(ops)
  {
    if i > 0 {
      SuffixLighter(ops, i - 1);
      assert ops[i - 1..][1..] == ops[i..];
    } else {
      assert ops[0..] == ops;
    }
  }

  lemma {:induction false} SwapHead(ops: seq<Op>, op: Op)
    requires ops != []
    ensures Weight([op] + ops[1..]) == OpWeight(op) + Weight(ops[1..])
  {
  }

  lemma {:induction false} MainLightens(s: State)
    requires Enabled(s, MainStep) && (s.ops[0].Ack? && s.ops[0].caught ==> EndsInKill(s.ops[1..]))
    ensures Measure(MainNext(s)) < Measure(s)
  {
    var t, rest := MainNext(s), s.ops[1..];
    assert Weight(s.ops) == OpWeight(s.ops[0]) + Weight(rest);
    if (s.ops[0].Check? || s.ops[0].Take?) && s.respQ != [] {
      SwapHead(s.ops, t.ops[0]);
      assert Weight(t.ops) == OpWeight(t.ops[0]) + Weight(rest);
    } else if s.ops[0].Ack? {
      if s.ops[0].caught {
        SuffixLighter(rest, |rest| - 3);
      }
      assert Weight(t.ops) <= Weight(rest);
    } else {
      assert Weight(t.ops) == Weight(rest);
    }
  }

  lemma {:induction false} StepLightens(s: State, l: Label)
    requires Shape(s.ops) && Enabled(s, l) && (l.MainStep? || l.PollerStep?)
    ensures Measure(Next(s, l)) < Measure(s)
  {
    if l.MainStep? {
      assert s.ops[0].Ack? ==> InAck(s.ops);
      MainLightens(s);
    }
  }

  /** In an orderly run the calls made so far return: after that many steps at the latest no
      step is left but a new call. */
  lemma {:induction false} CallsReturn(s: State, ls: seq<Label>)
    requires Good(s) && Possible(s, ls) && Orderly(s, ls)
    requires forall i :: 0 <= i < |ls| ==> ls[i].MainStep? || ls[i].PollerStep?
    ensures |ls| <= Measure(s)
    decreases |ls|
  {
    if ls != [] {
      StepKeepsGood(s, ls[0]);
      StepLightens(s, ls[0]);
      CallsReturn(Next(s, ls[0]), ls[1..]);
    }
  }

  // ------------------------------------------------------------- a pending exception is raised

  predicate OnlySteps(ls: seq<Label>) {
    forall i :: 0 <= i < |ls| ==> ls[i].MainStep? || ls[i].PollerStep?
  }

  /** On the way to handing a response over, or past it. */
  predicate HandingOver(t: State, before: seq<nat>, id: nat) {
    || before + [id] <= t.delivered
    || (t.delivered == before && t.ops != [] &&
        match t.ops[0]
        case Join => |t.ops| >= 2 && t.ops[1].Check? && Pending(t) && PendingIs(t, id)
        case Check(_) => |t.respQ| == 1 && t.respQ[0].id == id
        case Ack(r, _) => r.id == id
        case _ => false)
  }

  lemma {:induction false} HandingOverStep(t: State, l: Label, before: seq<nat>, id: nat)
    requires Good(t) && Enabled(t, l) && (l.MainStep? || l.PollerStep?) && HandingOver(t, before, id)
    ensures HandingOver(Next(t, l), before, id)
  {
    var n := Next(t, l);
    assert t.delivered <= n.delivered;
    if t.delivered == before && !(before + [id] <= t.delivered) && l.MainStep? && t.ops[0].Ack? {
      assert n.delivered == before + [id];
    }
  }

  lemma {:induction false} HandingOverRun(t: State, ls: seq<Label>, before: seq<nat>, id: nat)
    requires Good(t) && Possible(t, ls) && Orderly(t, ls) && OnlySteps(ls) && HandingOver(t, before, id)
    ensures HandingOver(After(t, ls), before, id)
    decreases |ls|
  {
    if ls != [] {
      HandingOverStep(t, ls[0], before, id);
      StepKeepsGood(t, ls[0]);
      HandingOverRun(Next(t, ls[0]), ls[1..], before, id);
    }
  }

  /** A response left between calls is handed to the caller of the next call that joins, as the next
      response delivered, before that call is over. */
  lemma {:induction false} PendingIsRaised(s: State, c: Call, id: nat, ls: seq<Label>)
    requires Good(s) && s.ops == [] && Pending(s) && PendingIs(s, id)
    requires Enabled(s, Begin(c)) && c.batches != [] && OnlySteps(ls)
    requires Possible(Next(s, Begin(c)), ls) && Orderly(Next(s, Begin(c)), ls)
    ensures var t := After(Next(s, Begin(c)), ls);
            t.ops == [] ==> s.delivered + [id] <= t.delivered
  {
    var n := Next(s, Begin(c));
    ProgramHead(c);
    assert s.running && c.batches[0] == [];
    BeginStep(s, c);
    assert Puts(c.batches[0]) == [];
    assert n.ops == [Join, Check(c.caught)] + Program(c.(batches := c.batches[1..]));
    HandingOverRun(n, ls, s.delivered, id);
  }

  // ----------------------------------------------------------- which calls are always orderly

  /** No command is put right after another. */
  predicate OneByOne(ops: seq<Op>) {
    forall i :: 0 <= i < |ops| - 1 && ops[i].Put? ==> !ops[i + 1].Put?
  }

  predicate Lone(s: State) {
    OneByOne(s.ops) && |Unexecuted(s)| <= 1 && (HeadPut(s.ops) ==> |Unexecuted(s)| == 0)
  }

  /** The wait that cont left behind has been joined, and its exception, if any, raised. */
  predicate Settled(s: State) {
    Unexecuted(s) == [] && !Pending(s)
  }

  predicate OneEachBatch(c: Call) {
    forall i :: 0 <= i < |c.batches| ==> |c.batches[i]| <= 1
  }

  /** If a response is pending, the call does not put anything before the join that raises it. Otherwise
      it puts one command at a time, the first one only when nothing is outstanding. */
  predicate Harmless(s: State, c: Call) {
    if Pending(s) then !HeadPut(Program(c))
    else OneEachBatch(c) && (HeadPut(Program(c)) ==> Unexecuted(s) == [])
  }

  predicate Single(s: State, l: Label) {
    match l
    case Begin(c) => Harmless(s, c)
    case BeginRun(traced) => !traced
    case _ => true
  }

  predicate SingleRun(s: State, ls: seq<Label>)
    requires Possible(s, ls)
    decreases |ls|
  {
    ls == [] || (Single(s, ls[0]) && SingleRun(Next(s, ls[0]), ls[1..]))
  }

  lemma {:induction false} ProgramOneByOne(c: Call)
    requires OneEachBatch(c)
    ensures OneByOne(Program(c))
    decreases |c.batches|
  {
    if c.batches != [] {
      var rest := Program(c.(batches := c.batches[1..]));
      ProgramOneByOne(c.(batches := c.batches[1..]));
      assert OneByOne([Join, Check(c.caught)] + rest);
    }
  }

  /** A response is about to be raised, with nothing put before it is. */
  predicate Raising(s: State) {
    s.ops != [] && Unexecuted(s) == [] &&
    match s.ops[0]
    case Join => |s.ops| >= 2 && s.ops[1].Check? && Pending(s)
    case Check(_) => |s.respQ| == 1
    case Ack(_, _) => true
    case _ => false
  }

  /** Nothing can overtake a response in the call in progress. */
  predicate Calm(s: State) {
    Lone(s) || Raising(s)
  }

  lemma {:induction false} CalmBegin(s: State, c: Call)
    requires Good(s) && Enabled(s, Begin(c)) && Harmless(s, c)
    ensures !Overtaken(s, Begin(c)) && Calm(Next(s, Begin(c)))
  {
    var t := Next(s, Begin(c));
    assert PlacedIdle(s) && Unexecuted(t) == Unexecuted(s);
    if Pending(s) {
      ProgramHead(c);
      if c.batches != [] {
        assert Puts([]) == [];
        assert t.ops == [Join, Check(c.caught)] + Program(c.(batches := c.batches[1..]));
      }
    } else {
      ProgramOneByOne(c);
    }
  }

  lemma {:induction false} LoneRun(s: State, traced: bool)
    requires Good(s) && Enabled(s, BeginRun(traced)) && !traced
    ensures Lone(Next(s, BeginRun(traced)))
  {
    assert PlacedIdle(s) && Unexecuted(Next(s, BeginRun(traced))) == Unexecuted(s);
    ProgramOneByOne(Call([RunBatch(traced)], false, End));
  }

  lemma {:induction false} RaisingStep(s: State, l: Label)
    requires Counted(s) && Raising(s) && Enabled(s, l)
    ensures !Overtaken(s, l) && Calm(Next(s, l))
  {
    var t := Next(s, l);
    assert s.cmdQ == [] && !s.poller.Executing?;
    if l.MainStep? {
      assert Unexecuted(t) == [];
      assert OneByOne(KillBody);
    }
  }

  lemma {:induction false} LonePut(s: State)
    requires Lone(s) && HeadPut(s.ops)
    ensures Lone(MainNext(s))
  {
    PutUnexecuted(s);
  }

  lemma {:induction false} LoneMain(s: State)
    requires Lone(s) && Settling(s) && Enabled(s, MainStep) && Counted(s) && (s.ops[0].Reap? ==> s.cmdQ == [])
    ensures Lone(MainNext(s))
  {
    if HeadPut(s.ops) {
      LonePut(s);
    } else {
      var t := MainNext(s);
      assert Unexecuted(t) == Unexecuted(s) == [];
    }
  }

  lemma {:induction false} LonePoller(s: State, ok: bool)
    requires Lone(s) && Enabled(s, PollerStep(ok))
    ensures !Overtaken(s, PollerStep(ok)) && Lone(PollerNext(s, ok))
  {
  }

  lemma {:induction false} LoneStep(s: State, l: Label)
    requires Good(s) && Lone(s) && Enabled(s, l) && (l.MainStep? || l.PollerStep?)
    ensures !Overtaken(s, l) && Lone(Next(s, l))
  {
    if l.MainStep? {
      LoneMain(s);
    } else {
      LonePoller(s, l.ok);
    }
  }

  lemma {:induction false} CalmStep(s: State, l: Label)
    requires Good(s) && Calm(s) && Enabled(s, l) && Single(s, l)
    ensures !Overtaken(s, l) && Calm(Next(s, l))
  {
    match l
    case Begin(c) => CalmBegin(s, c);
    case BeginRun(traced) => LoneRun(s, traced);
    case _ =>
      if Lone(s) {
        LoneStep(s, l);
      } else {
        RaisingStep(s, l);
      }
  }

  /** A whole run of such calls can never deadlock, whatever fails. */
  lemma {:induction false} SingleCallsAreOrderly(s: State, ls: seq<Label>)
    requires Good(s) && Calm(s) && Possible(s, ls) && SingleRun(s, ls)
    ensures Orderly(s, ls)
    decreases |ls|
  {
    if ls != [] {
      CalmStep(s, ls[0]);
      StepKeepsGood(s, ls[0]);
      SingleCallsAreOrderly(Next(s, ls[0]), ls[1..]);
    }
  }

  lemma {:induction false} OnlyStepsAreSingle(s: State, ls: seq<Label>)
    requires Possible(s, ls) && OnlySteps(ls)
    ensures SingleRun(s, ls)
    decreases |ls|
  {
    if ls != [] {
      OnlyStepsAreSingle(Next(s, ls[0]), ls[1..]);
    }
  }

  // ------------------------------------------------------------------------------ pieces of runs

  lemma {:induction false} Extend(s: State, ls: seq<Label>, l: Label)
    requires Possible(s, ls) && Enabled(After(s, ls), l)
    ensures Possible(s, ls + [l]) && After(s, ls + [l]) == Next(After(s, ls), l)
    decreases |ls|
  {
    if ls == [] {
      assert [] + [l] == [l] && [l][1..] == [];
    } else {
      Extend(Next(s, ls[0]), ls[1..], l);
      assert (ls + [l])[1..] == ls[1..] + [l];
    }
  }

  lemma {:induction false} Chain(s: State, a: seq<Label>, b: seq<Label>)
    requires Possible(s, a) && Possible(After(s, a), b)
    ensures Possible(s, a + b) && After(s, a + b) == After(After(s, a), b)
    decreases |a|
  {
    if a == [] {
      assert a + b == b;
    } else {
      Chain(Next(s, a[0]), a[1..], b);
      assert (a + b)[1..] == a[1..] + b;
    }
  }

  /** The polling thread takes a command, executes it without an error and finishes. */
  lemma {:induction false} Served(s: State) returns (ls: seq<Label>)
    requires s.poller.Waiting? && s.cmdQ != [] && !s.cmdQ[0].kind.Peek? && !s.cmdQ[0].kind.Terminate?
    ensures OnlySteps(ls) && Possible(s, ls)
    ensures After(s, ls) == s.(cmdQ := s.cmdQ[1..], cmdUnfinished := s.cmdUnfinished - 1,
                               running := Flag(s.cmdQ[0].kind, true, s.running))
  {
    var p := PollerStep(true);
    Extend(s, [], p);
    Extend(s, [p], p);
    Extend(s, [p, p], p);
    ls := [p, p, p];
    assert [p, p] + [p] == ls && [p] + [p] == [p, p];
  }

  /** The polling thread takes a command that fails, and waits for the response to be taken. */
  lemma {:induction false} Failed(s: State) returns (ls: seq<Label>)
    requires s.poller.Waiting? && s.cmdQ != [] && !s.cmdQ[0].kind.Peek? && !s.cmdQ[0].kind.Terminate?
    ensures OnlySteps(ls) && Possible(s, ls)
    ensures var c := s.cmdQ[0];
            After(s, ls) == s.(cmdQ := s.cmdQ[1..], cmdUnfinished := s.cmdUnfinished - 1, poller := Draining,
                               running := Flag(c.kind, false, s.running), respQ := s.respQ + [Response(c.id, false)],
                               respUnfinished := s.respUnfinished + 1, produced := s.produced + [c.id])
  {
    var p := PollerStep(false);
    Extend(s, [], p);
    assert [] + [p] == [p] && [p] + [p] == [p, p] && [p, p] + [p] == [p, p, p];
    Extend(s, [p], p);
    Extend(s, [p, p], p);
    assert After(s, [p, p, p]).poller == Finishing(true);
    Extend(s, [p, p, p], p);
    ls := [p, p, p] + [p];
  }

  /** The main thread makes one step. */
  lemma {:induction false} MainMoves(s: State, ls: seq<Label>) returns (more: seq<Label>)
    requires Possible(s, ls) && Enabled(After(s, ls), MainStep)
    ensures more == ls + [MainStep] && Possible(s, more) && After(s, more) == MainNext(After(s, ls))
  {
    Extend(s, ls, MainStep);
    more := ls + [MainStep];
  }

  /** A run that ends without order is without order. */
  lemma {:induction false} ChainUnorderly(s: State, a: seq<Label>, b: seq<Label>)
    requires Possible(s, a) && Possible(After(s, a), b) && !Orderly(After(s, a), b)
    ensures Possible(s, a + b) && !Orderly(s, a + b)
    decreases |a|
  {
    if a == [] {
      assert a + b == b;
    } else {
      ChainUnorderly(Next(s, a[0]), a[1..], b);
      assert (a + b)[1..] == a[1..] + b;
    }
  }

  // ------------------------------------------------------------- exactly which calls are safe

  /** Steps of the two threads after a call, in which nothing overtakes a response. */
  predicate OrderlyCall(s: State, c: Call, ls: seq<Label>)
    requires Enabled(s, Begin(c)) && Possible(Next(s, Begin(c)), ls)
  {
    !Overtaken(s, Begin(c)) && Orderly(Next(s, Begin(c)), ls)
  }

  /** A command still to be executed may fail with another about to be put behind it. */
  lemma {:induction false} OutstandingFails(t: State) returns (ls: seq<Label>)
    requires HeadPut(t.ops) && Counted(t) && !Pending(t) && !t.poller.Terminated?
    requires |Unexecuted(t)| > 0 && !Unexecuted(t)[0].kind.Terminate?
    ensures OnlySteps(ls) && Possible(t, ls) && !Orderly(t, ls)
    decreases if t.poller.Executing? then 0 else if t.poller.Waiting? then 1 else 2
  {
    ls := [PollerStep(false)];
    var n := Next(t, PollerStep(false));
    if !t.poller.Executing? {
      var rest := OutstandingFails(n);
      assert (ls + rest)[1..] == rest;
      ls := ls + rest;
    }
  }

  /** Both queues are empty and the polling thread waits for a command. */
  predicate Quiet(t: State) {
    t.poller.Waiting? && t.cmdQ == [] && t.cmdUnfinished == 0 && t.respQ == [] && t.respUnfinished == 0
  }

  /** The polling thread may get through everything outstanding without a failure. */
  lemma {:induction false} Quieted(t: State) returns (ls: seq<Label>)
    requires Counted(t) && !Pending(t) && !t.poller.Terminated? && !Acking(t.ops)
    requires forall i :: 0 <= i < |Unexecuted(t)| ==> Unexecuted(t)[i].kind.Wait?
    ensures OnlySteps(ls) && Possible(t, ls) && Quiet(After(t, ls)) && After(t, ls).ops == t.ops
    decreases |Unexecuted(t)|, if t.poller.Finishing? then 2 else if t.poller.Draining? then 1 else 0, |t.cmdQ|
  {
    if t.poller.Waiting? && t.cmdQ == [] {
      ls := [];
    } else {
      var p := PollerStep(true);
      var n := Next(t, p);
      assert t.poller.Executing? ==> Unexecuted(t)[0] == t.poller.cmd;
      QuietedStep(t, n);
      var rest := Quieted(n);
      ls := [p] + rest;
      assert ls[1..] == rest;
    }
  }

  lemma {:induction false} QuietedStep(t: State, n: State)
    requires Counted(t) && !Pending(t) && !t.poller.Terminated? && !Acking(t.ops)
    requires t.poller.Executing? ==> t.poller.cmd.kind.Wait?
    requires !(t.poller.Waiting? && t.cmdQ == []) && n == PollerNext(t, true)
    ensures Counted(n) && !Pending(n) && !n.poller.Terminated? && n.ops == t.ops
    ensures Unexecuted(n) == if t.poller.Executing? then Unexecuted(t)[1..] else Unexecuted(t)
  {
    assert t.respUnfinished == 0 && t.respQ == [];
    match t.poller
    case Waiting => FetchUnexecuted(t, true);
    case Executing(c) =>
      assert n == t.(running := false, poller := Finishing(false));
      ExecuteUnexecuted(t, true);
    case _ =>
  }

  /** A join and a check with nothing outstanding are passed. */
  lemma {:induction false} CheckPassed(t: State, caught: bool, rest: seq<Op>) returns (ls: seq<Label>)
    requires Quiet(t) && t.ops == [Join, Check(caught)] + rest
    ensures OnlySteps(ls) && Possible(t, ls) && After(t, ls) == t.(ops := rest)
  {
    ls := MainMoves(t, []);
    assert After(t, ls) == t.(ops := [Check(caught)] + rest);
    ls := MainMoves(t, ls);
    assert After(t, ls).ops == rest;
  }

  lemma {:induction false} PutServed(t: State, k: Kind, rest: seq<Op>) returns (ls: seq<Label>)
    requires Quiet(t) && t.ops == [Put(k)] + rest && Ordinary(k)
    ensures OnlySteps(ls) && Possible(t, ls) && Quiet(After(t, ls)) && After(t, ls).ops == rest
  {
    var a := MainMoves(t, []);
    var u := After(t, a);
    assert u.cmdQ == [Command(t.nextId, k)] && u.ops == rest;
    var b := Served(u);
    Chain(t, a, b);
    ls := a + b;
  }

  /** A call may get past a batch of one command at most. */
  lemma {:induction false} BatchServed(t: State, c: Call) returns (ls: seq<Label>)
    requires Quiet(t) && c.batches != [] && t.ops == Program(c) && LegalCall(c) && |c.batches[0]| <= 1
    ensures OnlySteps(ls) && Possible(t, ls)
    ensures Quiet(After(t, ls)) && After(t, ls).ops == Program(c.(batches := c.batches[1..]))
  {
    var rest := Program(c.(batches := c.batches[1..]));
    var checked := [Join, Check(c.caught)] + rest;
    if c.batches[0] == [] {
      assert t.ops == checked;
      ls := CheckPassed(t, c.caught, rest);
    } else {
      var k := c.batches[0][0];
      assert Ordinary(k) && t.ops == [Put(k)] + checked;
      var a := PutServed(t, k, checked);
      var b := CheckPassed(After(t, a), c.caught, rest);
      Chain(t, a, b);
      ls := a + b;
    }
  }

  /** A call with two commands in one batch can get there, and then the first one can fail. */
  lemma {:induction false} BigBatchFails(t: State, c: Call) returns (ls: seq<Label>)
    requires Quiet(t) && t.ops == Program(c) && LegalCall(c) && !OneEachBatch(c)
    ensures OnlySteps(ls) && Possible(t, ls) && !Orderly(t, ls)
    decreases |c.batches|
  {
    if |c.batches[0]| <= 1 {
      var a := BatchServed(t, c);
      var b := BigBatchFails(After(t, a), c.(batches := c.batches[1..]));
      ChainUnorderly(t, a, b);
      ls := a + b;
    } else {
      var kinds := c.batches[0];
      assert Ordinary(kinds[0]);
      assert t.ops[0] == Put(kinds[0]) && t.ops[1] == Put(kinds[1]);
      var a := MainMoves(t, []);
      var u := After(t, a);
      assert HeadPut(u.ops) && Unexecuted(u) == [Command(t.nextId, kinds[0])];
      var b := OutstandingFails(u);
      ChainUnorderly(t, a, b);
      ls := a + b;
    }
  }

  /** Begun with only waits outstanding, such a call can go wrong. */
  lemma {:induction false} BegunFails(t: State, c: Call) returns (ls: seq<Label>)
    requires Counted(t) && !Pending(t) && !t.poller.Terminated? && !Acking(t.ops)
    requires forall i :: 0 <= i < |Unexecuted(t)| ==> Unexecuted(t)[i].kind.Wait?
    requires t.ops == Program(c) && LegalCall(c) && !OneEachBatch(c)
    ensures OnlySteps(ls) && Possible(t, ls) && !Orderly(t, ls)
  {
    var a := Quieted(t);
    var b := BigBatchFails(After(t, a), c);
    ChainUnorderly(t, a, b);
    ls := a + b;
  }

  /** A call is safe, whatever fails and however the threads interleave, if and only if it is harmless in
      the state it finds. */
  lemma {:induction false} CallSafeIff(s: State, c: Call)
    requires Good(s) && Enabled(s, Begin(c))
    ensures (forall ls :: OnlySteps(ls) && Possible(Next(s, Begin(c)), ls) ==> OrderlyCall(s, c, ls))
            <==> Harmless(s, c)
  {
    var t := Next(s, Begin(c));
    if Harmless(s, c) {
      forall ls | OnlySteps(ls) && Possible(t, ls)
        ensures OrderlyCall(s, c, ls)
      {
        CalmBegin(s, c);
        BeginStep(s, c);
        OnlyStepsAreSingle(t, ls);
        SingleCallsAreOrderly(t, ls);
      }
    } else {
      var ls := HarmfulFails(s, c);
      assert !OrderlyCall(s, c, ls);
    }
  }

  lemma {:induction false} HarmfulFails(s: State, c: Call) returns (ls: seq<Label>)
    requires Good(s) && Enabled(s, Begin(c)) && !Harmless(s, c)
    ensures OnlySteps(ls) && Possible(Next(s, Begin(c)), ls) && !OrderlyCall(s, c, ls)
  {
    var t := Next(s, Begin(c));
    assert PlacedIdle(s) && Unexecuted(t) == Unexecuted(s);
    if Pending(s) {
      ls := [];
    } else if HeadPut(t.ops) && Unexecuted(s) != [] {
      ls := OutstandingFails(t);
    } else {
      BeginHead(c, s.running);
      ls := BegunFails(t, c);
    }
  }

  /** In an idle state with nothing outstanding, that is: if and only if no batch has two commands. A
      batch of two is what step, switching the pretty printer, and run with the anti-debugging handler
      put. */
  lemma {:induction false} SettledCallSafeIff(s: State, c: Call)
    requires Good(s) && Enabled(s, Begin(c)) && Settled(s)
    ensures (forall ls :: OnlySteps(ls) && Possible(Next(s, Begin(c)), ls) ==> OrderlyCall(s, c, ls))
            <==> OneEachBatch(c)
  {
    CallSafeIff(s, c);
  }

  /** A run of a new process is safe, whatever fails, if and only if the anti-debugging handler is not
      queued behind it. */
  lemma {:induction false} RunSafeIff(s: State, traced: bool)
    requires Good(s) && Enabled(s, BeginRun(traced))
    ensures var t := Next(s, BeginRun(traced));
            (forall ls :: OnlySteps(ls) && Possible(t, ls) ==> Orderly(t, ls)) <==> !traced
  {
    var t := Next(s, BeginRun(traced));
    if traced {
      var ls := TracedRunFails(s);
      assert !Orderly(t, ls);
    } else {
      RunStep(s, traced);
      LoneRun(s, traced);
      forall ls | OnlySteps(ls) && Possible(t, ls)
        ensures Orderly(t, ls)
      {
        OnlyStepsAreSingle(t, ls);
        SingleCallsAreOrderly(t, ls);
      }
    }
  }

  lemma {:induction false} TracedRunFails(s: State) returns (ls: seq<Label>)
    requires Good(s) && Enabled(s, BeginRun(true))
    ensures var t := Next(s, BeginRun(true)); OnlySteps(ls) && Possible(t, ls) && !Orderly(t, ls)
  {
    var t := Next(s, BeginRun(true));
    var c := Call([RunBatch(true)], false, End);
    assert PlacedIdle(s) && Unexecuted(t) == Unexecuted(s);
    assert |c.batches[0]| == 2;
    ProgramHead(c);
    ls := BegunFails(t, c);
  }

  /** A kill whose interrupt raised, or terminating. */
  predicate Unjoined(c: Call) {
    c.batches == [] && (c.tail.KillTail? || c.tail.TerminateTail?)
  }

  /** A kill whose interrupt raised, and terminating, are safe whatever happens next if and only if the
      wait that cont left behind has been joined and its exception, if any, raised. */
  lemma {:induction false} UnjoinedSafeIff(s: State, c: Call)
    requires Good(s) && Enabled(s, Begin(c)) && Unjoined(c)
    ensures (forall ls :: OnlySteps(ls) && Possible(Next(s, Begin(c)), ls) ==> OrderlyCall(s, c, ls)) <==> Settled(s)
  {
    assert HeadPut(Program(c));
    CallSafeIff(s, c);
  }

  // -------------------------------------------------------------------------------- deadlocks

  /** Such a call begun while a response is undrained blocks both threads with its first command. */
  lemma {:induction false} UnjoinedDeadlocks(s: State, c: Call)
    requires Good(s) && Enabled(s, Begin(c)) && Unjoined(c) && Pending(s) && s.poller.Draining?
    ensures var t := Next(s, Begin(c));
            Enabled(t, MainStep) && Jammed(Next(t, MainStep))
  {
    var t := Next(s, Begin(c));
    assert HeadPut(t.ops) && Unexecuted(t) == Unexecuted(s);
    var n := Next(t, MainStep);
    assert n.ops == t.ops[1..] && (n.ops[0].Join? || n.ops[0].Reap?);
  }

  /** From the end of cont's command to the wait it leaves behind. */
  lemma {:induction false} LeavesWait(v: State) returns (ls: seq<Label>)
    requires v.ops == [Join, Check(false), Put(Wait)] && v.cmdUnfinished == 0 && v.respQ == []
    ensures OnlySteps(ls) && Possible(v, ls)
    ensures After(v, ls) == v.(ops := [], cmdQ := v.cmdQ + [Command(v.nextId, Wait)], cmdUnfinished := 1,
                               nextId := v.nextId + 1)
  {
    var c := MainMoves(v, []);
    assert After(v, c) == v.(ops := [Check(false), Put(Wait)]);
    c := MainMoves(v, c);
    assert After(v, c) == v.(ops := [Put(Wait)]);
    ls := MainMoves(v, c);
    assert After(v, ls).ops == [];
  }

  /** A continue of a stopped process, up to the wait it leaves behind. */
  lemma {:induction false} Continued(s: State) returns (ls: seq<Label>)
    requires s.cmdQ == [] && s.respQ == [] && s.cmdUnfinished == 0 && s.poller == Waiting && s.instanced
    requires s.ops == ContBody
    ensures Possible(s, ls) && OnlySteps(ls)
    ensures After(s, ls) == s.(ops := [], cmdQ := [Command(s.nextId + 1, Wait)], cmdUnfinished := 1, running := true,
                               nextId := s.nextId + 2)
  {
    var a := MainMoves(s, []);
    var u := After(s, a);
    assert u.ops == [Join, Check(false), Put(Wait)] && u.cmdQ == [Command(s.nextId, Cont)];
    var b := Served(u);
    Chain(s, a, b);
    var v := After(u, b);
    var c := LeavesWait(v);
    Chain(s, a + b, c);
    ls := a + b + c;
  }

  /** No command of a run fails. */
  predicate AllSucceed(ls: seq<Label>) {
    forall i :: 0 <= i < |ls| ==> ls[i] == MainStep || ls[i] == PollerStep(true)
  }

  /** During a continue in which nothing fails. */
  predicate Going(s: State) {
    && s.respQ == [] && s.respUnfinished == 0 && s.cmdUnfinished == |s.cmdQ| + Busy(s.poller)
    && (s.poller.Waiting? || s.poller.Executing? || s.poller == Finishing(false))
    && var u := Unexecuted(s);
    if s.ops == ContBody then u == [] && s.cmdUnfinished == 0
    else if s.ops == [Join, Check(false), Put(Wait)] then u == [] || (|u| == 1 && u[0].kind.Cont?)
    else if s.ops == [Check(false), Put(Wait)] || s.ops == [Put(Wait)] then s.cmdUnfinished == 0
    else s.ops == [] && if u == [] then !s.running else |u| == 1 && u[0].kind.Wait?
  }

  lemma {:induction false} GoingStep(s: State, l: Label)
    requires Going(s) && Enabled(s, l) && (l == MainStep || l == PollerStep(true))
    ensures Going(Next(s, l))
  {
    var t := Next(s, l);
    if l == MainStep {
      GoingMain(s, t);
    } else {
      GoingPoller(s, t);
    }
  }

  lemma {:induction false} GoingMain(s: State, t: State)
    requires Going(s) && Enabled(s, MainStep) && t == MainNext(s)
    ensures Going(t)
  {
    if HeadPut(s.ops) {
      PutUnexecuted(s);
      assert Unexecuted(s) == [];
      assert Unexecuted(t) == [Command(s.nextId, s.ops[0].kind)];
    } else {
      assert Unexecuted(t) == Unexecuted(s);
    }
  }

  lemma {:induction false} GoingPoller(s: State, t: State)
    requires Going(s) && Enabled(s, PollerStep(true)) && t == PollerNext(s, true)
    ensures Going(t)
  {
    if s.poller.Waiting? {
      FetchUnexecuted(s, true);
    } else if s.poller.Executing? {
      ExecuteUnexecuted(s, true);
      assert Unexecuted(s)[0] == s.poller.cmd;
    } else {
      assert Unexecuted(t) == Unexecuted(s);
    }
  }

  lemma {:induction false} GoingRun(s: State, ls: seq<Label>)
    requires Going(s) && Possible(s, ls) && AllSucceed(ls)
    ensures Going(After(s, ls))
    decreases |ls|
  {
    if ls != [] {
      GoingStep(s, ls[0]);
      GoingRun(Next(s, ls[0]), ls[1..]);
    }
  }

  /** During the wait that follows. */
  predicate Awaiting(s: State) {
    && s.respQ == [] && s.respUnfinished == 0 && s.cmdUnfinished == |s.cmdQ| + Busy(s.poller)
    && (s.poller.Waiting? || s.poller.Executing? || s.poller == Finishing(false))
    && (s.ops == [Join, Check(false)] || ((s.ops == [Check(false)] || s.ops == []) && s.cmdUnfinished == 0))
    && var u := Unexecuted(s);
    if u == [] then !s.running else |u| == 1 && u[0].kind.Wait?
  }

  lemma {:induction false} WaitingStep(s: State, l: Label)
    requires Awaiting(s) && Enabled(s, l) && (l == MainStep || l == PollerStep(true))
    ensures Awaiting(Next(s, l))
  {
    var t := Next(s, l);
    if l == MainStep || s.poller.Finishing? {
      assert Unexecuted(t) == Unexecuted(s);
    } else if s.poller.Waiting? {
      FetchUnexecuted(s, true);
    } else {
      ExecuteUnexecuted(s, true);
      assert Unexecuted(s)[0] == s.poller.cmd;
    }
  }

  lemma {:induction false} WaitingRun(s: State, ls: seq<Label>)
    requires Awaiting(s) && Possible(s, ls) && AllSucceed(ls)
    ensures Awaiting(After(s, ls))
    decreases |ls|
  {
    if ls != [] {
      WaitingStep(s, ls[0]);
      WaitingRun(Next(s, ls[0]), ls[1..]);
    }
  }

  /** However the threads interleave: a continue and a wait in which nothing fails leave the process
      stopped, nothing queued, and the polling thread waiting for the next command. */
  lemma {:induction false} ContinueThenWaitStops(s: State, a: seq<Label>, b: seq<Label>)
    requires Good(s) && s.ops == [] && s.instanced && !s.running && s.poller == Waiting
    requires var n := Next(s, Begin(Call([], false, ContTail)));
             Possible(n, a) && AllSucceed(a) && After(n, a).ops == []
    requires var t := After(Next(s, Begin(Call([], false, ContTail))), a);
             && Enabled(t, Begin(ApiCall(WaitApi(false), [])))
             && Possible(Next(t, Begin(ApiCall(WaitApi(false), []))), b) && AllSucceed(b)
    ensures var t := After(Next(s, Begin(Call([], false, ContTail))), a);
            var v := After(Next(t, Begin(ApiCall(WaitApi(false), []))), b);
            v.ops == [] ==> Quiet(v) && !v.running
  {
    assert PlacedIdle(s);
    var n := Next(s, Begin(Call([], false, ContTail)));
    assert Going(n);
    GoingRun(n, a);
    var t := After(n, a);
    var c := ApiCall(WaitApi(false), []);
    assert c.batches[0] == [] && Puts([]) == [] && Program(c.(batches := c.batches[1..])) == [];
    var m := Next(t, Begin(c));
    assert m.ops == [Join, Check(false)] && Unexecuted(m) == Unexecuted(t);
    WaitingRun(m, b);
  }

  /** A continue whose wait fails leaves its response undrained between calls. */
  lemma {:induction false} ContThenFailure(s: State) returns (t: State, ls: seq<Label>)
    requires Good(s) && s.ops == [] && s.instanced && !s.running && s.poller == Waiting
    ensures Possible(s, [Begin(Call([], false, ContTail))] + ls) && OnlySteps(ls)
    ensures t == After(s, [Begin(Call([], false, ContTail))] + ls) && Good(t)
    ensures t.ops == [] && t.instanced && t.running && t.poller == Draining && Pending(t)
  {
    assert PlacedIdle(s);
    var begin := Begin(Call([], false, ContTail));
    var n := Next(s, begin);
    var a := Continued(n);
    var b := Failed(After(n, a));
    Chain(n, a, b);
    ls := a + b;
    assert ([begin] + ls)[1..] == ls;
    t := After(n, ls);
    RunKeepsGood(s, [begin] + ls);
    assert !Doomed(t);
  }

  /** From any idle state of a stopped process, a continue whose wait fails, followed by a kill whose
      interrupt raises, deadlocks, although each call puts its commands one at a time. */
  lemma {:induction false} FailedWaitThenKillDeadlocks(s: State) returns (ls: seq<Label>)
    requires Good(s) && s.ops == [] && s.instanced && !s.running && s.poller == Waiting
    ensures OnlySteps(ls)
    ensures var run := [Begin(Call([], false, ContTail))] + ls + [Begin(Call([], true, KillTail)), MainStep];
            Possible(s, run) && Jammed(After(s, run))
  {
    var t, es := ContThenFailure(s);
    ls := es;
    var c := Call([], true, KillTail);
    var a := [Begin(Call([], false, ContTail))] + ls;
    UnjoinedDeadlocks(t, c);
    Extend(s, a, Begin(c));
    Extend(s, a + [Begin(c)], MainStep);
    assert a + [Begin(c)] + [MainStep] == a + [Begin(c), MainStep];
  }

  /** A step whose first command fails deadlocks: from any idle state of a stopped process the
      failure and the wait queued behind it block both threads. */
  lemma {:induction false} FailedStepDeadlocks(s: State) returns (ls: seq<Label>)
    requires Good(s) && s.ops == [] && s.instanced && !s.running && s.poller == Waiting
    ensures OnlySteps(ls)
    ensures var run := [Begin(Call([[Step, Wait]], false, End))] + ls;
            Possible(s, run) && Jammed(After(s, run))
  {
    assert PlacedIdle(s);
    var c := Call([[Step, Wait]], false, End);
    assert c.batches[0] == [Step, Wait];
    var t := Next(s, Begin(c));
    assert Puts([Step, Wait]) == [Put(Step), Put(Wait)];
    assert Program(c.(batches := c.batches[1..])) == [];
    assert t.ops == [Put(Step), Put(Wait), Join, Check(false)];
    ls := StepJams(t);
    assert ([Begin(c)] + ls)[1..] == ls;
  }

  lemma {:induction false} StepJams(t: State) returns (ls: seq<Label>)
    requires t.cmdQ == [] && t.respQ == [] && t.cmdUnfinished == 0 && t.respUnfinished == 0 && t.poller == Waiting
    requires t.ops == [Put(Step), Put(Wait), Join, Check(false)]
    ensures OnlySteps(ls) && Possible(t, ls) && Jammed(After(t, ls))
  {
    var a := MainMoves(t, []);
    assert After(t, a).ops == [Put(Wait), Join, Check(false)];
    a := MainMoves(t, a);
    var u := After(t, a);
    assert u.ops == [Join, Check(false)] && u.cmdQ == [Command(t.nextId, Step), Command(t.nextId + 1, Wait)];
    var b := Failed(u);
    Chain(t, a, b);
    ls := a + b;
  }
}
