/** The RPC client (`daemon.lua`) and the call watchers on top of it (`init.lua`). Callbacks are data:
    running one is an event in `fired`. The loops that run captured callbacks are frames on `stack`, so
    that whatever a callback does before it returns (issue a request, stop the daemon) can happen
    between any two of them. Messages and process exits arrive only when the stack is empty: the
    editor delivers nothing while a handler runs. */
module RpcClient {
  import opened Wrappers

  type Token = nat
  type ReqId = nat
  type CallId = nat

  /** A request's callback: a plain one, or the wrapper `execute` puts around its two. */
  datatype Caller = Plain(t: Token) | Execute(t: Token)

  /** What `ensure` is given: a callback to tell, or the closure of a request still to be sent. */
  datatype Waiter = Await(t: Token) | Issue(caller: Caller)

  /** What waits for a response: the handshake, or a request's callback. */
  datatype Pending = Hello | Answer(caller: Caller)

  /** A decoded response: an error, a result that is not a table, or a table. */
  datatype Reply = Bad | NotTable | Table(proto: Option<int>, call: CallId)

  datatype Message = Response(id: ReqId, reply: Reply) | QueryState(call: CallId) | OtherNotice

  datatype Event =
    | Ensured(t: Token, ok: bool)
    | Answered(t: Token, ok: bool)
    | Refused(t: Token)
    | Began(t: Token, call: CallId)
    | Reported(t: Token)

  datatype Frame =
    | RunWaiters(waiters: seq<Waiter>, ok: bool)
    | FailPending(dead: map<ReqId, Pending>)
    | FailWaiters
    | FailWatchers
    | RunWatchers(watched: map<CallId, Token>)
    | EndDispatch

  datatype Spawn = NoBinary | SpawnFails | Spawned

  datatype Client = Client(
    job: bool,
    ready: bool,
    idSeq: nat,
    pending: map<ReqId, Pending>,
    waiters: seq<Waiter>,
    watchers: map<CallId, Token>,
    stack: seq<Frame>,
    depth: nat,
    issued: Token,
    sent: map<ReqId, Pending>,
    fired: seq<Event>)

  const NEW_CLIENT := Client(false, false, 0, map[], [], map[], [], 0, 0, map[], [])

  const PROTO_MIN := 1

  // ── the transitions ────────────────────────────────────────────────────────

  function Fire(c: Client, e: Event): Client {
    c.(fired := c.fired + [e])
  }

  function Push(c: Client, frames: seq<Frame>): Client {
    c.(stack := frames + c.stack)
  }

  /** Run a request's callback. An `execute` that succeeds registers its watcher first. */
  function Call(c: Client, caller: Caller, reply: Reply): Client {
    match caller
    case Plain(t) => Fire(c, Answered(t, !reply.Bad?))
    case Execute(t) =>
      if reply.Table? then Fire(c.(watchers := c.watchers[reply.call := t]), Began(t, reply.call))
      else Fire(c, Refused(t))
  }

  /** Send a request; nothing goes out without a job. `sent` is what lies in the job's input pipe. */
  function SendRequest(c: Client, p: Pending): Client {
    var id := c.idSeq + 1;
    c.(idSeq := id, pending := c.pending[id := p], sent := if c.job then c.sent[id := p] else c.sent)
  }

  function RunWaiter(c: Client, w: Waiter, ok: bool): Client {
    match w
    case Await(t) => Fire(c, Ensured(t, ok))
    case Issue(caller) => if ok then SendRequest(c, Answer(caller)) else Call(c, caller, Bad)
  }

  function Teardown(c: Client): Client {
    Push(c.(ready := false, job := false, pending := map[]), [FailPending(c.pending), FailWaiters, FailWatchers])
  }

  predicate GoodHello(reply: Reply) {
    reply.Table? && reply.proto.Some? && reply.proto.value >= PROTO_MIN
  }

  /** The handshake's own callback: it answers the waiters it captured, after tearing down when the
      backend is unusable. */
  function HelloDone(c: Client, reply: Reply): Client {
    var c' := c.(waiters := []);
    if GoodHello(reply) then Push(c'.(ready := true), [RunWaiters(c.waiters, true)])
    else Teardown(Push(c', [RunWaiters(c.waiters, false)]))
  }

  /** `ensure`, and with `Issue` all of `request`, with a token of its own. */
  function Ensure(c: Client, w: Waiter, spawn: Spawn): Client {
    var c' := c.(issued := c.issued + 1);
    if c.ready && c.job then RunWaiter(c', w, true)
    else
      var waiting := c'.(waiters := c.waiters + [w]);
      if c.job then waiting
      else if spawn.Spawned? then SendRequest(waiting.(job := true, sent := map[]), Hello)
      else Push(waiting.(waiters := []), [RunWaiters(waiting.waiters, false)])
  }

  function Receive(c: Client, m: Message): Client {
    var d := Push(c.(depth := c.depth + 1), [EndDispatch]);
    match m
    case Response(id, reply) =>
      if id !in c.pending then d
      else
        var d' := d.(pending := c.pending - {id});
        (match c.pending[id]
         case Hello => HelloDone(d', reply)
         case Answer(caller) => Call(d', caller, reply))
    case QueryState(call) =>
      if call !in c.watchers then d
      else Fire(d.(watchers := c.watchers - {call}), Reported(c.watchers[call]))
    case OtherNotice => d
  }

  /** One turn of the innermost loop. `choice` is the key `pairs` comes to next. */
  function Turn(c: Client, choice: nat): Client
    requires c.stack != []
    requires c.stack[0].FailPending? && c.stack[0].dead != map[] ==> choice in c.stack[0].dead
    requires c.stack[0].RunWatchers? && c.stack[0].watched != map[] ==> choice in c.stack[0].watched
  {
    var rest := c.(stack := c.stack[1..]);
    match c.stack[0]
    case RunWaiters(ws, ok) =>
      if ws == [] then rest else RunWaiter(Push(rest, [RunWaiters(ws[1..], ok)]), ws[0], ok)
    case FailPending(dead) =>
      if dead == map[] then rest
      else
        var c' := Push(rest, [FailPending(dead - {choice})]);
        (match dead[choice]
         case Hello => HelloDone(c', Bad)
         case Answer(caller) => Call(c', caller, Bad))
    case FailWaiters => Push(rest.(waiters := []), [RunWaiters(c.waiters, false)])
    case FailWatchers => Push(rest.(watchers := map[]), [RunWatchers(c.watchers)])
    case RunWatchers(watched) =>
      if watched == map[] then rest
      else Fire(Push(rest, [RunWatchers(watched - {choice})]), Reported(watched[choice]))
    case EndDispatch => rest.(depth := if c.depth > 0 then c.depth - 1 else 0)
  }

  datatype Step =
    | Request(execute: bool, spawn: Spawn)
    | EnsureOnly(spawn: Spawn)
    | Stop
    | Deliver(m: Message)
    | Exit
    | Loop(choice: nat)

  ghost predicate Enabled(c: Client, s: Step) {
    match s
    case Deliver(_) => c.stack == []
    case Exit => c.stack == []
    case Loop(choice) =>
      && c.stack != []
      && (c.stack[0].FailPending? && c.stack[0].dead != map[] ==> choice in c.stack[0].dead)
      && (c.stack[0].RunWatchers? && c.stack[0].watched != map[] ==> choice in c.stack[0].watched)
    case _ => true
  }

  function Apply(c: Client, s: Step): Client
    requires Enabled(c, s)
  {
    match s
    case Request(execute, spawn) =>
      Ensure(c, Issue(if execute then Execute(c.issued) else Plain(c.issued)), spawn)
    case EnsureOnly(spawn) => Ensure(c, Await(c.issued), spawn)
    case Stop => Teardown(c)
    case Deliver(m) => Receive(c, m)
    case Exit => Teardown(c)
    case Loop(choice) => Turn(c, choice)
  }

  // ── where a callback is ────────────────────────────────────────────────────

  ghost function Pick<V>(m: map<nat, V>): (k: nat)
    requires m != map[]
    ensures k in m
  {
    var k :| k in m;
    k
  }

  /** The sum of `f` over a table's values. */
  ghost function Sum<V>(m: map<nat, V>, f: V -> nat): nat
    decreases |m|
  {
    if m == map[] then 0 else var k := Pick(m); f(m[k]) + Sum(m - {k}, f)
  }

  lemma {:induction false} SumWithout<V>(m: map<nat, V>, f: V -> nat, k: nat)
    requires k in m
    ensures Sum(m, f) == f(m[k]) + Sum(m - {k}, f)
    decreases |m|
  {
    var p := Pick(m);
    if k != p {
      SumWithout(m - {p}, f, k);
      SumWithout(m - {k}, f, p);
      assert (m - {p}) - {k} == (m - {k}) - {p};
    }
  }

  lemma SumWith<V>(m: map<nat, V>, f: V -> nat, k: nat, v: V)
    requires k !in m
    ensures Sum(m[k := v], f) == f(v) + Sum(m, f)
  {
    SumWithout(m[k := v], f, k);
    assert m[k := v] - {k} == m;
  }

  function OwnerOf(w: Waiter): Token {
    match w case Await(t) => t case Issue(caller) => caller.t
  }

  function One(b: bool): nat {
    if b then 1 else 0
  }

  /** How often the table of pending responses holds token `t`. */
  ghost function InPending(m: map<ReqId, Pending>, t: Token): nat {
    Sum(m, (p: Pending) => One(p.Answer? && p.caller.t == t))
  }

  ghost function InWaiters(ws: seq<Waiter>, t: Token): nat {
    if ws == [] then 0 else InWaiters(ws[..|ws| - 1], t) + One(OwnerOf(ws[|ws| - 1]) == t)
  }

  /** How often a frame still has to answer `t`. */
  ghost function InFrame(f: Frame, t: Token): nat {
    match f
    case RunWaiters(ws, _) => InWaiters(ws, t)
    case FailPending(dead) => InPending(dead, t)
    case _ => 0
  }

  ghost function InStack(stack: seq<Frame>, t: Token): nat {
    if stack == [] then 0 else InFrame(stack[0], t) + InStack(stack[1..], t)
  }

  /** How often `t` is not answered yet: waiting, pending, or captured by a loop that is running. */
  ghost function Owed(c: Client, t: Token): nat {
    InWaiters(c.waiters, t) + InPending(c.pending, t) + InStack(c.stack, t)
  }

  predicate Answering(e: Event, t: Token) {
    !e.Reported? && e.t == t
  }

  /** How often `t` has been answered. */
  ghost function Answers(fired: seq<Event>, t: Token): nat {
    if fired == [] then 0 else Answers(fired[..|fired| - 1], t) + One(Answering(fired[|fired| - 1], t))
  }

  ghost function Dispatches(stack: seq<Frame>): nat {
    if stack == [] then 0 else One(stack[0].EndDispatch?) + Dispatches(stack[1..])
  }

  ghost function Total(c: Client, t: Token): nat {
    Owed(c, t) + Answers(c.fired, t)
  }

  ghost predicate IdsFresh(c: Client) {
    forall id: ReqId :: id in c.pending ==> id <= c.idSeq
  }

  /** Every token handed out is owed or answered, once; ids in use were handed out; `depth` counts
      the handlers that are running. */
  ghost predicate Conserved(c: Client) {
    && (forall t: Token :: Total(c, t) == One(t < c.issued))
    && IdsFresh(c) && c.depth == Dispatches(c.stack)
  }

  lemma WaitersGrow(ws: seq<Waiter>, w: Waiter, t: Token)
    ensures InWaiters(ws + [w], t) == InWaiters(ws, t) + One(OwnerOf(w) == t)
  {
    assert (ws + [w])[..|ws|] == ws;
  }

  lemma {:induction false} WaitersHead(ws: seq<Waiter>, t: Token)
    requires ws != []
    ensures InWaiters(ws, t) == One(OwnerOf(ws[0]) == t) + InWaiters(ws[1..], t)
  {
    var k := |ws| - 1;
    if k > 0 {
      WaitersHead(ws[..k], t);
      assert ws[..k][1..] == ws[1..][..k - 1];
    } else {
      assert ws[1..] == [] && ws[..k] == [];
    }
  }

  /** What each building block adds to the total of `t`; each keeps the rest of the bookkeeping. */
  lemma FireTotal(c: Client, e: Event, t: Token)
    ensures Total(Fire(c, e), t) == Total(c, t) + One(Answering(e, t))
  {
    assert (c.fired + [e])[..|c.fired|] == c.fired;
  }

  lemma PushOne(c: Client, f: Frame, t: Token)
    ensures Total(Push(c, [f]), t) == Total(c, t) + InFrame(f, t)
    ensures Dispatches(Push(c, [f]).stack) == One(f.EndDispatch?) + Dispatches(c.stack)
  {
    assert ([f] + c.stack)[1..] == c.stack;
  }

  lemma CallTotal(c: Client, caller: Caller, reply: Reply, t: Token)
    ensures Total(Call(c, caller, reply), t) == Total(c, t) + One(caller.t == t)
  {
    match caller
    case Plain(u) => FireTotal(c, Answered(u, !reply.Bad?), t);
    case Execute(u) =>
      if reply.Table? {
        FireTotal(c.(watchers := c.watchers[reply.call := u]), Began(u, reply.call), t);
      } else {
        FireTotal(c, Refused(u), t);
      }
  }

  lemma SendTotal(c: Client, p: Pending, t: Token)
    requires IdsFresh(c)
    ensures Total(SendRequest(c, p), t) == Total(c, t) + One(p.Answer? && p.caller.t == t)
    ensures IdsFresh(SendRequest(c, p))
  {
    SumWith(c.pending, (p: Pending) => One(p.Answer? && p.caller.t == t), c.idSeq + 1, p);
  }

  lemma RunWaiterTotal(c: Client, w: Waiter, ok: bool, t: Token)
    requires IdsFresh(c)
    ensures Total(RunWaiter(c, w, ok), t) == Total(c, t) + One(OwnerOf(w) == t)
    ensures IdsFresh(RunWaiter(c, w, ok))
  {
    match w
    case Await(u) => FireTotal(c, Ensured(u, ok), t);
    case Issue(caller) =>
      if ok {
        SendTotal(c, Answer(caller), t);
      } else {
        CallTotal(c, caller, Bad, t);
      }
  }

  lemma TeardownTotal(c: Client, t: Token)
    ensures Total(Teardown(c), t) == Total(c, t) && IdsFresh(Teardown(c))
    ensures Dispatches(Teardown(c).stack) == Dispatches(c.stack)
  {
    var c0 := c.(ready := false, job := false, pending := map[]);
    var c1 := Push(c0, [FailWatchers]);
    var c2 := Push(c1, [FailWaiters]);
    PushOne(c0, FailWatchers, t);
    PushOne(c1, FailWaiters, t);
    PushOne(c2, FailPending(c.pending), t);
    assert [FailPending(c.pending), FailWaiters, FailWatchers] + c.stack
        == [FailPending(c.pending)] + ([FailWaiters] + ([FailWatchers] + c.stack));
  }

  lemma HelloTotal(c: Client, reply: Reply, t: Token)
    requires IdsFresh(c)
    ensures Total(HelloDone(c, reply), t) == Total(c, t) && IdsFresh(HelloDone(c, reply))
    ensures Dispatches(HelloDone(c, reply).stack) == Dispatches(c.stack)
  {
    hide Teardown;
    var c' := c.(waiters := []);
    if GoodHello(reply) {
      PushOne(c'.(ready := true), RunWaiters(c.waiters, true), t);
    } else {
      PushOne(c', RunWaiters(c.waiters, false), t);
      TeardownTotal(Push(c', [RunWaiters(c.waiters, false)]), t);
    }
  }

  lemma EnsureTotal(c: Client, w: Waiter, spawn: Spawn, t: Token)
    requires IdsFresh(c)
    ensures Total(Ensure(c, w, spawn), t) == Total(c, t) + One(OwnerOf(w) == t)
    ensures IdsFresh(Ensure(c, w, spawn)) && Dispatches(Ensure(c, w, spawn).stack) == Dispatches(c.stack)
  {
    assert InWaiters([], t) == 0;
    hide RunWaiter, InPending, InStack, Answers, InWaiters;
    var c' := c.(issued := c.issued + 1);
    if c.ready && c.job {
      RunWaiterTotal(c', w, true, t);
      RunWaiterKeeps(c', w, true);
    } else {
      var waiting := c'.(waiters := c.waiters + [w]);
      WaitersGrow(c.waiters, w, t);
      if !c.job {
        if spawn.Spawned? {
          SendTotal(waiting.(job := true, sent := map[]), Hello, t);
        } else {
          PushOne(waiting.(waiters := []), RunWaiters(waiting.waiters, false), t);
        }
      }
    }
  }

  /** Telling one waiter touches neither the loops nor the waiters, and the pending table only when
      a request goes out. */
  lemma RunWaiterKeeps(c: Client, w: Waiter, ok: bool)
    ensures
      var d := RunWaiter(c, w, ok);
      && d.stack == c.stack && d.depth == c.depth && d.issued == c.issued
      && d.job == c.job && d.ready == c.ready && d.waiters == c.waiters
      && (!ok ==> d.pending == c.pending && d.watchers == c.watchers)
  {
  }

  lemma ReceiveTotal(c: Client, m: Message, t: Token)
    requires IdsFresh(c) && c.depth == Dispatches(c.stack)
    ensures Total(Receive(c, m), t) == Total(c, t) && IdsFresh(Receive(c, m))
    ensures Receive(c, m).depth == Dispatches(Receive(c, m).stack) && Receive(c, m).issued == c.issued
  {
    hide HelloDone, Dispatches, Total;
    FieldsTotal(c, t);
    PushOne(c.(depth := c.depth + 1), EndDispatch, t);
    var d := Push(c.(depth := c.depth + 1), [EndDispatch]);
    match m
    case Response(id, reply) =>
      if id in c.pending {
        PendingRemoved(d, id, t);
        var d' := d.(pending := c.pending - {id});
        match c.pending[id] {
          case Hello =>
            HelloTotal(d', reply, t);
            HelloKeeps(d', reply);
          case Answer(caller) => CallTotal(d', caller, reply, t);
        }
      }
    case QueryState(call) =>
      if call in c.watchers {
        WatchersOnly(d, d.watchers - {call}, t);
        FireTotal(d.(watchers := c.watchers - {call}), Reported(c.watchers[call]), t);
      }
    case OtherNotice =>
  }

  /** What the total does and does not depend on. */
  lemma FieldsTotal(c: Client, t: Token)
    ensures forall d: nat :: Total(c.(depth := d), t) == Total(c, t)
    ensures Total(c, t) == Total(c.(waiters := []), t) + InWaiters(c.waiters, t)
  {
  }

  lemma WatchersOnly(c: Client, watchers: map<CallId, Token>, t: Token)
    ensures Total(c.(watchers := watchers), t) == Total(c, t)
  {
  }

  lemma HelloKeeps(c: Client, reply: Reply)
    ensures HelloDone(c, reply).depth == c.depth && HelloDone(c, reply).issued == c.issued
  {
  }

  lemma PendingRemoved(c: Client, id: ReqId, t: Token)
    requires id in c.pending
    ensures Total(c, t) == Total(c.(pending := c.pending - {id}), t)
                           + One(c.pending[id].Answer? && c.pending[id].caller.t == t)
  {
    SumWithout(c.pending, (p: Pending) => One(p.Answer? && p.caller.t == t), id);
  }

  lemma FrameDone(c: Client, t: Token)
    requires c.stack != []
    ensures Total(c, t) == Total(c.(stack := c.stack[1..]), t) + InFrame(c.stack[0], t)
    ensures Dispatches(c.stack) == One(c.stack[0].EndDispatch?) + Dispatches(c.stack[1..])
  {
  }

  lemma TurnTotal(c: Client, choice: nat, t: Token)
    requires IdsFresh(c) && c.depth == Dispatches(c.stack) && Enabled(c, Loop(choice))
    ensures Total(Turn(c, choice), t) == Total(c, t) && IdsFresh(Turn(c, choice))
    ensures Turn(c, choice).depth == Dispatches(Turn(c, choice).stack) && Turn(c, choice).issued == c.issued
  {
    hide Turn, Total, Dispatches, InFrame, IdsFresh;
    if c.stack[0].RunWaiters? {
      RunTotal(c, choice, t);
    } else if c.stack[0].FailPending? {
      FailOneTotal(c, choice, t);
    } else {
      OtherTotal(c, choice, t);
    }
  }

  lemma RunTotal(c: Client, choice: nat, t: Token)
    requires IdsFresh(c) && Enabled(c, Loop(choice)) && c.stack[0].RunWaiters?
    ensures Total(Turn(c, choice), t) == Total(c, t) && IdsFresh(Turn(c, choice))
    ensures Dispatches(Turn(c, choice).stack) == Dispatches(c.stack)
    ensures Turn(c, choice).depth == c.depth && Turn(c, choice).issued == c.issued
  {
    hide Turn, RunWaiter, Total, Dispatches;
    TurnRuns(c, choice);
    FrameDone(c, t);
    var rest, ws, ok := c.(stack := c.stack[1..]), c.stack[0].waiters, c.stack[0].ok;
    if ws != [] {
      WaitersHead(ws, t);
      PushOne(rest, RunWaiters(ws[1..], ok), t);
      RunWaiterTotal(Push(rest, [RunWaiters(ws[1..], ok)]), ws[0], ok, t);
      RunWaiterKeeps(Push(rest, [RunWaiters(ws[1..], ok)]), ws[0], ok);
    }
  }

  lemma OtherTotal(c: Client, choice: nat, t: Token)
    requires IdsFresh(c) && c.depth == Dispatches(c.stack) && Enabled(c, Loop(choice))
    requires !c.stack[0].RunWaiters? && !c.stack[0].FailPending?
    ensures Total(Turn(c, choice), t) == Total(c, t) && IdsFresh(Turn(c, choice))
    ensures Turn(c, choice).depth == Dispatches(Turn(c, choice).stack) && Turn(c, choice).issued == c.issued
  {
    hide HelloDone, RunWaiter, Total, Dispatches, InPending, Call;
    FrameDone(c, t);
    var rest := c.(stack := c.stack[1..]);
    FieldsTotal(rest, t);
    match c.stack[0]
    case FailWaiters =>
      PushOne(rest.(waiters := []), RunWaiters(c.waiters, false), t);
    case FailWatchers =>
      WatchersOnly(rest, map[], t);
      PushOne(rest.(watchers := map[]), RunWatchers(c.watchers), t);
    case RunWatchers(watched) =>
      if watched != map[] {
        PushOne(rest, RunWatchers(watched - {choice}), t);
        FireTotal(Push(rest, [RunWatchers(watched - {choice})]), Reported(watched[choice]), t);
      }
    case EndDispatch =>
  }

  /** What is left of a flushing, reporting or dispatching frame, as the frames that replace it. */
  function Remainder(c: Client, choice: nat): seq<Frame>
    requires c.stack != []
  {
    match c.stack[0]
    case FailWaiters => [RunWaiters(c.waiters, false)]
    case FailWatchers => [RunWatchers(c.watchers)]
    case RunWatchers(watched) => if watched == map[] then [] else [RunWatchers(watched - {choice})]
    case _ => []
  }

  lemma TurnOther(c: Client, choice: nat)
    requires Enabled(c, Loop(choice)) && !c.stack[0].RunWaiters? && !c.stack[0].FailPending?
    ensures
      var d := Turn(c, choice);
      && d.job == c.job && d.ready == c.ready && d.pending == c.pending && d.issued == c.issued
      && d.sent == c.sent && d.idSeq == c.idSeq
      && d.waiters == (if c.stack[0].FailWaiters? then [] else c.waiters)
      && d.watchers == (if c.stack[0].FailWatchers? then map[] else c.watchers)
      && d.stack == Remainder(c, choice) + c.stack[1..]
  {
    hide HelloDone, RunWaiter, Call;
    assert [] + c.stack[1..] == c.stack[1..];
    match c.stack[0]
    case FailWaiters =>
    case FailWatchers =>
    case RunWatchers(_) =>
    case EndDispatch =>
  }

  lemma TurnRuns(c: Client, choice: nat)
    requires Enabled(c, Loop(choice)) && c.stack[0].RunWaiters?
    ensures
      var ws, ok := c.stack[0].waiters, c.stack[0].ok;
      var rest := c.(stack := c.stack[1..]);
      Turn(c, choice) == if ws == [] then rest else RunWaiter(Push(rest, [RunWaiters(ws[1..], ok)]), ws[0], ok)
  {
    hide RunWaiter, HelloDone, Call;
  }

  lemma TurnFails(c: Client, choice: nat)
    requires Enabled(c, Loop(choice)) && c.stack[0].FailPending?
    ensures
      var rest := c.(stack := c.stack[1..]);
      var dead := c.stack[0].dead;
      Turn(c, choice) ==
      if dead == map[] then rest
      else if dead[choice].Hello? then HelloDone(Push(rest, [FailPending(dead - {choice})]), Bad)
      else Call(Push(rest, [FailPending(dead - {choice})]), dead[choice].caller, Bad)
  {
    hide RunWaiter, HelloDone, Call;
  }

  lemma FailedCallKeeps(c: Client, caller: Caller)
    ensures
      var d := Call(c, caller, Bad);
      && d.stack == c.stack && d.depth == c.depth && d.issued == c.issued && d.pending == c.pending
      && d.job == c.job && d.ready == c.ready && d.waiters == c.waiters && d.watchers == c.watchers
      && d.idSeq == c.idSeq
  {
  }

  lemma FailOneTotal(c: Client, choice: nat, t: Token)
    requires IdsFresh(c) && Enabled(c, Loop(choice)) && c.stack[0].FailPending?
    ensures Total(Turn(c, choice), t) == Total(c, t) && IdsFresh(Turn(c, choice))
    ensures Dispatches(Turn(c, choice).stack) == Dispatches(c.stack)
    ensures Turn(c, choice).depth == c.depth && Turn(c, choice).issued == c.issued
  {
    hide HelloDone, RunWaiter, Total, Dispatches;
    FrameDone(c, t);
    var rest := c.(stack := c.stack[1..]);
    var dead: map<ReqId, Pending> := c.stack[0].dead;
    if dead != map[] {
      var c' := Push(rest, [FailPending(dead - {choice})]);
      PushOne(rest, FailPending(dead - {choice}), t);
      SumWithout(dead, (p: Pending) => One(p.Answer? && p.caller.t == t), choice);
      match dead[choice] {
        case Hello =>
          HelloTotal(c', Bad, t);
          HelloKeeps(c', Bad);
        case Answer(caller) => CallTotal(c', caller, Bad, t);
      }
    }
  }

  lemma StepTotal(c: Client, s: Step, t: Token)
    requires Conserved(c) && Enabled(c, s)
    ensures Total(Apply(c, s), t) == One(t < Apply(c, s).issued)
    ensures IdsFresh(Apply(c, s)) && Apply(c, s).depth == Dispatches(Apply(c, s).stack)
  {
    hide Total, Turn, Receive, Teardown, Ensure, Dispatches;
    match s
    case Request(execute, spawn) =>
      var w := Issue(if execute then Execute(c.issued) else Plain(c.issued));
      EnsureTotal(c, w, spawn, t);
      EnsureKeeps(c, w, spawn);
    case EnsureOnly(spawn) =>
      EnsureTotal(c, Await(c.issued), spawn, t);
      EnsureKeeps(c, Await(c.issued), spawn);
    case Stop =>
      TeardownTotal(c, t);
      TeardownKeeps(c);
    case Deliver(m) => ReceiveTotal(c, m, t);
    case Exit =>
      TeardownTotal(c, t);
      TeardownKeeps(c);
    case Loop(choice) => TurnTotal(c, choice, t);
  }

  lemma EnsureKeeps(c: Client, w: Waiter, spawn: Spawn)
    ensures Ensure(c, w, spawn).issued == c.issued + 1 && Ensure(c, w, spawn).depth == c.depth
  {
  }

  lemma TeardownKeeps(c: Client)
    ensures Teardown(c).issued == c.issued && Teardown(c).depth == c.depth
  {
  }
}
