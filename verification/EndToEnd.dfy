/** The client and the engine together, over one spawn of the engine after another: requests go down
    the input pipe (`sent`), answers come up the output channel in the order they were put there.
    Messages of an engine that is gone are not delivered any more. */
module EndToEnd {
  import opened Wrappers
  import E = CallEngine
  import X = EngineRuns
  import C = RpcClient
  import R = ClientRuns
  import Calls
  import opened Watchers

  datatype World = World(engine: E.Engine, client: C.Client, seen: nat)

  const NEW_WORLD := World(E.START, C.NEW_CLIENT, 0)

  /** How the client decodes the engine's messages. */
  function Translate(m: E.Message): C.Message {
    match m
    case Welcomed(req, proto) => C.Response(req, C.Table(Some(proto), 0))
    case Started(req, call) => C.Response(req, C.Table(None, call))
    case Refused(req, _) => C.Response(req, C.Bad)
    case Paged(req, _) => C.Response(req, C.Table(None, 0))
    case Acked(req) => C.Response(req, C.Table(None, 0))
    case State(call, _, _, _) => C.QueryState(call)
  }

  predicate IsExecute(p: C.Pending) {
    p.Answer? && p.caller.Execute?
  }

  datatype Step =
    | Local(cs: C.Step)
    | Read(req: C.ReqId, request: E.Request)
    | Inside(es: E.Step)
    | Receive

  ghost predicate Enabled(w: World, s: Step) {
    match s
    case Local(cs) => !cs.Deliver? && C.Enabled(w.client, cs)
    case Read(req, request) =>
      w.client.job && req in w.client.sent &&
      (request.Malformed? || (IsExecute(w.client.sent[req]) <==> request.Execute?))
    case Inside(es) => w.client.job && !es.Submit? && E.Enabled(w.engine, es)
    case Receive => w.client.job && w.client.stack == [] && w.seen < |w.engine.out|
  }

  function Apply(w: World, s: Step): World
    requires Enabled(w, s)
  {
    match s
    case Local(cs) =>
      var c := C.Apply(w.client, cs);
      if c.job && !w.client.job then World(E.START, c, 0) else w.(client := c)
    case Read(req, request) =>
      w.(engine := E.Accept(w.engine, req, request), client := w.client.(sent := w.client.sent - {req}))
    case Inside(es) => w.(engine := E.Apply(w.engine, es))
    case Receive =>
      w.(client := C.Apply(w.client, C.Deliver(Translate(w.engine.out[w.seen]))), seen := w.seen + 1)
  }

  // ── the requests under way ─────────────────────────────────────────────────

  /** The part of a request's life before its answer is put on the channel. */
  predicate Working(t: E.Task) {
    !t.ExecReplied?
  }

  /** A request under way is in the pipe, with a task, or answered on the channel: in one of them, and
      pending at the client as the kind of request it is. */
  ghost predicate Routed(pending: map<C.ReqId, C.Pending>, sent: map<C.ReqId, C.Pending>, idSeq: nat,
                         tasks: map<E.ReqId, E.Task>, unread: seq<E.Message>) {
    && (forall r: nat :: r in sent ==> r in pending && pending[r] == sent[r] && r !in tasks)
    && (forall r: nat :: r in tasks ==> r <= idSeq)
    && (forall r: nat :: r in tasks && Working(tasks[r]) ==>
          r in pending && (E.Executing(tasks[r]) <==> IsExecute(pending[r])))
    && (forall i :: 0 <= i < |unread| && !unread[i].State? ==> Answered(pending, sent, tasks, unread[i]))
    && (forall i, j :: 0 <= i < j < |unread| && !unread[i].State? && !unread[j].State? ==>
          unread[i].req != unread[j].req)
  }

  ghost predicate Answered(pending: map<C.ReqId, C.Pending>, sent: map<C.ReqId, C.Pending>,
                           tasks: map<E.ReqId, E.Task>, m: E.Message)
    requires !m.State?
  {
    && m.req in pending && m.req !in sent
    && (m.req in tasks ==> !Working(tasks[m.req]))
    && (m.Started? ==> IsExecute(pending[m.req]))
    && (!m.Started? && !m.Refused? ==> !IsExecute(pending[m.req]))
  }

  /** The watchers are those of the calls announced to the client and not yet reported to it. */
  ghost predicate WatchersFit(watchers: map<C.CallId, C.Token>, read: seq<E.Message>) {
    forall c: nat :: c in watchers <==> E.Starts(read, c) == 1 && E.Notices(read, c) == 0
  }

  ghost predicate Linked(w: World) {
    && w.seen <= |w.engine.out|
    && (w.client.watchers != map[] && !w.client.job ==> C.FailWatchers in w.client.stack)
    && (w.client.job ==>
          && Routed(w.client.pending, w.client.sent, w.client.idSeq, w.engine.tasks, w.engine.out[w.seen..])
          && (if C.FailWatchers in w.client.stack then w.seen == 0
              else WatchersFit(w.client.watchers, w.engine.out[..w.seen])))
  }

  ghost predicate Inv(w: World) {
    E.Inv(w.engine) && C.Conserved(w.client) && Tracked(w.client) && Linked(w)
  }

  // ── the engine's steps ─────────────────────────────────────────────────────

  /** Routing, when one task moves on without a word, or its answer goes out. */
  lemma RoutedMove(pending: map<C.ReqId, C.Pending>, sent: map<C.ReqId, C.Pending>, idSeq: nat,
                   tasks: map<E.ReqId, E.Task>, unread: seq<E.Message>, r: nat, t: E.Task)
    requires Routed(pending, sent, idSeq, tasks, unread) && r in tasks && Working(t) && Working(tasks[r])
    requires E.Executing(t) == E.Executing(tasks[r])
    ensures Routed(pending, sent, idSeq, tasks[r := t], unread)
  {
  }

  lemma RoutedAnswer(pending: map<C.ReqId, C.Pending>, sent: map<C.ReqId, C.Pending>, idSeq: nat,
                     tasks: map<E.ReqId, E.Task>, unread: seq<E.Message>, m: E.Message, left: map<E.ReqId, E.Task>)
    requires Routed(pending, sent, idSeq, tasks, unread) && !m.State? && m.req in tasks && Working(tasks[m.req])
    requires if E.Executing(tasks[m.req]) then m.Started? || m.Refused? else !m.Started?
    requires left == tasks - {m.req} || exists conn, call :: left == tasks[m.req := E.ExecReplied(conn, call)]
    ensures Routed(pending, sent, idSeq, left, unread + [m])
  {
  }

  lemma RoutedDone(pending: map<C.ReqId, C.Pending>, sent: map<C.ReqId, C.Pending>, idSeq: nat,
                   tasks: map<E.ReqId, E.Task>, unread: seq<E.Message>, r: nat)
    requires Routed(pending, sent, idSeq, tasks, unread) && r in tasks && !Working(tasks[r])
    ensures Routed(pending, sent, idSeq, tasks - {r}, unread)
  {
  }

  lemma RoutedNotice(pending: map<C.ReqId, C.Pending>, sent: map<C.ReqId, C.Pending>, idSeq: nat,
                     tasks: map<E.ReqId, E.Task>, unread: seq<E.Message>, m: E.Message)
    requires Routed(pending, sent, idSeq, tasks, unread) && m.State?
    ensures Routed(pending, sent, idSeq, tasks, unread + [m])
  {
  }

  predicate Answers(t: E.Task) {
    t.ExecInserted? || t.PageRead? || t.CancelTaken? || t.Serving?
  }

  /** The last step of serving a request puts one answer for it on the channel, of the right kind. */
  ghost predicate AnswerSent(e: E.Engine, r: nat, e': E.Engine) {
    && r in e.tasks && |e'.out| == |e.out| + 1 && e'.out[..|e.out|] == e.out
    && (var m := e'.out[|e.out|];
        && !m.State? && m.req == r
        && (if E.Executing(e.tasks[r]) then m.Started? || m.Refused? else !m.Started?))
    && (e'.tasks == e.tasks - {r} || exists conn, call :: e'.tasks == e.tasks[r := E.ExecReplied(conn, call)])
  }

  lemma AnswerStep(e: E.Engine, r: nat, fires: Result<()>)
    requires E.Enabled(e, E.Advance(r, fires)) && Answers(e.tasks[r])
    ensures AnswerSent(e, r, E.Progress(e, r, fires))
  {
    hide Calls.ReadPage, Calls.CancelSection;
  }

  lemma InsideAnswer(pending: map<C.ReqId, C.Pending>, sent: map<C.ReqId, C.Pending>, idSeq: nat,
                     e: E.Engine, r: nat, fires: Result<()>, unread: seq<E.Message>)
    requires E.Enabled(e, E.Advance(r, fires)) && Routed(pending, sent, idSeq, e.tasks, unread) && Answers(e.tasks[r])
    ensures e.out <= E.Progress(e, r, fires).out
    ensures Routed(pending, sent, idSeq, E.Progress(e, r, fires).tasks, unread + E.Progress(e, r, fires).out[|e.out|..])
  {
    hide Routed, E.Progress;
    AnswerStep(e, r, fires);
    var e' := E.Progress(e, r, fires);
    assert e'.out[|e.out|..] == [e'.out[|e.out|]];
    RoutedAnswer(pending, sent, idSeq, e.tasks, unread, e'.out[|e.out|], e'.tasks);
  }

  lemma InsideAdvance(pending: map<C.ReqId, C.Pending>, sent: map<C.ReqId, C.Pending>, idSeq: nat,
                      e: E.Engine, r: nat, fires: Result<()>, unread: seq<E.Message>)
    requires E.Enabled(e, E.Advance(r, fires)) && Routed(pending, sent, idSeq, e.tasks, unread)
    ensures e.out <= E.Progress(e, r, fires).out
    ensures Routed(pending, sent, idSeq, E.Progress(e, r, fires).tasks, unread + E.Progress(e, r, fires).out[|e.out|..])
  {
    hide Routed, Calls.ReadPage, Calls.CancelSection;
    if Answers(e.tasks[r]) {
      InsideAnswer(pending, sent, idSeq, e, r, fires, unread);
    } else {
      var e' := E.Progress(e, r, fires);
      assert e'.out == e.out && unread + e'.out[|e.out|..] == unread;
      if e.tasks[r].ExecReplied? {
        RoutedDone(pending, sent, idSeq, e.tasks, unread, r);
      } else {
        RoutedMove(pending, sent, idSeq, e.tasks, unread, r, e'.tasks[r]);
      }
    }
  }

  lemma InsideWork(pending: map<C.ReqId, C.Pending>, sent: map<C.ReqId, C.Pending>, idSeq: nat,
                   e: E.Engine, es: E.Step, unread: seq<E.Message>)
    requires E.Enabled(e, es) && !es.Submit? && !es.Advance? && Routed(pending, sent, idSeq, e.tasks, unread)
    ensures Routed(pending, sent, idSeq, E.Apply(e, es).tasks, unread + E.Apply(e, es).out[|e.out|..])
  {
    hide Routed;
    var news := E.Apply(e, es).out[|e.out|..];
    assert unread + [] == unread;
    if es.Close? {
      assert news == [E.Apply(e, es).out[|e.out|]];
      RoutedNotice(pending, sent, idSeq, e.tasks, unread, news[0]);
    } else {
      assert news == [];
    }
  }

  lemma RoutedRead(pending: map<C.ReqId, C.Pending>, sent: map<C.ReqId, C.Pending>, idSeq: nat,
                   tasks: map<E.ReqId, E.Task>, unread: seq<E.Message>, r: nat, t: E.Task)
    requires Routed(pending, sent, idSeq, tasks, unread) && r in sent && r <= idSeq
    requires Working(t) && (E.Executing(t) <==> IsExecute(sent[r]))
    ensures Routed(pending, sent - {r}, idSeq, tasks[r := t], unread)
  {
  }

  lemma RoutedRefused(pending: map<C.ReqId, C.Pending>, sent: map<C.ReqId, C.Pending>, idSeq: nat,
                      tasks: map<E.ReqId, E.Task>, unread: seq<E.Message>, m: E.Message)
    requires Routed(pending, sent, idSeq, tasks, unread) && !m.State? && m.req in sent
    requires !m.Started? && (m.Refused? || !IsExecute(sent[m.req]))
    ensures Routed(pending, sent - {m.req}, idSeq, tasks, unread + [m])
  {
  }

  /** A request that is read gets a task, or an answer at once. */
  ghost predicate TakenUp(e: E.Engine, r: nat, execute: bool, e': E.Engine) {
    if e'.out == e.out
    then r in e'.tasks && e'.tasks == e.tasks[r := e'.tasks[r]]
         && Working(e'.tasks[r]) && (E.Executing(e'.tasks[r]) <==> execute)
    else
      && e'.tasks == e.tasks && |e'.out| == |e.out| + 1
      && (var m := e'.out[|e.out|]; !m.State? && !m.Started? && m.req == r && (m.Refused? || !execute))
  }

  lemma AcceptTakesUp(e: E.Engine, r: nat, request: E.Request, execute: bool)
    requires request.Malformed? || (execute <==> request.Execute?)
    ensures TakenUp(e, r, execute, E.Accept(e, r, request))
  {
  }

  lemma ReadRequest(pending: map<C.ReqId, C.Pending>, sent: map<C.ReqId, C.Pending>, idSeq: nat,
                    e: E.Engine, r: nat, request: E.Request, unread: seq<E.Message>)
    requires Routed(pending, sent, idSeq, e.tasks, unread) && r in sent && r <= idSeq
    requires request.Malformed? || (IsExecute(sent[r]) <==> request.Execute?)
    ensures
      var e' := E.Accept(e, r, request);
      Routed(pending, sent - {r}, idSeq, e'.tasks, unread + e'.out[|e.out|..])
  {
    hide Routed, E.Accept;
    var e' := E.Accept(e, r, request);
    AcceptTakesUp(e, r, request, IsExecute(sent[r]));
    if e'.out == e.out {
      assert unread + e'.out[|e.out|..] == unread;
      RoutedRead(pending, sent, idSeq, e.tasks, unread, r, e'.tasks[r]);
    } else {
      assert e'.out[|e.out|..] == [e'.out[|e.out|]];
      RoutedRefused(pending, sent, idSeq, e.tasks, unread, e'.out[|e.out|]);
    }
  }

  // ── the client's own steps ─────────────────────────────────────────────────

  /** What a step that is not a delivery may do to the tables the engine is concerned with. */
  ghost predicate Sends(c: C.Client, d: C.Client) {
    || (d.pending == c.pending && d.sent == c.sent && d.idSeq == c.idSeq)
    || (d.idSeq == c.idSeq + 1 && d.idSeq in d.pending && d.pending == c.pending[d.idSeq := d.pending[d.idSeq]]
        && d.sent == c.sent[d.idSeq := d.pending[d.idSeq]])
  }

  ghost predicate Spawns(c: C.Client, d: C.Client) {
    && d.idSeq == c.idSeq + 1 && d.pending == c.pending[d.idSeq := C.Hello] && d.sent == map[d.idSeq := C.Hello]
    && d.watchers == c.watchers && d.stack == c.stack
  }

  ghost predicate WatchersKept(c: C.Client, d: C.Client) {
    && (d.watchers == c.watchers || d.watchers == map[])
    && (C.FailWatchers in c.stack && C.FailWatchers !in d.stack ==> d.watchers == map[])
    && (C.FailWatchers !in c.stack ==> d.watchers == c.watchers)
    && (C.FailWatchers in d.stack && d.job ==> C.FailWatchers in c.stack)
    && (c.job && !d.job ==> C.FailWatchers in d.stack)
  }

  ghost predicate LocalEffect(c: C.Client, d: C.Client) {
    && WatchersKept(c, d)
    && (d.job && c.job ==> Sends(c, d))
    && (d.job && !c.job ==> Spawns(c, d))
  }

  lemma EnsureEffect(c: C.Client, w: C.Waiter, spawn: C.Spawn)
    ensures LocalEffect(c, C.Ensure(c, w, spawn))
  {
    hide C.RunWaiter;
    if c.ready && c.job {
      WakeEffect(c.(issued := c.issued + 1), w, true);
    }
  }

  lemma WakeEffect(c: C.Client, w: C.Waiter, ok: bool)
    ensures
      var d := C.RunWaiter(c, w, ok);
      d.watchers == c.watchers && d.stack == c.stack && d.job == c.job && (c.job ==> Sends(c, d))
  {
  }

  lemma TeardownEffect(c: C.Client)
    ensures
      var d := C.Teardown(c);
      !d.job && d.watchers == c.watchers && C.FailWatchers in d.stack
  {
    R.TeardownFrames(c);
  }

  lemma RunEffect(c: C.Client, choice: nat)
    requires C.Enabled(c, C.Loop(choice)) && c.stack[0].RunWaiters?
    ensures LocalEffect(c, C.Turn(c, choice))
  {
    hide C.Turn, C.RunWaiter;
    C.TurnRuns(c, choice);
    var rest, ws := c.(stack := c.stack[1..]), c.stack[0].waiters;
    assert c.stack == [c.stack[0]] + rest.stack;
    if ws != [] {
      WakeEffect(C.Push(rest, [C.RunWaiters(ws[1..], c.stack[0].ok)]), ws[0], c.stack[0].ok);
    }
  }

  lemma FailEffect(c: C.Client, choice: nat)
    requires C.Enabled(c, C.Loop(choice)) && c.stack[0].FailPending?
    ensures LocalEffect(c, C.Turn(c, choice))
  {
    hide C.Turn, C.Call, C.Teardown;
    C.TurnFails(c, choice);
    var rest := c.(stack := c.stack[1..]);
    var dead: map<C.ReqId, C.Pending> := c.stack[0].dead;
    assert c.stack == [c.stack[0]] + rest.stack;
    if dead != map[] {
      var c' := C.Push(rest, [C.FailPending(dead - {choice})]);
      match dead[choice] {
        case Hello => TeardownEffect(C.Push(c'.(waiters := []), [C.RunWaiters(c'.waiters, false)]));
        case Answer(caller) =>
          C.FailedCallKeeps(c', caller);
          FailedCallSends(c', caller);
      }
    }
  }

  lemma FailedCallSends(c: C.Client, caller: C.Caller)
    ensures Sends(c, C.Call(c, caller, C.Bad))
  {
  }

  lemma OtherEffect(c: C.Client, choice: nat)
    requires C.Enabled(c, C.Loop(choice)) && !c.stack[0].RunWaiters? && !c.stack[0].FailPending?
    ensures LocalEffect(c, C.Turn(c, choice))
  {
    hide C.Turn;
    C.TurnOther(c, choice);
    assert c.stack == [c.stack[0]] + c.stack[1..];
  }

  lemma ClientEffect(c: C.Client, s: C.Step)
    requires C.Enabled(c, s) && !s.Deliver?
    ensures LocalEffect(c, C.Apply(c, s))
  {
    hide C.Turn, C.Ensure, C.Teardown, Sends, Spawns;
    match s
    case Request(execute, spawn) =>
      EnsureEffect(c, C.Issue(if execute then C.Execute(c.issued) else C.Plain(c.issued)), spawn);
    case EnsureOnly(spawn) => EnsureEffect(c, C.Await(c.issued), spawn);
    case Stop => TeardownEffect(c);
    case Exit => TeardownEffect(c);
    case Loop(choice) =>
      if c.stack[0].RunWaiters? {
        RunEffect(c, choice);
      } else if c.stack[0].FailPending? {
        FailEffect(c, choice);
      } else {
        OtherEffect(c, choice);
      }
  }

  // ── every step of the whole keeps the links ────────────────────────────────

  lemma RoutedSend(pending: map<C.ReqId, C.Pending>, sent: map<C.ReqId, C.Pending>, idSeq: nat,
                   tasks: map<E.ReqId, E.Task>, unread: seq<E.Message>, p: C.Pending)
    requires Routed(pending, sent, idSeq, tasks, unread) && (forall r: nat :: r in pending ==> r <= idSeq)
    ensures Routed(pending[idSeq + 1 := p], sent[idSeq + 1 := p], idSeq + 1, tasks, unread)
  {
  }

  lemma LocalLinks(w: World, cs: C.Step)
    requires Inv(w) && Enabled(w, Local(cs))
    ensures Linked(Apply(w, Local(cs)))
  {
    hide C.Apply, C.Enabled, C.Conserved, E.Inv, Tracked, Routed;
    var c, d := w.client, C.Apply(w.client, cs);
    ClientEffect(c, cs);
    FreshIds(c);
    if c.job && d.job && d.idSeq != c.idSeq {
      RoutedSend(c.pending, c.sent, c.idSeq, w.engine.tasks, w.engine.out[w.seen..], d.pending[d.idSeq]);
    } else if d.job && !c.job {
      assert E.START.out[0..] == [];
      RoutedStart(d.pending, d.sent, d.idSeq);
    }
  }

  lemma FreshIds(c: C.Client)
    requires C.Conserved(c)
    ensures forall r: nat :: r in c.pending ==> r <= c.idSeq
  {
  }

  lemma RoutedStart(pending: map<C.ReqId, C.Pending>, sent: map<C.ReqId, C.Pending>, idSeq: nat)
    requires forall r: nat :: r in sent ==> r in pending && pending[r] == sent[r]
    ensures Routed(pending, sent, idSeq, map[], [])
  {
  }

  /** Steps that leave the watchers alone and add to the channel keep the links, if they keep the
      requests routed. */
  lemma LinksKept(w: World, w': World)
    requires Linked(w) && w'.seen == w.seen && w.engine.out <= w'.engine.out
    requires w'.client == w.client.(sent := w'.client.sent)
    requires w.client.job ==>
               Routed(w.client.pending, w'.client.sent, w.client.idSeq, w'.engine.tasks,
                      w.engine.out[w.seen..] + w'.engine.out[|w.engine.out|..])
    ensures Linked(w')
  {
    hide Routed, WatchersFit;
    assert w'.engine.out[w.seen..] == w.engine.out[w.seen..] + w'.engine.out[|w.engine.out|..];
    assert w'.engine.out[..w.seen] == w.engine.out[..w.seen];
  }

  lemma EngineLinks(w: World, s: Step)
    requires Inv(w) && Enabled(w, s) && (s.Read? || s.Inside?)
    ensures Linked(Apply(w, s))
  {
    hide C.Conserved, E.Inv, Tracked, Routed, WatchersFit, E.Apply, E.Enabled, E.Accept;
    var c, e, unread := w.client, w.engine, w.engine.out[w.seen..];
    FreshIds(c);
    match s {
      case Read(req, request) =>
        InPipe(c.pending, c.sent, c.idSeq, e.tasks, unread, req);
        ReadRequest(c.pending, c.sent, c.idSeq, e, req, request, unread);
      case Inside(es) =>
        if es.Advance? {
          InsideAdvance(c.pending, c.sent, c.idSeq, e, es.req, es.fires, unread);
        } else {
          InsideWork(c.pending, c.sent, c.idSeq, e, es, unread);
        }
    }
    LinksKept(w, Apply(w, s));
  }

  lemma InPipe(pending: map<C.ReqId, C.Pending>, sent: map<C.ReqId, C.Pending>, idSeq: nat,
               tasks: map<E.ReqId, E.Task>, unread: seq<E.Message>, r: nat)
    requires Routed(pending, sent, idSeq, tasks, unread) && r in sent
    ensures r in pending && r !in tasks
  {
  }

  /** Every prefix of an orderly channel is orderly, and no call is reported on unannounced. */
  lemma {:induction false} OrderlyPrefix(out: seq<E.Message>, k: nat, c: nat)
    requires E.Orderly(out) && k <= |out|
    ensures E.Orderly(out[..k])
    ensures E.Notices(out, c) <= E.Starts(out, c) <= 1
    decreases |out|
  {
    if k < |out| {
      OrderlyPrefix(out[..|out| - 1], k, c);
      assert out[..|out| - 1][..k] == out[..k];
    } else if out != [] {
      assert out[..k] == out;
      OrderlyPrefix(out[..|out| - 1], 0, c);
    }
  }

  /** What the next message finds at the client: an announced call has no watcher yet, a reported one
      has. */
  lemma WatcherInTime(w: World)
    requires E.Orderly(w.engine.out) && w.seen < |w.engine.out|
    requires WatchersFit(w.client.watchers, w.engine.out[..w.seen])
    ensures
      var m := w.engine.out[w.seen];
      && (m.Started? ==> m.call !in w.client.watchers)
      && (m.State? ==> m.call in w.client.watchers)
      && (forall c: nat :: E.Starts(w.engine.out[..w.seen + 1], c)
            == E.Starts(w.engine.out[..w.seen], c) + if m.Started? && m.call == c then 1 else 0)
      && (forall c: nat :: E.Notices(w.engine.out[..w.seen + 1], c)
            == E.Notices(w.engine.out[..w.seen], c) + if m.State? && m.call == c then 1 else 0)
      && (m.Started? ==>
            E.Starts(w.engine.out[..w.seen], m.call) == 0 && E.Notices(w.engine.out[..w.seen], m.call) == 0)
  {
    var out, read, m := w.engine.out, w.engine.out[..w.seen], w.engine.out[w.seen];
    assert out[..w.seen + 1] == read + [m];
    E.Sent(read, m);
    OrderlyPrefix(out, w.seen + 1, 0);
    if m.Started? {
      OrderlyPrefix(read, 0, m.call);
    }
  }

  /** Reading one answer off the channel settles its request. */
  lemma RoutedReceive(pending: map<C.ReqId, C.Pending>, sent: map<C.ReqId, C.Pending>, idSeq: nat,
                      tasks: map<E.ReqId, E.Task>, unread: seq<E.Message>)
    requires Routed(pending, sent, idSeq, tasks, unread) && unread != []
    ensures
      var m := unread[0];
      && (m.State? ==> Routed(pending, sent, idSeq, tasks, unread[1..]))
      && (!m.State? ==> m.req in pending && Routed(pending - {m.req}, sent, idSeq, tasks, unread[1..]))
      && (m.Started? ==> IsExecute(pending[m.req]))
      && (!m.State? && !m.Started? && !m.Refused? ==> !IsExecute(pending[m.req]))
  {
    assert forall i :: 0 <= i < |unread[1..]| ==> unread[1..][i] == unread[i + 1];
    if !unread[0].State? {
      assert Answered(pending, sent, tasks, unread[0]);
    }
  }

  /** What one message does at an idle client. */
  ghost predicate ReceiveEffect(c: C.Client, m: E.Message, d: C.Client) {
    && d.sent == c.sent && d.idSeq == c.idSeq
    && (if d.job then C.FailWatchers !in d.stack else d.watchers == c.watchers && C.FailWatchers in d.stack)
    && (m.State? ==> d.job && d.pending == c.pending && d.watchers == c.watchers - {m.call})
    && (!m.State? && m.req in c.pending ==>
          && (d.job ==> d.pending == c.pending - {m.req})
          && (IsExecute(c.pending[m.req]) ==> d.job)
          && d.watchers == (if m.Started? && IsExecute(c.pending[m.req]) then
                                c.watchers[m.call := c.pending[m.req].caller.t]
                            else if IsExecute(c.pending[m.req]) && !m.Refused? then d.watchers
                            else c.watchers))
  }

  lemma AtTheClient(c: C.Client, m: E.Message)
    requires c.job && c.stack == []
    ensures ReceiveEffect(c, m, C.Receive(c, Translate(m)))
  {
    hide C.HelloDone;
    var d := C.Push(c.(depth := c.depth + 1), [C.EndDispatch]);
    if !m.State? && m.req in c.pending && c.pending[m.req].Hello? {
      HelloEffect(d.(pending := c.pending - {m.req}), Translate(m).reply);
    }
  }

  lemma HelloEffect(c: C.Client, reply: C.Reply)
    requires c.job && C.FailWatchers !in c.stack
    ensures
      var d := C.HelloDone(c, reply);
      && d.sent == c.sent && d.idSeq == c.idSeq && d.watchers == c.watchers
      && (if d.job then d.pending == c.pending && C.FailWatchers !in d.stack else C.FailWatchers in d.stack)
  {
    var torn := C.Push(c.(waiters := []), [C.RunWaiters(c.waiters, false)]);
    assert C.Teardown(torn).sent == c.sent && C.Teardown(torn).idSeq == c.idSeq;
    hide C.Teardown;
    R.TeardownFrames(torn);
    R.TeardownFields(torn);
  }

  lemma ReceiveLinks(w: World)
    requires Inv(w) && Enabled(w, Receive)
    ensures Linked(Apply(w, Receive))
    ensures NoClash(w.client, C.Deliver(Translate(w.engine.out[w.seen])))
  {
    hide C.Receive, C.Conserved, E.Bookkeeping, E.AnnouncementsFit, E.NoticesFit, E.Orderly,
         E.Starts, E.Notices, Tracked, Routed;
    var c, m := w.client, w.engine.out[w.seen];
    var unread := w.engine.out[w.seen..];
    assert unread[0] == m && unread[1..] == w.engine.out[w.seen + 1..];
    WatcherInTime(w);
    RoutedReceive(c.pending, c.sent, c.idSeq, w.engine.tasks, unread);
    AtTheClient(c, m);
    var d := C.Receive(c, Translate(m));
    if d.job {
      assert WatchersFit(d.watchers, w.engine.out[..w.seen + 1]);
    }
  }

  // ── whole runs ─────────────────────────────────────────────────────────────

  lemma EngineStep(w: World, s: Step)
    requires Inv(w) && Enabled(w, s)
    ensures E.Inv(Apply(w, s).engine)
  {
    hide E.Inv, C.Apply, C.Enabled, C.Conserved, Tracked;
    match s
    case Local(_) => X.StartFits();
    case Read(req, request) =>
      InPipe(w.client.pending, w.client.sent, w.client.idSeq, w.engine.tasks, w.engine.out[w.seen..], req);
      X.InvStep(w.engine, E.Submit(req, request));
    case Inside(es) => X.InvStep(w.engine, es);
    case Receive =>
  }

  lemma InvStep(w: World, s: Step)
    requires Inv(w) && Enabled(w, s)
    ensures Inv(Apply(w, s))
  {
    hide E.Inv, C.Apply, C.Conserved, Tracked, Linked;
    EngineStep(w, s);
    match s
    case Local(cs) =>
      LocalLinks(w, cs);
      R.StepConserves(w.client, cs);
      TrackedStep(w.client, cs);
    case Receive =>
      ReceiveLinks(w);
      var m := C.Deliver(Translate(w.engine.out[w.seen]));
      R.StepConserves(w.client, m);
      TrackedStep(w.client, m);
    case Read(_, _) =>
      EngineLinks(w, s);
      SentOnly(w.client, Apply(w, s).client.sent);
    case Inside(_) => EngineLinks(w, s);
  }

  lemma SentOnly(c: C.Client, sent: map<C.ReqId, C.Pending>)
    requires C.Conserved(c) && Tracked(c)
    ensures C.Conserved(c.(sent := sent)) && Tracked(c.(sent := sent))
  {
    hide C.Dispatches, C.InPending, C.InStack, C.InWaiters, C.Answers, Watched, Reports, Beginnings;
    var d := c.(sent := sent);
    forall t: C.Token ensures Balance(d, t) == 0 && C.Total(d, t) == C.One(t < d.issued) {
      assert Balance(c, t) == 0 && C.Total(c, t) == C.One(t < c.issued);
      SameBalance(c, d, t);
    }
  }

  ghost predicate Runs(w: World, steps: seq<Step>)
    decreases |steps|
  {
    steps == [] || (Enabled(w, steps[0]) && Runs(Apply(w, steps[0]), steps[1..]))
  }

  ghost function After(w: World, steps: seq<Step>): World
    requires Runs(w, steps)
    decreases |steps|
  {
    if steps == [] then w else After(Apply(w, steps[0]), steps[1..])
  }

  lemma {:induction false} InvAlways(w: World, steps: seq<Step>)
    requires Inv(w) && Runs(w, steps)
    ensures Inv(After(w, steps))
    decreases |steps|
  {
    hide Inv, Apply;
    if steps != [] {
      InvStep(w, steps[0]);
      InvAlways(Apply(w, steps[0]), steps[1..]);
    }
  }

  lemma StartFits()
    ensures Inv(NEW_WORLD)
  {
    X.StartFits();
    R.NewIsConserved();
  }

  /** What became of the `execute` (or other request) with token `t`: it is answered at most once, a
      call that has begun is reported on at most once and only after it began, and while it has begun
      and is not reported on it is being watched. */
  ghost predicate OneEnd(c: C.Client, t: C.Token) {
    && C.Answers(c.fired, t) <= 1
    && Reports(c.fired, t) <= Beginnings(c.fired, t) <= C.Answers(c.fired, t)
    && (Beginnings(c.fired, t) > Reports(c.fired, t) <==> Watched(c, t) > 0)
    && (t < c.issued ==> (C.Answers(c.fired, t) == 0 <==> C.Owed(c, t) > 0))
  }

  /** In every run of client and engine together, across failures and restarts. */
  lemma EveryRequestHasOneEnd(steps: seq<Step>, t: C.Token)
    requires Runs(NEW_WORLD, steps)
    ensures
      var c := After(NEW_WORLD, steps).client;
      OneEnd(c, t) && Chronological(c.fired)
  {
    hide Runs, After, E.Inv, Linked, C.Answers, Beginnings, Reports, Chronological, C.Owed, Watched;
    StartFits();
    InvAlways(NEW_WORLD, steps);
    var c := After(NEW_WORLD, steps).client;
    BeginningIsAnswer(c.fired, t);
    BeganOnce(c, t);
    assert C.Total(c, t) == C.One(t < c.issued) && Balance(c, t) == 0;
  }

  /** The watcher is always registered in time: whenever the client comes to a call's notice, the
      call's watcher is there. */
  lemma NoticeFindsItsWatcher(steps: seq<Step>)
    requires Runs(NEW_WORLD, steps) && Enabled(After(NEW_WORLD, steps), Receive)
    ensures
      var w := After(NEW_WORLD, steps);
      var m := w.engine.out[w.seen];
      && (m.State? ==> m.call in w.client.watchers)
      && (m.State? ==> Apply(w, Receive).client.fired == w.client.fired + [C.Reported(w.client.watchers[m.call])])
      && (!m.State? ==> m.req in w.client.pending)
  {
    hide Runs, After, C.Conserved, E.Bookkeeping, E.AnnouncementsFit, E.NoticesFit, E.Orderly, Tracked, Routed;
    StartFits();
    InvAlways(NEW_WORLD, steps);
    var w := After(NEW_WORLD, steps);
    WatcherInTime(w);
    RoutedReceive(w.client.pending, w.client.sent, w.client.idSeq, w.engine.tasks, w.engine.out[w.seen..]);
  }

  /** What the client does on an answer: it runs the callback of the request the answer is for, and
      tells an `execute` of a call id exactly when the engine announced one. */
  function AnswerTo(p: C.Pending, m: E.Message): C.Event
    requires p.Answer? && !m.State?
  {
    if !p.caller.Execute? then C.Answered(p.caller.t, !m.Refused?)
    else if m.Started? then C.Began(p.caller.t, m.call)
    else C.Refused(p.caller.t)
  }

  lemma AnswerReachesItsRequest(steps: seq<Step>)
    requires Runs(NEW_WORLD, steps) && Enabled(After(NEW_WORLD, steps), Receive)
    ensures
      var w := After(NEW_WORLD, steps);
      var m := w.engine.out[w.seen];
      !m.State? ==>
        && m.req in w.client.pending && m.req !in Apply(w, Receive).client.pending
        && (w.client.pending[m.req].Answer? ==>
              Apply(w, Receive).client.fired == w.client.fired + [AnswerTo(w.client.pending[m.req], m)])
  {
    hide Runs, After, C.Conserved, E.Inv, Tracked, Routed, WatchersFit, C.HelloDone;
    StartFits();
    InvAlways(NEW_WORLD, steps);
    var w := After(NEW_WORLD, steps);
    var m := w.engine.out[w.seen];
    RoutedReceive(w.client.pending, w.client.sent, w.client.idSeq, w.engine.tasks, w.engine.out[w.seen..]);
    if !m.State? && w.client.pending[m.req].Hello? {
      HelloLeaves(w.client, m);
    }
  }

  lemma HelloLeaves(c: C.Client, m: E.Message)
    requires !m.State? && m.req in c.pending && c.pending[m.req].Hello?
    ensures m.req !in C.Receive(c, Translate(m)).pending
  {
  }

  /** Once nothing is left to do (the tables are empty and no loop is running), every request ever
      made has had its answer, and every call that began its report: one each. */
  lemma QuietMeansSettled(steps: seq<Step>, t: C.Token)
    requires Runs(NEW_WORLD, steps)
    requires
      var c := After(NEW_WORLD, steps).client;
      c.stack == [] && c.pending == map[] && c.waiters == [] && c.watchers == map[] && t < c.issued
    ensures
      var c := After(NEW_WORLD, steps).client;
      C.Answers(c.fired, t) == 1 && Reports(c.fired, t) == Beginnings(c.fired, t)
  {
    hide Runs, After, C.Answers, Beginnings, Reports, Chronological;
    EveryRequestHasOneEnd(steps, t);
  }
}
