/** Nothing is left hanging: when neither the engine nor the client can move any more, every request
    has been answered and every call that began has been reported on. */
module Settlement {
  import opened Wrappers
  import E = CallEngine
  import X = EngineRuns
  import C = RpcClient
  import R = ClientRuns
  import Y = Strays
  import Calls
  import opened Watchers
  import opened EndToEnd

  // ── what is still owed can still be paid ───────────────────────────────────

  ghost predicate AnswerIn(unread: seq<E.Message>, r: nat) {
    exists i :: 0 <= i < |unread| && !unread[i].State? && unread[i].req == r
  }

  /** Every pending request is in the pipe, being worked on, or answered on the channel. */
  ghost predicate Covered(pending: map<C.ReqId, C.Pending>, sent: map<C.ReqId, C.Pending>,
                          tasks: map<E.ReqId, E.Task>, unread: seq<E.Message>) {
    forall r: nat :: r in pending ==> r in sent || (r in tasks && Working(tasks[r])) || AnswerIn(unread, r)
  }

  ghost predicate Handed(tasks: map<E.ReqId, E.Task>, call: E.CallId) {
    exists r: nat :: r in tasks && tasks[r].ExecReplied? && tasks[r].call == call
  }

  /** Every announced call has its worker, or a task about to start it. */
  ghost predicate Manned(e: E.Engine) {
    forall c: nat :: E.Starts(e.out, c) > 0 ==> c in e.workers || Handed(e.tasks, c)
  }

  /** All but the strays can still be answered by the daemon there is. */
  ghost predicate Alive(w: World, strays: set<C.ReqId>) {
    && Y.Loose(w.client, strays) && Manned(w.engine) && w.seen <= |w.engine.out|
    && (w.client.job ==> Covered(w.client.pending - strays, w.client.sent, w.engine.tasks, w.engine.out[w.seen..]))
  }

  // ── the engine keeps every announced call manned ───────────────────────────

  lemma MannedExec(e: E.Engine, r: nat, fires: Result<()>)
    requires Manned(e) && E.Enabled(e, E.Advance(r, fires)) && E.Executing(e.tasks[r])
    ensures Manned(E.Progress(e, r, fires))
  {
    hide E.Starts, E.Notices, E.Orderly;
    var t, e' := e.tasks[r], E.Progress(e, r, fires);
    if t.ExecInserted? {
      E.Sent(e.out, E.Started(r, t.call));
    }
    forall c: nat | E.Starts(e'.out, c) > 0 ensures c in e'.workers || Handed(e'.tasks, c) {
      if t.ExecInserted? && c == t.call {
        assert e'.tasks[r].ExecReplied? && e'.tasks[r].call == c;
      } else if c !in e'.workers {
        var s: nat :| s in e.tasks && e.tasks[s].ExecReplied? && e.tasks[s].call == c;
        assert e'.tasks[s] == e.tasks[s];
      }
    }
  }

  lemma MannedSame(e: E.Engine, e': E.Engine)
    requires Manned(e) && forall c: nat {:trigger E.Starts(e'.out, c)} :: E.Starts(e'.out, c) == E.Starts(e.out, c)
    requires e.workers.Keys <= e'.workers.Keys
    requires forall r: nat :: r in e.tasks && e.tasks[r].ExecReplied? ==> r in e'.tasks && e'.tasks[r] == e.tasks[r]
    ensures Manned(e')
  {
    forall c: nat | E.Starts(e'.out, c) > 0 && c !in e'.workers ensures Handed(e'.tasks, c) {
      assert E.Starts(e.out, c) > 0 && c !in e.workers;
      var r: nat :| r in e.tasks && e.tasks[r].ExecReplied? && e.tasks[r].call == c;
      assert e'.tasks[r] == e.tasks[r];
    }
  }

  /** Only the task that moves is changed, and no worker disappears. */
  ghost predicate OthersStay(e: E.Engine, e': E.Engine, r: nat) {
    && e.workers.Keys <= e'.workers.Keys
    && (forall s: nat :: s != r && s in e.tasks ==> s in e'.tasks && e'.tasks[s] == e.tasks[s])
  }

  lemma OthersStayPut(e: E.Engine, r: nat, fires: Result<()>)
    requires E.Enabled(e, E.Advance(r, fires))
    ensures OthersStay(e, E.Progress(e, r, fires), r)
  {
    hide Calls.ReadPage, Calls.CancelSection;
  }

  /** Tasks that hand over a call stay unless they move themselves. */
  lemma HandoversStay(e: E.Engine, s: E.Step)
    requires E.Enabled(e, s) && !(s.Advance? && E.Executing(e.tasks[s.req]))
    ensures
      var e' := E.Apply(e, s);
      && e.workers.Keys <= e'.workers.Keys
      && (forall r: nat :: r in e.tasks && e.tasks[r].ExecReplied? ==> r in e'.tasks && e'.tasks[r] == e.tasks[r])
  {
    hide E.Progress;
    match s
    case Advance(r, fires) => OthersStayPut(e, r, fires);
    case Submit(_, _) =>
    case _ => WorkKeepsTasks(e, s);
  }

  lemma WorkKeepsTasks(e: E.Engine, es: E.Step)
    requires E.Enabled(e, es) && !es.Advance? && !es.Submit?
    ensures E.Apply(e, es).tasks == e.tasks && E.Apply(e, es).workers.Keys == e.workers.Keys
  {
    hide Calls.CloseSection;
    assert E.Apply(e, es).workers.Keys == e.workers.Keys;
  }

  lemma MannedStep(e: E.Engine, s: E.Step)
    requires E.Inv(e) && Manned(e) && E.Enabled(e, s)
    ensures Manned(E.Apply(e, s))
  {
    hide E.Bookkeeping, E.AnnouncementsFit, E.NoticesFit, E.Starts, E.Notices, E.Orderly, E.Progress, E.Accept, Manned;
    if s.Advance? && E.Executing(e.tasks[s.req]) {
      MannedExec(e, s.req, s.fires);
    } else {
      HandoversStay(e, s);
      E.StartsSame(e, s);
      MannedSame(e, E.Apply(e, s));
    }
  }

  // ── every pending request stays covered ────────────────────────────────────

  lemma AnswerStays(unread: seq<E.Message>, news: seq<E.Message>, r: nat)
    ensures AnswerIn(unread, r) || AnswerIn(news, r) ==> AnswerIn(unread + news, r)
  {
    if AnswerIn(unread, r) {
      var i :| 0 <= i < |unread| && !unread[i].State? && unread[i].req == r;
      assert (unread + news)[i] == unread[i];
    } else if AnswerIn(news, r) {
      var i :| 0 <= i < |news| && !news[i].State? && news[i].req == r;
      assert (unread + news)[|unread| + i] == news[i];
    }
  }

  /** A request that leaves the pipe or is done being worked on is taken up or answered. */
  lemma CoveredMove(pending: map<C.ReqId, C.Pending>, sent: map<C.ReqId, C.Pending>, tasks: map<E.ReqId, E.Task>,
                    unread: seq<E.Message>, sent': map<C.ReqId, C.Pending>, tasks': map<E.ReqId, E.Task>,
                    news: seq<E.Message>, r: nat)
    requires Covered(pending, sent, tasks, unread)
    requires forall s: nat :: s != r ==>
               (s in sent ==> s in sent') && (s in tasks ==> s in tasks' && tasks'[s] == tasks[s])
    requires r in sent || (r in tasks && Working(tasks[r])) ==>
               r in sent' || (r in tasks' && Working(tasks'[r])) || AnswerIn(news, r)
    ensures Covered(pending, sent', tasks', unread + news)
  {
    hide AnswerIn;
    forall s: nat | s in pending
      ensures s in sent' || (s in tasks' && Working(tasks'[s])) || AnswerIn(unread + news, s) {
      AnswerStays(unread, news, s);
    }
  }

  /** A task that stops working on its request has put the answer on the channel. */
  lemma DoneMeansAnswered(e: E.Engine, r: nat, fires: Result<()>)
    requires E.Enabled(e, E.Advance(r, fires)) && Working(e.tasks[r])
    ensures
      var e' := E.Progress(e, r, fires);
      (r in e'.tasks && Working(e'.tasks[r])) || AnswerIn(e'.out[|e.out|..], r)
  {
    hide AnswerIn, E.Progress;
    var e' := E.Progress(e, r, fires);
    if Answers(e.tasks[r]) {
      AnswerStep(e, r, fires);
      assert e'.out == e.out + [e'.out[|e.out|]];
      IsAnswer(e.out, e'.out[|e.out|], r);
    } else {
      StillWorking(e, r, fires);
    }
  }

  lemma StillWorking(e: E.Engine, r: nat, fires: Result<()>)
    requires E.Enabled(e, E.Advance(r, fires)) && Working(e.tasks[r]) && !Answers(e.tasks[r])
    ensures e.out == E.Progress(e, r, fires).out
    ensures r in E.Progress(e, r, fires).tasks && Working(E.Progress(e, r, fires).tasks[r])
  {
    hide Calls.ReadPage, Calls.CancelSection;
  }

  lemma IsAnswer(out: seq<E.Message>, m: E.Message, r: nat)
    requires !m.State? && m.req == r
    ensures AnswerIn((out + [m])[|out|..], r)
  {
    assert (out + [m])[|out|..][0] == m;
  }

  lemma CoveredAdvance(pending: map<C.ReqId, C.Pending>, sent: map<C.ReqId, C.Pending>, e: E.Engine,
                       r: nat, fires: Result<()>, unread: seq<E.Message>)
    requires E.Enabled(e, E.Advance(r, fires)) && Covered(pending, sent, e.tasks, unread)
    ensures Covered(pending, sent, E.Progress(e, r, fires).tasks, unread + E.Progress(e, r, fires).out[|e.out|..])
  {
    hide Covered, E.Progress, AnswerIn;
    var e' := E.Progress(e, r, fires);
    var news := e'.out[|e.out|..];
    OthersStayPut(e, r, fires);
    if Working(e.tasks[r]) {
      DoneMeansAnswered(e, r, fires);
    }
    CoveredMove(pending, sent, e.tasks, unread, sent, e'.tasks, news, r);
  }

  lemma CoveredRead(pending: map<C.ReqId, C.Pending>, sent: map<C.ReqId, C.Pending>, e: E.Engine,
                    r: nat, request: E.Request, unread: seq<E.Message>)
    requires Covered(pending, sent, e.tasks, unread)
    ensures
      var e' := E.Accept(e, r, request);
      Covered(pending, sent - {r}, e'.tasks, unread + e'.out[|e.out|..])
  {
    hide Covered, AnswerIn, E.Accept;
    var e' := E.Accept(e, r, request);
    AcceptTakesUp(e, r, request, request.Execute?);
    if e'.out != e.out {
      assert e'.out == e.out + [e'.out[|e.out|]];
      IsAnswer(e.out, e'.out[|e.out|], r);
    }
    CoveredMove(pending, sent, e.tasks, unread, sent - {r}, e'.tasks, e'.out[|e.out|..], r);
  }

  lemma CoveredReceive(pending: map<C.ReqId, C.Pending>, sent: map<C.ReqId, C.Pending>, tasks: map<E.ReqId, E.Task>,
                       unread: seq<E.Message>, left: map<C.ReqId, C.Pending>)
    requires Covered(pending, sent, tasks, unread) && unread != []
    requires left.Keys <= pending.Keys && (!unread[0].State? ==> unread[0].req !in left)
    ensures Covered(left, sent, tasks, unread[1..])
  {
    forall r: nat | r in left && AnswerIn(unread, r) ensures AnswerIn(unread[1..], r) {
      var i :| 0 <= i < |unread| && !unread[i].State? && unread[i].req == r;
      assert unread[1..][i - 1] == unread[i];
    }
  }

  lemma CoveredInside(w: World, es: E.Step, strays: set<C.ReqId>)
    requires Alive(w, strays) && Enabled(w, Inside(es))
    ensures
      var w' := Apply(w, Inside(es));
      && w.seen <= |w'.engine.out|
      && Covered(w.client.pending - strays, w.client.sent, w'.engine.tasks, w'.engine.out[w.seen..])
  {
    var c, e, e' := w.client, w.engine, E.Apply(w.engine, es);
    hide Y.Loose, Manned, Covered, E.Apply, E.Enabled;
    var unread := e.out[w.seen..];
    assert e'.out[w.seen..] == unread + e'.out[|e.out|..];
    if es.Advance? {
      CoveredAdvance(c.pending - strays, c.sent, e, es.req, es.fires, unread);
    } else {
      WorkKeepsTasks(e, es);
      CoveredMove(c.pending - strays, c.sent, e.tasks, unread, c.sent, e'.tasks, e'.out[|e.out|..], 0);
    }
  }

  lemma CoveredLocal(w: World, cs: C.Step, strays: set<C.ReqId>)
    requires Inv(w) && Alive(w, strays) && Enabled(w, Local(cs))
    ensures
      var w' := Apply(w, Local(cs));
      var left := Y.Left(w.client, w'.client, strays);
      w'.client.job ==> Covered(w'.client.pending - left, w'.client.sent, w'.engine.tasks, w'.engine.out[w'.seen..])
  {
    hide C.Apply, C.Enabled, C.Conserved, E.Inv, Tracked, Linked, AnswerIn, Manned;
    var c, d := w.client, C.Apply(w.client, cs);
    ClientEffect(c, cs);
    if d.job {
      assert Y.Left(c, d, strays) == strays;
    }
  }

  lemma CoveredAtClient(w: World, strays: set<C.ReqId>)
    requires Inv(w) && Alive(w, strays) && Enabled(w, Receive)
    ensures
      var w' := Apply(w, Receive);
      var left := Y.Left(w.client, w'.client, strays);
      w'.client.job ==> Covered(w'.client.pending - left, w'.client.sent, w'.engine.tasks, w'.engine.out[w'.seen..])
  {
    hide C.Receive, C.Conserved, E.Inv, Tracked, Routed, WatchersFit, Y.Loose, Manned, Covered;
    var c, m := w.client, w.engine.out[w.seen];
    var unread := w.engine.out[w.seen..];
    assert unread[0] == m && unread[1..] == w.engine.out[w.seen + 1..];
    AtTheClient(c, m);
    RoutedReceive(c.pending, c.sent, c.idSeq, w.engine.tasks, unread);
    var d := C.Receive(c, Translate(m));
    if d.job {
      CoveredReceive(c.pending - strays, c.sent, w.engine.tasks, unread, d.pending - Y.Left(c, d, strays));
    }
  }

  // ── every step keeps it ────────────────────────────────────────────────────

  ghost predicate Stops(s: Step) {
    s.Local? && s.cs.Stop?
  }

  /** The client's own step, if it takes one. */
  lemma LooseWorld(w: World, s: Step, strays: set<C.ReqId>)
    requires Inv(w) && Y.Loose(w.client, strays) && Enabled(w, s)
    ensures Y.Loose(Apply(w, s).client, Y.Left(w.client, Apply(w, s).client, strays))
    ensures s.Read? || s.Inside? ==> Y.Left(w.client, Apply(w, s).client, strays) == strays
  {
    hide C.Apply, E.Inv, Tracked, Linked, E.Apply, E.Accept, E.Enabled;
    match s
    case Local(cs) => Y.LooseStep(w.client, cs, strays);
    case Receive => Y.LooseStep(w.client, C.Deliver(Translate(w.engine.out[w.seen])), strays);
    case _ =>
  }

  lemma AliveStep(w: World, s: Step, strays: set<C.ReqId>)
    requires Inv(w) && Alive(w, strays) && Enabled(w, s)
    ensures Alive(Apply(w, s), Y.Left(w.client, Apply(w, s).client, strays))
  {
    assert Manned(E.START);
    LooseWorld(w, s, strays);
    hide C.Apply, C.Conserved, E.Inv, Tracked, Linked, Covered, Manned, Y.Loose, Y.Left, E.Apply, E.Accept, E.Enabled;
    match s
    case Local(cs) => CoveredLocal(w, cs, strays);
    case Read(req, request) => ReadAlive(w, req, request, strays);
    case Inside(es) =>
      MannedStep(w.engine, es);
      CoveredInside(w, es, strays);
    case Receive => CoveredAtClient(w, strays);
  }

  lemma ReadAlive(w: World, req: C.ReqId, request: E.Request, strays: set<C.ReqId>)
    requires Inv(w) && Alive(w, strays) && Enabled(w, Read(req, request))
    ensures
      var w' := Apply(w, Read(req, request));
      && Manned(w'.engine) && w'.seen <= |w'.engine.out|
      && Covered(w'.client.pending - strays, w'.client.sent, w'.engine.tasks, w'.engine.out[w'.seen..])
  {
    hide E.Inv, C.Conserved, Tracked, Covered, Manned, Y.Loose, Routed, WatchersFit, E.Accept;
    var c, e := w.client, w.engine;
    InPipe(c.pending, c.sent, c.idSeq, e.tasks, e.out[w.seen..], req);
    MannedStep(e, E.Submit(req, request));
    assert E.Apply(e, E.Submit(req, request)) == E.Accept(e, req, request);
    CoveredRead(c.pending - strays, c.sent, e, req, request, e.out[w.seen..]);
    assert E.Accept(e, req, request).out[w.seen..] == e.out[w.seen..] + E.Accept(e, req, request).out[|e.out|..];
  }

  /** The requests that the run has entered as pending without a daemon and that no teardown has failed
      since, `strays` being those it begins with. */
  ghost function StraysAfter(w: World, steps: seq<Step>, strays: set<C.ReqId>): set<C.ReqId>
    requires Runs(w, steps)
    decreases |steps|
  {
    if steps == [] then strays
    else StraysAfter(Apply(w, steps[0]), steps[1..], Y.Left(w.client, Apply(w, steps[0]).client, strays))
  }

  lemma {:induction false} AliveAlways(w: World, steps: seq<Step>, strays: set<C.ReqId>)
    requires Inv(w) && Alive(w, strays) && Runs(w, steps)
    ensures Inv(After(w, steps)) && Alive(After(w, steps), StraysAfter(w, steps, strays))
    decreases |steps|
  {
    hide Inv, Alive, Apply, Y.Left;
    if steps != [] {
      InvStep(w, steps[0]);
      AliveStep(w, steps[0], strays);
      AliveAlways(Apply(w, steps[0]), steps[1..], Y.Left(w.client, Apply(w, steps[0]).client, strays));
    }
  }

  // ── standing still ─────────────────────────────────────────────────────────

  /** Neither side can move on its own: no loop is running at the client, and a daemon that is there
      has nothing to read, to do or to deliver. (The user may still ask for something new, and the
      daemon may still exit.) */
  ghost predicate Still(w: World) {
    && w.client.stack == []
    && (forall s: Step :: s.Read? || s.Inside? || s.Receive? ==> !Enabled(w, s))
  }

  ghost predicate Drained(w: World) {
    && w.client.sent == map[] && w.seen == |w.engine.out| && w.engine.tasks == map[]
    && (forall c: nat :: c in w.engine.workers ==> w.engine.workers[c].phase.Closed?)
  }

  /** While a daemon has anything left to read, do or deliver, it can. */
  lemma SomethingMoves(w: World)
    requires E.Inv(w.engine) && w.client.job && w.client.stack == [] && w.seen <= |w.engine.out| && !Drained(w)
    ensures exists s: Step :: (s.Read? || s.Inside? || s.Receive?) && Enabled(w, s)
  {
    hide E.Inv, E.Enabled;
    X.NeverStuck(w.engine);
    if w.seen < |w.engine.out| {
      assert Enabled(w, Receive);
    } else if w.client.sent != map[] {
      var r := C.Pick(w.client.sent);
      assert Enabled(w, Read(r, if IsExecute(w.client.sent[r]) then E.Execute(0, true) else E.Hello));
    } else if w.engine.tasks != map[] {
      var r: nat :| r in w.engine.tasks;
      assert Enabled(w, Inside(E.Advance(r, Ok(()))));
    } else {
      var c: nat :| c in w.engine.workers && !w.engine.workers[c].phase.Closed?;
      var s: E.Step :| E.Enabled(w.engine, s) && !s.Submit? && !s.Advance?;
      assert Enabled(w, Inside(s));
    }
  }

  /** A call that is watched is with its worker, or about to be. */
  lemma WatchedIsManned(w: World, c: nat)
    requires E.Orderly(w.engine.out) && Manned(w.engine) && w.seen == |w.engine.out|
    requires WatchersFit(w.client.watchers, w.engine.out[..w.seen]) && c in w.client.watchers
    ensures E.Notices(w.engine.out, c) == 0 && (c in w.engine.workers || Handed(w.engine.tasks, c))
  {
    hide E.Orderly, E.Starts, E.Notices;
    assert w.engine.out[..w.seen] == w.engine.out;
  }

  lemma NoneCovered(pending: map<C.ReqId, C.Pending>, strays: set<C.ReqId>, sent: map<C.ReqId, C.Pending>,
                    tasks: map<E.ReqId, E.Task>, unread: seq<E.Message>)
    requires Covered(pending - strays, sent, tasks, unread) && sent == map[] && tasks == map[] && unread == []
    requires strays <= pending.Keys
    ensures pending.Keys == strays
  {
    forall r: nat | r in pending ensures r in strays {
      assert r !in pending - strays;
    }
  }

  /** A standstill owes the strays, and nothing else. */
  lemma StillOwesStrays(w: World, strays: set<C.ReqId>)
    requires Inv(w) && Alive(w, strays) && Still(w)
    ensures w.client.pending.Keys == strays && w.client.waiters == [] && w.client.watchers == map[]
    ensures forall r: C.ReqId :: r in w.client.pending ==> w.client.pending[r].Answer?
  {
    hide C.Conserved, Tracked, E.Bookkeeping, E.AnnouncementsFit, E.Orderly, Routed, Enabled, WatchersFit;
    if w.client.job {
      if !Drained(w) {
        SomethingMoves(w);
      }
      assert w.engine.out[w.seen..] == [];
      NoneCovered(w.client.pending, strays, w.client.sent, w.engine.tasks, w.engine.out[w.seen..]);
      forall c: nat ensures c !in w.client.watchers {
        if c in w.client.watchers {
          WatchedIsManned(w, c);
        }
      }
    }
  }

  lemma {:induction false} SomeCaller(m: map<C.ReqId, C.Pending>, t: C.Token)
    ensures C.InPending(m, t) > 0 <==> exists r: nat :: r in m && m[r].Answer? && m[r].caller.t == t
    decreases |m|
  {
    var f := (p: C.Pending) => C.One(p.Answer? && p.caller.t == t);
    if m != map[] {
      var k := C.Pick(m);
      SomeCaller(m - {k}, t);
      C.SumWithout(m, f, k);
      assert forall r: nat :: r in m <==> r == k || r in m - {k};
    }
  }

  /** Whose callback a stray holds. */
  ghost predicate IsStray(c: C.Client, strays: set<C.ReqId>, t: C.Token) {
    exists r: nat :: r in strays && r in c.pending && c.pending[r].Answer? && c.pending[r].caller.t == t
  }

  /** In every run of client and engine, whatever callbacks do: when nothing can move any more, the
      requests without an answer are exactly the strays, all others have been answered exactly once,
      and every call that began has been reported on exactly once. */
  lemma OnlyStraysAreLeft(steps: seq<Step>, t: C.Token)
    requires Runs(NEW_WORLD, steps)
    requires Still(After(NEW_WORLD, steps)) && t < After(NEW_WORLD, steps).client.issued
    ensures
      var c, strays := After(NEW_WORLD, steps).client, StraysAfter(NEW_WORLD, steps, {});
      && c.pending.Keys == strays
      && C.Answers(c.fired, t) == (if IsStray(c, strays, t) then 0 else 1)
      && Reports(c.fired, t) == Beginnings(c.fired, t) <= 1
  {
    assert Alive(NEW_WORLD, {});
    assert After(NEW_WORLD, steps).client.stack == [];
    hide Runs, After, Inv, Still, C.Answers, Reports, Beginnings, Alive;
    var c, strays := After(NEW_WORLD, steps).client, StraysAfter(NEW_WORLD, steps, {});
    StartFits();
    AliveAlways(NEW_WORLD, steps, {});
    StillOwesStrays(After(NEW_WORLD, steps), strays);
    EveryRequestHasOneEnd(steps, t);
    SomeCaller(c.pending, t);
    assert C.Owed(c, t) == C.InPending(c.pending, t);
  }

  /** So everyone has been answered exactly when there are no strays. */
  lemma AllAnsweredWithoutStrays(steps: seq<Step>)
    requires Runs(NEW_WORLD, steps) && Still(After(NEW_WORLD, steps))
    ensures
      var c := After(NEW_WORLD, steps).client;
      (forall t: C.Token :: t < c.issued ==> C.Answers(c.fired, t) == 1) <==> StraysAfter(NEW_WORLD, steps, {}) == {}
  {
    assert Alive(NEW_WORLD, {});
    hide Runs, After, Still, C.Answers, Alive, C.Conserved;
    var w, strays := After(NEW_WORLD, steps), StraysAfter(NEW_WORLD, steps, {});
    StartFits();
    AliveAlways(NEW_WORLD, steps, {});
    StillOwesStrays(w, strays);
    if strays == {} {
      forall t: C.Token | t < w.client.issued ensures C.Answers(w.client.fired, t) == 1 {
        OnlyStraysAreLeft(steps, t);
      }
    } else {
      var t := R.StrandedToken(w.client);
      assert C.Answers(w.client.fired, t) == 0;
    }
  }

  /** Whenever the daemon is stopped, no flush has a request left to send. */
  ghost predicate StopsStrandNothing(w: World, steps: seq<Step>)
    requires Runs(w, steps)
    decreases |steps|
  {
    steps != [] ==>
      && (Stops(steps[0]) ==> R.Issues(w.client.stack) == 0)
      && StopsStrandNothing(Apply(w, steps[0]), steps[1..])
  }

  lemma TidyWorld(w: World, s: Step)
    requires R.Tidy(w.client) && Enabled(w, s) && (Stops(s) ==> R.Issues(w.client.stack) == 0)
    ensures R.Tidy(Apply(w, s).client) && Y.Left(w.client, Apply(w, s).client, {}) == {}
  {
    assert R.Tidy(w.client.(sent := Apply(w, s).client.sent));
    hide C.Apply, E.Apply, E.Accept, E.Enabled, R.Issues;
    match s
    case Local(cs) =>
      R.TidyStep(w.client, cs);
      Y.TidyHasNone(w.client, cs);
    case Receive =>
      var deliver := C.Deliver(Translate(w.engine.out[w.seen]));
      R.TidyStep(w.client, deliver);
      Y.TidyHasNone(w.client, deliver);
    case _ =>
  }

  lemma {:induction false} NoStrays(w: World, steps: seq<Step>)
    requires R.Tidy(w.client) && Runs(w, steps) && StopsStrandNothing(w, steps)
    ensures StraysAfter(w, steps, {}) == {}
    decreases |steps|
  {
    hide R.Tidy, Apply, Enabled, R.Issues, Y.Left;
    if steps != [] {
      TidyWorld(w, steps[0]);
      NoStrays(Apply(w, steps[0]), steps[1..]);
    }
  }

  /** So in every run of client and engine in which no callback stops the daemon while a flush has a
      request left to send: when nothing can move any more, every request has been answered exactly
      once, and every call that began has been reported on exactly once. */
  lemma NothingIsLeftHanging(steps: seq<Step>, t: C.Token)
    requires Runs(NEW_WORLD, steps) && StopsStrandNothing(NEW_WORLD, steps)
    requires Still(After(NEW_WORLD, steps)) && t < After(NEW_WORLD, steps).client.issued
    ensures
      var c := After(NEW_WORLD, steps).client;
      C.Answers(c.fired, t) == 1 && Reports(c.fired, t) == Beginnings(c.fired, t) <= 1
  {
    assert R.Tidy(NEW_WORLD.client);
    hide Runs, After, StopsStrandNothing, Still, C.Answers, Reports, Beginnings, StraysAfter;
    NoStrays(NEW_WORLD, steps);
    OnlyStraysAreLeft(steps, t);
  }
}
