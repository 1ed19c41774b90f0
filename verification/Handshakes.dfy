/** One daemon at a time: callers who come while it starts wait for the handshake under way, and a teardown
    of a daemon that was ready fails its requests before it reports on its calls. */
module Handshakes {
  import opened Wrappers
  import opened RpcClient
  import opened ClientRuns

  ghost predicate Greets(pending: map<ReqId, Pending>, id: ReqId) {
    id in pending && pending[id].Hello?
  }

  /** A handshake is pending exactly while there is a daemon that is not ready, and then just one. */
  ghost predicate Shaking(c: Client) {
    && IdsFresh(c) && (c.ready ==> c.job)
    && (c.job && !c.ready <==> exists id: ReqId :: Greets(c.pending, id))
    && (forall i: ReqId, j: ReqId :: Greets(c.pending, i) && Greets(c.pending, j) ==> i == j)
  }

  /** The handshakes are what they were. */
  lemma SameHandshakes(c: Client, d: Client)
    requires Shaking(c) && d.job == c.job && d.ready == c.ready && IdsFresh(d)
    requires forall id: ReqId :: Greets(d.pending, id) <==> Greets(c.pending, id)
    ensures Shaking(d)
  {
  }

  lemma SendShakes(c: Client, caller: Caller)
    requires Shaking(c)
    ensures Shaking(SendRequest(c, Answer(caller)))
  {
    SameHandshakes(c, SendRequest(c, Answer(caller)));
  }

  lemma RunWaiterShakes(c: Client, w: Waiter, ok: bool)
    requires Shaking(c)
    ensures Shaking(RunWaiter(c, w, ok))
  {
    if w.Issue? && ok {
      SendShakes(c, w.caller);
    } else {
      SameHandshakes(c, RunWaiter(c, w, ok));
    }
  }

  lemma TeardownShakes(c: Client)
    ensures Shaking(Teardown(c))
  {
  }

  lemma HelloShakes(c: Client, reply: Reply)
    requires IdsFresh(c)
    requires GoodHello(reply) ==> c.job && forall id: ReqId :: !Greets(c.pending, id)
    ensures Shaking(HelloDone(c, reply))
  {
    hide Teardown;
    if !GoodHello(reply) {
      TeardownShakes(Push(c.(waiters := []), [RunWaiters(c.waiters, false)]));
    }
  }

  lemma CallShakes(c: Client, caller: Caller, reply: Reply)
    requires Shaking(c)
    ensures Shaking(Call(c, caller, reply))
  {
    SameHandshakes(c, Call(c, caller, reply));
  }

  lemma EnsureShakes(c: Client, w: Waiter, spawn: Spawn)
    requires Shaking(c)
    ensures Shaking(Ensure(c, w, spawn))
  {
    var c' := c.(issued := c.issued + 1);
    if c.ready && c.job {
      RunWaiterShakes(c', w, true);
    } else if c.job || !spawn.Spawned? {
      SameHandshakes(c, Ensure(c, w, spawn));
    } else {
      var d := Ensure(c, w, spawn);
      assert forall id: ReqId :: !Greets(c.pending, id);
      assert forall id: ReqId :: Greets(d.pending, id) ==> id == c.idSeq + 1 || Greets(c.pending, id);
      assert Greets(d.pending, c.idSeq + 1);
    }
  }

  lemma ReceiveShakes(c: Client, m: Message)
    requires Shaking(c)
    ensures Shaking(Receive(c, m))
  {
    hide HelloDone, Call;
    var d := Push(c.(depth := c.depth + 1), [EndDispatch]);
    if m.Response? && m.id in c.pending {
      var d' := d.(pending := c.pending - {m.id});
      if c.pending[m.id].Hello? {
        assert Greets(c.pending, m.id);
        assert forall id: ReqId :: Greets(d'.pending, id) ==> Greets(c.pending, id);
        HelloShakes(d', m.reply);
      } else {
        SameHandshakes(c, d');
        CallShakes(d', c.pending[m.id].caller, m.reply);
      }
    } else {
      SameHandshakes(c, Receive(c, m));
    }
  }

  lemma TurnShakes(c: Client, choice: nat)
    requires Shaking(c) && Enabled(c, Loop(choice))
    ensures Shaking(Turn(c, choice))
  {
    hide Turn, HelloDone, Call, RunWaiter, Shaking;
    var rest := c.(stack := c.stack[1..]);
    if c.stack[0].RunWaiters? {
      TurnRuns(c, choice);
      var ws, ok := c.stack[0].waiters, c.stack[0].ok;
      OnlyStack(c, rest);
      if ws != [] {
        OnlyStack(c, Push(rest, [RunWaiters(ws[1..], ok)]));
        RunWaiterShakes(Push(rest, [RunWaiters(ws[1..], ok)]), ws[0], ok);
      }
    } else if c.stack[0].FailPending? {
      TurnFails(c, choice);
      var dead: map<ReqId, Pending> := c.stack[0].dead;
      OnlyStack(c, rest);
      if dead != map[] {
        var c' := Push(rest, [FailPending(dead - {choice})]);
        OnlyStack(c, c');
        HelloShakes(c', Bad);
        if dead[choice].Answer? {
          CallShakes(c', dead[choice].caller, Bad);
        }
      }
    } else {
      TurnOther(c, choice);
      OnlyStack(c, Turn(c, choice));
    }
  }

  lemma OnlyStack(c: Client, d: Client)
    requires Shaking(c) && d.job == c.job && d.ready == c.ready && d.pending == c.pending && d.idSeq == c.idSeq
    ensures Shaking(d)
  {
  }

  lemma StepShakes(c: Client, s: Step)
    requires Shaking(c) && Enabled(c, s)
    ensures Shaking(Apply(c, s))
  {
    hide Shaking, Ensure, Teardown, Receive, Turn;
    match s
    case Request(execute, spawn) =>
      EnsureShakes(c, Issue(if execute then Execute(c.issued) else Plain(c.issued)), spawn);
    case EnsureOnly(spawn) => EnsureShakes(c, Await(c.issued), spawn);
    case Stop => TeardownShakes(c);
    case Deliver(m) => ReceiveShakes(c, m);
    case Exit => TeardownShakes(c);
    case Loop(choice) => TurnShakes(c, choice);
  }

  lemma {:induction false} ShakingAlways(c: Client, steps: seq<Step>)
    requires Shaking(c) && Runs(c, steps)
    ensures Shaking(After(c, steps))
    decreases |steps|
  {
    hide Shaking, Apply, Enabled;
    if steps != [] {
      StepShakes(c, steps[0]);
      ShakingAlways(Apply(c, steps[0]), steps[1..]);
    }
  }

  /** In every run, whatever callbacks do: a handshake is pending exactly while there is a daemon that is not
      ready, and never a second one; so whoever asks while a daemon starts waits for the one under way. */
  lemma OneHandshake(steps: seq<Step>)
    requires Runs(NEW_CLIENT, steps)
    ensures
      var c := After(NEW_CLIENT, steps);
      && (c.ready ==> c.job)
      && (c.job && !c.ready <==> exists id: ReqId :: id in c.pending && c.pending[id].Hello?)
      && (forall i: ReqId, j: ReqId ::
            i in c.pending && c.pending[i].Hello? && j in c.pending && c.pending[j].Hello? ==> i == j)
  {
    assert Shaking(NEW_CLIENT);
    hide Runs, After;
    ShakingAlways(NEW_CLIENT, steps);
    var c := After(NEW_CLIENT, steps);
    assert forall id: ReqId :: Greets(c.pending, id) <==> id in c.pending && c.pending[id].Hello?;
    if exists id: ReqId :: Greets(c.pending, id) {
      var id: ReqId :| Greets(c.pending, id);
      assert id in c.pending && c.pending[id].Hello?;
    }
  }

  // ── the order of a teardown ────────────────────────────────────────────────

  /** Calls are reported on after everything else. */
  ghost predicate ReportsLast(events: seq<Event>) {
    forall i, j :: 0 <= i < j < |events| && events[i].Reported? ==> events[j].Reported?
  }

  ghost predicate NoReports(events: seq<Event>) {
    forall i :: 0 <= i < |events| ==> !events[i].Reported?
  }

  predicate Plainly(dead: map<ReqId, Pending>) {
    forall id: ReqId :: id in dead ==> dead[id].Answer?
  }

  /** How far the loops of the teardown are, with `events` told so far. */
  ghost predicate Failing(c: Client, events: seq<Event>) {
    && c.waiters == []
    && (match |c.stack|
        case 0 => ReportsLast(events)
        case 1 =>
          if c.stack[0].RunWatchers? then ReportsLast(events) else c.stack[0] == FailWatchers && NoReports(events)
        case 2 =>
          NoReports(events) && c.stack[0] in {FailWaiters, RunWaiters([], false)} && c.stack[1] == FailWatchers
        case 3 =>
          && NoReports(events) && c.stack[0].FailPending? && Plainly(c.stack[0].dead)
          && c.stack[1] == FailWaiters && c.stack[2] == FailWatchers
        case _ => false)
  }

  lemma CallFails(c: Client, caller: Caller)
    ensures
      var d := Call(c, caller, Bad);
      && d.stack == c.stack && d.waiters == c.waiters
      && d.fired == c.fired + [if caller.Execute? then Refused(caller.t) else Answered(caller.t, false)]
  {
  }

  lemma FailsOne(c: Client, choice: nat, events: seq<Event>)
    requires Failing(c, events) && Enabled(c, Loop(choice)) && c.stack[0].FailPending?
    ensures
      var d := Turn(c, choice);
      (d.fired == c.fired && Failing(d, events))
      || (exists e :: d.fired == c.fired + [e] && Failing(d, events + [e]))
  {
    hide HelloDone, RunWaiter, Call, Turn;
    TurnFails(c, choice);
    var dead: map<ReqId, Pending> := c.stack[0].dead;
    if dead != map[] {
      CallFails(Push(c.(stack := c.stack[1..]), [FailPending(dead - {choice})]), dead[choice].caller);
      var d := Turn(c, choice);
      var e := d.fired[|c.fired|];
      assert d.fired == c.fired + [e] && Failing(d, events + [e]);
    }
  }

  lemma TurnsOn(c: Client, choice: nat, events: seq<Event>)
    requires Failing(c, events) && Enabled(c, Loop(choice)) && !c.stack[0].FailPending?
    ensures
      var d := Turn(c, choice);
      (d.fired == c.fired && Failing(d, events))
      || (exists e :: d.fired == c.fired + [e] && Failing(d, events + [e]))
  {
    hide HelloDone, RunWaiter, Call;
    var d := Turn(c, choice);
    if c.stack[0].RunWatchers? && c.stack[0].watched != map[] {
      var e := Reported(c.stack[0].watched[choice]);
      assert d.fired == c.fired + [e] && Failing(d, events + [e]);
    }
  }

  lemma FailingStep(c: Client, choice: nat, was: seq<Event>, events: seq<Event>)
    requires Failing(c, events) && c.fired == was + events && Enabled(c, Loop(choice))
    ensures
      var d := Turn(c, choice);
      was <= d.fired && Failing(d, d.fired[|was|..])
  {
    var d := Turn(c, choice);
    hide Failing, Turn;
    if c.stack[0].FailPending? {
      FailsOne(c, choice, events);
    } else {
      TurnsOn(c, choice, events);
    }
    if d.fired == c.fired && Failing(d, events) {
      assert d.fired[|was|..] == events;
    } else {
      var e :| d.fired == c.fired + [e] && Failing(d, events + [e]);
      assert d.fired == was + (events + [e]);
    }
  }

  lemma {:induction false} FailingRuns(c: Client, steps: seq<Step>, was: seq<Event>)
    requires was <= c.fired && Failing(c, c.fired[|was|..]) && Runs(c, steps) && OnlyLoops(steps)
    ensures was <= After(c, steps).fired && Failing(After(c, steps), After(c, steps).fired[|was|..])
    decreases |steps|
  {
    hide Failing, Turn;
    if steps != [] {
      assert c.fired == was + c.fired[|was|..];
      FailingStep(c, steps[0].choice, was, c.fired[|was|..]);
      FailingRuns(Apply(c, steps[0]), steps[1..], was);
    }
  }

  /** When the daemon is stopped or exits between events, with no handshake under way and no one waiting for
      one, in whatever order the tables are walked: every request is told of its failure before any call is
      reported on. */
  lemma RequestsFailFirst(c: Client, s: Step, steps: seq<Step>)
    requires Ends(s) && c.stack == [] && c.waiters == [] && Plainly(c.pending)
    requires Runs(Apply(c, s), steps) && OnlyLoops(steps) && After(Apply(c, s), steps).stack == []
    ensures
      var last := After(Apply(c, s), steps);
      c.fired <= last.fired && ReportsLast(last.fired[|c.fired|..])
  {
    var d := Apply(c, s);
    assert d.stack == [FailPending(c.pending), FailWaiters, FailWatchers] && d.fired[|c.fired|..] == [];
    FailingRuns(d, steps, c.fired);
  }

  // ── the order of a failed handshake ────────────────────────────────────────

  /** How far the loops of a failed handshake are; `ws` waited for it. */
  ghost predicate Clearing(c: Client, ws: seq<Waiter>) {
    && !c.job && c.waiters == [] && c.pending == map[]
    && (match |c.stack|
        case 5 =>
          && c.stack[0].FailPending? && Plainly(c.stack[0].dead)
          && c.stack[1..] == [FailWaiters, FailWatchers, RunWaiters(ws, false), EndDispatch]
        case 4 =>
          && c.stack[0] in {FailWaiters, RunWaiters([], false)}
          && c.stack[1..] == [FailWatchers, RunWaiters(ws, false), EndDispatch]
        case 3 =>
          && (c.stack[0] == FailWatchers || (c.stack[0].RunWatchers? && c.watchers == map[]))
          && c.stack[1..] == [RunWaiters(ws, false), EndDispatch]
        case 2 =>
          c.stack[0].RunWaiters? && !c.stack[0].ok && c.stack[1] == EndDispatch && c.watchers == map[]
        case 1 => c.stack == [EndDispatch] && c.watchers == map[]
        case 0 => c.watchers == map[]
        case _ => false)
  }

  lemma ClearsPending(c: Client, choice: nat, ws: seq<Waiter>)
    requires Clearing(c, ws) && Enabled(c, Loop(choice)) && c.stack[0].FailPending?
    ensures Clearing(Turn(c, choice), ws)
  {
    hide HelloDone, RunWaiter, Call, Turn;
    TurnFails(c, choice);
    var dead: map<ReqId, Pending> := c.stack[0].dead;
    if dead != map[] {
      FailedCallKeeps(Push(c.(stack := c.stack[1..]), [FailPending(dead - {choice})]), dead[choice].caller);
    }
  }

  lemma ClearsWaiters(c: Client, choice: nat, ws: seq<Waiter>)
    requires Clearing(c, ws) && Enabled(c, Loop(choice)) && c.stack[0].RunWaiters?
    ensures Clearing(Turn(c, choice), ws)
  {
    hide HelloDone, RunWaiter, Call, Turn;
    TurnRuns(c, choice);
    var left := c.stack[0].waiters;
    if left != [] {
      RunWaiterKeeps(Push(c.(stack := c.stack[1..]), [RunWaiters(left[1..], false)]), left[0], false);
    }
  }

  lemma ClearsOther(c: Client, choice: nat, ws: seq<Waiter>)
    requires Clearing(c, ws) && Enabled(c, Loop(choice)) && !c.stack[0].RunWaiters? && !c.stack[0].FailPending?
    ensures Clearing(Turn(c, choice), ws)
  {
    hide Turn;
    TurnOther(c, choice);
  }

  lemma {:induction false} ClearingRuns(c: Client, steps: seq<Step>, ws: seq<Waiter>)
    requires Clearing(c, ws) && Runs(c, steps) && OnlyLoops(steps)
    ensures Clearing(After(c, steps), ws)
    decreases |steps|
  {
    hide Clearing, Turn;
    if steps != [] {
      if c.stack[0].FailPending? {
        ClearsPending(c, steps[0].choice, ws);
      } else if c.stack[0].RunWaiters? {
        ClearsWaiters(c, steps[0].choice, ws);
      } else {
        ClearsOther(c, steps[0].choice, ws);
      }
      ClearingRuns(Apply(c, steps[0]), steps[1..], ws);
    }
  }

  lemma {:induction false} IsWaiting(ws: seq<Waiter>, w: Waiter)
    requires w in ws
    ensures InWaiters(ws, OwnerOf(w)) > 0
  {
    var n := |ws| - 1;
    if ws[n] != w {
      assert ws == ws[..n] + [ws[n]];
      IsWaiting(ws[..n], w);
    }
  }

  lemma {:induction false} InOneFrame(stack: seq<Frame>, i: nat, t: Token)
    requires i < |stack|
    ensures InStack(stack, t) >= InFrame(stack[i], t)
  {
    if i > 0 {
      InOneFrame(stack[1..], i - 1, t);
    }
  }

  /** Whoever waited for a handshake that fails is told when all else has been torn down: there is no daemon,
      and no table holds anything. */
  lemma WaitersAreToldLast(c: Client, id: ReqId, reply: Reply, steps: seq<Step>, w: Waiter)
    requires Conserved(c) && c.stack == [] && id in c.pending && c.pending[id].Hello? && Plainly(c.pending - {id})
    requires !(reply.Table? && reply.proto.Some? && reply.proto.value >= 1) && w in c.waiters
    requires Runs(Apply(c, Deliver(Response(id, reply))), steps) && OnlyLoops(steps)
    ensures
      var last := After(Apply(c, Deliver(Response(id, reply))), steps);
      Answers(last.fired, OwnerOf(w)) > 0 ==>
        !last.job && last.pending == map[] && last.waiters == [] && last.watchers == map[]
  {
    var s := Deliver(Response(id, reply));
    var d := Apply(c, s);
    assert d.stack[1..] == [FailWaiters, FailWatchers, RunWaiters(c.waiters, false), EndDispatch];
    assert Clearing(d, c.waiters);
    StepConserves(c, s);
    hide Runs, After, Answers, InWaiters, InPending, InStack, Apply;
    ClearingRuns(d, steps, c.waiters);
    ConservedAlways(d, steps);
    var last, t := After(d, steps), OwnerOf(w);
    assert Total(last, t) == One(t < last.issued);
    if |last.stack| > 2 {
      var i := |last.stack| - 2;
      assert last.stack[i] == last.stack[1..][i - 1] == RunWaiters(c.waiters, false);
      IsWaiting(c.waiters, w);
      InOneFrame(last.stack, i, t);
    }
  }
}
