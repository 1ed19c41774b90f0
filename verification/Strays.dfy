/** Requests entered as pending while there is no daemon. Nothing is sent for them and no daemon answers
    them: they stay until a teardown fails them. */
module Strays {
  import opened RpcClient
  import opened ClientRuns

  /** The strays after a step from `c` to `d`: a request entered without a daemon becomes one, and whatever
      leaves the pending table is none any more. */
  function Left(c: Client, d: Client, strays: set<ReqId>): set<ReqId> {
    (strays + if !c.job && !d.job && d.idSeq > c.idSeq then {d.idSeq} else {}) * d.pending.Keys
  }

  /** In every state, strays aside: without a job nothing is pending; a job that is not ready has a
      handshake under way; and whoever waits, waits for that handshake or for a running teardown. */
  ghost predicate Loose(c: Client, strays: set<ReqId>) {
    && strays <= c.pending.Keys && (forall id :: id in strays ==> c.pending[id].Answer?)
    && (!c.job ==> c.pending.Keys == strays)
    && (if c.ready then c.job else c.job ==> Greeting(c.pending))
    && (c.waiters != [] ==> FailWaiters in c.stack || (c.job && !c.ready))
  }

  lemma LooseTeardown(c: Client, strays: set<ReqId>)
    ensures Loose(Teardown(c), Left(c, Teardown(c), strays)) && Left(c, Teardown(c), strays) == {}
  {
    TeardownFrames(c);
    TeardownFields(c);
  }

  /** A failed handshake is torn down, a good one leaves the pending table alone. */
  lemma LooseHello(c: Client, reply: Reply, strays: set<ReqId>)
    requires strays <= c.pending.Keys && (forall id :: id in strays ==> c.pending[id].Answer?)
    requires GoodHello(reply) ==> c.job
    ensures Loose(HelloDone(c, reply), strays * HelloDone(c, reply).pending.Keys)
    ensures HelloDone(c, reply).idSeq == c.idSeq
  {
    hide Teardown;
    var torn := Push(c.(waiters := []), [RunWaiters(c.waiters, false)]);
    LooseTeardown(torn, strays);
    TeardownFields(torn);
    TeardownIds(torn);
  }

  lemma TeardownIds(c: Client)
    ensures Teardown(c).idSeq == c.idSeq
  {
  }

  lemma LooseSent(c: Client, p: Pending, strays: set<ReqId>)
    requires Loose(c, strays) && IdsFresh(c) && p.Answer?
    ensures Loose(SendRequest(c, p), Left(c, SendRequest(c, p), strays))
  {
    var d := SendRequest(c, p);
    assert c.job ==> Left(c, d, strays) == strays;
    assert !c.job ==> Left(c, d, strays) == strays + {d.idSeq};
    assert forall id :: id in c.pending ==> id in d.pending && d.pending[id] == c.pending[id];
  }

  lemma LooseTold(c: Client, w: Waiter, ok: bool, strays: set<ReqId>)
    requires Loose(c, strays) && IdsFresh(c)
    ensures Loose(RunWaiter(c, w, ok), Left(c, RunWaiter(c, w, ok), strays))
  {
    hide Loose, Greeting;
    if w.Issue? && ok {
      LooseSent(c, Answer(w.caller), strays);
    } else {
      LooseSame(c, RunWaiter(c, w, ok), strays);
    }
  }

  /** Nothing the rules speak of has changed but the stack, which has kept what it is to flush. */
  lemma LooseSame(c: Client, d: Client, strays: set<ReqId>)
    requires Loose(c, strays) && d.job == c.job && d.ready == c.ready && d.pending == c.pending
    requires d.idSeq == c.idSeq
    requires d.waiters == [] || (d.waiters == c.waiters && (FailWaiters in c.stack ==> FailWaiters in d.stack))
    ensures Loose(d, Left(c, d, strays)) && Left(c, d, strays) == strays
  {
  }

  lemma LooseEnsure(c: Client, w: Waiter, spawn: Spawn, strays: set<ReqId>)
    requires Loose(c, strays) && IdsFresh(c)
    ensures Loose(Ensure(c, w, spawn), Left(c, Ensure(c, w, spawn), strays))
  {
    var d := Ensure(c, w, spawn);
    if c.ready && c.job {
      var c' := c.(issued := c.issued + 1);
      assert Loose(c', strays) && IdsFresh(c');
      LooseTold(c', w, true, strays);
    } else if !c.job && spawn.Spawned? {
      assert d.pending[d.idSeq] == Hello && Left(c, d, strays) == strays;
      assert forall id :: id in c.pending ==> id in d.pending && d.pending[id] == c.pending[id];
    } else {
      assert Left(c, d, strays) == strays;
    }
  }

  lemma LooseReceive(c: Client, m: Message, strays: set<ReqId>)
    requires Loose(c, strays) && c.stack == []
    ensures Loose(Receive(c, m), Left(c, Receive(c, m), strays))
  {
    hide HelloDone;
    var d := Push(c.(depth := c.depth + 1), [EndDispatch]);
    if m.Response? && m.id in c.pending {
      var left := strays - {m.id};
      if c.pending[m.id].Hello? {
        var d' := d.(pending := c.pending - {m.id});
        LooseHello(d', m.reply, left);
        assert Left(c, Receive(c, m), strays) == left * HelloDone(d', m.reply).pending.Keys;
      } else {
        StillGreeting(c.pending, m.id);
        assert Left(c, Receive(c, m), strays) == left;
      }
    } else {
      LooseSame(c, Receive(c, m), strays);
    }
  }

  lemma LooseRun(c: Client, choice: nat, strays: set<ReqId>)
    requires Loose(c, strays) && IdsFresh(c) && Enabled(c, Loop(choice)) && c.stack[0].RunWaiters?
    ensures Loose(Turn(c, choice), Left(c, Turn(c, choice), strays))
  {
    hide Turn, RunWaiter, Greeting;
    TurnRuns(c, choice);
    var ws, ok := c.stack[0].waiters, c.stack[0].ok;
    var rest := c.(stack := c.stack[1..]);
    assert c.stack == [c.stack[0]] + c.stack[1..];
    if ws == [] {
      LooseSame(c, rest, strays);
    } else {
      var c' := Push(rest, [RunWaiters(ws[1..], ok)]);
      LooseSame(c, c', strays);
      LooseTold(c', ws[0], ok, strays);
    }
  }

  lemma LooseFail(c: Client, choice: nat, strays: set<ReqId>)
    requires Loose(c, strays) && Enabled(c, Loop(choice)) && c.stack[0].FailPending?
    ensures Loose(Turn(c, choice), Left(c, Turn(c, choice), strays))
  {
    hide Turn, HelloDone, Call, Greeting;
    TurnFails(c, choice);
    var dead: map<ReqId, Pending> := c.stack[0].dead;
    var rest := c.(stack := c.stack[1..]);
    assert c.stack == [c.stack[0]] + c.stack[1..];
    if dead == map[] {
      LooseSame(c, rest, strays);
    } else {
      var c' := Push(rest, [FailPending(dead - {choice})]);
      if dead[choice].Hello? {
        LooseHello(c', Bad, strays);
      } else {
        FailedCallKeeps(c', dead[choice].caller);
        LooseSame(c, Turn(c, choice), strays);
      }
    }
  }

  lemma LooseOther(c: Client, choice: nat, strays: set<ReqId>)
    requires Loose(c, strays) && Enabled(c, Loop(choice)) && !c.stack[0].FailPending? && !c.stack[0].RunWaiters?
    ensures Loose(Turn(c, choice), Left(c, Turn(c, choice), strays))
  {
    hide Turn, Greeting;
    TurnOther(c, choice);
    assert c.stack == [c.stack[0]] + c.stack[1..];
    LooseSame(c, Turn(c, choice), strays);
  }

  /** Every event keeps the rules, strays aside; no event is excepted. */
  lemma LooseStep(c: Client, s: Step, strays: set<ReqId>)
    requires Loose(c, strays) && IdsFresh(c) && Enabled(c, s)
    ensures Loose(Apply(c, s), Left(c, Apply(c, s), strays))
  {
    hide Loose, Left, Ensure, Teardown, Receive, Turn;
    match s
    case Request(execute, spawn) =>
      LooseEnsure(c, Issue(if execute then Execute(c.issued) else Plain(c.issued)), spawn, strays);
    case EnsureOnly(spawn) => LooseEnsure(c, Await(c.issued), spawn, strays);
    case Stop => LooseTeardown(c, strays);
    case Deliver(m) => LooseReceive(c, m, strays);
    case Exit => LooseTeardown(c, strays);
    case Loop(choice) =>
      if c.stack[0].RunWaiters? {
        LooseRun(c, choice, strays);
      } else if c.stack[0].FailPending? {
        LooseFail(c, choice, strays);
      } else {
        LooseOther(c, choice, strays);
      }
  }

  /** A tidy client gets no strays. */
  lemma TidyHasNone(c: Client, s: Step)
    requires Tidy(c) && Enabled(c, s) && Tidy(Apply(c, s))
    ensures Left(c, Apply(c, s), {}) == {}
  {
    if !Apply(c, s).job {
      assert Apply(c, s).pending == map[];
    }
  }
}
