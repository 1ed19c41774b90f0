/** What callbacks are told. Success is told exactly when it has been earned: by a response without an error
    to the request, by a daemon that is ready, or by a good handshake; a failed spawn, a failed handshake or
    a teardown tells failure. */
module Told {
  import opened Wrappers
  import opened RpcClient
  import opened ClientRuns

  /** A success, as its callback sees it. */
  predicate Success(e: Event) {
    match e
    case Ensured(_, ok) => ok
    case Answered(_, ok) => ok
    case Began(_, _) => true
    case _ => false
  }

  /** The message answers the pending request `p`, with `reply`. */
  predicate Brings(c: Client, s: Step, p: Pending, reply: Reply) {
    s.Deliver? && s.m.Response? && s.m.id in c.pending && c.pending[s.m.id] == p && s.m.reply == reply
  }

  /** What earns a success. */
  ghost predicate Earns(c: Client, s: Step, e: Event) {
    match e
    case Answered(t, _) => exists reply: Reply :: Brings(c, s, Answer(Plain(t)), reply) && !reply.Bad?
    case Began(t, call) => exists proto: Option<int> :: Brings(c, s, Answer(Execute(t)), Table(proto, call))
    case Ensured(t, _) =>
      || (s.EnsureOnly? && c.job && c.ready && c.issued == t)
      || (Await(t) in c.waiters
          && exists v: int, call: CallId :: Brings(c, s, Hello, Table(Some(v), call)) && v >= 1)
    case _ => false
  }

  /** A good handshake's flush has still to tell `t`. */
  predicate InFlush(stack: seq<Frame>, t: Token) {
    exists i :: 0 <= i < |stack| && stack[i].RunWaiters? && stack[i].ok && Await(t) in stack[i].waiters
  }

  ghost predicate Promised(c: Client, e: Event) {
    e.Ensured? && InFlush(c.stack, e.t)
  }

  lemma FlushPushed(f: Frame, stack: seq<Frame>, t: Token)
    ensures InFlush([f] + stack, t) <==> (f.RunWaiters? && f.ok && Await(t) in f.waiters) || InFlush(stack, t)
  {
    var all := [f] + stack;
    if InFlush(stack, t) {
      var i :| 0 <= i < |stack| && stack[i].RunWaiters? && stack[i].ok && Await(t) in stack[i].waiters;
      assert all[i + 1] == stack[i];
    }
    assert all[0] == f;
    if InFlush(all, t) {
      var i :| 0 <= i < |all| && all[i].RunWaiters? && all[i].ok && Await(t) in all[i].waiters;
      assert i > 0 ==> all[i] == stack[i - 1];
    }
  }

  /** What a step must respect: a success it tells is earned or was promised, a promise it makes is earned,
      what is earned is told or promised, and promises are kept. */
  ghost predicate Honest(c: Client, s: Step, d: Client, e: Event) {
    && (forall f :: f in c.fired ==> f in d.fired)
    && (e in d.fired ==> e in c.fired || Earns(c, s, e) || Promised(c, e))
    && (Promised(d, e) ==> Earns(c, s, e) || Promised(c, e))
    && (Earns(c, s, e) || Promised(c, e) ==> e in d.fired || Promised(d, e))
  }

  /** A step that tells no success and leaves the flushes alone. */
  lemma NothingTold(c: Client, s: Step, d: Client, e: Event)
    requires Success(e) && !Earns(c, s, e)
    requires d.fired == c.fired || exists f: Event :: d.fired == c.fired + [f] && !Success(f)
    requires forall t: Token :: InFlush(d.stack, t) <==> InFlush(c.stack, t)
    ensures Honest(c, s, d, e)
  {
  }

  lemma TeardownFlush(c: Client, t: Token)
    ensures InFlush(Teardown(c).stack, t) <==> InFlush(c.stack, t)
  {
    var s1 := [FailWatchers] + c.stack;
    var s2 := [FailWaiters] + s1;
    FlushPushed(FailWatchers, c.stack, t);
    FlushPushed(FailWaiters, s1, t);
    FlushPushed(FailPending(c.pending), s2, t);
    assert Teardown(c).stack == [FailPending(c.pending)] + s2;
  }

  lemma TeardownTells(c: Client, s: Step, e: Event)
    requires Success(e) && (s.Stop? || s.Exit?)
    ensures Honest(c, s, Teardown(c), e)
  {
    forall t: Token ensures InFlush(Teardown(c).stack, t) <==> InFlush(c.stack, t) {
      TeardownFlush(c, t);
    }
    assert Teardown(c).fired == c.fired;
    hide Teardown, InFlush;
    NothingTold(c, s, Teardown(c), e);
  }

  lemma EnsureTells(c: Client, s: Step, w: Waiter, spawn: Spawn, e: Event)
    requires Success(e)
    requires (s == EnsureOnly(spawn) && w == Await(c.issued)) || (s.Request? && w.Issue?)
    ensures Honest(c, s, Ensure(c, w, spawn), e)
  {
    var d := Ensure(c, w, spawn);
    if c.ready && c.job {
      assert d.stack == c.stack;
      assert d.fired == if w.Await? then c.fired + [Ensured(w.t, true)] else c.fired;
    } else {
      assert d.fired == c.fired;
      forall t: Token ensures InFlush(d.stack, t) <==> InFlush(c.stack, t) {
        FlushPushed(RunWaiters(c.waiters + [w], false), c.stack, t);
      }
      hide InFlush, Ensure;
      NothingTold(c, s, d, e);
    }
  }

  lemma HelloTells(c: Client, reply: Reply, t: Token)
    ensures HelloDone(c, reply).fired == c.fired
    ensures InFlush(HelloDone(c, reply).stack, t) <==>
            InFlush(c.stack, t) || (GoodHello(reply) && Await(t) in c.waiters)
  {
    var c' := c.(waiters := []);
    FlushPushed(RunWaiters(c.waiters, GoodHello(reply)), c.stack, t);
    if !GoodHello(reply) {
      TeardownFlush(Push(c', [RunWaiters(c.waiters, false)]), t);
      assert Teardown(Push(c', [RunWaiters(c.waiters, false)])).fired == c.fired;
    }
  }

  lemma CallTells(c: Client, caller: Caller, reply: Reply)
    ensures
      var d := Call(c, caller, reply);
      && d.stack == c.stack
      && d.fired == c.fired + [
           match caller
           case Plain(t) => Answered(t, !reply.Bad?)
           case Execute(t) => if reply.Table? then Began(t, reply.call) else Refused(t)]
  {
  }

  lemma ReceiveTells(c: Client, m: Message, e: Event)
    requires Success(e)
    ensures Honest(c, Deliver(m), Receive(c, m), e)
  {
    var s := Deliver(m);
    var d := Push(c.(depth := c.depth + 1), [EndDispatch]);
    forall t: Token ensures InFlush(d.stack, t) <==> InFlush(c.stack, t) {
      FlushPushed(EndDispatch, c.stack, t);
    }
    if m.Response? && m.id in c.pending {
      var d', reply := d.(pending := c.pending - {m.id}), m.reply;
      if c.pending[m.id].Hello? {
        HelloReceived(c, m, e, d');
      } else {
        AnswerReceived(c, m, e, d');
      }
    } else {
      assert !Earns(c, s, e);
      assert Receive(c, m).stack == d.stack;
      assert Receive(c, m).fired == c.fired
             || (m.QueryState? && Receive(c, m).fired == c.fired + [Reported(c.watchers[m.call])]);
      hide InFlush, Receive;
      NothingTold(c, s, Receive(c, m), e);
    }
  }

  lemma HelloReceived(c: Client, m: Message, e: Event, d: Client)
    requires Success(e) && m.Response? && m.id in c.pending && c.pending[m.id].Hello?
    requires d == Push(c.(depth := c.depth + 1), [EndDispatch]).(pending := c.pending - {m.id})
    requires forall t: Token :: InFlush(d.stack, t) <==> InFlush(c.stack, t)
    ensures Honest(c, Deliver(m), Receive(c, m), e)
  {
    var s, reply := Deliver(m), m.reply;
    assert Receive(c, m) == HelloDone(d, reply);
    forall t: Token
      ensures InFlush(HelloDone(d, reply).stack, t) <==>
              InFlush(c.stack, t) || (GoodHello(reply) && Await(t) in c.waiters)
    {
      HelloTells(d, reply, t);
    }
    HelloTells(d, reply, 0);
    assert GoodHello(reply) ==> Brings(c, s, Hello, Table(Some(reply.proto.value), reply.call));
    assert e.Ensured? ==> (Earns(c, s, e) <==> GoodHello(reply) && Await(e.t) in c.waiters);
    assert !e.Ensured? ==> !Earns(c, s, e);
    hide InFlush, Receive, HelloDone, Earns;
  }

  lemma AnswerReceived(c: Client, m: Message, e: Event, d: Client)
    requires Success(e) && m.Response? && m.id in c.pending && c.pending[m.id].Answer?
    requires d == Push(c.(depth := c.depth + 1), [EndDispatch]).(pending := c.pending - {m.id})
    requires forall t: Token :: InFlush(d.stack, t) <==> InFlush(c.stack, t)
    ensures Honest(c, Deliver(m), Receive(c, m), e)
  {
    var s, reply, caller := Deliver(m), m.reply, c.pending[m.id].caller;
    assert Receive(c, m) == Call(d, caller, reply);
    CallTells(d, caller, reply);
    assert Brings(c, s, Answer(caller), reply);
    hide InFlush, Receive, Call;
    match caller {
      case Plain(t) => assert Earns(c, s, e) <==> e == Answered(t, true) && !reply.Bad?;
      case Execute(t) => assert Earns(c, s, e) <==> reply.Table? && e == Began(t, reply.call);
    }
  }

  lemma TurnTells(c: Client, choice: nat, e: Event)
    requires Success(e) && Enabled(c, Loop(choice))
    ensures Honest(c, Loop(choice), Turn(c, choice), e)
  {
    assert c.stack == [c.stack[0]] + c.stack[1..];
    assert !Earns(c, Loop(choice), e);
    hide InFlush, Turn, Honest, Earns;
    if c.stack[0].RunWaiters? {
      RunTells(c, choice, e);
    } else if c.stack[0].FailPending? {
      FailTells(c, choice, e);
    } else {
      OtherTells(c, choice, e);
    }
  }

  lemma RunTells(c: Client, choice: nat, e: Event)
    requires Success(e) && Enabled(c, Loop(choice)) && c.stack[0].RunWaiters? && !Earns(c, Loop(choice), e)
    ensures Honest(c, Loop(choice), Turn(c, choice), e)
  {
    TurnRuns(c, choice);
    var rest, ws, ok := c.(stack := c.stack[1..]), c.stack[0].waiters, c.stack[0].ok;
    assert c.stack == [c.stack[0]] + rest.stack;
    hide InFlush, Turn, Earns;
    forall t: Token
      ensures InFlush(c.stack, t) <==> (ok && Await(t) in ws) || InFlush(rest.stack, t)
      ensures ws != [] ==>
                (InFlush([RunWaiters(ws[1..], ok)] + rest.stack, t) <==>
                 (ok && Await(t) in ws[1..]) || InFlush(rest.stack, t))
    {
      FlushPushed(c.stack[0], rest.stack, t);
      if ws != [] {
        FlushPushed(RunWaiters(ws[1..], ok), rest.stack, t);
      }
    }
    if ws != [] {
      var c' := Push(rest, [RunWaiters(ws[1..], ok)]);
      assert forall w: Waiter :: w in ws <==> w == ws[0] || w in ws[1..];
      WaiterTold(c', ws[0], ok);
      hide RunWaiter;
    }
  }

  lemma WaiterTold(c: Client, w: Waiter, ok: bool)
    ensures
      var d := RunWaiter(c, w, ok);
      && d.stack == c.stack
      && (match w
          case Await(t) => d.fired == c.fired + [Ensured(t, ok)]
          case Issue(Plain(t)) => d.fired == if ok then c.fired else c.fired + [Answered(t, false)]
          case Issue(Execute(t)) => d.fired == if ok then c.fired else c.fired + [Refused(t)])
  {
  }

  lemma FailTells(c: Client, choice: nat, e: Event)
    requires Success(e) && Enabled(c, Loop(choice)) && c.stack[0].FailPending? && !Earns(c, Loop(choice), e)
    ensures Honest(c, Loop(choice), Turn(c, choice), e)
  {
    TurnFails(c, choice);
    var rest := c.(stack := c.stack[1..]);
    var dead: map<ReqId, Pending> := c.stack[0].dead;
    assert c.stack == [c.stack[0]] + rest.stack;
    hide InFlush, Turn, Earns, HelloDone, Call;
    var d := Turn(c, choice);
    forall t: Token ensures InFlush(d.stack, t) <==> InFlush(c.stack, t) {
      FlushPushed(c.stack[0], rest.stack, t);
      if dead != map[] {
        var c' := Push(rest, [FailPending(dead - {choice})]);
        FlushPushed(FailPending(dead - {choice}), rest.stack, t);
        HelloTells(c', Bad, t);
        if dead[choice].Answer? {
          CallTells(c', dead[choice].caller, Bad);
        }
      }
    }
    if dead != map[] {
      var c' := Push(rest, [FailPending(dead - {choice})]);
      HelloTells(c', Bad, 0);
      if dead[choice].Answer? {
        CallTells(c', dead[choice].caller, Bad);
        assert !Success(d.fired[|c.fired|]);
        assert d.fired == c.fired + [d.fired[|c.fired|]];
      }
    }
    NothingTold(c, Loop(choice), d, e);
  }

  lemma OtherTells(c: Client, choice: nat, e: Event)
    requires Success(e) && Enabled(c, Loop(choice)) && !c.stack[0].FailPending? && !c.stack[0].RunWaiters?
    requires !Earns(c, Loop(choice), e)
    ensures Honest(c, Loop(choice), Turn(c, choice), e)
  {
    TurnOther(c, choice);
    var d, rest := Turn(c, choice), c.stack[1..];
    assert c.stack == [c.stack[0]] + rest;
    assert d.fired == c.fired
           || (c.stack[0].RunWatchers? && d.fired == c.fired + [Reported(c.stack[0].watched[choice])]);
    hide InFlush, Turn, Earns;
    forall t: Token ensures InFlush(d.stack, t) <==> InFlush(c.stack, t) {
      FlushPushed(c.stack[0], rest, t);
      if Remainder(c, choice) != [] {
        FlushPushed(Remainder(c, choice)[0], rest, t);
        assert Remainder(c, choice) == [Remainder(c, choice)[0]];
      } else {
        assert [] + rest == rest;
      }
    }
    NothingTold(c, Loop(choice), d, e);
  }

  lemma StepTells(c: Client, s: Step, e: Event)
    requires Success(e) && Enabled(c, s)
    ensures Honest(c, s, Apply(c, s), e)
  {
    hide Honest, Ensure, Teardown, Receive, Turn;
    match s
    case Request(execute, spawn) =>
      EnsureTells(c, s, Issue(if execute then Execute(c.issued) else Plain(c.issued)), spawn, e);
    case EnsureOnly(spawn) => EnsureTells(c, s, Await(c.issued), spawn, e);
    case Stop => TeardownTells(c, s, e);
    case Deliver(m) => ReceiveTells(c, m, e);
    case Exit => TeardownTells(c, s, e);
    case Loop(choice) => TurnTells(c, choice, e);
  }

  /** Some step of the run earns the success. */
  ghost predicate Earned(c: Client, steps: seq<Step>, e: Event)
    requires Runs(c, steps)
    decreases |steps|
  {
    steps != [] && (Earns(c, steps[0], e) || Earned(Apply(c, steps[0]), steps[1..], e))
  }

  lemma {:induction false} ToldIsEarned(c: Client, steps: seq<Step>, e: Event)
    requires Runs(c, steps) && Success(e)
    ensures
      var last := After(c, steps);
      && (e in last.fired || Promised(last, e) <==> e in c.fired || Promised(c, e) || Earned(c, steps, e))
    decreases |steps|
  {
    hide Apply, Enabled, Earns, Promised;
    if steps != [] {
      StepTells(c, steps[0], e);
      ToldIsEarned(Apply(c, steps[0]), steps[1..], e);
    }
  }

  /** In every run of a new client a success that has been told was earned by some step, and what has been
      earned has been told once no loop is running. Every other answer there is tells of a failure. */
  lemma SuccessIsEarned(steps: seq<Step>, e: Event)
    requires Runs(NEW_CLIENT, steps) && Success(e)
    ensures e in After(NEW_CLIENT, steps).fired ==> Earned(NEW_CLIENT, steps, e)
    ensures After(NEW_CLIENT, steps).stack == [] ==>
              (e in After(NEW_CLIENT, steps).fired <==> Earned(NEW_CLIENT, steps, e))
  {
    hide Runs, After, Earned;
    ToldIsEarned(NEW_CLIENT, steps, e);
  }
}
