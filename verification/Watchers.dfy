/** What becomes of the second callback of an `execute` (`init.lua`): from the moment its call has begun
    it is watched, by the table or by the loop that fails the table, until it is reported on. */
module Watchers {
  import opened RpcClient

  ghost function Beginnings(fired: seq<Event>, t: Token): nat {
    if fired == [] then 0
    else Beginnings(fired[..|fired| - 1], t) + (var e := fired[|fired| - 1]; One(e.Began? && e.t == t))
  }

  ghost function Reports(fired: seq<Event>, t: Token): nat {
    if fired == [] then 0
    else Reports(fired[..|fired| - 1], t) + (var e := fired[|fired| - 1]; One(e.Reported? && e.t == t))
  }

  ghost function InWatchers(m: map<CallId, Token>, t: Token): nat {
    Sum(m, (u: Token) => One(u == t))
  }

  ghost function InLoops(stack: seq<Frame>, t: Token): nat {
    if stack == [] then 0
    else (if stack[0].RunWatchers? then InWatchers(stack[0].watched, t) else 0) + InLoops(stack[1..], t)
  }

  /** How often `t` is being watched. */
  ghost function Watched(c: Client, t: Token): nat {
    InWatchers(c.watchers, t) + InLoops(c.stack, t)
  }

  /** Every report follows the one beginning of its call, and is the only one. */
  ghost predicate Chronological(fired: seq<Event>) {
    fired == [] ||
    var before, e := fired[..|fired| - 1], fired[|fired| - 1];
    Chronological(before) && (e.Reported? ==> Beginnings(before, e.t) == 1 && Reports(before, e.t) == 0)
  }

  /** Beginnings are watched or reported on, one for one. */
  ghost function Balance(c: Client, t: Token): int {
    Watched(c, t) + Reports(c.fired, t) - Beginnings(c.fired, t)
  }

  ghost predicate Tracked(c: Client) {
    (forall t: Token :: Balance(c, t) == 0) && Chronological(c.fired)
  }

  /** Nothing is about to overwrite a watcher. */
  ghost predicate NoClash(c: Client, s: Step) {
    s.Deliver? && s.m.Response? && s.m.id in c.pending && s.m.reply.Table? ==>
      var p := c.pending[s.m.id];
      p.Answer? && p.caller.Execute? ==> s.m.reply.call !in c.watchers
  }

  lemma {:induction false} BeginningIsAnswer(fired: seq<Event>, t: Token)
    ensures Beginnings(fired, t) <= Answers(fired, t)
  {
    if fired != [] {
      BeginningIsAnswer(fired[..|fired| - 1], t);
    }
  }

  lemma FireBalance(c: Client, e: Event, t: Token)
    ensures Balance(Fire(c, e), t) == Balance(c, t) + One(e.Reported? && e.t == t) - One(e.Began? && e.t == t)
  {
    assert (c.fired + [e])[..|c.fired|] == c.fired;
  }

  lemma PushBalance(c: Client, f: Frame, t: Token)
    ensures Balance(Push(c, [f]), t) == Balance(c, t) + if f.RunWatchers? then InWatchers(f.watched, t) else 0
  {
    assert ([f] + c.stack)[1..] == c.stack;
  }

  /** Only the watchers, the loops and the log matter to the balance. */
  lemma SameBalance(c: Client, d: Client, t: Token)
    requires d.watchers == c.watchers && d.stack == c.stack && d.fired == c.fired
    ensures Balance(d, t) == Balance(c, t)
  {
  }

  lemma CallBalance(c: Client, caller: Caller, reply: Reply, t: Token)
    requires caller.Execute? && reply.Table? ==> reply.call !in c.watchers
    ensures Balance(Call(c, caller, reply), t) == Balance(c, t)
  {
    match caller
    case Plain(u) => FireBalance(c, Answered(u, !reply.Bad?), t);
    case Execute(u) =>
      if reply.Table? {
        SumWith(c.watchers, (v: Token) => One(v == t), reply.call, u);
        FireBalance(c.(watchers := c.watchers[reply.call := u]), Began(u, reply.call), t);
      } else {
        FireBalance(c, Refused(u), t);
      }
  }

  lemma SendBalance(c: Client, p: Pending, t: Token)
    ensures Balance(SendRequest(c, p), t) == Balance(c, t)
  {
    SameBalance(c, SendRequest(c, p), t);
  }

  lemma RunWaiterBalance(c: Client, w: Waiter, ok: bool, t: Token)
    ensures Balance(RunWaiter(c, w, ok), t) == Balance(c, t)
  {
    hide Balance;
    match w
    case Await(u) => FireBalance(c, Ensured(u, ok), t);
    case Issue(caller) =>
      if ok {
        SendBalance(c, Answer(caller), t);
      } else {
        CallBalance(c, caller, Bad, t);
      }
  }

  lemma TeardownBalance(c: Client, t: Token)
    ensures Balance(Teardown(c), t) == Balance(c, t)
  {
    hide Balance;
    var c0 := c.(ready := false, job := false, pending := map[]);
    SameBalance(c, c0, t);
    var c1 := Push(c0, [FailWatchers]);
    var c2 := Push(c1, [FailWaiters]);
    PushBalance(c0, FailWatchers, t);
    PushBalance(c1, FailWaiters, t);
    PushBalance(c2, FailPending(c.pending), t);
    assert [FailPending(c.pending), FailWaiters, FailWatchers] + c.stack
        == [FailPending(c.pending)] + ([FailWaiters] + ([FailWatchers] + c.stack));
  }

  lemma HelloBalance(c: Client, reply: Reply, t: Token)
    ensures Balance(HelloDone(c, reply), t) == Balance(c, t)
  {
    hide Balance, Teardown;
    var c' := c.(waiters := []);
    SameBalance(c, c', t);
    if GoodHello(reply) {
      SameBalance(c', c'.(ready := true), t);
      PushBalance(c'.(ready := true), RunWaiters(c.waiters, true), t);
    } else {
      PushBalance(c', RunWaiters(c.waiters, false), t);
      TeardownBalance(Push(c', [RunWaiters(c.waiters, false)]), t);
    }
  }

  lemma EnsureBalance(c: Client, w: Waiter, spawn: Spawn, t: Token)
    ensures Balance(Ensure(c, w, spawn), t) == Balance(c, t)
  {
    hide Balance, RunWaiter, SendRequest;
    var c' := c.(issued := c.issued + 1);
    SameBalance(c, c', t);
    if c.ready && c.job {
      RunWaiterBalance(c', w, true, t);
    } else {
      var waiting := c'.(waiters := c.waiters + [w]);
      SameBalance(c, waiting, t);
      SameBalance(c, waiting.(job := true, sent := map[]), t);
      SendBalance(waiting.(job := true, sent := map[]), Hello, t);
      SameBalance(c, waiting.(waiters := []), t);
      PushBalance(waiting.(waiters := []), RunWaiters(waiting.waiters, false), t);
    }
  }

  lemma ReceiveBalance(c: Client, m: Message, t: Token)
    requires NoClash(c, Deliver(m))
    ensures Balance(Receive(c, m), t) == Balance(c, t)
  {
    hide Balance, HelloDone, Call;
    var d0 := c.(depth := c.depth + 1);
    var d := Push(d0, [EndDispatch]);
    SameBalance(c, d0, t);
    PushBalance(d0, EndDispatch, t);
    match m
    case Response(id, reply) =>
      if id in c.pending {
        var d' := d.(pending := c.pending - {id});
        SameBalance(d, d', t);
        match c.pending[id] {
          case Hello => HelloBalance(d', reply, t);
          case Answer(caller) => CallBalance(d', caller, reply, t);
        }
      }
    case QueryState(call) =>
      if call in c.watchers {
        Unwatched(d, call, t);
        FireBalance(d.(watchers := c.watchers - {call}), Reported(c.watchers[call]), t);
      }
    case OtherNotice =>
  }

  lemma Unwatched(c: Client, call: CallId, t: Token)
    requires call in c.watchers
    ensures Balance(c.(watchers := c.watchers - {call}), t) == Balance(c, t) - One(c.watchers[call] == t)
  {
    SumWithout(c.watchers, (u: Token) => One(u == t), call);
  }

  lemma FrameBalance(c: Client, t: Token)
    requires c.stack != []
    ensures Balance(c.(stack := c.stack[1..]), t)
         == Balance(c, t) - if c.stack[0].RunWatchers? then InWatchers(c.stack[0].watched, t) else 0
  {
  }

  lemma TurnBalance(c: Client, choice: nat, t: Token)
    requires Enabled(c, Loop(choice))
    ensures Balance(Turn(c, choice), t) == Balance(c, t)
  {
    var rest := c.(stack := c.stack[1..]);
    assert Balance(rest.(watchers := map[]), t) == Balance(rest, t) - InWatchers(rest.watchers, t);
    hide Balance, HelloDone, RunWaiter, Call, InWatchers;
    FrameBalance(c, t);
    match c.stack[0]
    case RunWaiters(ws, ok) =>
      if ws != [] {
        PushBalance(rest, RunWaiters(ws[1..], ok), t);
        RunWaiterBalance(Push(rest, [RunWaiters(ws[1..], ok)]), ws[0], ok, t);
      }
    case FailPending(_) => FailBalance(c, choice, t);
    case FailWaiters =>
      SameBalance(rest, rest.(waiters := []), t);
      PushBalance(rest.(waiters := []), RunWaiters(c.waiters, false), t);
    case FailWatchers =>
      PushBalance(rest.(watchers := map[]), RunWatchers(c.watchers), t);
    case RunWatchers(_) => ReportBalance(c, choice, t);
    case EndDispatch => SameBalance(rest, Turn(c, choice), t);
  }

  lemma FailBalance(c: Client, choice: nat, t: Token)
    requires Enabled(c, Loop(choice)) && c.stack[0].FailPending?
    ensures Balance(Turn(c, choice), t) == Balance(c, t)
  {
    hide Balance, HelloDone, Turn, Call;
    FrameBalance(c, t);
    TurnFails(c, choice);
    var rest := c.(stack := c.stack[1..]);
    var dead: map<ReqId, Pending> := c.stack[0].dead;
    if dead != map[] {
      PushBalance(rest, FailPending(dead - {choice}), t);
      match dead[choice] {
        case Hello => HelloBalance(Push(rest, [FailPending(dead - {choice})]), Bad, t);
        case Answer(caller) => CallBalance(Push(rest, [FailPending(dead - {choice})]), caller, Bad, t);
      }
    }
  }

  lemma ReportBalance(c: Client, choice: nat, t: Token)
    requires Enabled(c, Loop(choice)) && c.stack[0].RunWatchers?
    ensures Balance(Turn(c, choice), t) == Balance(c, t)
  {
    FrameBalance(c, t);
    var rest := c.(stack := c.stack[1..]);
    var watched: map<CallId, Token> := c.stack[0].watched;
    if watched != map[] {
      SumWithout(watched, (u: Token) => One(u == t), choice);
      PushBalance(rest, RunWatchers(watched - {choice}), t);
      FireBalance(Push(rest, [RunWatchers(watched - {choice})]), Reported(watched[choice]), t);
    }
  }

  lemma StepBalance(c: Client, s: Step, t: Token)
    requires Enabled(c, s) && NoClash(c, s)
    ensures Balance(Apply(c, s), t) == Balance(c, t)
  {
    hide Balance, Turn, Receive, Teardown, Ensure;
    match s
    case Request(execute, spawn) =>
      EnsureBalance(c, Issue(if execute then Execute(c.issued) else Plain(c.issued)), spawn, t);
    case EnsureOnly(spawn) => EnsureBalance(c, Await(c.issued), spawn, t);
    case Stop => TeardownBalance(c, t);
    case Deliver(m) => ReceiveBalance(c, m, t);
    case Exit => TeardownBalance(c, t);
    case Loop(choice) => TurnBalance(c, choice, t);
  }

  /** At most one event more, and a report only for a token that is watched. */
  ghost predicate FiresFairly(c: Client, d: Client) {
    && (d.fired == c.fired || (|d.fired| == |c.fired| + 1 && d.fired[..|c.fired|] == c.fired))
    && (d.fired != c.fired && d.fired[|c.fired|].Reported? ==> Watched(c, d.fired[|c.fired|].t) >= 1)
  }

  lemma CallFires(c: Client, caller: Caller, reply: Reply)
    ensures
      var d := Call(c, caller, reply);
      |d.fired| == |c.fired| + 1 && d.fired[..|c.fired|] == c.fired && !d.fired[|c.fired|].Reported?
  {
  }

  lemma RunWaiterFires(c: Client, w: Waiter, ok: bool)
    ensures
      var d := RunWaiter(c, w, ok);
      d.fired == c.fired || (|d.fired| == |c.fired| + 1 &&
        d.fired[..|c.fired|] == c.fired && !d.fired[|c.fired|].Reported?)
  {
  }

  lemma QuietTransitions(c: Client, reply: Reply, w: Waiter, spawn: Spawn)
    ensures HelloDone(c, reply).fired == c.fired && Teardown(c).fired == c.fired
    ensures !(c.ready && c.job) ==> Ensure(c, w, spawn).fired == c.fired
    ensures c.ready && c.job ==> Ensure(c, w, spawn) == RunWaiter(c.(issued := c.issued + 1), w, true)
  {
  }

  lemma ReceiveFires(c: Client, m: Message)
    ensures FiresFairly(c, Receive(c, m))
  {
    hide HelloDone, Call, InLoops, InWatchers;
    match m
    case Response(id, reply) =>
      if id in c.pending {
        var d := Push(c.(depth := c.depth + 1), [EndDispatch]).(pending := c.pending - {id});
        QuietTransitions(d, reply, Await(0), Spawned);
        if c.pending[id].Answer? {
          CallFires(d, c.pending[id].caller, reply);
        }
      }
    case QueryState(call) =>
      if call in c.watchers {
        WatchedOnce(c.watchers, call, c.watchers[call]);
      }
    case OtherNotice =>
  }

  lemma WatchedOnce(m: map<CallId, Token>, k: CallId, t: Token)
    requires k in m && m[k] == t
    ensures InWatchers(m, t) >= 1
  {
    SumWithout(m, (u: Token) => One(u == t), k);
    assert InWatchers(m, t) == One(m[k] == t) + InWatchers(m - {k}, t);
  }

  lemma TurnFires(c: Client, choice: nat)
    requires Enabled(c, Loop(choice))
    ensures FiresFairly(c, Turn(c, choice))
  {
    hide HelloDone, Call, RunWaiter, InWatchers;
    var rest := c.(stack := c.stack[1..]);
    match c.stack[0]
    case RunWaiters(ws, ok) =>
      if ws != [] {
        RunWaiterFires(Push(rest, [RunWaiters(ws[1..], ok)]), ws[0], ok);
      }
    case FailPending(_) =>
      var dead: map<ReqId, Pending> := c.stack[0].dead;
      if dead != map[] {
        var d := Push(rest, [FailPending(dead - {choice})]);
        QuietTransitions(d, Bad, Await(0), Spawned);
        if dead[choice].Answer? {
          CallFires(d, dead[choice].caller, Bad);
        }
      }
    case RunWatchers(_) =>
      var watched: map<CallId, Token> := c.stack[0].watched;
      if watched != map[] {
        WatchedOnce(watched, choice, watched[choice]);
      }
    case _ =>
  }

  lemma StepFires(c: Client, s: Step)
    requires Enabled(c, s)
    ensures FiresFairly(c, Apply(c, s))
  {
    hide Turn, Receive, Teardown, Ensure, Watched;
    match s
    case Request(execute, spawn) =>
      var w := Issue(if execute then Execute(c.issued) else Plain(c.issued));
      QuietTransitions(c, Bad, w, spawn);
      RunWaiterFires(c.(issued := c.issued + 1), w, true);
    case EnsureOnly(spawn) =>
      QuietTransitions(c, Bad, Await(c.issued), spawn);
      RunWaiterFires(c.(issued := c.issued + 1), Await(c.issued), true);
    case Stop => QuietTransitions(c, Bad, Await(0), Spawned);
    case Deliver(m) => ReceiveFires(c, m);
    case Exit => QuietTransitions(c, Bad, Await(0), Spawned);
    case Loop(choice) => TurnFires(c, choice);
  }

  /** Every step keeps the account of the watchers, and reports only what has begun and not been
      reported on. */
  lemma TrackedStep(c: Client, s: Step)
    requires Conserved(c) && Tracked(c) && Enabled(c, s) && NoClash(c, s)
    ensures Tracked(Apply(c, s))
  {
    hide Apply, Enabled, NoClash, Balance, Total, Beginnings, Reports, Watched, Dispatches, IdsFresh;
    var d := Apply(c, s);
    forall t: Token ensures Balance(d, t) == 0 {
      StepBalance(c, s, t);
    }
    StepFires(c, s);
    if d.fired != c.fired && d.fired[|c.fired|].Reported? {
      BeganOnce(c, d.fired[|c.fired|].t);
    }
  }

  lemma BeganOnce(c: Client, t: Token)
    requires Conserved(c) && Tracked(c)
    ensures Beginnings(c.fired, t) <= 1 && Reports(c.fired, t) <= Beginnings(c.fired, t)
    ensures Watched(c, t) >= 1 ==> Beginnings(c.fired, t) == 1 && Reports(c.fired, t) == 0
  {
    hide Answers, InWatchers, InLoops, Dispatches;
    BeginningIsAnswer(c.fired, t);
    assert Total(c, t) <= 1;
    assert Balance(c, t) == 0;
  }
}
