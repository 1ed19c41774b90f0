/** The client's module state changed in place (`daemon.lua`, `init.lua`): each event of `RpcClient` as
    a method on the tables themselves. */
module Daemon {
  import opened RpcClient

  class DaemonClient {
    var job: bool
    var ready: bool
    var idSeq: nat
    var pending: map<ReqId, Pending>
    var ensureWaiters: seq<Waiter>
    var callWatchers: map<CallId, Token>
    var dispatchDepth: nat
    var stack: seq<Frame>
    var issued: Token
    var sent: map<ReqId, Pending>
    var fired: seq<Event>

    ghost function State(): Client
      reads this
    {
      Client(job, ready, idSeq, pending, ensureWaiters, callWatchers, stack, dispatchDepth, issued, sent, fired)
    }

    constructor ()
      ensures State() == NEW_CLIENT
    {
      job, ready, idSeq, pending, ensureWaiters, callWatchers := false, false, 0, map[], [], map[];
      dispatchDepth, stack, issued, sent, fired := 0, [], 0, map[], [];
    }

    method RunCaller(caller: Caller, reply: Reply)
      modifies this
      ensures State() == Call(old(State()), caller, reply)
    {
      match caller
      case Plain(t) => fired := fired + [Answered(t, !reply.Bad?)];
      case Execute(t) =>
        if !reply.Table? {
          fired := fired + [Refused(t)];
          return;
        }
        callWatchers := callWatchers[reply.call := t];
        fired := fired + [Began(t, reply.call)];
    }

    method Send(p: Pending)
      modifies this
      ensures State() == SendRequest(old(State()), p)
    {
      idSeq := idSeq + 1;
      pending := pending[idSeq := p];
      if job {
        sent := sent[idSeq := p];
      }
    }

    method Wake(w: Waiter, ok: bool)
      modifies this
      ensures State() == RunWaiter(old(State()), w, ok)
    {
      match w
      case Await(t) => fired := fired + [Ensured(t, ok)];
      case Issue(caller) =>
        if !ok {
          RunCaller(caller, Bad);
          return;
        }
        Send(Answer(caller));
    }

    method TearDown()
      modifies this
      ensures State() == Teardown(old(State()))
    {
      ready := false;
      job := false;
      var dead := pending;
      pending := map[];
      stack := [FailPending(dead), FailWaiters, FailWatchers] + stack;
    }

    method FinishHandshake(reply: Reply)
      modifies this
      ensures State() == HelloDone(old(State()), reply)
    {
      var waiters := ensureWaiters;
      ensureWaiters := [];
      if !reply.Table? || reply.proto.None? || reply.proto.value < PROTO_MIN {
        stack := [RunWaiters(waiters, false)] + stack;
        TearDown();
        return;
      }
      ready := true;
      stack := [RunWaiters(waiters, true)] + stack;
    }

    method EnsureRunning(w: Waiter, spawn: Spawn)
      modifies this
      ensures State() == Ensure(old(State()), w, spawn)
    {
      issued := issued + 1;
      if ready && job {
        Wake(w, true);
        return;
      }
      ensureWaiters := ensureWaiters + [w];
      if job {
        return;
      }
      if !spawn.Spawned? {
        var waiters := ensureWaiters;
        ensureWaiters := [];
        stack := [RunWaiters(waiters, false)] + stack;
        return;
      }
      job := true;
      sent := map[];
      Send(Hello);
    }

    method OnMessage(m: Message)
      modifies this
      ensures State() == Receive(old(State()), m)
    {
      hide HelloDone, Call;
      dispatchDepth := dispatchDepth + 1;
      stack := [EndDispatch] + stack;
      match m
      case Response(id, reply) =>
        if id in pending {
          var p := pending[id];
          pending := pending - {id};
          match p {
            case Hello => FinishHandshake(reply);
            case Answer(caller) => RunCaller(caller, reply);
          }
        }
      case QueryState(call) =>
        if call in callWatchers {
          var t := callWatchers[call];
          callWatchers := callWatchers - {call};
          fired := fired + [Reported(t)];
        }
      case OtherNotice =>
    }

    /** One turn of the innermost loop over captured callbacks. */
    method RunNext(choice: nat)
      requires Enabled(State(), Loop(choice))
      modifies this
      ensures State() == Turn(old(State()), choice)
    {
      var top := stack[0];
      stack := stack[1..];
      match top
      case RunWaiters(ws, ok) =>
        if ws != [] {
          stack := [RunWaiters(ws[1..], ok)] + stack;
          Wake(ws[0], ok);
        }
      case FailPending(dead) =>
        if dead != map[] {
          stack := [FailPending(dead - {choice})] + stack;
          match dead[choice] {
            case Hello => FinishHandshake(Bad);
            case Answer(caller) => RunCaller(caller, Bad);
          }
        }
      case FailWaiters =>
        var waiters := ensureWaiters;
        ensureWaiters := [];
        stack := [RunWaiters(waiters, false)] + stack;
      case FailWatchers =>
        var dead := callWatchers;
        callWatchers := map[];
        stack := [RunWatchers(dead)] + stack;
      case RunWatchers(watched) =>
        if watched != map[] {
          stack := [RunWatchers(watched - {choice})] + stack;
          fired := fired + [Reported(watched[choice])];
        }
      case EndDispatch =>
        if dispatchDepth > 0 {
          dispatchDepth := dispatchDepth - 1;
        }
    }
  }
}
