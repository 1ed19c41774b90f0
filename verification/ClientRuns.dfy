/** What holds in whole runs of the client: a callback is answered at most once, a teardown leaves
    nothing behind, and a client without a daemon owes nothing. */
module ClientRuns {
  import opened Wrappers
  import opened RpcClient

  /** Every event, and every turn of a loop, keeps each callback in one place. */
  lemma StepConserves(c: Client, s: Step)
    requires Conserved(c) && Enabled(c, s)
    ensures Conserved(Apply(c, s))
  {
    hide Total, Apply, Enabled, Dispatches;
    StepTotal(c, s, 0);
    forall t: Token {
      StepTotal(c, s, t);
    }
  }

  // ── whole runs ─────────────────────────────────────────────────────────────

  ghost predicate Runs(c: Client, steps: seq<Step>)
    decreases |steps|
  {
    steps == [] || (Enabled(c, steps[0]) && Runs(Apply(c, steps[0]), steps[1..]))
  }

  ghost function After(c: Client, steps: seq<Step>): Client
    requires Runs(c, steps)
    decreases |steps|
  {
    if steps == [] then c else After(Apply(c, steps[0]), steps[1..])
  }

  lemma {:induction false} ConservedAlways(c: Client, steps: seq<Step>)
    requires Conserved(c) && Runs(c, steps)
    ensures Conserved(After(c, steps))
    decreases |steps|
  {
    hide Conserved, Apply, Enabled;
    if steps != [] {
      StepConserves(c, steps[0]);
      ConservedAlways(Apply(c, steps[0]), steps[1..]);
    }
  }

  /** In every run, through handshakes, failures and restarts and whatever callbacks do: a callback
      handed to the client is in exactly one place or has been answered, and never twice. Between
      events, when no loop is running, the places are the waiters and the pending table. */
  lemma AnsweredAtMostOnce(steps: seq<Step>, t: Token)
    requires Runs(NEW_CLIENT, steps)
    ensures
      var c := After(NEW_CLIENT, steps);
      && Owed(c, t) + Answers(c.fired, t) == One(t < c.issued)
      && (c.stack == [] ==>
            InWaiters(c.waiters, t) + InPending(c.pending, t) + Answers(c.fired, t) == One(t < c.issued))
      && (c.stack == [] ==> c.depth == 0)
  {
    hide Runs, After, InWaiters, InPending, Answers;
    NewIsConserved();
    ConservedAlways(NEW_CLIENT, steps);
    assert Total(After(NEW_CLIENT, steps), t) == One(t < After(NEW_CLIENT, steps).issued);
  }

  lemma NewIsConserved()
    ensures Conserved(NEW_CLIENT)
  {
  }

  // ── tearing down ───────────────────────────────────────────────────────────

  function IssuesIn(ws: seq<Waiter>): nat {
    if ws == [] then 0 else One(ws[0].Issue?) + IssuesIn(ws[1..])
  }

  function FrameIssues(f: Frame): nat {
    if f.RunWaiters? && f.ok then IssuesIn(f.waiters) else 0
  }

  /** The requests that the flush of a good handshake has still to send. */
  function Issues(stack: seq<Frame>): nat {
    if stack == [] then 0 else FrameIssues(stack[0]) + Issues(stack[1..])
  }

  /** Pending requests of a dead daemon are still to be failed. */
  ghost predicate Failing(stack: seq<Frame>) {
    stack != [] && (stack[0].FailPending? || Failing(stack[1..]))
  }

  /** Pending requests are failed before any request of a flush is sent. */
  ghost predicate Ordered(stack: seq<Frame>) {
    stack != [] ==> (FrameIssues(stack[0]) > 0 ==> !Failing(stack[1..])) && Ordered(stack[1..])
  }

  /** A teardown under way whose callbacks ask for nothing new. What is pending then was put there by
      a flush that went on without a daemon. */
  ghost predicate Draining(c: Client) {
    && !c.job && !c.ready && IdsFresh(c)
    && Ordered(c.stack) && (Failing(c.stack) ==> c.pending == map[])
    && (forall id: ReqId :: id in c.pending ==> c.pending[id].Answer?)
    && (c.waiters != [] ==> FailWaiters in c.stack)
    && (c.watchers != map[] ==> FailWatchers in c.stack)
  }

  /** The requests that no one will answer once the teardown is through. */
  ghost function Stranded(c: Client): nat {
    |c.pending| + Issues(c.stack)
  }

  ghost function FrameWeight(f: Frame): nat {
    match f
    case RunWaiters(ws, _) => |ws| + 1
    case FailPending(dead) => 20 * |dead| + 1
    case RunWatchers(watched) => |watched| + 1
    case FailWaiters => 2
    case FailWatchers => 2
    case EndDispatch => 1
  }

  ghost function Weight(stack: seq<Frame>): nat {
    if stack == [] then 0 else FrameWeight(stack[0]) + Weight(stack[1..])
  }

  /** An upper bound on the turns a drain still takes. */
  ghost function Effort(c: Client): nat {
    2 * |c.waiters| + 2 * |c.watchers| + Weight(c.stack)
  }

  lemma PushedFrame(f: Frame, stack: seq<Frame>)
    ensures Weight([f] + stack) == FrameWeight(f) + Weight(stack)
    ensures Issues([f] + stack) == FrameIssues(f) + Issues(stack)
    ensures Failing([f] + stack) <==> f.FailPending? || Failing(stack)
    ensures Ordered([f] + stack) <==> (FrameIssues(f) > 0 ==> !Failing(stack)) && Ordered(stack)
  {
    assert ([f] + stack)[1..] == stack;
  }

  lemma TeardownFrames(c: Client)
    ensures Weight(Teardown(c).stack) == 20 * |c.pending| + 5 + Weight(c.stack)
    ensures Issues(Teardown(c).stack) == Issues(c.stack)
    ensures Ordered(c.stack) ==> Ordered(Teardown(c).stack)
    ensures FailWaiters in Teardown(c).stack && FailWatchers in Teardown(c).stack
    ensures forall f :: f in c.stack ==> f in Teardown(c).stack
  {
    var s1 := [FailWatchers] + c.stack;
    var s2 := [FailWaiters] + s1;
    PushedFrame(FailWatchers, c.stack);
    PushedFrame(FailWaiters, s1);
    PushedFrame(FailPending(c.pending), s2);
    assert Teardown(c).stack == [FailPending(c.pending)] + s2;
    assert Teardown(c).stack[1] == FailWaiters && Teardown(c).stack[2] == FailWatchers;
    assert Teardown(c).stack[3..] == c.stack;
  }

  lemma FailedHelloDrains(c: Client)
    requires !c.job && !c.ready && c.pending == map[] && Ordered(c.stack)
    ensures Draining(HelloDone(c, Bad)) && Effort(HelloDone(c, Bad)) <= Effort(c) + 6
    ensures Stranded(HelloDone(c, Bad)) == Stranded(c)
  {
    hide Teardown;
    var c' := Push(c.(waiters := []), [RunWaiters(c.waiters, false)]);
    PushedFrame(RunWaiters(c.waiters, false), c.stack);
    TeardownFrames(c');
    TeardownFields(c');
  }

  lemma TeardownFields(c: Client)
    ensures
      var d := Teardown(c);
      !d.job && !d.ready && d.pending == map[] && d.waiters == c.waiters && d.watchers == c.watchers
  {
  }

  lemma FailedCallDrains(c: Client, caller: Caller)
    requires Draining(c)
    ensures
      var d := Call(c, caller, Bad);
      Draining(d) && Effort(d) == Effort(c) && Stranded(d) == Stranded(c)
  {
    hide Call, Issues, Ordered, Failing, Weight;
    FailedCallKeeps(c, caller);
  }

  lemma OneFewer(c: Client, choice: nat)
    requires Draining(c) && c.stack != [] && c.stack[0].FailPending? && choice in c.stack[0].dead
    ensures
      var d := Push(c.(stack := c.stack[1..]), [FailPending(c.stack[0].dead - {choice})]);
      Draining(d) && Effort(d) == Effort(c) - 20 && Stranded(d) == Stranded(c) && d.pending == map[]
  {
    hide Issues, Ordered, Failing, Weight;
    var dead: map<ReqId, Pending> := c.stack[0].dead;
    HeadFrame(c);
    PushedFrame(FailPending(dead - {choice}), c.stack[1..]);
    assert |dead - {choice}| == |dead| - 1;
  }

  lemma DrainOne(c: Client, choice: nat)
    requires Draining(c) && Enabled(c, Loop(choice)) && c.stack[0].FailPending?
    ensures Draining(Turn(c, choice)) && Effort(Turn(c, choice)) < Effort(c)
    ensures Stranded(Turn(c, choice)) == Stranded(c)
  {
    hide HelloDone, Turn, Call, Issues, Ordered, Failing, Weight;
    TurnFails(c, choice);
    var dead: map<ReqId, Pending> := c.stack[0].dead;
    if dead == map[] {
      HeadFrame(c);
    } else {
      var d := Push(c.(stack := c.stack[1..]), [FailPending(dead - {choice})]);
      OneFewer(c, choice);
      if dead[choice].Hello? {
        FailedHelloDrains(d);
      } else {
        hide Draining, Effort, Stranded;
        FailedCallDrains(d, dead[choice].caller);
      }
    }
  }

  lemma HeadFrame(c: Client)
    requires c.stack != []
    ensures c.stack == [c.stack[0]] + c.stack[1..]
    ensures Weight(c.stack) == FrameWeight(c.stack[0]) + Weight(c.stack[1..])
    ensures Issues(c.stack) == FrameIssues(c.stack[0]) + Issues(c.stack[1..])
    ensures Failing(c.stack) <==> c.stack[0].FailPending? || Failing(c.stack[1..])
    ensures Ordered(c.stack) <==> (FrameIssues(c.stack[0]) > 0 ==> !Failing(c.stack[1..])) && Ordered(c.stack[1..])
  {
  }

  lemma DrainRun(c: Client, choice: nat)
    requires Draining(c) && Enabled(c, Loop(choice)) && c.stack[0].RunWaiters?
    ensures Draining(Turn(c, choice)) && Effort(Turn(c, choice)) < Effort(c)
    ensures Stranded(Turn(c, choice)) == Stranded(c)
  {
    hide Issues, Ordered, Failing, Turn, RunWaiter, Weight;
    TurnRuns(c, choice);
    var rest, ws := c.(stack := c.stack[1..]), c.stack[0].waiters;
    HeadFrame(c);
    if ws != [] {
      PushedFrame(RunWaiters(ws[1..], c.stack[0].ok), rest.stack);
      RunWaiterPends(Push(rest, [RunWaiters(ws[1..], c.stack[0].ok)]), ws[0], c.stack[0].ok);
    }
  }

  /** Telling a waiter adds to the pending table exactly when the waiter has a request to send. */
  lemma RunWaiterPends(c: Client, w: Waiter, ok: bool)
    ensures
      var d := RunWaiter(c, w, ok);
      && d.stack == c.stack && d.job == c.job && d.ready == c.ready && d.waiters == c.waiters
      && d.watchers == c.watchers && (IdsFresh(c) ==> IdsFresh(d))
      && (if ok && w.Issue? then d.pending == c.pending[c.idSeq + 1 := Answer(w.caller)] else d.pending == c.pending)
      && (IdsFresh(c) ==> |d.pending| == |c.pending| + One(ok && w.Issue?))
  {
    hide SendRequest, Call;
    if w.Issue? && ok {
      SentPends(c, Answer(w.caller));
    } else if w.Issue? {
      FailedCallKeeps(c, w.caller);
    }
  }

  lemma SentPends(c: Client, p: Pending)
    ensures
      var d := SendRequest(c, p);
      && d.stack == c.stack && d.job == c.job && d.ready == c.ready && d.waiters == c.waiters
      && d.watchers == c.watchers && d.pending == c.pending[c.idSeq + 1 := p]
      && (IdsFresh(c) ==> IdsFresh(d) && |d.pending| == |c.pending| + 1)
  {
  }

  /** The frames left of a reporting, flushing or dispatching one weigh less than it did. */
  lemma RemainderWeighs(c: Client, choice: nat)
    requires Enabled(c, Loop(choice)) && !c.stack[0].FailPending? && !c.stack[0].RunWaiters?
    ensures
      var stack := Remainder(c, choice) + c.stack[1..];
      && Weight(stack) < Weight(c.stack) + (if c.stack[0].FailWaiters? then 2 * |c.waiters| else 0)
                         + (if c.stack[0].FailWatchers? then 2 * |c.watchers| else 0)
      && Issues(stack) == Issues(c.stack) && (Failing(stack) <==> Failing(c.stack))
      && (Ordered(c.stack) ==> Ordered(stack))
  {
    hide Issues, Ordered, Failing, Weight;
    HeadFrame(c);
    if Remainder(c, choice) != [] {
      PushedFrame(Remainder(c, choice)[0], c.stack[1..]);
      assert Remainder(c, choice) == [Remainder(c, choice)[0]];
      if c.stack[0].RunWatchers? {
        var watched: map<CallId, Token> := c.stack[0].watched;
        assert |watched - {choice}| == |watched| - 1;
      }
    } else {
      assert Remainder(c, choice) + c.stack[1..] == c.stack[1..];
    }
  }

  lemma DrainOther(c: Client, choice: nat)
    requires Draining(c) && Enabled(c, Loop(choice)) && !c.stack[0].FailPending? && !c.stack[0].RunWaiters?
    ensures Draining(Turn(c, choice)) && Effort(Turn(c, choice)) < Effort(c)
    ensures Stranded(Turn(c, choice)) == Stranded(c)
  {
    hide Turn, Issues, Ordered, Failing, Weight, Remainder;
    TurnOther(c, choice);
    RemainderWeighs(c, choice);
    assert c.stack == [c.stack[0]] + c.stack[1..];
  }

  lemma TurnDrains(c: Client, choice: nat)
    requires Draining(c) && Enabled(c, Loop(choice))
    ensures Draining(Turn(c, choice)) && Effort(Turn(c, choice)) < Effort(c)
    ensures Stranded(Turn(c, choice)) == Stranded(c)
  {
    hide Turn, Draining, Effort, Stranded;
    if c.stack[0].FailPending? {
      DrainOne(c, choice);
    } else if c.stack[0].RunWaiters? {
      DrainRun(c, choice);
    } else {
      DrainOther(c, choice);
    }
  }

  ghost predicate OnlyLoops(steps: seq<Step>) {
    forall i :: 0 <= i < |steps| ==> steps[i].Loop?
  }

  lemma {:induction false} DrainRuns(c: Client, steps: seq<Step>)
    requires Draining(c) && Conserved(c) && Runs(c, steps) && OnlyLoops(steps)
    ensures Draining(After(c, steps)) && Conserved(After(c, steps)) && After(c, steps).issued == c.issued
    ensures |steps| <= Effort(c) && Stranded(After(c, steps)) == Stranded(c)
    decreases |steps|
  {
    hide Draining, Stranded, Enabled, Turn, Total, Dispatches;
    if steps != [] {
      TurnDrains(c, steps[0].choice);
      StepConserves(c, steps[0]);
      TurnIssuesNothing(c, steps[0].choice);
      DrainRuns(Apply(c, steps[0]), steps[1..]);
    }
  }

  lemma TurnIssuesNothing(c: Client, choice: nat)
    requires Enabled(c, Loop(choice))
    ensures Turn(c, choice).issued == c.issued
  {
    hide Turn, RunWaiter, HelloDone, Call;
    var rest := c.(stack := c.stack[1..]);
    if c.stack[0].FailPending? {
      TurnFails(c, choice);
      var dead: map<ReqId, Pending> := c.stack[0].dead;
      if dead != map[] {
        var c' := Push(rest, [FailPending(dead - {choice})]);
        HelloKeeps(c', Bad);
        if dead[choice].Answer? {
          FailedCallKeeps(c', dead[choice].caller);
        }
      }
    } else if c.stack[0].RunWaiters? {
      TurnRuns(c, choice);
      var ws, ok := c.stack[0].waiters, c.stack[0].ok;
      if ws != [] {
        RunWaiterKeeps(Push(rest, [RunWaiters(ws[1..], ok)]), ws[0], ok);
      }
    } else {
      TurnOther(c, choice);
    }
  }

  lemma TeardownDrains(c: Client, steps: seq<Step>)
    requires Conserved(Teardown(c)) && Runs(Teardown(c), steps) && OnlyLoops(steps) && Ordered(c.stack)
    requires Issues(c.stack) > 0 ==> !Failing(c.stack)
    ensures |steps| <= Effort(Teardown(c))
    ensures
      var last := After(Teardown(c), steps);
      && Draining(last) && Conserved(last) && last.issued == c.issued
      && Stranded(last) == Issues(c.stack)
  {
    hide Runs, After, Answers, Issues, Failing, Ordered;
    TeardownFrames(c);
    TeardownFields(c);
    assert Draining(Teardown(c));
    TeardownKeeps(c);
    DrainRuns(Teardown(c), steps);
  }

  /** The daemon is stopped, or exits. */
  predicate Ends(s: Step) {
    s.Stop? || s.Exit?
  }

  lemma EndConserves(c: Client, s: Step)
    requires Conserved(c) && Enabled(c, s) && Ends(s)
    ensures Apply(c, s) == Teardown(c) && Conserved(Teardown(c))
  {
    hide Conserved;
    StepConserves(c, s);
  }

  /** Nothing is left: no loop, no daemon, no table with anything in it, and everyone answered once. */
  ghost predicate AllOver(c: Client, issued: Token) {
    && c.waiters == [] && c.pending == map[] && c.watchers == map[] && !c.job
    && (forall t: Token :: t < issued ==> Answers(c.fired, t) == 1)
  }

  lemma TeardownEnds(c: Client, steps: seq<Step>)
    requires Conserved(Teardown(c)) && Issues(c.stack) == 0 && Runs(Teardown(c), steps) && OnlyLoops(steps)
    ensures |steps| <= Effort(Teardown(c))
    ensures After(Teardown(c), steps).stack == [] ==> AllOver(After(Teardown(c), steps), c.issued)
  {
    NoIssuesOrdered(c.stack);
    var last := After(Teardown(c), steps);
    assert last.stack == [] ==> Stranded(last) == |last.pending|;
    hide Runs, After, Answers;
    TeardownDrains(c, steps);
    forall t: Token | last.stack == [] && t < c.issued ensures Answers(last.fired, t) == 1 {
      assert Total(last, t) == 1;
    }
  }

  /** A stop or an exit that no request of a flush is waiting behind comes to an end, however the tables are
      walked, and then no table holds anything: every callback ever handed over has been answered. */
  lemma TeardownLeavesNothing(c: Client, s: Step, steps: seq<Step>)
    requires Conserved(c) && Enabled(c, s) && Ends(s) && Issues(c.stack) == 0
    requires Runs(Apply(c, s), steps) && OnlyLoops(steps)
    ensures |steps| <= Effort(Apply(c, s))
    ensures After(Apply(c, s), steps).stack == [] ==> AllOver(After(Apply(c, s), steps), c.issued)
  {
    hide Runs, After, AllOver, Conserved, Teardown, Apply;
    EndConserves(c, s);
    TeardownEnds(c, steps);
  }

  /** And so does a handshake that fails, with an error or a backend too old to talk to. */
  lemma FailedHandshakeLeavesNothing(c: Client, id: ReqId, reply: Reply, steps: seq<Step>)
    requires Conserved(c) && c.stack == [] && id in c.pending && c.pending[id].Hello?
    requires !(reply.Table? && reply.proto.Some? && reply.proto.value >= 1)
    requires Runs(Apply(c, Deliver(Response(id, reply))), steps) && OnlyLoops(steps)
    ensures
      var d := Apply(c, Deliver(Response(id, reply)));
      |steps| <= Effort(d) && (After(d, steps).stack == [] ==> AllOver(After(d, steps), c.issued))
  {
    var s := Deliver(Response(id, reply));
    StepConserves(c, s);
    var ended := c.(depth := c.depth + 1, stack := [EndDispatch], pending := c.pending - {id}, waiters := []);
    var d := Push(ended, [RunWaiters(c.waiters, false)]);
    assert Push(c.(depth := c.depth + 1), [EndDispatch]).stack == [EndDispatch];
    assert Apply(c, s) == Teardown(d);
    PushedFrame(RunWaiters(c.waiters, false), [EndDispatch]);
    PushedFrame(EndDispatch, []);
    assert [EndDispatch] + [] == [EndDispatch];
    assert Issues([]) == 0;
    hide Runs, After, AllOver, Conserved, Teardown, Apply, Issues;
    TeardownEnds(d, steps);
  }

  lemma NoIssuesOrdered(stack: seq<Frame>)
    requires Issues(stack) == 0
    ensures Ordered(stack)
  {
  }

  // ── a daemon that is gone owes nothing ─────────────────────────────────────

  ghost predicate Greeting(pending: map<ReqId, Pending>) {
    exists id: ReqId :: id in pending && pending[id].Hello?
  }

  /** Without a job nothing is pending; a job that is not ready has a handshake under way; and whoever
      waits, waits for that handshake or for a running teardown. */
  ghost predicate Tidy(c: Client) {
    && (Issues(c.stack) > 0 ==> c.job && c.ready && !Failing(c.stack))
    && (!c.job ==> c.pending == map[])
    && (if c.ready then c.job else c.job ==> Greeting(c.pending))
    && (c.waiters != [] ==> FailWaiters in c.stack || (c.job && !c.ready))
  }

  lemma TidyIsOrdered(c: Client)
    requires Tidy(c)
    ensures Issues(c.stack) > 0 ==> !Failing(c.stack)
    ensures Ordered(c.stack)
  {
    if Issues(c.stack) == 0 {
      NoIssuesOrdered(c.stack);
    } else {
      NotFailingOrdered(c.stack);
    }
  }

  lemma NotFailingOrdered(stack: seq<Frame>)
    requires !Failing(stack)
    ensures Ordered(stack)
  {
  }

  /** A pending request has not been answered. */
  lemma StrandedToken(c: Client) returns (t: Token)
    requires Conserved(c) && c.pending != map[] && forall id: ReqId :: id in c.pending ==> c.pending[id].Answer?
    ensures t < c.issued && Answers(c.fired, t) == 0
  {
    hide Dispatches, Answers, InWaiters, InStack;
    var id := Pick(c.pending);
    t := c.pending[id].caller.t;
    SumWithout(c.pending, (p: Pending) => One(p.Answer? && p.caller.t == t), id);
    assert Total(c, t) == One(t < c.issued) && InPending(c.pending, t) > 0;
  }

  /** A stop between any two callbacks, or an exit, strands exactly the requests that a flush had still to send:
      they end up pending without a daemon. So it leaves nothing behind, and everyone has been
      answered, exactly when there were none. */
  lemma StopStrandsUnsent(c: Client, s: Step, steps: seq<Step>)
    requires Tidy(c) && Conserved(c) && Enabled(c, s) && Ends(s) && Runs(Apply(c, s), steps) && OnlyLoops(steps)
    requires After(Apply(c, s), steps).stack == []
    ensures
      var last := After(Apply(c, s), steps);
      && !last.job && last.waiters == [] && last.watchers == map[]
      && |last.pending| == Issues(c.stack)
      && (last.pending == map[] <==> Issues(c.stack) == 0)
      && ((forall t: Token :: t < c.issued ==> Answers(last.fired, t) == 1) <==> Issues(c.stack) == 0)
  {
    TidyIsOrdered(c);
    EndConserves(c, s);
    var last := After(Teardown(c), steps);
    assert Stranded(last) == |last.pending|;
    hide Runs, After, Answers, Issues, Ordered, Failing;
    TeardownDrains(c, steps);
    if last.pending == map[] {
      forall t: Token | t < c.issued ensures Answers(last.fired, t) == 1 {
        assert Total(last, t) == 1;
      }
    } else {
      var t := StrandedToken(last);
      assert Answers(last.fired, t) == 0;
    }
  }

  /** Stopping the daemon keeps the client tidy when the flush has no request left to send. */
  lemma StopKeepsTidy(c: Client)
    requires Tidy(c) && Issues(c.stack) == 0
    ensures Tidy(Teardown(c))
  {
    hide Issues, Failing, Ordered;
    TeardownFrames(c);
    TeardownFields(c);
  }

  lemma TidyHello(c: Client, reply: Reply)
    requires (!c.job ==> c.pending == map[]) && Issues(c.stack) == 0
    requires GoodHello(reply) ==> c.job && !Failing(c.stack)
    ensures Tidy(HelloDone(c, reply))
  {
    hide Issues, Failing, Teardown;
    var c' := c.(waiters := []);
    PushedFrame(RunWaiters(c.waiters, GoodHello(reply)), c.stack);
    if !GoodHello(reply) {
      TeardownFrames(Push(c', [RunWaiters(c.waiters, false)]));
      TeardownFields(Push(c', [RunWaiters(c.waiters, false)]));
    }
  }

  lemma TidyEnsure(c: Client, w: Waiter, spawn: Spawn)
    requires Tidy(c)
    ensures Tidy(Ensure(c, w, spawn))
  {
    hide Issues, Failing, Ordered;
    PushedFrame(RunWaiters(c.waiters + [w], false), c.stack);
    if !c.job && spawn.Spawned? {
      assert Ensure(c, w, spawn).pending[c.idSeq + 1] == Hello;
    }
  }

  lemma TidyReceive(c: Client, m: Message)
    requires Tidy(c) && c.stack == []
    ensures Tidy(Receive(c, m))
  {
    hide HelloDone;
    var d := Push(c.(depth := c.depth + 1), [EndDispatch]);
    PushedFrame(EndDispatch, []);
    if m.Response? && m.id in c.pending && c.pending[m.id].Hello? {
      TidyHello(d.(pending := c.pending - {m.id}), m.reply);
    } else if m.Response? && m.id in c.pending {
      StillGreeting(c.pending, m.id);
    }
  }

  lemma StillGreeting(pending: map<ReqId, Pending>, id: ReqId)
    requires id in pending && !pending[id].Hello?
    ensures Greeting(pending) ==> Greeting(pending - {id})
  {
    if Greeting(pending) {
      var h: ReqId :| h in pending && pending[h].Hello?;
      assert h in pending - {id};
    }
  }

  lemma TidyRun(c: Client, choice: nat)
    requires Tidy(c) && Enabled(c, Loop(choice)) && c.stack[0].RunWaiters?
    ensures Tidy(Turn(c, choice))
  {
    hide Issues, Failing, Ordered, Turn, RunWaiter;
    TurnRuns(c, choice);
    var rest, ws := c.(stack := c.stack[1..]), c.stack[0].waiters;
    HeadFrame(c);
    if ws != [] {
      PushedFrame(RunWaiters(ws[1..], c.stack[0].ok), rest.stack);
      RunWaiterPends(Push(rest, [RunWaiters(ws[1..], c.stack[0].ok)]), ws[0], c.stack[0].ok);
    }
  }

  lemma TidyFail(c: Client, choice: nat)
    requires Tidy(c) && Enabled(c, Loop(choice)) && c.stack[0].FailPending?
    ensures Tidy(Turn(c, choice))
  {
    hide HelloDone, Issues, Failing, Ordered, Turn, Call;
    TurnFails(c, choice);
    var rest := c.(stack := c.stack[1..]);
    var dead: map<ReqId, Pending> := c.stack[0].dead;
    HeadFrame(c);
    if dead != map[] {
      PushedFrame(FailPending(dead - {choice}), rest.stack);
      if dead[choice].Hello? {
        TidyHello(Push(rest, [FailPending(dead - {choice})]), Bad);
      } else {
        FailedCallKeeps(Push(rest, [FailPending(dead - {choice})]), dead[choice].caller);
      }
    }
  }

  lemma TidyOther(c: Client, choice: nat)
    requires Tidy(c) && Enabled(c, Loop(choice)) && !c.stack[0].FailPending? && !c.stack[0].RunWaiters?
    ensures Tidy(Turn(c, choice))
  {
    hide Turn, Issues, Failing, Ordered;
    TurnOther(c, choice);
    HeadFrame(c);
    if Remainder(c, choice) != [] {
      PushedFrame(Remainder(c, choice)[0], c.stack[1..]);
      assert Remainder(c, choice) == [Remainder(c, choice)[0]];
    } else {
      assert Remainder(c, choice) + c.stack[1..] == c.stack[1..];
    }
  }

  lemma TidyTurn(c: Client, choice: nat)
    requires Tidy(c) && Enabled(c, Loop(choice))
    ensures Tidy(Turn(c, choice))
  {
    hide Turn, Tidy;
    if c.stack[0].RunWaiters? {
      TidyRun(c, choice);
    } else if c.stack[0].FailPending? {
      TidyFail(c, choice);
    } else {
      TidyOther(c, choice);
    }
  }

  lemma TidyStep(c: Client, s: Step)
    requires Tidy(c) && Enabled(c, s) && (s.Stop? ==> Issues(c.stack) == 0)
    ensures Tidy(Apply(c, s))
  {
    hide Tidy, Ensure, Teardown, Receive, Turn;
    match s
    case Request(execute, spawn) =>
      TidyEnsure(c, Issue(if execute then Execute(c.issued) else Plain(c.issued)), spawn);
    case EnsureOnly(spawn) => TidyEnsure(c, Await(c.issued), spawn);
    case Stop => StopKeepsTidy(c);
    case Deliver(m) => TidyReceive(c, m);
    case Exit => StopKeepsTidy(c);
    case Loop(choice) => TidyTurn(c, choice);
  }

  /** Whenever the daemon is stopped, no flush has a request left to send. */
  ghost predicate StopsStrandNothing(c: Client, steps: seq<Step>)
    requires Runs(c, steps)
    decreases |steps|
  {
    steps != [] ==>
      && (steps[0].Stop? ==> Issues(c.stack) == 0)
      && StopsStrandNothing(Apply(c, steps[0]), steps[1..])
  }

  /** So in every run in which no callback stops the daemon while a flush has a request left to send,
      a client that is idle without a daemon has empty tables. */
  lemma {:induction false} IdleWithoutDaemonOwesNothing(c: Client, steps: seq<Step>)
    requires Tidy(c) && Runs(c, steps) && StopsStrandNothing(c, steps)
    ensures Tidy(After(c, steps))
    ensures
      var last := After(c, steps);
      last.stack == [] && !last.job ==> last.pending == map[] && last.waiters == []
    decreases |steps|
  {
    assert c.stack == [] && !c.job ==> c.pending == map[] && c.waiters == [];
    hide Tidy, Apply, Issues;
    if steps != [] {
      TidyStep(c, steps[0]);
      IdleWithoutDaemonOwesNothing(Apply(c, steps[0]), steps[1..]);
    }
  }

  lemma OneMore(c: Client, steps: seq<Step>, s: Step)
    requires Runs(c, steps) && Enabled(After(c, steps), s)
    ensures Runs(c, steps + [s]) && After(c, steps + [s]) == Apply(After(c, steps), s)
    decreases |steps|
  {
    if steps != [] {
      assert (steps + [s])[1..] == steps[1..] + [s];
      OneMore(Apply(c, steps[0]), steps[1..], s);
    }
  }

  /** The rest of the flush sends its request to no one. */
  lemma SentToNobody(c: Client, steps: seq<Step>, d: Client) returns (more: seq<Step>)
    requires !d.job && d.pending == map[] && d.idSeq == 1 && d.depth == 1 && Runs(c, steps)
    requires After(c, steps) == d.(stack := [RunWaiters([Issue(Plain(1))], true), EndDispatch])
    ensures Runs(c, more)
    ensures After(c, more) == d.(stack := [], idSeq := 2, pending := map[2 := Answer(Plain(1))], depth := 0)
  {
    var sent := d.(idSeq := 2, pending := map[2 := Answer(Plain(1))]);
    var flush, left := [RunWaiters([Issue(Plain(1))], true), EndDispatch], [RunWaiters([], true), EndDispatch];
    assert flush[1..] == [EndDispatch] && left[1..] == [EndDispatch] && [Issue(Plain(1))][1..] == [];
    assert Turn(d.(stack := flush), 0) == sent.(stack := left);
    OneMore(c, steps, Loop(0));
    assert Turn(sent.(stack := left), 0) == sent.(stack := [EndDispatch]);
    OneMore(c, steps + [Loop(0)], Loop(0));
    assert Turn(sent.(stack := [EndDispatch]), 0) == sent.(stack := [], depth := 0);
    OneMore(c, steps + [Loop(0)] + [Loop(0)], Loop(0));
    more := steps + [Loop(0)] + [Loop(0)] + [Loop(0)];
  }

  /** Two ask for the daemon while it starts, and its handshake is good. */
  lemma GreetTwo(second: Waiter, greeted: Client) returns (steps: seq<Step>)
    requires second == Issue(Plain(1))
    requires greeted == NEW_CLIENT.(job := true, ready := true, idSeq := 1, issued := 2,
                                 sent := map[1 := Hello], depth := 1)
    ensures Runs(NEW_CLIENT, steps)
    ensures After(NEW_CLIENT, steps) == greeted.(stack := [RunWaiters([Await(0), second], true), EndDispatch])
  {
    var hello := Deliver(Response(1, Table(Some(1), 0)));
    steps := [EnsureOnly(Spawned), Request(false, Spawned), hello];
    var one := NEW_CLIENT.(job := true, idSeq := 1, pending := map[1 := Hello], waiters := [Await(0)], issued := 1,
                           sent := map[1 := Hello]);
    var two := one.(waiters := [Await(0), second], issued := 2);
    var full := greeted.(stack := [RunWaiters([Await(0), second], true), EndDispatch]);
    assert Apply(NEW_CLIENT, steps[0]) == one;
    assert Apply(one, steps[1]) == two;
    assert map[1 := Hello] - {1} == map[];
    assert Receive(two, hello.m) == full;
    assert steps[1..] == [Request(false, Spawned), hello] && steps[1..][1..] == [hello];
    assert Runs(full, []) && After(full, []) == full;
    assert Runs(two, [hello]) && After(two, [hello]) == full;
    assert Runs(one, steps[1..]) && After(one, steps[1..]) == full;
  }

  /** One turn of a loop that tells no one: its frame goes, or `next` takes its place. */
  lemma IdleTurn(c: Client, steps: seq<Step>, d: Client, f: Frame, next: seq<Frame>, rest: seq<Frame>)
    requires d.waiters == [] && d.watchers == map[] && Runs(c, steps)
    requires After(c, steps) == d.(stack := [f] + rest)
    requires match f
             case FailWaiters => next == [RunWaiters([], false)]
             case FailWatchers => next == [RunWatchers(map[])]
             case RunWaiters(ws, _) => ws == [] && next == []
             case FailPending(dead) => dead == map[] && next == []
             case RunWatchers(watched) => watched == map[] && next == []
             case EndDispatch => false
    ensures Runs(c, steps + [Loop(0)]) && After(c, steps + [Loop(0)]) == d.(stack := next + rest)
  {
    assert ([f] + rest)[1..] == rest && [] + rest == rest;
    OneMore(c, steps, Loop(0));
  }

  /** The loops of a teardown that has nothing to fail. */
  lemma EmptyTeardown(c: Client, steps: seq<Step>, d: Client, rest: seq<Frame>) returns (more: seq<Step>)
    requires d.waiters == [] && d.watchers == map[] && Runs(c, steps)
    requires After(c, steps) == d.(stack := [FailPending(map[]), FailWaiters, FailWatchers] + rest)
    ensures Runs(c, more) && After(c, more) == d.(stack := rest)
  {
    hide Runs, After;
    var after: seq<Frame> := [FailWatchers] + rest;
    var loop := [Loop(0)];
    assert [FailPending(map[]), FailWaiters, FailWatchers] + rest == [FailPending(map[])] + ([FailWaiters] + after);
    IdleTurn(c, steps, d, FailPending(map[]), [], [FailWaiters] + after);
    assert [] + ([FailWaiters] + after) == [FailWaiters] + after;
    IdleTurn(c, steps + loop, d, FailWaiters, [RunWaiters([], false)], after);
    IdleTurn(c, steps + loop + loop, d, RunWaiters([], false), [], after);
    assert [] + after == [FailWatchers] + rest;
    IdleTurn(c, steps + loop + loop + loop, d, FailWatchers, [RunWatchers(map[])], rest);
    IdleTurn(c, steps + loop + loop + loop + loop, d, RunWatchers(map[]), [], rest);
    assert [] + rest == rest;
    more := steps + loop + loop + loop + loop + loop;
  }

  /** Such a stop does happen: a client that waits for the handshake and then asks for something stops
      the daemon when it is told. The request is then pending although there is no daemon and nothing
      was sent, and stays so until a later daemon is torn down. */
  lemma StopDuringFlushStrandsRequest() returns (steps: seq<Step>)
    ensures Runs(NEW_CLIENT, steps)
    ensures
      var last := After(NEW_CLIENT, steps);
      && last.stack == [] && !last.job && last.issued == 2
      && last.pending == map[2 := Answer(Plain(1))] && 2 !in last.sent && Answers(last.fired, 1) == 0
  {
    var held := Issue(Plain(1));
    var greeted := NEW_CLIENT.(job := true, ready := true, idSeq := 1, issued := 2,
                                  sent := map[1 := Hello], depth := 1);
    steps := GreetTwo(held, greeted);
    var told := greeted.(fired := [Ensured(0, true)]);
    var flush := [RunWaiters([held], true), EndDispatch];
    assert [Await(0), held][1..] == [held];
    assert [RunWaiters([Await(0), held], true), EndDispatch][1..] == [EndDispatch];
    assert Turn(After(NEW_CLIENT, steps), 0) == told.(stack := flush);
    OneMore(NEW_CLIENT, steps, Loop(0));
    steps := steps + [Loop(0)];
    var stopped := told.(job := false, ready := false);
    assert Teardown(told.(stack := flush))
        == stopped.(stack := [FailPending(map[]), FailWaiters, FailWatchers] + flush);
    OneMore(NEW_CLIENT, steps, Stop);
    steps := steps + [Stop];
    steps := EmptyTeardown(NEW_CLIENT, steps, stopped, flush);
    steps := SentToNobody(NEW_CLIENT, steps, stopped);
    assert [Ensured(0, true)][..0] == [];
  }
}
