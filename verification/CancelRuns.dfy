/** What a cancel does and does not do, over whole runs of the engine: when it gets hold of a handle,
    what the handle strikes when it is fired, and that a call cancelled too early is run all the same. */
module CancelRuns {
  import opened Wrappers
  import opened Calls
  import opened CallEngine
  import opened EngineRuns

  // ── when a cancel takes a handle ───────────────────────────────────────────

  /** The step is the locked section of a cancel of the call. */
  ghost predicate Cancels(e: Engine, s: Step, call: CallId) {
    s.Advance? && s.req in e.tasks && e.tasks[s.req] == CancelFound(call)
  }

  ghost predicate Loaded(e: Engine, call: CallId) {
    call in e.cells && e.cells[call].cancel
  }

  lemma LoadedStep(e: Engine, s: Step, call: CallId)
    requires Inv(e) && Enabled(e, s)
    ensures Loaded(Apply(e, s), call) <==>
            s == Register(call, true) || (Loaded(e, call) && s != Close(call) && !Cancels(e, s, call))
  {
    hide HandlesFit, HoldersFit, ReadPage, Consistent, FreshOutcome, AnnouncementsFit, NoticesFit, Orderly;
    assert s.Advance? && Executing(e.tasks[s.req]) && !e.tasks[s.req].ExecNew? ==>
           Carries(e.tasks[s.req], e.tasks[s.req].call);
  }

  /** The worker registers a handle at step `i`, and after that neither closes the call nor does a
      cancel of the call come by. */
  ghost predicate LeftAt(steps: seq<Step>, call: CallId, i: nat)
    requires Runs(START, steps)
  {
    && i < |steps| && steps[i] == Register(call, true)
    && forall j :: i < j < |steps| ==> steps[j] != Close(call) && !Cancels(Before(steps, j), steps[j], call)
  }

  ghost predicate LeftBehind(steps: seq<Step>, call: CallId)
    requires Runs(START, steps)
  {
    exists i :: LeftAt(steps, call, i)
  }

  lemma LeftAtStep(steps: seq<Step>, call: CallId, i: nat)
    requires Runs(START, steps) && i + 1 < |steps|
    ensures
      var init, s := steps[..|steps| - 1], steps[|steps| - 1];
      && Runs(START, init)
      && (LeftAt(steps, call, i) <==>
          LeftAt(init, call, i) && s != Close(call) && !Cancels(After(START, init), s, call))
  {
    hide Cancels, Runs, After;
    var n := |steps| - 1;
    RunsSplit(START, steps, n);
    assert forall j :: 0 <= j < n ==> steps[..n][j] == steps[j] && steps[..n][..j] == steps[..j];
    assert Before(steps, n) == After(START, steps[..n]);
  }

  lemma LeftBehindStep(steps: seq<Step>, call: CallId)
    requires Runs(START, steps) && steps != []
    ensures
      var init, s := steps[..|steps| - 1], steps[|steps| - 1];
      && Runs(START, init)
      && (LeftBehind(steps, call) <==>
          s == Register(call, true)
          || (LeftBehind(init, call) && s != Close(call) && !Cancels(After(START, init), s, call)))
  {
    var n := |steps| - 1;
    RunsSplit(START, steps, n);
    assert steps[n] == Register(call, true) ==> LeftAt(steps, call, n);
    assert LeftAt(steps, call, n) ==> steps[n] == Register(call, true);
    hide Cancels, Runs, After, Before;
    forall i: nat | i < n
      ensures LeftAt(steps, call, i) <==> LeftAt(steps[..n], call, i) && steps[n] != Close(call)
                                          && !Cancels(After(START, steps[..n]), steps[n], call)
    {
      LeftAtStep(steps, call, i);
    }
    assert forall i: nat :: LeftAt(steps, call, i) ==> i <= n;
    assert forall i: nat :: LeftAt(steps[..n], call, i) ==> i < n;
    hide LeftAt;
  }

  lemma {:induction false} LoadedInRuns(steps: seq<Step>, call: CallId)
    requires Runs(START, steps)
    ensures Loaded(After(START, steps), call) <==> LeftBehind(steps, call)
    decreases |steps|
  {
    hide LeftBehind, Inv, Apply, Enabled, Cancels, Loaded;
    if steps == [] {
      NothingYet(call);
    } else {
      var init, s := steps[..|steps| - 1], steps[|steps| - 1];
      LastStep(START, steps);
      hide Runs, After;
      LoadedInRuns(init, call);
      LeftBehindStep(steps, call);
      RunFits(init);
      LoadedStep(After(START, init), s, call);
    }
  }

  lemma NothingYet(call: CallId)
    ensures !Loaded(START, call) && !LeftBehind([], call)
  {
  }

  /** A cancel's locked section takes a handle exactly when the worker has registered one and since then
      has not closed the call, and no other cancel of the call has come first. */
  lemma HandleTakenExactlyWhen(steps: seq<Step>, req: ReqId, fires: Result<()>, call: CallId)
    requires Runs(START, steps)
    requires req in After(START, steps).tasks && After(START, steps).tasks[req] == CancelFound(call)
    ensures Enabled(After(START, steps), Advance(req, fires))
    ensures Progress(After(START, steps), req, fires).tasks[req] == CancelTaken(call, LeftBehind(steps, call))
  {
    hide Runs, After, LeftBehind;
    var e := After(START, steps);
    RunFits(steps);
    LoadedInRuns(steps, call);
    hide Inv, ReadPage;
    NeverStuck(e);
    assert Progress(e, req, fires).tasks[req] == CancelTaken(call, e.cells[call].cancel);
  }

  // ── what a fired handle strikes ────────────────────────────────────────────

  ghost predicate Holds(e: Engine, call: CallId) {
    call in e.workers && HasConnection(e.workers[call])
  }

  ghost predicate Through(e: Engine, call: CallId) {
    call in e.workers && (e.workers[call].phase.Freed? || e.workers[call].phase.Closed?)
  }

  /** A request's task leaves the workers alone, or adds one that is queued. */
  lemma ProgressKeepsWorkers(e: Engine, req: ReqId, fires: Result<()>)
    requires Inv(e) && Enabled(e, Advance(req, fires))
    ensures
      var before, after := e.workers, Progress(e, req, fires).workers;
      && (forall c: CallId :: c in before ==> c in after && after[c] == before[c])
      && (forall c: CallId :: c in after && c !in before ==> after[c].phase.Queued?)
  {
    hide HandlesFit, HoldersFit, CallsFit, ReadPage, CancelSection, AnnouncementsFit, NoticesFit, Orderly;
    assert e.tasks[req].ExecReplied? ==> Carries(e.tasks[req], e.tasks[req].call);
  }

  lemma PhaseStep(e: Engine, s: Step, call: CallId)
    requires Inv(e) && Enabled(e, s)
    ensures Holds(Apply(e, s), call) <==> s == Acquire(call) || (Holds(e, call) && s != Free(call))
    ensures Through(Apply(e, s), call) <==> s == Free(call) || Through(e, call)
    ensures call in e.workers ==> call in Apply(e, s).workers && Apply(e, s).workers[call].conn == e.workers[call].conn
  {
    hide Inv, ReadPage, Consistent, FreshOutcome, CloseSection, Progress;
    match s
    case Advance(req, fires) => ProgressKeepsWorkers(e, req, fires);
    case Submit(_, _) =>
    case _ =>
  }

  /** The worker's last word on its connection is that it took it, at step `j`. */
  ghost predicate TookAt(steps: seq<Step>, call: CallId, j: nat) {
    j < |steps| && steps[j] == Acquire(call) && Free(call) !in steps[j + 1..]
  }

  ghost predicate Took(steps: seq<Step>, call: CallId) {
    exists j :: TookAt(steps, call, j)
  }

  lemma TookStep(steps: seq<Step>, call: CallId)
    requires steps != []
    ensures
      var init, s := steps[..|steps| - 1], steps[|steps| - 1];
      && (Took(steps, call) <==> s == Acquire(call) || (Took(init, call) && s != Free(call)))
      && (Free(call) in steps <==> s == Free(call) || Free(call) in init)
  {
    var n := |steps| - 1;
    var init, s := steps[..n], steps[n];
    assert steps == init + [s];
    if Took(steps, call) && s != Acquire(call) {
      var j :| TookAt(steps, call, j);
      assert steps[j + 1..] == init[j + 1..] + [s];
      assert TookAt(init, call, j);
    }
    if Took(init, call) && s != Free(call) {
      var j :| TookAt(init, call, j);
      assert steps[j + 1..] == init[j + 1..] + [s];
      assert TookAt(steps, call, j);
    }
    if s == Acquire(call) {
      assert TookAt(steps, call, n);
    }
  }

  /** In every run a worker has its connection exactly from its taking to its freeing it. */
  lemma {:induction false} ConnectionInRuns(steps: seq<Step>, call: CallId)
    requires Runs(START, steps)
    ensures Holds(After(START, steps), call) <==> Took(steps, call)
    ensures Through(After(START, steps), call) <==> Free(call) in steps
    decreases |steps|
  {
    hide Inv, Apply, Enabled, Took, Holds, Through;
    if steps == [] {
      NoneYet(call);
    } else {
      LastStep(START, steps);
      hide Runs, After;
      var init := steps[..|steps| - 1];
      ConnectionInRuns(init, call);
      TookStep(steps, call);
      RunFits(init);
      PhaseStep(After(START, init), steps[|steps| - 1], call);
    }
  }

  lemma NoneYet(call: CallId)
    ensures !Holds(START, call) && !Through(START, call) && !Took([], call)
  {
  }

  lemma {:induction false} ConnStays(e: Engine, steps: seq<Step>, call: CallId)
    requires Inv(e) && Runs(e, steps) && call in e.workers
    ensures call in After(e, steps).workers && After(e, steps).workers[call].conn == e.workers[call].conn
    decreases |steps|
  {
    hide Inv, Apply, Holds, Through;
    if steps != [] {
      PhaseStep(e, steps[0], call);
      InvStep(e, steps[0]);
      ConnStays(Apply(e, steps[0]), steps[1..], call);
    }
  }

  lemma HeldMidway(steps: seq<Step>, b: CallId, i: nat, j: nat)
    requires Runs(START, steps) && j < i <= |steps| && TookAt(steps, b, j)
    ensures Holds(Before(steps, i), b)
  {
    var init := steps[..i];
    RunsSplit(START, steps, i);
    hide Runs, After;
    assert steps[j + 1..] == init[j + 1..] + steps[i..];
    assert TookAt(init, b, j);
    ConnectionInRuns(init, b);
  }

  lemma ConnThen(steps: seq<Step>, i: nat, call: CallId)
    requires Runs(START, steps) && i <= |steps| && call in Before(steps, i).workers
    ensures call in After(START, steps).workers
    ensures Before(steps, i).workers[call].conn == After(START, steps).workers[call].conn
  {
    RunsSplit(START, steps, i);
    hide Runs, After;
    RunFits(steps[..i]);
    ConnStays(Before(steps, i), steps[i..], call);
  }

  lemma StepEnabled(steps: seq<Step>, i: nat)
    requires Runs(START, steps) && i < |steps|
    ensures Enabled(Before(steps, i), steps[i])
  {
    RunsSplit(START, steps, i);
  }

  /** Two workers of one connection have it one after the other. */
  lemma FreedBeforeTaken(steps: seq<Step>, call: CallId, b: CallId, i: nat, j: nat)
    requires Runs(START, steps) && i < |steps| && steps[i] == Free(call) && TookAt(steps, b, j)
    requires
      var workers := After(START, steps).workers;
      call in workers && b in workers && workers[call].conn == workers[b].conn
    ensures i < j
  {
    hide Runs, After, Inv, Before;
    if j < i {
      assert steps[j + 1..][i - (j + 1)] == Free(call);
      assert call != b;
      RunsSplit(START, steps, i);
      StepEnabled(steps, i);
      HeldMidway(steps, b, i, j);
      ConnThen(steps, i, b);
      ConnThen(steps, i, call);
      FitsBefore(steps, i);
      OneHolder(Before(steps, i), call, b);
    }
  }

  lemma FitsBefore(steps: seq<Step>, i: nat)
    requires Runs(START, steps) && i <= |steps|
    ensures Inv(Before(steps, i))
  {
    hide Inv, Runs, After;
    RunsSplit(START, steps, i);
    RunFits(steps[..i]);
  }

  lemma OneHolder(e: Engine, a: CallId, b: CallId)
    requires Inv(e) && Holds(e, a) && Holds(e, b) && e.workers[a].conn == e.workers[b].conn
    ensures a == b
  {
    hide TasksFit, CallsFit, HandlesFit, AnnouncementsFit, NoticesFit, Orderly;
  }

  /** After the call's worker freed the connection, worker `b` took it, and still has it. */
  ghost predicate PassedOn(steps: seq<Step>, call: CallId, b: CallId) {
    exists i, j :: 0 <= i < j && i < |steps| && steps[i] == Free(call) && TookAt(steps, b, j)
  }

  lemma PassedOnExactly(steps: seq<Step>, call: CallId, b: CallId)
    requires Runs(START, steps)
    requires
      var workers := After(START, steps).workers;
      call in workers && b in workers && workers[call].conn == workers[b].conn
    ensures PassedOn(steps, call, b) <==> Holds(After(START, steps), b) && Through(After(START, steps), call)
  {
    ConnectionInRuns(steps, b);
    ConnectionInRuns(steps, call);
    hide Runs, After, Holds, Through;
    if Took(steps, b) && Free(call) in steps {
      var j :| TookAt(steps, b, j);
      var i :| 0 <= i < |steps| && steps[i] == Free(call);
      FreedBeforeTaken(steps, call, b, i, j);
    }
    if PassedOn(steps, call, b) {
      var i, j :| 0 <= i < j && i < |steps| && steps[i] == Free(call) && TookAt(steps, b, j);
      assert steps[i] in steps;
    }
  }

  lemma TakenHandle(e: Engine, req: ReqId, fires: Result<()>, call: CallId)
    requires Inv(e) && req in e.tasks && e.tasks[req] == CancelTaken(call, true)
    ensures Enabled(e, Advance(req, fires)) && Progress(e, req, fires).fired == e.fired + [call]
    ensures call in e.workers && (Through(e, call) <==> !Holds(e, call))
  {
    hide TasksFit, CallsFit, HoldersFit, AnnouncementsFit, NoticesFit, Orderly;
    assert Takes(e.tasks[req], call);
  }

  lemma LockHolder(e: Engine, k: ConnId, b: CallId)
    requires Inv(e)
    ensures k in e.holders && e.holders[k] == b <==> Holds(e, b) && e.workers[b].conn == k
  {
    hide TasksFit, CallsFit, HandlesFit, AnnouncementsFit, NoticesFit, Orderly;
  }

  /** What a handle strikes when it is fired, in terms of the run so far: its own statement's
      connection exactly when its worker has not freed it, however long ago the handle was taken, and
      the statement of worker `b` exactly when `b` took the connection after that and has it still. */
  lemma HandleStrikesExactlyWhen(steps: seq<Step>, req: ReqId, fires: Result<()>, call: CallId, b: CallId)
    requires Runs(START, steps)
    requires req in After(START, steps).tasks && After(START, steps).tasks[req] == CancelTaken(call, true)
    ensures Enabled(After(START, steps), Advance(req, fires))
    ensures
      var e := After(START, steps);
      && Progress(e, req, fires).fired == e.fired + [call]
      && call in e.workers
      && var k := e.workers[call].conn;
         && (k in e.holders && e.holders[k] == call <==> Free(call) !in steps)
         && (b != call ==>
               (k in e.holders && e.holders[k] == b <==>
                b in e.workers && e.workers[b].conn == k && PassedOn(steps, call, b)))
  {
    var e := After(START, steps);
    RunFits(steps);
    TakenHandle(e, req, fires, call);
    ConnectionInRuns(steps, call);
    hide Runs, After, Inv, PassedOn, Through, Progress, Enabled;
    LockHolder(e, e.workers[call].conn, call);
    LockHolder(e, e.workers[call].conn, b);
    if b in e.workers && e.workers[b].conn == e.workers[call].conn {
      PassedOnExactly(steps, call, b);
      if Holds(e, b) && Holds(e, call) {
        OneHolder(e, call, b);
      }
    }
  }

  // ── and where it was taken ─────────────────────────────────────────────────

  /** Step `t` is the cancel's locked section, and it found a handle. */
  ghost predicate TakenAt(steps: seq<Step>, req: ReqId, call: CallId, t: nat)
    requires Runs(START, steps)
  {
    && t < |steps| && steps[t].Advance? && steps[t].req == req && Cancels(Before(steps, t), steps[t], call)
    && Loaded(Before(steps, t), call)
  }

  lemma HandStep(e: Engine, s: Step, req: ReqId, call: CallId)
    requires Inv(e) && Enabled(e, s)
    requires req in Apply(e, s).tasks && Apply(e, s).tasks[req] == CancelTaken(call, true)
    ensures (s.Advance? && s.req == req && Cancels(e, s, call) && Loaded(e, call))
            || (req in e.tasks && e.tasks[req] == CancelTaken(call, true))
  {
    hide Inv, ReadPage, Consistent, CloseSection, Progress, FreshOutcome;
    match s
    case Advance(r, fires) =>
      if r == req {
        ProgressTakes(e, req, fires, call);
      } else {
        OtherTasksStay(e, r, fires, req);
      }
    case Submit(_, _) =>
    case _ => assert Apply(e, s).tasks == e.tasks;
  }

  lemma ProgressTakes(e: Engine, req: ReqId, fires: Result<()>, call: CallId)
    requires Enabled(e, Advance(req, fires))
    requires req in Progress(e, req, fires).tasks && Progress(e, req, fires).tasks[req] == CancelTaken(call, true)
    ensures e.tasks[req] == CancelFound(call) && Loaded(e, call)
  {
    hide ReadPage;
  }

  lemma OtherTasksStay(e: Engine, r: ReqId, fires: Result<()>, req: ReqId)
    requires Enabled(e, Advance(r, fires)) && r != req && req in Progress(e, r, fires).tasks
    ensures req in e.tasks && Progress(e, r, fires).tasks[req] == e.tasks[req]
  {
    hide ReadPage, CancelSection;
    var tasks := Progress(e, r, fires).tasks;
    assert tasks == e.tasks - {r} || (r in tasks && tasks == e.tasks[r := tasks[r]]);
  }

  /** A handle in a cancel's hands was taken by that cancel's locked section, earlier in the run. */
  lemma {:induction false} HandleWasTaken(steps: seq<Step>, req: ReqId, call: CallId)
    requires Runs(START, steps)
    requires req in After(START, steps).tasks && After(START, steps).tasks[req] == CancelTaken(call, true)
    ensures exists t :: TakenAt(steps, req, call, t)
    decreases |steps|
  {
    hide Inv, Apply, Enabled, Cancels, Loaded;
    if steps != [] {
      var n := |steps| - 1;
      var init, s := steps[..n], steps[n];
      LastStep(START, steps);
      RunFits(init);
      HandStep(After(START, init), s, req, call);
      hide Runs, After;
      if Cancels(Before(steps, n), s, call) && s.Advance? && s.req == req && Loaded(Before(steps, n), call) {
        assert TakenAt(steps, req, call, n);
      } else {
        HandleWasTaken(init, req, call);
        var t: nat :| TakenAt(init, req, call, t);
        assert init[..t] == steps[..t];
        assert TakenAt(steps, req, call, t);
      }
    }
  }

  // ── a cancel that comes too early ──────────────────────────────────────────

  /** The call's worker has not run its statement yet. */
  ghost predicate Waiting(e: Engine, call: CallId) {
    call in e.workers && (var p := e.workers[call].phase; p.Queued? || p.Holding? || p.Registered?)
  }

  ghost predicate RunsStatement(s: Step, call: CallId) {
    s.RunStatement? && s.call == call
  }

  lemma WaitingStep(e: Engine, s: Step, call: CallId)
    requires Enabled(e, s) && Waiting(e, call)
    ensures Waiting(Apply(e, s), call) || RunsStatement(s, call)
  {
    hide ReadPage, CancelSection, CloseSection, Consistent, FreshOutcome;
  }

  lemma {:induction false} StatementIsRun(e: Engine, steps: seq<Step>, call: CallId)
    requires Runs(e, steps) && Waiting(e, call) && !Waiting(After(e, steps), call)
    ensures exists i :: 0 <= i < |steps| && RunsStatement(steps[i], call)
    decreases |steps|
  {
    hide Waiting, Apply, Enabled, RunsStatement;
    if RunsStatement(steps[0], call) {
    } else {
      WaitingStep(e, steps[0], call);
      StatementIsRun(Apply(e, steps[0]), steps[1..], call);
      var i :| 0 <= i < |steps[1..]| && RunsStatement(steps[1..][i], call);
      assert steps[i + 1] == steps[1..][i];
    }
  }

  /** A call cancelled before its worker has run the statement, even while the worker is still queued
      for the connection, has the statement run all the same: in every run that closes the call it is
      run, although the call stays cancelled. */
  lemma CancelledInQueueStillRuns(e: Engine, steps: seq<Step>, call: CallId)
    requires Inv(e) && Waiting(e, call) && call in e.cells && e.cells[call].status == Cancelled
    requires Runs(e, steps) && call in After(e, steps).workers && After(e, steps).workers[call].phase.Closed?
    ensures exists i :: 0 <= i < |steps| && RunsStatement(steps[i], call)
    ensures call in After(e, steps).cells && After(e, steps).cells[call].status == Cancelled
  {
    StatementIsRun(e, steps, call);
    OutcomeIsFinal(e, steps, call);
  }

  // ── runs that get there ────────────────────────────────────────────────────

  /** One step more, to a state given outright. */
  lemma Onwards(e: Engine, steps: seq<Step>, s: Step, d: Engine)
    requires Runs(e, steps) && Enabled(After(e, steps), s) && Apply(After(e, steps), s) == d
    ensures Runs(e, steps + [s]) && After(e, steps + [s]) == d
  {
    hide Enabled, Apply, Runs, After;
    OneMore(e, steps, s);
  }

  /** An execute request carried through to its queued worker, after any run. */
  lemma Launch(steps: seq<Step>, req: ReqId, conn: ConnId) returns (more: seq<Step>)
    requires Runs(START, steps) && req !in After(START, steps).tasks
    ensures Runs(START, more)
    ensures
      var e := After(START, steps);
      After(START, more) ==
      e.(nextCall := e.nextCall + 1, cells := e.cells[e.nextCall := NEW_CALL], listed := e.listed + {e.nextCall},
         workers := e.workers[e.nextCall := Worker(conn, Queued)], out := e.out + [Started(req, e.nextCall)])
  {
    var e := After(START, steps);
    var go := Advance(req, Ok(()));
    hide Runs, After;
    var numbered := e.(nextCall := e.nextCall + 1, tasks := e.tasks[req := ExecNumbered(conn, e.nextCall)]);
    assert e.tasks[req := ExecNew(conn)][req := ExecNumbered(conn, e.nextCall)] == numbered.tasks;
    Onwards(START, steps, Submit(req, Execute(conn, true)), e.(tasks := e.tasks[req := ExecNew(conn)]));
    more := steps + [Submit(req, Execute(conn, true))];
    Onwards(START, more, go, numbered);
    more := more + [go];
    more := Announce(more, e, req, conn);
  }

  lemma Announce(steps: seq<Step>, e: Engine, req: ReqId, conn: ConnId) returns (more: seq<Step>)
    requires Runs(START, steps) && req !in e.tasks
    requires After(START, steps) ==
             e.(nextCall := e.nextCall + 1, tasks := e.tasks[req := ExecNumbered(conn, e.nextCall)])
    ensures Runs(START, more)
    ensures After(START, more) ==
            e.(nextCall := e.nextCall + 1, cells := e.cells[e.nextCall := NEW_CALL], listed := e.listed + {e.nextCall},
               workers := e.workers[e.nextCall := Worker(conn, Queued)], out := e.out + [Started(req, e.nextCall)])
  {
    var c, go := e.nextCall, Advance(req, Ok(()));
    var tasks := e.tasks[req := ExecNumbered(conn, c)];
    assert tasks[req := ExecInserted(conn, c)] == e.tasks[req := ExecInserted(conn, c)];
    hide Runs, After;
    var e3 := e.(nextCall := c + 1, cells := e.cells[c := NEW_CALL], listed := e.listed + {c},
                 tasks := e.tasks[req := ExecInserted(conn, c)]);
    Onwards(START, steps, go, e3);
    more := HandOver(steps + [go], e3, req, conn, c);
    assert e.tasks[req := ExecInserted(conn, c)] - {req} == e.tasks;
  }

  lemma HandOver(steps: seq<Step>, e: Engine, req: ReqId, conn: ConnId, c: CallId) returns (more: seq<Step>)
    requires Runs(START, steps) && After(START, steps) == e && req in e.tasks && e.tasks[req] == ExecInserted(conn, c)
    ensures Runs(START, more)
    ensures After(START, more) == e.(out := e.out + [Started(req, c)], tasks := e.tasks - {req},
                                     workers := e.workers[c := Worker(conn, Queued)])
  {
    var go := Advance(req, Ok(()));
    hide Runs, After;
    var d := e.(out := e.out + [Started(req, c)], tasks := e.tasks[req := ExecReplied(conn, c)]);
    assert d.tasks - {req} == e.tasks - {req};
    Onwards(START, steps, go, d);
    Onwards(START, steps + [go], go, d.(tasks := e.tasks - {req}, workers := e.workers[c := Worker(conn, Queued)]));
    more := steps + [go] + [go];
  }

  const FAILING: Outcome := Err("failed")

  /** A queued worker takes a connection that is free, runs its statement, which fails, and frees the
      connection again. */
  lemma WorkThrough(e: Engine, steps: seq<Step>, call: CallId, supported: bool) returns (more: seq<Step>)
    requires Runs(e, steps) && At(After(e, steps), call, Queued)
    requires After(e, steps).workers[call].conn !in After(e, steps).holders
    ensures Runs(e, more)
    ensures
      var d := After(e, steps);
      After(e, more) ==
      d.(workers := d.workers[call := d.workers[call].(phase := Freed(FAILING))],
         cells := if supported then d.cells[call := RegisterSection(d.cells[call])] else d.cells)
  {
    var d := After(e, steps);
    hide Runs, After;
    var k := d.workers[call].conn;
    var cells := if supported then d.cells[call := RegisterSection(d.cells[call])] else d.cells;
    var d1 := d.(holders := d.holders[k := call], workers := d.workers[call := Worker(k, Holding)]);
    Onwards(e, steps, Acquire(call), d1);
    more := steps + [Acquire(call)];
    assert d1.workers[call := Worker(k, Registered)] == d.workers[call := Worker(k, Registered)];
    var d2 := d1.(cells := cells, workers := d.workers[call := Worker(k, Registered)]);
    Onwards(e, more, Register(call, supported), d2);
    more := more + [Register(call, supported)];
    more := RunAndFree(e, more, call, d, d2);
  }

  lemma RunAndFree(e: Engine, steps: seq<Step>, call: CallId, d: Engine, d2: Engine) returns (more: seq<Step>)
    requires Runs(e, steps) && After(e, steps) == d2 && call in d.workers && call in d2.cells
    requires d.workers[call].conn !in d.holders && d2.holders == d.holders[d.workers[call].conn := call]
    requires d2.workers == d.workers[call := Worker(d.workers[call].conn, Registered)]
    ensures Runs(e, more)
    ensures After(e, more) == d2.(holders := d.holders,
                                  workers := d.workers[call := d.workers[call].(phase := Freed(FAILING))])
  {
    var k := d.workers[call].conn;
    hide Runs, After;
    assert d2.workers[call := Worker(k, Ran(FAILING))] == d.workers[call := Worker(k, Ran(FAILING))];
    assert d.workers[call := Worker(k, Ran(FAILING))][call := Worker(k, Freed(FAILING))]
        == d.workers[call := Worker(k, Freed(FAILING))];
    assert d.holders[k := call] - {k} == d.holders;
    var d3 := d2.(workers := d.workers[call := Worker(k, Ran(FAILING))]);
    Onwards(e, steps, RunStatement(call, FAILING), d3);
    more := steps + [RunStatement(call, FAILING)];
    Onwards(e, more, Free(call), d3.(holders := d.holders, workers := d.workers[call := Worker(k, Freed(FAILING))]));
    more := more + [Free(call)];
  }

  /** Such a call: executed, and cancelled before its worker took the connection. The run `more` then
      closes it. */
  lemma CancelledInQueue() returns (steps: seq<Step>, more: seq<Step>)
    ensures Runs(START, steps) && At(After(START, steps), 1, Queued)
    ensures After(START, steps).cells[1].status == Cancelled
    ensures Runs(After(START, steps), more) && At(After(After(START, steps), more), 1, Closed)
  {
    assert Runs(START, []) && After(START, []) == START;
    steps := Launch([], 1, 0);
    hide Runs, After;
    OneMore(START, steps, Submit(2, Cancel(1)));
    steps := steps + [Submit(2, Cancel(1))];
    OneMore(START, steps, Advance(2, Ok(())));
    steps := steps + [Advance(2, Ok(()))];
    var e := After(START, steps);
    assert Runs(e, []) && After(e, []) == e by { NoSteps(e); }
    more := WorkThrough(e, [], 1, false);
    OneMore(e, more, Close(1));
    more := more + [Close(1)];
  }

  lemma NoSteps(e: Engine)
    ensures Runs(e, []) && After(e, []) == e
  {
  }

  /** A handle taken after its worker freed the connection, but before it closed the call, is fired
      while the next worker, of call 2, holds that connection. */
  lemma HandleCanStrikeTheNextStatement() returns (steps: seq<Step>)
    ensures Runs(START, steps)
    ensures
      var e := After(START, steps);
      && e.fired == [1] && 1 in e.workers && e.workers[1].phase.Freed?
      && At(e, 2, Holding) && e.workers[2].conn == e.workers[1].conn
      && e.workers[2].conn in e.holders && e.holders[e.workers[2].conn] == 2
  {
    NoSteps(START);
    hide Runs, After;
    steps := Launch([], 1, 0);
    steps := WorkThrough(START, steps, 1, true);
    steps := Launch(steps, 1, 0);
    OneMore(START, steps, Submit(3, Cancel(1)));
    steps := steps + [Submit(3, Cancel(1))];
    OneMore(START, steps, Advance(3, Ok(())));
    steps := steps + [Advance(3, Ok(()))];
    OneMore(START, steps, Acquire(2));
    steps := steps + [Acquire(2)];
    OneMore(START, steps, Advance(3, Ok(())));
    steps := steps + [Advance(3, Ok(()))];
  }
}
