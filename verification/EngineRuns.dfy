/** What holds in every run of the call engine, whatever is interleaved with what, and what does not. */
module EngineRuns {
  import opened Wrappers
  import opened Streams
  import opened Calls
  import opened CallEngine

  // ── whole runs ─────────────────────────────────────────────────────────────

  ghost predicate Runs(e: Engine, steps: seq<Step>)
    decreases |steps|
  {
    steps == [] || (Enabled(e, steps[0]) && Runs(Apply(e, steps[0]), steps[1..]))
  }

  ghost function After(e: Engine, steps: seq<Step>): Engine
    requires Runs(e, steps)
    decreases |steps|
  {
    if steps == [] then e else After(Apply(e, steps[0]), steps[1..])
  }

  lemma InvStep(e: Engine, s: Step)
    requires Inv(e) && Enabled(e, s)
    ensures Inv(Apply(e, s))
  {
    hide Bookkeeping, NoticesFit, AnnouncementsFit, Apply, Orderly;
    BookkeepingStep(e, s);
    AnnouncementsStep(e, s);
    ChannelStep(e, s);
  }

  lemma {:induction false} InvAlways(e: Engine, steps: seq<Step>)
    requires Inv(e) && Runs(e, steps)
    ensures Inv(After(e, steps))
    decreases |steps|
  {
    hide Inv, Apply;
    if steps != [] {
      InvStep(e, steps[0]);
      InvAlways(Apply(e, steps[0]), steps[1..]);
    }
  }

  lemma StartFits()
    ensures Inv(START)
  {
  }

  lemma {:induction false} RunsSplit(e: Engine, steps: seq<Step>, k: nat)
    requires Runs(e, steps) && k <= |steps|
    ensures Runs(e, steps[..k]) && Runs(After(e, steps[..k]), steps[k..])
    ensures After(After(e, steps[..k]), steps[k..]) == After(e, steps)
    decreases |steps|
  {
    hide Apply, Enabled;
    var init, rest := steps[..k], steps[k..];
    if k == 0 {
      assert init == [] && rest == steps;
    } else {
      var d, later := Apply(e, steps[0]), steps[1..];
      RunsSplit(d, later, k - 1);
      assert init[0] == steps[0] && init[1..] == later[..k - 1] && rest == later[k - 1..];
      assert Runs(e, init) && After(e, init) == After(d, init[1..]);
      assert After(e, steps) == After(d, later);
    }
  }

  /** The state of a run from the start after its first `k` steps. */
  ghost function Before(steps: seq<Step>, k: nat): Engine
    requires Runs(START, steps) && k <= |steps|
  {
    RunsSplit(START, steps, k);
    After(START, steps[..k])
  }

  lemma {:induction false} OneMore(e: Engine, steps: seq<Step>, s: Step)
    requires Runs(e, steps) && Enabled(After(e, steps), s)
    ensures Runs(e, steps + [s]) && After(e, steps + [s]) == Apply(After(e, steps), s)
    decreases |steps|
  {
    hide Apply, Enabled;
    if steps == [] {
      assert [s][1..] == [];
    } else {
      assert (steps + [s])[1..] == steps[1..] + [s];
      OneMore(Apply(e, steps[0]), steps[1..], s);
    }
  }

  lemma {:induction false} LastStep(e: Engine, steps: seq<Step>)
    requires Runs(e, steps) && steps != []
    ensures
      var init, s := steps[..|steps| - 1], steps[|steps| - 1];
      Runs(e, init) && Enabled(After(e, init), s) && After(e, steps) == Apply(After(e, init), s)
    decreases |steps|
  {
    hide Apply, Enabled;
    var n := |steps| - 1;
    if n > 0 {
      LastStep(Apply(e, steps[0]), steps[1..]);
      assert steps[1..][..n - 1] == steps[..n][1..];
    } else {
      assert steps[..n] == [] && steps[1..] == [];
    }
  }

  lemma RunFits(steps: seq<Step>)
    requires Runs(START, steps)
    ensures Inv(After(START, steps))
  {
    hide Inv, Runs, After;
    StartFits();
    InvAlways(START, steps);
  }

  /** In every interleaving from the start: a call is reported at most once, after its id was
      announced, exactly when its worker is done, and under the status the call then has. */
  lemma OneNoticePerCall(steps: seq<Step>, call: CallId)
    requires Runs(START, steps)
    ensures
      var e := After(START, steps);
      && Orderly(e.out)
      && Notices(e.out, call) == (if call in e.workers && e.workers[call].phase.Closed? then 1 else 0)
      && (forall i :: 0 <= i < |e.out| && e.out[i].State? && e.out[i].call == call ==>
            call in e.cells && e.out[i].status == e.cells[call].status != Running)
  {
    StartFits();
    InvAlways(START, steps);
  }

  predicate SameOutcome(c: CallState, d: CallState) {
    d.status == c.status && d.error == c.error && d.affected == c.affected
  }

  /** What the notice says when a worker closes its call: cancelled if a cancel came first, and
      otherwise how the statement ended, with the affected rows or the error it gave. */
  lemma NoticeTellsOutcome(e: Engine, call: CallId)
    requires Inv(e) && Enabled(e, Close(call))
    ensures
      var outcome := e.workers[call].phase.outcome;
      Apply(e, Close(call)).out == e.out + [
        if e.cells[call].status == Cancelled then State(call, Cancelled, None, None)
        else if outcome.Ok? then
          State(call, Done, None,
                if outcome.value.Buffered? && outcome.value.rows == [] then outcome.value.affected else None)
        else State(call, Failed, Some(outcome.error), None)]
  {
    hide TasksFit, HandlesFit, HoldersFit, AnnouncementsFit, NoticesFit, Orderly, WellFormed;
  }

  /** A step never changes the status of a call that has left Running, and makes a running call
      either cancelled (by a cancel) or done or failed (by its own worker's closing section). */
  lemma OutcomeStep(e: Engine, s: Step, call: CallId)
    requires Inv(e) && Enabled(e, s) && call in e.cells
    ensures
      var e' := Apply(e, s);
      && call in e'.cells
      && (e.cells[call].status != Running ==> SameOutcome(e.cells[call], e'.cells[call]))
      && (e.cells[call].status != e'.cells[call].status ==>
            if s.Close? then s.call == call && e'.cells[call].status in {Done, Failed}
            else s.Advance? && e.tasks[s.req] == CancelFound(call) && e'.cells[call].status == Cancelled)
  {
    hide HandlesFit, HoldersFit, ReadPage, Consistent, FreshOutcome, AnnouncementsFit, NoticesFit, Orderly;
    assert s.Advance? && Executing(e.tasks[s.req]) && !e.tasks[s.req].ExecNew? ==>
           Carries(e.tasks[s.req], e.tasks[s.req].call);
  }

  /** Once fixed, an outcome holds for the rest of every run, with its error and its affected rows; a
      cancel that found the call running fixes it as cancelled. */
  lemma {:induction false} OutcomeIsFinal(e: Engine, steps: seq<Step>, call: CallId)
    requires Inv(e) && Runs(e, steps) && call in e.cells && e.cells[call].status != Running
    ensures call in After(e, steps).cells && SameOutcome(e.cells[call], After(e, steps).cells[call])
    decreases |steps|
  {
    hide Inv, Apply;
    if steps != [] {
      OutcomeStep(e, steps[0], call);
      InvStep(e, steps[0]);
      OutcomeIsFinal(Apply(e, steps[0]), steps[1..], call);
    }
  }

  /** Only a finished call holds rows, and only a failed one an error. */
  predicate Clean(c: CallState) {
    && (c.status != Done ==> c.stream.None? && c.buffer == [] && !c.exhausted && c.affected.None?)
    && (c.error.Some? <==> c.status == Failed)
  }

  lemma CleanProgress(e: Engine, req: ReqId, fires: Result<()>, call: CallId)
    requires Enabled(e, Advance(req, fires)) && call in Progress(e, req, fires).cells
    requires call in e.cells ==> Clean(e.cells[call])
    ensures Clean(Progress(e, req, fires).cells[call])
  {
    hide Fill;
  }

  lemma CleanStep(e: Engine, s: Step, call: CallId)
    requires Inv(e) && Enabled(e, s) && call in Apply(e, s).cells && (call in e.cells ==> Clean(e.cells[call]))
    ensures Clean(Apply(e, s).cells[call])
  {
    hide Progress, TasksFit, HandlesFit, HoldersFit, AnnouncementsFit, NoticesFit, Orderly;
    if s.Advance? {
      CleanProgress(e, s.req, s.fires, call);
    } else if s.Close? {
      assert PhaseFits(e.workers[s.call].phase, e.cells[s.call]);
    }
  }

  /** In every run: a call that runs, failed or was cancelled holds no stream, no row and no count, whatever its
      statement gave; and it has an error exactly when it failed. */
  lemma {:induction false} OnlyDoneHolds(steps: seq<Step>, call: CallId)
    requires Runs(START, steps) && call in After(START, steps).cells
    ensures Clean(After(START, steps).cells[call])
    decreases |steps|
  {
    if steps != [] {
      LastStep(START, steps);
      var n := |steps| - 1;
      var e := After(START, steps[..n]);
      RunFits(steps[..n]);
      hide Runs, After, Clean, Apply, Enabled, Inv;
      if call in e.cells {
        OnlyDoneHolds(steps[..n], call);
      }
      CleanStep(e, steps[n], call);
    }
  }

  /** So a call that failed or was cancelled refuses every page ever asked of it, for its own reason. */
  lemma SettledCallRefusesPages(e: Engine, steps: seq<Step>, call: CallId, from: nat, n: nat)
    requires Inv(e) && Runs(e, steps) && call in e.cells && e.cells[call].status in {Failed, Cancelled}
    ensures call in After(e, steps).cells && Consistent(After(e, steps).cells[call])
    ensures
      var c := e.cells[call];
      var why := if c.status == Cancelled then "query was cancelled"
                 else if c.error.Some? then c.error.value else "query failed";
      ReadPage(After(e, steps).cells[call], from, n) == (After(e, steps).cells[call], Err(why))
  {
    hide Inv, Runs, After, Consistent;
    OutcomeIsFinal(e, steps, call);
    InvAlways(e, steps);
    CallsConsistent(After(e, steps));
  }

  lemma CancelFixesOutcome(e: Engine, req: ReqId, fires: Result<()>, steps: seq<Step>, call: CallId)
    requires Inv(e) && Enabled(e, Advance(req, fires)) && e.tasks[req] == CancelFound(call)
    requires call in e.cells && e.cells[call].status == Running
    requires Runs(Apply(e, Advance(req, fires)), steps)
    ensures
      var last := After(Apply(e, Advance(req, fires)), steps);
      && call in last.cells && last.cells[call].status == Cancelled
      && (forall i :: 0 <= i < |last.out| && last.out[i].State? && last.out[i].call == call ==>
          last.out[i].status == Cancelled)
  {
    hide Inv, Runs, After;
    var e' := Apply(e, Advance(req, fires));
    InvStep(e, Advance(req, fires));
    OutcomeIsFinal(e', steps, call);
    InvAlways(e', steps);
    NoticesNameStatus(After(e', steps));
  }

  lemma NoticesNameStatus(e: Engine)
    requires Inv(e)
    ensures forall i :: 0 <= i < |e.out| && e.out[i].State? ==>
              e.out[i].call in e.cells && e.out[i].status == e.cells[e.out[i].call].status
  {
    hide Bookkeeping, AnnouncementsFit, Orderly, Notices;
  }

  /** A cancel whose locked section comes after the worker's closing section takes no handle. */
  lemma LateCancelTakesNothing(e: Engine, req: ReqId, fires: Result<()>, call: CallId)
    requires Inv(e) && Enabled(e, Advance(req, fires)) && e.tasks[req] == CancelFound(call)
    requires call in e.workers && e.workers[call].phase.Closed?
    ensures Progress(e, req, fires).tasks[req] == CancelTaken(call, false)
  {
    hide TasksFit, HoldersFit, NoticesFit, AnnouncementsFit, Orderly, Notices, Starts;
  }

  /** In every run a handle is fired at most once, and only for a call that registered one. */
  lemma HandlesFireOnce(steps: seq<Step>, i: nat, j: nat)
    requires Runs(START, steps) && i < j < |After(START, steps).fired|
    ensures
      var e := After(START, steps);
      e.fired[i] != e.fired[j] && PastRegistration(e.workers, e.fired[i])
  {
    StartFits();
    InvAlways(START, steps);
  }

  /** The step takes up a release of the call. */
  predicate Releases(s: Step, call: CallId) {
    s.Submit? && s.request == Release(call)
  }

  /** A call is listed from the step that makes it on, and only a release of it ends that. */
  lemma ListedStep(e: Engine, s: Step, call: CallId)
    requires Inv(e) && Enabled(e, s)
    ensures
      var e' := Apply(e, s);
      && (call in e.cells ==> call in e'.cells && (call in e'.listed <==> call in e.listed && !Releases(s, call)))
      && (call !in e.cells && call in e'.cells ==> call in e'.listed)
  {
    hide HandlesFit, HoldersFit, ReadPage, Consistent, PhaseFits, AnnouncementsFit, NoticesFit, Orderly;
    assert s.Advance? && Executing(e.tasks[s.req]) && !e.tasks[s.req].ExecNew? ==>
           Carries(e.tasks[s.req], e.tasks[s.req].call);
  }

  lemma {:induction false} ListedUntilReleased(e: Engine, steps: seq<Step>, call: CallId)
    requires Inv(e) && Runs(e, steps) && call in e.cells
    ensures call in After(e, steps).cells
    ensures call in After(e, steps).listed <==>
            call in e.listed && forall i :: 0 <= i < |steps| ==> !Releases(steps[i], call)
    decreases |steps|
  {
    hide Inv, Apply, Releases;
    if steps != [] {
      ListedStep(e, steps[0], call);
      InvStep(e, steps[0]);
      ListedUntilReleased(Apply(e, steps[0]), steps[1..], call);
      assert forall i :: 1 <= i < |steps| ==> steps[1..][i - 1] == steps[i];
    }
  }

  /** The call is made at step `i`. */
  ghost predicate MadeAt(steps: seq<Step>, call: CallId, i: nat)
    requires Runs(START, steps)
  {
    i < |steps| && call !in Before(steps, i).cells && call in Before(steps, i + 1).cells
  }

  lemma {:induction false} WasMade(steps: seq<Step>, call: CallId) returns (i: nat)
    requires Runs(START, steps) && call in After(START, steps).cells
    ensures MadeAt(steps, call, i)
    decreases |steps|
  {
    hide Inv, Apply, Enabled;
    if steps != [] {
      var n := |steps| - 1;
      LastStep(START, steps);
      assert steps[..n + 1] == steps;
      if call !in Before(steps, n).cells {
        i := n;
      } else {
        i := WasMade(steps[..n], call);
        assert steps[..n][..i] == steps[..i] && steps[..n][..i + 1] == steps[..i + 1];
      }
    }
  }

  lemma MadeIsListed(steps: seq<Step>, call: CallId, i: nat)
    requires Runs(START, steps) && MadeAt(steps, call, i)
    ensures call in Before(steps, i + 1).listed && Inv(Before(steps, i + 1))
  {
    RunsSplit(START, steps, i + 1);
    RunsSplit(START, steps, i);
    var made := steps[..i + 1];
    assert made[..i] == steps[..i];
    LastStep(START, made);
    var e, s := After(START, steps[..i]), steps[i];
    assert Enabled(e, s) && Apply(e, s) == Before(steps, i + 1) && call !in e.cells && call in Apply(e, s).cells;
    RunFits(steps[..i]);
    hide Runs, After, Inv, Apply, Before, Enabled;
    InvStep(e, s);
    ListedStep(e, s, call);
  }

  /** In every run: the table resolves a call exactly as long as no release of it has been taken up since
      it was made. */
  lemma ListedExactly(steps: seq<Step>, call: CallId)
    requires Runs(START, steps) && call in After(START, steps).cells
    ensures exists i: nat :: MadeAt(steps, call, i)
              && (call in After(START, steps).listed <==>
                  forall j :: i < j < |steps| ==> !Releases(steps[j], call))
  {
    var i := WasMade(steps, call);
    RunsSplit(START, steps, i + 1);
    MadeIsListed(steps, call, i);
    var e, later := Before(steps, i + 1), steps[i + 1..];
    assert call in e.cells && e == After(START, steps[..i + 1]);
    hide Runs, After, Releases, Before, Inv;
    ListedUntilReleased(e, later, call);
    assert forall j :: i < j < |steps| ==> later[j - i - 1] == steps[j];
    assert forall j :: 0 <= j < |later| ==> later[j] == steps[j + i + 1];
  }

  /** Ids are never reused: once a release has been taken up, the id is refused for the rest of every
      run, as is everything that is asked of it. */
  lemma ReleasedIsGone(e: Engine, r: ReqId, steps: seq<Step>, call: CallId, req: ReqId, from: nat, n: nat)
    requires Inv(e) && Enabled(e, Submit(r, Release(call))) && call in e.cells
    requires Runs(Apply(e, Submit(r, Release(call))), steps)
    ensures
      var last := After(Apply(e, Submit(r, Release(call))), steps);
      && call !in last.listed
      && Accept(last, req, GetPage(call, from, n)) == Send(last, Refused(req, "no such call"))
      && Accept(last, req, Cancel(call)) == Send(last, Refused(req, "no such call"))
  {
    hide Inv, Runs, After;
    ListedStep(e, Submit(r, Release(call)), call);
    InvStep(e, Submit(r, Release(call)));
    ListedUntilReleased(Apply(e, Submit(r, Release(call))), steps, call);
  }

  /** The worker itself, or the one that has the connection it needs. */
  ghost predicate InCharge(e: Engine, c: CallId, mover: CallId)
    requires c in e.workers
  {
    mover == c || (e.workers[c].conn in e.holders && e.holders[e.workers[c].conn] == mover)
  }

  /** Every pending task can move, and an unfinished worker can move, or waits for a connection whose
      holder can. */
  lemma NeverStuck(e: Engine)
    requires Inv(e)
    ensures forall r: ReqId, fires: Result<()> :: r in e.tasks ==> Enabled(e, Advance(r, fires))
    ensures forall c: CallId :: c in e.workers && !e.workers[c].phase.Closed? ==>
              exists s: Step :: Enabled(e, s) && !s.Submit? && !s.Advance? && InCharge(e, c, s.call)
  {
    forall r: ReqId, fires: Result<()> | r in e.tasks ensures Enabled(e, Advance(r, fires)) {
      UsesOf(e, r);
    }
    forall c: CallId | c in e.workers && !e.workers[c].phase.Closed?
      ensures exists s: Step :: Enabled(e, s) && !s.Submit? && !s.Advance? && InCharge(e, c, s.call)
    {
      var w := e.workers[c];
      var next := if w.phase.Queued? && w.conn in e.holders then e.holders[w.conn] else c;
      assert Enabled(e, NextMove(e, next));
    }
  }

  function NextMove(e: Engine, c: CallId): Step
    requires c in e.workers && !e.workers[c].phase.Closed?
  {
    match e.workers[c].phase
    case Queued => Acquire(c)
    case Holding => Register(c, false)
    case Registered => RunStatement(c, Err("failed"))
    case Ran(_) => Free(c)
    case Freed(_) => Close(c)
  }

  /** When a statement gave a stream, its closing section makes the call pageable with exactly the rows
      that stream has before its first fault, if it has one. */
  lemma ClosedCallIsPageable(e: Engine, call: CallId)
    requires Inv(e) && Enabled(e, Close(call)) && e.cells[call].status == Running
    requires e.workers[call].phase.outcome.Ok?
    ensures
      var c, given := Apply(e, Close(call)).cells[call], e.workers[call].phase.outcome.value;
      && WellFormed(given) && Pageable(c) && Full(c) == Rest(given)
      && NextFault(c.stream.value) == NextFault(given)
  {
    hide TasksFit, HandlesFit, HoldersFit, AnnouncementsFit, NoticesFit, Orderly, Rest, NextFault;
    SectionFits(e, Close(call));
    assert Fresh(e.cells[call]);
  }

  /** What a step may do to a finished call: serve a page from it, or touch its spent handle. */
  lemma DoneStep(e: Engine, s: Step, call: CallId)
    requires Inv(e) && Enabled(e, s) && call in e.cells && e.cells[call].status == Done
    ensures
      var c := e.cells[call];
      && call in Apply(e, s).cells
      && (if s.Advance? && e.tasks[s.req].PageFound? && e.tasks[s.req].call == call
          then Apply(e, s).cells[call] == ReadPage(c, e.tasks[s.req].from, e.tasks[s.req].n).0
          else Apply(e, s).cells[call] == c.(cancel := Apply(e, s).cells[call].cancel))
  {
    hide HandlesFit, HoldersFit, ReadPage, Consistent, FreshOutcome, AnnouncementsFit, NoticesFit, Orderly;
    assert s.Advance? && Executing(e.tasks[s.req]) && !e.tasks[s.req].ExecNew? ==>
           Carries(e.tasks[s.req], e.tasks[s.req].call);
  }

  /** The step reads a page of the call. */
  ghost predicate Serves(e: Engine, s: Step, call: CallId) {
    s.Advance? && s.req in e.tasks && e.tasks[s.req].PageFound? && e.tasks[s.req].call == call
  }

  /** No page of the call that the run reads asks for rows beyond the first `k`. */
  ghost predicate AsksWithin(e: Engine, steps: seq<Step>, call: CallId, k: nat)
    requires Runs(e, steps)
    decreases |steps|
  {
    steps != [] ==>
      && (Serves(e, steps[0], call) ==> e.tasks[steps[0].req].from + e.tasks[steps[0].req].n <= k)
      && AsksWithin(Apply(e, steps[0]), steps[1..], call, k)
  }

  /** Every page of the call that the run reads is cut out of `full`. */
  ghost predicate ReadsSlices(e: Engine, steps: seq<Step>, call: CallId, full: seq<Row>)
    requires Runs(e, steps)
    decreases |steps|
  {
    steps != [] ==>
      && (Serves(e, steps[0], call) ==> PageSliced(e, steps[0], full))
      && ReadsSlices(Apply(e, steps[0]), steps[1..], call, full)
  }

  ghost predicate PageSliced(e: Engine, s: Step, full: seq<Row>)
    requires Enabled(e, s) && s.Advance? && e.tasks[s.req].PageFound?
  {
    var t := Apply(e, s).tasks[s.req];
    t.PageRead? && Sliced(full, e.tasks[s.req].from, e.tasks[s.req].n, t.result)
  }

  /** Reading a page cuts it out of the result, exactly when it does not ask for rows beyond a fault;
      then, and in every other step, the result stays what it is. */
  lemma ResultStep(e: Engine, s: Step, call: CallId)
    requires Inv(e) && Enabled(e, s) && call in e.cells && Pageable(e.cells[call])
    ensures
      var c, e' := e.cells[call], Apply(e, s);
      && (Serves(e, s, call) ==>
            (PageSliced(e, s, Full(c)) <==> Reaches(c, e.tasks[s.req].from + e.tasks[s.req].n)))
      && ((Serves(e, s, call) ==> Reaches(c, e.tasks[s.req].from + e.tasks[s.req].n)) ==>
            && call in e'.cells && Pageable(e'.cells[call]) && Full(e'.cells[call]) == Full(c)
            && NextFault(e'.cells[call].stream.value) == NextFault(c.stream.value)
            && c.buffer <= e'.cells[call].buffer)
  {
    if Serves(e, s, call) {
      ServedPage(e, s, call);
    }
    hide Inv, ReadPage, Rest, NextFault, WellFormed, Fill, Apply, PageSliced, Sliced;
    DoneStep(e, s, call);
    if Serves(e, s, call) {
      PageIsSlice(e.cells[call], e.tasks[s.req].from, e.tasks[s.req].n);
    }
  }

  lemma ServedPage(e: Engine, s: Step, call: CallId)
    requires Inv(e) && Enabled(e, s) && Serves(e, s, call)
    ensures call in e.cells && Consistent(e.cells[call])
    ensures forall full: seq<Row> :: PageSliced(e, s, full) <==>
              Sliced(full, e.tasks[s.req].from, e.tasks[s.req].n,
                     ReadPage(e.cells[call], e.tasks[s.req].from, e.tasks[s.req].n).1)
    ensures forall full: seq<Row> :: PageSliced(e, s, full) ==>
              ReadPage(e.cells[call], e.tasks[s.req].from, e.tasks[s.req].n).1.Ok?
  {
    hide Inv, ReadPage, Consistent;
  }

  /** Whatever else runs in between, and in whatever order pages are asked for: the pages of a finished
      call that a run reads are all slices of the result it had when it finished, exactly when there is
      no read error ahead or none of them asks for rows beyond it. */
  lemma {:induction false} PagesAgreeInEveryRun(e: Engine, steps: seq<Step>, call: CallId)
    requires Inv(e) && Runs(e, steps) && call in e.cells && Pageable(e.cells[call])
    ensures
      var c := e.cells[call];
      ReadsSlices(e, steps, call, Full(c)) <==>
      (Faulty(c.stream.value) ==> AsksWithin(e, steps, call, |Full(c)|))
    decreases |steps|
  {
    hide Inv, Apply, Pageable, Full, NextFault, PageSliced;
    if steps != [] {
      ResultStep(e, steps[0], call);
      InvStep(e, steps[0]);
      var c := e.cells[call];
      if Serves(e, steps[0], call) ==> Reaches(c, e.tasks[steps[0].req].from + e.tasks[steps[0].req].n) {
        PagesAgreeInEveryRun(Apply(e, steps[0]), steps[1..], call);
      }
    }
  }

  /** As long as none asks for rows beyond a read error, the result stays what it is. */
  lemma {:induction false} ResultKept(e: Engine, steps: seq<Step>, call: CallId)
    requires Inv(e) && Runs(e, steps) && call in e.cells && Pageable(e.cells[call])
    requires Faulty(e.cells[call].stream.value) ==> AsksWithin(e, steps, call, |Full(e.cells[call])|)
    ensures
      var c, last := e.cells[call], After(e, steps);
      && call in last.cells && Pageable(last.cells[call]) && Full(last.cells[call]) == Full(c)
      && NextFault(last.cells[call].stream.value) == NextFault(c.stream.value)
    decreases |steps|
  {
    hide Inv, Apply, Pageable, Full, NextFault, PageSliced;
    if steps != [] {
      ResultStep(e, steps[0], call);
      InvStep(e, steps[0]);
      ResultKept(Apply(e, steps[0]), steps[1..], call);
    }
  }

  /** From the statement to the page: the rows a finished statement gave are what every later page of
      its call is cut from, up to a read error. */
  lemma ResultIsServed(e: Engine, call: CallId, steps: seq<Step>)
    requires Inv(e) && Enabled(e, Close(call)) && e.cells[call].status == Running
    requires e.workers[call].phase.outcome.Ok? && Runs(Apply(e, Close(call)), steps)
    ensures
      var given := e.workers[call].phase.outcome.value;
      && WellFormed(given)
      && (ReadsSlices(Apply(e, Close(call)), steps, call, Rest(given))
          <==> (Faulty(given) ==> AsksWithin(Apply(e, Close(call)), steps, call, |Rest(given)|)))
  {
    hide Inv, Apply, Runs, Pageable, Full, Rest, NextFault, WellFormed, ReadsSlices, AsksWithin;
    OutcomeOf(e, call);
    ClosedCallIsPageable(e, call);
    InvStep(e, Close(call));
    PagesAgreeInEveryRun(Apply(e, Close(call)), steps, call);
  }

  lemma OutcomeOf(e: Engine, call: CallId)
    requires Inv(e) && Enabled(e, Close(call))
    ensures FreshOutcome(e.workers[call].phase.outcome) && call in Apply(e, Close(call)).cells
  {
    hide TasksFit, HandlesFit, HoldersFit, AnnouncementsFit, NoticesFit, Orderly, CloseSection;
  }

  lemma CallsConsistent(e: Engine)
    requires Inv(e)
    ensures forall c: CallId :: c in e.cells ==> Consistent(e.cells[c])
  {
    hide Consistent, HandlesFit, HoldersFit, TasksFit, AnnouncementsFit, NoticesFit, Orderly, PhaseFits;
  }
}
