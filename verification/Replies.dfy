/** What goes out on the channel for a request, in every run, from the moment it is taken up: exactly one
    answer, and the right one. */
module Replies {
  import opened Wrappers
  import opened Streams
  import opened Calls
  import opened CallEngine
  import opened EngineRuns
  import opened CancelRuns

  /** The answers on the channel for a request id, in order. */
  ghost function AnswersTo(out: seq<Message>, req: ReqId): seq<Message> {
    if out == [] then []
    else AnswersTo(out[..|out| - 1], req) + (var m := out[|out| - 1]; if !m.State? && m.req == req then [m] else [])
  }

  lemma OneSent(out: seq<Message>, m: Message, req: ReqId)
    ensures AnswersTo(out + [m], req) == AnswersTo(out, req) + if !m.State? && m.req == req then [m] else []
  {
    assert (out + [m])[..|out|] == out;
  }

  /** The request's own steps; everything else leaves it alone. */
  predicate Moves(s: Step, req: ReqId) {
    s.Advance? && s.req == req
  }

  /** The id is not used for another request. */
  predicate Undisturbed(steps: seq<Step>, req: ReqId) {
    forall i :: 0 <= i < |steps| ==> !(steps[i].Submit? && steps[i].req == req)
  }

  ghost predicate SameFor(e: Engine, e': Engine, req: ReqId) {
    && AnswersTo(e'.out, req) == AnswersTo(e.out, req)
    && (req in e'.tasks <==> req in e.tasks) && (req in e.tasks ==> e'.tasks[req] == e.tasks[req])
  }

  /** A step of one request puts at most one message on the channel, for itself. */
  lemma OwnMessage(e: Engine, r: ReqId, fires: Result<()>)
    requires Enabled(e, Advance(r, fires))
    ensures
      var out := Progress(e, r, fires).out;
      out == e.out
      || (|out| == |e.out| + 1 && out == e.out + [out[|e.out|]] && !out[|e.out|].State? && out[|e.out|].req == r)
  {
    hide ReadPage, CancelSection;
  }

  lemma OtherTaskLeaves(e: Engine, r: ReqId, fires: Result<()>, req: ReqId)
    requires Enabled(e, Advance(r, fires)) && r != req
    ensures SameFor(e, Progress(e, r, fires), req)
  {
    hide AnswersTo, Progress;
    var e' := Progress(e, r, fires);
    OwnMessage(e, r, fires);
    if e'.out != e.out {
      OneSent(e.out, e'.out[|e.out|], req);
    }
    OtherTasksKept(e, r, fires, req);
  }

  lemma OtherTasksKept(e: Engine, r: ReqId, fires: Result<()>, req: ReqId)
    requires Enabled(e, Advance(r, fires)) && r != req
    ensures req in Progress(e, r, fires).tasks <==> req in e.tasks
    ensures req in e.tasks ==> Progress(e, r, fires).tasks[req] == e.tasks[req]
  {
    hide ReadPage, CancelSection;
    var tasks := Progress(e, r, fires).tasks;
    assert tasks == e.tasks - {r} || (r in tasks && tasks == e.tasks[r := tasks[r]]);
  }

  lemma OthersLeave(e: Engine, s: Step, req: ReqId)
    requires Enabled(e, s) && !Moves(s, req) && !(s.Submit? && s.req == req)
    ensures SameFor(e, Apply(e, s), req)
  {
    hide AnswersTo, Progress, CloseSection;
    match s
    case Advance(r, fires) => OtherTaskLeaves(e, r, fires, req);
    case Submit(r, request) => AcceptLeaves(e, r, request, req);
    case Close(call) =>
      OneSent(e.out, Notice(call, CloseSection(e.cells[call], e.workers[call].phase.outcome)), req);
    case _ =>
  }

  lemma AcceptLeaves(e: Engine, r: ReqId, request: Request, req: ReqId)
    requires r != req
    ensures SameFor(e, Accept(e, r, request), req)
  {
    hide AnswersTo;
    var e' := Accept(e, r, request);
    if e'.out != e.out {
      OneSent(e.out, e'.out[|e.out|], req);
      assert e'.out == e.out + [e'.out[|e.out|]];
    }
  }

  lemma SameForChain(a: Engine, b: Engine, c: Engine, req: ReqId)
    requires SameFor(a, b, req) && SameFor(b, c, req)
    ensures SameFor(a, c, req)
  {
  }

  /** A request's next step in a run, or the run's end. */
  lemma {:induction false} FirstMove(e: Engine, steps: seq<Step>, req: ReqId) returns (i: nat)
    requires Runs(e, steps) && Undisturbed(steps, req)
    ensures i <= |steps| && Runs(e, steps[..i]) && SameFor(e, After(e, steps[..i]), req)
    ensures i < |steps| ==> Moves(steps[i], req)
    ensures i < |steps| ==> Enabled(After(e, steps[..i]), steps[i])
    ensures i < |steps| ==> Runs(Apply(After(e, steps[..i]), steps[i]), steps[i + 1..])
    ensures i < |steps| ==> After(Apply(After(e, steps[..i]), steps[i]), steps[i + 1..]) == After(e, steps)
    ensures i == |steps| ==> After(e, steps[..i]) == After(e, steps)
    decreases |steps|
  {
    hide Apply, Enabled, SameFor;
    if steps == [] || Moves(steps[0], req) {
      i := 0;
      assert steps[..0] == [];
      assert SameFor(e, e, req) by { NothingMoved(e, req); }
    } else {
      var d := Apply(e, steps[0]);
      OthersLeave(e, steps[0], req);
      var j := FirstMove(d, steps[1..], req);
      i := j + 1;
      assert steps[..i][0] == steps[0] && steps[..i][1..] == steps[1..][..j];
      assert i < |steps| ==> steps[i + 1..] == steps[1..][j + 1..];
      SameForChain(e, d, After(d, steps[1..][..j]), req);
    }
  }

  lemma NothingMoved(e: Engine, req: ReqId)
    ensures SameFor(e, e, req)
  {
  }

  /** Once served a request gets nothing more. */
  lemma ServedStays(e: Engine, steps: seq<Step>, req: ReqId)
    requires Runs(e, steps) && Undisturbed(steps, req) && req !in e.tasks
    ensures AnswersTo(After(e, steps).out, req) == AnswersTo(e.out, req)
  {
    hide Runs, After, AnswersTo;
    var i := FirstMove(e, steps, req);
  }

  // ── pages ──────────────────────────────────────────────────────────────────

  /** In every state reached a finished call's buffer and stream make up its result. */
  ghost predicate DonePageable(e: Engine) {
    forall c: CallId :: c in e.cells && e.cells[c].status == Done ==> Pageable(e.cells[c])
  }

  lemma DonePageableStep(e: Engine, s: Step)
    requires Inv(e) && DonePageable(e) && Enabled(e, s)
    ensures DonePageable(Apply(e, s))
  {
    hide Inv, Apply, Pageable;
    InvStep(e, s);
    forall c: CallId | c in Apply(e, s).cells && Apply(e, s).cells[c].status == Done
      ensures Pageable(Apply(e, s).cells[c])
    {
      CellStep(e, s, c);
      if c in e.cells && e.cells[c].status == Done {
        DoneStep(e, s, c);
        DoneStays(e, s, c);
      } else {
        CloseMakesPageable(e, s, c);
      }
    }
  }

  lemma CellStep(e: Engine, s: Step, c: CallId)
    requires Inv(e) && Enabled(e, s) && c in Apply(e, s).cells && Apply(e, s).cells[c].status == Done
    ensures c in e.cells && (e.cells[c].status != Done ==> s == Close(c) && e.cells[c].status == Running)
  {
    hide Inv, Apply, Enabled;
    if c in e.cells {
      OutcomeStep(e, s, c);
    } else {
      StepAdds(e, s);
    }
  }

  /** A task only ever adds calls, each new, and firings. */
  lemma ProgressAdds(e: Engine, req: ReqId, fires: Result<()>)
    requires Enabled(e, Advance(req, fires))
    ensures
      var e' := Progress(e, req, fires);
      && e.cells.Keys <= e'.cells.Keys
      && (forall c: CallId :: c in e'.cells && c !in e.cells ==> e'.cells[c] == NEW_CALL)
      && e.fired <= e'.fired
  {
    hide ReadPage, CancelSection;
  }

  lemma StepAdds(e: Engine, s: Step)
    requires Enabled(e, s)
    ensures
      var e' := Apply(e, s);
      && e.cells.Keys <= e'.cells.Keys
      && (forall c: CallId :: c in e'.cells && c !in e.cells ==> e'.cells[c] == NEW_CALL)
      && e.fired <= e'.fired
  {
    hide Progress, Accept, CloseSection, Consistent, FreshOutcome;
    match s
    case Advance(req, fires) => ProgressAdds(e, req, fires);
    case Submit(req, request) => AcceptShape(e, req, request);
    case _ =>
  }

  lemma CloseMakesPageable(e: Engine, s: Step, c: CallId)
    requires Inv(e) && Enabled(e, s) && s == Close(c) && c in e.cells && e.cells[c].status == Running
    requires Apply(e, s).cells[c].status == Done
    ensures Pageable(Apply(e, s).cells[c])
  {
    var outcome := e.workers[c].phase.outcome;
    assert outcome.Ok?;
    ClosedCallIsPageable(e, c);
  }

  lemma DoneStays(e: Engine, s: Step, c: CallId)
    requires Enabled(e, s) && c in e.cells && Pageable(e.cells[c]) && c in Apply(e, s).cells
    requires if Serves(e, s, c)
             then Apply(e, s).cells[c] == ReadPage(e.cells[c], e.tasks[s.req].from, e.tasks[s.req].n).0
             else Apply(e, s).cells[c] == e.cells[c].(cancel := Apply(e, s).cells[c].cancel)
    ensures Pageable(Apply(e, s).cells[c])
  {
    hide ReadPage, Apply, Enabled;
    if Serves(e, s, c) {
      PageKeepsPageable(e.cells[c], e.tasks[s.req].from, e.tasks[s.req].n);
    }
  }

  lemma DonePageableAlways(steps: seq<Step>)
    requires Runs(START, steps)
    ensures DonePageable(After(START, steps))
    decreases |steps|
  {
    hide Inv, Apply, Enabled, DonePageable;
    if steps == [] {
      NoCalls();
    } else {
      var init := steps[..|steps| - 1];
      LastStep(START, steps);
      RunFits(init);
      DonePageableAlways(init);
      DonePageableStep(After(START, init), steps[|steps| - 1]);
    }
  }

  lemma NoCalls()
    ensures DonePageable(START)
  {
  }

  /** The answer to a page request, by the state of its call when the page was read: not ready while the
      call runs; its own reason when it was cancelled or failed; otherwise the slice of its result, or the
      read error the request runs into. */
  ghost predicate RightPage(c: CallState, from: nat, n: nat, req: ReqId, m: Message) {
    match c.status
    case Running => m == Paged(req, NotReady)
    case Cancelled => m == Refused(req, "query was cancelled")
    case Failed => m == Refused(req, if c.error.Some? then c.error.value else "query failed")
    case Done =>
      && Pageable(c)
      && (if Reaches(c, from + n) then
            && m.Paged? && m.req == req && Sliced(Full(c), from, n, Ok(m.reply))
            && m.reply.affected == c.affected && RightTotal(c, m.reply)
          else m == Refused(req, NextFault(c.stream.value).value))
  }

  lemma ReadIsRight(c: CallState, from: nat, n: nat, req: ReqId)
    requires Consistent(c) && (c.status == Done ==> Pageable(c))
    ensures
      var r := ReadPage(c, from, n).1;
      RightPage(c, from, n, req, if r.Ok? then Paged(req, r.value) else Refused(req, r.error))
  {
    if c.status == Done {
      hide ReadPage, Full, Rest, NextFault, WellFormed;
      PageIsSlice(c, from, n);
    }
  }

  lemma PageSteps(e: Engine, req: ReqId, fires: Result<()>)
    requires Enabled(e, Advance(req, fires))
    ensures
      var t, e' := e.tasks[req], Progress(e, req, fires);
      && (t.PageFound? ==>
            && req in e'.tasks && e'.tasks[req] == PageRead(ReadPage(e.cells[t.call], t.from, t.n).1)
            && AnswersTo(e'.out, req) == AnswersTo(e.out, req))
      && (t.PageRead? ==>
            && req !in e'.tasks
            && AnswersTo(e'.out, req) == AnswersTo(e.out, req)
                 + [if t.result.Ok? then Paged(req, t.result.value) else Refused(req, t.result.error)])
  {
    hide ReadPage, AnswersTo, CancelSection;
    if e.tasks[req].PageRead? {
      var r := e.tasks[req].result;
      OneSent(e.out, if r.Ok? then Paged(req, r.value) else Refused(req, r.error), req);
    }
  }

  /** A page once read goes out as it was read, as the one answer to its request. */
  lemma ReadGoesOut(e: Engine, steps: seq<Step>, req: ReqId, result: Result<PageReply>)
    requires Runs(e, steps) && Undisturbed(steps, req) && req !in After(e, steps).tasks
    requires req in e.tasks && e.tasks[req] == PageRead(result)
    ensures AnswersTo(After(e, steps).out, req) == AnswersTo(e.out, req)
              + [if result.Ok? then Paged(req, result.value) else Refused(req, result.error)]
  {
    var i := FirstMove(e, steps, req);
    var d := After(e, steps[..i]);
    assert i < |steps|;
    hide Runs, After, AnswersTo;
    PageSteps(d, req, steps[i].fires);
    LaterUndisturbed(steps, req, i + 1);
    ServedStays(Apply(d, steps[i]), steps[i + 1..], req);
  }

  lemma LaterUndisturbed(steps: seq<Step>, req: ReqId, k: nat)
    requires Undisturbed(steps, req) && k <= |steps|
    ensures Undisturbed(steps[k..], req)
  {
  }

  /** Step `i` of the run reads the page that `req` asked for. */
  ghost predicate ReadsFor(e: Engine, steps: seq<Step>, req: ReqId, call: CallId, i: nat)
    requires Runs(e, steps)
  {
    i < |steps| && Moves(steps[i], req) && Runs(e, steps[..i]) && call in After(e, steps[..i]).cells
  }

  lemma PageAfterFound(e: Engine, steps: seq<Step>, req: ReqId, call: CallId, from: nat, n: nat) returns (i: nat)
    requires Runs(e, steps) && Undisturbed(steps, req) && req !in After(e, steps).tasks
    requires req in e.tasks && e.tasks[req] == PageFound(call, from, n)
    ensures ReadsFor(e, steps, req, call, i) && Consistent(After(e, steps[..i]).cells[call])
    ensures
      var r := ReadPage(After(e, steps[..i]).cells[call], from, n).1;
      AnswersTo(After(e, steps).out, req) ==
      AnswersTo(e.out, req) + [if r.Ok? then Paged(req, r.value) else Refused(req, r.error)]
  {
    i := FirstMove(e, steps, req);
    var d := After(e, steps[..i]);
    assert i < |steps|;
    assert Enabled(d, Advance(req, steps[i].fires)) && call in d.cells && Consistent(d.cells[call]);
    hide Runs, After, AnswersTo, ReadPage, Consistent;
    PageSteps(d, req, steps[i].fires);
    LaterUndisturbed(steps, req, i + 1);
    ReadGoesOut(Apply(d, steps[i]), steps[i + 1..], req, ReadPage(d.cells[call], from, n).1);
  }

  /** In every run from the start, once a request for a page of a listed call has been taken up and
      served: exactly one answer to it has gone out, and it is the right one for the state the call was in
      when the page was read. */
  lemma PageIsAnswered(before: seq<Step>, req: ReqId, call: CallId, from: nat, n: nat, steps: seq<Step>)
    returns (i: nat)
    requires Runs(START, before) && req !in After(START, before).tasks && call in After(START, before).listed
    requires
      var e := Apply(After(START, before), Submit(req, GetPage(call, from, n)));
      Runs(e, steps) && Undisturbed(steps, req) && req !in After(e, steps).tasks
    ensures
      var e0 := After(START, before);
      var e := Apply(e0, Submit(req, GetPage(call, from, n)));
      && ReadsFor(e, steps, req, call, i)
      && exists m :: AnswersTo(After(e, steps).out, req) == AnswersTo(e0.out, req) + [m]
                     && RightPage(After(e, steps[..i]).cells[call], from, n, req, m)
  {
    var e0, s := After(START, before), Submit(req, GetPage(call, from, n));
    var e := Apply(e0, s);
    OneMore(START, before, s);
    hide AnswersTo, ReadPage, RightPage, Runs, After, DonePageable, Apply;
    Begun(e0, req, call, from, n);
    i := PageAfterFound(e, steps, req, call, from, n);
    RunsOn(START, before + [s], steps[..i]);
    DonePageableAlways(before + [s] + steps[..i]);
    var c := After(e, steps[..i]).cells[call];
    PageableThere(After(e, steps[..i]), call);
    ReadIsRight(c, from, n, req);
  }

  /** And so, for a call that had finished when the request was taken up: a slice of the result it had then,
      or the read error that was ahead, unless another page request has run into that error first. */
  lemma PageOfFinishedCall(before: seq<Step>, req: ReqId, call: CallId, from: nat, n: nat, steps: seq<Step>)
    returns (i: nat)
    requires Runs(START, before) && req !in After(START, before).tasks && call in After(START, before).listed
    requires call in After(START, before).cells && After(START, before).cells[call].status == Done
    requires
      var e := Apply(After(START, before), Submit(req, GetPage(call, from, n)));
      Runs(e, steps) && Undisturbed(steps, req) && req !in After(e, steps).tasks
    ensures
      var e0 := After(START, before);
      var e := Apply(e0, Submit(req, GetPage(call, from, n)));
      var c := e0.cells[call];
      && Pageable(c) && ReadsFor(e, steps, req, call, i)
      && exists m :: AnswersTo(After(e, steps).out, req) == AnswersTo(e0.out, req) + [m]
           && ((Faulty(c.stream.value) ==> AsksWithin(e, steps[..i], call, |Full(c)|)) ==>
                 if Reaches(c, from + n) then m.Paged? && m.req == req && Sliced(Full(c), from, n, Ok(m.reply))
                 else m == Refused(req, NextFault(c.stream.value).value))
  {
    var e0, s := After(START, before), Submit(req, GetPage(call, from, n));
    var e := Apply(e0, s);
    i := PageIsAnswered(before, req, call, from, n, steps);
    DonePageableAlways(before);
    PageableThere(e0, call);
    RunFits(before);
    InvStep(e0, s);
    SameCells(e0, s);
    hide Inv, Runs, After, Apply, AnswersTo, Sliced, Full, NextFault, AsksWithin;
    if Faulty(e0.cells[call].stream.value) ==> AsksWithin(e, steps[..i], call, |Full(e0.cells[call])|) {
      ResultKept(e, steps[..i], call);
    }
  }

  lemma SameCells(e: Engine, s: Step)
    requires s.Submit? && Enabled(e, s)
    ensures Apply(e, s).cells == e.cells
  {
    hide Accept;
    AcceptShape(e, s.req, s.request);
  }

  lemma PageableThere(e: Engine, call: CallId)
    requires DonePageable(e) && call in e.cells
    ensures e.cells[call].status == Done ==> Pageable(e.cells[call])
  {
  }

  lemma Begun(e: Engine, req: ReqId, call: CallId, from: nat, n: nat)
    requires req !in e.tasks && call in e.listed
    ensures
      var e' := Apply(e, Submit(req, GetPage(call, from, n)));
      req in e'.tasks && e'.tasks[req] == PageFound(call, from, n) && e'.out == e.out
  {
  }

  lemma {:induction false} RunsOn(e: Engine, first: seq<Step>, later: seq<Step>)
    requires Runs(e, first) && Runs(After(e, first), later)
    ensures Runs(e, first + later) && After(e, first + later) == After(After(e, first), later)
    decreases |first|
  {
    hide Apply, Enabled;
    if first == [] {
      assert first + later == later;
    } else {
      assert (first + later)[1..] == first[1..] + later;
      RunsOn(Apply(e, first[0]), first[1..], later);
    }
  }

  // ── the other requests ─────────────────────────────────────────────────────

  /** What is answered at once: greetings with the protocol spoken, malformed requests with what is wrong
      with them, requests for a connection or a call that is not there, and releases. */
  lemma AnsweredAtOnce(e: Engine, req: ReqId, request: Request)
    requires req !in e.tasks
    ensures
      var e' := Apply(e, Submit(req, request));
      var unlisted := (request.GetPage? || request.Cancel?) && request.call !in e.listed;
      var unconnected := request.Execute? && !request.connected;
      && (req !in e'.tasks <==>
          request.Hello? || request.Malformed? || request.Release? || unlisted || unconnected)
      && (req !in e'.tasks ==>
            AnswersTo(e'.out, req) == AnswersTo(e.out, req) + [
              if request.Hello? then Welcomed(req, 1)
              else if request.Malformed? then Refused(req, request.why)
              else if request.Release? then Acked(req)
              else if unlisted then Refused(req, "no such call")
              else Refused(req, "no such connection")])
      && (req in e'.tasks ==> AnswersTo(e'.out, req) == AnswersTo(e.out, req))
  {
    hide AnswersTo;
    var e' := Apply(e, Submit(req, request));
    if req !in e'.tasks {
      OneSent(e.out, e'.out[|e.out|], req);
      assert e'.out == e.out + [e'.out[|e.out|]];
    }
  }

  /** In every run, once a request that touches no call has been taken up and served: the one answer to it has
      gone out, with the error it met (at step `i`) if it met one. */
  lemma OtherIsAnswered(e: Engine, req: ReqId, steps: seq<Step>) returns (i: nat)
    requires Inv(e) && req !in e.tasks
    requires
      var e' := Apply(e, Submit(req, Other));
      Runs(e', steps) && Undisturbed(steps, req) && req !in After(e', steps).tasks
    ensures i < |steps| && Moves(steps[i], req)
    ensures AnswersTo(After(Apply(e, Submit(req, Other)), steps).out, req) == AnswersTo(e.out, req)
              + [if steps[i].fires.Ok? then Acked(req) else Refused(req, steps[i].fires.error)]
  {
    var e' := Apply(e, Submit(req, Other));
    assert e' == e.(tasks := e.tasks[req := Serving]);
    i := FirstMove(e', steps, req);
    var d := After(e', steps[..i]);
    assert i < |steps| && Enabled(d, steps[i]);
    hide Runs, After, AnswersTo, Inv, Enabled, Apply;
    var d', fires := Apply(d, steps[i]), steps[i].fires;
    assert d' == Progress(d, req, fires) by { IsProgress(d, steps[i]); }
    OneSent(d.out, if fires.Ok? then Acked(req) else Refused(req, fires.error), req);
    LaterUndisturbed(steps, req, i + 1);
    ServedStays(d', steps[i + 1..], req);
  }

  lemma ExecSteps(e: Engine, req: ReqId, fires: Result<()>)
    requires Inv(e) && Enabled(e, Advance(req, fires)) && Executing(e.tasks[req])
    ensures
      var t, e' := e.tasks[req], Progress(e, req, fires);
      && (!t.ExecReplied? ==> req in e'.tasks)
      && (t.ExecNew? ==> e'.tasks[req] == ExecNumbered(t.conn, e.nextCall) && e.nextCall !in e.cells)
      && (t.ExecNumbered? ==> e'.tasks[req] == ExecInserted(t.conn, t.call))
      && (t.ExecInserted? ==> e'.tasks[req] == ExecReplied(t.conn, t.call))
      && (t.ExecReplied? ==>
            req !in e'.tasks && t.call in e'.workers && e'.workers[t.call] == Worker(t.conn, Queued))
      && AnswersTo(e'.out, req) == AnswersTo(e.out, req) + if t.ExecInserted? then [Started(req, t.call)] else []
  {
    hide AnswersTo, TasksFit, HandlesFit, HoldersFit, AnnouncementsFit, NoticesFit, Orderly, Consistent;
    if e.tasks[req].ExecInserted? {
      OneSent(e.out, Started(req, e.tasks[req].call), req);
    }
  }

  /** From any stage of an execute request: the call it ends up with is announced, if it is not yet, and has
      its worker on the connection asked for. */
  lemma {:induction false} ExecGoesOut(e: Engine, steps: seq<Step>, req: ReqId) returns (call: CallId)
    requires Inv(e) && Runs(e, steps) && Undisturbed(steps, req) && req !in After(e, steps).tasks
    requires req in e.tasks && Executing(e.tasks[req])
    ensures e.tasks[req].ExecNew? ==> call !in e.cells
    ensures !e.tasks[req].ExecNew? ==> call == e.tasks[req].call
    ensures AnswersTo(After(e, steps).out, req)
         == AnswersTo(e.out, req) + if e.tasks[req].ExecReplied? then [] else [Started(req, call)]
    ensures call in After(e, steps).workers && After(e, steps).workers[call].conn == e.tasks[req].conn
    decreases |steps|
  {
    var i := FirstMove(e, steps, req);
    var d := After(e, steps[..i]);
    assert i < |steps| && Enabled(d, steps[i]);
    InvAlways(e, steps[..i]);
    CellsStay(e, steps[..i]);
    hide Runs, After, AnswersTo, Inv, Enabled, Progress, Apply;
    var d' := Apply(d, steps[i]);
    assert d' == Progress(d, req, steps[i].fires) by { IsProgress(d, steps[i]); }
    ExecSteps(d, req, steps[i].fires);
    InvStep(d, steps[i]);
    LaterUndisturbed(steps, req, i + 1);
    if e.tasks[req].ExecReplied? {
      call := e.tasks[req].call;
      ServedStays(d', steps[i + 1..], req);
      ConnStays(d', steps[i + 1..], call);
    } else {
      call := ExecGoesOut(d', steps[i + 1..], req);
    }
  }

  lemma IsProgress(e: Engine, s: Step)
    requires Enabled(e, s) && s.Advance?
    ensures Apply(e, s) == Progress(e, s.req, s.fires)
  {
  }

  lemma {:induction false} CellsStay(e: Engine, steps: seq<Step>)
    requires Runs(e, steps)
    ensures e.cells.Keys <= After(e, steps).cells.Keys
    decreases |steps|
  {
    hide Apply, Enabled;
    if steps != [] {
      StepAdds(e, steps[0]);
      CellsStay(Apply(e, steps[0]), steps[1..]);
    }
  }

  /** In every run, once an execute request on a connection that is there has been taken up and served:
      the one answer to it has gone out, with a call that did not exist before, and that call has a worker
      on the connection asked for. */
  lemma ExecuteIsAnswered(e: Engine, req: ReqId, conn: ConnId, steps: seq<Step>) returns (call: CallId)
    requires Inv(e) && req !in e.tasks
    requires
      var e' := Apply(e, Submit(req, Execute(conn, true)));
      Runs(e', steps) && Undisturbed(steps, req) && req !in After(e', steps).tasks
    ensures
      var last := After(Apply(e, Submit(req, Execute(conn, true))), steps);
      && call !in e.cells && AnswersTo(last.out, req) == AnswersTo(e.out, req) + [Started(req, call)]
      && call in last.workers && last.workers[call].conn == conn
  {
    var s := Submit(req, Execute(conn, true));
    assert Enabled(e, s) && Apply(e, s) == e.(tasks := e.tasks[req := ExecNew(conn)]);
    hide Inv, Runs, After, AnswersTo;
    InvStep(e, s);
    call := ExecGoesOut(Apply(e, s), steps, req);
  }

  lemma CancelSteps(e: Engine, req: ReqId, fires: Result<()>)
    requires Inv(e) && Enabled(e, Advance(req, fires)) && (e.tasks[req].CancelFound? || e.tasks[req].CancelTaken?)
    ensures
      var t, e' := e.tasks[req], Progress(e, req, fires);
      && (t.CancelFound? ==>
            && req in e'.tasks && e'.tasks[req] == CancelTaken(t.call, Loaded(e, t.call))
            && t.call in e'.cells && e'.cells[t.call].status != Running
            && AnswersTo(e'.out, req) == AnswersTo(e.out, req) && e'.fired == e.fired)
      && (t.CancelTaken? ==>
            && req !in e'.tasks && t.call in e'.cells
            && e'.fired == (if t.handle then e.fired + [t.call] else e.fired)
            && AnswersTo(e'.out, req) == AnswersTo(e.out, req)
                 + [if t.handle && fires.Err? then Refused(req, fires.error) else Acked(req)])
  {
    hide AnswersTo, HandlesFit, HoldersFit, AnnouncementsFit, NoticesFit, Orderly, Consistent;
    UsesOf(e, req);
    if e.tasks[req].CancelTaken? {
      var m := if e.tasks[req].handle && fires.Err? then Refused(req, fires.error) else Acked(req);
      OneSent(e.out, m, req);
    }
  }

  lemma TakenGoesOut(e: Engine, steps: seq<Step>, req: ReqId, call: CallId, handle: bool) returns (j: nat)
    requires Inv(e) && Runs(e, steps) && Undisturbed(steps, req) && req !in After(e, steps).tasks
    requires req in e.tasks && e.tasks[req] == CancelTaken(call, handle)
    ensures j < |steps| && Moves(steps[j], req)
    ensures AnswersTo(After(e, steps).out, req) == AnswersTo(e.out, req)
              + [if handle && steps[j].fires.Err? then Refused(req, steps[j].fires.error) else Acked(req)]
    ensures handle ==> call in After(e, steps).fired
  {
    j := FirstMove(e, steps, req);
    var d := After(e, steps[..j]);
    assert j < |steps| && Enabled(d, steps[j]);
    InvAlways(e, steps[..j]);
    hide Runs, After, AnswersTo, Inv, Enabled, Progress, Apply;
    var d' := Apply(d, steps[j]);
    assert d' == Progress(d, req, steps[j].fires) by { IsProgress(d, steps[j]); }
    CancelSteps(d, req, steps[j].fires);
    LaterUndisturbed(steps, req, j + 1);
    ServedStays(d', steps[j + 1..], req);
    FiredStays(d', steps[j + 1..]);
  }

  lemma {:induction false} FiredStays(e: Engine, steps: seq<Step>)
    requires Runs(e, steps)
    ensures forall c :: c in e.fired ==> c in After(e, steps).fired
    decreases |steps|
  {
    hide Apply, Enabled;
    if steps != [] {
      StepAdds(e, steps[0]);
      FiredStays(Apply(e, steps[0]), steps[1..]);
    }
  }

  /** The cancel's locked section, at step `i`, and what it leaves. */
  lemma FoundTakes(e: Engine, steps: seq<Step>, req: ReqId, call: CallId) returns (i: nat, d: Engine)
    requires Inv(e) && Runs(e, steps) && Undisturbed(steps, req) && req !in After(e, steps).tasks
    requires req in e.tasks && e.tasks[req] == CancelFound(call)
    ensures i < |steps| && Moves(steps[i], req) && Runs(e, steps[..i])
    ensures Inv(d) && Runs(d, steps[i + 1..]) && After(d, steps[i + 1..]) == After(e, steps)
    ensures req in d.tasks && d.tasks[req] == CancelTaken(call, Loaded(After(e, steps[..i]), call))
    ensures AnswersTo(d.out, req) == AnswersTo(e.out, req) && call in d.cells && d.cells[call].status != Running
  {
    i := FirstMove(e, steps, req);
    var was := After(e, steps[..i]);
    assert i < |steps| && Enabled(was, steps[i]);
    InvAlways(e, steps[..i]);
    hide Runs, After, AnswersTo, Inv, Loaded, Enabled, Progress, Apply;
    d := Apply(was, steps[i]);
    IsProgress(was, steps[i]);
    CancelSteps(was, req, steps[i].fires);
    InvStep(was, steps[i]);
  }

  lemma FoundGoesOut(e: Engine, steps: seq<Step>, req: ReqId, call: CallId) returns (i: nat, j: nat)
    requires Inv(e) && Runs(e, steps) && Undisturbed(steps, req) && req !in After(e, steps).tasks
    requires req in e.tasks && e.tasks[req] == CancelFound(call)
    ensures i < j < |steps| && Moves(steps[i], req) && Moves(steps[j], req) && Runs(e, steps[..i])
    ensures
      var handle, last := Loaded(After(e, steps[..i]), call), After(e, steps);
      && AnswersTo(last.out, req) == AnswersTo(e.out, req)
           + [if handle && steps[j].fires.Err? then Refused(req, steps[j].fires.error) else Acked(req)]
      && (handle ==> call in last.fired)
      && call in last.cells && last.cells[call].status != Running
  {
    hide Runs, After, AnswersTo, Inv, Loaded;
    var d;
    i, d := FoundTakes(e, steps, req, call);
    var later, handle := steps[i + 1..], Loaded(After(e, steps[..i]), call);
    LaterUndisturbed(steps, req, i + 1);
    var k := TakenGoesOut(d, later, req, call, handle);
    j := i + 1 + k;
    assert later[k] == steps[j];
    OutcomeIsFinal(d, later, call);
  }

  /** In every run, once a cancel of a listed call has been taken up and served: the call no longer runs; the
      one answer to the request has gone out; it is an acknowledgement, unless the cancel found a handle in
      the call (at step `i`) and firing it (at step `j`) failed; and a handle found has been fired. */
  lemma CancelIsAnswered(e: Engine, req: ReqId, call: CallId, steps: seq<Step>) returns (i: nat, j: nat)
    requires Inv(e) && req !in e.tasks && call in e.listed
    requires
      var e' := Apply(e, Submit(req, Cancel(call)));
      Runs(e', steps) && Undisturbed(steps, req) && req !in After(e', steps).tasks
    ensures
      var e' := Apply(e, Submit(req, Cancel(call)));
      var last := After(e', steps);
      && i < j < |steps| && Moves(steps[i], req) && Moves(steps[j], req) && Runs(e', steps[..i])
      && var handle := Loaded(After(e', steps[..i]), call);
         && AnswersTo(last.out, req) == AnswersTo(e.out, req)
              + [if handle && steps[j].fires.Err? then Refused(req, steps[j].fires.error) else Acked(req)]
         && (handle ==> call in last.fired)
         && call in last.cells && last.cells[call].status != Running
  {
    var s := Submit(req, Cancel(call));
    assert Enabled(e, s) && Apply(e, s) == e.(tasks := e.tasks[req := CancelFound(call)]);
    hide Inv, Runs, After, AnswersTo, Loaded, Apply, Enabled;
    InvStep(e, s);
    i, j := FoundGoesOut(Apply(e, s), steps, req, call);
  }
}
