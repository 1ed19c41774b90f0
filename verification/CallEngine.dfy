/** The daemon's call engine (`server.rs`): every request runs on its own task and every statement
    on its own worker, so their steps interleave freely. A step is one section run under a lock, one
    send on the output channel, or one firing of a cancel handle. `cells` holds the shared call
    objects, `listed` the ids the call table still resolves: a released call lives on while a task
    or its worker still refers to it. */
module CallEngine {
  import opened Wrappers
  import opened Streams
  import opened Calls

  type CallId = nat
  type ReqId = nat
  type ConnId = nat

  datatype Message =
    | Welcomed(req: ReqId, proto: int)
    | Started(req: ReqId, call: CallId)
    | Refused(req: ReqId, why: string)
    | Paged(req: ReqId, reply: PageReply)
    | Acked(req: ReqId)
    | State(call: CallId, status: Status, error: Option<string>, affected: Option<nat>)

  const PROTO := 1

  /** What a request asks for. Whether it can be read, and whether the connection it names is there
      when it is looked up, is up to the environment. `Other` stands for the methods that touch no
      call. */
  datatype Request =
    | Hello
    | Malformed(why: string)
    | Other
    | Execute(conn: ConnId, connected: bool)
    | GetPage(call: CallId, from: nat, n: nat)
    | Cancel(call: CallId)
    | Release(call: CallId)

  /** Where the task serving a request stands. */
  datatype Task =
    | ExecNew(conn: ConnId)
    | ExecNumbered(conn: ConnId, call: CallId)
    | ExecInserted(conn: ConnId, call: CallId)
    | ExecReplied(conn: ConnId, call: CallId)
    | PageFound(call: CallId, from: nat, n: nat)
    | PageRead(result: Result<PageReply>)
    | CancelFound(call: CallId)
    | CancelTaken(call: CallId, handle: bool)
    | Serving

  /** Where a worker stands: waiting for the connection, holding it, with its handle registered,
      with the statement run, with the connection freed, and done. */
  datatype Phase =
    | Queued
    | Holding
    | Registered
    | Ran(outcome: Outcome)
    | Freed(outcome: Outcome)
    | Closed

  datatype Worker = Worker(conn: ConnId, phase: Phase)

  datatype Engine = Engine(
    holders: map<ConnId, CallId>,
    cells: map<CallId, CallState>,
    listed: set<CallId>,
    nextCall: CallId,
    tasks: map<ReqId, Task>,
    workers: map<CallId, Worker>,
    fired: seq<CallId>,
    out: seq<Message>)

  const START := Engine(map[], map[], {}, 1, map[], map[], [], [])

  datatype Step =
    | Submit(req: ReqId, request: Request)
    | Advance(req: ReqId, fires: Result<()>)
    | Acquire(call: CallId)
    | Register(call: CallId, supported: bool)
    | RunStatement(call: CallId, outcome: Outcome)
    | Free(call: CallId)
    | Close(call: CallId)

  ghost predicate At(e: Engine, call: CallId, phase: Phase) {
    call in e.workers && e.workers[call].phase == phase && call in e.cells
  }

  ghost predicate Enabled(e: Engine, s: Step) {
    match s
    case Submit(req, _) => req !in e.tasks
    case Advance(req, _) =>
      && req in e.tasks
      && (e.tasks[req].PageFound? || e.tasks[req].CancelFound? ==> e.tasks[req].call in e.cells)
      && (e.tasks[req].PageFound? ==> Consistent(e.cells[e.tasks[req].call]))
    case Acquire(call) => At(e, call, Queued) && e.workers[call].conn !in e.holders
    case Register(call, _) => At(e, call, Holding)
    case RunStatement(call, outcome) => At(e, call, Registered) && FreshOutcome(outcome)
    case Free(call) => call in e.workers && e.workers[call].phase.Ran?
    case Close(call) => call in e.workers && e.workers[call].phase.Freed? && call in e.cells
  }

  function Send(e: Engine, m: Message): Engine {
    e.(out := e.out + [m])
  }

  function MoveTo(e: Engine, call: CallId, phase: Phase): Engine
    requires call in e.workers
  {
    e.(workers := e.workers[call := e.workers[call].(phase := phase)])
  }

  function Accept(e: Engine, req: ReqId, request: Request): (r: Engine)
    ensures e.out <= r.out
  {
    match request
    case Hello => Send(e, Welcomed(req, PROTO))
    case Malformed(why) => Send(e, Refused(req, why))
    case Other => e.(tasks := e.tasks[req := Serving])
    case Execute(conn, connected) =>
      if connected then e.(tasks := e.tasks[req := ExecNew(conn)])
      else Send(e, Refused(req, "no such connection"))
    case GetPage(call, from, n) =>
      if call in e.listed then e.(tasks := e.tasks[req := PageFound(call, from, n)])
      else Send(e, Refused(req, "no such call"))
    case Cancel(call) =>
      if call in e.listed then e.(tasks := e.tasks[req := CancelFound(call)])
      else Send(e, Refused(req, "no such call"))
    case Release(call) => Send(e.(listed := e.listed - {call}), Acked(req))
  }

  function Progress(e: Engine, req: ReqId, fires: Result<()>): (r: Engine)
    requires Enabled(e, Advance(req, fires))
    ensures e.out <= r.out
  {
    var over := e.(tasks := e.tasks - {req});
    match e.tasks[req]
    case ExecNew(conn) =>
      e.(nextCall := e.nextCall + 1, tasks := e.tasks[req := ExecNumbered(conn, e.nextCall)])
    case ExecNumbered(conn, call) =>
      e.(cells := e.cells[call := NEW_CALL], listed := e.listed + {call},
         tasks := e.tasks[req := ExecInserted(conn, call)])
    case ExecInserted(conn, call) =>
      Send(e.(tasks := e.tasks[req := ExecReplied(conn, call)]), Started(req, call))
    case ExecReplied(conn, call) =>
      over.(workers := e.workers[call := Worker(conn, Queued)])
    case PageFound(call, from, n) =>
      var (c, result) := ReadPage(e.cells[call], from, n);
      e.(cells := e.cells[call := c], tasks := e.tasks[req := PageRead(result)])
    case PageRead(result) =>
      Send(over, if result.Ok? then Paged(req, result.value) else Refused(req, result.error))
    case CancelFound(call) =>
      var (c, handle) := CancelSection(e.cells[call]);
      e.(cells := e.cells[call := c], tasks := e.tasks[req := CancelTaken(call, handle)])
    case CancelTaken(call, handle) =>
      if !handle then Send(over, Acked(req))
      else Send(over.(fired := e.fired + [call]), if fires.Ok? then Acked(req) else Refused(req, fires.error))
    case Serving => Send(over, if fires.Ok? then Acked(req) else Refused(req, fires.error))
  }

  function Notice(call: CallId, c: CallState): Message {
    State(call, c.status, if c.status == Failed then c.error else None,
          if c.status == Done then c.affected else None)
  }

  /** The engine only ever adds to the channel. */
  function Apply(e: Engine, s: Step): (r: Engine)
    requires Enabled(e, s)
    ensures e.out <= r.out && (s.Advance? ==> r == Progress(e, s.req, s.fires))
  {
    match s
    case Submit(req, request) => Accept(e, req, request)
    case Advance(req, fires) => Progress(e, req, fires)
    case Acquire(call) =>
      MoveTo(e.(holders := e.holders[e.workers[call].conn := call]), call, Holding)
    case Register(call, supported) =>
      MoveTo(if supported then e.(cells := e.cells[call := RegisterSection(e.cells[call])]) else e, call, Registered)
    case RunStatement(call, outcome) => MoveTo(e, call, Ran(outcome))
    case Free(call) =>
      MoveTo(e.(holders := e.holders - {e.workers[call].conn}), call, Freed(e.workers[call].phase.outcome))
    case Close(call) =>
      var c := CloseSection(e.cells[call], e.workers[call].phase.outcome);
      Send(MoveTo(e.(cells := e.cells[call := c]), call, Closed), Notice(call, c))
  }

  // ── the channel ────────────────────────────────────────────────────────────

  ghost function Starts(out: seq<Message>, call: CallId): nat {
    if out == [] then 0
    else Starts(out[..|out| - 1], call) + (var m := out[|out| - 1]; if m.Started? && m.call == call then 1 else 0)
  }

  ghost function Notices(out: seq<Message>, call: CallId): nat {
    if out == [] then 0
    else Notices(out[..|out| - 1], call) + (var m := out[|out| - 1]; if m.State? && m.call == call then 1 else 0)
  }

  /** Each call id is announced at most once, and reported on at most once and only afterwards. */
  ghost predicate Orderly(out: seq<Message>) {
    out == [] ||
    var before, m := out[..|out| - 1], out[|out| - 1];
    && Orderly(before)
    && (m.Started? ==> Starts(before, m.call) == 0)
    && (m.State? ==> Starts(before, m.call) == 1 && Notices(before, m.call) == 0)
  }

  // ── the invariant ──────────────────────────────────────────────────────────

  /** The call an execute task is about to hand to a worker. */
  ghost predicate Carries(t: Task, call: CallId) {
    (t.ExecNumbered? || t.ExecInserted? || t.ExecReplied?) && t.call == call
  }

  ghost predicate Uses(t: Task, call: CallId) {
    (t.PageFound? || t.CancelFound? || t.CancelTaken?) && t.call == call
  }

  ghost predicate Takes(t: Task, call: CallId) {
    t.CancelTaken? && t.handle && t.call == call
  }

  /** A call id belongs to one execute task until its worker starts. */
  ghost predicate TasksFit(tasks: map<ReqId, Task>, nextCall: CallId, made: set<CallId>, working: set<CallId>) {
    && (forall r: ReqId, c: CallId {:trigger Carries(tasks[r], c)} :: r in tasks && Carries(tasks[r], c) ==>
          c < nextCall && c !in working && (c in made <==> !tasks[r].ExecNumbered?))
    && (forall r: ReqId, s: ReqId, c: CallId {:trigger Carries(tasks[r], c), Carries(tasks[s], c)} ::
          r in tasks && s in tasks && Carries(tasks[r], c) && Carries(tasks[s], c) ==> r == s)
    && (forall r: ReqId, c: CallId {:trigger Uses(tasks[r], c)} :: r in tasks && Uses(tasks[r], c) ==> c in made)
  }

  /** A call whose worker has not closed it holds nothing yet. */
  predicate Fresh(c: CallState) {
    c.status in {Running, Cancelled} && c.stream.None? && c.buffer == [] && !c.exhausted
  }

  ghost predicate PhaseFits(p: Phase, c: CallState) {
    && (p.Ran? || p.Freed? ==> FreshOutcome(p.outcome))
    && (if p.Closed? then c.status != Running else Fresh(c))
  }

  ghost predicate CallsFit(cells: map<CallId, CallState>, workers: map<CallId, Worker>, listed: set<CallId>,
                           nextCall: CallId) {
    && listed <= cells.Keys
    && (forall c: CallId :: c in cells ==> c < nextCall && Consistent(cells[c]))
    && (forall c: CallId :: c in workers ==> c in cells && PhaseFits(workers[c].phase, cells[c]))
    && (forall c: CallId :: c in cells && c !in workers ==> Fresh(cells[c]))
  }

  /** The phases during which a handle may sit in the call. */
  ghost predicate Armed(workers: map<CallId, Worker>, c: CallId) {
    c in workers && (var p := workers[c].phase; p.Registered? || p.Ran? || p.Freed?)
  }

  /** A handle has been registered, or could have been. */
  ghost predicate PastRegistration(workers: map<CallId, Worker>, c: CallId) {
    c in workers && !workers[c].phase.Queued? && !workers[c].phase.Holding?
  }

  /** A call has at most one handle ever: in the call, in a cancel task's hands, or fired. */
  ghost predicate HandlesFit(tasks: map<ReqId, Task>, cells: map<CallId, CallState>, workers: map<CallId, Worker>,
                             fired: seq<CallId>) {
    && (forall c: CallId :: c in cells && cells[c].cancel ==> Armed(workers, c) && c !in fired)
    && (forall r: ReqId, c: CallId {:trigger Takes(tasks[r], c)} :: r in tasks && Takes(tasks[r], c) ==>
          c in cells && !cells[c].cancel && PastRegistration(workers, c) && c !in fired)
    && (forall r: ReqId, s: ReqId, c: CallId {:trigger Takes(tasks[r], c), Takes(tasks[s], c)} ::
          r in tasks && s in tasks && Takes(tasks[r], c) && Takes(tasks[s], c) ==> r == s)
    && (forall i :: 0 <= i < |fired| ==> PastRegistration(workers, fired[i]))
    && (forall i, j :: 0 <= i < j < |fired| ==> fired[i] != fired[j])
  }

  ghost predicate HasConnection(w: Worker) {
    w.phase.Holding? || w.phase.Registered? || w.phase.Ran?
  }

  /** The connection lock: the holder is exactly the one worker between acquiring and freeing. */
  ghost predicate HoldersFit(holders: map<ConnId, CallId>, workers: map<CallId, Worker>) {
    && (forall k: ConnId :: k in holders ==>
          holders[k] in workers && workers[holders[k]].conn == k && HasConnection(workers[holders[k]]))
    && (forall c: CallId :: c in workers && HasConnection(workers[c]) ==>
          workers[c].conn in holders && holders[workers[c].conn] == c)
  }

  ghost predicate Bookkeeping(e: Engine) {
    && TasksFit(e.tasks, e.nextCall, e.cells.Keys, e.workers.Keys)
    && CallsFit(e.cells, e.workers, e.listed, e.nextCall)
    && HandlesFit(e.tasks, e.cells, e.workers, e.fired)
    && HoldersFit(e.holders, e.workers)
  }

  // ── every step keeps it ────────────────────────────────────────────────────

  /** Handles are untouched while no task comes to hold one. */
  lemma HandlesSame(tasks: map<ReqId, Task>, tasks': map<ReqId, Task>, req: ReqId, cells: map<CallId, CallState>,
                    workers: map<CallId, Worker>, fired: seq<CallId>)
    requires HandlesFit(tasks, cells, workers, fired)
    requires forall r: ReqId :: r in tasks' && r != req ==> r in tasks && tasks'[r] == tasks[r]
    requires req in tasks' ==> !tasks'[req].CancelTaken?
    ensures HandlesFit(tasks', cells, workers, fired)
  {
    assert forall r: ReqId, c: CallId :: r in tasks' && Takes(tasks'[r], c) ==> r in tasks && Takes(tasks[r], c);
  }

  lemma TasksSame(tasks: map<ReqId, Task>, tasks': map<ReqId, Task>, req: ReqId, next: CallId, made: set<CallId>,
                  working: set<CallId>)
    requires TasksFit(tasks, next, made, working)
    requires forall r: ReqId :: r in tasks' && r != req ==> r in tasks && tasks'[r] == tasks[r]
    requires req in tasks' ==> !tasks'[req].ExecNumbered? && !tasks'[req].ExecInserted? && !tasks'[req].ExecReplied?
    requires req in tasks' && (tasks'[req].PageFound? || tasks'[req].CancelFound? || tasks'[req].CancelTaken?) ==>
               tasks'[req].call in made
    ensures TasksFit(tasks', next, made, working)
  {
    assert forall r: ReqId, c: CallId :: r in tasks' && Carries(tasks'[r], c) ==> r in tasks && Carries(tasks[r], c);
    assert forall r: ReqId, c: CallId :: r in tasks' && Uses(tasks'[r], c) && r != req ==> Uses(tasks[r], c);
  }

  /** Taking up a request changes the call table, or adds one task, or neither. */
  lemma AcceptShape(e: Engine, req: ReqId, request: Request)
    ensures
      var e' := Accept(e, req, request);
      && e'.holders == e.holders && e'.cells == e.cells && e'.nextCall == e.nextCall
      && e'.workers == e.workers && e'.fired == e.fired && e'.listed <= e.listed
      && (e'.tasks == e.tasks
          || (req in e'.tasks && e'.tasks == e.tasks[req := e'.tasks[req]]
              && (var t := e'.tasks[req];
                  t.ExecNew? || t.Serving? || ((t.PageFound? || t.CancelFound?) && t.call in e.listed))))
  {
  }

  lemma SubmitKeeps(e: Engine, req: ReqId, request: Request)
    requires Bookkeeping(e) && req !in e.tasks
    ensures Bookkeeping(Accept(e, req, request))
  {
    hide HoldersFit, HandlesFit, TasksFit, CallsFit, Accept;
    AcceptShape(e, req, request);
    var e' := Accept(e, req, request);
    ListedAreMade(e, e'.listed);
    if e'.tasks != e.tasks {
      HandlesSame(e.tasks, e'.tasks, req, e.cells, e.workers, e.fired);
      TasksSame(e.tasks, e'.tasks, req, e.nextCall, e.cells.Keys, e.workers.Keys);
    }
  }

  lemma ListedAreMade(e: Engine, listed: set<CallId>)
    requires CallsFit(e.cells, e.workers, e.listed, e.nextCall)
    ensures e.listed <= e.cells.Keys
    ensures listed <= e.listed ==> CallsFit(e.cells, e.workers, listed, e.nextCall)
  {
    hide Consistent, PhaseFits;
  }

  /** A call and its worker are born without a handle. */
  lemma Birth(tasks: map<ReqId, Task>, cells: map<CallId, CallState>, workers: map<CallId, Worker>,
              fired: seq<CallId>, holders: map<ConnId, CallId>, call: CallId, conn: ConnId)
    requires HandlesFit(tasks, cells, workers, fired) && HoldersFit(holders, workers) && call !in workers
    ensures call !in cells ==> HandlesFit(tasks, cells[call := NEW_CALL], workers, fired)
    ensures HandlesFit(tasks, cells, workers[call := Worker(conn, Queued)], fired)
    ensures HoldersFit(holders, workers[call := Worker(conn, Queued)])
  {
  }

  predicate Executing(t: Task) {
    t.ExecNew? || t.ExecNumbered? || t.ExecInserted? || t.ExecReplied?
  }

  lemma ExecTasksFit(e: Engine, req: ReqId, fires: Result<()>)
    requires Bookkeeping(e) && Enabled(e, Advance(req, fires)) && Executing(e.tasks[req])
    ensures
      var e' := Progress(e, req, fires);
      TasksFit(e'.tasks, e'.nextCall, e'.cells.Keys, e'.workers.Keys)
  {
    hide HoldersFit, HandlesFit, Consistent, PhaseFits;
    var t, e' := e.tasks[req], Progress(e, req, fires);
    assert e.nextCall !in e.cells;
    assert t.ExecNew? ==> Carries(e'.tasks[req], e.nextCall);
    assert !t.ExecNew? ==> Carries(t, t.call);
    assert t.ExecNumbered? || t.ExecInserted? ==> Carries(e'.tasks[req], t.call);
  }

  lemma ExecKeeps(e: Engine, req: ReqId, fires: Result<()>)
    requires Bookkeeping(e) && Enabled(e, Advance(req, fires)) && Executing(e.tasks[req])
    ensures Bookkeeping(Progress(e, req, fires))
  {
    hide HoldersFit, HandlesFit, WellFormed;
    var t := e.tasks[req];
    ExecTasksFit(e, req, fires);
    HandlesSame(e.tasks, Progress(e, req, fires).tasks, req, e.cells, e.workers, e.fired);
    if !t.ExecNew? {
      assert Carries(t, t.call);
      assert t.call !in e.workers && t.call < e.nextCall && (t.call in e.cells <==> !t.ExecNumbered?);
    }
    hide TasksFit;
    if !t.ExecNew? {
      Birth(Progress(e, req, fires).tasks, e.cells, e.workers, e.fired, e.holders, t.call, t.conn);
    }
  }

  lemma PageKeeps(e: Engine, req: ReqId, fires: Result<()>)
    requires Bookkeeping(e) && Enabled(e, Advance(req, fires))
    requires e.tasks[req].PageFound? || e.tasks[req].PageRead? || e.tasks[req].Serving?
    ensures Bookkeeping(Progress(e, req, fires))
  {
    hide ReadPage, Consistent, HoldersFit, TasksFit;
    var e' := Progress(e, req, fires);
    assert e'.cells.Keys == e.cells.Keys;
    HandlesSame(e.tasks, e'.tasks, req, e.cells, e.workers, e.fired);
    TasksSame(e.tasks, e'.tasks, req, e.nextCall, e.cells.Keys, e.workers.Keys);
  }

  lemma CancelHandlesFit(e: Engine, req: ReqId, fires: Result<()>)
    requires Bookkeeping(e) && Enabled(e, Advance(req, fires)) &&
             (e.tasks[req].CancelFound? || e.tasks[req].CancelTaken?)
    ensures
      var e' := Progress(e, req, fires);
      HandlesFit(e'.tasks, e'.cells, e'.workers, e'.fired)
  {
    hide HoldersFit, TasksFit, Consistent, PhaseFits;
    var t := e.tasks[req];
    assert t.CancelTaken? && t.handle ==> Takes(t, t.call);
  }

  lemma CancelKeeps(e: Engine, req: ReqId, fires: Result<()>)
    requires Bookkeeping(e) && Enabled(e, Advance(req, fires)) &&
             (e.tasks[req].CancelFound? || e.tasks[req].CancelTaken?)
    ensures Bookkeeping(Progress(e, req, fires))
  {
    hide HoldersFit, HandlesFit, FreshOutcome, WellFormed, TasksFit;
    var t, e' := e.tasks[req], Progress(e, req, fires);
    CancelHandlesFit(e, req, fires);
    UsesOf(e, req);
    assert e'.cells.Keys == e.cells.Keys;
    TasksSame(e.tasks, e'.tasks, req, e.nextCall, e.cells.Keys, e.workers.Keys);
  }

  lemma UsesOf(e: Engine, req: ReqId)
    requires TasksFit(e.tasks, e.nextCall, e.cells.Keys, e.workers.Keys) && req in e.tasks
    ensures var t := e.tasks[req]; t.PageFound? || t.CancelFound? || t.CancelTaken? ==> t.call in e.cells
  {
    var t := e.tasks[req];
    assert t.PageFound? || t.CancelFound? || t.CancelTaken? ==> Uses(t, t.call);
  }

  /** A worker's step rewrites its own call and phase: what that must respect, part by part. */
  lemma CallsMove(cells: map<CallId, CallState>, workers: map<CallId, Worker>, listed: set<CallId>, next: CallId,
                  call: CallId, c: CallState, w: Worker)
    requires CallsFit(cells, workers, listed, next) && call in workers
    requires Consistent(c) && PhaseFits(w.phase, c)
    ensures CallsFit(cells[call := c], workers[call := w], listed, next)
  {
    hide Consistent, PhaseFits;
  }

  lemma HandlesMove(tasks: map<ReqId, Task>, cells: map<CallId, CallState>, workers: map<CallId, Worker>,
                    fired: seq<CallId>, call: CallId, c: CallState, w: Worker)
    requires HandlesFit(tasks, cells, workers, fired) && call in workers && call in cells
    requires PastRegistration(workers, call) ==> !w.phase.Queued? && !w.phase.Holding?
    requires c.cancel && (Armed(workers, call) || !cells[call].cancel) ==>
               w.phase.Registered? || w.phase.Ran? || w.phase.Freed?
    requires c.cancel && !cells[call].cancel ==> !PastRegistration(workers, call)
    ensures HandlesFit(tasks, cells[call := c], workers[call := w], fired)
  {
  }

  lemma HoldersMove(holders: map<ConnId, CallId>, workers: map<CallId, Worker>, call: CallId, w: Worker)
    requires HoldersFit(holders, workers) && call in workers && w.conn == workers[call].conn
    ensures HasConnection(w) == HasConnection(workers[call]) ==> HoldersFit(holders, workers[call := w])
    ensures HasConnection(w) && w.conn !in holders ==> HoldersFit(holders[w.conn := call], workers[call := w])
    ensures !HasConnection(w) && HasConnection(workers[call]) ==> HoldersFit(holders - {w.conn}, workers[call := w])
  {
  }

  lemma SectionFits(e: Engine, s: Step)
    requires Bookkeeping(e) && Enabled(e, s) && !s.Submit? && !s.Advance?
    ensures s.call in e.cells && s.call in e.workers
    ensures Consistent(Apply(e, s).cells[s.call])
    ensures PhaseFits(Apply(e, s).workers[s.call].phase, Apply(e, s).cells[s.call])
  {
    hide TasksFit, HoldersFit, HandlesFit, WellFormed;
  }

  lemma WorkKeeps(e: Engine, s: Step)
    requires Bookkeeping(e) && Enabled(e, s) && !s.Submit? && !s.Advance?
    ensures Bookkeeping(Apply(e, s))
  {
    hide TasksFit, HoldersFit, HandlesFit, CallsFit, Consistent, PhaseFits;
    SectionFits(e, s);
    var e' := Apply(e, s);
    var c, w := e'.cells[s.call], e'.workers[s.call];
    assert e'.cells == e.cells[s.call := c] && e'.workers == e.workers[s.call := w];
    assert e'.cells.Keys == e.cells.Keys && e'.workers.Keys == e.workers.Keys;
    CallsMove(e.cells, e.workers, e.listed, e.nextCall, s.call, c, w);
    HandlesMove(e.tasks, e.cells, e.workers, e.fired, s.call, c, w);
    HoldersMove(e.holders, e.workers, s.call, w);
  }

  // ── what the channel carries ───────────────────────────────────────────────

  ghost predicate AnnouncementsFit(out: seq<Message>, tasks: map<ReqId, Task>, workers: map<CallId, Worker>,
                                   nextCall: CallId) {
    && (forall c: CallId :: c in workers ==> Starts(out, c) == 1)
    && (forall c: CallId :: c >= nextCall ==> Starts(out, c) == 0)
    && (forall r: ReqId, c: CallId {:trigger Carries(tasks[r], c)} :: r in tasks && Carries(tasks[r], c) ==>
          Starts(out, c) == if tasks[r].ExecReplied? then 1 else 0)
  }

  ghost predicate NoticesFit(out: seq<Message>, cells: map<CallId, CallState>, workers: map<CallId, Worker>) {
    && (forall c: CallId :: Notices(out, c) == if c in workers && workers[c].phase.Closed? then 1 else 0)
    && (forall i :: 0 <= i < |out| && out[i].State? ==>
          out[i].call in workers && workers[out[i].call].phase.Closed?
          && out[i].call in cells && out[i].status == cells[out[i].call].status)
  }

  ghost predicate Inv(e: Engine) {
    && Bookkeeping(e)
    && Orderly(e.out)
    && AnnouncementsFit(e.out, e.tasks, e.workers, e.nextCall)
    && NoticesFit(e.out, e.cells, e.workers)
  }

  lemma Sent(out: seq<Message>, m: Message)
    ensures (out + [m])[..|out|] == out
    ensures forall c: CallId :: Starts(out + [m], c) == Starts(out, c) + if m.Started? && m.call == c then 1 else 0
    ensures forall c: CallId :: Notices(out + [m], c) == Notices(out, c) + if m.State? && m.call == c then 1 else 0
    ensures Orderly(out + [m]) <==> Orderly(out)
                                    && (m.Started? ==> Starts(out, m.call) == 0)
                                    && (m.State? ==> Starts(out, m.call) == 1 && Notices(out, m.call) == 0)
  {
    assert (out + [m])[..|out|] == out;
  }

  lemma BookkeepingStep(e: Engine, s: Step)
    requires Bookkeeping(e) && Enabled(e, s)
    ensures Bookkeeping(Apply(e, s))
  {
    hide Bookkeeping;
    match s
    case Submit(req, request) => SubmitKeeps(e, req, request);
    case Advance(req, fires) =>
      if Executing(e.tasks[req]) {
        ExecKeeps(e, req, fires);
      } else if e.tasks[req].PageFound? || e.tasks[req].PageRead? || e.tasks[req].Serving? {
        PageKeeps(e, req, fires);
      } else {
        CancelKeeps(e, req, fires);
      }
    case _ => WorkKeeps(e, s);
  }

  /** The channel says the same about every call. */
  ghost predicate SameNews(out: seq<Message>, out': seq<Message>) {
    && (forall c: CallId {:trigger Starts(out', c)} :: Starts(out', c) == Starts(out, c))
    && (forall c: CallId {:trigger Notices(out', c)} :: Notices(out', c) == Notices(out, c))
    && (Orderly(out) ==> Orderly(out'))
    && (forall i :: 0 <= i < |out'| && out'[i].State? ==> i < |out| && out[i] == out'[i])
  }

  ghost predicate Announces(e: Engine, s: Step) {
    s.Advance? && s.req in e.tasks && e.tasks[s.req].ExecInserted?
  }

  lemma QuietSend(out: seq<Message>, m: Message)
    requires !m.Started? && !m.State?
    ensures SameNews(out, out + [m])
  {
    hide Starts, Notices, Orderly;
    Sent(out, m);
  }

  lemma QuietProgress(e: Engine, req: ReqId, fires: Result<()>)
    requires Enabled(e, Advance(req, fires)) && !e.tasks[req].ExecInserted?
    ensures SameNews(e.out, Progress(e, req, fires).out)
  {
    assert SameNews(e.out, e.out);
    hide Starts, Notices, Orderly, ReadPage, CancelSection, SameNews;
    var out' := Progress(e, req, fires).out;
    if out' != e.out {
      QuietSend(e.out, out'[|e.out|]);
    }
  }

  lemma QuietStep(e: Engine, s: Step)
    requires Enabled(e, s) && !s.Close? && !Announces(e, s)
    ensures SameNews(e.out, Apply(e, s).out)
  {
    assert SameNews(e.out, e.out);
    hide Starts, Notices, Orderly, SameNews, Progress;
    match s
    case Advance(req, fires) => QuietProgress(e, req, fires);
    case Submit(req, request) =>
      var out' := Accept(e, req, request).out;
      if out' != e.out {
        QuietSend(e.out, out'[|e.out|]);
      }
    case _ =>
  }

  /** Announcements stay accounted for while no id is announced and no execute task moves. */
  lemma AnnouncementsSame(e: Engine, e': Engine)
    requires AnnouncementsFit(e.out, e.tasks, e.workers, e.nextCall)
    requires forall c: CallId {:trigger Starts(e'.out, c)} :: Starts(e'.out, c) == Starts(e.out, c)
    requires SameExecutions(e, e')
    ensures AnnouncementsFit(e'.out, e'.tasks, e'.workers, e'.nextCall)
  {
    assert forall r: ReqId, c: CallId :: r in e'.tasks && Carries(e'.tasks[r], c) ==>
        r in e.tasks && Carries(e.tasks[r], c);
  }

  lemma AnnouncementsExec(e: Engine, req: ReqId, fires: Result<()>)
    requires Inv(e) && Enabled(e, Advance(req, fires)) && Executing(e.tasks[req])
    ensures
      var e' := Progress(e, req, fires);
      AnnouncementsFit(e'.out, e'.tasks, e'.workers, e'.nextCall)
  {
    hide CallsFit, HandlesFit, HoldersFit, NoticesFit, Starts, Notices, Orderly;
    var t, e' := e.tasks[req], Progress(e, req, fires);
    if t.ExecInserted? {
      Sent(e.out, Started(req, t.call));
    }
    assert !t.ExecNew? ==> Carries(t, t.call);
    assert t.ExecNew? ==> Carries(e'.tasks[req], e.nextCall);
  }

  lemma StartsSame(e: Engine, s: Step)
    requires Bookkeeping(e) && Enabled(e, s) && !Announces(e, s)
    ensures forall c: CallId :: Starts(Apply(e, s).out, c) == Starts(e.out, c)
  {
    hide Bookkeeping, Starts, Notices, Orderly, CloseSection;
    if s.Close? {
      Sent(e.out, Apply(e, s).out[|e.out|]);
    } else {
      QuietStep(e, s);
    }
  }

  ghost predicate SameExecutions(e: Engine, e': Engine) {
    && e'.workers.Keys == e.workers.Keys && e'.nextCall == e.nextCall
    && (forall r: ReqId :: r in e'.tasks && Executing(e'.tasks[r]) && !e'.tasks[r].ExecNew? ==>
          r in e.tasks && e'.tasks[r] == e.tasks[r])
  }

  lemma ServingKeepsExecutions(e: Engine, req: ReqId, fires: Result<()>)
    requires Enabled(e, Advance(req, fires)) && !Executing(e.tasks[req])
    ensures SameExecutions(e, Progress(e, req, fires))
  {
    hide ReadPage, CancelSection;
  }

  lemma ExecutionsSame(e: Engine, s: Step)
    requires Enabled(e, s) && !(s.Advance? && Executing(e.tasks[s.req]))
    ensures SameExecutions(e, Apply(e, s))
  {
    hide Progress, SameExecutions;
    if s.Advance? {
      ServingKeepsExecutions(e, s.req, s.fires);
    } else if s.Submit? {
      AcceptingKeepsExecutions(e, s.req, s.request);
    } else {
      WorkingKeepsExecutions(e, s);
    }
  }

  lemma AcceptingKeepsExecutions(e: Engine, req: ReqId, request: Request)
    ensures SameExecutions(e, Accept(e, req, request))
  {
    match request
    case Hello =>
    case Malformed(_) =>
    case Other =>
    case Execute(_, _) =>
    case GetPage(_, _, _) =>
    case Cancel(_) =>
    case Release(_) =>
  }

  lemma WorkingKeepsExecutions(e: Engine, s: Step)
    requires Enabled(e, s) && !s.Submit? && !s.Advance?
    ensures SameExecutions(e, Apply(e, s))
  {
    hide CloseSection;
    assert Apply(e, s).workers.Keys == e.workers.Keys;
  }

  lemma AnnouncementsStep(e: Engine, s: Step)
    requires Inv(e) && Enabled(e, s)
    ensures
      var e' := Apply(e, s);
      AnnouncementsFit(e'.out, e'.tasks, e'.workers, e'.nextCall)
  {
    hide Bookkeeping, NoticesFit, AnnouncementsFit, Starts, Notices, Orderly, Progress, Accept, MoveTo;
    if s.Advance? && Executing(e.tasks[s.req]) {
      AnnouncementsExec(e, s.req, s.fires);
    } else {
      hide Apply;
      StartsSame(e, s);
      ExecutionsSame(e, s);
      AnnouncementsSame(e, Apply(e, s));
    }
  }

  ghost predicate IsClosed(e: Engine, c: CallId) {
    c in e.workers && e.workers[c].phase.Closed?
  }

  ghost predicate ClosedAlike(e: Engine, e': Engine, c: CallId) {
    && (IsClosed(e', c) <==> IsClosed(e, c))
    && (IsClosed(e, c) && c in e.cells ==> c in e'.cells && e'.cells[c].status == e.cells[c].status)
  }

  lemma ClosedProgress(e: Engine, req: ReqId, fires: Result<()>, c: CallId)
    requires Bookkeeping(e) && Enabled(e, Advance(req, fires))
    ensures ClosedAlike(e, Progress(e, req, fires), c)
  {
    hide HandlesFit, HoldersFit, ReadPage, Consistent, FreshOutcome;
    var t := e.tasks[req];
    assert Executing(t) && !t.ExecNew? ==> Carries(t, t.call);
  }

  /** Closed calls keep their status; every other step keeps which calls are closed. */
  lemma ClosedStay(e: Engine, s: Step, c: CallId)
    requires Bookkeeping(e) && Enabled(e, s) && !s.Close?
    ensures ClosedAlike(e, Apply(e, s), c)
  {
    hide Bookkeeping, Progress;
    if s.Advance? {
      ClosedProgress(e, s.req, s.fires, c);
    }
  }

  lemma NoticesQuiet(e: Engine, s: Step)
    requires Inv(e) && Enabled(e, s) && !s.Close?
    ensures NoticesFit(Apply(e, s).out, Apply(e, s).cells, Apply(e, s).workers)
  {
    hide Bookkeeping, AnnouncementsFit, Starts, Notices, Orderly, Apply;
    var e' := Apply(e, s);
    forall c: CallId
      ensures (c in e'.workers && e'.workers[c].phase.Closed?) <==> IsClosed(e, c)
      ensures IsClosed(e, c) && c in e.cells ==> c in e'.cells && e'.cells[c].status == e.cells[c].status
    {
      ClosedStay(e, s, c);
    }
    NewsOf(e, s);
    WorkersHaveCalls(e);
  }

  lemma WorkersHaveCalls(e: Engine)
    requires Bookkeeping(e)
    ensures e.workers.Keys <= e.cells.Keys
  {
  }

  lemma NewsOf(e: Engine, s: Step)
    requires Bookkeeping(e) && Enabled(e, s) && !s.Close?
    ensures forall c: CallId :: Notices(Apply(e, s).out, c) == Notices(e.out, c)
    ensures var out' := Apply(e, s).out;
            forall i :: 0 <= i < |out'| && out'[i].State? ==> i < |e.out| && e.out[i] == out'[i]
  {
    hide Bookkeeping, Starts, Notices, Orderly, ReadPage;
    if Announces(e, s) {
      Sent(e.out, Started(s.req, e.tasks[s.req].call));
    } else {
      QuietStep(e, s);
    }
  }

  lemma NoticesClose(e: Engine, call: CallId)
    requires Inv(e) && Enabled(e, Close(call))
    ensures
      var e' := Apply(e, Close(call));
      NoticesFit(e'.out, e'.cells, e'.workers)
  {
    hide Bookkeeping, AnnouncementsFit, Starts, Notices, Orderly, CloseSection;
    Sent(e.out, Apply(e, Close(call)).out[|e.out|]);
  }

  lemma ChannelStep(e: Engine, s: Step)
    requires Inv(e) && Enabled(e, s)
    ensures Orderly(Apply(e, s).out)
    ensures NoticesFit(Apply(e, s).out, Apply(e, s).cells, Apply(e, s).workers)
  {
    hide Bookkeeping, ReadPage, CloseSection, Starts, Notices, Orderly, CancelSection;
    if s.Close? {
      NoticesClose(e, s.call);
      Sent(e.out, Apply(e, s).out[|e.out|]);
    } else if Announces(e, s) {
      NoticesQuiet(e, s);
      assert Carries(e.tasks[s.req], e.tasks[s.req].call);
      Sent(e.out, Started(s.req, e.tasks[s.req].call));
    } else {
      QuietStep(e, s);
      NoticesQuiet(e, s);
    }
  }
}
