/** The completion cache (`cmp.lua`): one fetch for all who ask at the same time. A caller's callback is
    a token; `parked` and `lost` record where the tokens are that have not been answered. */
module Completion {
  import opened Wrappers

  type Conn = nat
  type Token = nat
  type FetchId = nat

  datatype Cols = InFlight | Loaded(cols: seq<string>)

  datatype Entry = Entry(
    nodes: Option<seq<string>>,
    nodesPending: Option<seq<Token>>,
    cols: map<string, Cols>,
    colsPending: map<string, seq<Token>>)

  /** What a fetch is for and where its callers are parked: a connection's structure, or the columns
      under one key. */
  datatype Slot = NodesOf(conn: Conn) | ColsOf(conn: Conn, key: string)

  datatype Answer = Answer(t: Token, got: seq<string>)

  datatype State = State(
    cache: map<Conn, Entry>,
    fetches: map<FetchId, Slot>,
    nextFetch: FetchId,
    issued: Token,
    answers: seq<Answer>,
    parked: map<Token, Slot>,
    lost: set<Token>)

  const EMPTY := State(map[], map[], 0, 0, [], map[], {})

  function Key(schema: string, obj: string): string {
    schema + "." + obj
  }

  // ── the transitions ────────────────────────────────────────────────────────

  function Tell(s: State, got: seq<string>): State {
    s.(issued := s.issued + 1, answers := s.answers + [Answer(s.issued, got)])
  }

  function Park(s: State, slot: Slot, entry: Entry): State {
    s.(issued := s.issued + 1, parked := s.parked[s.issued := slot], cache := s.cache[slot.conn := entry])
  }

  function Fetch(s: State, slot: Slot): State {
    s.(nextFetch := s.nextFetch + 1, fetches := s.fetches[s.nextFetch := slot])
  }

  function AskStructure(s: State, conn: Conn): State {
    var t, slot := s.issued, NodesOf(conn);
    if conn in s.cache && s.cache[conn].nodes.Some? then Tell(s, s.cache[conn].nodes.value)
    else if conn in s.cache && s.cache[conn].nodesPending.Some? then
      Park(s, slot, s.cache[conn].(nodesPending := Some(s.cache[conn].nodesPending.value + [t])))
    else Fetch(Park(s, slot, Entry(None, Some([t]), map[], map[])), slot)
  }

  function AskColumns(s: State, conn: Conn, schema: string, obj: string): State {
    var t, key := s.issued, Key(schema, obj);
    if conn !in s.cache then Tell(s, [])
    else
      var e := s.cache[conn];
      if key in e.cols && e.cols[key].Loaded? then Tell(s, e.cols[key].cols)
      else if key in e.cols && key in e.colsPending then
        Park(s, ColsOf(conn, key), e.(colsPending := e.colsPending[key := e.colsPending[key] + [t]]))
      else
        var e' := e.(cols := e.cols[key := InFlight], colsPending := e.colsPending[key := [t]]);
        Fetch(Park(s, ColsOf(conn, key), e'), ColsOf(conn, key))
  }

  function Answers(ts: seq<Token>, got: seq<string>): (r: seq<Answer>)
    ensures |r| == |ts| && forall i :: 0 <= i < |ts| ==> r[i] == Answer(ts[i], got)
  {
    seq(|ts|, i requires 0 <= i < |ts| => Answer(ts[i], got))
  }

  function AnswerAll(s: State, slot: Slot, entry: Entry, ts: seq<Token>, got: seq<string>): State {
    s.(cache := s.cache[slot.conn := entry], answers := s.answers + Answers(ts, got),
       parked := s.parked - (set t | t in ts))
  }

  /** The daemon's answer to fetch `id`; `None` is an error or nothing. */
  function Reply(s: State, id: FetchId, got: Option<seq<string>>): State
    requires id in s.fetches
  {
    var slot, s' := s.fetches[id], s.(fetches := s.fetches - {id});
    var answer := if got.Some? then got.value else [];
    if slot.conn !in s.cache then s'
    else
      var e := s.cache[slot.conn];
      match slot
      case NodesOf(_) =>
        AnswerAll(s', slot, e.(nodes := Some(answer), nodesPending := None),
                  if e.nodesPending.Some? then e.nodesPending.value else [], answer)
      case ColsOf(_, key) =>
        AnswerAll(s', slot,
                  e.(cols := if got.Some? then e.cols[key := Loaded(got.value)] else e.cols - {key},
                     colsPending := e.colsPending - {key}),
                  if key in e.colsPending then e.colsPending[key] else [], answer)
  }

  /** Forget a connection: whoever was parked there is never answered. */
  function Invalidate(s: State, conn: Conn): State {
    var gone := set t | t in s.parked && s.parked[t].conn == conn && conn in s.cache;
    s.(cache := s.cache - {conn}, parked := s.parked - gone, lost := s.lost + gone)
  }

  datatype Step =
    | Structure(conn: Conn)
    | Columns(conn: Conn, schema: string, obj: string)
    | Replied(id: FetchId, got: Option<seq<string>>)
    | Invalidated(conn: Conn)

  predicate Enabled(s: State, step: Step) {
    step.Replied? ==> step.id in s.fetches
  }

  function Apply(s: State, step: Step): State
    requires Enabled(s, step)
  {
    match step
    case Structure(conn) => AskStructure(s, conn)
    case Columns(conn, schema, obj) => AskColumns(s, conn, schema, obj)
    case Replied(id, got) => Reply(s, id, got)
    case Invalidated(conn) => Invalidate(s, conn)
  }

  // ── the invariant ──────────────────────────────────────────────────────────

  /** The list a slot's callers are parked in. */
  function Waiting(cache: map<Conn, Entry>, slot: Slot): Option<seq<Token>> {
    if slot.conn !in cache then None
    else match slot
         case NodesOf(conn) => cache[conn].nodesPending
         case ColsOf(conn, key) =>
           if key in cache[conn].colsPending then Some(cache[conn].colsPending[key]) else None
  }

  /** A structure is there or waited for; columns are in flight exactly when callers are parked. */
  ghost predicate EntryFits(e: Entry) {
    && (e.nodes.Some? <==> e.nodesPending.None?)
    && (forall key :: key in e.colsPending <==> key in e.cols && e.cols[key].InFlight?)
  }

  ghost predicate Distinct(ts: seq<Token>) {
    forall i, j :: 0 <= i < j < |ts| ==> ts[i] != ts[j]
  }

  /** The lists hold exactly the parked tokens, each once and in its own list. */
  ghost predicate ListsFit(cache: map<Conn, Entry>, parked: map<Token, Slot>) {
    && (forall t :: t in parked ==> Waiting(cache, parked[t]).Some? && t in Waiting(cache, parked[t]).value)
    && (forall slot: Slot {:trigger Waiting(cache, slot)} :: Waiting(cache, slot).Some? ==>
          var ts := Waiting(cache, slot).value;
          Distinct(ts) && forall t :: t in ts ==> t in parked && parked[t] == slot)
  }

  ghost predicate UnderWay(fetches: map<FetchId, Slot>, slot: Slot) {
    exists id :: id in fetches && fetches[id] == slot
  }

  /** Every list is waited for by a fetch under way. */
  ghost predicate Fetching(cache: map<Conn, Entry>, fetches: map<FetchId, Slot>) {
    forall slot: Slot {:trigger Waiting(cache, slot)} :: Waiting(cache, slot).Some? ==> UnderWay(fetches, slot)
  }

  ghost predicate IsAnswered(answers: seq<Answer>, t: Token) {
    exists i :: 0 <= i < |answers| && answers[i].t == t
  }

  /** Every token handed out is parked, answered or lost: in one of the three. */
  ghost predicate TokensFit(s: State) {
    && (forall t: Token :: t in s.parked || t in s.lost || IsAnswered(s.answers, t) <==> t < s.issued)
    && (forall t :: t in s.parked ==> t !in s.lost && !IsAnswered(s.answers, t))
    && (forall t :: t in s.lost ==> !IsAnswered(s.answers, t))
    && (forall i, j :: 0 <= i < j < |s.answers| ==> s.answers[i].t != s.answers[j].t)
  }

  ghost predicate Inv(s: State) {
    && (forall conn :: conn in s.cache ==> EntryFits(s.cache[conn]))
    && ListsFit(s.cache, s.parked)
    && Fetching(s.cache, s.fetches)
    && (forall id :: id in s.fetches ==> id < s.nextFetch)
    && TokensFit(s)
  }

  // ── every step keeps it ────────────────────────────────────────────────────

  /** Only `slot`'s list is touched. */
  ghost predicate OnlySlot(cache: map<Conn, Entry>, cache': map<Conn, Entry>, slot: Slot) {
    forall other: Slot {:trigger Waiting(cache', other)} ::
      other != slot ==> Waiting(cache', other) == Waiting(cache, other)
  }

  lemma ListsParked(cache: map<Conn, Entry>, cache': map<Conn, Entry>, parked: map<Token, Slot>, slot: Slot, t: Token)
    requires ListsFit(cache, parked) && OnlySlot(cache, cache', slot) && t !in parked
    requires Waiting(cache', slot) ==
             Some((if Waiting(cache, slot).Some? then Waiting(cache, slot).value else []) + [t])
    ensures ListsFit(cache', parked[t := slot])
  {
    hide Waiting;
  }

  lemma ListsAnswered(cache: map<Conn, Entry>, cache': map<Conn, Entry>, parked: map<Token, Slot>, slot: Slot)
    requires ListsFit(cache, parked) && OnlySlot(cache, cache', slot) && Waiting(cache', slot).None?
    ensures
      var ts := if Waiting(cache, slot).Some? then Waiting(cache, slot).value else [];
      && ListsFit(cache', parked - (set t | t in ts))
      && Distinct(ts) && (forall t :: t in ts ==> t in parked)
  {
    hide Waiting;
  }

  lemma FetchingStill(cache: map<Conn, Entry>, cache': map<Conn, Entry>, fetches: map<FetchId, Slot>, slot: Slot)
    requires Fetching(cache, fetches) && OnlySlot(cache, cache', slot)
    requires Waiting(cache, slot).Some? || Waiting(cache', slot).None?
    ensures Fetching(cache', fetches)
  {
    hide Waiting;
  }

  lemma FetchingMore(cache: map<Conn, Entry>, cache': map<Conn, Entry>, fetches: map<FetchId, Slot>,
                     slot: Slot, id: FetchId)
    requires Fetching(cache, fetches) && OnlySlot(cache, cache', slot) && id !in fetches
    ensures Fetching(cache', fetches[id := slot])
  {
    hide Waiting;
    forall other: Slot | Waiting(cache', other).Some? ensures UnderWay(fetches[id := slot], other) {
      if other == slot {
        assert fetches[id := slot][id] == slot;
      } else {
        var i :| i in fetches && fetches[i] == other;
        assert fetches[id := slot][i] == other;
      }
    }
  }

  lemma FetchingLess(cache: map<Conn, Entry>, cache': map<Conn, Entry>, fetches: map<FetchId, Slot>, id: FetchId)
    requires id in fetches && Fetching(cache, fetches) && OnlySlot(cache, cache', fetches[id])
    requires Waiting(cache', fetches[id]).None?
    ensures Fetching(cache', fetches - {id})
  {
    hide Waiting;
    forall other: Slot | Waiting(cache', other).Some? ensures UnderWay(fetches - {id}, other) {
      var i :| i in fetches && fetches[i] == other;
      assert (fetches - {id})[i] == other;
    }
  }

  lemma ToldFits(s: State, got: seq<string>)
    requires TokensFit(s)
    ensures TokensFit(Tell(s, got))
  {
    AnsweredMore(s.answers, [Answer(s.issued, got)]);
    AnsweredAre([s.issued], got);
    assert Answers([s.issued], got) == [Answer(s.issued, got)];
    forall i | 0 <= i < |s.answers| ensures s.answers[i].t < s.issued {
      assert IsAnswered(s.answers, s.answers[i].t);
    }
  }

  lemma AnsweredMore(answers: seq<Answer>, more: seq<Answer>)
    ensures forall t: Token :: IsAnswered(answers + more, t) <==> IsAnswered(answers, t) || IsAnswered(more, t)
  {
    forall t: Token ensures IsAnswered(answers + more, t) <==> IsAnswered(answers, t) || IsAnswered(more, t) {
      if IsAnswered(answers, t) {
        var i :| 0 <= i < |answers| && answers[i].t == t;
        assert (answers + more)[i].t == t;
      }
      if IsAnswered(more, t) {
        var i :| 0 <= i < |more| && more[i].t == t;
        assert (answers + more)[|answers| + i].t == t;
      }
    }
  }

  lemma AnsweredAre(ts: seq<Token>, got: seq<string>)
    ensures forall t: Token :: IsAnswered(Answers(ts, got), t) <==> t in ts
  {
    forall t: Token | t in ts ensures IsAnswered(Answers(ts, got), t) {
      var i :| 0 <= i < |ts| && ts[i] == t;
      assert Answers(ts, got)[i].t == t;
    }
  }

  lemma ParkedFits(s: State, slot: Slot, entry: Entry)
    requires TokensFit(s)
    ensures TokensFit(Park(s, slot, entry)) && s.issued !in s.parked
  {
  }

  lemma AnsweredAllFits(s: State, slot: Slot, entry: Entry, ts: seq<Token>, got: seq<string>)
    requires TokensFit(s) && Distinct(ts) && (forall t :: t in ts ==> t in s.parked)
    ensures TokensFit(AnswerAll(s, slot, entry, ts, got))
  {
    var s' := AnswerAll(s, slot, entry, ts, got);
    AnsweredMore(s.answers, Answers(ts, got));
    AnsweredAre(ts, got);
    forall i, j | 0 <= i < j < |s'.answers| ensures s'.answers[i].t != s'.answers[j].t {
      if i < |s.answers| <= j {
        assert s'.answers[j].t == ts[j - |s.answers|];
        assert IsAnswered(s.answers, s'.answers[i].t);
      }
    }
  }

  lemma StructureKeeps(s: State, conn: Conn)
    requires Inv(s)
    ensures Inv(AskStructure(s, conn))
  {
    hide ListsFit, Fetching, TokensFit;
    var slot, s' := NodesOf(conn), AskStructure(s, conn);
    if conn in s.cache && s.cache[conn].nodes.Some? {
      ToldFits(s, s.cache[conn].nodes.value);
    } else {
      ParkedFits(s, slot, s'.cache[conn]);
      assert [] + [s.issued] == [s.issued];
      ListsParked(s.cache, s'.cache, s.parked, slot, s.issued);
      if conn in s.cache {
        FetchingStill(s.cache, s'.cache, s.fetches, slot);
      } else {
        FetchingMore(s.cache, s'.cache, s.fetches, slot, s.nextFetch);
        FetchedFits(Park(s, slot, s'.cache[conn]), slot);
      }
    }
  }

  lemma FetchedFits(s: State, slot: Slot)
    requires TokensFit(s)
    ensures TokensFit(Fetch(s, slot))
  {
  }

  /** A new list under one key touches nothing else. */
  lemma KeyTouched(cache: map<Conn, Entry>, conn: Conn, key: string, e': Entry, ts: seq<Token>)
    requires conn in cache && e'.nodesPending == cache[conn].nodesPending
    requires e'.colsPending == cache[conn].colsPending[key := ts]
    ensures OnlySlot(cache, cache[conn := e'], ColsOf(conn, key))
    ensures Waiting(cache[conn := e'], ColsOf(conn, key)) == Some(ts)
  {
  }

  lemma ColumnsKeep(s: State, conn: Conn, schema: string, obj: string)
    requires Inv(s)
    ensures Inv(AskColumns(s, conn, schema, obj))
  {
    hide ListsFit, Fetching, TokensFit, OnlySlot;
    var key, s' := Key(schema, obj), AskColumns(s, conn, schema, obj);
    var slot := ColsOf(conn, key);
    if conn !in s.cache {
      ToldFits(s, []);
    } else {
      var e := s.cache[conn];
      if key in e.cols && e.cols[key].Loaded? {
        ToldFits(s, e.cols[key].cols);
      } else {
        ParkedFits(s, slot, s'.cache[conn]);
        assert [] + [s.issued] == [s.issued];
        KeyTouched(s.cache, conn, key, s'.cache[conn], s'.cache[conn].colsPending[key]);
        ListsParked(s.cache, s'.cache, s.parked, slot, s.issued);
        if key in e.cols {
          FetchingStill(s.cache, s'.cache, s.fetches, slot);
        } else {
          FetchingMore(s.cache, s'.cache, s.fetches, slot, s.nextFetch);
          FetchedFits(Park(s, slot, s'.cache[conn]), slot);
        }
      }
    }
  }

  /** The callers a slot has parked. */
  function Callers(cache: map<Conn, Entry>, slot: Slot): seq<Token> {
    if Waiting(cache, slot).Some? then Waiting(cache, slot).value else []
  }

  /** A reply empties its own list and touches no other. */
  lemma ReplyTouches(s: State, id: FetchId, got: Option<seq<string>>)
    requires id in s.fetches && forall conn :: conn in s.cache ==> EntryFits(s.cache[conn])
    ensures
      var slot, s' := s.fetches[id], Reply(s, id, got);
      && OnlySlot(s.cache, s'.cache, slot) && Waiting(s'.cache, slot).None?
      && (forall conn :: conn in s'.cache ==> EntryFits(s'.cache[conn]))
  {
    match s.fetches[id]
    case NodesOf(_) =>
    case ColsOf(_, _) =>
  }

  lemma ReplyIs(s: State, id: FetchId, got: Option<seq<string>>)
    requires id in s.fetches
    ensures
      var slot, s', s1 := s.fetches[id], Reply(s, id, got), s.(fetches := s.fetches - {id});
      if slot.conn !in s.cache then s' == s1
      else
        && slot.conn in s'.cache
        && s' == AnswerAll(s1, slot, s'.cache[slot.conn], Callers(s.cache, slot), if got.Some? then got.value else [])
  {
  }

  lemma ReplyKeeps(s: State, id: FetchId, got: Option<seq<string>>)
    requires Inv(s) && id in s.fetches
    ensures Inv(Reply(s, id, got))
  {
    var slot, s1, s' := s.fetches[id], s.(fetches := s.fetches - {id}), Reply(s, id, got);
    assert TokensFit(s1);
    hide ListsFit, Fetching, TokensFit, Reply, EntryFits, Waiting, OnlySlot;
    ReplyTouches(s, id, got);
    ReplyIs(s, id, got);
    FetchingLess(s.cache, s'.cache, s.fetches, id);
    if slot.conn in s.cache {
      ListsAnswered(s.cache, s'.cache, s.parked, slot);
      AnsweredAllFits(s1, slot, s'.cache[slot.conn], Callers(s.cache, slot), if got.Some? then got.value else []);
    }
  }

  lemma InvalidateKeeps(s: State, conn: Conn)
    requires Inv(s)
    ensures Inv(Invalidate(s, conn))
  {
    hide TokensFit, EntryFits;
    var s' := Invalidate(s, conn);
    assert forall slot: Slot :: Waiting(s'.cache, slot) == if slot.conn == conn then None else Waiting(s.cache, slot);
    LostFits(s, (set t | t in s.parked && s.parked[t].conn == conn && conn in s.cache), s'.cache);
  }

  lemma LostFits(s: State, gone: set<Token>, cache: map<Conn, Entry>)
    requires TokensFit(s) && gone <= s.parked.Keys
    ensures TokensFit(s.(cache := cache, parked := s.parked - gone, lost := s.lost + gone))
  {
  }

  lemma InvStep(s: State, step: Step)
    requires Inv(s) && Enabled(s, step)
    ensures Inv(Apply(s, step))
  {
    hide Inv;
    match step
    case Structure(conn) => StructureKeeps(s, conn);
    case Columns(conn, schema, obj) => ColumnsKeep(s, conn, schema, obj);
    case Replied(id, got) => ReplyKeeps(s, id, got);
    case Invalidated(conn) => InvalidateKeeps(s, conn);
  }

  // ── whole runs ─────────────────────────────────────────────────────────────

  predicate Runs(s: State, steps: seq<Step>)
    decreases |steps|
  {
    steps == [] || (Enabled(s, steps[0]) && Runs(Apply(s, steps[0]), steps[1..]))
  }

  function After(s: State, steps: seq<Step>): State
    requires Runs(s, steps)
    decreases |steps|
  {
    if steps == [] then s else After(Apply(s, steps[0]), steps[1..])
  }

  lemma {:induction false} InvAlways(s: State, steps: seq<Step>)
    requires Inv(s) && Runs(s, steps)
    ensures Inv(After(s, steps))
    decreases |steps|
  {
    hide Inv, Apply;
    if steps != [] {
      InvStep(s, steps[0]);
      InvAlways(Apply(s, steps[0]), steps[1..]);
    }
  }

  /** In every run: no caller is answered twice; whoever has not been answered is parked, or was
      dropped by an invalidation; and a column entry is in flight exactly when callers are parked on
      it. Once no fetch is under way, everyone not dropped has been answered. */
  lemma AnsweredAtMostOnce(steps: seq<Step>)
    requires Runs(EMPTY, steps)
    ensures
      var s := After(EMPTY, steps);
      && (forall i, j :: 0 <= i < j < |s.answers| ==> s.answers[i].t != s.answers[j].t)
      && (forall t: Token :: t < s.issued && t !in s.lost ==> (IsAnswered(s.answers, t) <==> t !in s.parked))
      && (forall conn, key :: conn in s.cache ==>
            (key in s.cache[conn].colsPending <==> key in s.cache[conn].cols && s.cache[conn].cols[key].InFlight?))
      && (s.fetches == map[] ==> s.parked == map[])
  {
    assert Inv(EMPTY);
    hide Runs, After, Waiting;
    InvAlways(EMPTY, steps);
  }

  /** Some step of the run forgets the connection that `t` is parked on. */
  ghost predicate Dropped(s: State, steps: seq<Step>, t: Token)
    requires Runs(s, steps)
    decreases |steps|
  {
    steps != [] &&
    ((steps[0].Invalidated? && t in s.parked && s.parked[t].conn == steps[0].conn)
     || Dropped(Apply(s, steps[0]), steps[1..], t))
  }

  lemma LostStep(s: State, step: Step, t: Token)
    requires Inv(s) && Enabled(s, step)
    ensures t in Apply(s, step).lost <==>
            t in s.lost || (step.Invalidated? && t in s.parked && s.parked[t].conn == step.conn)
  {
    hide Fetching, TokensFit, EntryFits;
  }

  lemma {:induction false} LostInRuns(s: State, steps: seq<Step>, t: Token)
    requires Inv(s) && Runs(s, steps)
    ensures t in After(s, steps).lost <==> t in s.lost || Dropped(s, steps, t)
    decreases |steps|
  {
    hide Inv, Apply, Enabled;
    if steps != [] {
      InvStep(s, steps[0]);
      LostStep(s, steps[0], t);
      LostInRuns(Apply(s, steps[0]), steps[1..], t);
    }
  }

  /** In every run: a caller parked on a connection when it is forgotten is never answered, and once no fetch
      is under way everyone else has been. */
  lemma DroppedForGood(steps: seq<Step>, t: Token)
    requires Runs(EMPTY, steps) && t < After(EMPTY, steps).issued
    ensures
      var s := After(EMPTY, steps);
      && (Dropped(EMPTY, steps, t) ==> !IsAnswered(s.answers, t))
      && (s.fetches == map[] && !Dropped(EMPTY, steps, t) ==> IsAnswered(s.answers, t))
  {
    assert Inv(EMPTY);
    hide Runs, After, Dropped, IsAnswered, ListsFit, Fetching, EntryFits;
    InvAlways(EMPTY, steps);
    LostInRuns(EMPTY, steps, t);
    AnsweredAtMostOnce(steps);
  }

  // ── one fetch ──────────────────────────────────────────────────────────────

  /** For a connection: no two fetches for the same thing, and none that nobody waits for. */
  ghost predicate OneFetch(s: State, conn: Conn) {
    && (forall i, j :: i in s.fetches && j in s.fetches && s.fetches[i] == s.fetches[j] && s.fetches[i].conn == conn ==>
          i == j)
    && (forall i :: i in s.fetches && s.fetches[i].conn == conn ==> Waiting(s.cache, s.fetches[i]).Some?)
  }

  /** A fetch for the connection is under way. */
  ghost predicate Busy(s: State, conn: Conn) {
    exists id :: id in s.fetches && s.fetches[id].conn == conn
  }

  /** Whenever the run invalidates the connection, no fetch for it is under way. */
  ghost predicate Quietly(s: State, steps: seq<Step>, conn: Conn)
    requires Runs(s, steps)
    decreases |steps|
  {
    steps != [] ==>
      && (steps[0] == Invalidated(conn) ==> !Busy(s, conn))
      && Quietly(Apply(s, steps[0]), steps[1..], conn)
  }

  /** An invalidation keeps it, exactly when it finds no fetch for the connection under way. */
  lemma OneFetchInvalidated(s: State, conn: Conn)
    requires OneFetch(s, conn)
    ensures OneFetch(Invalidate(s, conn), conn) <==> !Busy(s, conn)
  {
  }

  lemma OneFetchStep(s: State, step: Step, conn: Conn)
    requires Inv(s) && OneFetch(s, conn) && Enabled(s, step) && (step == Invalidated(conn) ==> !Busy(s, conn))
    ensures OneFetch(Apply(s, step), conn)
  {
    hide Inv, OneFetch, Busy, AskStructure, AskColumns, Reply, Invalidate;
    match step
    case Structure(c) => OneFetchStructure(s, c, conn);
    case Columns(c, schema, obj) => OneFetchColumns(s, c, schema, obj, conn);
    case Replied(id, got) => OneFetchReplied(s, id, got, conn);
    case Invalidated(other) =>
      if other == conn {
        OneFetchInvalidated(s, conn);
      } else {
        OneFetchElsewhere(s, other, conn);
      }
  }

  lemma OneFetchStructure(s: State, c: Conn, conn: Conn)
    requires Inv(s) && OneFetch(s, conn)
    ensures OneFetch(AskStructure(s, c), conn)
  {
    hide ListsFit, Fetching, TokensFit;
  }

  lemma OneFetchColumns(s: State, c: Conn, schema: string, obj: string, conn: Conn)
    requires Inv(s) && OneFetch(s, conn)
    ensures OneFetch(AskColumns(s, c, schema, obj), conn)
  {
    hide ListsFit, Fetching, TokensFit;
  }

  lemma OneFetchElsewhere(s: State, other: Conn, conn: Conn)
    requires OneFetch(s, conn) && other != conn
    ensures OneFetch(Invalidate(s, other), conn)
  {
    assert forall slot: Slot :: slot.conn != other ==>
           Waiting(Invalidate(s, other).cache, slot) == Waiting(s.cache, slot);
  }

  lemma OneFetchReplied(s: State, id: FetchId, got: Option<seq<string>>, conn: Conn)
    requires id in s.fetches && OneFetch(s, conn)
    ensures OneFetch(Reply(s, id, got), conn)
  {
    var s' := Reply(s, id, got);
    assert forall slot: Slot :: slot != s.fetches[id] ==> Waiting(s'.cache, slot) == Waiting(s.cache, slot);
  }

  /** In every run in which a connection is invalidated only while no fetch for it is under way, there
      is at most one fetch under way for its structure and for each of its keys, and there is one
      exactly while callers are parked. */
  lemma {:induction false} OneFetchAtATime(s: State, steps: seq<Step>, conn: Conn, slot: Slot)
    requires Inv(s) && OneFetch(s, conn) && Runs(s, steps) && Quietly(s, steps, conn) && slot.conn == conn
    ensures
      var last := After(s, steps);
      && OneFetch(last, conn)
      && (forall i, j :: i in last.fetches && j in last.fetches && last.fetches[i] == last.fetches[j] == slot ==>
            i == j)
      && (UnderWay(last.fetches, slot) <==> Waiting(last.cache, slot).Some?)
    decreases |steps|
  {
    hide Inv, OneFetch, Apply, Waiting, Busy;
    if steps != [] {
      InvStep(s, steps[0]);
      OneFetchStep(s, steps[0], conn);
      OneFetchAtATime(Apply(s, steps[0]), steps[1..], conn, slot);
    } else {
      WaitingIsFetching(s, conn, slot);
    }
  }

  lemma WaitingIsFetching(s: State, conn: Conn, slot: Slot)
    requires Inv(s) && OneFetch(s, conn) && slot.conn == conn
    ensures forall i, j :: i in s.fetches && j in s.fetches && s.fetches[i] == s.fetches[j] == slot ==> i == j
    ensures UnderWay(s.fetches, slot) <==> Waiting(s.cache, slot).Some?
  {
    hide ListsFit, TokensFit, EntryFits, Waiting;
  }

  // ── loaded columns ─────────────────────────────────────────────────────────

  ghost predicate HasColumns(s: State, conn: Conn, key: string, cols: seq<string>) {
    conn in s.cache && key in s.cache[conn].cols && s.cache[conn].cols[key] == Loaded(cols)
  }

  lemma LoadedStep(s: State, step: Step, conn: Conn, key: string, cols: seq<string>)
    requires Inv(s) && Enabled(s, step) && step != Invalidated(conn)
    requires HasColumns(s, conn, key, cols) && !UnderWay(s.fetches, ColsOf(conn, key))
    ensures HasColumns(Apply(s, step), conn, key, cols) && !UnderWay(Apply(s, step).fetches, ColsOf(conn, key))
  {
    hide ListsFit, Fetching, TokensFit, Key;
  }

  lemma {:induction false} LoadedInRuns(s: State, steps: seq<Step>, conn: Conn, key: string, cols: seq<string>)
    requires Inv(s) && Runs(s, steps) && Invalidated(conn) !in steps
    requires HasColumns(s, conn, key, cols) && !UnderWay(s.fetches, ColsOf(conn, key))
    ensures HasColumns(After(s, steps), conn, key, cols)
    decreases |steps|
  {
    hide Inv, Apply, HasColumns, UnderWay;
    if steps != [] {
      InvStep(s, steps[0]);
      LoadedStep(s, steps[0], conn, key, cols);
      LoadedInRuns(Apply(s, steps[0]), steps[1..], conn, key, cols);
    }
  }

  /** The caller is told at once, and nothing is fetched. */
  ghost predicate ToldAtOnce(s: State, s': State, got: seq<string>) {
    && s'.answers == s.answers + [Answer(s.issued, got)] && s'.issued == s.issued + 1
    && s'.fetches == s.fetches && s'.cache == s.cache && s'.parked == s.parked
  }

  /** After this run the columns are handed out as they were, without another fetch. */
  ghost predicate HandsOut(s: State, steps: seq<Step>, conn: Conn, schema: string, obj: string, cols: seq<string>)
    requires Runs(s, steps)
  {
    ToldAtOnce(After(s, steps), AskColumns(After(s, steps), conn, schema, obj), cols)
  }

  /** Columns once loaded are handed out unchanged, without another fetch, in every run that does not
      invalidate the connection, exactly when no fetch for them is still under way. */
  lemma LoadedStays(s: State, conn: Conn, schema: string, obj: string, cols: seq<string>)
    requires Inv(s) && HasColumns(s, conn, Key(schema, obj), cols)
    ensures (forall steps :: Runs(s, steps) && Invalidated(conn) !in steps ==>
                HandsOut(s, steps, conn, schema, obj, cols))
       <==> !UnderWay(s.fetches, ColsOf(conn, Key(schema, obj)))
  {
    var slot := ColsOf(conn, Key(schema, obj));
    hide Inv, Key, UnderWay;
    if UnderWay(s.fetches, slot) {
      FailureForgets(s, conn, schema, obj, cols);
    } else {
      hide Runs, After;
      forall steps | Runs(s, steps) && Invalidated(conn) !in steps ensures HandsOut(s, steps, conn, schema, obj, cols) {
        LoadedInRuns(s, steps, conn, slot.key, cols);
      }
    }
  }

  /** When such a fetch fails, the columns are forgotten. */
  lemma FailureForgets(s: State, conn: Conn, schema: string, obj: string, cols: seq<string>)
    requires Inv(s) && HasColumns(s, conn, Key(schema, obj), cols)
    requires UnderWay(s.fetches, ColsOf(conn, Key(schema, obj)))
    ensures exists steps ::
              Runs(s, steps) && Invalidated(conn) !in steps && !HandsOut(s, steps, conn, schema, obj, cols)
  {
    hide Inv, Key;
    var id :| id in s.fetches && s.fetches[id] == ColsOf(conn, Key(schema, obj));
    var steps := [Replied(id, None)];
    var s' := Reply(s, id, None);
    assert steps[1..] == [] && Runs(s', []) && After(s', []) == s';
    assert Runs(s, steps) && After(s, steps) == s';
    assert AskColumns(s', conn, schema, obj).answers == s'.answers;
  }

  /** And none is, in a run from the start that invalidates the connection only while no fetch for it
      is under way. */
  lemma LoadedWithoutFetch(steps: seq<Step>, conn: Conn, key: string, cols: seq<string>)
    requires Runs(EMPTY, steps) && Quietly(EMPTY, steps, conn) && HasColumns(After(EMPTY, steps), conn, key, cols)
    ensures !UnderWay(After(EMPTY, steps).fetches, ColsOf(conn, key))
  {
    assert Inv(EMPTY);
    assert OneFetch(EMPTY, conn);
    hide Runs, After, Quietly;
    OneFetchAtATime(EMPTY, steps, conn, ColsOf(conn, key));
    InvAlways(EMPTY, steps);
    hide ListsFit, Fetching, TokensFit, OneFetch, UnderWay;
  }

  // ── a loaded structure ─────────────────────────────────────────────────────

  ghost predicate HasNodes(s: State, conn: Conn, nodes: seq<string>) {
    conn in s.cache && s.cache[conn].nodes == Some(nodes)
  }

  lemma NodesStep(s: State, step: Step, conn: Conn, nodes: seq<string>)
    requires Inv(s) && Enabled(s, step) && step != Invalidated(conn)
    requires HasNodes(s, conn, nodes) && !UnderWay(s.fetches, NodesOf(conn))
    ensures HasNodes(Apply(s, step), conn, nodes) && !UnderWay(Apply(s, step).fetches, NodesOf(conn))
  {
    hide ListsFit, Fetching, TokensFit, Key;
  }

  lemma {:induction false} NodesInRuns(s: State, steps: seq<Step>, conn: Conn, nodes: seq<string>)
    requires Inv(s) && Runs(s, steps) && Invalidated(conn) !in steps
    requires HasNodes(s, conn, nodes) && !UnderWay(s.fetches, NodesOf(conn))
    ensures HasNodes(After(s, steps), conn, nodes)
    decreases |steps|
  {
    hide Inv, Apply, HasNodes, UnderWay;
    if steps != [] {
      InvStep(s, steps[0]);
      NodesStep(s, steps[0], conn, nodes);
      NodesInRuns(Apply(s, steps[0]), steps[1..], conn, nodes);
    }
  }

  /** After this run the structure is handed out as it was, without another fetch. */
  ghost predicate ShowsNodes(s: State, steps: seq<Step>, conn: Conn, nodes: seq<string>)
    requires Runs(s, steps)
  {
    ToldAtOnce(After(s, steps), AskStructure(After(s, steps), conn), nodes)
  }

  /** A structure once loaded is handed out unchanged, without another fetch, in every run that does not
      invalidate the connection, exactly when no fetch for it is still under way. */
  lemma StructureStays(s: State, conn: Conn, nodes: seq<string>)
    requires Inv(s) && HasNodes(s, conn, nodes)
    ensures (forall steps :: Runs(s, steps) && Invalidated(conn) !in steps ==> ShowsNodes(s, steps, conn, nodes))
       <==> !UnderWay(s.fetches, NodesOf(conn))
  {
    hide Inv, UnderWay;
    if UnderWay(s.fetches, NodesOf(conn)) {
      OtherNodesCome(s, conn, nodes);
    } else {
      hide Runs, After;
      forall steps | Runs(s, steps) && Invalidated(conn) !in steps ensures ShowsNodes(s, steps, conn, nodes) {
        NodesInRuns(s, steps, conn, nodes);
      }
    }
  }

  /** When such a fetch brings something else, that is what is handed out. */
  lemma OtherNodesCome(s: State, conn: Conn, nodes: seq<string>)
    requires HasNodes(s, conn, nodes) && UnderWay(s.fetches, NodesOf(conn))
    ensures exists steps :: Runs(s, steps) && Invalidated(conn) !in steps && !ShowsNodes(s, steps, conn, nodes)
  {
    var id :| id in s.fetches && s.fetches[id] == NodesOf(conn);
    var other := nodes + [""];
    var step := Replied(id, Some(other));
    OneStep(s, step);
    var s' := Apply(s, step);
    assert AskStructure(s', conn).answers == s'.answers + [Answer(s'.issued, other)];
    assert AskStructure(s', conn).answers[|s'.answers|].got == other != nodes;
    assert !ShowsNodes(s, [step], conn, nodes);
  }

  /** A reply answers everyone parked on the structure with what came, or with nothing; either is
      remembered, so that a failed fetch leaves the connection with an empty structure. */
  lemma StructureSettles(s: State, id: FetchId, got: Option<seq<string>>, conn: Conn)
    requires Inv(s) && id in s.fetches && s.fetches[id] == NodesOf(conn) && conn in s.cache
    ensures
      var s', nodes := Reply(s, id, got), if got.Some? then got.value else [];
      && (forall t: Token :: t in s.parked && s.parked[t] == NodesOf(conn) ==> Answer(t, nodes) in s'.answers)
      && HasNodes(s', conn, nodes)
  {
    hide Fetching, TokensFit, EntryFits;
    var s', nodes := Reply(s, id, got), if got.Some? then got.value else [];
    forall t: Token | t in s.parked && s.parked[t] == NodesOf(conn) ensures Answer(t, nodes) in s'.answers {
      var ts := Waiting(s.cache, NodesOf(conn)).value;
      var i :| 0 <= i < |ts| && ts[i] == t;
      assert Answers(ts, nodes)[i] == Answer(t, nodes);
      assert s'.answers[|s.answers| + i] == Answer(t, nodes);
    }
  }

  /** Columns of a connection that has no entry are answered with nothing, and nothing is fetched. */
  lemma NoEntryNoColumns(s: State, conn: Conn, schema: string, obj: string)
    requires conn !in s.cache
    ensures ToldAtOnce(s, AskColumns(s, conn, schema, obj), [])
  {
  }

  // ── a fetch that outlives its entry ────────────────────────────────────────

  /** Two fetches for the same thing are under way. */
  ghost predicate Twice(s: State, conn: Conn) {
    exists i, j :: i in s.fetches && j in s.fetches && i != j &&
      s.fetches[i] == s.fetches[j] && s.fetches[i].conn == conn
  }

  ghost predicate LeadsToTwo(s: State, steps: seq<Step>, conn: Conn) {
    Runs(s, steps) && Invalidated(conn) !in steps && Twice(After(s, steps), conn)
  }

  /** Columns are only fetched under keys made from two names. */
  ghost predicate KeysMade(s: State) {
    forall id :: id in s.fetches && s.fetches[id].ColsOf? ==> '.' in s.fetches[id].key
  }

  lemma KeysMadeStep(s: State, step: Step)
    requires KeysMade(s) && Enabled(s, step)
    ensures KeysMade(Apply(s, step))
  {
    if step.Columns? {
      assert Key(step.schema, step.obj)[|step.schema|] == '.';
    }
  }

  lemma {:induction false} KeysMadeAlways(s: State, steps: seq<Step>)
    requires KeysMade(s) && Runs(s, steps)
    ensures KeysMade(After(s, steps))
    decreases |steps|
  {
    hide KeysMade, Apply, Enabled;
    if steps != [] {
      KeysMadeStep(s, steps[0]);
      KeysMadeAlways(Apply(s, steps[0]), steps[1..]);
    }
  }

  lemma SplitKey(key: string) returns (schema: string, obj: string)
    requires '.' in key
    ensures Key(schema, obj) == key
  {
    var i :| 0 <= i < |key| && key[i] == '.';
    schema, obj := key[..i], key[i + 1..];
  }

  /** The condition is exact: in every state ever reached, an invalidation can be followed by two
      fetches for the same thing at once, without another invalidation, exactly when it finds a fetch
      for the connection under way. */
  lemma StaleFetchExactlyWhen(steps: seq<Step>, conn: Conn)
    requires Runs(EMPTY, steps)
    ensures Busy(After(EMPTY, steps), conn)
       <==> exists more :: LeadsToTwo(Invalidate(After(EMPTY, steps), conn), more, conn)
  {
    assert Inv(EMPTY) && KeysMade(EMPTY);
    hide Runs, After, Inv, KeysMade, LeadsToTwo;
    var s := After(EMPTY, steps);
    InvAlways(EMPTY, steps);
    KeysMadeAlways(EMPTY, steps);
    InvStep(s, Invalidated(conn));
    if Busy(s, conn) {
      BusyLeadsToTwo(s, conn);
    } else {
      forall more ensures !LeadsToTwo(Invalidate(s, conn), more, conn) {
        QuietLeadsToOne(s, more, conn);
      }
    }
  }

  lemma BusyLeadsToTwo(s: State, conn: Conn)
    requires Inv(s) && KeysMade(s) && Busy(s, conn)
    ensures exists more :: LeadsToTwo(Invalidate(s, conn), more, conn)
  {
    hide Inv, LeadsToTwo;
    var id :| id in s.fetches && s.fetches[id].conn == conn;
    match s.fetches[id]
    case NodesOf(_) => StaleStructure(s, id, conn);
    case ColsOf(_, key) =>
      var schema, obj := SplitKey(key);
      StaleColumns(s, id, conn, schema, obj, []);
  }

  lemma QuietLeadsToOne(s: State, more: seq<Step>, conn: Conn)
    requires Inv(Invalidate(s, conn)) && !Busy(s, conn)
    ensures !LeadsToTwo(Invalidate(s, conn), more, conn)
  {
    var s1 := Invalidate(s, conn);
    assert s1.fetches == s.fetches && OneFetch(s1, conn);
    hide Inv, Runs, After, Invalidate;
    if Runs(s1, more) && Invalidated(conn) !in more {
      NoneIsQuiet(s1, more, conn);
      OneFetchAtATime(s1, more, conn, NodesOf(conn));
    }
  }

  lemma {:induction false} NoneIsQuiet(s: State, steps: seq<Step>, conn: Conn)
    requires Runs(s, steps) && Invalidated(conn) !in steps
    ensures Quietly(s, steps, conn)
    decreases |steps|
  {
    hide Apply, Enabled, Busy;
    if steps != [] {
      assert forall step :: step in steps[1..] ==> step in steps;
      NoneIsQuiet(Apply(s, steps[0]), steps[1..], conn);
    }
  }

  lemma StaleStructure(s: State, id: FetchId, conn: Conn)
    requires Inv(s) && id in s.fetches && s.fetches[id] == NodesOf(conn)
    ensures LeadsToTwo(Invalidate(s, conn), [Structure(conn)], conn)
  {
    hide Inv, AskStructure, Invalidate;
    FetchIdsFit(s);
    var s1 := Invalidate(s, conn);
    Forgotten(s, conn);
    var s2 := AskStructure(s1, conn);
    AskedAfresh(s1, conn);
    assert [Structure(conn)][1..] == [] && Runs(s2, []) && After(s2, []) == s2;
    assert Runs(s1, [Structure(conn)]) && After(s1, [Structure(conn)]) == s2;
    assert s2.fetches[id] == s2.fetches[s.nextFetch];
  }

  /** The structure of a connection the cache does not know is fetched, and then columns. */
  function Round(n: FetchId, conn: Conn, schema: string, obj: string, nodes: seq<string>): seq<Step> {
    [Structure(conn), Replied(n, Some(nodes)), Columns(conn, schema, obj)]
  }

  lemma RoundRuns(s: State, conn: Conn, schema: string, obj: string, nodes: seq<string>)
    requires conn !in s.cache
    ensures Runs(s, Round(s.nextFetch, conn, schema, obj, nodes))
    ensures
      var last := After(s, Round(s.nextFetch, conn, schema, obj, nodes));
      && last.fetches == (s.fetches - {s.nextFetch})[s.nextFetch + 1 := ColsOf(conn, Key(schema, obj))]
      && last.nextFetch == s.nextFetch + 2
  {
    hide AskStructure, AskColumns, Reply, Key;
    var a, b, c := Structure(conn), Replied(s.nextFetch, Some(nodes)), Columns(conn, schema, obj);
    var s1 := Apply(s, a);
    AskedAfresh(s, conn);
    var s2 := Apply(s1, b);
    AnsweredAfresh(s1, s.nextFetch, conn, nodes);
    var s3 := Apply(s2, c);
    FetchedAgain(s2, conn, schema, obj);
    assert [c][1..] == [] && [b, c][1..] == [c] && [a, b, c][1..] == [b, c];
    assert Runs(s3, []) && After(s3, []) == s3;
    assert Runs(s2, [c]) && After(s2, [c]) == s3;
    assert Runs(s1, [b, c]) && After(s1, [b, c]) == s3;
    assert s1.fetches - {s.nextFetch} == s.fetches - {s.nextFetch};
  }

  lemma StaleColumns(s: State, id: FetchId, conn: Conn, schema: string, obj: string, nodes: seq<string>)
    requires Inv(s) && id in s.fetches && s.fetches[id] == ColsOf(conn, Key(schema, obj))
    ensures LeadsToTwo(Invalidate(s, conn), Round(s.nextFetch, conn, schema, obj, nodes), conn)
  {
    hide Inv, Invalidate, Key, Runs, After;
    FetchIdsFit(s);
    Forgotten(s, conn);
    RoundRuns(Invalidate(s, conn), conn, schema, obj, nodes);
    var last := After(Invalidate(s, conn), Round(s.nextFetch, conn, schema, obj, nodes));
    assert last.fetches[id] == last.fetches[s.nextFetch + 1];
  }

  lemma {:induction false} RunsOn(s: State, first: seq<Step>, later: seq<Step>)
    requires Runs(s, first) && Runs(After(s, first), later)
    ensures Runs(s, first + later) && After(s, first + later) == After(After(s, first), later)
    decreases |first|
  {
    hide Apply, Enabled;
    if first == [] {
      assert first + later == later;
    } else {
      assert (first + later)[1..] == first[1..] + later;
      RunsOn(Apply(s, first[0]), first[1..], later);
    }
  }

  lemma OneStep(s: State, step: Step)
    requires Enabled(s, step)
    ensures Runs(s, [step]) && After(s, [step]) == Apply(s, step)
  {
    hide Apply, Enabled;
    var last := Apply(s, step);
    assert [step][1..] == [] && Runs(last, []) && After(last, []) == last;
  }

  /** A run that gets there: structure and columns are asked for, the connection is invalidated and
      asked for again, and two fetches for the same columns are under way. */
  lemma StaleFetchSurvives(conn: Conn, schema: string, obj: string, nodes: seq<string>) returns (steps: seq<Step>)
    ensures Runs(EMPTY, steps)
    ensures
      var last := After(EMPTY, steps);
      last.fetches == map[1 := ColsOf(conn, Key(schema, obj)), 3 := ColsOf(conn, Key(schema, obj))]
  {
    var first, again := Round(0, conn, schema, obj, nodes), Round(2, conn, schema, obj, nodes);
    RoundRuns(EMPTY, conn, schema, obj, nodes);
    var s := After(EMPTY, first);
    Forgotten(s, conn);
    OneStep(s, Invalidated(conn));
    hide Runs, After, Round, Key, Invalidate;
    RunsOn(EMPTY, first, [Invalidated(conn)]);
    RoundRuns(Invalidate(s, conn), conn, schema, obj, nodes);
    RunsOn(EMPTY, first + [Invalidated(conn)], again);
    steps := first + [Invalidated(conn)] + again;
  }

  lemma FetchIdsFit(s: State)
    requires Inv(s)
    ensures forall id :: id in s.fetches ==> id < s.nextFetch
  {
  }

  lemma Forgotten(s: State, conn: Conn)
    ensures
      var s' := Invalidate(s, conn);
      conn !in s'.cache && s'.fetches == s.fetches && s'.nextFetch == s.nextFetch
  {
  }

  lemma AskedAfresh(s: State, conn: Conn)
    requires conn !in s.cache
    ensures
      var s' := AskStructure(s, conn);
      && s'.fetches == s.fetches[s.nextFetch := NodesOf(conn)] && s'.nextFetch == s.nextFetch + 1
      && conn in s'.cache && s'.cache[conn].cols == map[] && s'.cache[conn].colsPending == map[]
  {
  }

  lemma AnsweredAfresh(s: State, id: FetchId, conn: Conn, nodes: seq<string>)
    requires id in s.fetches && s.fetches[id] == NodesOf(conn) && conn in s.cache && s.cache[conn].cols == map[]
    ensures
      var s' := Reply(s, id, Some(nodes));
      && s'.fetches == s.fetches - {id} && s'.nextFetch == s.nextFetch
      && conn in s'.cache && s'.cache[conn].cols == map[]
  {
  }

  lemma FetchedAgain(s: State, conn: Conn, schema: string, obj: string)
    requires conn in s.cache && s.cache[conn].cols == map[]
    ensures AskColumns(s, conn, schema, obj).fetches == s.fetches[s.nextFetch := ColsOf(conn, Key(schema, obj))]
    ensures AskColumns(s, conn, schema, obj).nextFetch == s.nextFetch + 1
  {
  }

  /** A reply answers everyone parked on its columns with what came, or with nothing; only a success
      is remembered, so after a failure the next caller makes a new fetch. */
  lemma ReplySettles(s: State, id: FetchId, got: Option<seq<string>>, conn: Conn, schema: string, obj: string)
    requires Inv(s) && id in s.fetches && s.fetches[id] == ColsOf(conn, Key(schema, obj)) && conn in s.cache
    ensures
      var s', key := Reply(s, id, got), Key(schema, obj);
      && (forall t: Token :: t in s.parked && s.parked[t] == s.fetches[id] ==>
            Answer(t, if got.Some? then got.value else []) in s'.answers)
      && (if got.Some? then key in s'.cache[conn].cols && s'.cache[conn].cols[key] == Loaded(got.value)
          else AskColumns(s', conn, schema, obj).fetches == s'.fetches[s'.nextFetch := s.fetches[id]])
  {
    hide Fetching, TokensFit, EntryFits;
    var slot, s', value := s.fetches[id], Reply(s, id, got), if got.Some? then got.value else [];
    forall t: Token | t in s.parked && s.parked[t] == slot ensures Answer(t, value) in s'.answers {
      var ts := Waiting(s.cache, slot).value;
      var i :| 0 <= i < |ts| && ts[i] == t;
      assert Answers(ts, value)[i] == Answer(t, value);
      assert s'.answers[|s.answers| + i] == Answer(t, value);
    }
  }

  // ── the key ────────────────────────────────────────────────────────────────

  /** The key tells two objects apart, exactly as long as neither name has a dot in it. */
  lemma KeyIsFaithful(schema: string, obj: string)
    ensures (exists s: string, o: string :: Key(s, o) == Key(schema, obj) && (s, o) != (schema, obj)) <==>
            '.' in schema || '.' in obj
  {
    if '.' in schema {
      var i :| 0 <= i < |schema| && schema[i] == '.';
      Resplit(schema + "." + obj, i, schema, obj);
    } else if '.' in obj {
      var i :| 0 <= i < |obj| && obj[i] == '.';
      Resplit(schema + "." + obj, |schema| + 1 + i, schema, obj);
    } else {
      forall s: string, o: string | Key(s, o) == Key(schema, obj) ensures (s, o) == (schema, obj) {
        OnlyDot(s, o, schema, obj);
      }
    }
  }

  lemma Resplit(k: string, i: nat, schema: string, obj: string)
    requires i < |k| && k[i] == '.' && k == Key(schema, obj) && i != |schema|
    ensures exists s: string, o: string :: Key(s, o) == k && (s, o) != (schema, obj)
  {
    assert k == k[..i] + "." + k[i + 1..];
    assert Key(k[..i], k[i + 1..]) == k && |k[..i]| != |schema|;
  }

  lemma KeyAt(schema: string, obj: string, i: nat)
    requires i < |Key(schema, obj)|
    ensures
      Key(schema, obj)[i] == if i < |schema| then schema[i] else if i == |schema| then '.' else obj[i - |schema| - 1]
  {
  }

  lemma OnlyDot(s: string, o: string, schema: string, obj: string)
    requires Key(s, o) == Key(schema, obj) && '.' !in schema && '.' !in obj
    ensures s == schema && o == obj
  {
    var k := Key(schema, obj);
    forall i | 0 <= i < |k| && k[i] == '.' ensures i == |schema| {
      KeyAt(schema, obj, i);
    }
    assert k[|s|] == '.';
    assert s == k[..|s|] && schema == k[..|schema|];
    assert o == k[|s| + 1..] && obj == k[|schema| + 1..];
  }

  /** Otherwise the columns loaded for one object are handed out for the other. */
  lemma CollidingObjectIsServed(s: State, conn: Conn, a: (string, string), b: (string, string))
    requires conn in s.cache && Key(a.0, a.1) == Key(b.0, b.1)
    requires Key(a.0, a.1) in s.cache[conn].cols && s.cache[conn].cols[Key(a.0, a.1)].Loaded?
    ensures AskColumns(s, conn, b.0, b.1) == AskColumns(s, conn, a.0, a.1)
    ensures ToldAtOnce(s, AskColumns(s, conn, b.0, b.1), s.cache[conn].cols[Key(a.0, a.1)].cols)
  {
  }

  // ── the module's tables, changed in place ──────────────────────────────────

  class CompletionCache {
    var cache: map<Conn, Entry>
    var fetches: map<FetchId, Slot>
    var nextFetch: FetchId
    var issued: Token
    var answers: seq<Answer>
    ghost var parked: map<Token, Slot>
    ghost var lost: set<Token>

    ghost function Now(): State
      reads this
    {
      State(cache, fetches, nextFetch, issued, answers, parked, lost)
    }

    constructor ()
      ensures Now() == EMPTY
    {
      cache, fetches, nextFetch, issued, answers, parked, lost := map[], map[], 0, 0, [], map[], {};
    }

    method Request(slot: Slot)
      modifies this
      ensures Now() == Fetch(old(Now()), slot)
    {
      fetches := fetches[nextFetch := slot];
      nextFetch := nextFetch + 1;
    }

    method WithStructure(conn: Conn)
      requires Inv(Now())
      modifies this
      ensures Now() == AskStructure(old(Now()), conn)
    {
      var t := issued;
      issued := issued + 1;
      if conn in cache && cache[conn].nodes.Some? {
        answers := answers + [Answer(t, cache[conn].nodes.value)];
        return;
      }
      parked := parked[t := NodesOf(conn)];
      if conn in cache && cache[conn].nodesPending.Some? {
        cache := cache[conn := cache[conn].(nodesPending := Some(cache[conn].nodesPending.value + [t]))];
        return;
      }
      cache := cache[conn := Entry(None, Some([t]), map[], map[])];
      Request(NodesOf(conn));
    }

    method WithColumns(conn: Conn, schema: string, obj: string)
      requires Inv(Now())
      modifies this
      ensures Now() == AskColumns(old(Now()), conn, schema, obj)
    {
      hide ListsFit, Fetching, TokensFit;
      var t := issued;
      issued := issued + 1;
      if conn !in cache {
        answers := answers + [Answer(t, [])];
        return;
      }
      var entry, key := cache[conn], Key(schema, obj);
      if key in entry.cols && entry.cols[key].Loaded? {
        answers := answers + [Answer(t, entry.cols[key].cols)];
        return;
      }
      parked := parked[t := ColsOf(conn, key)];
      if key in entry.cols {
        cache := cache[conn := entry.(colsPending := entry.colsPending[key := entry.colsPending[key] + [t]])];
        return;
      }
      cache := cache[conn := entry.(cols := entry.cols[key := InFlight], colsPending := entry.colsPending[key := [t]])];
      Request(ColsOf(conn, key));
    }

    /** Run the callbacks of a list, in order. */
    method AnswerEach(ts: seq<Token>, got: seq<string>)
      modifies this
      ensures Now() == old(Now()).(answers := old(answers) + Answers(ts, got),
               parked := old(parked) - (set t | t in ts))
    {
      ghost var before := answers;
      parked := parked - (set t | t in ts);
      label Waiting:
      for i := 0 to |ts|
        invariant Now() == old@Waiting(Now()).(answers := before + Answers(ts, got)[..i])
      {
        answers := answers + [Answer(ts[i], got)];
      }
      assert Answers(ts, got)[..|ts|] == Answers(ts, got);
    }

    method OnReply(id: FetchId, got: Option<seq<string>>)
      requires id in fetches
      modifies this
      ensures Now() == Reply(old(Now()), id, got)
    {
      var slot := fetches[id];
      fetches := fetches - {id};
      if slot.conn !in cache {
        return;
      }
      var e := cache[slot.conn];
      match slot
      case NodesOf(conn) =>
        var nodes := if got.Some? then got.value else [];
        var waiting := if e.nodesPending.Some? then e.nodesPending.value else [];
        cache := cache[conn := e.(nodes := Some(nodes), nodesPending := None)];
        AnswerEach(waiting, nodes);
      case ColsOf(conn, key) =>
        var cols := if got.None? then e.cols - {key} else e.cols[key := Loaded(got.value)];
        var waiting := if key in e.colsPending then e.colsPending[key] else [];
        cache := cache[conn := e.(cols := cols, colsPending := e.colsPending - {key})];
        AnswerEach(waiting, if got.Some? then got.value else []);
    }

    method Forget(conn: Conn)
      modifies this
      ensures Now() == Invalidate(old(Now()), conn)
    {
      ghost var gone := set t | t in parked && parked[t].conn == conn && conn in cache;
      parked := parked - gone;
      lost := lost + gone;
      cache := cache - {conn};
    }
  }
}
