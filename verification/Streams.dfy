/** The two result streams a call can hold: a fully materialised one (`drivers/buffered.rs`) and
    the live MongoDB cursor (`drivers/mongodb.rs`). Each is a class with the source's fields; its
    `next_page` is proved against `Pull`, a function on the stream's abstract value. */
module Streams {
  import opened Wrappers

  datatype Value = Null | Text(text: string)

  type Row = seq<Value>

  /** What one read of the remote cursor yields: a document (as its row) or a driver error. */
  datatype CursorItem = Doc(row: Row) | Fault(error: string)

  /** The abstract value of a stream. `ahead` is what the remote cursor has not yielded yet. */
  datatype Stream =
    | Buffered(rows: seq<Row>, pos: nat, affected: Option<nat>)
    | Cursor(ahead: seq<CursorItem>, first: Option<Row>, done: bool, count: Option<nat>)

  predicate WellFormed(s: Stream) {
    match s
    case Buffered(rows, pos, _) => pos <= |rows|
    case Cursor(ahead, _, done, _) => done ==> ahead == []
  }

  function Total(s: Stream): Option<nat> {
    match s
    case Buffered(rows, _, affected) => if rows == [] && affected.Some? then None else Some(|rows|)
    case Cursor(_, _, _, count) => count
  }

  function Affected(s: Stream): Option<nat> {
    match s
    case Buffered(rows, _, affected) => if rows == [] then affected else None
    case Cursor(_, _, _, _) => None
  }

  /** The position of the first fault among the items, or their number. */
  function FirstFault(items: seq<CursorItem>): (k: nat)
    ensures k <= |items|
    ensures k < |items| ==> items[k].Fault?
    ensures forall j :: 0 <= j < k ==> items[j].Doc?
  {
    if items == [] || items[0].Fault? then 0 else 1 + FirstFault(items[1..])
  }

  /** The rows of the documents among the items. */
  function RowsOf(items: seq<CursorItem>): (r: seq<Row>)
    ensures AllDocs(items) ==> |r| == |items|
  {
    if items == [] then []
    else match items[0]
      case Doc(row) => [row] + RowsOf(items[1..])
      case Fault(_) => RowsOf(items[1..])
  }

  ghost predicate AllDocs(items: seq<CursorItem>) {
    forall j :: 0 <= j < |items| ==> items[j].Doc?
  }

  function Held(first: Option<Row>): (r: seq<Row>) {
    if first.Some? then [first.value] else []
  }

  function Min(a: int, b: int): int {
    if a < b then a else b
  }

  /** How many documents a pull of `n` reads ahead when no fault stops it. */
  function Wanted(held: nat, available: nat, n: nat): (k: nat)
    ensures k <= available
  {
    if held >= n then 0 else Min(n - held, available)
  }

  /** One pull of up to `n` rows. A fault inside the pull discards the documents read before it,
      the held-back first one included. */
  function Pull(s: Stream, n: nat): (r: (Stream, Result<Option<seq<Row>>>))
    requires WellFormed(s)
    ensures WellFormed(r.0) && r.0.Buffered? == s.Buffered?
    ensures n >= 1 && r.1.Ok? && r.1.value.Some? ==> 1 <= |r.1.value.value| <= n
    ensures Total(r.0) == Total(s)
  {
    match s
    case Buffered(rows, pos, affected) =>
      if pos >= |rows| then (s, Ok(None))
      else
        var end := Min(pos + n, |rows|);
        (s.(pos := end), Ok(Some(rows[pos..end])))
    case Cursor(ahead, first, done, count) =>
      if done && first.None? then (s, Ok(None))
      else
        var held := Held(first);
        var want := Wanted(|held|, |ahead|, n);
        var f := FirstFault(ahead[..want]);
        if f < want then
          (Cursor(ahead[f + 1..], None, done, count), Err(ahead[f].error))
        else
          var rows := held + RowsOf(ahead[..want]);
          (Cursor(ahead[want..], None, done || |held| + want < n, count),
           Ok(if rows == [] then None else Some(rows)))
  }

  /** The first read error ahead, if there is one. */
  function NextFault(s: Stream): Option<string> {
    if s.Cursor? && FirstFault(s.ahead) < |s.ahead| then Some(s.ahead[FirstFault(s.ahead)].error) else None
  }

  ghost predicate Faulty(s: Stream) {
    NextFault(s).Some?
  }

  /** The rows a stream still has to give before its first fault; without one, all of them. */
  ghost function Rest(s: Stream): seq<Row>
    requires WellFormed(s)
  {
    match s
    case Buffered(rows, pos, _) => rows[pos..]
    case Cursor(ahead, first, _, _) => Held(first) + RowsOf(ahead[..FirstFault(ahead)])
  }

  /** A non-empty pull fails exactly when it asks for more than is left before a fault. Otherwise it
      hands over the next `n` rows of what is left, or all of it, with the fault still ahead; `None`
      says, exactly, that nothing was left. */
  lemma PullTakesPrefix(s: Stream, n: nat)
    requires WellFormed(s) && n >= 1
    ensures
      var (s', page) := Pull(s, n);
      var m := Min(n, |Rest(s)|);
      && (page.Err? <==> Faulty(s) && n > |Rest(s)|)
      && (page.Err? ==> page.error == NextFault(s).value)
      && (page.Ok? ==>
            && page.value == (if m == 0 then None else Some(Rest(s)[..m]))
            && Rest(s') == Rest(s)[m..] && NextFault(s') == NextFault(s))
  {
    hide Pull, Rest, FirstFault, RowsOf;
    if s.Buffered? {
      BufferedTakesPrefix(s, n);
    } else if s.done && s.first.None? {
      SpentGivesNothing(s, n);
    } else {
      var f, k := FirstFault(s.ahead), Wanted(|Held(s.first)|, |s.ahead|, n);
      RestCounts(s);
      if f < k {
        PullStopsAtFault(s, n, f);
      } else {
        CursorTakesPrefix(s, n, k);
      }
    }
  }

  lemma SpentGivesNothing(s: Stream, n: nat)
    requires WellFormed(s) && s.Cursor? && s.done && s.first.None?
    ensures Pull(s, n) == (s, Ok(None)) && Rest(s) == [] && !Faulty(s)
  {
  }

  lemma BufferedTakesPrefix(s: Stream, n: nat)
    requires WellFormed(s) && s.Buffered? && n >= 1
    ensures
      var (s', page) := Pull(s, n);
      var m := Min(n, |s.rows| - s.pos);
      && page == Ok(if m == 0 then None else Some(Rest(s)[..m]))
      && m == Min(n, |Rest(s)|) && Rest(s') == Rest(s)[m..] && !Faulty(s) && !Faulty(s')
  {
    var m := Min(n, |s.rows| - s.pos);
    assert s.rows[s.pos..][..m] == s.rows[s.pos..s.pos + m];
    assert s.rows[s.pos..][m..] == s.rows[s.pos + m..];
  }

  lemma RestCounts(s: Stream)
    requires s.Cursor? && WellFormed(s)
    ensures |Rest(s)| == |Held(s.first)| + FirstFault(s.ahead)
  {
  }

  lemma CursorTakesPrefix(s: Stream, n: nat, k: nat)
    requires s.Cursor? && WellFormed(s) && n >= 1 && !(s.done && s.first.None?)
    requires k == Wanted(|Held(s.first)|, |s.ahead|, n) <= FirstFault(s.ahead)
    ensures
      var (s', page) := Pull(s, n);
      var m := |Held(s.first)| + k;
      && m == Min(n, |Rest(s)|)
      && page == Ok(if m == 0 then None else Some(Rest(s)[..m]))
      && Rest(s') == Rest(s)[m..] && NextFault(s') == NextFault(s)
  {
    hide Pull, FirstFault, Wanted, Min, RowsOf, Rest, Held;
    WantedCounts(s, n, k);
    PullGathers(s, n, k);
    RestSplit(s, Pull(s, n).0, k);
    NoRows(Held(s.first) + RowsOf(s.ahead[..k]));
  }

  lemma NoRows(rows: seq<Row>)
    ensures rows == [] <==> |rows| == 0
  {
  }

  lemma WantedCounts(s: Stream, n: nat, k: nat)
    requires s.Cursor? && WellFormed(s) && n >= 1
    requires k == Wanted(|Held(s.first)|, |s.ahead|, n) <= FirstFault(s.ahead)
    ensures |Held(s.first)| + k == Min(n, |Rest(s)|)
  {
    RestCounts(s);
  }

  lemma {:induction false} FirstFaultOfRest(items: seq<CursorItem>, k: nat)
    requires k <= FirstFault(items)
    ensures FirstFault(items[k..]) == FirstFault(items) - k
  {
    var f, g := FirstFault(items), FirstFault(items[k..]);
    assert k + g < |items| ==> items[k..][g] == items[k + g];
    assert f < |items| ==> items[k..][f - k] == items[f];
  }

  /** What is left before the fault when the held row and the first `k` documents are taken. */
  lemma RestSplit(s: Stream, t: Stream, k: nat)
    requires s.Cursor? && WellFormed(s) && k <= FirstFault(s.ahead)
    requires t.Cursor? && WellFormed(t) && t.ahead == s.ahead[k..] && t.first.None?
    ensures FirstFault(t.ahead) == FirstFault(s.ahead) - k
    ensures
      var page := Held(s.first) + RowsOf(s.ahead[..k]);
      && |page| == |Held(s.first)| + k <= |Rest(s)|
      && Rest(s)[..|page|] == page && Rest(s)[|page|..] == Rest(t)
  {
    var f := FirstFault(s.ahead);
    var docs := s.ahead[..f];
    FirstFaultOfRest(s.ahead, k);
    RowsSplit(docs, k);
    SplitPrefix(s.ahead, k, f);
    hide FirstFault, RowsOf;
    AppendSlices(Held(s.first), RowsOf(s.ahead[..k]), RowsOf(t.ahead[..f - k]));
    assert Held(t.first) + RowsOf(t.ahead[..f - k]) == RowsOf(t.ahead[..f - k]);
  }

  lemma SplitPrefix(items: seq<CursorItem>, k: nat, f: nat)
    requires k <= f <= |items|
    ensures items[..f][..k] == items[..k] && items[..f][k..] == items[k..][..f - k]
  {
  }

  lemma AppendSlices(a: seq<Row>, b: seq<Row>, c: seq<Row>)
    ensures (a + (b + c))[..|a + b|] == a + b
    ensures (a + (b + c))[|a + b|..] == c
  {
  }

  lemma {:induction false} RowsSplit(items: seq<CursorItem>, k: nat)
    requires k <= |items|
    ensures RowsOf(items) == RowsOf(items[..k]) + RowsOf(items[k..])
    ensures AllDocs(items) ==> |RowsOf(items)| == |items|
  {
    if items == [] {
    } else if k == 0 {
      RowsSplit(items[1..], 0);
    } else {
      RowsSplit(items[1..], k - 1);
      assert items[..k][1..] == items[1..][..k - 1];
      assert items[1..][k - 1..] == items[k..];
    }
  }

  lemma RowsGrow(items: seq<CursorItem>, k: nat)
    requires k < |items| && items[k].Doc?
    ensures RowsOf(items[..k + 1]) == RowsOf(items[..k]) + [items[k].row]
  {
    RowsSplit(items[..k + 1], k);
    assert items[..k + 1][..k] == items[..k];
    assert items[..k + 1][k..] == [items[k]];
  }

  /** A pull fails exactly when a fault lies within the documents it has to read, and then what is
      left starts after that fault: every document read before it is lost, none after it is. */
  lemma PullFailsExactlyAtFault(ahead: seq<CursorItem>, first: Option<Row>, count: Option<nat>, n: nat)
    requires n >= 1
    ensures
      var (s', page) := Pull(Cursor(ahead, first, false, count), n);
      var f := FirstFault(ahead);
      && (page.Err? <==> f < |ahead| && |Held(first)| + f < n)
      && (page.Err? ==> page.error == ahead[f].error && s' == Cursor(ahead[f + 1..], None, false, count))
  {
    hide Pull, RowsOf;
    var s := Cursor(ahead, first, false, count);
    var want := Wanted(|Held(first)|, |ahead|, n);
    if FirstFault(ahead) < want {
      PullStopsAtFault(s, n, FirstFault(ahead));
    } else {
      PullGathers(s, n, want);
    }
  }

  lemma {:induction false} FirstFaultOfPrefix(items: seq<CursorItem>, k: nat)
    requires k <= |items|
    ensures FirstFault(items[..k]) == Min(FirstFault(items), k)
  {
    var f, g := FirstFault(items), FirstFault(items[..k]);
    assert g < k ==> items[..k][g] == items[g];
    assert f < k ==> items[..k][f] == items[f];
  }

  /** A result held in full and served in pages. */
  class BufferedStream {
    const rows: seq<Row>
    var pos: nat
    const affectedRows: Option<nat>

    ghost function View(): Stream
      reads this
    {
      Buffered(rows, pos, affectedRows)
    }

    constructor (rows: seq<Row>, affected: Option<nat>)
      ensures View() == Buffered(rows, 0, affected)
    {
      this.rows, this.pos, this.affectedRows := rows, 0, affected;
    }

    method NextPage(n: nat) returns (page: Result<Option<seq<Row>>>)
      requires WellFormed(View())
      modifies this
      ensures (View(), page) == Pull(old(View()), n)
    {
      if pos >= |rows| {
        return Ok(None);
      }
      var end := if pos + n < |rows| then pos + n else |rows|;
      page := Ok(Some(rows[pos..end]));
      pos := end;
    }
  }

  /** What opening a cursor gives: its first document is read and held back. */
  function Opened(cursor: seq<CursorItem>, count: Option<nat>): (r: Result<Stream>)
    ensures r.Ok? ==> WellFormed(r.value)
  {
    if cursor == [] then Ok(Cursor([], None, false, count))
    else match cursor[0]
      case Fault(e) => Err(e)
      case Doc(row) => Ok(Cursor(cursor[1..], Some(row), false, count))
  }

  /** A live cursor: the first document is read at open and handed out first. */
  class MongoCursorStream {
    var cursor: seq<CursorItem>
    var first: Option<Row>
    var done: bool
    const total: Option<nat>

    ghost function View(): Stream
      reads this
    {
      Cursor(cursor, first, done, total)
    }

    constructor (cursor: seq<CursorItem>, first: Option<Row>, total: Option<nat>)
      ensures View() == Cursor(cursor, first, false, total)
    {
      this.cursor, this.first, this.done, this.total := cursor, first, false, total;
    }

    /** Opening reads one document. It fails when that read does, and otherwise leaves every row of
        the cursor up to its first fault, in order, still to be served. */
    static method Open(cursor: seq<CursorItem>, total: Option<nat>) returns (r: Result<MongoCursorStream>)
      ensures r.Err? <==> cursor != [] && cursor[0].Fault?
      ensures r.Err? ==> r.error == cursor[0].error
      ensures r.Ok? ==> fresh(r.value) && WellFormed(r.value.View()) && Opened(cursor, total) == Ok(r.value.View())
      ensures r.Ok? ==> Rest(r.value.View()) == RowsOf(cursor[..FirstFault(cursor)])
      ensures r.Ok? ==> (Faulty(r.value.View()) <==> FirstFault(cursor) < |cursor|)
    {
      if cursor == [] {
        var s := new MongoCursorStream([], None, total);
        return Ok(s);
      }
      match cursor[0]
      case Fault(e) => return Err(e);
      case Doc(row) =>
        var s := new MongoCursorStream(cursor[1..], Some(row), total);
        ghost var f := FirstFault(cursor[1..]);
        assert cursor[..f + 1] == [cursor[0]] + cursor[1..][..f];
        return Ok(s);
    }

    /** The driver's own `cursor.next()`. */
    method Next() returns (item: Option<CursorItem>)
      modifies this`cursor
      ensures old(cursor) == [] ==> item == None && cursor == []
      ensures old(cursor) != [] ==> item == Some(old(cursor)[0]) && cursor == old(cursor)[1..]
    {
      if cursor == [] {
        return None;
      }
      item := Some(cursor[0]);
      cursor := cursor[1..];
    }

    method NextPage(n: nat) returns (page: Result<Option<seq<Row>>>)
      requires WellFormed(View())
      modifies this
      ensures (View(), page) == Pull(old(View()), n)
    {
      hide Pull, Gathered, FirstFault, RowsOf, WellFormed;
      ghost var was := View();
      if done && first.None? {
        SpentGivesNothing(was, n);
        return Ok(None);
      }
      GatherStarts(was, n);
      var rows: seq<Row> := [];
      if first.Some? {
        rows := [first.value];
        first := None;
      }
      ghost var k := 0;
      while |rows| < n && !done
        invariant first.None? && Gathered(was, n, k, View(), rows)
        decreases |cursor|, !done
      {
        GatherStep(was, n, k, View(), rows);
        var item := Next();
        match item {
          case None => done := true;
          case Some(Fault(e)) => return Err(e);
          case Some(Doc(row)) => rows, k := rows + [row], k + 1;
        }
      }
      GatherEnds(was, n, k, View(), rows);
      page := Ok(if rows == [] then None else Some(rows));
    }
  }

  /** Half-way through a pull of `n` from `was`: `k` documents read, `rows` collected, `now` left. */
  ghost predicate Gathered(was: Stream, n: nat, k: nat, now: Stream, rows: seq<Row>) {
    && WellFormed(was) && was.Cursor? && !(was.done && was.first.None?)
    && now.Cursor? && now.first.None? && now.count == was.count
    && k <= FirstFault(was.ahead) && now.ahead == was.ahead[k..]
    && k <= Wanted(|Held(was.first)|, |was.ahead|, n)
    && rows == Held(was.first) + RowsOf(was.ahead[..k]) && |rows| == |Held(was.first)| + k
    && (now.done ==> now.ahead == [] && (was.done || |rows| < n)) && (was.done ==> now.done)
  }

  lemma GatherStarts(was: Stream, n: nat)
    requires WellFormed(was) && was.Cursor? && !(was.done && was.first.None?)
    ensures Gathered(was, n, 0, was.(first := None), Held(was.first))
  {
  }

  lemma GatherStep(was: Stream, n: nat, k: nat, now: Stream, rows: seq<Row>)
    requires Gathered(was, n, k, now, rows) && |rows| < n && !now.done
    ensures now.ahead == [] ==> Gathered(was, n, k, now.(done := true), rows)
    ensures now.ahead != [] && now.ahead[0].Doc? ==>
              Gathered(was, n, k + 1, now.(ahead := now.ahead[1..]), rows + [now.ahead[0].row])
    ensures now.ahead != [] && now.ahead[0].Fault? ==>
              (now.(ahead := now.ahead[1..]), Err(now.ahead[0].error)) == Pull(was, n)
  {
    if now.ahead != [] {
      ReadOne(was.ahead, k);
      if now.ahead[0].Fault? {
        PullStopsAtFault(was, n, k);
      }
    }
  }

  lemma GatherEnds(was: Stream, n: nat, k: nat, now: Stream, rows: seq<Row>)
    requires Gathered(was, n, k, now, rows) && (|rows| >= n || now.done)
    ensures (now, Ok(if rows == [] then None else Some(rows))) == Pull(was, n)
  {
    PullGathers(was, n, k);
  }

  lemma ReadOne(items: seq<CursorItem>, k: nat)
    requires k < |items| && k <= FirstFault(items)
    ensures items[k..][0] == items[k] && items[k..][1..] == items[k + 1..]
    ensures items[k].Fault? ==> FirstFault(items) == k
    ensures items[k].Doc? ==>
              k + 1 <= FirstFault(items) && RowsOf(items[..k + 1]) == RowsOf(items[..k]) + [items[k].row]
  {
    if items[k].Doc? {
      RowsGrow(items, k);
    }
  }

  lemma PullStopsAtFault(s: Stream, n: nat, k: nat)
    requires WellFormed(s) && s.Cursor? && !s.done
    requires k == FirstFault(s.ahead) < Wanted(|Held(s.first)|, |s.ahead|, n)
    ensures Pull(s, n) == (Cursor(s.ahead[k + 1..], None, false, s.count), Err(s.ahead[k].error))
  {
    FirstFaultOfPrefix(s.ahead, Wanted(|Held(s.first)|, |s.ahead|, n));
  }

  lemma PullGathers(s: Stream, n: nat, k: nat)
    requires WellFormed(s) && s.Cursor? && !(s.done && s.first.None?)
    requires k == Wanted(|Held(s.first)|, |s.ahead|, n) <= FirstFault(s.ahead)
    ensures
      var rows := Held(s.first) + RowsOf(s.ahead[..k]);
      && |rows| == |Held(s.first)| + k
      && Pull(s, n) == (Cursor(s.ahead[k..], None, s.done || |rows| < n, s.count),
                        Ok(if rows == [] then None else Some(rows)))
  {
    FirstFaultOfPrefix(s.ahead, k);
  }
}
