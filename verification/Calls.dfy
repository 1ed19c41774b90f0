/** One executed statement's server-side state (`Call` in `server.rs`) and the critical sections that
    run under its lock: the pager, the cancel section and the two sections of the worker. Each section
    is a function on the call's abstract value; class `Call` runs it on the fields, and the call engine
    uses the same functions as its atomic steps. */
module Calls {
  import opened Wrappers
  import opened Streams

  datatype Status = Running | Done | Failed | Cancelled

  datatype CallState = CallState(
    status: Status,
    stream: Option<Stream>,
    buffer: seq<Row>,
    exhausted: bool,
    affected: Option<nat>,
    error: Option<string>,
    cancel: bool)

  const NEW_CALL := CallState(Running, None, [], false, None, None, false)

  /** A done call has its stream; the rest is the streams' own consistency. */
  ghost predicate Consistent(c: CallState) {
    && (c.status == Done ==> c.stream.Some?)
    && (c.stream.Some? ==> WellFormed(c.stream.value))
  }

  // ── the pager ──────────────────────────────────────────────────────────────

  datatype PageReply =
    | NotReady
    | Page(rows: seq<Row>, from: nat, hasMore: bool, total: Option<nat>, affected: Option<nat>)

  /** Pull into the buffer until it holds `need` rows, the stream ends, or a pull fails. */
  function Fill(c: CallState, need: nat): (r: (CallState, Option<string>))
    requires Consistent(c)
    ensures Consistent(r.0)
    ensures r.0 == c.(stream := r.0.stream, buffer := r.0.buffer, exhausted := r.0.exhausted)
    ensures c.buffer <= r.0.buffer && (c.exhausted || |c.buffer| >= need ==> r.0 == c)
    decreases need - |c.buffer|
  {
    if c.exhausted || |c.buffer| >= need || c.stream.None? then (c, None)
    else
      var (s, pulled) := Pull(c.stream.value, need - |c.buffer|);
      var c' := c.(stream := Some(s));
      match pulled
      case Err(e) => (c', Some(e))
      case Ok(None) => (c'.(exhausted := true), None)
      case Ok(Some(rows)) => Fill(c'.(buffer := c.buffer + rows), need)
  }

  function ReadPage(c: CallState, from: nat, n: nat): (r: (CallState, Result<PageReply>))
    requires Consistent(c)
    ensures Consistent(r.0) && r.0.status == c.status && r.0.cancel == c.cancel
    ensures r.0.error == c.error && r.0.affected == c.affected
    ensures c.status != Done ==> r.0 == c
  {
    match c.status
    case Running => (c, Ok(NotReady))
    case Failed => (c, Err(if c.error.Some? then c.error.value else "query failed"))
    case Cancelled => (c, Err("query was cancelled"))
    case Done =>
      var need := from + n;
      var (c', failure) := Fill(c, need);
      if failure.Some? then (c', Err(failure.value))
      else
        var known := if c'.stream.Some? then Total(c'.stream.value) else None;
        var total := if known.Some? then known else if c'.exhausted then Some(|c'.buffer|) else None;
        var start, end := Min(from, |c'.buffer|), Min(need, |c'.buffer|);
        (c', Ok(Page(c'.buffer[start..end], start, !c'.exhausted || end < |c'.buffer|, total, c'.affected)))
  }

  /** A finished call. `exhausted` is set only when nothing is left, not even a fault. */
  ghost predicate Pageable(c: CallState) {
    && Consistent(c) && c.status == Done
    && (c.exhausted ==> Rest(c.stream.value) == [] && !Faulty(c.stream.value))
  }

  /** The whole result: what has been buffered and what the stream still holds. When a read error lies
      ahead, it is the result up to that. */
  ghost function Full(c: CallState): seq<Row>
    requires Pageable(c)
  {
    c.buffer + Rest(c.stream.value)
  }

  /** Whether `k` rows can be had without running into a read error. */
  ghost predicate Reaches(c: CallState, k: nat)
    requires Pageable(c)
  {
    !Faulty(c.stream.value) || k <= |Full(c)|
  }

  function Max(a: int, b: int): int {
    if a < b then b else a
  }

  /** One pull moves the next rows from what is left to the end of the buffer. */
  lemma PullMovesRows(c: CallState, want: nat)
    requires Pageable(c) && want >= 1
    ensures
      var (s, pulled) := Pull(c.stream.value, want);
      var c' := c.(stream := Some(s));
      var m := Min(want, |Rest(c.stream.value)|);
      && Total(s) == Total(c.stream.value)
      && (pulled.Err? <==> Faulty(c.stream.value) && want > |Rest(c.stream.value)|)
      && (pulled.Err? ==> pulled.error == NextFault(c.stream.value).value)
      && (pulled.Ok? ==> NextFault(s) == NextFault(c.stream.value))
      && (pulled == Ok(None) ==>
            m == 0 && Pageable(c'.(exhausted := true)) && Full(c'.(exhausted := true)) == Full(c))
      && (pulled.Ok? && pulled.value.Some? ==>
            var c'' := c'.(buffer := c.buffer + pulled.value.value);
            |pulled.value.value| == m > 0 && (!c.exhausted ==> Pageable(c'') && Full(c'') == Full(c)))
  {
    hide Pull, Rest, NextFault;
    PullTakesPrefix(c.stream.value, want);
    var rest := Rest(c.stream.value);
    Regroup(c.buffer, rest, Min(want, |rest|));
  }

  lemma Regroup(a: seq<Row>, b: seq<Row>, k: nat)
    requires k <= |b|
    ensures (a + b[..k]) + b[k..] == a + b
    ensures k == 0 ==> b[k..] == b
  {
  }

  lemma FillOnce(c: CallState, need: nat)
    requires Consistent(c) && !c.exhausted && |c.buffer| < need && c.stream.Some?
    ensures
      var (s, pulled) := Pull(c.stream.value, need - |c.buffer|);
      var c' := c.(stream := Some(s));
      && Consistent(c')
      && (pulled.Err? ==> Fill(c, need) == (c', Some(pulled.error)))
      && (pulled == Ok(None) ==> Fill(c, need) == (c'.(exhausted := true), None)
                                 && Fill(c'.(exhausted := true), need) == (c'.(exhausted := true), None))
      && (pulled.Ok? && pulled.value.Some? ==>
            |pulled.value.value| >= 1 && Fill(c, need) == Fill(c'.(buffer := c.buffer + pulled.value.value), need))
  {
    hide Pull;
  }

  lemma FillStops(c: CallState, need: nat)
    requires Consistent(c) && (c.exhausted || |c.buffer| >= need || c.stream.None?)
    ensures Fill(c, need) == (c, None)
  {
  }

  /** What a fill that needs `need` rows promises. */
  ghost predicate Filled(c: CallState, need: nat, c': CallState)
    requires Pageable(c)
  {
    && Pageable(c') && Full(c') == Full(c) && NextFault(c'.stream.value) == NextFault(c.stream.value)
    && |c'.buffer| == Max(|c.buffer|, Min(need, |Full(c)|))
    && (!c'.exhausted ==> |c'.buffer| >= need)
    && Total(c'.stream.value) == Total(c.stream.value)
  }

  lemma FilledAlready(c: CallState, need: nat)
    requires Pageable(c) && (c.exhausted || |c.buffer| >= need)
    ensures Reaches(c, need) && Filled(c, need, c)
  {
    hide Rest, NextFault, Total, Consistent;
  }

  /** The stream is at its end. */
  lemma FilledAtEnd(c: CallState, need: nat, c': CallState)
    requires Pageable(c) && Pageable(c') && c'.exhausted && c'.buffer == c.buffer && Full(c') == Full(c)
    requires Total(c'.stream.value) == Total(c.stream.value) && !Faulty(c.stream.value)
    ensures Reaches(c, need) && Filled(c, need, c')
  {
    hide Rest, NextFault, Total, Consistent;
  }

  /** Filling on after a pull is filling. */
  lemma FilledOn(c: CallState, need: nat, d: CallState, c': CallState)
    requires Pageable(c) && Pageable(d) && Full(d) == Full(c) && Total(d.stream.value) == Total(c.stream.value)
    requires NextFault(d.stream.value) == NextFault(c.stream.value)
    requires |c.buffer| <= |d.buffer| <= need
    ensures Reaches(d, need) <==> Reaches(c, need)
    ensures Filled(d, need, c') ==> Filled(c, need, c')
  {
    hide Rest, NextFault, Total, Consistent;
  }

  lemma PullBeyond(c: CallState, need: nat)
    requires Pageable(c) && !c.exhausted && |c.buffer| < need
    ensures Reaches(c, need) <==> Pull(c.stream.value, need - |c.buffer|).1.Ok?
  {
    hide Rest, NextFault, Total, Pull;
    PullMovesRows(c, need - |c.buffer|);
  }

  /** Filling fails exactly when it needs rows beyond a fault, and the buffer is then unchanged.
      Otherwise it loses no row, repeats none, and reads no further than it must. */
  lemma {:induction false} FillKeepsResult(c: CallState, need: nat)
    requires Pageable(c)
    ensures
      var (c', failure) := Fill(c, need);
      && (failure.None? <==> Reaches(c, need))
      && (failure.None? ==> Filled(c, need, c'))
      && (failure.Some? ==> c'.buffer == c.buffer && failure == NextFault(c.stream.value))
    decreases need - |c.buffer|
  {
    hide Fill, Pull, Rest, NextFault, Total, WellFormed, Filled, Reaches, Full;
    if c.exhausted || |c.buffer| >= need {
      FillStops(c, need);
      FilledAlready(c, need);
    } else {
      FillOnce(c, need);
      PullMovesRows(c, need - |c.buffer|);
      PullBeyond(c, need);
      var (s, pulled) := Pull(c.stream.value, need - |c.buffer|);
      if pulled == Ok(None) {
        FilledAtEnd(c, need, Fill(c, need).0);
      } else if pulled.Ok? {
        var d := c.(stream := Some(s), buffer := c.buffer + pulled.value.value);
        FillKeepsResult(d, need);
        FilledOn(c, need, d, Fill(d, need).0);
      }
    }
  }

  /** The page a successful fill leads to, in terms of the buffer `b` it left. */
  lemma PageOfFilled(c: CallState, from: nat, n: nat)
    requires Consistent(c) && c.status == Done && Fill(c, from + n).1.None?
    ensures
      var (c', reply) := ReadPage(c, from, n);
      var b := c'.buffer;
      && c' == Fill(c, from + n).0 && reply.Ok? && reply.value.Page?
      && reply.value.rows == b[Min(from, |b|)..Min(from + n, |b|)]
      && reply.value.from == Min(from, |b|)
      && reply.value.hasMore == (!c'.exhausted || from + n < |b|)
      && reply.value.affected == c.affected
      && reply.value.total == (var known := Total(c'.stream.value);
                               if known.Some? then known else if c'.exhausted then Some(|b|) else None)
  {
  }

  /** What is answered when rows `from` to `from + n` are cut out of the whole result. */
  ghost predicate Sliced(full: seq<Row>, from: nat, n: nat, reply: Result<PageReply>) {
    var L := |full|;
    && reply.Ok? && reply.value.Page?
    && reply.value.rows == full[Min(from, L)..Min(from + n, L)] && reply.value.from == Min(from, L)
    && (!reply.value.hasMore ==> from + n >= L)
    && (reply.value.hasMore ==> |reply.value.rows| == n)
  }

  /** The total a page reports: the one the stream knows, or else the number of rows, as soon as no more are
      to come. A buffered stream knows it unless it is a pure write's; a cursor knows what it was told. */
  ghost predicate RightTotal(c: CallState, page: PageReply)
    requires Pageable(c) && page.Page?
  {
    var known := match c.stream.value
      case Buffered(rows, _, affected) => if rows != [] || affected.None? then Some(|rows|) else None
      case Cursor(_, _, _, count) => count;
    && (known.Some? ==> page.total == known)
    && (known.None? ==> page.total in {None, Some(|Full(c)|)} && (!page.hasMore ==> page.total.Some?))
  }

  /** A page of a finished call either fails, exactly when it asks for rows beyond a read error, or it
      is the requested slice of the whole result, whatever was asked before. The whole result is then
      the same afterwards, a read error is still ahead if it was, and the buffer is a prefix of the
      result, only as long as the furthest row asked for. */
  lemma PageIsSlice(c: CallState, from: nat, n: nat)
    requires Pageable(c)
    ensures
      var (c', reply) := ReadPage(c, from, n);
      && (reply.Ok? <==> Reaches(c, from + n))
      && (reply.Err? ==> c'.buffer == c.buffer && Some(reply.error) == NextFault(c.stream.value))
      && (reply.Ok? ==>
            && Sliced(Full(c), from, n, reply)
            && Pageable(c') && Full(c') == Full(c) && NextFault(c'.stream.value) == NextFault(c.stream.value)
            && c.buffer <= c'.buffer <= Full(c) && |c'.buffer| <= Max(|c.buffer|, from + n)
            && reply.value.affected == c.affected && RightTotal(c, reply.value))
  {
    hide Fill, ReadPage, Rest, NextFault, WellFormed;
    FillKeepsResult(c, from + n);
    FailedFill(c, from, n);
    if Fill(c, from + n).1.None? {
      PageOfFilled(c, from, n);
      var c' := Fill(c, from + n).0;
      SliceOfPrefix(c'.buffer, Rest(c'.stream.value), from, from + n);
      assert c'.exhausted ==> |c'.buffer| == |Full(c)|;
    }
  }

  /** A page request leaves a finished call pageable, also when it fails. */
  lemma PageKeepsPageable(c: CallState, from: nat, n: nat)
    requires Pageable(c)
    ensures Pageable(ReadPage(c, from, n).0)
  {
    hide Fill, ReadPage, Rest, NextFault, WellFormed;
    FillKeepsResult(c, from + n);
    FailedFill(c, from, n);
    if Fill(c, from + n).1.None? {
      PageOfFilled(c, from, n);
    } else {
      FailedNotExhausted(c, from + n);
    }
  }

  lemma {:induction false} FailedNotExhausted(c: CallState, need: nat)
    requires Consistent(c) && Fill(c, need).1.Some?
    ensures !Fill(c, need).0.exhausted
    decreases need - |c.buffer|
  {
    hide Pull;
    var (s, pulled) := Pull(c.stream.value, need - |c.buffer|);
    if pulled.Ok? && pulled.value.Some? {
      FailedNotExhausted(c.(stream := Some(s), buffer := c.buffer + pulled.value.value), need);
    }
  }

  lemma FailedFill(c: CallState, from: nat, n: nat)
    requires Consistent(c) && c.status == Done
    ensures ReadPage(c, from, n).1.Err? <==> Fill(c, from + n).1.Some?
    ensures Fill(c, from + n).1.Some? ==>
              ReadPage(c, from, n) == (Fill(c, from + n).0, Err(Fill(c, from + n).1.value))
  {
    hide Fill;
  }

  lemma SliceOfPrefix(b: seq<Row>, r: seq<Row>, i: nat, j: nat)
    requires i <= j && (r == [] || j <= |b|)
    ensures
      var L := |b + r|;
      (b + r)[Min(i, L)..Min(j, L)] == b[Min(i, |b|)..Min(j, |b|)]
  {
  }

  /** The replies to a history of page requests `(from, n)`, in order. */
  function Serve(c: CallState, requests: seq<(nat, nat)>): (r: seq<Result<PageReply>>)
    requires Consistent(c)
    ensures |r| == |requests|
    decreases |requests|
  {
    if requests == [] then []
    else
      var (c', reply) := ReadPage(c, requests[0].0, requests[0].1);
      [reply] + Serve(c', requests[1..])
  }

  ghost predicate AllSliced(full: seq<Row>, requests: seq<(nat, nat)>, replies: seq<Result<PageReply>>) {
    && |replies| == |requests|
    && forall i :: 0 <= i < |requests| ==> Sliced(full, requests[i].0, requests[i].1, replies[i])
  }

  ghost predicate AllReached(c: CallState, requests: seq<(nat, nat)>)
    requires Pageable(c)
  {
    forall i :: 0 <= i < |requests| ==> Reaches(c, requests[i].0 + requests[i].1)
  }

  /** Every history of requests, forwards and backwards, is answered as if each page were cut out of
      the whole result, exactly when no request asks for rows beyond a read error. */
  lemma {:induction false} HistoryIsSlicing(c: CallState, requests: seq<(nat, nat)>)
    requires Pageable(c)
    ensures AllSliced(Full(c), requests, Serve(c, requests)) <==> AllReached(c, requests)
    decreases |requests|
  {
    if requests != [] {
      var (from, n) := requests[0];
      var (c', reply) := ReadPage(c, from, n);
      var later := Serve(c', requests[1..]);
      assert Serve(c, requests) == [reply] + later;
      assert requests == [requests[0]] + requests[1..];
      hide ReadPage, Serve, Sliced, AllSliced, AllReached;
      PageIsSlice(c, from, n);
      SlicedFirst(Full(c), requests[0], requests[1..], reply, later);
      ReachedFirst(c, requests[0], requests[1..]);
      if reply.Ok? {
        HistoryIsSlicing(c', requests[1..]);
        SameReach(c, c', requests[1..]);
      }
    }
  }

  lemma SlicedFirst(full: seq<Row>, r: (nat, nat), rs: seq<(nat, nat)>, p: Result<PageReply>,
                    ps: seq<Result<PageReply>>)
    ensures AllSliced(full, [r] + rs, [p] + ps) <==> Sliced(full, r.0, r.1, p) && AllSliced(full, rs, ps)
    ensures Sliced(full, r.0, r.1, p) ==> p.Ok?
  {
    assert Sliced(full, r.0, r.1, p) ==> p.Ok?;
    hide Sliced;
    if AllSliced(full, [r] + rs, [p] + ps) {
      assert ([r] + rs)[0] == r && ([p] + ps)[0] == p;
      assert forall i :: 0 <= i < |rs| ==> ([r] + rs)[i + 1] == rs[i] && ([p] + ps)[i + 1] == ps[i];
    }
  }

  lemma ReachedFirst(c: CallState, r: (nat, nat), rs: seq<(nat, nat)>)
    requires Pageable(c)
    ensures AllReached(c, [r] + rs) <==> Reaches(c, r.0 + r.1) && AllReached(c, rs)
  {
    hide Reaches, Pageable;
    if AllReached(c, [r] + rs) {
      assert ([r] + rs)[0] == r;
      assert forall i :: 0 <= i < |rs| ==> ([r] + rs)[i + 1] == rs[i];
    }
  }

  lemma SameReach(c: CallState, c': CallState, requests: seq<(nat, nat)>)
    requires Pageable(c) && Pageable(c') && Full(c') == Full(c)
    requires NextFault(c'.stream.value) == NextFault(c.stream.value)
    ensures AllReached(c', requests) <==> AllReached(c, requests)
  {
    hide Full, Pageable, NextFault;
  }

  /** Up to the first such request the pages are slices in any case. */
  lemma {:induction false} ServedSoFar(c: CallState, requests: seq<(nat, nat)>, k: nat)
    requires Pageable(c) && k <= |requests|
    ensures AllSliced(Full(c), requests[..k], Serve(c, requests)[..k]) <==> AllReached(c, requests[..k])
  {
    ServePrefix(c, requests, k);
    HistoryIsSlicing(c, requests[..k]);
  }

  lemma {:induction false} ServePrefix(c: CallState, requests: seq<(nat, nat)>, k: nat)
    requires Consistent(c) && k <= |requests|
    ensures Serve(c, requests[..k]) == Serve(c, requests)[..k]
    decreases k
  {
    hide ReadPage;
    if k > 0 {
      var c' := ReadPage(c, requests[0].0, requests[0].1).0;
      ServePrefix(c', requests[1..], k - 1);
      assert requests[..k][1..] == requests[1..][..k - 1];
    }
  }

  /** What a client gets by asking for `n` rows at a time until `has_more` is false. */
  ghost function Forward(c: CallState, from: nat, n: nat): seq<seq<Row>>
    requires Pageable(c) && !Faulty(c.stream.value) && n >= 1 && from <= |Full(c)|
    decreases |Full(c)| - from
  {
    PageIsSlice(c, from, n);
    var (c', reply) := ReadPage(c, from, n);
    if reply.value.hasMore then [reply.value.rows] + Forward(c', from + n, n) else [reply.value.rows]
  }

  ghost function Concat(pages: seq<seq<Row>>): seq<Row> {
    if pages == [] then [] else pages[0] + Concat(pages[1..])
  }

  /** The first page, and what is asked for after it. */
  lemma ForwardStep(c: CallState, from: nat, n: nat) returns (more: bool, c': CallState)
    requires Pageable(c) && !Faulty(c.stream.value) && n >= 1 && from <= |Full(c)|
    ensures Pageable(c') && Full(c') == Full(c) && !Faulty(c'.stream.value)
    ensures if more then from + n <= |Full(c)| &&
                    Forward(c, from, n) == [Full(c)[from..from + n]] + Forward(c', from + n, n)
            else Forward(c, from, n) == [Full(c)[from..]]
  {
    assert Consistent(c);
    hide ReadPage, Full, Rest, NextFault, Pageable, WellFormed, RightTotal;
    PageIsSlice(c, from, n);
    c', more := ReadPage(c, from, n).0, ReadPage(c, from, n).1.value.hasMore;
    ForwardPage(Full(c), from, n, ReadPage(c, from, n).1);
    hide Sliced;
  }

  lemma ForwardPage(full: seq<Row>, from: nat, n: nat, reply: Result<PageReply>)
    requires Sliced(full, from, n, reply) && n >= 1 && from <= |full|
    ensures if reply.value.hasMore then from + n <= |full| && reply.value.rows == full[from..from + n]
            else reply.value.rows == full[from..]
  {
  }

  lemma {:induction false} ForwardConcat(c: CallState, from: nat, n: nat)
    requires Pageable(c) && !Faulty(c.stream.value) && n >= 1 && from <= |Full(c)|
    ensures Concat(Forward(c, from, n)) == Full(c)[from..]
    decreases |Full(c)| - from
  {
    hide Pageable, Full, Forward, NextFault;
    var more, c' := ForwardStep(c, from, n);
    if more {
      ForwardConcat(c', from + n, n);
      assert ([Full(c)[from..from + n]] + Forward(c', from + n, n))[1..] == Forward(c', from + n, n);
      assert Full(c)[from..] == Full(c)[from..from + n] + Full(c)[from + n..];
    } else {
      assert Concat([Full(c)[from..]]) == Full(c)[from..] + Concat([]);
    }
  }

  lemma {:induction false} ForwardCount(c: CallState, from: nat, n: nat)
    requires Pageable(c) && !Faulty(c.stream.value) && n >= 1 && from <= |Full(c)|
    ensures (|Forward(c, from, n)| - 1) * n <= |Full(c)| - from
    decreases |Full(c)| - from
  {
    hide Pageable, Full, Forward, NextFault;
    var more, c' := ForwardStep(c, from, n);
    if more {
      ForwardCount(c', from + n, n);
      OneMorePage(|Forward(c', from + n, n)|, n, |Full(c)| - from);
    } else {
      assert (|Forward(c, from, n)| - 1) * n == 0;
    }
  }

  /** Without a read error ahead paging forward ends, after at most `L / n + 1` requests, and has then
      seen every row once. */
  lemma ForwardReadsAll(c: CallState, from: nat, n: nat)
    requires Pageable(c) && !Faulty(c.stream.value) && n >= 1 && from <= |Full(c)|
    ensures Concat(Forward(c, from, n)) == Full(c)[from..]
    ensures (|Forward(c, from, n)| - 1) * n <= |Full(c)| - from
  {
    hide *;
    ForwardConcat(c, from, n);
    ForwardCount(c, from, n);
  }

  lemma OneMorePage(pages: nat, n: nat, rows: int)
    requires (pages - 1) * n <= rows - n
    ensures (pages + 1 - 1) * n <= rows
  {
  }

  /** A buffered call always reports the true row count, except for a pure write (no rows, an
      affected count) asked for zero rows from zero before anything was read. */
  lemma BufferedTotal(c: CallState, from: nat, n: nat)
    requires Pageable(c) && c.stream.value.Buffered? && c.buffer == c.stream.value.rows[..c.stream.value.pos]
    ensures
      var reply := ReadPage(c, from, n).1;
      var s := c.stream.value;
      && reply.Ok? && reply.value.Page?
      && reply.value.total == (if s.rows == [] && s.affected.Some? && from + n == 0 && !c.exhausted then None
                   else Some(|Full(c)|))
  {
    var s := c.stream.value;
    assert Full(c) == s.rows && !Faulty(s);
    var known := Total(s);
    assert known == if s.rows == [] && s.affected.Some? then None else Some(|Full(c)|);
    hide Fill, ReadPage, Rest, NextFault, WellFormed, Total, Full;
    FillKeepsResult(c, from + n);
    PageOfFilled(c, from, n);
    FilledCounts(c, from + n, Fill(c, from + n).0);
  }

  /** How a fill ends, and what it has then. */
  lemma FilledCounts(c: CallState, need: nat, c': CallState)
    requires Pageable(c) && Filled(c, need, c') && (c.exhausted || |c.buffer| >= need ==> c' == c)
    ensures c'.stream.Some? && Total(c'.stream.value) == Total(c.stream.value)
    ensures |Full(c)| == 0 ==> |c'.buffer| == 0 && (c'.exhausted <==> c.exhausted || need > 0)
  {
    hide Rest, NextFault, WellFormed, Total;
  }

  /** What a buffered call has in its buffer is what its stream has handed over. */
  ghost predicate BufferedSoFar(c: CallState) {
    Pageable(c) && c.stream.value.Buffered? && c.buffer == c.stream.value.rows[..c.stream.value.pos]
  }

  lemma {:induction false} FillKeepsBuffered(c: CallState, need: nat)
    requires BufferedSoFar(c)
    ensures BufferedSoFar(Fill(c, need).0) && Fill(c, need).0.stream.value.rows == c.stream.value.rows
    ensures Fill(c, need).0.stream.value.affected == c.stream.value.affected
    decreases need - |c.buffer|
  {
    if !c.exhausted && |c.buffer| < need {
      PullMovesRows(c, need - |c.buffer|);
      var (s, pulled) := Pull(c.stream.value, need - |c.buffer|);
      if pulled.value.Some? {
        FillKeepsBuffered(c.(stream := Some(s), buffer := c.buffer + pulled.value.value), need);
      }
    }
  }

  /** So in every history of requests every total reported for a buffered result is the number of its
      rows; only a pure write, asked for no rows at all, may be reported without a total. */
  lemma {:induction false} TotalsInEveryHistory(c: CallState, requests: seq<(nat, nat)>, k: nat)
    requires BufferedSoFar(c) && k < |requests|
    ensures
      var s, reply := c.stream.value, Serve(c, requests)[k];
      && reply.Ok? && reply.value.Page?
      && (reply.value.total == Some(|s.rows|)
          || (reply.value.total == None && s.rows == [] && s.affected.Some? && requests[k].0 + requests[k].1 == 0))
    decreases k
  {
    hide ReadPage, Rest, WellFormed, Fill, Total;
    var (from, n) := requests[0];
    BufferedPage(c, from, n);
    if k > 0 {
      TotalsInEveryHistory(ReadPage(c, from, n).0, requests[1..], k - 1);
    }
  }

  lemma BufferedPage(c: CallState, from: nat, n: nat)
    requires BufferedSoFar(c)
    ensures
      var (c', reply) := ReadPage(c, from, n);
      var s := c.stream.value;
      && BufferedSoFar(c') && c'.stream.value.rows == s.rows && c'.stream.value.affected == s.affected
      && reply.Ok? && reply.value.Page?
      && (reply.value.total == Some(|s.rows|)
          || (reply.value.total == None && s.rows == [] && s.affected.Some? && from + n == 0))
  {
    hide Fill, ReadPage, WellFormed;
    BufferedTotal(c, from, n);
    FillKeepsBuffered(c, from + n);
    FillKeepsResult(c, from + n);
    PageOfFilled(c, from, n);
    assert |Full(c)| == |c.stream.value.rows| by { BufferedRows(c); }
    hide Full;
  }

  lemma BufferedRows(c: CallState)
    requires BufferedSoFar(c)
    ensures Full(c) == c.stream.value.rows
  {
  }

  /** With faults ahead, a page fails exactly when the rows it must pull run into one. The buffer
      is then unchanged, and the rows read before the fault in that pull are gone. */
  lemma PageFailsExactlyAtFault(c: CallState, from: nat, n: nat)
    requires Consistent(c) && c.status == Done && c.stream.value.Cursor? && !c.stream.value.done
    ensures
      var (c', reply) := ReadPage(c, from, n);
      var s := c.stream.value;
      var f := FirstFault(s.ahead);
      && (reply.Err? <==> !c.exhausted && |c.buffer| < from + n
                          && f < |s.ahead| && |Held(s.first)| + f < from + n - |c.buffer|)
      && (reply.Err? ==> reply.error == s.ahead[f].error
                         && c' == c.(stream := Some(Cursor(s.ahead[f + 1..], None, false, s.count))))
  {
    hide Pull, FirstFault, WellFormed;
    var s, want := c.stream.value, from + n - |c.buffer|;
    if !c.exhausted && want >= 1 {
      PullFailsExactlyAtFault(s.ahead, s.first, s.count, want);
      if Pull(s, want).1.Ok? {
        FillAfterPull(c, from + n);
      }
    }
  }

  /** When the first pull of a fill succeeds, the fill does: a second pull only finds the end. */
  lemma FillAfterPull(c: CallState, need: nat)
    requires Consistent(c) && c.stream.Some? && c.stream.value.Cursor? && !c.stream.value.done
    requires !c.exhausted && |c.buffer| < need && Pull(c.stream.value, need - |c.buffer|).1.Ok?
    ensures Fill(c, need).1.None?
  {
    var s, want := c.stream.value, need - |c.buffer|;
    var (s', pulled) := Pull(s, want);
    if pulled.value.Some? {
      ShortPullEnds(s, want);
      var c'' := c.(stream := Some(s'), buffer := c.buffer + pulled.value.value);
      assert Fill(c, need) == Fill(c'', need);
      if |c''.buffer| < need {
        assert Pull(s', need - |c''.buffer|) == (s', Ok(None));
      }
    }
  }

  lemma ShortPullEnds(s: Stream, n: nat)
    requires WellFormed(s) && s.Cursor? && !s.done && n >= 1
    requires Pull(s, n).1.Ok? && Pull(s, n).1.value.Some?
    ensures |Pull(s, n).1.value.value| < n ==> Pull(s, n).0.done && Pull(s, n).0.first.None?
  {
    FirstFaultOfPrefix(s.ahead, Wanted(|Held(s.first)|, |s.ahead|, n));
    PullGathers(s, n, Wanted(|Held(s.first)|, |s.ahead|, n));
  }

  // ── the other critical sections ────────────────────────────────────────────

  /** What running the statement gave: a fresh stream, or the driver's error. */
  type Outcome = Result<Stream>

  ghost predicate FreshOutcome(o: Outcome) {
    o.Ok? ==> WellFormed(o.value)
  }

  /** `query.cancel` under the lock: fix the outcome of a running call and take its handle. */
  function CancelSection(c: CallState): (CallState, bool) {
    (c.(status := if c.status == Running then Cancelled else c.status, cancel := false), c.cancel)
  }

  function RegisterSection(c: CallState): CallState {
    c.(cancel := true)
  }

  /** The worker's closing section; also the status its notification names. */
  function CloseSection(c: CallState, outcome: Outcome): CallState {
    var c' := c.(cancel := false);
    if c.status == Cancelled then c'
    else match outcome
      case Ok(s) => c'.(status := Done, stream := Some(s), affected := Affected(s))
      case Err(e) => c'.(status := Failed, error := Some(e))
  }

  /** Beyond a read error the slicing law fails. Here a cursor is opened on a row, a read error and
      another row, and the call closed with it: its result is the first row, a request for two fails,
      and the same request again answers with the row behind the error, as if the first one had never
      existed. */
  lemma RetryAfterFaultSkipsRows(a: Row, b: Row)
    ensures
      var c := CloseSection(NEW_CALL, Opened([Doc(a), Fault("reset"), Doc(b)], None));
      && Pageable(c) && Full(c) == [a]
      && ReadPage(c, 0, 2).1 == Err("reset")
      && ReadPage(ReadPage(c, 0, 2).0, 0, 2).1 == Ok(Page([b], 0, false, Some(1), None))
  {
    var items := [Fault("reset"), Doc(b)];
    var s := Cursor(items, Some(a), false, None);
    var c := NEW_CALL.(status := Done, stream := Some(s));
    assert [Doc(a), Fault("reset"), Doc(b)][1..] == items && items[1..] == [Doc(b)];
    assert CloseSection(NEW_CALL, Opened([Doc(a), Fault("reset"), Doc(b)], None)) == c;
    assert FirstFault(items) == 0 && Full(c) == [a];
    PageFailsExactlyAtFault(c, 0, 2);
    var c1 := c.(stream := Some(Cursor([Doc(b)], None, false, None)));
    assert Full(c1) == [b];
    hide Fill, Pull, Rest, Full, FirstFault;
    PageIsSlice(c1, 0, 2);
    FillKeepsResult(c1, 2);
    PageOfFilled(c1, 0, 2);
    assert [b][..1] == [b];
  }

  datatype StreamRef = BufferedRef(b: BufferedStream) | CursorRef(m: MongoCursorStream)

  class Call {
    var status: Status
    var stream: Option<StreamRef>
    var buffer: seq<Row>
    var exhausted: bool
    var affected: Option<nat>
    var error: Option<string>
    var cancel: bool

    ghost function StreamObject(): set<object>
      reads this
    {
      match stream
      case None => {}
      case Some(BufferedRef(b)) => {b}
      case Some(CursorRef(m)) => {m}
    }

    ghost function StreamView(): Option<Stream>
      reads this, StreamObject()
    {
      match stream
      case None => None
      case Some(BufferedRef(b)) => Some(b.View())
      case Some(CursorRef(m)) => Some(m.View())
    }

    ghost function View(): CallState
      reads this, StreamObject()
    {
      CallState(status, StreamView(), buffer, exhausted, affected, error, cancel)
    }

    constructor ()
      ensures View() == NEW_CALL
    {
      status, stream, buffer, exhausted := Running, None, [], false;
      affected, error, cancel := None, None, false;
    }

    /** The pull loop of `query.page`: append to the buffer until it holds `need` rows. */
    method PullUntil(need: nat) returns (failure: Option<string>)
      requires Consistent(View())
      modifies this, StreamObject()
      ensures stream == old(stream)
      ensures (View(), failure) == Fill(old(View()), need)
    {
      hide Fill, Pull;
      ghost var was := View();
      while !exhausted && |buffer| < need
        invariant stream == old(stream) && Consistent(View())
        invariant Fill(View(), need) == Fill(was, need)
        decreases need - |buffer|, !exhausted
      {
        if stream.Some? {
          FillOnce(View(), need);
        }
        var pulled;
        match stream {
          case None => break;
          case Some(BufferedRef(b)) => pulled := b.NextPage(need - |buffer|);
          case Some(CursorRef(m)) => pulled := m.NextPage(need - |buffer|);
        }
        match pulled {
          case Err(e) => return Some(e);
          case Ok(None) => exhausted := true;
          case Ok(Some(rows)) => buffer := buffer + rows;
        }
      }
      FillStops(View(), need);
      failure := None;
    }

    method Page(from: nat, n: nat) returns (reply: Result<PageReply>)
      requires Consistent(View())
      modifies this, StreamObject()
      ensures stream == old(stream)
      ensures (View(), reply) == ReadPage(old(View()), from, n)
    {
      hide Fill;
      match status {
        case Running => return Ok(NotReady);
        case Failed => return Err(if error.Some? then error.value else "query failed");
        case Cancelled => return Err("query was cancelled");
        case Done =>
      }
      var need := from + n;
      var failure := PullUntil(need);
      if failure.Some? {
        return Err(failure.value);
      }
      var total: Option<nat> := None;
      match stream {
        case None =>
        case Some(BufferedRef(b)) =>
          total := if b.rows == [] && b.affectedRows.Some? then None else Some(|b.rows|);
        case Some(CursorRef(m)) => total := m.total;
      }
      if total.None? && exhausted {
        total := Some(|buffer|);
      }
      var start := if from < |buffer| then from else |buffer|;
      var end := if need < |buffer| then need else |buffer|;
      reply := Ok(PageReply.Page(buffer[start..end], start, !exhausted || end < |buffer|, total, affected));
    }

    method Cancel() returns (handle: bool)
      modifies this
      ensures (View(), handle) == CancelSection(old(View()))
    {
      if status == Running {
        status := Cancelled;
      }
      handle := cancel;
      cancel := false;
    }

    method Register()
      modifies this
      ensures View() == RegisterSection(old(View()))
    {
      cancel := true;
    }

    method Close(outcome: Result<StreamRef>, ghost value: Outcome)
      requires outcome.Err? ==> value == Err(outcome.error)
      requires outcome.Ok? && outcome.value.BufferedRef? ==> value == Ok(outcome.value.b.View())
      requires outcome.Ok? && outcome.value.CursorRef? ==> value == Ok(outcome.value.m.View())
      modifies this
      ensures View() == CloseSection(old(View()), value)
    {
      cancel := false;
      if status == Cancelled {
        return;
      }
      match outcome {
        case Ok(BufferedRef(b)) =>
          affected := if b.rows == [] then b.affectedRows else None;
          stream := Some(BufferedRef(b));
          status := Done;
        case Ok(CursorRef(m)) =>
          affected := None;
          stream := Some(CursorRef(m));
          status := Done;
        case Err(e) =>
          status := Failed;
          error := Some(e);
      }
    }
  }
}
