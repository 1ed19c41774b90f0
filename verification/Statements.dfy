/** Statements of an editor buffer (`ui/editor.lua`): what the splitters collect, and which statement a
    cursor line means. */
module Statements {
  import opened Wrappers
  import opened LuaText

  datatype Statement = Statement(sql: string, sline: nat, eline: nat)

  /** What is kept of a piece of text that starts on `line`: nothing of a blank one, otherwise its
      trimmed text, from the line of its first character that is not blank to the line it ends on. */
  function Kept(piece: string, line: nat): seq<Statement> {
    if Trim(piece) == "" then []
    else [Statement(Trim(piece), line + Newlines(piece[..Margin(piece)]), line + Newlines(piece))]
  }

  function Sqls(stmts: seq<Statement>): seq<string> {
    if stmts == [] then [] else [stmts[0].sql] + Sqls(stmts[1..])
  }

  lemma {:induction false} SqlsConcat(a: seq<Statement>, b: seq<Statement>)
    ensures Sqls(a + b) == Sqls(a) + Sqls(b)
  {
    if a == [] {
      assert a + b == b;
    } else {
      assert (a + b)[1..] == a[1..] + b;
      SqlsConcat(a[1..], b);
    }
  }

  lemma {:induction false} SqlsAt(stmts: seq<Statement>)
    ensures |Sqls(stmts)| == |stmts|
    ensures forall i :: 0 <= i < |stmts| ==> Sqls(stmts)[i] == stmts[i].sql
  {
    if stmts != [] {
      SqlsAt(stmts[1..]);
    }
  }

  /** The trimmed pieces that are not blank. */
  function Trimmed(ps: seq<string>): seq<string> {
    if ps == [] then []
    else (if Trim(ps[0]) == "" then [] else [Trim(ps[0])]) + Trimmed(ps[1..])
  }

  lemma TrimmedHead(p: string, ps: seq<string>)
    ensures Trimmed([p] + ps) == (if Trim(p) == "" then [] else [Trim(p)]) + Trimmed(ps)
    ensures Trimmed([p]) == if Trim(p) == "" then [] else [Trim(p)]
  {
    hide Trim;
    assert ([p] + ps)[1..] == ps && [p][1..] == [];
  }

  lemma SqlsOfKept(piece: string, line: nat)
    ensures Sqls(Kept(piece, line)) == if Trim(piece) == "" then [] else [Trim(piece)]
  {
    hide Trim, Newlines;
  }

  lemma TrimAfterNewline(p: string)
    ensures Trim("\n" + p) == Trim(p)
  {
    TrimLeftOf("\n", p);
  }

  // ── collecting ─────────────────────────────────────────────────────────────

  /** The line of a segment's first character that is not blank. */
  function FirstInk(seg: string, line: nat): Option<nat> {
    if Margin(seg) == |seg| then None else Some(line + Newlines(seg[..Margin(seg)]))
  }

  lemma {:induction false} MarginGrows(seg: string, ch: char)
    ensures Margin(seg + [ch]) == if Margin(seg) < |seg| then Margin(seg)
                                  else if IsSpace(ch) then |seg| + 1 else |seg|
  {
    if seg != "" && IsSpace(seg[0]) {
      MarginGrows(seg[1..], ch);
      assert (seg + [ch])[1..] == seg[1..] + [ch];
    }
  }

  lemma MarginOfTrim(s: string)
    ensures Trim(s) == "" <==> Margin(s) == |s|
  {
    MarginIsTrimmed(s);
    TrimRightCuts(TrimLeft(s));
    TrimCuts(s);
  }

  /** `seg`, begun on line `from`, has been collected up to here. */
  ghost predicate Collected(seg: string, segStart: Option<nat>, line: nat, from: nat) {
    segStart == FirstInk(seg, from) && line == from + Newlines(seg)
  }

  function Below(line: nat, ch: char): nat {
    if ch == '\n' then line + 1 else line
  }

  /** Collecting one more character, and then counting its line. */
  lemma CollectOne(seg: string, segStart: Option<nat>, line: nat, from: nat, ch: char)
    requires Collected(seg, segStart, line, from)
    ensures Collected(seg + [ch], if segStart.None? && !IsSpace(ch) then Some(line) else segStart,
                      Below(line, ch), from)
  {
    MarginGrows(seg, ch);
    NewlinesConcat(seg, [ch]);
    assert seg[..Margin(seg)] == (seg + [ch])[..Margin(seg)];
  }

  /** What flushing adds is what is kept of the segment. */
  lemma FlushKeeps(seg: string, segStart: Option<nat>, line: nat, from: nat)
    requires Collected(seg, segStart, line, from)
    ensures Flushed(seg, segStart, line) == Kept(seg, from)
    ensures Collected("", None, line, line)
  {
    MarginOfTrim(seg);
  }

  function Flushed(seg: string, segStart: Option<nat>, endline: nat): seq<Statement> {
    if Trim(seg) == "" then []
    else [Statement(Trim(seg), if segStart.Some? then segStart.value else endline, endline)]
  }

  /** The state the splitters' `push` and `flush` share. */
  class Collector {
    var stmts: seq<Statement>
    var seg: string
    var segStart: Option<nat>
    var line: nat

    constructor ()
      ensures stmts == [] && seg == "" && segStart == None && line == 1
    {
      stmts, seg, segStart, line := [], "", None, 1;
    }

    method Push(ch: char)
      modifies this
      ensures seg == old(seg) + [ch] && stmts == old(stmts) && line == old(line)
      ensures segStart == if old(segStart).None? && !IsSpace(ch) then Some(line) else old(segStart)
    {
      seg := seg + [ch];
      if segStart.None? && !IsSpace(ch) {
        segStart := Some(line);
      }
    }

    method Flush(endline: nat)
      modifies this
      ensures stmts == old(stmts) + Flushed(old(seg), old(segStart), endline)
      ensures seg == "" && segStart == None && line == old(line)
    {
      var sql := Trim(seg);
      if sql != "" {
        stmts := stmts + [Statement(sql, if segStart.Some? then segStart.value else endline, endline)];
      }
      seg := "";
      segStart := None;
    }
  }

  // ── order ──────────────────────────────────────────────────────────────────

  /** Spans run forward, within the lines `lo` to `hi`. */
  ghost predicate Ordered(stmts: seq<Statement>, lo: nat, hi: nat) {
    && (forall i :: 0 <= i < |stmts| ==> lo <= stmts[i].sline <= stmts[i].eline <= hi)
    && (forall i, j :: 0 <= i < j < |stmts| ==> stmts[i].eline <= stmts[j].sline)
  }

  lemma NewlinesWithin(s: string, k: nat)
    requires k <= |s|
    ensures Newlines(s[..k]) <= Newlines(s)
  {
    NewlinesConcat(s[..k], s[k..]);
    assert s == s[..k] + s[k..];
  }

  lemma KeptOrdered(piece: string, line: nat)
    ensures Ordered(Kept(piece, line), line, line + Newlines(piece))
  {
    NewlinesWithin(piece, Margin(piece));
  }

  lemma OrderedConcat(a: seq<Statement>, b: seq<Statement>, lo: nat, mid: nat, hi: nat)
    requires Ordered(a, lo, mid) && Ordered(b, mid, hi) && lo <= mid <= hi
    ensures Ordered(a + b, lo, hi)
  {
  }

  // ── the statement under the cursor ─────────────────────────────────────────

  predicate Covers(s: Statement, cursor: nat) {
    s.sline <= cursor <= s.eline
  }

  ghost predicate Meant(stmts: seq<Statement>, cursor: nat, k: nat) {
    && k < |stmts|
    && if exists j :: 0 <= j < |stmts| && Covers(stmts[j], cursor)
       then Covers(stmts[k], cursor) && (forall j :: 0 <= j < k ==> !Covers(stmts[j], cursor))
       else if exists j :: 0 <= j < |stmts| && stmts[j].sline <= cursor
       then stmts[k].sline <= cursor && (forall j :: k < j < |stmts| ==> stmts[j].sline > cursor)
       else k == 0
  }

  method StatementAt(stmts: seq<Statement>, cursor: nat) returns (sql: Option<string>)
    ensures sql.None? <==> stmts == []
    ensures sql.Some? ==> exists k: nat :: Meant(stmts, cursor, k) && sql.value == stmts[k].sql
  {
    if stmts == [] {
      return None;
    }
    for i := 0 to |stmts|
      invariant forall j :: 0 <= j < i ==> !Covers(stmts[j], cursor)
    {
      if Covers(stmts[i], cursor) {
        assert Meant(stmts, cursor, i);
        return Some(stmts[i].sql);
      }
    }
    var best := None;
    ghost var k: nat := 0;
    for i := 0 to |stmts|
      invariant k < |stmts| && (best.None? ==> k == 0) &&
                (best.Some? ==> best.value == stmts[k] && stmts[k].sline <= cursor)
      invariant forall j :: (if best.Some? then k + 1 else 0) <= j < i ==> stmts[j].sline > cursor
    {
      if stmts[i].sline <= cursor {
        best := Some(stmts[i]);
        k := i;
      }
    }
    assert Meant(stmts, cursor, k);
    return Some((if best.Some? then best.value else stmts[0]).sql);
  }

  /** On spans that run forward the statement meant is the one that starts last among those starting at
      or before the cursor; when a line is shared, an earlier one that reaches it is preferred. */
  lemma MeantStartsLast(stmts: seq<Statement>, cursor: nat, k: nat, lo: nat, hi: nat)
    requires Ordered(stmts, lo, hi) && Meant(stmts, cursor, k)
    ensures forall j :: 0 <= j < |stmts| && stmts[j].sline <= cursor ==>
              stmts[k].sline <= cursor &&
              (stmts[j].sline <= stmts[k].sline || stmts[k].eline == cursor == stmts[j].sline)
    ensures (forall j :: 0 <= j < |stmts| ==> stmts[j].sline > cursor) ==> k == 0
  {
    forall j | 0 <= j < |stmts| && stmts[j].sline <= cursor
      ensures stmts[k].sline <= cursor &&
              (stmts[j].sline <= stmts[k].sline || stmts[k].eline == cursor == stmts[j].sline)
    {
      assert k < j ==> stmts[k].eline <= stmts[j].sline;
      assert j < k ==> stmts[j].eline <= stmts[k].sline;
    }
  }
}
