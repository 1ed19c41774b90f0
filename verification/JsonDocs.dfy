/** `split_json_docs` (`ui/editor.lua`): MongoDB commands, one brace-balanced document each. */
module JsonDocs {
  import opened JsonText
  import opened LuaText
  import opened Statements
  import opened Wrappers

  /** Brace depth, and whether the scanner is inside a string and after a backslash there. */
  datatype Scan = Scan(depth: int, instr: bool, esc: bool)

  const START := Scan(0, false, false)

  function Next(s: Scan, c: char): Scan {
    if s.instr then
      if s.esc then s.(esc := false)
      else if c == '\\' then s.(esc := true)
      else if c == '"' then s.(instr := false)
      else s
    else match c
         case '"' => s.(instr := true)
         case '{' => s.(depth := s.depth + 1)
         case '}' => s.(depth := s.depth - 1)
         case _ => s
  }

  function Read(s: Scan, t: string): Scan
    decreases |t|
  {
    if t == "" then s else Read(Next(s, t[0]), t[1..])
  }

  /** A brace outside strings that brings the depth back to zero. */
  predicate Ends(s: Scan, c: char) {
    !s.instr && c == '}' && s.depth == 1
  }

  /** How far it is to the brace that ends the document. */
  function EndAt(t: string, s: Scan): (k: nat)
    ensures k <= |t|
  {
    if t == "" || Ends(s, t[0]) then 0 else 1 + EndAt(t[1..], Next(s, t[0]))
  }

  /** The documents with everything between them, and the remainder. */
  function Docs(t: string): (ds: seq<string>)
    ensures ds != []
    decreases |t|
  {
    var k := EndAt(t, START);
    if k == |t| then [t] else [t[..k + 1]] + Docs(t[k + 1..])
  }

  function Split(t: string, line: nat): seq<Statement>
    decreases |t|
  {
    var k := EndAt(t, START);
    if k == |t| then Kept(t, line)
    else Kept(t[..k + 1], line) + Split(t[k + 1..], line + Newlines(t[..k + 1]))
  }

  // ── the scanner of the editor ──────────────────────────────────────────────

  ghost predicate Halfway(t: string, stmts: seq<Statement>, seg: string, segStart: Option<nat>, line: nat,
                          a: nat, from: nat, i: nat, s: Scan) {
    && a <= i <= |t| && seg == t[a..i] && Collected(seg, segStart, line, from)
    && stmts + Split(t[a..], from) == Split(t, 1)
    && EndAt(t[a..], START) == (i - a) + EndAt(t[i..], s)
  }

  lemma OneOn(t: string, stmts: seq<Statement>, seg: string, segStart: Option<nat>, line: nat,
              a: nat, from: nat, i: nat, s: Scan)
    requires Halfway(t, stmts, seg, segStart, line, a, from, i, s) && i < |t| && !Ends(s, t[i])
    ensures Halfway(t, stmts, seg + [t[i]], if segStart.None? && !IsSpace(t[i]) then Some(line) else segStart,
                    Below(line, t[i]), a, from, i + 1, Next(s, t[i]))
  {
    hide Collected, Split;
    CollectOne(seg, segStart, line, from, t[i]);
    assert t[i..][1..] == t[i + 1..];
  }

  lemma EndHere(t: string, stmts: seq<Statement>, seg: string, segStart: Option<nat>, line: nat,
                a: nat, from: nat, i: nat, s: Scan)
    requires Halfway(t, stmts, seg, segStart, line, a, from, i, s) && i < |t| && Ends(s, t[i])
    ensures
      var start := if segStart.None? && !IsSpace(t[i]) then Some(line) else segStart;
      Halfway(t, stmts + Flushed(seg + [t[i]], start, line), "", None, line, i + 1, line, i + 1, START)
  {
    hide Kept, Newlines, Split, Flushed;
    CollectOne(seg, segStart, line, from, t[i]);
    var start := if segStart.None? && !IsSpace(t[i]) then Some(line) else segStart;
    FlushKeeps(seg + [t[i]], start, line, from);
    SliceAt(t, a, i);
    assert EndAt(t[a..], START) == i - a;
    hide EndAt;
    SplitAtEnd(t[a..], from);
    Regroup(stmts, Kept(seg + [t[i]], from), Split(t[i + 1..], line));
  }

  lemma SliceAt(t: string, a: nat, i: nat)
    requires a <= i < |t|
    ensures t[a..][..i - a + 1] == t[a..i] + [t[i]] && t[a..][i - a + 1..] == t[i + 1..]
  {
  }

  lemma Regroup(a: seq<Statement>, b: seq<Statement>, c: seq<Statement>)
    ensures a + (b + c) == (a + b) + c
  {
  }

  lemma SplitAtEnd(t: string, line: nat)
    ensures
      var k := EndAt(t, START);
      && (k == |t| ==> Split(t, line) == Kept(t, line) && Docs(t) == [t])
      && (k < |t| ==>
            && Split(t, line) == Kept(t[..k + 1], line) + Split(t[k + 1..], line + Newlines(t[..k + 1]))
            && Docs(t) == [t[..k + 1]] + Docs(t[k + 1..])
            && Docs(t)[1..] == Docs(t[k + 1..]))
  {
    hide Kept, Newlines, EndAt;
  }

  lemma LastPiece(t: string, stmts: seq<Statement>, seg: string, segStart: Option<nat>, line: nat,
                  a: nat, from: nat, s: Scan)
    requires Halfway(t, stmts, seg, segStart, line, a, from, |t|, s)
    ensures stmts + Flushed(seg, segStart, line) == Split(t, 1)
  {
    hide Kept, Split, Flushed;
    FlushKeeps(seg, segStart, line, from);
    SplitAtEnd(t[a..], from);
    assert t[a..] == seg;
  }

  method SplitJsonDocs(text: string) returns (stmts: seq<Statement>)
    ensures stmts == Split(text, 1)
  {
    hide Halfway, Split, Flushed;
    var c := new Collector();
    var depth, instr, esc := 0, false, false;
    ghost var a, from := 0, 1;
    Begin(text);
    for i := 0 to |text|
      invariant Halfway(text, c.stmts, c.seg, c.segStart, c.line, a, from, i, Scan(depth, instr, esc))
                && (esc ==> instr)
    {
      var ch := text[i];
      ghost var s := Scan(depth, instr, esc);
      if Ends(s, ch) {
        EndHere(text, c.stmts, c.seg, c.segStart, c.line, a, from, i, s);
      } else {
        OneOn(text, c.stmts, c.seg, c.segStart, c.line, a, from, i, s);
      }
      c.Push(ch);
      if instr {
        if esc {
          esc := false;
        } else if ch == '\\' {
          esc := true;
        } else if ch == '"' {
          instr := false;
        }
      } else if ch == '"' {
        instr := true;
      } else if ch == '{' {
        depth := depth + 1;
      } else if ch == '}' {
        depth := depth - 1;
        if depth == 0 {
          c.Flush(c.line);
          a, from := i + 1, c.line;
        }
      }
      if ch == '\n' {
        c.line := c.line + 1;
      }
    }
    LastPiece(text, c.stmts, c.seg, c.segStart, c.line, a, from, Scan(depth, instr, esc));
    c.Flush(c.line);
    return c.stmts;
  }

  lemma Begin(t: string)
    ensures Halfway(t, [], "", None, 1, 0, 1, 0, START)
  {
    assert t[0..] == t;
  }

  // ── where the documents end ────────────────────────────────────────────────

  lemma {:induction false} ReadConcat(s: Scan, a: string, b: string)
    ensures Read(s, a + b) == Read(Read(s, a), b)
    decreases |a|
  {
    if a == "" {
      assert a + b == b;
    } else {
      assert (a + b)[1..] == a[1..] + b;
      ReadConcat(Next(s, a[0]), a[1..], b);
    }
  }

  lemma {:induction false} EndIsFirst(t: string, s: Scan)
    requires s.esc ==> s.instr
    ensures EndAt(t, s) < |t| ==>
            Ends(Read(s, t[..EndAt(t, s)]), t[EndAt(t, s)]) && Read(s, t[..EndAt(t, s) + 1]) == START
    ensures forall i :: 0 <= i < EndAt(t, s) ==> !Ends(Read(s, t[..i]), t[i])
  {
    if t != "" && !Ends(s, t[0]) {
      EndIsFirst(t[1..], Next(s, t[0]));
      forall i | 0 < i <= |t| ensures Read(s, t[..i]) == Read(Next(s, t[0]), t[1..][..i - 1]) {
        assert t[..i][1..] == t[1..][..i - 1];
      }
    } else if t != "" {
      assert t[..1][1..] == "";
    }
  }

  function Concat(ss: seq<string>): string {
    if ss == [] then "" else ss[0] + Concat(ss[1..])
  }

  lemma {:induction false} DocsConcat(t: string)
    ensures Concat(Docs(t)) == t
    decreases |t|
  {
    hide EndAt, Docs, Concat;
    var k := EndAt(t, START);
    SplitAtEnd(t, 1);
    if k < |t| {
      DocsConcat(t[k + 1..]);
      ConcatFirst(t[..k + 1], Docs(t[k + 1..]));
      assert t == t[..k + 1] + t[k + 1..];
    } else {
      ConcatOne(t);
    }
  }

  lemma ConcatFirst(s: string, ss: seq<string>)
    ensures Concat([s] + ss) == s + Concat(ss)
  {
    assert ([s] + ss)[1..] == ss;
  }

  lemma ConcatOne(s: string)
    ensures Concat([s]) == s
  {
    assert [s][1..] == [] && s + "" == s;
  }

  /** A document ends at position `i`. */
  predicate Boundary(ds: seq<string>, i: nat) {
    |ds| > 1 && (i + 1 == |ds[0]| || (i >= |ds[0]| && Boundary(ds[1..], i - |ds[0]|)))
  }

  lemma AfterEnd(t: string, k: nat, i: nat)
    requires k < i <= |t| && Read(START, t[..k + 1]) == START
    ensures Read(START, t[..i]) == Read(START, t[k + 1..][..i - k - 1])
  {
    hide Read;
    assert t[k + 1..][..i - k - 1] == t[k + 1..i];
    assert t[..i] == t[..k + 1] + t[k + 1..i];
    ReadConcat(START, t[..k + 1], t[k + 1..][..i - k - 1]);
  }

  /** Documents end exactly at the braces outside strings that bring the depth, counted over the whole
      text, back to zero; so each but the last closes there for the first time. */
  lemma {:induction false} DocsEndAtDepthZero(t: string, i: nat)
    requires i < |t|
    ensures Boundary(Docs(t), i) <==> Ends(Read(START, t[..i]), t[i])
    decreases |t|
  {
    hide EndAt, Read, Ends;
    var k := EndAt(t, START);
    SplitAtEnd(t, 1);
    EndIsFirst(t, START);
    if k < |t| && i > k {
      AfterEnd(t, k, i);
      DocsEndAtDepthZero(t[k + 1..], i - k - 1);
    }
  }

  // ── strings ────────────────────────────────────────────────────────────────

  /** Reading the inside of a string leaves it open, and the closing quote leads back. */
  lemma {:induction false} BodyIsRead(s: Scan, u: string)
    requires s.instr && !s.esc && StringBody(u)
    ensures Read(s, u + "\"") == s.(instr := false)
    decreases |u|
  {
    if u == "" {
      assert u + "\"" == "\"" && "\""[1..] == "";
    } else if u[0] == '\\' {
      assert (u + "\"")[1..] == u[1..] + "\"" && (u[1..] + "\"")[1..] == u[2..] + "\"";
      BodyIsRead(s, u[2..]);
    } else {
      assert (u + "\"")[1..] == u[1..] + "\"";
      BodyIsRead(s, u[1..]);
    }
  }

  /** And nothing inside it ends a document. */
  lemma {:induction false} BodyEndsNothing(s: Scan, u: string, k: nat)
    requires s.instr && !s.esc && StringBody(u) && k <= |u|
    ensures Read(s, u[..k]).instr
    decreases |u|
  {
    if k > 0 && u[0] == '\\' {
      assert u[..k][1..] == u[1..][..k - 1];
      if k > 1 {
        assert u[1..][..k - 1][1..] == u[2..][..k - 2];
        BodyEndsNothing(s, u[2..], k - 2);
      }
    } else if k > 0 {
      assert u[..k][1..] == u[1..][..k - 1];
      BodyEndsNothing(s, u[1..], k - 1);
    }
  }

  /** A text with a string in it, up to somewhere before, in or behind the string. */
  lemma StringSlices(a: string, u: string, b: string, i: nat)
    requires i <= |a + Quoted(u) + b|
    ensures
      var t, n := a + Quoted(u) + b, |Quoted(u)|;
      && (i <= |a| ==> t[..i] == a[..i] == (a + b)[..i])
      && (|a| < i < |a| + n ==> t[..i] == a + (['"'] + u[..i - |a| - 1]))
      && (i >= |a| + n ==>
            var tail := b[..i - |a| - n];
            t[..i] == a + (['"'] + ((u + "\"") + tail)) && (a + b)[..i - n] == a + tail)
  {
  }

  lemma InsideIsRead(a: string, u: string, k: nat)
    requires StringBody(u) && !Read(START, a).instr && k <= |u|
    ensures Read(START, a + (['"'] + u[..k])).instr
  {
    NeverEscapedOutside(START, a);
    hide Read, StringBody;
    ReadConcat(START, a, ['"'] + u[..k]);
    ReadOne(Read(START, a), '"', u[..k]);
    BodyEndsNothing(Read(START, a).(instr := true), u, k);
  }

  lemma BehindIsRead(a: string, u: string, tail: string)
    requires StringBody(u) && !Read(START, a).instr
    ensures Read(START, a + (['"'] + ((u + "\"") + tail))) == Read(START, a + tail)
  {
    NeverEscapedOutside(START, a);
    hide Read, StringBody;
    var open := Read(START, a).(instr := true);
    ReadConcat(START, a, ['"'] + ((u + "\"") + tail));
    ReadConcat(START, a, tail);
    ReadOne(Read(START, a), '"', (u + "\"") + tail);
    ReadConcat(open, u + "\"", tail);
    BodyIsRead(open, u);
  }

  /** Reading such a text. */
  lemma StringIsRead(a: string, u: string, b: string, i: nat)
    requires StringBody(u) && !Read(START, a).instr && i <= |a + Quoted(u) + b|
    ensures
      var t, n := a + Quoted(u) + b, |Quoted(u)|;
      && (i <= |a| ==> Read(START, t[..i]) == Read(START, (a + b)[..i]))
      && (|a| < i < |a| + n ==> Read(START, t[..i]).instr)
      && (i >= |a| + n ==> Read(START, t[..i]) == Read(START, (a + b)[..i - n]))
  {
    var n := |Quoted(u)|;
    assert n == |u| + 2;
    StringSlices(a, u, b, i);
    hide Read, StringBody, Quoted;
    if |a| < i < |a| + n {
      InsideIsRead(a, u, i - |a| - 1);
    } else if i >= |a| + n {
      BehindIsRead(a, u, b[..i - |a| - n]);
    }
  }

  lemma ReadOne(s: Scan, c: char, t: string)
    ensures Read(s, [c] + t) == Read(Next(s, c), t)
  {
    assert ([c] + t)[1..] == t;
  }

  lemma {:induction false} NeverEscapedOutside(s: Scan, a: string)
    requires s.esc ==> s.instr
    ensures Read(s, a).esc ==> Read(s, a).instr
    decreases |a|
  {
    if a != "" {
      NeverEscapedOutside(Next(s, a[0]), a[1..]);
    }
  }

  /** A string, whatever braces and escaped quotes it holds, might as well not be there: no document ends
      inside it, and those before and behind it end where they would without it. */
  lemma StringsAreOpaque(a: string, u: string, b: string, i: nat)
    requires StringBody(u) && !Read(START, a).instr && i < |a + Quoted(u) + b|
    ensures
      var ds, n := Docs(a + Quoted(u) + b), |Quoted(u)|;
      Boundary(ds, i) <==>
        if i < |a| then Boundary(Docs(a + b), i) else i >= |a| + n && Boundary(Docs(a + b), i - n)
  {
    hide Read, StringBody, Docs, Boundary;
    var t, n := a + Quoted(u) + b, |Quoted(u)|;
    DocsEndAtDepthZero(t, i);
    StringIsRead(a, u, b, i);
    if i < |a| {
      DocsEndAtDepthZero(a + b, i);
      assert t[i] == (a + b)[i];
    } else if i >= |a| + n {
      DocsEndAtDepthZero(a + b, i - n);
      assert t[i] == b[i - |a| - n] == (a + b)[i - n];
    } else if i == |a| {
      assert t[i] == '"';
    }
  }

  // ── splitting what was split ───────────────────────────────────────────────

  lemma {:induction false} StatementsAreDocs(t: string, line: nat)
    ensures Sqls(Split(t, line)) == Trimmed(Docs(t))
    decreases |t|
  {
    hide Newlines, EndAt, Kept, Trim;
    var k := EndAt(t, START);
    SplitAtEnd(t, line);
    if k < |t| {
      var rest := Split(t[k + 1..], line + Newlines(t[..k + 1]));
      SqlsOfKept(t[..k + 1], line);
      StatementsAreDocs(t[k + 1..], line + Newlines(t[..k + 1]));
      SqlsConcat(Kept(t[..k + 1], line), rest);
    } else {
      SqlsOfKept(t, line);
    }
  }

  /** A statement as it comes out: one document, or (the last only) a remainder that never closes. */
  ghost predicate Closed(s: string) {
    Tight(s) && EndAt(s, START) == |s| - 1
  }

  ghost predicate Open(s: string) {
    Tight(s) && EndAt(s, START) == |s|
  }

  ghost predicate Rejoinable(ss: seq<string>) {
    forall i :: 0 <= i < |ss| ==> Closed(ss[i]) || (i == |ss| - 1 && Open(ss[i]))
  }

  lemma {:induction false} BlanksChangeNothing(s: Scan, w: string, t: string)
    requires Blank(w) && !s.instr
    ensures Read(s, w) == s && EndAt(w + t, s) == |w| + EndAt(t, s)
    decreases |w|
  {
    if w == "" {
      assert w + t == t;
    } else {
      assert (w + t)[1..] == w[1..] + t;
      BlanksChangeNothing(s, w[1..], t);
    }
  }

  lemma {:induction false} EndInside(a: string, b: string, s: Scan)
    ensures EndAt(a + b, s) < |a| ==> EndAt(a, s) == EndAt(a + b, s)
    ensures EndAt(a + b, s) >= |a| ==> EndAt(a, s) == |a|
    decreases |a|
  {
    if a != "" {
      assert (a + b)[1..] == a[1..] + b;
      EndInside(a[1..], b, Next(s, a[0]));
    }
  }

  /** Trimming a document or a remainder leaves it one. */
  lemma TrimmedDoc(t: string, k: nat)
    requires k == EndAt(t, START)
    ensures k < |t| ==> Closed(Trim(t[..k + 1]))
    ensures k == |t| && Trim(t) != "" ==> Open(Trim(t))
  {
    hide EndAt, Trim, Margin;
    if k < |t| {
      var p, rest := t[..k + 1], t[k + 1..];
      assert t == p + rest && p[k] == t[k];
      EndsInBrace(t, k);
      EndInside(p, rest, START);
      TrimKeepsEnd(p);
      SolidEnd(p);
      TrimCuts(p);
    } else {
      TrimKeepsEnd(t);
      TrimCuts(t);
    }
  }

  /** Where the text left by a trim ends its document, seen from the whole text. */
  lemma TrimKeepsEnd(p: string)
    ensures
      var s, e := Trim(p), EndAt(p, START) - Margin(p);
      && (e < |s| ==> EndAt(s, START) == e)
      && (e >= |s| ==> EndAt(s, START) == |s|)
  {
    hide EndAt, Trim, Margin, Tight;
    TrimCuts(p);
    var s, u, w := Trim(p), p[..Margin(p)], p[Margin(p) + |Trim(p)|..];
    assert p == u + (s + w);
    BlanksChangeNothing(START, u, s + w);
    EndInside(s, w, START);
  }

  lemma EndsInBrace(t: string, k: nat)
    requires k == EndAt(t, START) < |t|
    ensures t[k] == '}'
  {
    EndIsFirst(t, START);
  }

  lemma {:induction false} DocsRejoinable(t: string)
    ensures Rejoinable(Trimmed(Docs(t)))
    decreases |t|
  {
    hide EndAt, Closed, Open, Trim;
    var k := EndAt(t, START);
    SplitAtEnd(t, 1);
    TrimmedDoc(t, k);
    if k < |t| {
      DocsRejoinable(t[k + 1..]);
    }
  }

  lemma {:induction false} EndPast(a: string, b: string, s: Scan)
    requires EndAt(a, s) < |a|
    ensures EndAt(a + b, s) == EndAt(a, s)
    decreases |a|
  {
    if !Ends(s, a[0]) {
      assert (a + b)[1..] == a[1..] + b;
      EndPast(a[1..], b, Next(s, a[0]));
    }
  }

  lemma EndBehindNewline(t: string, u: string)
    requires t == "\n" + u
    ensures EndAt(t, START) == 1 + EndAt(u, START)
  {
    assert t[1..] == u;
  }

  lemma DocsBehind(t: string, k: nat, first: string, rest: string)
    requires k == EndAt(t, START) < |t| && first == t[..k + 1] && rest == t[k + 1..]
    ensures Docs(t) == [first] + Docs(rest)
  {
    hide EndAt;
  }

  lemma NewlineDocs(u: string, k: nat)
    requires k == EndAt(u, START) < |u|
    ensures Docs("\n" + u) == ["\n" + u[..k + 1]] + Docs(u[k + 1..])
  {
    hide EndAt, Docs;
    var t, first, rest := "\n" + u, "\n" + u[..k + 1], u[k + 1..];
    EndBehindNewline(t, u);
    assert first == t[..k + 2];
    assert rest == t[k + 2..];
    DocsBehind(t, k + 1, first, rest);
  }

  lemma NewlineOnly(u: string)
    requires EndAt(u, START) == |u|
    ensures Docs("\n" + u) == ["\n" + u]
  {
    EndBehindNewline("\n" + u, u);
  }

  lemma LeadingNewline(u: string)
    ensures Trimmed(Docs("\n" + u)) == Trimmed(Docs(u))
  {
    hide EndAt, Docs, Split, Trim, Trimmed;
    var k := EndAt(u, START);
    SplitAtEnd(u, 1);
    if k < |u| {
      var first, rest := u[..k + 1], Docs(u[k + 1..]);
      NewlineDocs(u, k);
      TrimAfterNewline(first);
      TrimmedHead(first, rest);
      TrimmedHead("\n" + first, rest);
    } else {
      NewlineOnly(u);
      TrimAfterNewline(u);
      TrimmedHead(u, []);
      TrimmedHead("\n" + u, []);
    }
  }

  lemma SplitFirst(s: string, u: string)
    requires Closed(s)
    ensures Trimmed(Docs(s + ("\n" + u))) == [s] + Trimmed(Docs(u))
  {
    hide EndAt, Docs, Trim;
    var t := s + ("\n" + u);
    EndPast(s, "\n" + u, START);
    SplitAtEnd(t, 1);
    assert t[..|s|] == s && t[|s|..] == "\n" + u;
    LeadingNewline(u);
    TrimOf("", s, "");
  }

  lemma NoDocs()
    ensures Trimmed(Docs("")) == []
  {
    TrimBlank("");
  }

  lemma SplitOne(s: string)
    requires Closed(s) || Open(s)
    ensures Trimmed(Docs(s)) == [s]
  {
    hide EndAt, Docs, Trim;
    TrimOf("", s, "");
    SplitAtEnd(s, 1);
    if Closed(s) {
      NoDocs();
      assert s[..|s|] == s && s[|s|..] == "";
    } else {
      assert [s][1..] == [];
    }
  }

  lemma {:induction false} SplitJoined(ss: seq<string>)
    requires Rejoinable(ss)
    ensures Trimmed(Docs(Join(ss, "\n"))) == ss
  {
    hide EndAt, Docs, Trim;
    if ss == [] {
      NoDocs();
    } else if |ss| == 1 {
      SplitOne(ss[0]);
    } else {
      SplitJoined(ss[1..]);
      assert ss[0] + "\n" + Join(ss[1..], "\n") == ss[0] + ("\n" + Join(ss[1..], "\n"));
      SplitFirst(ss[0], Join(ss[1..], "\n"));
    }
  }

  /** The documents of any text, one after the other, split back to the same list, and each of them
      alone is itself. */
  lemma SplitRoundTrip(text: string)
    ensures
      var ss := Sqls(Split(text, 1));
      && Sqls(Split(Join(ss, "\n"), 1)) == ss
      && (forall i :: 0 <= i < |ss| ==> Sqls(Split(ss[i], 1)) == [ss[i]])
  {
    hide Docs, Split, Closed, Open;
    var ss := Sqls(Split(text, 1));
    StatementsAreDocs(text, 1);
    DocsRejoinable(text);
    SplitJoined(ss);
    StatementsAreDocs(Join(ss, "\n"), 1);
    forall i | 0 <= i < |ss| ensures Sqls(Split(ss[i], 1)) == [ss[i]] {
      SplitJoined([ss[i]]);
      StatementsAreDocs(ss[i], 1);
    }
  }

  lemma {:induction false} SpansRunForward(t: string, line: nat)
    ensures Ordered(Split(t, line), line, line + Newlines(t))
    decreases |t|
  {
    hide Newlines, Ordered, Split, EndAt, Kept;
    var k := EndAt(t, START);
    SplitAtEnd(t, line);
    if k == |t| {
      KeptOrdered(t, line);
    } else {
      var next := line + Newlines(t[..k + 1]);
      KeptOrdered(t[..k + 1], line);
      SpansRunForward(t[k + 1..], next);
      NewlinesConcat(t[..k + 1], t[k + 1..]);
      assert t == t[..k + 1] + t[k + 1..];
      OrderedConcat(Kept(t[..k + 1], line), Split(t[k + 1..], next), line, next, line + Newlines(t));
    }
  }

  // ── where each document stands ─────────────────────────────────────────────

  /** `s` is what stands at `o`, on the lines it names: up to the brace before `e` that ends it, or, if it
      is the remainder, up to blanks before the end. */
  ghost predicate StandsAt(t: string, line: nat, s: Statement, o: nat, e: nat) {
    && o + |s.sql| <= e <= |t| && s.sql != "" && t[o..o + |s.sql|] == s.sql
    && ((o + |s.sql| == e && Ends(Read(START, t[..e - 1]), t[e - 1])) || (e == |t| && Blank(t[o + |s.sql|..])))
    && s.sline == line + Newlines(t[..o]) && s.eline == line + Newlines(t[..e])
  }

  /** Every document names the line its text begins on and the line of the brace that ends it. */
  lemma {:induction false} LinesAreRight(t: string, line: nat, i: nat)
    requires i < |Split(t, line)|
    ensures exists o: nat, e: nat :: StandsAt(t, line, Split(t, line)[i], o, e)
    decreases |t|
  {
    hide Newlines, Read, EndAt, Split, Kept, StandsAt, Docs;
    var k := EndAt(t, START);
    SplitAtEnd(t, line);
    if k == |t| {
      RemainderStands(t, line);
      assert StandsAt(t, line, Split(t, line)[i], Margin(t), |t|);
    } else {
      var first := Kept(t[..k + 1], line);
      DocStands(t, line, k);
      if i < |first| {
        assert Split(t, line)[i] == first[i];
        assert StandsAt(t, line, first[i], Margin(t[..k + 1]), k + 1);
      } else {
        var rest, next := t[k + 1..], line + Newlines(t[..k + 1]);
        LinesAreRight(rest, next, i - |first|);
        var s := Split(rest, next)[i - |first|];
        var o: nat, e: nat :| StandsAt(rest, next, s, o, e);
        StandsFurther(t, line, k, s, o, e);
        assert Split(t, line)[i] == s;
        assert StandsAt(t, line, s, o + k + 1, e + k + 1);
      }
    }
  }

  lemma RemainderStands(t: string, line: nat)
    ensures |Kept(t, line)| <= 1
    ensures forall i :: 0 <= i < |Kept(t, line)| ==> StandsAt(t, line, Kept(t, line)[i], Margin(t), |t|)
  {
    hide Newlines, Ends, Read, Trim, Margin;
    TrimCuts(t);
    assert t[..|t|] == t && t[Margin(t) + |Trim(t)|..|t|] == t[Margin(t) + |Trim(t)|..];
  }

  lemma DocStands(t: string, line: nat, k: nat)
    requires k == EndAt(t, START) < |t|
    ensures
      var first := Kept(t[..k + 1], line);
      |first| <= 1 && forall i :: 0 <= i < |first| ==> StandsAt(t, line, first[i], Margin(t[..k + 1]), k + 1)
  {
    hide Newlines, Read, Trim, Margin, EndAt;
    var doc := t[..k + 1];
    var a, n := Margin(doc), |Trim(doc)|;
    EndIsFirst(t, START);
    TrimCuts(doc);
    SolidEnd(doc);
    assert doc[..a] == t[..a] && doc[a..a + n] == t[a..a + n];
  }

  lemma StandsFurther(t: string, line: nat, k: nat, s: Statement, o: nat, e: nat)
    requires k == EndAt(t, START) < |t| && StandsAt(t[k + 1..], line + Newlines(t[..k + 1]), s, o, e)
    ensures StandsAt(t, line, s, o + k + 1, e + k + 1)
  {
    hide Newlines, Read, EndAt, Ends;
    var rest, n := t[k + 1..], |s.sql|;
    EndIsFirst(t, START);
    LinesBeyond(t, k, o);
    LinesBeyond(t, k, e);
    AfterEnd(t, k, e + k);
    assert t[o + k + 1..o + k + 1 + n] == rest[o..o + n] && t[o + k + 1 + n..] == rest[o + n..];
    assert rest[..e + k - k - 1] == rest[..e - 1] && t[..e + k + 1 - 1] == t[..e + k];
  }

  lemma LinesBeyond(t: string, k: nat, o: nat)
    requires k < |t| && o <= |t[k + 1..]|
    ensures Newlines(t[..o + k + 1]) == Newlines(t[..k + 1]) + Newlines(t[k + 1..][..o])
  {
    NewlinesConcat(t[..k + 1], t[k + 1..][..o]);
    assert t[..o + k + 1] == t[..k + 1] + t[k + 1..][..o];
  }

  /** Position `i` is in the text of document `k`, which stands at `o`. */
  ghost predicate Within(t: string, line: nat, i: nat, k: nat, o: nat, e: nat) {
    && k < |Split(t, line)| && StandsAt(t, line, Split(t, line)[k], o, e)
    && o <= i < o + |Split(t, line)[k].sql|
  }

  lemma WithinRemainder(t: string, line: nat, i: nat)
    requires EndAt(t, START) == |t| && i < |t| && !IsSpace(t[i])
    ensures Within(t, line, i, 0, Margin(t), |t|)
  {
    SplitAtEnd(t, line);
    InkIsTrimmedTo(t, i);
    RemainderStands(t, line);
    hide Newlines, EndAt, Split, StandsAt, Docs, Trim, Margin;
    assert Kept(t, line)[0].sql == Trim(t) && |Kept(t, line)| == 1;
  }

  lemma WithinFirst(t: string, line: nat, i: nat)
    requires i <= EndAt(t, START) < |t| && !IsSpace(t[i])
    ensures Within(t, line, i, 0, Margin(t[..EndAt(t, START) + 1]), EndAt(t, START) + 1)
  {
    hide Newlines, EndAt, Split, StandsAt, Docs, Trim, Margin, Read;
    var c := EndAt(t, START);
    var first := t[..c + 1];
    assert first[i] == t[i];
    SplitAtEnd(t, line);
    hide IsSpace;
    InkIsTrimmedTo(first, i);
    DocStands(t, line, c);
    KeptInk(first, line);
    assert Split(t, line)[0] == Kept(first, line)[0];
  }

  lemma KeptInk(s: string, line: nat)
    requires Trim(s) != ""
    ensures |Kept(s, line)| == 1 && Kept(s, line)[0].sql == Trim(s)
  {
    hide Trim, Newlines, Margin;
  }

  lemma WithinRest(t: string, line: nat, i: nat, k: nat, o: nat, e: nat)
    requires
      var c := EndAt(t, START);
      c < i < |t| && Within(t[c + 1..], line + Newlines(t[..c + 1]), i - c - 1, k, o, e)
    ensures
      var c := EndAt(t, START);
      Within(t, line, i, k + |Kept(t[..c + 1], line)|, o + c + 1, e + c + 1)
  {
    hide Newlines, Read, EndAt, Split, Kept, StandsAt, Docs;
    var c := EndAt(t, START);
    SplitAtEnd(t, line);
    var first, later := Kept(t[..c + 1], line), Split(t[c + 1..], line + Newlines(t[..c + 1]));
    StandsFurther(t, line, c, later[k], o, e);
    assert (first + later)[k + |first|] == later[k];
  }

  /** Every character that is no blank is part of a document or of the remainder: nothing written is lost. */
  lemma {:induction false} NothingIsLost(t: string, line: nat, i: nat) returns (k: nat, o: nat, e: nat)
    requires i < |t| && !IsSpace(t[i])
    ensures Within(t, line, i, k, o, e)
    decreases |t|
  {
    hide Newlines, Read, EndAt, Split, Kept, StandsAt, Docs, Margin, Within, IsSpace;
    var c := EndAt(t, START);
    if c == |t| {
      WithinRemainder(t, line, i);
      k, o, e := 0, Margin(t), |t|;
    } else if i <= c {
      WithinFirst(t, line, i);
      k, o, e := 0, Margin(t[..c + 1]), c + 1;
    } else {
      k, o, e := NothingIsLost(t[c + 1..], line + Newlines(t[..c + 1]), i - c - 1);
      WithinRest(t, line, i, k, o, e);
      k, o, e := k + |Kept(t[..c + 1], line)|, o + c + 1, e + c + 1;
    }
  }
}
