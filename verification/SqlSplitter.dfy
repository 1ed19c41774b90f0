/** `split_statements` (`ui/editor.lua`): a five-flag lexer that looks one character ahead, against a
    reference lexer that never does. */
module SqlSplitter {
  import opened Wrappers
  import opened LuaText
  import opened Statements

  // ── the reference lexer ────────────────────────────────────────────────────

  /** Where a character stands: in code, in code after `-` or `/`, in a quoted string, in a comment, or
      in a block comment after `*`. */
  datatype Mode = Code | Dash | Slash | Single | Double | Back | LineC | BlockC | Star

  predicate InCode(q: Mode) {
    q.Code? || q.Dash? || q.Slash?
  }

  function Next(q: Mode, c: char): Mode {
    match q
    case Single => if c == '\'' then Code else Single
    case Double => if c == '"' then Code else Double
    case Back => if c == '`' then Code else Back
    case LineC => if c == '\n' then Code else LineC
    case BlockC => if c == '*' then Star else BlockC
    case Star => if c == '/' then Code else if c == '*' then Star else BlockC
    case _ =>
      if q.Dash? && c == '-' then LineC
      else if q.Slash? && c == '*' then BlockC
      else match c
           case '\'' => Single
           case '"' => Double
           case '`' => Back
           case '-' => Dash
           case '/' => Slash
           case _ => Code
  }

  /** The mode after reading all of `t`. */
  function Read(q: Mode, t: string): Mode
    decreases |t|
  {
    if t == "" then q else Read(Next(q, t[0]), t[1..])
  }

  predicate IsCut(q: Mode, c: char) {
    InCode(q) && c == ';'
  }

  /** How far it is to the first semicolon in code. */
  function CutAt(t: string, q: Mode): (k: nat)
    ensures k <= |t|
  {
    if t == "" || IsCut(q, t[0]) then 0 else 1 + CutAt(t[1..], Next(q, t[0]))
  }

  /** The pieces between the semicolons. */
  function Pieces(t: string): (ps: seq<string>)
    ensures ps != []
    decreases |t|
  {
    var k := CutAt(t, Code);
    if k == |t| then [t] else [t[..k]] + Pieces(t[k + 1..])
  }

  /** The statements of `t`, which starts on `line`. */
  function Split(t: string, line: nat): seq<Statement>
    decreases |t|
  {
    var k := CutAt(t, Code);
    Kept(t[..k], line) + if k == |t| then [] else Split(t[k + 1..], line + Newlines(t[..k]))
  }

  // ── the lexer of the editor ────────────────────────────────────────────────

  ghost predicate Flags(q: Mode, sq: bool, dq: bool, bq: bool, lc: bool, bc: bool) {
    sq == q.Single? && dq == q.Double? && bq == q.Back? && lc == q.LineC? && bc == (q.BlockC? || q.Star?)
  }

  /** Looking ahead has already ruled out that `-`, `/` or `*` begins or ends a comment. */
  ghost predicate Settled(q: Mode, rest: string) {
    rest != "" ==> (q.Dash? ==> rest[0] != '-') && (q.Slash? ==> rest[0] != '*') && (q.Star? ==> rest[0] != '/')
  }

  /** `stmts` are the statements before position `a`, where the current segment begins on line `from`;
      the lexer has read on to `i` without meeting a cut. */
  ghost predicate Halfway(t: string, stmts: seq<Statement>, seg: string, segStart: Option<nat>, line: nat,
                          a: nat, from: nat, i: nat, q: Mode) {
    && a <= i <= |t| && seg == t[a..i] && Collected(seg, segStart, line, from)
    && stmts + Split(t[a..], from) == Split(t, 1)
    && CutAt(t[a..], Code) == (i - a) + CutAt(t[i..], q)
  }

  lemma OneOn(t: string, stmts: seq<Statement>, seg: string, segStart: Option<nat>, line: nat,
              a: nat, from: nat, i: nat, q: Mode)
    requires Halfway(t, stmts, seg, segStart, line, a, from, i, q) && i < |t| && !IsCut(q, t[i])
    ensures Halfway(t, stmts, seg + [t[i]], if segStart.None? && !IsSpace(t[i]) then Some(line) else segStart,
                    Below(line, t[i]), a, from, i + 1, Next(q, t[i]))
  {
    hide Collected, Split;
    CollectOne(seg, segStart, line, from, t[i]);
    assert t[i..][1..] == t[i + 1..];
  }

  lemma CutHere(t: string, stmts: seq<Statement>, seg: string, segStart: Option<nat>, line: nat,
                a: nat, from: nat, i: nat, q: Mode)
    requires Halfway(t, stmts, seg, segStart, line, a, from, i, q) && i < |t| && IsCut(q, t[i])
    ensures Halfway(t, stmts + Flushed(seg, segStart, line), "", None, line, i + 1, line, i + 1, Code)
  {
    hide Kept, Newlines, Split, Flushed;
    FlushKeeps(seg, segStart, line, from);
    assert t[a..][..i - a] == t[a..i] && t[a..][i - a + 1..] == t[i + 1..];
    SplitAtCut(t[a..], from);
    assert CutAt(t[a..], Code) == i - a;
    assert stmts + (Kept(seg, from) + Split(t[i + 1..], line)) == (stmts + Kept(seg, from)) + Split(t[i + 1..], line);
  }

  lemma SplitAtCut(t: string, line: nat)
    ensures
      var k := CutAt(t, Code);
      Split(t, line) == if k == |t| then Kept(t, line) else
        Kept(t[..k], line) + Split(t[k + 1..], line + Newlines(t[..k]))
  {
    hide Kept, Newlines, CutAt;
    assert t[..|t|] == t;
  }

  lemma LastPiece(t: string, stmts: seq<Statement>, seg: string, segStart: Option<nat>, line: nat,
                  a: nat, from: nat, q: Mode)
    requires Halfway(t, stmts, seg, segStart, line, a, from, |t|, q)
    ensures stmts + Flushed(seg, segStart, line) == Split(t, 1)
  {
    hide Kept, Split, Flushed;
    FlushKeeps(seg, segStart, line, from);
    SplitAtCut(t[a..], from);
    assert t[a..] == seg;
  }

  method SplitStatements(text: string) returns (stmts: seq<Statement>)
    ensures stmts == Split(text, 1)
  {
    hide Halfway, Split, Flushed;
    var c := new Collector();
    var sq, dq, bq, lc, bc := false, false, false, false, false;
    var i := 0;
    ghost var a, from, q := 0, 1, Code;
    Begin(text);
    while i < |text|
      invariant i <= |text| && Halfway(text, c.stmts, c.seg, c.segStart, c.line, a, from, i, q)
      invariant Flags(q, sq, dq, bq, lc, bc) && Settled(q, text[i..])
    {
      var ch := text[i];
      var nx := if i + 1 < |text| then [text[i + 1]] else "";
      if IsCut(q, ch) {
        CutHere(text, c.stmts, c.seg, c.segStart, c.line, a, from, i, q);
        a, from := i + 1, c.line;
      } else {
        OneOn(text, c.stmts, c.seg, c.segStart, c.line, a, from, i, q);
      }
      q := Next(q, ch);
      if lc {
        c.Push(ch);
        if ch == '\n' {
          lc := false;
        }
      } else if bc {
        c.Push(ch);
        if ch == '*' && nx == "/" {
          OneOn(text, c.stmts, c.seg, c.segStart, c.line, a, from, i + 1, q);
          q := Next(q, '/');
          c.Push(nx[0]);
          i := i + 1;
          bc := false;
        }
      } else if sq {
        c.Push(ch);
        if ch == '\'' {
          sq := false;
        }
      } else if dq {
        c.Push(ch);
        if ch == '"' {
          dq := false;
        }
      } else if bq {
        c.Push(ch);
        if ch == '`' {
          bq := false;
        }
      } else if ch == '-' && nx == "-" {
        c.Push(ch);
        OneOn(text, c.stmts, c.seg, c.segStart, c.line, a, from, i + 1, q);
        q := Next(q, '-');
        c.Push(nx[0]);
        i := i + 1;
        lc := true;
      } else if ch == '/' && nx == "*" {
        c.Push(ch);
        OneOn(text, c.stmts, c.seg, c.segStart, c.line, a, from, i + 1, q);
        q := Next(q, '*');
        c.Push(nx[0]);
        i := i + 1;
        bc := true;
      } else if ch == '\'' {
        c.Push(ch);
        sq := true;
      } else if ch == '"' {
        c.Push(ch);
        dq := true;
      } else if ch == '`' {
        c.Push(ch);
        bq := true;
      } else if ch == ';' {
        c.Flush(c.line);
      } else {
        c.Push(ch);
      }
      if ch == '\n' {
        c.line := c.line + 1;
      }
      i := i + 1;
    }
    LastPiece(text, c.stmts, c.seg, c.segStart, c.line, a, from, q);
    c.Flush(c.line);
    return c.stmts;
  }

  lemma Begin(t: string)
    ensures Halfway(t, [], "", None, 1, 0, 1, 0, Code)
  {
    assert t[0..] == t;
  }

  // ── where the cuts are ─────────────────────────────────────────────────────

  lemma {:induction false} ReadConcat(q: Mode, a: string, b: string)
    ensures Read(q, a + b) == Read(Read(q, a), b)
    decreases |a|
  {
    if a == "" {
      assert a + b == b;
    } else {
      assert (a + b)[1..] == a[1..] + b;
      ReadConcat(Next(q, a[0]), a[1..], b);
    }
  }

  /** `CutAt` finds the first cut there is. */
  lemma {:induction false} CutIsFirst(t: string, q: Mode)
    ensures CutAt(t, q) < |t| ==> IsCut(Read(q, t[..CutAt(t, q)]), t[CutAt(t, q)])
    ensures forall i :: 0 <= i < CutAt(t, q) ==> !IsCut(Read(q, t[..i]), t[i])
  {
    if t != "" && !IsCut(q, t[0]) {
      CutIsFirst(t[1..], Next(q, t[0]));
      forall i | 0 < i < |t| ensures Read(q, t[..i]) == Read(Next(q, t[0]), t[1..][..i - 1]) {
        assert t[..i][1..] == t[1..][..i - 1];
      }
    }
  }

  lemma NoCut(t: string, q: Mode)
    requires forall i :: 0 <= i < |t| ==> !IsCut(Read(q, t[..i]), t[i])
    ensures CutAt(t, q) == |t|
  {
    CutIsFirst(t, q);
  }

  /** Position `i` of the joined pieces is a separator. */
  predicate Boundary(ps: seq<string>, i: nat) {
    |ps| > 1 && (i == |ps[0]| || (i > |ps[0]| && Boundary(ps[1..], i - |ps[0]| - 1)))
  }

  /** Nothing is lost but the semicolons cut at. */
  lemma {:induction false} PiecesRejoin(t: string)
    ensures Join(Pieces(t), ";") == t
    decreases |t|
  {
    var k := CutAt(t, Code);
    if k < |t| {
      CutIsFirst(t, Code);
      PiecesRejoin(t[k + 1..]);
      assert Pieces(t)[1..] == Pieces(t[k + 1..]);
      assert t == t[..k] + ";" + t[k + 1..];
    }
  }

  lemma ReadOne(q: Mode, c: char, t: string)
    ensures Read(q, [c] + t) == Read(Next(q, c), t)
  {
    assert ([c] + t)[1..] == t;
  }

  lemma CutSlices(t: string, k: nat, i: nat)
    requires k < i <= |t|
    ensures t[..i] == t[..k] + ([t[k]] + t[k + 1..][..i - k - 1])
  {
  }

  lemma AfterCut(t: string, k: nat, i: nat)
    requires k < i <= |t| && IsCut(Read(Code, t[..k]), t[k])
    ensures Read(Code, t[..i]) == Read(Code, t[k + 1..][..i - k - 1])
  {
    hide Read;
    var tail := t[k + 1..][..i - k - 1];
    CutSlices(t, k, i);
    ReadConcat(Code, t[..k], [t[k]] + tail);
    ReadOne(Read(Code, t[..k]), t[k], tail);
  }

  /** The cuts are exactly the semicolons that the reference lexer, reading the whole text from its
      start, finds outside quotes and comments. */
  lemma {:induction false} CutsAreSemicolonsInCode(t: string, i: nat)
    requires i < |t|
    ensures Boundary(Pieces(t), i) <==> t[i] == ';' && InCode(Read(Code, t[..i]))
    decreases |t|
  {
    var k := CutAt(t, Code);
    CutIsFirst(t, Code);
    PiecesAtCut(t);
    hide CutAt, Pieces, Read, InCode;
    if k < |t| && i > k {
      AfterCut(t, k, i);
      CutsAreSemicolonsInCode(t[k + 1..], i - k - 1);
    }
  }

  // ── quoted text and comments ───────────────────────────────────────────────

  /** What the lexer is to read over: quoted text, in which the quote is written twice, and comments. */
  datatype Literal = Quoted(mark: char, body: string) | Line(body: string) | Block(body: string)

  function Doubled(u: string, mark: char): string {
    if u == "" then "" else (if u[0] == mark then [mark, mark] else [u[0]]) + Doubled(u[1..], mark)
  }

  function Spelt(l: Literal): string {
    match l
    case Quoted(mark, u) => [mark] + (Doubled(u, mark) + [mark])
    case Line(u) => "--" + (u + "\n")
    case Block(u) => "/*" + (u + "*/")
  }

  predicate Fits(l: Literal) {
    match l
    case Quoted(mark, _) => mark == '\'' || mark == '"' || mark == '`'
    case Line(u) => '\n' !in u
    case Block(u) => forall i :: 0 <= i < |u| - 1 && u[i] == '*' ==> u[i + 1] != '/'
  }

  /** `t` is read over from `q` to `to` without a cut. */
  ghost predicate Over(q: Mode, t: string, to: Mode) {
    Read(q, t) == to && CutAt(t, q) == |t|
  }

  lemma OverOne(q: Mode, c: char, t: string, to: Mode)
    requires !IsCut(q, c) && Over(Next(q, c), t, to)
    ensures Over(q, [c] + t, to)
  {
    assert ([c] + t)[1..] == t;
  }

  lemma OverNothing(q: Mode)
    ensures Over(q, "", q)
  {
  }

  lemma {:induction false} OverQuoted(q: Mode, u: string, mark: char)
    requires Fits(Quoted(mark, u)) && q == Next(Code, mark)
    ensures Over(q, Doubled(u, mark) + [mark], Code)
  {
    hide Over;
    if u == "" {
      OverNothing(Code);
      OverOne(q, mark, "", Code);
      assert Doubled(u, mark) + [mark] == [mark] + "";
    } else {
      var rest := Doubled(u[1..], mark) + [mark];
      OverQuoted(q, u[1..], mark);
      if u[0] == mark {
        OverOne(Code, mark, rest, Code);
        OverOne(q, mark, [mark] + rest, Code);
        assert Doubled(u, mark) + [mark] == [mark] + ([mark] + rest);
      } else {
        OverOne(q, u[0], rest, Code);
        assert Doubled(u, mark) + [mark] == [u[0]] + rest;
      }
    }
  }

  lemma {:induction false} OverLine(u: string)
    requires '\n' !in u
    ensures Over(LineC, u + "\n", Code)
  {
    hide Over;
    if u == "" {
      OverNothing(Code);
      OverOne(LineC, '\n', "", Code);
      assert u + "\n" == ['\n'] + "";
    } else {
      OverLine(u[1..]);
      OverOne(LineC, u[0], u[1..] + "\n", Code);
      assert u + "\n" == [u[0]] + (u[1..] + "\n");
    }
  }

  lemma {:induction false} OverBlock(q: Mode, u: string)
    requires Fits(Block(u)) && (q == BlockC || (q == Star && (u != "" ==> u[0] != '/')))
    ensures Over(q, u + "*/", Code)
    decreases |u|
  {
    hide Over;
    if u == "" {
      OverNothing(Code);
      OverOne(Star, '/', "", Code);
      assert "/" == ['/'] + "" && u + "*/" == ['*'] + "/";
      OverOne(q, '*', "/", Code);
    } else {
      assert u[0] == '*' && |u| > 1 ==> u[1] != '/';
      OverBlock(Next(q, u[0]), u[1..]);
      OverOne(q, u[0], u[1..] + "*/", Code);
      assert u + "*/" == [u[0]] + (u[1..] + "*/");
    }
  }

  lemma OverLiteral(q: Mode, l: Literal)
    requires InCode(q) && Fits(l)
    ensures Over(q, Spelt(l), Code)
  {
    hide Over, Doubled;
    match l
    case Quoted(mark, u) =>
      OverQuoted(Next(q, mark), u, mark);
      OverOne(q, mark, Doubled(u, mark) + [mark], Code);
    case Line(u) =>
      OverLine(u);
      if q.Dash? {
        OverOne(LineC, '-', u + "\n", Code);
        OverOne(q, '-', ['-'] + (u + "\n"), Code);
      } else {
        OverOne(Dash, '-', u + "\n", Code);
        OverOne(q, '-', ['-'] + (u + "\n"), Code);
      }
      assert Spelt(l) == ['-'] + (['-'] + (u + "\n"));
    case Block(u) =>
      OverBlock(BlockC, u);
      OverOne(Slash, '*', u + "*/", Code);
      OverOne(q, '/', ['*'] + (u + "*/"), Code);
      assert Spelt(l) == ['/'] + (['*'] + (u + "*/"));
  }

  /** A literal that begins in code is read over: no statement ends inside it, whatever it holds, those
      before it end where they end without what follows, and behind it all is as at the start of a text. */
  lemma LiteralsAreOpaque(a: string, l: Literal, b: string, i: nat)
    requires InCode(Read(Code, a)) && Fits(l) && i < |a + Spelt(l) + b|
    ensures
      var ps, n := Pieces(a + Spelt(l) + b), |Spelt(l)|;
      Boundary(ps, i) <==>
        if i < |a| then Boundary(Pieces(a), i) else i >= |a| + n && Boundary(Pieces(b), i - |a| - n)
  {
    hide Read, Pieces, Boundary, Spelt, Fits, InCode;
    var t, n := a + Spelt(l) + b, |Spelt(l)|;
    CutsAreSemicolonsInCode(t, i);
    OverLiteral(Read(Code, a), l);
    if i < |a| {
      CutsAreSemicolonsInCode(a, i);
      assert t[..i] == a[..i] && t[i] == a[i];
    } else if i < |a| + n {
      CutIsFirst(Spelt(l), Read(Code, a));
      ReadConcat(Code, a, Spelt(l)[..i - |a|]);
      assert t[..i] == a + Spelt(l)[..i - |a|] && t[i] == Spelt(l)[i - |a|];
    } else {
      var tail := b[..i - |a| - n];
      CutsAreSemicolonsInCode(b, i - |a| - n);
      ReadConcat(Code, a, Spelt(l) + tail);
      ReadConcat(Read(Code, a), Spelt(l), tail);
      assert t[..i] == a + (Spelt(l) + tail) && t[i] == b[i - |a| - n];
    }
  }

  // ── splitting what was split ───────────────────────────────────────────────

  lemma {:induction false} StatementsArePieces(t: string, line: nat)
    ensures Sqls(Split(t, line)) == Trimmed(Pieces(t))
    decreases |t|
  {
    hide Newlines, Split, CutAt, Pieces, Kept, Trim;
    var k := CutAt(t, Code);
    SplitAtCut(t, line);
    PiecesAtCut(t);
    SqlsOfKept(t[..k], line);
    if k < |t| {
      var rest := Split(t[k + 1..], line + Newlines(t[..k]));
      StatementsArePieces(t[k + 1..], line + Newlines(t[..k]));
      SqlsConcat(Kept(t[..k], line), rest);
    } else {
      assert t[..k] == t;
    }
  }

  lemma PiecesAtCut(t: string)
    ensures
      var k := CutAt(t, Code);
      && (k == |t| ==> Pieces(t) == [t])
      && (k < |t| ==>
            && Pieces(t) == [t[..k]] + Pieces(t[k + 1..])
            && Pieces(t)[0] == t[..k] && Pieces(t)[1..] == Pieces(t[k + 1..]))
  {
    hide CutAt;
  }

  /** A statement as it comes out: tight, and one piece. */
  ghost predicate Whole(s: string) {
    Tight(s) && CutAt(s, Code) == |s|
  }

  /** A newline after `s` leads back to code. */
  ghost predicate Closes(s: string) {
    InCode(Next(Read(Code, s), '\n'))
  }

  ghost predicate Rejoinable(ss: seq<string>) {
    && (forall i :: 0 <= i < |ss| ==> Whole(ss[i]))
    && (forall i :: 0 <= i < |ss| - 1 ==> Closes(ss[i]))
  }

  lemma {:induction false} BlanksInCode(w: string)
    requires Blank(w)
    ensures Read(Code, w) == Code
  {
    if w != "" {
      BlanksInCode(w[1..]);
    }
  }

  /** Blanks lead into code only from code or from a line comment. */
  lemma {:induction false} BlanksIntoCode(q: Mode, w: string)
    requires Blank(w) && InCode(Read(q, w))
    ensures InCode(Next(q, '\n'))
    decreases |w|
  {
    if w != "" {
      BlanksIntoCode(Next(q, w[0]), w[1..]);
    }
  }

  lemma TrimmedPiece(p: string)
    requires CutAt(p, Code) == |p| && Trim(p) != ""
    ensures Whole(Trim(p)) && (InCode(Read(Code, p)) ==> Closes(Trim(p)))
  {
    hide Read, CutAt, Trim, Margin;
    TrimCuts(p);
    var s, a := Trim(p), Margin(p);
    var u, w := p[..a], p[a + |s|..];
    assert p == u + (s + w);
    Uncut(u, s, w);
    if InCode(Read(Code, p)) {
      BackInCode(u, s, w);
    }
  }

  lemma Uncut(u: string, s: string, w: string)
    requires Blank(u) && CutAt(u + (s + w), Code) == |u + (s + w)|
    ensures CutAt(s, Code) == |s|
  {
    hide Read, CutAt, IsCut;
    var p := u + (s + w);
    CutIsFirst(p, Code);
    BlanksInCode(u);
    forall j | 0 <= j < |s| ensures !IsCut(Read(Code, s[..j]), s[j]) {
      ReadConcat(Code, u, s[..j]);
      assert p[..|u| + j] == u + s[..j];
      assert p[|u| + j] == s[j];
    }
    NoCut(s, Code);
  }

  lemma BackInCode(u: string, s: string, w: string)
    requires Blank(u) && Blank(w) && InCode(Read(Code, u + (s + w)))
    ensures Closes(s)
  {
    hide Read, InCode;
    BlanksInCode(u);
    ReadConcat(Code, u, s + w);
    ReadConcat(Code, s, w);
    BlanksIntoCode(Read(Code, s), w);
  }

  lemma {:induction false} PiecesRejoinable(t: string)
    ensures Rejoinable(Trimmed(Pieces(t)))
    decreases |t|
  {
    hide Whole, Closes;
    var k := CutAt(t, Code);
    CutIsFirst(t, Code);
    if k == |t| {
      if Trim(t) != "" {
        TrimmedPiece(t);
      }
    } else {
      NoCutBefore(t, k);
      if Trim(t[..k]) != "" {
        TrimmedPiece(t[..k]);
      }
      PiecesRejoinable(t[k + 1..]);
      assert Pieces(t)[1..] == Pieces(t[k + 1..]);
    }
  }

  lemma NoCutBefore(t: string, k: nat)
    requires k == CutAt(t, Code)
    ensures CutAt(t[..k], Code) == k
  {
    CutIsFirst(t, Code);
    assert forall i :: 0 <= i < k ==> t[..k][..i] == t[..i];
    NoCut(t[..k], Code);
  }

  lemma {:induction false} CutPast(a: string, b: string, q: Mode)
    requires CutAt(a, q) == |a|
    ensures CutAt(a + b, q) == |a| + CutAt(b, Read(q, a))
    decreases |a|
  {
    if a == "" {
      assert a + b == b;
    } else {
      assert (a + b)[1..] == a[1..] + b;
      CutPast(a[1..], b, Next(q, a[0]));
    }
  }

  lemma LeadingNewline(u: string)
    ensures Trimmed(Pieces("\n" + u)) == Trimmed(Pieces(u))
  {
    hide Pieces, Trim;
    var t, k := "\n" + u, CutAt(u, Code);
    assert t[1..] == u;
    assert CutAt(t, Code) == k + 1;
    hide CutAt;
    PiecesAtCut(t);
    PiecesAtCut(u);
    TrimAfterNewline(u[..k]);
    assert t[..k + 1] == "\n" + u[..k];
    if k < |u| {
      assert t[k + 2..] == u[k + 1..];
    } else {
      assert u[..k] == u && t[..k + 1] == t;
    }
  }

  const SEPARATOR := "\n;\n"

  lemma {:induction false} SplitJoined(ss: seq<string>)
    requires Rejoinable(ss)
    ensures Trimmed(Pieces(Join(ss, SEPARATOR))) == ss
  {
    hide CutAt, Pieces, Trim, Closes;
    if ss == [] {
      TrimBlank("");
      PiecesAtCut("");
    } else if |ss| == 1 {
      TrimOf("", ss[0], "");
      PiecesAtCut(ss[0]);
      assert Pieces(ss[0])[1..] == [];
    } else {
      SplitJoined(ss[1..]);
      SplitFirst(ss[0], Join(ss[1..], SEPARATOR));
    }
  }

  lemma SplitFirst(s: string, u: string)
    requires Whole(s) && Closes(s)
    ensures Trimmed(Pieces(s + SEPARATOR + u)) == [s] + Trimmed(Pieces(u))
  {
    hide CutAt, Pieces, Trim, Closes;
    var t := s + ("\n;" + ("\n" + u));
    assert s + SEPARATOR + u == t;
    LeadingNewline(u);
    TrimOf("", s, "\n");
    CutAfterNewline(s, "\n" + u);
    assert t[..|s| + 1] == s + "\n" && t[|s| + 2..] == "\n" + u;
    PiecesAtCut(t);
  }

  lemma CutAfterNewline(s: string, rest: string)
    requires Whole(s) && Closes(s)
    ensures CutAt(s + ("\n;" + rest), Code) == |s| + 1
  {
    CutPast(s, "\n;" + rest, Code);
    assert ("\n;" + rest)[1..][0] == ';';
  }

  /** The statements of any text, joined by semicolons on lines of their own, split back to the same
      list, and each of them alone is itself: also the ones that ended in a line comment. */
  lemma SplitRoundTrip(text: string)
    ensures
      var ss := Sqls(Split(text, 1));
      && Sqls(Split(Join(ss, SEPARATOR), 1)) == ss
      && (forall i :: 0 <= i < |ss| ==> Sqls(Split(ss[i], 1)) == [ss[i]])
  {
    hide Split, Pieces, Trimmed, Whole, Closes, Sqls;
    var ss := Sqls(Split(text, 1));
    StatementsArePieces(text, 1);
    PiecesRejoinable(text);
    SplitJoined(ss);
    StatementsArePieces(Join(ss, SEPARATOR), 1);
    forall i | 0 <= i < |ss| ensures Sqls(Split(ss[i], 1)) == [ss[i]] {
      SplitJoined([ss[i]]);
      StatementsArePieces(ss[i], 1);
    }
  }

  // ── lines ──────────────────────────────────────────────────────────────────

  lemma {:induction false} SpansRunForward(t: string, line: nat)
    ensures Ordered(Split(t, line), line, line + Newlines(t))
    decreases |t|
  {
    hide Newlines, Ordered, Split, CutAt, Kept;
    var k := CutAt(t, Code);
    SplitAtCut(t, line);
    if k == |t| {
      KeptOrdered(t, line);
    } else {
      var next := line + Newlines(t[..k]);
      KeptOrdered(t[..k], line);
      SpansRunForward(t[k + 1..], next);
      LinesAcross(t, k);
      OrderedConcat(Kept(t[..k], line), Split(t[k + 1..], next), line, next, line + Newlines(t));
    }
  }

  lemma LinesAcross(t: string, k: nat)
    requires k < |t| && k == CutAt(t, Code)
    ensures Newlines(t) == Newlines(t[..k]) + Newlines(t[k + 1..])
  {
    hide Newlines, Read, CutAt;
    CutIsFirst(t, Code);
    LinesBeyond(t, k, |t| - k - 1);
    assert t[..|t|] == t && t[k + 1..][..|t| - k - 1] == t[k + 1..];
  }

  /** `s` is what stands at `o`, up to blanks before the cut or end at `e`, on the lines it names. */
  ghost predicate StandsAt(t: string, line: nat, s: Statement, o: nat, e: nat) {
    && o + |s.sql| <= e <= |t| && t[o..o + |s.sql|] == s.sql && Blank(t[o + |s.sql|..e])
    && (e < |t| ==> IsCut(Read(Code, t[..e]), t[e]))
    && s.sline == line + Newlines(t[..o]) && s.eline == line + Newlines(t[..e])
  }

  /** Every statement names the line its text begins on and the line of the semicolon that ends it. */
  lemma {:induction false} LinesAreRight(t: string, line: nat, i: nat)
    requires i < |Split(t, line)|
    ensures exists o: nat, e: nat :: StandsAt(t, line, Split(t, line)[i], o, e)
    decreases |t|
  {
    hide Newlines, IsCut, Read, CutAt, Split, Kept, StandsAt;
    var k := CutAt(t, Code);
    CutIsFirst(t, Code);
    SplitAtCut(t, line);
    var first := Kept(t[..k], line);
    assert k == |t| ==> t[..k] == t;
    if i < |first| {
      PieceStands(t, line, k);
      assert Split(t, line)[i] == first[i];
      assert StandsAt(t, line, first[i], Margin(t[..k]), k);
    } else {
      var rest, next := t[k + 1..], line + Newlines(t[..k]);
      LinesAreRight(rest, next, i - |first|);
      var s := Split(rest, next)[i - |first|];
      var o: nat, e: nat :| StandsAt(rest, next, s, o, e);
      StandsFurther(t, line, k, s, o, e);
      assert Split(t, line)[i] == s;
      assert StandsAt(t, line, s, o + k + 1, e + k + 1);
    }
  }

  lemma PieceStands(t: string, line: nat, k: nat)
    requires k <= |t| && (k < |t| ==> IsCut(Read(Code, t[..k]), t[k]))
    ensures |Kept(t[..k], line)| <= 1
    ensures forall i :: 0 <= i < |Kept(t[..k], line)| ==> StandsAt(t, line, Kept(t[..k], line)[i], Margin(t[..k]), k)
  {
    hide Newlines, IsCut, Read, Trim, Margin;
    var a, n := Margin(t[..k]), |Trim(t[..k])|;
    TrimCuts(t[..k]);
    assert t[..k][..a] == t[..a] && t[..k][a..a + n] == t[a..a + n] && t[..k][a + n..] == t[a + n..k];
  }

  lemma StandsFurther(t: string, line: nat, k: nat, s: Statement, o: nat, e: nat)
    requires k < |t| && IsCut(Read(Code, t[..k]), t[k]) && StandsAt(t[k + 1..], line + Newlines(t[..k]), s, o, e)
    ensures StandsAt(t, line, s, o + k + 1, e + k + 1)
  {
    hide Newlines, Read;
    var rest := t[k + 1..];
    AfterCut(t, k, e + k + 1);
    LinesBeyond(t, k, o);
    LinesBeyond(t, k, e);
    assert t[o + k + 1..o + k + 1 + |s.sql|] == rest[o..o + |s.sql|];
    assert t[o + k + 1 + |s.sql|..e + k + 1] == rest[o + |s.sql|..e];
  }

  lemma LinesBeyond(t: string, k: nat, o: nat)
    requires k < |t| && t[k] == ';' && o <= |t[k + 1..]|
    ensures Newlines(t[..o + k + 1]) == Newlines(t[..k]) + Newlines(t[k + 1..][..o])
  {
    var tail := t[k + 1..][..o];
    assert t[..o + k + 1] == t[..k] + ([';'] + tail);
    NewlinesConcat(t[..k], [';'] + tail);
    assert ([';'] + tail)[1..] == tail;
  }

  /** Position `i` is in the text of statement `k`, which stands at `o`. */
  ghost predicate Within(t: string, line: nat, i: nat, k: nat, o: nat, e: nat) {
    && k < |Split(t, line)| && StandsAt(t, line, Split(t, line)[k], o, e)
    && o <= i < o + |Split(t, line)[k].sql|
  }

  lemma WithinFirst(t: string, line: nat, i: nat)
    requires i < CutAt(t, Code) && !IsSpace(t[i])
    ensures Within(t, line, i, 0, Margin(t[..CutAt(t, Code)]), CutAt(t, Code))
  {
    var c := CutAt(t, Code);
    CutIsFirst(t, Code);
    SplitAtCut(t, line);
    assert c == |t| ==> t[..c] == t;
    InkIsTrimmedTo(t[..c], i);
    PieceStands(t, line, c);
    hide Newlines, IsCut, Read, CutAt, Split, StandsAt, Trim, Margin;
    assert Kept(t[..c], line)[0].sql == Trim(t[..c]) && |Kept(t[..c], line)| == 1;
    assert Split(t, line)[0] == Kept(t[..c], line)[0];
  }

  lemma WithinRest(t: string, line: nat, i: nat, k: nat, o: nat, e: nat)
    requires
      var c := CutAt(t, Code);
      c < i < |t| && Within(t[c + 1..], line + Newlines(t[..c]), i - c - 1, k, o, e)
    ensures
      var c := CutAt(t, Code);
      Within(t, line, i, k + |Kept(t[..c], line)|, o + c + 1, e + c + 1)
  {
    hide Newlines, IsCut, Read, CutAt, Split, Kept, StandsAt;
    var c := CutAt(t, Code);
    CutIsFirst(t, Code);
    SplitAtCut(t, line);
    var first, later := Kept(t[..c], line), Split(t[c + 1..], line + Newlines(t[..c]));
    StandsFurther(t, line, c, later[k], o, e);
    assert (first + later)[k + |first|] == later[k];
  }

  lemma StillNoCut(t: string, c: nat, i: nat)
    requires c == CutAt(t, Code) <= i < |t| && !(t[i] == ';' && InCode(Read(Code, t[..i])))
    ensures c < i && t[c + 1..][i - c - 1] == t[i]
    ensures Read(Code, t[c + 1..][..i - c - 1]) == Read(Code, t[..i])
  {
    CutIsFirst(t, Code);
    hide Read, CutAt;
    AfterCut(t, c, i);
  }

  /** Every character that is neither blank nor a cut is part of a statement: nothing written is lost. */
  lemma {:induction false} NothingIsLost(t: string, line: nat, i: nat) returns (k: nat, o: nat, e: nat)
    requires i < |t| && !IsSpace(t[i]) && !(t[i] == ';' && InCode(Read(Code, t[..i])))
    ensures Within(t, line, i, k, o, e)
    decreases |t|
  {
    hide Newlines, Read, CutAt, Split, Kept, StandsAt, Margin, Within, InCode, IsSpace;
    var c := CutAt(t, Code);
    if i < c {
      WithinFirst(t, line, i);
      k, o, e := 0, Margin(t[..c]), c;
    } else {
      StillNoCut(t, c, i);
      k, o, e := NothingIsLost(t[c + 1..], line + Newlines(t[..c]), i - c - 1);
      WithinRest(t, line, i, k, o, e);
      k, o, e := k + |Kept(t[..c], line)|, o + c + 1, e + c + 1;
    }
  }

  /** So the statement under the cursor is the last to start at or before it, unless an earlier one
      reaches down to the line it starts on. */
  lemma CursorPicks(text: string, cursor: nat, k: nat)
    requires Meant(Split(text, 1), cursor, k)
    ensures
      var stmts := Split(text, 1);
      && (forall j :: 0 <= j < |stmts| && stmts[j].sline <= cursor ==>
            stmts[k].sline <= cursor &&
              (stmts[j].sline <= stmts[k].sline || stmts[k].eline == cursor == stmts[j].sline))
      && (forall i, j :: 0 <= i < j < |stmts| ==> stmts[i].sline <= stmts[i].eline <= stmts[j].sline)
  {
    hide Split, Newlines;
    SpansRunForward(text, 1);
    MeantStartsLast(Split(text, 1), cursor, k, 1, 1 + Newlines(text));
  }
}
