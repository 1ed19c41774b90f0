/** `pretty_json` (`ui/result.lua`): a re-indenter that works on JSON text without parsing it. */
module PrettyJson {
  import opened JsonText
  import opened LuaText

  /** Outside strings, inside one, or inside one after a backslash. */
  datatype Mode = Outside | Inside | Escaped

  function Next(m: Mode, c: char): Mode {
    match m
    case Outside => if c == '"' then Inside else Outside
    case Inside => if c == '\\' then Escaped else if c == '"' then Outside else Inside
    case Escaped => Inside
  }

  predicate Opener(c: char) {
    c == '{' || c == '['
  }

  predicate Closer(c: char) {
    c == '}' || c == ']'
  }

  function Less(depth: nat): nat {
    if depth > 0 then depth - 1 else 0
  }

  function Spaces(n: nat): string {
    seq(n, _ => ' ')
  }

  function NewLine(indent: nat): string {
    "\n" + Spaces(2 * indent)
  }

  /** An opener whose closer follows at once: the two stay together. */
  predicate EmptyAhead(s: string) {
    |s| > 1 && Opener(s[0]) && Closer(s[1])
  }

  /** What the first character of `s` becomes, outside strings. */
  function Piece(s: string, indent: nat): string
    requires s != ""
  {
    var c := s[0];
    if EmptyAhead(s) then s[..2]
    else if Opener(c) then [c] + NewLine(indent + 1)
    else if Closer(c) then NewLine(Less(indent)) + [c]
    else if c == ',' then [c] + NewLine(indent)
    else if c == ':' then ": "
    else [c]
  }

  function Indent(s: string, indent: nat): nat
    requires s != ""
  {
    if EmptyAhead(s) then indent else if Opener(s[0]) then indent + 1 else if Closer(s[0]) then Less(indent) else indent
  }

  function Taken(s: string): (n: nat)
    requires s != ""
    ensures 1 <= n <= |s|
  {
    if EmptyAhead(s) then 2 else 1
  }

  /** The text from here on, re-indented. */
  function Pretty(s: string, m: Mode, indent: nat): string
    decreases |s|
  {
    if s == "" then ""
    else if m.Outside? then Piece(s, indent) + Pretty(s[Taken(s)..], Next(m, s[0]), Indent(s, indent))
    else [s[0]] + Pretty(s[1..], Next(m, s[0]), indent)
  }

  // ── the loop ───────────────────────────────────────────────────────────────

  function ModeOf(instr: bool, esc: bool): Mode {
    if !instr then Outside else if esc then Escaped else Inside
  }

  /** What is out so far and what is still to come make up the whole. */
  ghost predicate Halfway(s: string, out: string, i: nat, m: Mode, indent: nat) {
    i <= |s| && out + Pretty(s[i..], m, indent) == Pretty(s, Outside, 0)
  }

  lemma Turn(s: string, out: string, i: nat, m: Mode, indent: nat)
    requires Halfway(s, out, i, m, indent) && i < |s|
    ensures !m.Outside? ==> Halfway(s, out + [s[i]], i + 1, Next(m, s[i]), indent)
    ensures m.Outside? ==>
              Halfway(s, out + Piece(s[i..], indent), i + Taken(s[i..]), Next(m, s[i]), Indent(s[i..], indent))
  {
    hide Piece, Indent, EmptyAhead;
    assert s[i..][1..] == s[i + 1..] && s[i..][Taken(s[i..])..] == s[i + Taken(s[i..])..];
    if m.Outside? {
      var rest := Pretty(s[i + Taken(s[i..])..], Next(m, s[i]), Indent(s[i..], indent));
      assert out + (Piece(s[i..], indent) + rest) == (out + Piece(s[i..], indent)) + rest;
    } else {
      var rest := Pretty(s[i + 1..], Next(m, s[i]), indent);
      assert out + ([s[i]] + rest) == (out + [s[i]]) + rest;
    }
  }

  method Reindent(s: string) returns (out: string)
    ensures out == Pretty(s, Outside, 0)
  {
    hide Halfway, NewLine;
    var indent: nat, i: nat := 0, 0;
    var instr, esc := false, false;
    out := "";
    Begin(s);
    while i < |s|
      invariant i <= |s| && Halfway(s, out, i, ModeOf(instr, esc), indent) && (esc ==> instr)
    {
      var c := s[i];
      Turn(s, out, i, ModeOf(instr, esc), indent);
      if instr {
        out := out + [c];
        if esc {
          esc := false;
        } else if c == '\\' {
          esc := true;
        } else if c == '"' {
          instr := false;
        }
      } else if c == '"' {
        instr := true;
        out := out + [c];
      } else if c == '{' || c == '[' {
        if i + 1 < |s| && (s[i + 1] == '}' || s[i + 1] == ']') {
          assert s[i..][..2] == [c, s[i + 1]];
          out := out + [c, s[i + 1]];
          i := i + 1;
        } else {
          indent := indent + 1;
          out := out + ([c] + NewLine(indent));
        }
      } else if c == '}' || c == ']' {
        indent := if indent - 1 > 0 then indent - 1 else 0;
        out := out + (NewLine(indent) + [c]);
      } else if c == ',' {
        out := out + ([c] + NewLine(indent));
      } else if c == ':' {
        out := out + ": ";
      } else {
        out := out + [c];
      }
      i := i + 1;
    }
    Finished(s, out, ModeOf(instr, esc), indent);
  }

  lemma Begin(s: string)
    ensures Halfway(s, "", 0, Outside, 0)
  {
    assert s[0..] == s;
  }

  lemma Finished(s: string, out: string, m: Mode, indent: nat)
    requires Halfway(s, out, |s|, m, indent)
    ensures out == Pretty(s, Outside, 0)
  {
    assert s[|s|..] == "" && out + "" == out;
  }

  // ── nothing but blanks is added ────────────────────────────────────────────

  /** A text without the blanks outside its strings. */
  function Bare(s: string, m: Mode): string {
    if s == "" then ""
    else (if m.Outside? && IsSpace(s[0]) then "" else [s[0]]) + Bare(s[1..], Next(m, s[0]))
  }

  lemma BareOne(c: char, t: string, m: Mode)
    ensures Bare([c] + t, m) == (if m.Outside? && IsSpace(c) then "" else [c]) + Bare(t, Next(m, c))
  {
    assert ([c] + t)[1..] == t;
  }

  lemma {:induction false} BareSpaces(n: nat, t: string)
    ensures Bare(Spaces(n) + t, Outside) == Bare(t, Outside)
  {
    if n == 0 {
      assert Spaces(0) + t == t;
    } else {
      assert Spaces(n) + t == [' '] + (Spaces(n - 1) + t);
      BareOne(' ', Spaces(n - 1) + t, Outside);
      BareSpaces(n - 1, t);
    }
  }

  lemma BareNewLine(indent: nat, t: string)
    ensures Bare(NewLine(indent) + t, Outside) == Bare(t, Outside)
  {
    assert NewLine(indent) + t == ['\n'] + (Spaces(2 * indent) + t);
    BareOne('\n', Spaces(2 * indent) + t, Outside);
    BareSpaces(2 * indent, t);
  }

  lemma BarePiece(s: string, indent: nat, rest: string)
    requires s != ""
    ensures Bare(Piece(s, indent) + rest, Outside)
         == (if IsSpace(s[0]) then "" else s[..Taken(s)]) + Bare(rest, Next(Outside, s[0]))
  {
    hide Bare, NewLine;
    var c := s[0];
    assert !EmptyAhead(s) ==> s[..1] == [c];
    BareOne(c, rest, Outside);
    if EmptyAhead(s) {
      BareTwo(c, s[1], rest);
      assert s[..2] == [c, s[1]];
    } else if Opener(c) || c == ',' {
      var n := if Opener(c) then indent + 1 else indent;
      BareOne(c, NewLine(n) + rest, Outside);
      BareNewLine(n, rest);
      assert [c] + NewLine(n) + rest == [c] + (NewLine(n) + rest);
    } else if Closer(c) {
      BareNewLine(Less(indent), [c] + rest);
      assert NewLine(Less(indent)) + [c] + rest == NewLine(Less(indent)) + ([c] + rest);
    } else if c == ':' {
      BareTwo(c, ' ', rest);
    }
  }

  lemma BareTwo(c: char, d: char, rest: string)
    requires c != '"' && d != '"' && !IsSpace(c)
    ensures Bare([c, d] + rest, Outside) == (if IsSpace(d) then [c] else [c, d]) + Bare(rest, Outside)
  {
    hide Bare;
    BareOne(c, [d] + rest, Outside);
    BareOne(d, rest, Outside);
    assert [c, d] + rest == [c] + ([d] + rest);
  }

  lemma BareHead(s: string)
    requires s != ""
    ensures Bare(s, Outside) == (if IsSpace(s[0]) then "" else s[..Taken(s)]) + Bare(s[Taken(s)..], Next(Outside, s[0]))
  {
    hide Bare;
    var c := s[0];
    assert s == [c] + s[1..];
    BareOne(c, s[1..], Outside);
    if EmptyAhead(s) {
      assert s[1..] == [s[1]] + s[2..] && s[..2] == [c] + [s[1]];
      BareOne(s[1], s[2..], Outside);
    } else {
      assert s[..1] == [c];
    }
  }

  /** For every text whatsoever, valid JSON or not, re-indenting changes nothing but the blanks outside
      strings; what is inside a string survives as it is. */
  lemma {:induction false} OnlyBlanksChange(s: string, m: Mode, indent: nat)
    ensures Bare(Pretty(s, m, indent), m) == Bare(s, m)
    decreases |s|
  {
    hide Bare, Piece, Indent, EmptyAhead;
    if s == "" {
      return;
    }
    if m.Outside? {
      var rest := s[Taken(s)..];
      OnlyBlanksChange(rest, Next(m, s[0]), Indent(s, indent));
      BarePiece(s, indent, Pretty(rest, Next(m, s[0]), Indent(s, indent)));
      BareHead(s);
    } else {
      OnlyBlanksChange(s[1..], Next(m, s[0]), indent);
      BareOne(s[0], s[1..], m);
      BareOne(s[0], Pretty(s[1..], Next(m, s[0]), indent), m);
      assert s == [s[0]] + s[1..];
    }
  }

  // ── the indentation ────────────────────────────────────────────────────────

  /** No blanks outside strings: what a JSON encoder writes. */
  predicate Compact(s: string, m: Mode) {
    s == "" || ((m.Outside? ==> !IsSpace(s[0])) && Compact(s[1..], Next(m, s[0])))
  }

  /** The number of spaces a text begins with. */
  function Lead(t: string): (n: nat)
    ensures n <= |t|
  {
    if t != "" && t[0] == ' ' then 1 + Lead(t[1..]) else 0
  }

  /** The depth a line beginning with `t` belongs at: one less when it closes a container. */
  function DepthOf(t: string, depth: nat): nat {
    if t != "" && Closer(t[0]) then Less(depth) else depth
  }

  function Deeper(m: Mode, c: char, depth: nat): nat {
    if !m.Outside? then depth else if Opener(c) then depth + 1 else if Closer(c) then Less(depth) else depth
  }

  /** Every line outside strings is indented by twice the depth it belongs at, counting the containers
      that are open, as read off the result itself. */
  predicate Indented(t: string, m: Mode, depth: nat)
    decreases |t|
  {
    t == "" ||
    if m.Outside? && t[0] == '\n'
    then Lead(t[1..]) == 2 * DepthOf(t[1 + Lead(t[1..])..], depth) && Indented(t[1 + Lead(t[1..])..], m, depth)
    else Indented(t[1..], Next(m, t[0]), Deeper(m, t[0], depth))
  }

  lemma IndentedOne(c: char, t: string, m: Mode, depth: nat)
    requires !(m.Outside? && c == '\n')
    ensures Indented([c] + t, m, depth) <==> Indented(t, Next(m, c), Deeper(m, c, depth))
  {
    assert ([c] + t)[1..] == t;
  }

  predicate Spaced(t: string) {
    t != "" && t[0] == ' '
  }

  lemma {:induction false} LeadMore(n: nat, t: string)
    ensures Lead(Spaces(n) + t) == n + Lead(t)
  {
    if n == 0 {
      assert Spaces(0) + t == t;
    } else {
      assert (Spaces(n) + t)[1..] == Spaces(n - 1) + t;
      LeadMore(n - 1, t);
    }
  }

  /** A line that was broken before `t` is indented exactly when `t` brings no space of its own. */
  lemma IndentedLine(n: nat, t: string, depth: nat)
    requires n == depth || (t != "" && Closer(t[0]))
    requires !Spaced(t) ==> n == DepthOf(t, depth)
    ensures Indented(NewLine(n) + t, Outside, depth) <==> !Spaced(t) && Indented(t, Outside, depth)
  {
    var u, w := NewLine(n) + t, Lead(t);
    assert u[1..] == Spaces(2 * n) + t;
    LeadMore(2 * n, t);
    if w == 0 {
      assert u[1 + 2 * n..] == t;
    }
  }

  /** Re-indented text begins with a space where the text did, and never with a closer: a closer has
      its own line. */
  lemma PrettyBegins(s: string, indent: nat)
    ensures
      var t := Pretty(s, Outside, indent);
      && (Spaced(t) <==> Spaced(s)) && (t != "" ==> !Closer(t[0])) && (t == "" <==> s == "")
  {
  }

  /** Leading spaces stay what they are. */
  lemma {:induction false} LeadKept(s: string, indent: nat)
    ensures
      var t := Pretty(s, Outside, indent);
      Lead(t) == Lead(s) && t[Lead(s)..] == Pretty(s[Lead(s)..], Outside, indent)
  {
    if Spaced(s) {
      var rest := s[1..];
      SpaceKept(s, indent);
      assert Lead(s) == 1 + Lead(rest);
      hide Pretty, Lead;
      LeadKept(rest, indent);
      assert s[1 + Lead(rest)..] == rest[Lead(rest)..];
      LeadBehindSpace(Pretty(rest, Outside, indent));
    } else {
      PrettyBegins(s, indent);
      assert Lead(s) == 0 && Lead(Pretty(s, Outside, indent)) == 0;
      assert s[0..] == s && Pretty(s, Outside, indent)[0..] == Pretty(s, Outside, indent);
    }
  }

  lemma LeadBehindSpace(t: string)
    ensures Lead([' '] + t) == 1 + Lead(t) && ([' '] + t)[1 + Lead(t)..] == t[Lead(t)..]
  {
    assert ([' '] + t)[1..] == t;
  }

  lemma SpaceKept(s: string, indent: nat)
    requires Spaced(s)
    ensures Pretty(s, Outside, indent) == [' '] + Pretty(s[1..], Outside, indent)
  {
  }

  /** Text that re-indenting leaves well indented: outside strings no space stands right behind an opener
      or a comma, and every line it has already begins with twice as many spaces as containers are
      open. */
  predicate Neat(s: string, m: Mode, depth: nat)
    decreases |s|
  {
    if s == "" then true
    else if !m.Outside? then Neat(s[1..], Next(m, s[0]), depth)
    else if EmptyAhead(s) then Neat(s[2..], m, depth)
    else if s[0] == '\n' then Lead(s[1..]) == 2 * depth && Neat(s[1 + Lead(s[1..])..], m, depth)
    else (Opener(s[0]) || s[0] == ',' ==> !Spaced(s[1..])) && Neat(s[1..], Next(m, s[0]), Indent(s, depth))
  }

  lemma RawLine(s: string, depth: nat)
    requires s != "" && s[0] == '\n'
    ensures
      var w := Lead(s[1..]);
      Indented(Pretty(s, Outside, depth), Outside, depth) <==>
      w == 2 * depth && Indented(Pretty(s[1 + w..], Outside, depth), Outside, depth)
  {
    var w := Lead(s[1..]);
    assert Pretty(s, Outside, depth) == ['\n'] + Pretty(s[1..], Outside, depth);
    assert s[1..][w..] == s[1 + w..];
    hide Pretty, Indented, Lead;
    LeadKept(s[1..], depth);
    PrettyBegins(s[1 + w..], depth);
    RawLineIndented(Pretty(s[1..], Outside, depth), depth);
  }

  lemma RawLineIndented(t: string, depth: nat)
    requires t[Lead(t)..] != "" ==> !Closer(t[Lead(t)])
    ensures Indented(['\n'] + t, Outside, depth) <==>
            Lead(t) == 2 * depth && Indented(t[Lead(t)..], Outside, depth)
  {
    assert (['\n'] + t)[1..] == t && (['\n'] + t)[1 + Lead(t)..] == t[Lead(t)..];
  }

  /** What a character and what becomes of it ask of the text behind it. */
  lemma PieceIndented(s: string, indent: nat, rest: string)
    requires s != "" && s[0] != '\n' && rest == Pretty(s[Taken(s)..], Next(Outside, s[0]), Indent(s, indent))
    ensures Indented(Piece(s, indent) + rest, Outside, indent) <==>
            && (!EmptyAhead(s) && (Opener(s[0]) || s[0] == ',') ==> !Spaced(s[1..]))
            && Indented(rest, Next(Outside, s[0]), Indent(s, indent))
  {
    hide Indented, NewLine, Pretty;
    var c := s[0];
    if EmptyAhead(s) {
      IndentedOne(c, [s[1]] + rest, Outside, indent);
      IndentedOne(s[1], rest, Outside, indent + 1);
      assert s[..2] + rest == [c] + ([s[1]] + rest);
    } else if Opener(c) || c == ',' {
      var n := if Opener(c) then indent + 1 else indent;
      PrettyBegins(s[1..], n);
      IndentedLine(n, rest, n);
      IndentedOne(c, NewLine(n) + rest, Outside, indent);
      assert [c] + NewLine(n) + rest == [c] + (NewLine(n) + rest);
    } else if Closer(c) {
      IndentedOne(c, rest, Outside, indent);
      IndentedLine(Less(indent), [c] + rest, indent);
      assert NewLine(Less(indent)) + [c] + rest == NewLine(Less(indent)) + ([c] + rest);
    } else if c == ':' {
      IndentedOne(c, [' '] + rest, Outside, indent);
      IndentedOne(' ', rest, Outside, indent);
      assert ": " + rest == [c] + ([' '] + rest);
    } else {
      IndentedOne(c, rest, Outside, indent);
    }
  }

  /** For every text: re-indenting it indents every line by twice its depth exactly when it is neat. */
  lemma {:induction false} LinesIndented(s: string, m: Mode, indent: nat)
    ensures Indented(Pretty(s, m, indent), m, indent) <==> Neat(s, m, indent)
    decreases |s|
  {
    assert Indented("", m, indent);
    assert s != "" && EmptyAhead(s) ==> Next(Outside, s[0]) == Outside && Indent(s, indent) == indent;
    hide Indented, Piece, Indent, EmptyAhead, NewLine;
    if s == "" {
    } else if m.Outside? && s[0] == '\n' {
      RawLine(s, indent);
      NoNewLineOpens(s);
      LinesIndented(s[1 + Lead(s[1..])..], m, indent);
    } else if m.Outside? {
      LinesIndented(s[Taken(s)..], Next(m, s[0]), Indent(s, indent));
      PieceIndented(s, indent, Pretty(s[Taken(s)..], Next(m, s[0]), Indent(s, indent)));
    } else {
      LinesIndented(s[1..], Next(m, s[0]), indent);
      IndentedOne(s[0], Pretty(s[1..], Next(m, s[0]), indent), m, indent);
    }
  }

  lemma NoNewLineOpens(s: string)
    requires s != "" && s[0] == '\n'
    ensures !EmptyAhead(s)
  {
  }

  /** So all is well with text that has no blanks outside its strings, which is what an encoder writes. */
  lemma {:induction false} CompactIsNeat(s: string, m: Mode, depth: nat)
    requires Compact(s, m)
    ensures Neat(s, m, depth) && Indented(Pretty(s, m, depth), m, depth)
    decreases |s|
  {
    LinesIndented(s, m, depth);
    if s != "" {
      if m.Outside? && EmptyAhead(s) {
        assert s[1..][1..] == s[2..];
        CompactIsNeat(s[2..], m, depth);
      } else {
        CompactIsNeat(s[1..], Next(m, s[0]), if m.Outside? then Indent(s, depth) else depth);
      }
    }
  }

  lemma PrettyPlain(c: char, t: string, indent: nat)
    requires c != '"' && c != ',' && c != ':' && !Opener(c) && !Closer(c)
    ensures Pretty([c] + t, Outside, indent) == [c] + Pretty(t, Outside, indent)
  {
    assert ([c] + t)[1..] == t;
  }

  // ── the layout ─────────────────────────────────────────────────────────────

  // The layout says by itself what it takes for containers.

  predicate IsOpening(c: char) {
    c == '{' || c == '['
  }

  predicate ClosesFirst(t: string) {
    t != "" && (t[0] == '}' || t[0] == ']')
  }

  /** Laid out as it should be, behind a character `before`: outside strings an opener is followed by its
      closer or by a line of its own content, a comma by a new line and a colon by one space; a closer
      stands on a line of its own unless its opener stands right before it; every line is indented by two
      for each container that is open; and there are no other blanks. */
  predicate LaidOut(t: string, m: Mode, depth: nat, before: char)
    decreases |t|
  {
    if t == "" then !IsOpening(before) && before != ',' && before != ':'
    else if !m.Outside? then LaidOut(t[1..], Next(m, t[0]), depth, '"')
    else if t[0] == '\n' then
      var line := t[1 + Lead(t[1..])..];
      && Lead(t[1..]) == 2 * (if ClosesFirst(line) then Less(depth) else depth)
      && before != ':' && (IsOpening(before) || before == ',' || ClosesFirst(line))
      && (IsOpening(before) && line != "" ==> !ClosesFirst(line) && line[0] != '\n')
      && LaidOut(line, m, depth, '\n')
    else
      && (before == ':' <==> t[0] == ' ') && (t[0] == ' ' || !IsSpace(t[0])) && before != ','
      && (IsOpening(before) ==> ClosesFirst(t)) && (ClosesFirst(t) ==> IsOpening(before) || before == '\n')
      && LaidOut(t[1..], Next(m, t[0]),
                 if IsOpening(t[0]) then depth + 1 else if ClosesFirst(t) then Less(depth) else depth, t[0])
  }

  lemma LaidOutInString(c: char, t: string, m: Mode, depth: nat, before: char)
    requires !m.Outside? && LaidOut(t, Next(m, c), depth, '"')
    ensures LaidOut([c] + t, m, depth, before)
  {
    assert ([c] + t)[1..] == t;
  }

  lemma LaidOutOne(c: char, t: string, depth: nat, before: char)
    requires (c == ' ' || !IsSpace(c)) && (before == ':' <==> c == ' ') && before != ','
    requires (Opener(before) ==> Closer(c)) && (Closer(c) ==> Opener(before) || before == '\n')
    requires LaidOut(t, Next(Outside, c), Deeper(Outside, c, depth), c)
    ensures LaidOut([c] + t, Outside, depth, before)
  {
    assert ([c] + t)[1..] == t;
  }

  lemma LaidOutLine(n: nat, t: string, depth: nat, before: char)
    requires n == DepthOf(t, depth) && !Spaced(t) && LaidOut(t, Outside, depth, '\n')
    requires before != ':' && (Opener(before) || before == ',' || (t != "" && Closer(t[0])))
    requires Opener(before) && t != "" ==> !Closer(t[0]) && t[0] != '\n'
    ensures LaidOut(NewLine(n) + t, Outside, depth, before)
  {
    var u := NewLine(n) + t;
    assert u[1..] == Spaces(2 * n) + t;
    LeadMore(2 * n, t);
    assert Lead(t) == 0 && u[1 + 2 * n..] == t;
  }

  predicate Settled(before: char) {
    !Opener(before) && before != ',' && before != ':'
  }

  /** Re-indented text begins with a new line only for a closer. */
  lemma NoLineAtOnce(s: string, indent: nat)
    requires Compact(s, Outside) && (s != "" ==> !Closer(s[0]))
    ensures
      var t := Pretty(s, Outside, indent);
      t != "" ==> t[0] != '\n'
  {
    if s != "" {
      PieceBegins(s, indent);
      var rest := Pretty(s[Taken(s)..], Next(Outside, s[0]), Indent(s, indent));
      assert Pretty(s, Outside, indent) == Piece(s, indent) + rest;
    }
  }

  lemma PieceBegins(s: string, indent: nat)
    requires s != "" && !Closer(s[0])
    ensures
      var p := Piece(s, indent);
      p != "" && p[0] == s[0]
  {
  }

  lemma OpenerLaidOut(c: char, s: string, depth: nat, before: char)
    requires Opener(c) && Settled(before) && Compact(s, Outside) && (s != "" ==> !Closer(s[0]))
    requires LaidOut(Pretty(s, Outside, depth + 1), Outside, depth + 1, '\n')
    ensures LaidOut([c] + NewLine(depth + 1) + Pretty(s, Outside, depth + 1), Outside, depth, before)
  {
    hide LaidOut, Pretty, NewLine;
    var rest := Pretty(s, Outside, depth + 1);
    assert !Spaced(s);
    PrettyBegins(s, depth + 1);
    NoLineAtOnce(s, depth + 1);
    hide Compact;
    LaidOutLine(depth + 1, rest, depth + 1, c);
    LaidOutOne(c, NewLine(depth + 1) + rest, depth, before);
    assert [c] + NewLine(depth + 1) + rest == [c] + (NewLine(depth + 1) + rest);
  }

  lemma CloserLaidOut(c: char, rest: string, depth: nat, before: char)
    requires Closer(c) && Settled(before) && LaidOut(rest, Outside, Less(depth), c)
    ensures LaidOut(NewLine(Less(depth)) + [c] + rest, Outside, depth, before)
  {
    hide LaidOut, NewLine;
    LaidOutOne(c, rest, depth, '\n');
    LaidOutLine(Less(depth), [c] + rest, depth, before);
    assert NewLine(Less(depth)) + [c] + rest == NewLine(Less(depth)) + ([c] + rest);
  }

  lemma CommaLaidOut(s: string, depth: nat, before: char)
    requires Settled(before) && Compact(s, Outside) && LaidOut(Pretty(s, Outside, depth), Outside, depth, '\n')
    ensures LaidOut([','] + NewLine(depth) + Pretty(s, Outside, depth), Outside, depth, before)
  {
    var rest := Pretty(s, Outside, depth);
    PrettyBegins(s, depth);
    hide LaidOut, Pretty, NewLine;
    LaidOutLine(depth, rest, depth, ',');
    LaidOutOne(',', NewLine(depth) + rest, depth, before);
    assert [','] + NewLine(depth) + rest == [','] + (NewLine(depth) + rest);
  }

  lemma ColonLaidOut(rest: string, depth: nat, before: char)
    requires Settled(before) && LaidOut(rest, Outside, depth, ' ')
    ensures LaidOut(": " + rest, Outside, depth, before)
  {
    hide LaidOut;
    LaidOutOne(' ', rest, depth, ':');
    LaidOutOne(':', [' '] + rest, depth, before);
    assert ": " + rest == [':'] + ([' '] + rest);
  }

  lemma PairLaidOut(c: char, d: char, rest: string, depth: nat, before: char)
    requires Opener(c) && Closer(d) && Settled(before) && LaidOut(rest, Outside, depth, d)
    ensures LaidOut([c, d] + rest, Outside, depth, before)
  {
    hide LaidOut;
    LaidOutOne(d, rest, depth + 1, c);
    LaidOutOne(c, [d] + rest, depth, before);
    assert [c, d] + rest == [c] + ([d] + rest);
  }

  /** What stands before the text behind a character that was written out. */
  function Before(c: char): char {
    if Opener(c) || c == ',' then '\n' else if c == ':' then ' ' else c
  }

  lemma PieceLaidOut(s: string, depth: nat, before: char)
    requires s != "" && !EmptyAhead(s) && Compact(s, Outside) && Settled(before)
    requires LaidOut(Pretty(s[1..], Next(Outside, s[0]), Indent(s, depth)), Next(Outside, s[0]), Indent(s, depth),
                     Before(s[0]))
    ensures LaidOut(Pretty(s, Outside, depth), Outside, depth, before)
  {
    var c, rest := s[0], Pretty(s[1..], Next(Outside, s[0]), Indent(s, depth));
    assert Pretty(s, Outside, depth) == Piece(s, depth) + rest;
    hide LaidOut, Pretty, NewLine;
    if Opener(c) {
      OpenerLaidOut(c, s[1..], depth, before);
    } else if Closer(c) {
      CloserLaidOut(c, rest, depth, before);
    } else if c == ',' {
      CommaLaidOut(s[1..], depth, before);
    } else if c == ':' {
      ColonLaidOut(rest, depth, before);
    } else {
      LaidOutOne(c, rest, depth, before);
    }
  }

  /** Text without blanks outside strings comes out laid out, whether it is valid JSON or not. */
  lemma {:induction false} CompactIsLaidOut(s: string, m: Mode, depth: nat, before: char)
    requires Compact(s, m) && Settled(before)
    ensures LaidOut(Pretty(s, m, depth), m, depth, before)
    decreases |s|
  {
    if s == "" {
      return;
    }
    var c := s[0];
    if !m.Outside? {
      CompactIsLaidOut(s[1..], Next(m, c), depth, '"');
      LaidOutInString(c, Pretty(s[1..], Next(m, c), depth), m, depth, before);
    } else if EmptyAhead(s) {
      assert s[1..][1..] == s[2..] && s[..2] == [c, s[1]];
      CompactIsLaidOut(s[2..], m, depth, s[1]);
      PairLaidOut(c, s[1], Pretty(s[2..], m, depth), depth, before);
    } else {
      CompactIsLaidOut(s[1..], Next(m, c), Indent(s, depth), Before(c));
      PieceLaidOut(s, depth, before);
    }
  }

  lemma OneBefore(c: char, u: string, v: string)
    ensures ([c] + u) + v == [c] + (u + v)
  {
  }

  /** In any text, what is none of JSON's structure passes as it is. */
  lemma {:induction false} OthersPass(u: string, t: string, indent: nat)
    requires forall c :: c in u ==> c !in {'{', '}', '[', ']', ',', ':', '"'}
    ensures Pretty(u + t, Outside, indent) == u + Pretty(t, Outside, indent)
  {
    if u == "" {
      assert u + t == t;
    } else {
      var rest := u[1..];
      assert u == [u[0]] + rest;
      assert u[0] in u && forall c :: c in rest ==> c in u;
      hide Pretty;
      PrettyPlain(u[0], rest + t, indent);
      OneBefore(u[0], rest, t);
      OthersPass(rest, t, indent);
      OneBefore(u[0], rest, Pretty(t, Outside, indent));
    }
  }

  lemma PrettyInside(c: char, t: string, m: Mode, indent: nat)
    requires !m.Outside? || c == '"'
    ensures Pretty([c] + t, m, indent) == [c] + Pretty(t, Next(m, c), indent)
  {
    assert ([c] + t)[1..] == t;
  }

  lemma {:induction false} BodyPasses(u: string, t: string, indent: nat)
    requires StringBody(u)
    ensures Pretty(u + ("\"" + t), Inside, indent) == u + ("\"" + Pretty(t, Outside, indent))
    decreases |u|
  {
    var tail, after := "\"" + t, "\"" + Pretty(t, Outside, indent);
    hide Pretty;
    if u == "" {
      PrettyInside('"', t, Inside, indent);
      assert u + tail == ['"'] + t;
    } else {
      var c, rest := u[0], u[1..];
      assert u == [c] + rest;
      OneBefore(c, rest, tail);
      OneBefore(c, rest, after);
      PrettyInside(c, rest + tail, Inside, indent);
      if c == '\\' {
        var d, more := u[1], u[2..];
        assert rest == [d] + more;
        OneBefore(d, more, tail);
        OneBefore(d, more, after);
        PrettyInside(d, more + tail, Escaped, indent);
        BodyPasses(more, t, indent);
      } else {
        BodyPasses(rest, t, indent);
      }
    }
  }

  /** In any text, a string passes as it is, with whatever braces, commas and escaped quotes it holds, and
      what follows is re-indented as if it were not there. */
  lemma StringsPass(u: string, t: string, indent: nat)
    requires StringBody(u)
    ensures Pretty(Quoted(u) + t, Outside, indent) == Quoted(u) + Pretty(t, Outside, indent)
  {
    hide Pretty, StringBody;
    assert Quoted(u) + t == ['"'] + (u + ("\"" + t));
    PrettyInside('"', u + ("\"" + t), Outside, indent);
    BodyPasses(u, t, indent);
    assert Quoted(u) + Pretty(t, Outside, indent) == ['"'] + (u + ("\"" + Pretty(t, Outside, indent)));
  }

  lemma PrettyComma(t: string)
    ensures Pretty([','] + t, Outside, 1) == ",\n  " + Pretty(t, Outside, 1)
  {
    assert ([','] + t)[1..] == t;
    assert [','] + NewLine(1) == ",\n  ";
  }

  lemma PrettyOpener(t: string)
    requires t != "" && !Closer(t[0])
    ensures Pretty(['['] + t, Outside, 0) == "[\n  " + Pretty(t, Outside, 1)
  {
    assert (['['] + t)[1..] == t;
    assert ['['] + NewLine(1) == "[\n  ";
  }

  lemma CloserAlone()
    ensures Pretty("]", Outside, 1) == "\n]"
  {
    assert "]"[1..] == "" && NewLine(0) + "]" + "" == "\n]";
  }

  lemma CommaSpaced()
    ensures Pretty(", 2]", Outside, 1) == ",\n   2\n]"
  {
    hide Pretty;
    CloserAlone();
    PrettyPlain('2', "]", 1);
    PrettyPlain(' ', "2]", 1);
    PrettyComma(" 2]");
    assert ['2'] + "]" == "2]" && [' '] + "2]" == " 2]" && [','] + " 2]" == ", 2]";
  }

  lemma AllSpaced()
    ensures Pretty("[1, 2]", Outside, 0) == "[\n  1,\n   2\n]"
  {
    hide Pretty;
    CommaSpaced();
    PrettyPlain('1', ", 2]", 1);
    assert ['1'] + ", 2]" == "1, 2]";
    PrettyOpener("1, 2]");
    assert ['['] + "1, 2]" == "[1, 2]";
  }

  lemma SpacedIsNotNeat()
    ensures !Neat("[1, 2]", Outside, 0)
  {
    var s, a, b := "[1, 2]", "1, 2]", ", 2]";
    assert s[1..] == a && a[1..] == b;
    assert !Neat(b, Outside, 1);
    assert !Neat(a, Outside, 1);
  }

  /** But not with a server's own text that has a space behind each comma: the space is kept behind the
      line break, and the line stands one too far to the right. */
  lemma SpacedTextIsNot()
    ensures Pretty("[1, 2]", Outside, 0) == "[\n  1,\n   2\n]"
    ensures !Indented(Pretty("[1, 2]", Outside, 0), Outside, 0)
  {
    hide Pretty, Neat, Indented;
    AllSpaced();
    SpacedIsNotNeat();
    LinesIndented("[1, 2]", Outside, 0);
  }
}
