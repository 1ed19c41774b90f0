/** Lua's idea of blank characters, `vim.trim`, and line counting. */
module LuaText {
  /** The characters `%s` matches. */
  predicate IsSpace(c: char) {
    c == ' ' || c == '\t' || c == '\n' || c == '\r' || c == '\U{000B}' || c == '\U{000C}'
  }

  predicate Blank(s: string) {
    forall i :: 0 <= i < |s| ==> IsSpace(s[i])
  }

  function TrimLeft(s: string): string {
    if s != "" && IsSpace(s[0]) then TrimLeft(s[1..]) else s
  }

  function TrimRight(s: string): string {
    if s != "" && IsSpace(s[|s| - 1]) then TrimRight(s[..|s| - 1]) else s
  }

  function Trim(s: string): string {
    TrimRight(TrimLeft(s))
  }

  /** Nothing to trim. */
  predicate Tight(s: string) {
    s != "" && !IsSpace(s[0]) && !IsSpace(s[|s| - 1])
  }

  function Newlines(s: string): nat {
    if s == "" then 0 else (if s[0] == '\n' then 1 else 0) + Newlines(s[1..])
  }

  /** `table.concat`. */
  function Join(ss: seq<string>, sep: string): string {
    if ss == [] then "" else if |ss| == 1 then ss[0] else ss[0] + sep + Join(ss[1..], sep)
  }

  lemma {:induction false} NewlinesConcat(a: string, b: string)
    ensures Newlines(a + b) == Newlines(a) + Newlines(b)
  {
    if a == "" {
      assert a + b == b;
    } else {
      NewlinesConcat(a[1..], b);
      assert (a + b)[1..] == a[1..] + b;
    }
  }

  lemma {:induction false} TrimLeftCuts(s: string)
    ensures |TrimLeft(s)| <= |s| && TrimLeft(s) == s[|s| - |TrimLeft(s)|..]
    ensures Blank(s[..|s| - |TrimLeft(s)|])
    ensures TrimLeft(s) != "" ==> !IsSpace(TrimLeft(s)[0])
  {
    if s != "" && IsSpace(s[0]) {
      TrimLeftCuts(s[1..]);
      var k := |s[1..]| - |TrimLeft(s[1..])|;
      assert s[..k + 1] == [s[0]] + s[1..][..k];
    }
  }

  lemma {:induction false} TrimRightCuts(s: string)
    ensures |TrimRight(s)| <= |s| && TrimRight(s) == s[..|TrimRight(s)|]
    ensures Blank(s[|TrimRight(s)|..])
    ensures TrimRight(s) != "" ==> !IsSpace(TrimRight(s)[|TrimRight(s)| - 1])
  {
    if s != "" && IsSpace(s[|s| - 1]) {
      TrimRightCuts(s[..|s| - 1]);
      var k := |TrimRight(s[..|s| - 1])|;
      assert s[k..] == s[..|s| - 1][k..] + [s[|s| - 1]];
    }
  }

  /** How many blanks come before the first other character. */
  function Margin(s: string): (n: nat)
    ensures n <= |s|
  {
    if s != "" && IsSpace(s[0]) then 1 + Margin(s[1..]) else 0
  }

  lemma {:induction false} MarginIsTrimmed(s: string)
    ensures Margin(s) == |s| - |TrimLeft(s)| && TrimLeft(s) == s[Margin(s)..] && Blank(s[..Margin(s)])
  {
    TrimLeftCuts(s);
    if s != "" && IsSpace(s[0]) {
      MarginIsTrimmed(s[1..]);
    }
  }

  /** `Trim` keeps one stretch and drops blanks on both sides of it. */
  lemma TrimCuts(s: string)
    ensures
      var a, b := Margin(s), Margin(s) + |Trim(s)|;
      b <= |s| && Trim(s) == s[a..b] && Blank(s[..a]) && Blank(s[b..]) && (Trim(s) != "" ==> Tight(Trim(s)))
  {
    MarginIsTrimmed(s);
    TrimLeftCuts(s);
    TrimRightCuts(TrimLeft(s));
  }

  lemma {:induction false} TrimLeftOf(w: string, s: string)
    requires Blank(w)
    ensures TrimLeft(w + s) == TrimLeft(s)
  {
    if w == "" {
      assert w + s == s;
    } else {
      assert (w + s)[1..] == w[1..] + s;
      TrimLeftOf(w[1..], s);
    }
  }

  lemma {:induction false} TrimRightOf(s: string, w: string)
    requires Blank(w)
    ensures TrimRight(s + w) == TrimRight(s)
    decreases |w|
  {
    if w == "" {
      assert s + w == s;
    } else {
      assert (s + w)[..|s + w| - 1] == s + w[..|w| - 1];
      TrimRightOf(s, w[..|w| - 1]);
    }
  }

  /** Blanks around a tight text are what `Trim` takes away. */
  lemma TrimOf(a: string, s: string, b: string)
    requires Blank(a) && Blank(b) && Tight(s)
    ensures Trim(a + s + b) == s && Trim(s + b) == s && Trim(a + s) == s && Trim(s) == s
    ensures Margin(a + s + b) == |a|
  {
    assert a + s + b == a + (s + b);
    TrimLeftOf(a, s + b);
    TrimLeftOf(a, s);
    TrimRightOf(s, b);
    MarginIsTrimmed(a + s + b);
  }

  /** A text that does not end in a blank is trimmed only at its start. */
  lemma SolidEnd(s: string)
    requires s != "" && !IsSpace(s[|s| - 1])
    ensures Trim(s) != "" && Margin(s) + |Trim(s)| == |s|
  {
    hide Trim, Margin;
    TrimCuts(s);
  }

  lemma TrimBlank(w: string)
    requires Blank(w)
    ensures Trim(w) == ""
  {
    TrimCuts(w);
  }

  /** Trimming keeps every character that is no blank. */
  lemma InkIsTrimmedTo(s: string, i: nat)
    requires i < |s| && !IsSpace(s[i])
    ensures Trim(s) != "" && Margin(s) <= i < Margin(s) + |Trim(s)|
  {
    hide Trim, Margin;
    TrimCuts(s);
    var a, b := Margin(s), Margin(s) + |Trim(s)|;
    assert forall j :: 0 <= j < a ==> s[..a][j] == s[j] && IsSpace(s[j]);
    assert forall j :: b <= j < |s| ==> s[b..][j - b] == s[j] && IsSpace(s[j]);
  }
}
