/** `collapse_spaces` (`proto.lua`): runs of spaces squeezed outside quotes, then ` ;` closed up
    everywhere, then trimmed. */
module Squeezing {
  import opened Wrappers
  import opened LuaText
  import opened Replacing

  /** The quote a character stands in, if any. */
  type Quote = q: Option<char> | q == None || q == Some('\'') || q == Some('"') witness None

  function Next(q: Quote, c: char): Quote {
    if q.Some? then (if c == q.value then None else q)
    else if c == '\'' || c == '"' then Some(c) else None
  }

  function Read(s: string, q: Quote): Quote {
    if s == "" then q else Read(s[1..], Next(q, s[0]))
  }

  function Squeezed(s: string, q: Quote, lastSpace: bool): (r: string)
    ensures |r| <= |s|
  {
    if s == "" then ""
    else if q.Some? then [s[0]] + Squeezed(s[1..], Next(q, s[0]), lastSpace)
    else if s[0] == ' ' then (if lastSpace then "" else " ") + Squeezed(s[1..], None, true)
    else [s[0]] + Squeezed(s[1..], Next(q, s[0]), false)
  }

  function CloseUp(s: string): string {
    Replaced(s, " ;", ";")
  }

  function Collapsed(s: string): string {
    Trim(CloseUp(Squeezed(s, None, false)))
  }

  method CollapseSpaces(s: string) returns (r: string)
    ensures r == Collapsed(s)
  {
    hide Squeezed;
    var quote: Quote := None;
    var out, lastSpace := "", false;
    assert s[0..] == s && forall t: string :: "" + t == t;
    for i := 0 to |s|
      invariant Halfway(s, out, i, quote, lastSpace)
    {
      hide Halfway;
      SqueezeAt(s, out, i, quote, lastSpace);
      var c := s[i];
      if quote.Some? {
        out := out + [c];
        if c == quote.value {
          quote := None;
        }
      } else if c == '\'' || c == '"' {
        quote := Some(c);
        out := out + [c];
        lastSpace := false;
      } else if c == ' ' {
        if !lastSpace {
          out := out + [c];
        }
        lastSpace := true;
      } else {
        out := out + [c];
        lastSpace := false;
      }
    }
    SqueezedAll(s, out, quote, lastSpace);
    var closed := Plain(out, " ;", ";");
    return Trim(closed);
  }

  ghost predicate Halfway(s: string, out: string, i: nat, q: Quote, lastSpace: bool) {
    i <= |s| && out + Squeezed(s[i..], q, lastSpace) == Squeezed(s, None, false)
  }

  lemma SqueezeAt(s: string, out: string, i: nat, q: Quote, lastSpace: bool)
    requires Halfway(s, out, i, q, lastSpace) && i < |s|
    ensures
      var dropped := q.None? && s[i] == ' ' && lastSpace;
      Halfway(s, if dropped then out else out + [s[i]], i + 1, Next(q, s[i]),
              if q.Some? then lastSpace else s[i] == ' ')
  {
    hide Squeezed;
    SqueezeOne(s[i..], q, lastSpace);
    assert s[i..][1..] == s[i + 1..];
    var rest := Squeezed(s[i + 1..], Next(q, s[i]), if q.Some? then lastSpace else s[i] == ' ');
    assert out + ([s[i]] + rest) == (out + [s[i]]) + rest;
  }

  lemma SqueezedAll(s: string, out: string, q: Quote, lastSpace: bool)
    requires Halfway(s, out, |s|, q, lastSpace)
    ensures out == Squeezed(s, None, false)
  {
    assert s[|s|..] == "" && out + "" == out;
  }

  lemma SqueezeOne(s: string, q: Quote, lastSpace: bool)
    requires s != ""
    ensures
      var rest := Squeezed(s[1..], Next(q, s[0]), if q.Some? then lastSpace else s[0] == ' ');
      Squeezed(s, q, lastSpace) == if q.None? && s[0] == ' ' && lastSpace then rest else [s[0]] + rest
  {
  }

  lemma CloseUpOne(s: string)
    requires s != ""
    ensures StartsWith(s, " ;") <==> |s| > 1 && s[0] == ' ' && s[1] == ';'
    ensures CloseUp(s) == if StartsWith(s, " ;") then ";" + CloseUp(s[2..]) else [s[0]] + CloseUp(s[1..])
  {
    assert |s| > 1 ==> s[..2] == [s[0], s[1]];
  }

  lemma NothingToClose()
    ensures CloseUp("") == ""
  {
  }

  // ── what is kept in any case ───────────────────────────────────────────────

  function Ink(s: string): string {
    if s == "" then "" else (if IsSpace(s[0]) then "" else [s[0]]) + Ink(s[1..])
  }

  lemma {:induction false} InkConcat(a: string, b: string)
    ensures Ink(a + b) == Ink(a) + Ink(b)
  {
    if a == "" {
      assert a + b == b;
    } else {
      assert (a + b)[1..] == a[1..] + b;
      InkConcat(a[1..], b);
    }
  }

  lemma {:induction false} InkBlank(w: string)
    requires Blank(w)
    ensures Ink(w) == ""
  {
    if w != "" {
      InkBlank(w[1..]);
    }
  }

  lemma {:induction false} SqueezedInk(s: string, q: Quote, lastSpace: bool)
    ensures Ink(Squeezed(s, q, lastSpace)) == Ink(s)
    decreases |s|
  {
    if s != "" {
      hide Squeezed, Ink;
      SqueezeOne(s, q, lastSpace);
      var l := if q.Some? then lastSpace else s[0] == ' ';
      SqueezedInk(s[1..], Next(q, s[0]), l);
      InkOne(s[0], Squeezed(s[1..], Next(q, s[0]), l));
      InkOne(s[0], s[1..]);
      assert s == [s[0]] + s[1..];
    }
  }

  lemma InkOne(c: char, t: string)
    ensures Ink([c] + t) == (if IsSpace(c) then "" else [c]) + Ink(t)
  {
    assert ([c] + t)[1..] == t;
  }

  lemma {:induction false} CloseUpInk(s: string)
    ensures Ink(CloseUp(s)) == Ink(s)
    decreases |s|
  {
    hide CloseUp, Ink;
    if s == "" {
      NothingToClose();
      return;
    }
    CloseUpOne(s);
    assert s == [s[0]] + s[1..];
    InkOne(s[0], s[1..]);
    if StartsWith(s, " ;") {
      assert s[1..] == [';'] + s[2..];
      CloseUpInk(s[2..]);
      InkOne(';', s[2..]);
      InkOne(';', CloseUp(s[2..]));
    } else {
      CloseUpInk(s[1..]);
      InkOne(s[0], CloseUp(s[1..]));
    }
  }

  /** No character other than a blank is removed, moved or changed, in any text. */
  lemma InkIsKept(s: string)
    ensures Ink(Collapsed(s)) == Ink(s)
  {
    hide Squeezed, CloseUp, Ink, Trim, Margin;
    var y := CloseUp(Squeezed(s, None, false));
    SqueezedInk(s, None, false);
    CloseUpInk(Squeezed(s, None, false));
    TrimCuts(y);
    var a, b := y[..Margin(y)], y[Margin(y) + |Trim(y)|..];
    assert y == a + (Trim(y) + b);
    InkConcat(a, Trim(y) + b);
    InkConcat(Trim(y), b);
    InkBlank(a);
    InkBlank(b);
  }

  // ── what is kept inside quotes ─────────────────────────────────────────────

  /** A text without the blanks outside its quotes. */
  function Bare(s: string, q: Quote): string {
    if s == "" then "" else (if q.None? && IsSpace(s[0]) then "" else [s[0]]) + Bare(s[1..], Next(q, s[0]))
  }

  /** A quoted ` ;`. */
  predicate QuotedGap(s: string, q: Quote) {
    s != "" && ((q.Some? && StartsWith(s, " ;")) || QuotedGap(s[1..], Next(q, s[0])))
  }

  /** A quoted ` ;` after another space. */
  predicate QuotedWideGap(s: string, q: Quote) {
    s != "" && ((q.Some? && StartsWith(s, "  ;")) || QuotedWideGap(s[1..], Next(q, s[0])))
  }

  predicate OutsideGap(s: string, q: Quote) {
    s != "" && ((q.None? && StartsWith(s, " ;")) || OutsideGap(s[1..], Next(q, s[0])))
  }

  lemma Unfold(c: char, t: string, q: Quote)
    ensures Bare([c] + t, q) == (if q.None? && IsSpace(c) then "" else [c]) + Bare(t, Next(q, c))
    ensures Read([c] + t, q) == Read(t, Next(q, c))
    ensures QuotedGap([c] + t, q) <==> (q.Some? && c == ' ' && t != "" && t[0] == ';') || QuotedGap(t, Next(q, c))
    ensures OutsideGap([c] + t, q) <==> (q.None? && c == ' ' && t != "" && t[0] == ';') || OutsideGap(t, Next(q, c))
    ensures QuotedWideGap([c] + t, q) <==>
            (q.Some? && c == ' ' && |t| > 1 && t[0] == ' ' && t[1] == ';') || QuotedWideGap(t, Next(q, c))
  {
    var s := [c] + t;
    assert s[1..] == t;
    CloseUpOne(s);
    assert |s| > 2 ==> s[..3] == [s[0], s[1], s[2]];
  }

  /** In quotes the next two characters are what they were. */
  lemma SqueezedHead(s: string, q: Quote, lastSpace: bool)
    requires q.Some?
    ensures
      var x := Squeezed(s, q, lastSpace);
      && (x == "" <==> s == "") && (s != "" ==> x[0] == s[0])
      && (s != "" && Next(q, s[0]).Some? ==> (|x| > 1 <==> |s| > 1) && (|s| > 1 ==> x[1] == s[1]))
  {
    if s != "" {
      SqueezeOne(s, q, lastSpace);
      if s[1..] != "" {
        SqueezeOne(s[1..], Next(q, s[0]), lastSpace);
      }
    }
  }

  /** Squeezing leaves all that is quoted, and where the quotes are. */
  lemma {:induction false} SqueezedKeeps(s: string, q: Quote, lastSpace: bool)
    ensures Bare(Squeezed(s, q, lastSpace), q) == Bare(s, q) && Read(Squeezed(s, q, lastSpace), q) == Read(s, q)
    decreases |s|
  {
    if s != "" {
      hide Squeezed, Bare, Read, QuotedGap, QuotedWideGap, OutsideGap;
      SqueezeOne(s, q, lastSpace);
      var l := if q.Some? then lastSpace else s[0] == ' ';
      SqueezedKeeps(s[1..], Next(q, s[0]), l);
      Unfold(s[0], Squeezed(s[1..], Next(q, s[0]), l), q);
      Unfold(s[0], s[1..], q);
      assert s == [s[0]] + s[1..];
    }
  }

  lemma {:induction false} SqueezedGaps(s: string, q: Quote, lastSpace: bool)
    ensures QuotedGap(Squeezed(s, q, lastSpace), q) <==> QuotedGap(s, q)
    ensures QuotedWideGap(Squeezed(s, q, lastSpace), q) <==> QuotedWideGap(s, q)
    decreases |s|
  {
    if s != "" {
      hide Squeezed, Bare, Read, QuotedGap, QuotedWideGap, OutsideGap;
      SqueezeOne(s, q, lastSpace);
      var l, q' := if q.Some? then lastSpace else s[0] == ' ', Next(q, s[0]);
      var t := Squeezed(s[1..], q', l);
      SqueezedGaps(s[1..], q', l);
      Unfold(s[0], t, q);
      Unfold(s[0], s[1..], q);
      assert s == [s[0]] + s[1..];
      if q.Some? && s[0] == ' ' {
        SqueezedHead(s[1..], q', l);
      }
    }
  }

  /** Closing up leaves the quotes where they are, and takes a space out of a quote exactly when there is
      a quoted ` ;`. */
  lemma {:induction false} CloseUpKeeps(x: string, q: Quote)
    ensures Read(CloseUp(x), q) == Read(x, q)
    ensures |Bare(CloseUp(x), q)| <= |Bare(x, q)|
    ensures if QuotedGap(x, q) then |Bare(CloseUp(x), q)| < |Bare(x, q)| else Bare(CloseUp(x), q) == Bare(x, q)
    decreases |x|
  {
    hide CloseUp, Bare, Read, QuotedGap, QuotedWideGap, OutsideGap;
    if x == "" {
      NothingToClose();
      NoGaps(q);
      return;
    }
    CloseUpOne(x);
    assert x == [x[0]] + x[1..];
    Unfold(x[0], x[1..], q);
    if StartsWith(x, " ;") {
      assert x[1..] == [';'] + x[2..];
      Unfold(';', x[2..], q);
      Unfold(';', CloseUp(x[2..]), q);
      CloseUpKeeps(x[2..], q);
    } else {
      Unfold(x[0], CloseUp(x[1..]), q);
      CloseUpKeeps(x[1..], Next(q, x[0]));
    }
  }

  lemma NoGaps(q: Quote)
    ensures !QuotedGap("", q) && !OutsideGap("", q) && !QuotedWideGap("", q)
  {
  }

  /** A gap is left by closing up exactly where a wider one was; outside quotes none is left of a
      squeezed text. */
  lemma {:induction false} GapsLeft(x: string, q: Quote, lastSpace: bool)
    requires Squeezed(x, q, lastSpace) == x
    ensures QuotedGap(CloseUp(x), q) <==> QuotedWideGap(x, q)
    ensures !OutsideGap(CloseUp(x), q)
    ensures x != "" ==> CloseUp(x) != "" && (CloseUp(x)[0] == ';' <==> x[0] == ';' || StartsWith(x, " ;"))
    decreases |x|
  {
    hide CloseUp, QuotedGap, OutsideGap, QuotedWideGap, Squeezed, Bare, Read;
    if x == "" {
      NothingToClose();
      NoGaps(q);
      return;
    }
    CloseUpOne(x);
    SqueezeOne(x, q, lastSpace);
    assert x == [x[0]] + x[1..];
    Unfold(x[0], x[1..], q);
    var l := if q.Some? then lastSpace else x[0] == ' ';
    if StartsWith(x, " ;") {
      assert x[1..] == [';'] + x[2..];
      SqueezeOne(x[1..], q, l);
      Unfold(';', x[2..], q);
      Unfold(';', CloseUp(x[2..]), q);
      GapsLeft(x[2..], q, if q.Some? then l else false);
    } else {
      Unfold(x[0], CloseUp(x[1..]), q);
      GapsLeft(x[1..], Next(q, x[0]), l);
      if x[1..] != "" {
        CloseUpOne(x[1..]);
        SqueezeOne(x[1..], Next(q, x[0]), l);
        assert x[1] == x[1..][0];
      } else {
        NothingToClose();
      }
    }
  }

  // ── doing it twice ─────────────────────────────────────────────────────────

  lemma {:induction false} SqueezedTwice(s: string, q: Quote, lastSpace: bool)
    ensures Squeezed(Squeezed(s, q, lastSpace), q, lastSpace) == Squeezed(s, q, lastSpace)
    decreases |s|
  {
    if s != "" {
      hide Squeezed;
      SqueezeOne(s, q, lastSpace);
      var l := if q.Some? then lastSpace else s[0] == ' ';
      SqueezedTwice(s[1..], Next(q, s[0]), l);
      if !(q.None? && s[0] == ' ' && lastSpace) {
        SqueezeOne(Squeezed(s, q, lastSpace), q, lastSpace);
        assert Squeezed(s, q, lastSpace)[1..] == Squeezed(s[1..], Next(q, s[0]), l);
      }
    }
  }

  lemma {:induction false} ClosedIsSqueezed(x: string, q: Quote, lastSpace: bool)
    requires Squeezed(x, q, lastSpace) == x
    ensures Squeezed(CloseUp(x), q, lastSpace) == CloseUp(x)
    decreases |x|
  {
    hide CloseUp, Squeezed;
    if x == "" {
      NothingToClose();
      return;
    }
    CloseUpOne(x);
    SqueezeOne(x, q, lastSpace);
    var y := CloseUp(x);
    SqueezeOne(y, q, lastSpace);
    var l := if q.Some? then lastSpace else x[0] == ' ';
    if StartsWith(x, " ;") {
      SqueezeOne(x[1..], q, l);
      assert x[1..][1..] == x[2..] && x[1..][0] == ';' && y[1..] == CloseUp(x[2..]);
      ClosedIsSqueezed(x[2..], q, if q.Some? then l else false);
    } else {
      assert y[1..] == CloseUp(x[1..]);
      ClosedIsSqueezed(x[1..], Next(q, x[0]), l);
    }
  }

  /** What trimming keeps is still squeezed. */
  lemma {:induction false} TrimmedLeftIsSqueezed(y: string)
    requires Squeezed(y, None, false) == y
    ensures Squeezed(TrimLeft(y), None, false) == TrimLeft(y)
  {
    if y != "" && IsSpace(y[0]) {
      SqueezeOne(y, None, false);
      if y[1..] != "" {
        SqueezeOne(y[1..], None, y[0] == ' ');
        SqueezeOne(y[1..], None, false);
      }
      TrimmedLeftIsSqueezed(y[1..]);
    }
  }

  lemma {:induction false} PrefixIsSqueezed(a: string, b: string, q: Quote, lastSpace: bool)
    requires Squeezed(a + b, q, lastSpace) == a + b
    ensures Squeezed(a, q, lastSpace) == a
    decreases |a|
  {
    if a != "" {
      hide Squeezed;
      SqueezeOne(a + b, q, lastSpace);
      SqueezeOne(a, q, lastSpace);
      assert (a + b)[1..] == a[1..] + b;
      PrefixIsSqueezed(a[1..], b, Next(q, a[0]), if q.Some? then lastSpace else a[0] == ' ');
    }
  }

  lemma {:induction false} GapsTrimmedLeft(y: string)
    ensures QuotedGap(TrimLeft(y), None) <==> QuotedGap(y, None)
    ensures OutsideGap(TrimLeft(y), None) ==> OutsideGap(y, None)
    ensures Bare(TrimLeft(y), None) == Bare(y, None) && Read(TrimLeft(y), None) == Read(y, None)
  {
    if y != "" && IsSpace(y[0]) {
      hide QuotedGap, OutsideGap, Bare, Read, QuotedWideGap;
      Unfold(y[0], y[1..], None);
      assert y == [y[0]] + y[1..];
      GapsTrimmedLeft(y[1..]);
    }
  }

  /** Blanks at the end matter to no gap; to the quoted text they do when they are quoted. */
  lemma {:induction false} BlanksAtEnd(a: string, w: string, q: Quote)
    requires Blank(w)
    ensures QuotedGap(a + w, q) <==> QuotedGap(a, q)
    ensures OutsideGap(a, q) ==> OutsideGap(a + w, q)
    ensures Read(a + w, q) == Read(a, q)
    ensures Bare(a + w, q) == Bare(a, q) + if Read(a, q).Some? then w else ""
    decreases |a| + |w|
  {
    hide QuotedGap, OutsideGap, Bare, Read, QuotedWideGap;
    if a != "" {
      var rest := a[1..];
      assert a + w == [a[0]] + (rest + w) && a == [a[0]] + rest;
      Unfold(a[0], rest + w, q);
      Unfold(a[0], rest, q);
      BlanksAtEnd(rest, w, Next(q, a[0]));
    } else {
      NoGaps(q);
      NothingRead(q);
      assert a + w == w;
      BlanksAlone(w, q);
    }
  }

  lemma {:induction false} BlanksAlone(w: string, q: Quote)
    requires Blank(w)
    ensures !QuotedGap(w, q) && Read(w, q) == q && Bare(w, q) == if q.Some? then w else ""
  {
    hide QuotedGap, OutsideGap, Bare, Read, QuotedWideGap;
    if w == "" {
      NoGaps(q);
      NothingRead(q);
    } else {
      assert w == [w[0]] + w[1..];
      Unfold(w[0], w[1..], q);
      BlanksAlone(w[1..], q);
    }
  }

  lemma NothingRead(q: Quote)
    ensures Read("", q) == q && Bare("", q) == ""
  {
  }

  /** Closing up changes nothing exactly when there is no gap. */
  lemma {:induction false} CloseUpChanges(y: string, q: Quote)
    ensures |CloseUp(y)| <= |y|
    ensures !QuotedGap(y, q) && !OutsideGap(y, q) ==> CloseUp(y) == y
    ensures QuotedGap(y, q) || OutsideGap(y, q) ==> |CloseUp(y)| < |y|
    decreases |y|
  {
    hide CloseUp, QuotedGap, OutsideGap, Bare, Read, QuotedWideGap;
    if y == "" {
      NothingToClose();
      NoGaps(q);
      return;
    }
    CloseUpOne(y);
    assert y == [y[0]] + y[1..];
    Unfold(y[0], y[1..], q);
    if StartsWith(y, " ;") {
      assert y[1] == y[1..][0];
      CloseUpChanges(y[2..], q);
    } else {
      CloseUpChanges(y[1..], Next(q, y[0]));
    }
  }

  lemma ClosedTrimmed(s: string)
    ensures
      var z := Collapsed(s);
      && Squeezed(z, None, false) == z && !OutsideGap(z, None)
      && (QuotedGap(z, None) <==> QuotedWideGap(s, None))
  {
    hide Squeezed, CloseUp, QuotedGap, OutsideGap, QuotedWideGap, Bare, Read, TrimLeft, TrimRight;
    var x := Squeezed(s, None, false);
    var y := CloseUp(x);
    SqueezedTwice(s, None, false);
    SqueezedGaps(s, None, false);
    GapsLeft(x, None, false);
    ClosedIsSqueezed(x, None, false);
    TrimmedLeftIsSqueezed(y);
    GapsTrimmedLeft(y);
    var t := TrimLeft(y);
    TrimRightCuts(t);
    var z := TrimRight(t);
    assert t == z + t[|z|..];
    PrefixIsSqueezed(z, t[|z|..], None, false);
    BlanksAtEnd(z, t[|z|..], None);
  }

  lemma {:induction false} TrimIsIdle(s: string)
    ensures Trim(Trim(s)) == Trim(s) && |Trim(s)| <= |s|
  {
    hide Trim, Margin;
    TrimCuts(s);
    if Trim(s) == "" {
      TrimBlank("");
    } else {
      TrimOf("", Trim(s), "");
    }
  }

  /** Collapsing a collapsed text again changes nothing, exactly when the text has no quoted ` ;` with
      another space before it. */
  lemma CollapsedTwice(s: string)
    ensures Collapsed(Collapsed(s)) == Collapsed(s) <==> !QuotedWideGap(s, None)
  {
    hide Squeezed, CloseUp, QuotedGap, OutsideGap, QuotedWideGap, Trim;
    var z := Collapsed(s);
    ClosedTrimmed(s);
    CloseUpChanges(z, None);
    TrimIsIdle(CloseUp(Squeezed(s, None, false)));
    TrimIsIdle(CloseUp(z));
  }

  // ── quoted text ────────────────────────────────────────────────────────────

  lemma {:induction false} LastSqueezed(s: string, q: Quote, lastSpace: bool)
    requires s != "" && Read(s, q).Some?
    ensures
      var x := Squeezed(s, q, lastSpace);
      x != "" && x[|x| - 1] == s[|s| - 1]
    decreases |s|
  {
    hide Squeezed;
    SqueezeOne(s, q, lastSpace);
    if |s| > 1 {
      LastSqueezed(s[1..], Next(q, s[0]), if q.Some? then lastSpace else s[0] == ' ');
    }
  }

  lemma {:induction false} LastClosed(x: string)
    requires x != ""
    ensures CloseUp(x) != "" && CloseUp(x)[|CloseUp(x)| - 1] == x[|x| - 1]
    decreases |x|
  {
    hide CloseUp;
    NothingToClose();
    CloseUpOne(x);
    if StartsWith(x, " ;") {
      if |x| > 2 {
        LastClosed(x[2..]);
      } else {
        assert x[2..] == "";
      }
    } else if |x| > 1 {
      LastClosed(x[1..]);
    } else {
      assert x[1..] == "";
    }
  }

  /** Quoted text survives as it is, and outside quotes nothing but blanks is dropped, exactly when no
      quote holds ` ;` and the text does not end in a blank inside a quote that is never closed. */
  lemma QuotedTextSurvives(s: string)
    ensures Bare(Collapsed(s), None) == Bare(s, None) <==>
            !QuotedGap(s, None) && !(Read(s, None).Some? && s != "" && IsSpace(s[|s| - 1]))
  {
    hide Squeezed, CloseUp, QuotedGap, OutsideGap, QuotedWideGap, Bare, Read, TrimLeft, TrimRight;
    var x := Squeezed(s, None, false);
    var y := CloseUp(x);
    SqueezedKeeps(s, None, false);
    SqueezedGaps(s, None, false);
    CloseUpKeeps(x, None);
    GapsTrimmedLeft(y);
    var t := TrimLeft(y);
    TrimLeftCuts(y);
    TrimRightCuts(t);
    var z := TrimRight(t);
    var w := t[|z|..];
    assert t == z + w;
    BlanksAtEnd(z, w, None);
    if Read(s, None).Some? {
      NothingRead(None);
      LastSqueezed(s, None, false);
      LastClosed(x);
      assert t != "" && t[|t| - 1] == y[|y| - 1];
      assert w == "" <==> !IsSpace(t[|t| - 1]);
    }
  }

  // ── what is kept apart ─────────────────────────────────────────────────────

  function Spaces(n: nat): string {
    seq(n, _ => ' ')
  }

  /** What was squeezed before a character that is no blank does not matter behind it. */
  lemma {:induction false} SqueezedConcat(a: string, b: string, q: Quote, lastSpace: bool)
    requires a != "" && !IsSpace(a[|a| - 1]) && Read(a, q) == None && (q.Some? ==> !lastSpace)
    ensures Squeezed(a + b, q, lastSpace) == Squeezed(a, q, lastSpace) + Squeezed(b, None, false)
    decreases |a|
  {
    var q', l := Next(q, a[0]), if q.Some? then lastSpace else a[0] == ' ';
    if |a| == 1 {
      assert a == [a[0]];
      SqueezedOutside(a[0], b, q, lastSpace);
    } else {
      assert Read(a, q) == Read(a[1..], q');
      assert (a + b)[1..] == a[1..] + b;
      hide Squeezed, Read;
      SqueezeOne(a, q, lastSpace);
      SqueezeOne(a + b, q, lastSpace);
      SqueezedConcat(a[1..], b, q', l);
      OneBefore(a[0], Squeezed(a[1..], q', l), Squeezed(b, None, false));
    }
  }

  lemma SqueezedOutside(c: char, b: string, q: Quote, lastSpace: bool)
    requires !IsSpace(c) && Read([c], q) == None && (q.Some? ==> !lastSpace)
    ensures Squeezed([c] + b, q, lastSpace) == Squeezed([c], q, lastSpace) + Squeezed(b, None, false)
  {
    assert [c][1..] == "" && ([c] + b)[1..] == b;
    NothingRead(Next(q, c));
    NothingSqueezed(Next(q, c), false);
    SqueezeOne([c], q, lastSpace);
    SqueezeOne([c] + b, q, lastSpace);
  }

  lemma OneBefore(c: char, u: string, v: string)
    ensures [c] + (u + v) == ([c] + u) + v
  {
  }

  lemma {:induction false} LastStays(a: string, q: Quote, lastSpace: bool)
    requires a != "" && !IsSpace(a[|a| - 1])
    ensures
      var x := Squeezed(a, q, lastSpace);
      x != "" && x[|x| - 1] == a[|a| - 1]
    decreases |a|
  {
    hide Squeezed;
    SqueezeOne(a, q, lastSpace);
    if |a| > 1 {
      LastStays(a[1..], Next(q, a[0]), if q.Some? then lastSpace else a[0] == ' ');
    }
  }

  lemma NothingSqueezed(q: Quote, lastSpace: bool)
    ensures Squeezed("", q, lastSpace) == ""
  {
  }

  lemma SqueezedFirst(b: string, lastSpace: bool)
    requires b != "" && b[0] != ' '
    ensures Squeezed(b, None, lastSpace) == Squeezed(b, None, false) && Squeezed(b, None, false) != ""
    ensures Squeezed(b, None, false)[0] == b[0]
  {
    SqueezeOne(b, None, lastSpace);
    SqueezeOne(b, None, false);
  }

  lemma {:induction false} SpacesSqueezed(n: nat, b: string, lastSpace: bool)
    requires b != "" && b[0] != ' '
    ensures Squeezed(Spaces(n) + b, None, lastSpace)
         == (if n == 0 || lastSpace then "" else " ") + Squeezed(b, None, false)
  {
    hide Squeezed;
    if n == 0 {
      assert Spaces(0) + b == b;
      SqueezedFirst(b, lastSpace);
    } else {
      var t := Spaces(n) + b;
      assert t[1..] == Spaces(n - 1) + b;
      SqueezeOne(t, None, lastSpace);
      SpacesSqueezed(n - 1, b, true);
    }
  }

  lemma {:induction false} CloseUpConcat(x: string, y: string)
    requires x != "" && x[|x| - 1] != ' '
    ensures CloseUp(x + y) == CloseUp(x) + CloseUp(y)
    decreases |x|
  {
    hide CloseUp;
    CloseUpOne(x);
    CloseUpOne(x + y);
    NothingToClose();
    assert (x + y)[1..] == x[1..] + y;
    if StartsWith(x, " ;") {
      assert (x + y)[2..] == x[2..] + y;
      if |x| == 2 {
        assert x[2..] + y == y;
      } else {
        CloseUpConcat(x[2..], y);
      }
    } else if |x| == 1 {
      assert x[1..] + y == y;
    } else {
      CloseUpConcat(x[1..], y);
    }
  }

  lemma CloseUpBehindSpace(y: string)
    requires y != "" && y[0] != ' '
    ensures CloseUp(" " + y) == (if y[0] == ';' then "" else " ") + CloseUp(y)
    ensures CloseUp(y) != "" && CloseUp(y)[0] == y[0]
  {
    hide CloseUp;
    CloseUpOne(" " + y);
    CloseUpOne(y);
    assert (" " + y)[1..] == y && (" " + y)[2..] == y[1..];
  }

  lemma TrimAround(x: string, gap: string, y: string)
    requires x != "" && !IsSpace(x[|x| - 1]) && y != "" && !IsSpace(y[0])
    ensures Trim(x + gap + y) == Trim(x) + gap + Trim(y)
  {
    assert Margin(y) == 0;
    hide Trim, Margin;
    SolidEnd(x);
    TrimCuts(x);
    TrimCuts(y);
    var w, v := x[..Margin(x)], y[|Trim(y)|..];
    assert x == w + Trim(x);
    assert y == Trim(y) + v;
    assert Trim(y) == "" ==> v == y;
    Around(w, Trim(x), gap, Trim(y), v);
    TrimOf(w, Trim(x) + gap + Trim(y), v);
  }

  lemma Around(w: string, x: string, gap: string, y: string, v: string)
    ensures (w + x) + gap + (y + v) == w + (x + gap + y) + v
  {
  }

  lemma GapClosed(x: string, apart: bool, y: string)
    requires x != "" && !IsSpace(x[|x| - 1]) && y != "" && !IsSpace(y[0])
    ensures
      var gap := if apart && y[0] != ';' then " " else "";
      Trim(CloseUp(x + (if apart then " " else "") + y)) == Trim(CloseUp(x)) + gap + Trim(CloseUp(y))
  {
    hide CloseUp, Trim;
    var gap := if apart && y[0] != ';' then " " else "";
    assert x + "" + y == x + y && x + " " + y == x + (" " + y);
    CloseUpConcat(x, if apart then " " + y else y);
    CloseUpBehindSpace(y);
    LastClosed(x);
    assert CloseUp(x + (if apart then " " else "") + y) == CloseUp(x) + gap + CloseUp(y);
    TrimAround(CloseUp(x), gap, CloseUp(y));
  }

  lemma SqueezedApart(a: string, n: nat, b: string)
    requires a != "" && !IsSpace(a[|a| - 1]) && Read(a, None) == None && b != "" && b[0] != ' '
    ensures
      var x, y := Squeezed(a, None, false), Squeezed(b, None, false);
      && Squeezed(a + Spaces(n) + b, None, false) == x + (if n > 0 then " " else "") + y
      && x != "" && x[|x| - 1] == a[|a| - 1] && y != "" && y[0] == b[0]
  {
    hide Squeezed, Read, Spaces;
    assert a + Spaces(n) + b == a + (Spaces(n) + b);
    SqueezedConcat(a, Spaces(n) + b, None, false);
    LastStays(a, None, false);
    SpacesSqueezed(n, b, false);
    SqueezedFirst(b, false);
  }

  /** Words kept apart by spaces outside quotes, however many, are kept apart by one, and by none before a
      semicolon; words that stand together stay together; and what stands on either side is collapsed by
      itself. */
  lemma WordsStayApart(a: string, n: nat, b: string)
    requires a != "" && !IsSpace(a[|a| - 1]) && Read(a, None) == None && b != "" && !IsSpace(b[0])
    ensures Collapsed(a + Spaces(n) + b) == Collapsed(a) + (if n == 0 || b[0] == ';' then "" else " ") + Collapsed(b)
  {
    hide Squeezed, CloseUp, Trim, Read, Spaces;
    SqueezedApart(a, n, b);
    GapClosed(Squeezed(a, None, false), n > 0, Squeezed(b, None, false));
  }

  /** Two spaces in a row outside quotes. */
  predicate WideGap(s: string, q: Quote) {
    s != "" && ((q.None? && |s| > 1 && s[0] == ' ' && s[1] == ' ') || WideGap(s[1..], Next(q, s[0])))
  }

  lemma {:induction false} SqueezedSame(s: string, q: Quote, lastSpace: bool)
    requires q.Some? ==> !lastSpace
    ensures
      var idle := !WideGap(s, q) && !(lastSpace && s != "" && s[0] == ' ');
      && (idle ==> Squeezed(s, q, lastSpace) == s)
      && (!idle ==> |Squeezed(s, q, lastSpace)| < |s|)
    decreases |s|
  {
    if s != "" {
      SqueezeOne(s, q, lastSpace);
      var l := if q.Some? then lastSpace else s[0] == ' ';
      hide Squeezed;
      SqueezedSame(s[1..], Next(q, s[0]), l);
      assert s == [s[0]] + s[1..];
    }
  }

  /** Collapsing leaves a text as it is exactly when the text begins and ends in no blank, has no two spaces
      in a row outside quotes, and no space before a semicolon anywhere. */
  lemma LeftAsItIs(s: string)
    ensures Collapsed(s) == s <==>
            Trim(s) == s && !WideGap(s, None) && !QuotedGap(s, None) && !OutsideGap(s, None)
  {
    hide Squeezed, CloseUp, QuotedGap, OutsideGap, WideGap, Trim;
    SqueezedSame(s, None, false);
    CloseUpChanges(Squeezed(s, None, false), None);
    TrimIsIdle(CloseUp(Squeezed(s, None, false)));
  }
}
