/** Slicing text by display cells (`ui/result.lua`). A character has an encoding, measured in bytes, and
    a width, measured in cells; the two have nothing to do with each other. */
module DisplayCells {
  newtype byte = x: int | 0 <= x < 256

  datatype Glyph = Glyph(enc: seq<byte>, width: nat)

  type Text = seq<Glyph>

  const SPACE := Glyph([0x20], 1)
  const ELLIPSIS := Glyph([0xE2, 0x80, 0xA6], 1)
  const BAR := Glyph([0xE2, 0x94, 0x82], 1)

  /** One cell on the screen: the `k`-th of those a glyph covers. */
  datatype Cell = Part(g: Glyph, k: nat)

  const BLANK := Part(SPACE, 0)

  function Width(s: Text): nat {
    if s == [] then 0 else s[0].width + Width(s[1..])
  }

  function Bytes(s: Text): seq<byte> {
    if s == [] then [] else s[0].enc + Bytes(s[1..])
  }

  function PartsOf(g: Glyph): seq<Cell> {
    seq(g.width, k requires k >= 0 => Part(g, k))
  }

  /** The cells `s` is displayed in. */
  function Cells(s: Text): (cs: seq<Cell>)
    ensures |cs| == Width(s)
  {
    if s == [] then [] else PartsOf(s[0]) + Cells(s[1..])
  }

  /** What a window onto the columns `lo` to `hi` shows of a line: its cells, but blanks for a glyph that
      does not fit in whole, and beyond the end. */
  function Shown(cs: seq<Cell>, lo: nat, hi: nat): (r: seq<Cell>)
    requires lo <= hi
    ensures |r| == hi - lo
  {
    seq(hi - lo, i requires 0 <= i < hi - lo =>
      var p := lo + i;
      if p < |cs| && cs[p].k <= p && lo <= p - cs[p].k && p - cs[p].k + cs[p].g.width <= hi then cs[p] else BLANK)
  }

  function Blanks(n: nat): seq<Cell> {
    seq(n, _ => BLANK)
  }

  function Spaces(n: nat): Text {
    seq(n, _ => SPACE)
  }

  function Min(a: int, b: int): int {
    if a <= b then a else b
  }

  // ── cells of joined texts ──────────────────────────────────────────────────

  lemma Regroup<T>(a: seq<T>, b: seq<T>, c: seq<T>)
    ensures a + (b + c) == (a + b) + c
  {
  }

  lemma Rest<T>(a: seq<T>, b: seq<T>)
    requires a != []
    ensures (a + b)[0] == a[0] && (a + b)[1..] == a[1..] + b
  {
  }

  lemma Unroll(s: Text)
    requires s != []
    ensures Cells(s) == PartsOf(s[0]) + Cells(s[1..]) && Bytes(s) == s[0].enc + Bytes(s[1..])
  {
  }

  lemma {:induction false} CellsConcat(a: Text, b: Text)
    ensures Cells(a + b) == Cells(a) + Cells(b) && Width(a + b) == Width(a) + Width(b)
  {
    if a == [] {
      assert a + b == b;
    } else {
      CellsConcat(a[1..], b);
      hide Cells, Width, PartsOf;
      Rest(a, b);
      Unroll(a);
      Unroll(a + b);
      Regroup(PartsOf(a[0]), Cells(a[1..]), Cells(b));
    }
  }

  lemma {:induction false} BytesConcat(a: Text, b: Text)
    ensures Bytes(a + b) == Bytes(a) + Bytes(b)
  {
    if a == [] {
      assert a + b == b;
    } else {
      BytesConcat(a[1..], b);
      hide Bytes;
      Rest(a, b);
      Unroll(a);
      Unroll(a + b);
      Regroup(a[0].enc, Bytes(a[1..]), Bytes(b));
    }
  }

  lemma OneGlyph(g: Glyph)
    ensures Width([g]) == g.width && Bytes([g]) == g.enc && Cells([g]) == PartsOf(g)
  {
    assert [g][1..] == [];
  }

  lemma {:induction false} SpacesAreBlanks(n: nat)
    ensures Cells(Spaces(n)) == Blanks(n) && Width(Spaces(n)) == n && |Bytes(Spaces(n))| == n
  {
    if n > 0 {
      SpacesAreBlanks(n - 1);
      assert Spaces(n)[1..] == Spaces(n - 1);
      assert PartsOf(SPACE) == [BLANK];
    }
  }

  /** Every cell of a text is part of a glyph that lies in it as a whole. */
  lemma {:induction false} PartsFit(s: Text)
    ensures forall p :: 0 <= p < |Cells(s)| ==>
              var c := Cells(s)[p]; c.k <= p && c.k < c.g.width && p - c.k + c.g.width <= |Cells(s)|
  {
    if s != [] {
      PartsFit(s[1..]);
    }
  }

  lemma ShownWhole(s: Text)
    ensures Shown(Cells(s), 0, Width(s)) == Cells(s)
  {
    PartsFit(s);
  }

  /** A window across the seam of two texts is the two windows side by side. */
  lemma ShownConcat(a: Text, b: Text, lo: nat, hi: nat)
    requires lo <= Width(a) <= hi
    ensures Shown(Cells(a + b), lo, hi) == Shown(Cells(a), lo, Width(a)) + Shown(Cells(b), 0, hi - Width(a))
  {
    hide Cells, Width;
    CellsConcat(a, b);
    PartsFit(a);
    PartsFit(b);
  }

  lemma ShownPast(a: Text, b: Text, lo: nat, hi: nat)
    requires Width(a) <= lo <= hi
    ensures Shown(Cells(a + b), lo, hi) == Shown(Cells(b), lo - Width(a), hi - Width(a))
  {
    hide Cells, Width;
    CellsConcat(a, b);
    PartsFit(a);
    PartsFit(b);
  }

  lemma ShownBefore(a: Text, b: Text, lo: nat, hi: nat)
    requires lo <= hi <= Width(a)
    ensures Shown(Cells(a + b), lo, hi) == Shown(Cells(a), lo, hi)
  {
    CellsConcat(a, b);
  }

  lemma ShownBeyond(s: Text, lo: nat, hi: nat)
    requires Width(s) <= lo <= hi
    ensures Shown(Cells(s), lo, hi) == Blanks(hi - lo)
  {
  }

  /** A glyph cut by either edge of the window leaves blanks. */
  lemma ShownStraddle(g: Glyph, rest: Text, lo: nat, hi: nat)
    requires lo <= hi <= g.width && hi - lo < g.width
    ensures Shown(Cells([g] + rest), lo, hi) == Blanks(hi - lo)
  {
    assert ([g] + rest)[1..] == rest;
    assert forall p :: 0 <= p < g.width ==> Cells([g] + rest)[p] == Part(g, p);
  }

  // ── the slices ─────────────────────────────────────────────────────────────

  lemma WidthGrows(s: Text, i: nat)
    requires i < |s|
    ensures Width(s[..i + 1]) == Width(s[..i]) + s[i].width && Width(s) == Width(s[..i + 1]) + Width(s[i + 1..])
  {
    assert s[..i + 1] == s[..i] + [s[i]] && s == s[..i + 1] + s[i + 1..] && [s[i]][1..] == [];
    CellsConcat(s[..i], [s[i]]);
    CellsConcat(s[..i + 1], s[i + 1..]);
  }

  /** The first `n` cells: exactly what a window of that width shows, unless the text is shorter. */
  method TakeCells(s: Text, n: int) returns (r: Text)
    ensures Cells(r) == Shown(Cells(s), 0, if n < 0 then 0 else Min(n, Width(s)))
    ensures n <= 0 ==> r == []
    ensures 0 < n && Width(s) <= n ==> r == s
  {
    if n <= 0 {
      return [];
    }
    if Width(s) <= n {
      ShownWhole(s);
      return s;
    }
    assert s[..|s|] == s;
    var w := 0;
    for i := 0 to |s|
      invariant w == Width(s[..i]) <= n
    {
      WidthGrows(s, i);
      var cw := s[i].width;
      if w + cw > n {
        TakeStraddle(s, i, n);
        return s[..i] + Spaces(n - w);
      }
      w := w + cw;
    }
    return s;
  }

  lemma TakeStraddle(s: Text, i: nat, n: nat)
    requires i < |s| && Width(s[..i]) <= n < Width(s[..i]) + s[i].width
    ensures Cells(s[..i] + Spaces(n - Width(s[..i]))) == Shown(Cells(s), 0, n) && n <= Width(s)
  {
    hide Cells, Shown, Width;
    var a, w := s[..i], Width(s[..i]);
    assert s == a + ([s[i]] + s[i + 1..]);
    ShownConcat(a, [s[i]] + s[i + 1..], 0, n);
    ShownWhole(a);
    ShownStraddle(s[i], s[i + 1..], 0, n - w);
    CellsConcat(a, Spaces(n - w));
    SpacesAreBlanks(n - w);
    WidthGrows(s, i);
  }

  /** All but the first `n` cells. */
  method DropCells(s: Text, n: int) returns (r: Text)
    ensures Cells(r) == Shown(Cells(s), if n < 0 then 0 else Min(n, Width(s)), Width(s))
  {
    ShownWhole(s);
    if n <= 0 {
      return s;
    }
    var w := 0;
    for i := 0 to |s|
      invariant w == Width(s[..i]) <= n
    {
      if w >= n {
        DropAt(s, i, n);
        return s[i..];
      }
      WidthGrows(s, i);
      w := w + s[i].width;
      if w > n {
        DropStraddle(s, i, n);
        return Spaces(w - n) + s[i + 1..];
      }
    }
    assert s[..|s|] == s;
    return [];
  }

  lemma DropAt(s: Text, i: nat, n: nat)
    requires i <= |s| && Width(s[..i]) == n
    ensures n <= Width(s) && Cells(s[i..]) == Shown(Cells(s), n, Width(s))
  {
    assert s == s[..i] + s[i..];
    CellsConcat(s[..i], s[i..]);
    ShownPast(s[..i], s[i..], n, Width(s));
    ShownWhole(s[i..]);
  }

  lemma DropStraddle(s: Text, i: nat, n: nat)
    requires i < |s| && Width(s[..i]) < n < Width(s[..i + 1])
    ensures n <= Width(s) && Cells(Spaces(Width(s[..i + 1]) - n) + s[i + 1..]) == Shown(Cells(s), n, Width(s))
  {
    hide Cells, Shown, Width;
    var a, b, w := s[..i + 1], s[i + 1..], Width(s[..i + 1]);
    WidthGrows(s, i);
    assert s == a + b && a == s[..i] + [s[i]];
    calc {
      Cells(Spaces(w - n) + b);
      { CellsConcat(Spaces(w - n), b); SpacesAreBlanks(w - n); }
      Blanks(w - n) + Cells(b);
      { LastStraddles(s[..i], s[i], n); ShownWhole(b); }
      Shown(Cells(a), n, w) + Shown(Cells(b), 0, Width(b));
      { ShownConcat(a, b, n, Width(s)); }
      Shown(Cells(s), n, Width(s));
    }
  }

  lemma LastStraddles(a: Text, g: Glyph, n: nat)
    requires Width(a) < n < Width(a) + g.width
    ensures Width(a + [g]) == Width(a) + g.width
    ensures Shown(Cells(a + [g]), n, Width(a + [g])) == Blanks(Width(a + [g]) - n)
  {
    hide Cells, Shown;
    CellsConcat(a, [g]);
    assert [g][1..] == [] && [g] + [] == [g];
    ShownPast(a, [g], n, Width(a + [g]));
    ShownStraddle(g, [], n - Width(a), g.width);
  }

  function Pad(s: Text, w: int): Text {
    s + Spaces(if w > Width(s) then w - Width(s) else 0)
  }

  lemma PadFills(s: Text, w: nat)
    ensures Width(Pad(s, w)) == if Width(s) <= w then w else Width(s)
    ensures Width(s) <= w ==> Cells(Pad(s, w)) == Shown(Cells(s), 0, w)
  {
    var n := if w > Width(s) then w - Width(s) else 0;
    CellsConcat(s, Spaces(n));
    SpacesAreBlanks(n);
    if Width(s) <= w {
      assert s == s + [];
      ShownConcat(s, [], 0, w);
      ShownWhole(s);
      ShownBeyond([], 0, w - Width(s));
    }
  }

  /** Cut to `max` cells, the last of them an ellipsis. */
  method CutCells(s: Text, max: int) returns (r: Text, truncated: bool)
    ensures truncated <==> Width(s) > max
    ensures !truncated ==> r == s
    ensures truncated && max >= 1 ==>
              Width(r) == max && Cells(r) == Shown(Cells(s), 0, max - 1) + PartsOf(ELLIPSIS)
    ensures truncated && max < 1 ==> r == [ELLIPSIS]
  {
    if Width(s) <= max {
      return s, false;
    }
    var t := TakeCells(s, max - 1);
    CellsConcat(t, [ELLIPSIS]);
    assert [ELLIPSIS][1..] == [];
    return t + [ELLIPSIS], true;
  }
}
