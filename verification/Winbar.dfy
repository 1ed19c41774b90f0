/** The sticky header (`ui/result.lua`, `winbar`): emitted a segment at a time, as the status-line text
    the editor reads highlights and escapes from. */
module Winbar {
  import opened DisplayCells
  import opened Grid

  const PERCENT := Glyph([0x25], 1)
  const HASH := Glyph([0x23], 1)

  // ── what the editor shows of a status line ─────────────────────────────────

  function PastHash(bar: Text): (r: Text)
    ensures |r| <= |bar|
  {
    if bar == [] then [] else if bar[0] == HASH then bar[1..] else PastHash(bar[1..])
  }

  /** `%#group#` switches the highlight and shows nothing, `%%` shows a percent sign; any other item is
      left out. */
  function Shows(bar: Text): Text
    decreases |bar|
  {
    if bar == [] then []
    else if bar[0] != PERCENT then [bar[0]] + Shows(bar[1..])
    else if |bar| == 1 then []
    else if bar[1] == PERCENT then [PERCENT] + Shows(bar[2..])
    else if bar[1] == HASH then Shows(PastHash(bar[2..]))
    else Shows(bar[2..])
  }

  function Escaped(t: Text): Text {
    if t == [] then [] else (if t[0] == PERCENT then [PERCENT, PERCENT] else [t[0]]) + Escaped(t[1..])
  }

  function Marked(group: Text, t: Text): Text {
    [PERCENT, HASH] + group + [HASH] + Escaped(t)
  }

  lemma {:induction false} ShowsEscaped(t: Text, rest: Text)
    ensures Shows(Escaped(t) + rest) == t + Shows(rest)
    decreases |t|
  {
    if t == [] {
      assert Escaped(t) + rest == rest;
    } else {
      ShowsEscaped(t[1..], rest);
      var head := if t[0] == PERCENT then [PERCENT, PERCENT] else [t[0]];
      assert Escaped(t) + rest == head + (Escaped(t[1..]) + rest);
      assert (head + (Escaped(t[1..]) + rest))[|head|..] == Escaped(t[1..]) + rest;
    }
  }

  lemma {:induction false} PastGroup(group: Text, rest: Text)
    requires HASH !in group
    ensures PastHash(group + ([HASH] + rest)) == rest
  {
    if group != [] {
      assert (group + ([HASH] + rest))[1..] == group[1..] + ([HASH] + rest);
      PastGroup(group[1..], rest);
    }
  }

  /** Whatever follows, `bar` shows `t`. */
  ghost predicate Displays(bar: Text, t: Text) {
    forall rest: Text :: Shows(bar + rest) == t + Shows(rest)
  }

  /** A segment shows its text, percent signs and all. */
  lemma MarkedDisplays(group: Text, t: Text)
    requires HASH !in group
    ensures Displays(Marked(group, t), t)
  {
    forall rest: Text ensures Shows(Marked(group, t) + rest) == t + Shows(rest) {
      var tail := Escaped(t) + rest;
      var bar := Marked(group, t) + rest;
      assert bar == [PERCENT, HASH] + (group + ([HASH] + tail));
      assert bar[2..] == group + ([HASH] + tail);
      PastGroup(group, tail);
      ShowsEscaped(t, rest);
    }
  }

  lemma DisplaysConcat(a: Text, s: Text, b: Text, t: Text)
    requires Displays(a, s) && Displays(b, t)
    ensures Displays(a + b, s + t)
  {
    forall rest: Text ensures Shows(a + b + rest) == s + t + Shows(rest) {
      assert a + b + rest == a + (b + rest);
      assert s + (t + Shows(rest)) == s + t + Shows(rest);
    }
  }

  // ── and in which highlight ─────────────────────────────────────────────────

  function GroupName(bar: Text): Text {
    if bar == [] || bar[0] == HASH then [] else [bar[0]] + GroupName(bar[1..])
  }

  function Tint(n: nat, group: Text): (ts: seq<Text>)
    ensures |ts| == n
  {
    seq(n, _ => group)
  }

  /** The highlight group of every cell shown. */
  function Tints(bar: Text, group: Text): seq<Text>
    decreases |bar|
  {
    if bar == [] then []
    else if bar[0] != PERCENT then Tint(bar[0].width, group) + Tints(bar[1..], group)
    else if |bar| == 1 then []
    else if bar[1] == PERCENT then Tint(PERCENT.width, group) + Tints(bar[2..], group)
    else if bar[1] == HASH then Tints(PastHash(bar[2..]), GroupName(bar[2..]))
    else Tints(bar[2..], group)
  }

  predicate AtMark(bar: Text) {
    bar == [] || (|bar| > 1 && bar[0] == PERCENT && bar[1] == HASH)
  }

  /** Up to the next mark, `bar` shows its cells in the groups `ts`. */
  ghost predicate Paints(bar: Text, ts: seq<Text>) {
    forall rest: Text, group: Text :: AtMark(rest) ==> Tints(bar + rest, group) == ts + Tints(rest, [])
  }

  lemma {:induction false} TintsEscaped(t: Text, rest: Text, group: Text)
    requires AtMark(rest)
    ensures Tints(Escaped(t) + rest, group) == Tint(Width(t), group) + Tints(rest, [])
    decreases |t|
  {
    if t == [] {
      assert Escaped(t) + rest == rest;
    } else {
      TintsEscaped(t[1..], rest, group);
      var head, later := if t[0] == PERCENT then [PERCENT, PERCENT] else [t[0]], Escaped(t[1..]) + rest;
      assert Escaped(t) + rest == head + later;
      GlyphTints(t[0], head, later, group);
      assert Width(t) == t[0].width + Width(t[1..]);
      assert Tint(Width(t), group) == Tint(t[0].width, group) + Tint(Width(t[1..]), group);
      Regroup(Tint(t[0].width, group), Tint(Width(t[1..]), group), Tints(rest, []));
    }
  }

  lemma GlyphTints(g: Glyph, head: Text, later: Text, group: Text)
    requires head == if g == PERCENT then [PERCENT, PERCENT] else [g]
    ensures Tints(head + later, group) == Tint(g.width, group) + Tints(later, group)
  {
    assert (head + later)[|head|..] == later;
  }

  lemma {:induction false} NameOfGroup(group: Text, rest: Text)
    requires HASH !in group
    ensures GroupName(group + ([HASH] + rest)) == group
  {
    if group != [] {
      assert (group + ([HASH] + rest))[1..] == group[1..] + ([HASH] + rest);
      NameOfGroup(group[1..], rest);
    }
  }

  lemma MarkedPaints(group: Text, t: Text)
    requires HASH !in group
    ensures Paints(Marked(group, t), Tint(Width(t), group)) && AtMark(Marked(group, t))
  {
    forall rest: Text, was: Text | AtMark(rest)
      ensures Tints(Marked(group, t) + rest, was) == Tint(Width(t), group) + Tints(rest, [])
    {
      var tail := Escaped(t) + rest;
      var bar := Marked(group, t) + rest;
      assert bar == [PERCENT, HASH] + (group + ([HASH] + tail));
      assert bar[2..] == group + ([HASH] + tail);
      PastGroup(group, tail);
      NameOfGroup(group, tail);
      TintsEscaped(t, rest, group);
    }
  }

  lemma PaintsConcat(a: Text, s: seq<Text>, b: Text, t: seq<Text>)
    requires Paints(a, s) && Paints(b, t) && AtMark(b) && b != []
    ensures Paints(a + b, s + t)
  {
    forall rest: Text, group: Text | AtMark(rest) ensures Tints(a + b + rest, group) == s + t + Tints(rest, []) {
      assert a + b + rest == a + (b + rest);
      assert (b + rest)[0] == b[0] && (b + rest)[1] == b[1];
      assert s + (t + Tints(rest, [])) == s + t + Tints(rest, []);
    }
  }

  lemma PaintedAlone(bar: Text, ts: seq<Text>)
    requires Paints(bar, ts)
    ensures Tints(bar, []) == ts
  {
    assert bar + [] == bar && ts + Tints([], []) == ts;
  }

  // ── painting ───────────────────────────────────────────────────────────────

  function Over(a: int): nat {
    if a > 0 then a else 0
  }

  /** Of `line`, as far as it has been emitted, `shown` is what the window shows from cell `leftcol` on:
      `used` cells, with `skip` still to be scrolled off. */
  ghost predicate Painted(line: Text, leftcol: nat, width: nat, used: nat, skip: nat, shown: Text) {
    && used <= width && Cells(shown) == Shown(Cells(line), leftcol, leftcol + used)
    && (used < width ==> used == Over(Width(line) - leftcol) && skip == Over(leftcol - Width(line)))
    && (used == width ==> width == 0 || leftcol + width <= Width(line))
  }

  lemma FullStays(line: Text, t: Text, leftcol: nat, width: nat, used: nat, skip: nat, shown: Text)
    requires Painted(line, leftcol, width, used, skip, shown) && used >= width
    ensures Painted(line + t, leftcol, width, used, skip, shown)
  {
    hide Cells, Shown;
    CellsConcat(line, t);
    if width > 0 {
      ShownBefore(line, t, leftcol, leftcol + width);
    } else {
      assert Shown(Cells(line), leftcol, leftcol) == Shown(Cells(line + t), leftcol, leftcol) == [];
    }
  }

  lemma SkippedWhole(line: Text, t: Text, leftcol: nat, width: nat, used: nat, skip: nat, shown: Text)
    requires Painted(line, leftcol, width, used, skip, shown) && used < width && skip >= Width(t)
    ensures Painted(line + t, leftcol, width, used, skip - Width(t), shown)
  {
    hide Cells, Shown, Width;
    CellsConcat(line, t);
    if skip == 0 {
      assert Cells(t) == [];
      assert Cells(line + t) == Cells(line);
    } else {
      assert Shown(Cells(line + t), leftcol, leftcol) == [];
    }
  }

  /** A window on a window. */
  lemma ShownTwice(s: Text, lo: nat, n: nat)
    requires lo + n <= Width(s)
    ensures Shown(Shown(Cells(s), lo, Width(s)), 0, n) == Shown(Cells(s), lo, lo + n)
  {
    PartsFit(s);
  }

  lemma SegmentShown(line: Text, t: Text, leftcol: nat, width: nat, used: nat, skip: nat, shown: Text,
                     cut: Text, n: nat)
    requires Painted(line, leftcol, width, used, skip, shown) && used < width && skip < Width(t)
    requires n == Min(Width(t) - skip, width - used) && Cells(cut) == Shown(Cells(t), skip, skip + n)
    ensures Painted(line + t, leftcol, width, used + n, 0, shown + cut)
  {
    hide Cells, Shown, Width;
    CellsConcat(line, t);
    if skip == 0 {
      ShownOn(line, t, leftcol, shown, cut, n);
    } else {
      ShownFirst(line, t, skip, shown, cut, n);
    }
  }

  lemma ShownOn(line: Text, t: Text, leftcol: nat, shown: Text, cut: Text, n: nat)
    requires leftcol <= Width(line) && Cells(shown) == Shown(Cells(line), leftcol, Width(line))
    requires Cells(cut) == Shown(Cells(t), 0, n)
    ensures Cells(shown + cut) == Shown(Cells(line + t), leftcol, Width(line) + n)
  {
    hide Cells, Shown, Width;
    CellsConcat(shown, cut);
    ShownConcat(line, t, leftcol, Width(line) + n);
  }

  lemma CellsAfterNone(shown: Text, cut: Text)
    requires Cells(shown) == []
    ensures Cells(shown + cut) == Cells(cut)
  {
    hide Cells, Width;
    CellsConcat(shown, cut);
  }

  lemma ShownFirst(line: Text, t: Text, skip: nat, shown: Text, cut: Text, n: nat)
    requires Cells(shown) == [] && Cells(cut) == Shown(Cells(t), skip, skip + n)
    ensures Cells(shown + cut) == Shown(Cells(line + t), Width(line) + skip, Width(line) + skip + n)
  {
    hide Cells, Shown, Width;
    CellsAfterNone(shown, cut);
    var lo := Width(line) + skip;
    ShownPast(line, t, lo, lo + n);
    assert lo - Width(line) == skip && lo + n - Width(line) == skip + n;
  }

  /** The groups of the cells shown so far. */
  function Slice(ts: seq<Text>, lo: nat, n: nat): seq<Text> {
    if lo + n <= |ts| then ts[lo..lo + n] else []
  }

  /** The groups a window shows, with `beyond` past the end of the line. */
  function Seen(ts: seq<Text>, lo: nat, n: nat, beyond: Text): seq<Text> {
    seq(n, i requires 0 <= i < n => if lo + i < |ts| then ts[lo + i] else beyond)
  }

  lemma NothingPainted(leftcol: nat)
    ensures Paints([], Slice([], leftcol, 0))
  {
    forall rest: Text, group: Text | AtMark(rest) ensures Tints([] + rest, group) == [] + Tints(rest, []) {
      assert [] + rest == rest;
    }
  }

  lemma SliceKept(line: Text, leftcol: nat, width: nat, used: nat, skip: nat, shown: Text,
                  ts: seq<Text>, more: seq<Text>)
    requires Painted(line, leftcol, width, used, skip, shown) && |ts| == Width(line)
    ensures Slice(ts + more, leftcol, used) == Slice(ts, leftcol, used)
  {
    hide Cells, Shown, Width;
  }

  lemma SliceGrows(line: Text, leftcol: nat, width: nat, used: nat, skip: nat, shown: Text, ts: seq<Text>,
                   w: nat, group: Text, n: nat)
    requires Painted(line, leftcol, width, used, skip, shown) && |ts| == Width(line) && used < width && skip + n <= w
    ensures Slice(ts + Tint(w, group), leftcol, used + n) == Slice(ts, leftcol, used) + Tint(n, group)
  {
    hide Cells, Shown, Width;
  }

  lemma AllSeen(line: Text, leftcol: nat, width: nat, used: nat, skip: nat, shown: Text, ts: seq<Text>, group: Text)
    requires Painted(line, leftcol, width, used, skip, shown) && |ts| == Width(line)
    ensures Slice(ts, leftcol, used) + Tint(width - used, group) == Seen(ts, leftcol, width, group)
    ensures used >= width ==> Slice(ts, leftcol, used) == Seen(ts, leftcol, width, group)
  {
    hide Cells, Shown, Width;
  }

  class Painter {
    const width: nat
    ghost const leftcol: nat
    var out: Text
    var used: nat
    var skip: nat
    ghost var line: Text
    ghost var shown: Text
    ghost var lineTints: seq<Text>

    /** What is out shows what the window shows of the line so far, cell by cell in its highlight. */
    ghost predicate Valid()
      reads this
    {
      && Painted(line, leftcol, width, used, skip, shown) && Displays(out, shown)
      && |lineTints| == Width(line) && Paints(out, Slice(lineTints, leftcol, used))
    }

    constructor (leftcol: nat, width: nat)
      ensures Valid() && line == [] && lineTints == [] && this.leftcol == leftcol && this.width == width
    {
      this.leftcol, this.width := leftcol, width;
      out, used, skip, line, shown, lineTints := [], 0, leftcol, [], [], [];
      new;
      assert forall rest: Text :: [] + rest == rest;
      NothingPainted(leftcol);
    }

    method Emit(segment: Text, group: Text)
      requires Valid() && HASH !in group
      modifies this
      ensures Valid() && line == old(line) + segment && lineTints == old(lineTints) + Tint(Width(segment), group)
    {
      hide Painted, Displays, Cells, Shown, Width, Paints;
      CellsConcat(line, segment);
      SliceKept(line, leftcol, width, used, skip, shown, lineTints, Tint(Width(segment), group));
      line := line + segment;
      lineTints := lineTints + Tint(Width(segment), group);
      if used >= width {
        FullStays(old(line), segment, leftcol, width, used, skip, shown);
        return;
      }
      var text := segment;
      var w := Width(text);
      if skip >= w {
        SkippedWhole(old(line), segment, leftcol, width, used, skip, shown);
        skip := skip - w;
        return;
      }
      ShownWhole(text);
      if skip > 0 {
        text := DropCells(text, skip);
        w := Width(text);
        skip := 0;
      }
      if used + w > width {
        ShownTwice(segment, old(skip), width - used);
        text := TakeCells(text, width - used);
        w := Width(text);
      }
      SliceGrows(old(line), leftcol, width, used, old(skip), shown, old(lineTints), Width(segment), group, w);
      SegmentShown(old(line), segment, leftcol, width, used, old(skip), shown, text, w);
      MarkedDisplays(group, text);
      DisplaysConcat(out, shown, Marked(group, text), text);
      MarkedPaints(group, text);
      PaintsConcat(out, Slice(old(lineTints), leftcol, used), Marked(group, text), Tint(w, group));
      used := used + w;
      out := out + Marked(group, text);
      shown := shown + text;
    }

    /** Fill up to the window's edge. */
    method Finish(group: Text)
      requires Valid() && HASH !in group
      modifies this
      ensures Cells(Shows(out)) == Shown(Cells(line), leftcol, leftcol + width) && line == old(line)
      ensures Tints(out, []) == Seen(lineTints, leftcol, width, group) && lineTints == old(lineTints)
    {
      hide Painted, Displays, Cells, Shown, Width, Shows, Paints, Tints, Seen, Slice;
      AllSeen(line, leftcol, width, used, skip, shown, lineTints, group);
      if used < width {
        Filled(line, leftcol, width, used, skip, shown);
        var pad := Spaces(width - used);
        MarkedDisplays(group, pad);
        DisplaysConcat(out, shown, Marked(group, pad), pad);
        MarkedPaints(group, pad);
        SpacesAreBlanks(width - used);
        PaintsConcat(out, Slice(lineTints, leftcol, used), Marked(group, pad), Tint(width - used, group));
        out := out + Marked(group, pad);
        shown := shown + pad;
      } else {
        AllPainted(line, leftcol, width, used, skip, shown);
      }
      DisplayedAlone(out, shown);
      PaintedAlone(out, Seen(lineTints, leftcol, width, group));
    }
  }

  lemma AllPainted(line: Text, leftcol: nat, width: nat, used: nat, skip: nat, shown: Text)
    requires Painted(line, leftcol, width, used, skip, shown) && used >= width
    ensures Cells(shown) == Shown(Cells(line), leftcol, leftcol + width)
  {
  }

  lemma DisplayedAlone(bar: Text, t: Text)
    requires Displays(bar, t)
    ensures Shows(bar) == t
  {
    assert bar + [] == bar && t + Shows([]) == t;
  }

  lemma Filled(line: Text, leftcol: nat, width: nat, used: nat, skip: nat, shown: Text)
    requires Painted(line, leftcol, width, used, skip, shown) && used < width
    ensures Cells(shown + Spaces(width - used)) == Shown(Cells(line), leftcol, leftcol + width)
  {
    hide Cells, Shown;
    CellsConcat(shown, Spaces(width - used));
    SpacesAreBlanks(width - used);
    if Width(line) <= leftcol {
      ShownBeyond(line, leftcol, leftcol + width);
      assert Cells(shown) == [];
    } else {
      assert line + [] == line;
      ShownConcat(line, [], leftcol, leftcol + width);
      ShownBeyond([], 0, width - used);
    }
  }

  // ── the header ─────────────────────────────────────────────────────────────

  function Ascii(s: string): Text
    requires forall i :: 0 <= i < |s| ==> s[i] as int < 128
  {
    seq(|s|, i requires 0 <= i < |s| => Glyph([s[i] as int as byte], 1))
  }

  const HEADER := "LvimDbHeader"
  const HEADER_ACTIVE := "LvimDbHeaderActive"

  /** The header line as far as column `n` has been emitted. */
  function HeaderUpTo(cols: seq<Column>, n: nat): Text
    requires n <= |cols|
  {
    if n == 0 then [SPACE]
    else (if n == 1 then HeaderUpTo(cols, 0) else HeaderUpTo(cols, n - 1) + SEP) +
         Pad(cols[n - 1].heading, cols[n - 1].width)
  }

  lemma {:induction false} HeaderIsLine(cols: seq<Column>, n: nat)
    requires n < |cols|
    ensures HeaderUpTo(cols, n + 1) == Before(Padded(Labels(cols), cols), n) + Padded(Labels(cols), cols)[n]
  {
    hide Pad;
    if n > 0 {
      HeaderIsLine(cols, n - 1);
      var parts := Padded(Labels(cols), cols);
      assert HeaderUpTo(cols, n + 1) == (HeaderUpTo(cols, n) + SEP) + parts[n];
      assert Before(parts, n) == (Before(parts, n - 1) + parts[n - 1]) + SEP;
    }
  }

  lemma HeaderComplete(cols: seq<Column>)
    ensures HeaderUpTo(cols, |cols|) + [SPACE] == HeaderLine(cols)
  {
    hide Pad, LineOf, Before, HeaderUpTo, Padded, Labels;
    if cols == [] {
      EmptyHeader(cols);
    } else {
      var parts, n := Padded(Labels(cols), cols), |cols| - 1;
      HeaderIsLine(cols, n);
      LineEnds(parts, n);
    }
  }

  /** A line as its last part ends it. */
  lemma LineEnds(parts: seq<Text>, n: nat)
    requires n + 1 == |parts|
    ensures LineOf(parts) == Before(parts, n) + parts[n] + [SPACE]
  {
    LineAround(parts, n);
    assert Behind(parts, n) == [SPACE];
    hide Behind, Before, LineOf;
    Regroup(Before(parts, n), parts[n], [SPACE]);
  }

  lemma EmptyHeader(cols: seq<Column>)
    requires cols == []
    ensures HeaderUpTo(cols, 0) + [SPACE] == HeaderLine(cols)
  {
    assert [SPACE] + [] + [SPACE] == [SPACE] + [SPACE];
  }

  /** Where the header as far as column `n` ends. */
  function EndOf(cols: seq<Column>, n: nat): nat
    requires n <= |cols|
  {
    if n == 0 then 1 else cols[n - 1].start + cols[n - 1].width
  }

  predicate InColumn(cols: seq<Column>, active: nat, p: nat) {
    active < |cols| && cols[active].start <= p < cols[active].start + cols[active].width
  }

  /** Exactly the active column's cells are bright. */
  ghost predicate OneBright(tints: seq<Text>, cols: seq<Column>, active: nat, plain: Text, bright: Text) {
    forall p :: 0 <= p < |tints| ==> tints[p] == if InColumn(cols, active, p) then bright else plain
  }

  /** A stretch of `n` cells in one highlight, as far as it is the right one. */
  lemma Stretch(tints: seq<Text>, cols: seq<Column>, active: nat, plain: Text, bright: Text, n: nat, group: Text)
    requires OneBright(tints, cols, active, plain, bright)
    requires forall p :: |tints| <= p < |tints| + n ==> group == if InColumn(cols, active, p) then bright else plain
    ensures OneBright(tints + Tint(n, group), cols, active, plain, bright)
  {
    hide InColumn;
  }

  /** Where column `ci` begins and ends, as the cells before it are emitted. */
  lemma ColumnPlace(cols: seq<Column>, ci: nat, active: nat)
    requires Placed(cols) && ci < |cols| && active < |cols|
    ensures ci == 0 ==> cols[ci].start == 1
    ensures ci > 0 ==> cols[ci].start == cols[ci - 1].start + cols[ci - 1].width + SEP_CELLS
    ensures active < ci ==> cols[active].start + cols[active].width + SEP_CELLS <= cols[ci].start
    ensures ci < active ==> cols[ci].start + cols[ci].width + SEP_CELLS <= cols[active].start
  {
    hide Start;
    var ws := ColumnWidths(cols);
    if ci == 0 {
      StartAtMargin(ws, SEP_CELLS);
    } else {
      StartNext(ws, SEP_CELLS, ci - 1);
    }
    if active < ci {
      StartsGrow(ws, SEP_CELLS, active, ci);
    } else if ci < active {
      StartsGrow(ws, SEP_CELLS, ci, active);
    }
  }

  lemma GapTints(tints: seq<Text>, cols: seq<Column>, ci: nat, active: nat, plain: Text, bright: Text)
    requires Placed(cols) && 0 < ci < |cols| && |tints| == EndOf(cols, ci) &&
             OneBright(tints, cols, active, plain, bright)
    ensures OneBright(tints + Tint(Width(SEP), plain), cols, active, plain, bright)
    ensures |tints + Tint(Width(SEP), plain)| == cols[ci].start
  {
    hide OneBright, Placed;
    SeparatorSize();
    ColumnPlace(cols, ci, if active < |cols| then active else ci);
    Stretch(tints, cols, active, plain, bright, Width(SEP), plain);
  }

  lemma HeadingTints(tints: seq<Text>, cols: seq<Column>, ci: nat, active: nat, plain: Text, bright: Text)
    requires Placed(cols) && Fits(Labels(cols), cols) && ci < |cols| && |tints| == cols[ci].start
    requires OneBright(tints, cols, active, plain, bright)
    ensures
      var group := if ci == active then bright else plain;
      var tints' := tints + Tint(Width(Pad(cols[ci].heading, cols[ci].width)), group);
      OneBright(tints', cols, active, plain, bright) && |tints'| == EndOf(cols, ci + 1)
  {
    hide OneBright, Placed, Pad;
    assert Labels(cols)[ci] == cols[ci].heading;
    PadFills(cols[ci].heading, cols[ci].width);
    ColumnPlace(cols, ci, if active < |cols| then active else ci);
    Stretch(tints, cols, active, plain, bright, cols[ci].width, if ci == active then bright else plain);
  }

  lemma EdgeTints(tints: seq<Text>, cols: seq<Column>, active: nat, plain: Text, bright: Text)
    requires Placed(cols) && OneBright(tints, cols, active, plain, bright)
    requires |tints| == 0 || |tints| == EndOf(cols, |cols|)
    ensures OneBright(tints + Tint(Width([SPACE]), plain), cols, active, plain, bright)
    ensures |tints + Tint(Width([SPACE]), plain)| == |tints| + 1
  {
    hide OneBright, Placed;
    OneGlyph(SPACE);
    if active < |cols| {
      ColumnPlace(cols, |cols| - 1, active);
      ColumnPlace(cols, 0, active);
    }
    Stretch(tints, cols, active, plain, bright, 1, plain);
  }

  lemma HeaderGrows(cols: seq<Column>, ci: nat)
    requires ci < |cols|
    ensures HeaderUpTo(cols, 0) == [SPACE]
    ensures HeaderUpTo(cols, ci + 1)
         == (if ci == 0 then HeaderUpTo(cols, 0) else HeaderUpTo(cols, ci) + SEP) +
             Pad(cols[ci].heading, cols[ci].width)
  {
  }

  lemma BrightSeen(tints: seq<Text>, cols: seq<Column>, active: nat, plain: Text, bright: Text,
                   leftcol: nat, width: nat)
    requires Placed(cols) && OneBright(tints, cols, active, plain, bright) && |tints| == EndOf(cols, |cols|) + 1
    ensures forall i :: 0 <= i < width ==>
              Seen(tints, leftcol, width, plain)[i] == if InColumn(cols, active, leftcol + i) then bright else plain
  {
    hide Placed;
    if active < |cols| {
      ColumnPlace(cols, |cols| - 1, active);
    }
  }

  lemma HeaderBegins(cols: seq<Column>, active: nat, plain: Text, bright: Text)
    ensures OneBright([], cols, active, plain, bright) && HeaderUpTo(cols, 0) == [SPACE]
  {
  }

  /** Wherever the grid is scrolled to, the header shows, in exactly as many cells as the window is
      wide, what a window at that place would show of the whole header line; and in a grid as laid out
      exactly the active column's own cells are bright. */
  method Header(cols: seq<Column>, active: nat, leftcol: nat, width: nat) returns (bar: Text)
    ensures Cells(Shows(bar)) == Shown(Cells(HeaderLine(cols)), leftcol, leftcol + width)
    ensures Width(Shows(bar)) == width
    ensures Placed(cols) && Fits(Labels(cols), cols) ==>
              |Tints(bar, [])| == width
              && forall i :: 0 <= i < width ==>
                   Tints(bar, [])[i] == Ascii(if InColumn(cols, active, leftcol + i) then HEADER_ACTIVE else HEADER)
  {
    hide Cells, Shown, Pad, Shows, Painter.Valid, Tints, Fits, Placed, OneBright, Tint, HeaderUpTo, InColumn, Width;
    var p := new Painter(leftcol, width);
    var plain, bright := Ascii(HEADER), Ascii(HEADER_ACTIVE);
    HeaderBegins(cols, active, plain, bright);
    ghost var fits := Placed(cols) && Fits(Labels(cols), cols);
    if fits {
      EdgeTints(p.lineTints, cols, active, plain, bright);
    }
    p.Emit([SPACE], plain);
    for ci := 0 to |cols|
      invariant p.Valid() && p.line == HeaderUpTo(cols, ci) && p.leftcol == leftcol && p.width == width
      invariant fresh(p)
      invariant fits ==> OneBright(p.lineTints, cols, active, plain, bright) && |p.lineTints| == EndOf(cols, ci)
    {
      HeaderGrows(cols, ci);
      if ci > 0 {
        if fits {
          GapTints(p.lineTints, cols, ci, active, plain, bright);
        }
        p.Emit(SEP, plain);
      }
      if fits {
        FirstStart(cols);
        HeadingTints(p.lineTints, cols, ci, active, plain, bright);
      }
      p.Emit(Pad(cols[ci].heading, cols[ci].width), if ci == active then bright else plain);
    }
    if fits {
      EdgeTints(p.lineTints, cols, active, plain, bright);
    }
    p.Emit([SPACE], plain);
    HeaderComplete(cols);
    p.Finish(plain);
    if fits {
      BrightSeen(p.lineTints, cols, active, plain, bright, leftcol, width);
    }
    return p.out;
  }

  lemma FirstStart(cols: seq<Column>)
    requires Placed(cols) && cols != []
    ensures cols[0].start == 1
  {
    ColumnPlace(cols, 0, 0);
  }
}
