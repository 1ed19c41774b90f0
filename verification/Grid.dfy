/** The result grid (`ui/result.lua`): column widths and positions in cells, every cell's place in its
    line in bytes, and both under edits in place. */
module Grid {
  import opened DisplayCells

  const SEP: Text := [SPACE, BAR, SPACE]
  const SEP_CELLS := 3
  const SEP_BYTES := 5
  const MAX_CELL := 60

  datatype Column = Column(heading: Text, width: nat, start: nat)

  /** A cell of the grid: its text, and where its padded text stands in the line, in bytes. */
  datatype Box = Box(text: Text, bstart: nat, blen: nat)

  function Joined(parts: seq<Text>): Text {
    if parts == [] then [] else if |parts| == 1 then parts[0] else parts[0] + SEP + Joined(parts[1..])
  }

  /** A line of the grid, a row's or the header's. */
  function LineOf(parts: seq<Text>): Text {
    [SPACE] + Joined(parts) + [SPACE]
  }

  function Padded(texts: seq<Text>, cols: seq<Column>): (parts: seq<Text>)
    requires |texts| == |cols|
    ensures |parts| == |cols|
  {
    seq(|cols|, i requires 0 <= i < |cols| => Pad(texts[i], cols[i].width))
  }

  function Labels(cols: seq<Column>): (ls: seq<Text>)
    ensures |ls| == |cols|
  {
    seq(|cols|, i requires 0 <= i < |cols| => cols[i].heading)
  }

  function HeaderLine(cols: seq<Column>): Text {
    LineOf(Padded(Labels(cols), cols))
  }

  /** Where the `i`-th part begins after a margin of one, parts of these sizes and gaps between. */
  function Start(sizes: seq<nat>, gap: nat, i: nat): nat
    requires i <= |sizes|
  {
    if i == 0 then 1 else Start(sizes, gap, i - 1) + sizes[i - 1] + gap
  }

  function Widths(parts: seq<Text>): (ws: seq<nat>)
    ensures |ws| == |parts|
  {
    seq(|parts|, i requires 0 <= i < |parts| => Width(parts[i]))
  }

  function Lengths(parts: seq<Text>): (ls: seq<nat>)
    ensures |ls| == |parts|
  {
    seq(|parts|, i requires 0 <= i < |parts| => |Bytes(parts[i])|)
  }

  // ── a line around one of its parts ─────────────────────────────────────────

  function Before(parts: seq<Text>, i: nat): Text
    requires i <= |parts|
  {
    if i == 0 then [SPACE] else Before(parts, i - 1) + parts[i - 1] + SEP
  }

  function Behind(parts: seq<Text>, i: nat): Text
    requires i < |parts|
    decreases |parts| - i
  {
    if i + 1 == |parts| then [SPACE] else SEP + parts[i + 1] + Behind(parts, i + 1)
  }

  lemma {:induction false} JoinedFrom(parts: seq<Text>, i: nat)
    requires i < |parts|
    ensures Joined(parts[i..]) + [SPACE] == parts[i] + Behind(parts, i)
    decreases |parts| - i
  {
    if i + 1 < |parts| {
      JoinedFrom(parts, i + 1);
      assert parts[i..][1..] == parts[i + 1..];
      assert parts[i] + SEP + Joined(parts[i + 1..]) + [SPACE] == parts[i] + (SEP + (Joined(parts[i + 1..]) + [SPACE]));
      assert SEP + (parts[i + 1] + Behind(parts, i + 1)) == SEP + parts[i + 1] + Behind(parts, i + 1);
    }
  }

  lemma {:induction false} LineAround(parts: seq<Text>, i: nat)
    requires i < |parts|
    ensures LineOf(parts) == Before(parts, i) + (parts[i] + Behind(parts, i))
  {
    if i == 0 {
      JoinedFrom(parts, 0);
      assert parts[0..] == parts;
      assert [SPACE] + Joined(parts) + [SPACE] == [SPACE] + (Joined(parts) + [SPACE]);
    } else {
      LineAround(parts, i - 1);
      var b, p, r := Before(parts, i - 1), parts[i - 1], parts[i] + Behind(parts, i);
      assert Behind(parts, i - 1) == SEP + parts[i] + Behind(parts, i) == SEP + r;
      assert b + (p + (SEP + r)) == (b + p + SEP) + r;
    }
  }

  lemma SeparatorSize()
    ensures Width(SEP) == SEP_CELLS && |Bytes(SEP)| == SEP_BYTES
    ensures Width([SPACE]) == 1 && |Bytes([SPACE])| == 1
  {
    OneGlyph(SPACE);
    OneGlyph(BAR);
    assert SEP == [SPACE] + ([BAR] + [SPACE]);
    CellsConcat([BAR], [SPACE]);
    CellsConcat([SPACE], [BAR] + [SPACE]);
    BytesConcat([BAR], [SPACE]);
    BytesConcat([SPACE], [BAR] + [SPACE]);
  }

  lemma {:induction false} BeforeSize(parts: seq<Text>, i: nat)
    requires i <= |parts|
    ensures Width(Before(parts, i)) == Start(Widths(parts), SEP_CELLS, i)
    ensures |Bytes(Before(parts, i))| == Start(Lengths(parts), SEP_BYTES, i)
  {
    hide Cells, Width, Bytes;
    SeparatorSize();
    if i > 0 {
      BeforeSize(parts, i - 1);
      var b, p := Before(parts, i - 1), parts[i - 1];
      CellsConcat(b + p, SEP);
      CellsConcat(b, p);
      BytesConcat(b + p, SEP);
      BytesConcat(b, p);
    }
  }

  /** Part `i` of a line stands at the cells and at the bytes counted for it. */
  lemma PartStands(parts: seq<Text>, i: nat)
    requires i < |parts|
    ensures
      var at := Start(Widths(parts), SEP_CELLS, i);
      at + Width(parts[i]) <= Width(LineOf(parts)) && Cells(LineOf(parts))[at..at + Width(parts[i])] == Cells(parts[i])
    ensures
      var at, n := Start(Lengths(parts), SEP_BYTES, i), |Bytes(parts[i])|;
      && Bytes(LineOf(parts)) == Bytes(Before(parts, i)) + Bytes(parts[i]) + Bytes(Behind(parts, i))
      && at == |Bytes(Before(parts, i))| && at + n <= |Bytes(LineOf(parts))| &&
         Bytes(LineOf(parts))[at..at + n] == Bytes(parts[i])
  {
    hide LineOf, Before, Behind, Start, Cells, Bytes;
    LineAround(parts, i);
    BeforeSize(parts, i);
    var b, p, r := Before(parts, i), parts[i], Behind(parts, i);
    CellsConcat(b, p + r);
    CellsConcat(p, r);
    BytesConcat(b, p + r);
    BytesConcat(p, r);
    assert Bytes(b) + (Bytes(p) + Bytes(r)) == Bytes(b) + Bytes(p) + Bytes(r);
  }

  /** What stands in front of a part: the margin, or a bar between two blanks. */
  lemma InFront(parts: seq<Text>, i: nat)
    requires i < |parts|
    ensures
      var line, at := Cells(LineOf(parts)), Start(Widths(parts), SEP_CELLS, i);
      && at <= |line|
      && (i == 0 ==> line[..at] == [BLANK])
      && (i > 0 ==> at >= 3 && line[at - 3..at] == [BLANK, Part(BAR, 0), BLANK])
      && (i + 1 == |parts| ==> at + Width(parts[i]) <= |line| && line[at + Width(parts[i])..] == [BLANK])
  {
    var at := Start(Widths(parts), SEP_CELLS, i);
    SeparatorCells();
    LineAround(parts, i);
    BeforeSize(parts, i);
    EndsInGap(parts, i);
    assert i + 1 == |parts| ==> Behind(parts, i) == [SPACE];
    hide Cells, Width, Before, Behind, LineOf, Start;
    CellsConcat(Before(parts, i), parts[i] + Behind(parts, i));
    CellsConcat(parts[i], Behind(parts, i));
  }

  lemma SeparatorCells()
    ensures Cells([SPACE]) == [BLANK] && Cells(SEP) == [BLANK, Part(BAR, 0), BLANK]
  {
    OneGlyph(SPACE);
    OneGlyph(BAR);
    assert PartsOf(SPACE) == [BLANK] && PartsOf(BAR) == [Part(BAR, 0)];
    assert SEP == [SPACE] + ([BAR] + [SPACE]);
    CellsConcat([BAR], [SPACE]);
    CellsConcat([SPACE], [BAR] + [SPACE]);
  }

  lemma EndsInGap(parts: seq<Text>, i: nat)
    requires i <= |parts|
    ensures
      var b := Cells(Before(parts, i));
      && (i == 0 ==> b == Cells([SPACE]))
      && (i > 0 ==> |b| >= |Cells(SEP)| && b[|b| - |Cells(SEP)|..] == Cells(SEP))
  {
    hide Cells, Width;
    if i > 0 {
      CellsConcat(Before(parts, i - 1) + parts[i - 1], SEP);
    }
  }

  // ── laying out the grid ────────────────────────────────────────────────────

  /** Columns stand where their widths put them. */
  ghost predicate Placed(cols: seq<Column>) {
    forall i :: 0 <= i < |cols| ==> cols[i].start == Start(ColumnWidths(cols), SEP_CELLS, i)
  }

  function ColumnWidths(cols: seq<Column>): (ws: seq<nat>)
    ensures |ws| == |cols|
  {
    seq(|cols|, i requires 0 <= i < |cols| => cols[i].width)
  }

  /** No text is wider than its column. */
  ghost predicate Fits(texts: seq<Text>, cols: seq<Column>) {
    |texts| == |cols| && (forall i :: 0 <= i < |cols| ==> Width(texts[i]) <= cols[i].width)
  }

  lemma {:induction false} StartOnly(a: seq<nat>, b: seq<nat>, gap: nat, i: nat)
    requires i <= |a| && i <= |b| && (forall j :: 0 <= j < i ==> a[j] == b[j])
    ensures Start(a, gap, i) == Start(b, gap, i)
  {
    if i > 0 {
      StartOnly(a, b, gap, i - 1);
    }
  }

  /** A column occupies the same cells in every line whose texts fit: in each row and in the header. */
  lemma ColumnsAlign(texts: seq<Text>, cols: seq<Column>, i: nat)
    requires Placed(cols) && Fits(texts, cols) && i < |cols|
    ensures
      var line, at := Cells(LineOf(Padded(texts, cols))), cols[i].start;
      at + cols[i].width <= |line| && line[at..at + cols[i].width] == Shown(Cells(texts[i]), 0, cols[i].width)
  {
    hide LineOf, Start, Cells, Shown, Pad;
    var parts := Padded(texts, cols);
    forall j | 0 <= j < |cols| ensures Width(parts[j]) == cols[j].width {
      PadFills(texts[j], cols[j].width);
    }
    PadFills(texts[i], cols[i].width);
    PartStands(parts, i);
    StartOnly(Widths(parts), ColumnWidths(cols), SEP_CELLS, i);
  }

  ghost predicate FitsAll(rows: seq<seq<Text>>, n: nat) {
    forall r :: 0 <= r < |rows| ==> |rows[r]| == n
  }

  /** `w` is the widest of the label and the texts of a column. */
  ghost predicate Widest(w: nat, heading: Text, rows: seq<seq<Text>>, ci: nat)
    requires forall r :: 0 <= r < |rows| ==> ci < |rows[r]|
  {
    && Width(heading) <= w && (forall r :: 0 <= r < |rows| ==> Width(rows[r][ci]) <= w)
    && (w == Width(heading) || exists r :: 0 <= r < |rows| && w == Width(rows[r][ci]))
  }

  /** What a displayed value becomes in the grid. */
  ghost predicate CutTo(text: Text, value: Text, max: nat) {
    && (Width(value) <= max ==> text == value)
    && (Width(value) > max && max >= 1 ==>
          Width(text) == max && Cells(text) == Shown(Cells(value), 0, max - 1) + PartsOf(ELLIPSIS))
  }

  /** One row's texts, and the column widths they widen. */
  method CutRow(values: seq<Text>, widths: seq<nat>) returns (texts: seq<Text>, wider: seq<nat>)
    requires |values| == |widths|
    ensures |texts| == |wider| == |values|
    ensures forall ci :: 0 <= ci < |values| ==>
              && CutTo(texts[ci], values[ci], MAX_CELL)
              && wider[ci] == if Width(texts[ci]) > widths[ci] then Width(texts[ci]) else widths[ci]
  {
    texts, wider := [], [];
    for ci := 0 to |values|
      invariant |texts| == |wider| == ci
      invariant forall j :: 0 <= j < ci ==>
                  && CutTo(texts[j], values[j], MAX_CELL)
                  && wider[j] == if Width(texts[j]) > widths[j] then Width(texts[j]) else widths[j]
    {
      var text, _ := CutCells(values[ci], MAX_CELL);
      texts := texts + [text];
      wider := wider + [if Width(text) > widths[ci] then Width(text) else widths[ci]];
    }
  }

  lemma WidestGrows(w: nat, heading: Text, rows: seq<seq<Text>>, row: seq<Text>, ci: nat)
    requires (forall r :: 0 <= r < |rows| ==> ci < |rows[r]|) && ci < |row| && Widest(w, heading, rows, ci)
    ensures Widest(if Width(row[ci]) > w then Width(row[ci]) else w, heading, rows + [row], ci)
  {
    if Width(row[ci]) > w {
      assert (rows + [row])[|rows|] == row;
    } else if w != Width(heading) {
      var r :| 0 <= r < |rows| && w == Width(rows[r][ci]);
      assert (rows + [row])[r] == rows[r];
    }
  }

  function PlacedAs(labels: seq<Text>, widths: seq<nat>): (cols: seq<Column>)
    requires |labels| == |widths|
    ensures |cols| == |labels|
  {
    seq(|labels|, i requires 0 <= i < |labels| => Column(labels[i], widths[i], Start(widths, SEP_CELLS, i)))
  }

  method PlaceColumns(labels: seq<Text>, widths: seq<nat>) returns (cols: seq<Column>)
    requires |labels| == |widths|
    ensures |cols| == |labels| && Labels(cols) == labels && ColumnWidths(cols) == widths && Placed(cols)
  {
    hide Start;
    cols := [];
    var at := 1;
    StartAtMargin(widths, SEP_CELLS);
    for ci := 0 to |labels|
      invariant at == Start(widths, SEP_CELLS, ci) && cols == PlacedAs(labels, widths)[..ci]
    {
      StartNext(widths, SEP_CELLS, ci);
      cols := cols + [Column(labels[ci], widths[ci], at)];
      at := at + widths[ci] + SEP_CELLS;
    }
    assert ColumnWidths(cols) == widths && Labels(cols) == labels;
  }

  /** The grid's columns and texts: each text cut to at most `MAX_CELL` cells, each column as wide as its
      widest content, one after another across the line. */
  method Layout(labels: seq<Text>, rows: seq<seq<Text>>) returns (cols: seq<Column>, texts: seq<seq<Text>>)
    requires FitsAll(rows, |labels|)
    ensures |cols| == |labels| && Labels(cols) == labels && Placed(cols)
    ensures |texts| == |rows| && FitsAll(texts, |labels|)
    ensures forall r, ci :: 0 <= r < |rows| && 0 <= ci < |labels| ==> CutTo(texts[r][ci], rows[r][ci], MAX_CELL)
    ensures forall ci :: 0 <= ci < |cols| ==> Widest(cols[ci].width, labels[ci], texts, ci)
  {
    var widths := [];
    for ci := 0 to |labels|
      invariant |widths| == ci && forall j :: 0 <= j < ci ==> widths[j] == Width(labels[j])
    {
      widths := widths + [Width(labels[ci])];
    }
    texts := [];
    for ri := 0 to |rows|
      invariant |widths| == |labels| && |texts| == ri && FitsAll(texts, |labels|)
      invariant forall r, ci :: 0 <= r < ri && 0 <= ci < |labels| ==> CutTo(texts[r][ci], rows[r][ci], MAX_CELL)
      invariant forall ci :: 0 <= ci < |labels| ==> Widest(widths[ci], labels[ci], texts, ci)
    {
      hide Widest, CutTo;
      var row, wider := CutRow(rows[ri], widths);
      forall ci | 0 <= ci < |labels| ensures Widest(wider[ci], labels[ci], texts + [row], ci) {
        WidestGrows(widths[ci], labels[ci], texts, row, ci);
      }
      texts, widths := texts + [row], wider;
    }
    cols := PlaceColumns(labels, widths);
  }

  /** In a grid as laid out every column stands at the same cells in the header and in all rows, which
      show its heading and its texts there, filled up with blanks. */
  lemma LaidOutAligned(cols: seq<Column>, texts: seq<seq<Text>>, i: nat)
    requires Placed(cols) && FitsAll(texts, |cols|) && i < |cols|
    requires forall ci :: 0 <= ci < |cols| ==> Widest(cols[ci].width, cols[ci].heading, texts, ci)
    ensures
      var from, to, header := cols[i].start, cols[i].start + cols[i].width, Cells(HeaderLine(cols));
      && to <= |header| && header[from..to] == Shown(Cells(cols[i].heading), 0, cols[i].width)
      && (forall r :: 0 <= r < |texts| ==>
            var line := Cells(LineOf(Padded(texts[r], cols)));
            to <= |line| && line[from..to] == Shown(Cells(texts[r][i]), 0, cols[i].width))
  {
    hide Cells, Shown, LineOf, Padded, Placed, Width;
    ColumnsAlign(Labels(cols), cols, i);
    forall r | 0 <= r < |texts|
      ensures
        var line := Cells(LineOf(Padded(texts[r], cols)));
        && cols[i].start + cols[i].width <= |line|
        && line[cols[i].start..cols[i].start + cols[i].width] == Shown(Cells(texts[r][i]), 0, cols[i].width)
    {
      ColumnsAlign(texts[r], cols, i);
    }
  }

  // ── a row in the buffer ────────────────────────────────────────────────────

  function Texts(cells: seq<Box>): (ts: seq<Text>)
    ensures |ts| == |cells|
  {
    seq(|cells|, i requires 0 <= i < |cells| => cells[i].text)
  }

  /** The boxes of these texts in the line of these parts: each names the bytes of its own part. */
  function BoxesOf(texts: seq<Text>, parts: seq<Text>): (cells: seq<Box>)
    requires |texts| == |parts|
    ensures |cells| == |texts|
  {
    seq(|texts|, i requires 0 <= i < |texts| => Box(texts[i], Start(Lengths(parts), SEP_BYTES, i), |Bytes(parts[i])|))
  }

  /** Lay out one row: its padded parts and, byte by byte, where they go. */
  method MeasureRow(cols: seq<Column>, texts: seq<Text>) returns (parts: seq<Text>, boxes: seq<Box>)
    requires |texts| == |cols|
    ensures parts == Padded(texts, cols) && boxes == BoxesOf(texts, parts)
  {
    hide Start, Bytes, Pad;
    ghost var all := Padded(texts, cols);
    var bpos := 1;
    parts, boxes := [], [];
    StartAtMargin(Lengths(all), SEP_BYTES);
    for ci := 0 to |cols|
      invariant parts == all[..ci] && boxes == BoxesOf(texts, all)[..ci]
      invariant bpos == Start(Lengths(all), SEP_BYTES, ci)
    {
      var part := Pad(texts[ci], cols[ci].width);
      assert part == all[ci];
      assert Box(texts[ci], bpos, |Bytes(part)|) == BoxesOf(texts, all)[ci];
      StartNext(Lengths(all), SEP_BYTES, ci);
      boxes := boxes + [Box(texts[ci], bpos, |Bytes(part)|)];
      parts := parts + [part];
      bpos := bpos + |Bytes(part)| + SEP_BYTES;
    }
    assert all[..|cols|] == all && BoxesOf(texts, all)[..|cols|] == BoxesOf(texts, all);
  }

  class GridRow {
    const cols: seq<Column>
    var cells: seq<Box>
    var line: seq<byte>

    /** The line is the padded cells joined, and every box measures its own. */
    ghost predicate Valid()
      reads this
    {
      && |cells| == |cols|
      && line == Bytes(LineOf(Padded(Texts(cells), cols)))
      && cells == BoxesOf(Texts(cells), Padded(Texts(cells), cols))
    }

    constructor (cols: seq<Column>, texts: seq<Text>)
      requires |texts| == |cols|
      ensures Valid() && this.cols == cols && Texts(cells) == texts
    {
      hide Start, Bytes, Pad, LineOf;
      var parts, boxes := MeasureRow(cols, texts);
      this.cols := cols;
      cells := boxes;
      line := Bytes(LineOf(parts));
      new;
      assert Texts(cells) == texts;
    }

    /** Write an edited value into its cell, in place, and measure the row again. */
    method Edit(ci: nat, value: Text) returns (text: Text)
      requires Valid() && ci < |cols|
      modifies this
      ensures Valid() && Texts(cells) == old(Texts(cells))[ci := text]
      ensures CutTo(text, value, cols[ci].width) && (Width(value) > cols[ci].width == 0 ==> text == [ELLIPSIS])
      ensures old(Fits(Texts(cells), cols)) ==>
                (Fits(Texts(cells), cols) <==> cols[ci].width >= 1 || Width(value) == 0)
    {
      hide Start, Bytes, Pad, LineOf, Cells, Shown, BoxesOf, Remeasured, Padded;
      var truncated;
      text, truncated := CutCells(value, cols[ci].width);
      OneGlyph(ELLIPSIS);
      ghost var texts, was := Texts(cells)[ci := text], cells;
      ghost var parts := Padded(texts, cols);
      var part := Pad(text, cols[ci].width);
      PaddedEdited(Texts(cells), cols, ci, text);
      LineRewritten(cells, Padded(Texts(cells), cols), ci, part);
      line := line[..cells[ci].bstart] + Bytes(part) + line[cells[ci].bstart + cells[ci].blen..];
      var bpos := 1;
      StartAtMargin(Lengths(parts), SEP_BYTES);
      NothingRemeasured(was, BoxesOf(texts, parts));
      for i := 0 to |cols|
        invariant |cells| == |cols| && bpos == Start(Lengths(parts), SEP_BYTES, i)
        invariant Remeasured(cells, was, BoxesOf(texts, parts), i) && line == Bytes(LineOf(parts))
      {
        ghost var before := cells;
        RemeasureOne(cells, was, Padded(Texts(was), cols), ci, text, part, i);
        cells := cells[i := cells[i].(bstart := bpos)];
        if i == ci {
          cells := cells[i := cells[i].(blen := |Bytes(part)|, text := text)];
        }
        assert cells == before[i := cells[i]];
        bpos := bpos + cells[i].blen + SEP_BYTES;
      }
      AllRemeasured(cells, was, texts, parts);
    }
  }

  lemma PaddedEdited(texts: seq<Text>, cols: seq<Column>, ci: nat, text: Text)
    requires |texts| == |cols| && ci < |cols|
    ensures Padded(texts[ci := text], cols) == Padded(texts, cols)[ci := Pad(text, cols[ci].width)]
  {
    hide Pad;
  }

  ghost predicate Remeasured(cells: seq<Box>, was: seq<Box>, boxes: seq<Box>, i: nat) {
    |cells| == |was| == |boxes| && i <= |was| && cells == boxes[..i] + was[i..]
  }

  lemma NothingRemeasured(was: seq<Box>, boxes: seq<Box>)
    requires |was| == |boxes|
    ensures Remeasured(was, was, boxes, 0)
  {
  }

  lemma AllRemeasured(cells: seq<Box>, was: seq<Box>, texts: seq<Text>, parts: seq<Text>)
    requires |texts| == |parts| == |was| && Remeasured(cells, was, BoxesOf(texts, parts), |was|)
    ensures cells == BoxesOf(texts, parts) && Texts(cells) == texts
  {
    hide Start, Bytes;
    assert Texts(BoxesOf(texts, parts)) == texts;
  }

  /** One turn of measuring a row again after cell `ci` has got `text`, padded to `part`. */
  lemma RemeasureOne(cells: seq<Box>, was: seq<Box>, parts: seq<Text>, ci: nat, text: Text, part: Text, i: nat)
    requires |parts| == |was| && ci < |was| && i < |was| && was == BoxesOf(Texts(was), parts)
    requires Remeasured(cells, was, BoxesOf(Texts(was)[ci := text], parts[ci := part]), i)
    ensures
      var at := Start(Lengths(parts[ci := part]), SEP_BYTES, i);
      var box := if i == ci then Box(text, at, |Bytes(part)|) else cells[i].(bstart := at);
      && Remeasured(cells[i := box], was, BoxesOf(Texts(was)[ci := text], parts[ci := part]), i + 1)
      && Start(Lengths(parts[ci := part]), SEP_BYTES, i + 1) == at + box.blen + SEP_BYTES
  {
    hide Start, Bytes;
    var boxes := BoxesOf(Texts(was)[ci := text], parts[ci := part]);
    StartNext(Lengths(parts[ci := part]), SEP_BYTES, i);
    assert cells[i] == was[i];
    assert cells[i := boxes[i]] == boxes[..i + 1] + was[i + 1..];
  }

  lemma StartAtMargin(sizes: seq<nat>, gap: nat)
    ensures Start(sizes, gap, 0) == 1
  {
  }

  lemma StartNext(sizes: seq<nat>, gap: nat, i: nat)
    requires i < |sizes|
    ensures Start(sizes, gap, i + 1) == Start(sizes, gap, i) + sizes[i] + gap
  {
  }

  /** Replacing the bytes a box names replaces its part of the line. */
  lemma LineRewritten(cells: seq<Box>, parts: seq<Text>, ci: nat, part: Text)
    requires |parts| == |cells| && ci < |cells| && cells == BoxesOf(Texts(cells), parts)
    ensures
      var line, at, n := Bytes(LineOf(parts)), cells[ci].bstart, cells[ci].blen;
      at + n <= |line| && Bytes(LineOf(parts[ci := part])) == line[..at] + Bytes(part) + line[at + n..]
  {
    hide LineOf, Start, Bytes;
    PartStands(parts, ci);
    PartStands(parts[ci := part], ci);
    SameBefore(parts, parts[ci := part], ci);
    SameBehind(parts, parts[ci := part], ci);
  }

  lemma {:induction false} SameBefore(a: seq<Text>, b: seq<Text>, i: nat)
    requires i <= |a| == |b| && (forall j :: 0 <= j < i ==> a[j] == b[j])
    ensures Before(a, i) == Before(b, i)
  {
    if i > 0 {
      SameBefore(a, b, i - 1);
    }
  }

  lemma {:induction false} SameBehind(a: seq<Text>, b: seq<Text>, i: nat)
    requires i < |a| == |b| && (forall j :: i < j < |a| ==> a[j] == b[j])
    ensures Behind(a, i) == Behind(b, i)
    decreases |a| - i
  {
    if i + 1 < |a| {
      SameBehind(a, b, i + 1);
    }
  }

  // ── finding and showing a column ───────────────────────────────────────────

  ghost predicate Reached(cols: seq<Column>, cell: nat, ci: nat) {
    && ci < |cols| && (ci > 0 ==> cols[ci].start <= cell)
    && (forall j :: ci < j < |cols| ==> cell < cols[j].start)
  }

  /** The last column whose start `cell` has reached. */
  method ColumnAt(cols: seq<Column>, cell: nat) returns (ci: nat)
    ensures cols != [] ==> Reached(cols, cell, ci)
    ensures cols == [] ==> ci == 0
  {
    ci := 0;
    for i := 0 to |cols|
      invariant ci == 0 || (ci < i && cols[ci].start <= cell)
      invariant forall j :: ci < j < i ==> cell < cols[j].start
    {
      if cell >= cols[i].start {
        ci := i;
      }
    }
  }

  lemma {:induction false} StartsGrow(sizes: seq<nat>, gap: nat, i: nat, j: nat)
    requires i < j <= |sizes|
    ensures Start(sizes, gap, j) >= Start(sizes, gap, i) + sizes[i] + gap
    decreases j
  {
    if i + 1 < j {
      StartsGrow(sizes, gap, i, j - 1);
    }
  }

  /** On a grid as laid out, every cell of a column (and of the gap after it) leads to that column. */
  lemma CellsLeadHome(cols: seq<Column>, cell: nat, ci: nat, i: nat)
    requires Placed(cols) && Reached(cols, cell, ci) && i < |cols|
    requires cols[i].start <= cell < cols[i].start + cols[i].width + SEP_CELLS
    ensures ci == i
  {
    hide Start;
    var ws := ColumnWidths(cols);
    if i < ci {
      StartsGrow(ws, SEP_CELLS, i, ci);
    }
  }

  /** Where `goto_column` scrolls a window of `win` cells to, column 0 being the first. */
  function ScrollTo(ci: nat, left: nat, width: nat, leftcol: nat, win: nat): (r: nat) {
    if left < leftcol then (if ci == 0 then 0 else left)
    else if left + width > leftcol + win then Min(left, if left + width > win then left + width - win else 0)
    else leftcol
  }

  /** The whole column is in view afterwards exactly when it fits the window, save that coming home to
      the first column also needs room for the margin before it. */
  lemma ScrollShowsColumn(ci: nat, left: nat, width: nat, leftcol: nat, win: nat)
    ensures
      var at := ScrollTo(ci, left, width, leftcol, win);
      at <= left && left + width <= at + win <==>
      width <= win && !(ci == 0 && left < leftcol && left + width > win)
    ensures
      var at := ScrollTo(ci, left, width, leftcol, win);
      width > win && (ci > 0 || leftcol <= left) ==> at == left
  {
  }
}
