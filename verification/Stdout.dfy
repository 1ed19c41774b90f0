/** Reassembling the engine's lines from the pieces the editor's channel delivers (`on_stdout` in
    `daemon.lua`): each delivery is a chunk of the stream already split at its newlines, and the last
    piece may be the beginning of a line that continues in the next one. */
module Stdout {
  import opened LuaText

  /** A text as the pieces between its newlines: one more than it has newlines. */
  function SplitLines(s: string): (r: seq<string>)
    ensures r != []
  {
    if s == "" then [""]
    else
      var rest := SplitLines(s[1..]);
      if s[0] == '\n' then [""] + rest else [[s[0]] + rest[0]] + rest[1..]
  }

  lemma JoinHead(first: string, rest: seq<string>)
    requires rest != []
    ensures Join([first] + rest, "\n") == first + "\n" + Join(rest, "\n")
  {
    assert ([first] + rest)[1..] == rest;
  }

  lemma OneBefore(c: char, u: string, v: string)
    ensures ([c] + u) + "\n" + v == [c] + (u + "\n" + v)
  {
  }

  lemma JoinLonger(c: char, first: string, rest: seq<string>)
    ensures Join([[c] + first] + rest, "\n") == [c] + Join([first] + rest, "\n")
  {
    if rest == [] {
      assert [[c] + first] + rest == [[c] + first] && [first] + rest == [first];
    } else {
      JoinHead([c] + first, rest);
      JoinHead(first, rest);
      hide Join;
      OneBefore(c, first, Join(rest, "\n"));
    }
  }

  /** The lines of a text are its pieces between newlines: they hold none, and joined by newlines they are the
      text. */
  lemma {:induction false} LinesAreTheText(s: string)
    ensures Join(SplitLines(s), "\n") == s
    ensures forall i :: 0 <= i < |SplitLines(s)| ==> '\n' !in SplitLines(s)[i]
  {
    if s != "" {
      var rest := SplitLines(s[1..]);
      LinesAreTheText(s[1..]);
      hide Join;
      JoinHead("", rest);
      JoinLonger(s[0], rest[0], rest[1..]);
      assert [rest[0]] + rest[1..] == rest;
      assert s == [s[0]] + s[1..];
    } else {
      assert SplitLines("") == [""];
    }
  }

  function Last(r: seq<string>): string
    requires r != []
  {
    r[|r| - 1]
  }

  /** Two split texts joined where one ends and the other goes on. */
  function Weld(a: seq<string>, b: seq<string>): seq<string>
    requires a != [] && b != []
  {
    a[..|a| - 1] + [Last(a) + b[0]] + b[1..]
  }

  lemma {:induction false} SplitOfConcat(s: string, t: string)
    ensures SplitLines(s + t) == Weld(SplitLines(s), SplitLines(t))
  {
    if s == "" {
      assert s + t == t;
      assert SplitLines(t) == [SplitLines(t)[0]] + SplitLines(t)[1..];
      assert "" + SplitLines(t)[0] == SplitLines(t)[0];
    } else {
      assert (s + t)[1..] == s[1..] + t;
      SplitOfConcat(s[1..], t);
      WeldHead(s[0], SplitLines(s[1..]), SplitLines(t));
    }
  }

  lemma WeldHead(c: char, a: seq<string>, b: seq<string>)
    requires a != [] && b != []
    ensures Weld([""] + a, b) == [""] + Weld(a, b)
    ensures Weld([[c] + a[0]] + a[1..], b) == [[c] + Weld(a, b)[0]] + Weld(a, b)[1..]
  {
    if |a| == 1 {
      assert [c] + (a[0] + b[0]) == ([c] + a[0]) + b[0];
    }
  }

  ghost function Concat(chunks: seq<string>): string {
    if chunks == [] then "" else Concat(chunks[..|chunks| - 1]) + chunks[|chunks| - 1]
  }

  lemma WeldLines(lines: seq<string>, tail: string, data: seq<string>)
    requires data != []
    ensures
      var pieces := [tail + data[0]] + data[1..];
      lines + pieces[..|pieces| - 1] + [pieces[|pieces| - 1]] == Weld(lines + [tail], data)
  {
    var pieces := [tail + data[0]] + data[1..];
    assert pieces[..|pieces| - 1] + [pieces[|pieces| - 1]] == pieces;
    assert (lines + [tail])[..|lines|] == lines;
  }

  class LineReader {
    var tail: string
    var lines: seq<string>
    ghost var start: nat

    /** What the process running now has written is the lines handed on since it started, and the tail
        still carried. */
    ghost predicate Read(stream: string)
      reads this
    {
      start <= |lines| && lines[start..] + [tail] == SplitLines(stream)
    }

    constructor ()
      ensures Read("") && lines == []
    {
      tail, lines, start := "", [], 0;
    }

    /** However the stream is cut into chunks, the lines handed on are those of the whole stream. */
    method OnStdout(data: seq<string>, ghost stream: string, ghost chunk: string)
      requires Read(stream) && data == SplitLines(chunk)
      modifies this
      ensures Read(stream + chunk)
      ensures old(lines) <= lines && start == old(start)
    {
      SplitOfConcat(stream, chunk);
      var pieces := [tail + data[0]] + data[1..];
      WeldLines(lines[start..], tail, data);
      assert (lines + pieces[..|pieces| - 1])[start..] == lines[start..] + pieces[..|pieces| - 1];
      tail := pieces[|pieces| - 1];
      lines := lines + pieces[..|pieces| - 1];
    }

    /** A teardown drops the carried tail, so that what the next process writes is read from its own
        beginning; no line handed on before is lost. */
    method Reset()
      modifies this
      ensures Read("") && lines == old(lines)
    {
      tail := "";
      start := |lines|;
    }
  }

  /** The lines completed by a sequence of chunks are those of their concatenation. */
  function LinesOf(chunks: seq<string>): (r: seq<string>)
    ensures r != []
  {
    if chunks == [] then [""] else Weld(LinesOf(chunks[..|chunks| - 1]), SplitLines(chunks[|chunks| - 1]))
  }

  lemma {:induction false} ChunkingIsIrrelevant(chunks: seq<string>)
    ensures LinesOf(chunks) == SplitLines(Concat(chunks))
  {
    if chunks != [] {
      ChunkingIsIrrelevant(chunks[..|chunks| - 1]);
      SplitOfConcat(Concat(chunks[..|chunks| - 1]), chunks[|chunks| - 1]);
    }
  }
}
