/** Filling the statement templates drivers declare (`proto.lua`). */
module Templates {
  import opened Wrappers
  import opened LuaText
  import opened Replacing
  import opened Squeezing

  // ── templates ──────────────────────────────────────────────────────────────

  /** A template taken apart: literal text, and holes written `{key}`. */
  datatype Piece = Lit(text: string) | Hole(key: string)

  predicate Ident(c: char) {
    'a' <= c <= 'z' || 'A' <= c <= 'Z' || '0' <= c <= '9' || c == '_'
  }

  predicate IsKey(k: string) {
    k != "" && forall i :: 0 <= i < |k| ==> Ident(k[i])
  }

  /** No brace opens anything that could be taken for a hole, whatever comes after. */
  predicate Harmless(t: string) {
    forall i :: 0 <= i < |t| && t[i] == '{' ==> i + 1 < |t| && !Ident(t[i + 1])
  }

  function Braced(key: string): string {
    "{" + key + "}"
  }

  function Text(p: Piece): string {
    match p case Lit(t) => t case Hole(k) => Braced(k)
  }

  function Flat(ps: seq<Piece>): string {
    if ps == [] then "" else Text(ps[0]) + Flat(ps[1..])
  }

  predicate WellFormed(ps: seq<Piece>) {
    forall i :: 0 <= i < |ps| ==> if ps[i].Lit? then Harmless(ps[i].text) else IsKey(ps[i].key)
  }

  /** One hole filled. */
  function Put(ps: seq<Piece>, key: string, value: string): (r: seq<Piece>)
    ensures |r| == |ps|
  {
    seq(|ps|, i requires 0 <= i < |ps| => if ps[i] == Hole(key) then Lit(value) else ps[i])
  }

  /** All holes filled at once; a hole nobody has a value for keeps its braces. */
  function Fill(ps: seq<Piece>, values: map<string, string>): (r: seq<Piece>)
    ensures |r| == |ps|
  {
    seq(|ps|, i requires 0 <= i < |ps| =>
      if ps[i].Hole? && ps[i].key in values then Lit(values[ps[i].key]) else ps[i])
  }

  // ── replacing one hole in the text ─────────────────────────────────────────

  lemma HarmlessMatchesNot(t: string, rest: string, key: string, i: nat)
    requires Harmless(t) && IsKey(key) && i < |t|
    ensures !StartsWith((t + rest)[i..], Braced(key))
  {
    var u := (t + rest)[i..];
    assert Braced(key)[0] == '{' && Braced(key)[1] == key[0];
    assert u[0] == t[i];
    if t[i] == '{' {
      assert u[1] == t[i + 1];
      Mismatch(u, Braced(key), 1);
    } else {
      Mismatch(u, Braced(key), 0);
    }
  }

  lemma HoleMatchesItself(h: string, rest: string, key: string)
    requires IsKey(h) && IsKey(key)
    ensures StartsWith(Braced(h) + rest, Braced(key)) <==> h == key
    ensures (Braced(h) + rest)[|Braced(h)|..] == rest
  {
    var u, n := Braced(h) + rest, Braced(key);
    if StartsWith(u, n) {
      assert forall i :: 0 <= i < |n| ==> u[i] == n[i];
      assert forall i :: 0 <= i < |key| ==> n[i + 1] == key[i];
      assert forall i :: 0 <= i < |h| ==> u[i + 1] == h[i];
      assert n[|key| + 1] == '}' && u[|h| + 1] == '}';
      assert |h| == |key|;
      assert h == key;
    }
  }

  lemma HoleIsNoOther(h: string, rest: string, key: string, i: nat)
    requires IsKey(h) && IsKey(key) && h != key && i < |Braced(h)|
    ensures !StartsWith((Braced(h) + rest)[i..], Braced(key))
  {
    var u := (Braced(h) + rest)[i..];
    if i == 0 {
      HoleMatchesItself(h, rest, key);
      assert u == Braced(h) + rest;
    } else {
      assert u[0] == if i <= |h| then h[i - 1] else '}';
      Mismatch(u, Braced(key), 0);
    }
  }

  /** In a well-formed template, replacing `{key}` in the text fills exactly the holes of that key. */
  lemma {:induction false} PlainFillsHoles(ps: seq<Piece>, key: string, value: string)
    requires WellFormed(ps) && IsKey(key)
    ensures Replaced(Flat(ps), Braced(key), value) == Flat(Put(ps, key, value))
  {
    if ps != [] {
      hide Replaced, StartsWith, Braced;
      var p, rest := ps[0], Flat(ps[1..]);
      PlainFillsHoles(ps[1..], key, value);
      assert Put(ps, key, value)[1..] == Put(ps[1..], key, value);
      PieceReplaced(p, rest, key, value);
    } else {
      assert !StartsWith("", Braced(key));
    }
  }

  lemma PieceReplaced(p: Piece, rest: string, key: string, value: string)
    requires (if p.Lit? then Harmless(p.text) else IsKey(p.key)) && IsKey(key)
    ensures Replaced(Text(p) + rest, Braced(key), value)
         == (if p == Hole(key) then value else Text(p)) + Replaced(rest, Braced(key), value)
  {
    hide Braced;
    assert Braced(key) != "" by { BracedIsText(key); }
    if p == Hole(key) {
      HoleMatchesItself(key, rest, key);
    } else {
      hide Replaced, StartsWith;
      forall i | 0 <= i < |Text(p)| ensures !StartsWith((Text(p) + rest)[i..], Braced(key)) {
        if p.Lit? {
          HarmlessMatchesNot(p.text, rest, key, i);
        } else {
          HoleIsNoOther(p.key, rest, key, i);
        }
      }
      NothingToReplace(Text(p), rest, Braced(key), value);
    }
  }

  lemma BracedIsText(key: string)
    ensures Braced(key) != ""
  {
  }

  // ── one hole after another ─────────────────────────────────────────────────

  /** Every value that goes into the template is harmless. */
  ghost predicate HarmlessIn(ps: seq<Piece>, values: map<string, string>) {
    forall i :: 0 <= i < |ps| && ps[i].Hole? && ps[i].key in values ==> Harmless(values[ps[i].key])
  }

  /** A hole once filled is not filled again. */
  function Later(values: map<string, string>, key: string, value: string): map<string, string> {
    if key in values then values else values[key := value]
  }

  /** Filling the holes of one more key in the text is filling them in the template: what earlier
      values put in is never taken for a hole. */
  lemma FillStep(ps: seq<Piece>, done: map<string, string>, key: string, value: string)
    requires WellFormed(ps) && HarmlessIn(ps, done) && IsKey(key)
    ensures Replaced(Flat(Fill(ps, done)), Braced(key), value) == Flat(Fill(ps, Later(done, key, value)))
  {
    hide Replaced, Flat, Harmless, Braced;
    PlainFillsHoles(Fill(ps, done), key, value);
    assert Put(Fill(ps, done), key, value) == Fill(ps, Later(done, key, value));
  }

  lemma FillNothing(ps: seq<Piece>)
    ensures Fill(ps, map[]) == ps
  {
  }

  function Restrict(values: map<string, string>, keys: set<string>): map<string, string> {
    map k | k in values && k in keys :: values[k]
  }

  ghost predicate KeysFit(values: map<string, string>) {
    forall k :: k in values ==> IsKey(k)
  }

  /** `out` is the template with what came first filled in, and the values under the keys seen. */
  ghost predicate FilledUpTo(out: string, ps: seq<Piece>, values: map<string, string>, first: map<string, string>,
                             seen: set<string>) {
    out == Flat(Fill(ps, Restrict(values + first, first.Keys + seen)))
  }

  lemma FillKey(out: string, ps: seq<Piece>, values: map<string, string>, first: map<string, string>, seen: set<string>,
                key: string)
    requires WellFormed(ps) && KeysFit(values) && HarmlessIn(ps, values + first)
    requires FilledUpTo(out, ps, values, first, seen) && key in values && key !in seen
    ensures FilledUpTo(Replaced(out, Braced(key), values[key]), ps, values, first, seen + {key})
  {
    hide Flat, Fill, WellFormed, Harmless, Braced, Replaced, IsKey;
    var done := Restrict(values + first, first.Keys + seen);
    FillStep(ps, done, key, values[key]);
    assert Later(done, key, values[key]) == Restrict(values + first, first.Keys + (seen + {key}));
  }

  lemma FilledAll(out: string, ps: seq<Piece>, values: map<string, string>, first: map<string, string>)
    ensures FilledUpTo(out, ps, values, first, {}) <==> out == Flat(Fill(ps, first))
    ensures FilledUpTo(out, ps, values, first, values.Keys) <==> out == Flat(Fill(ps, values + first))
  {
    hide Flat, Fill;
    assert Restrict(values + first, first.Keys + {}) == first;
    assert Restrict(values + first, first.Keys + values.Keys) == values + first;
  }

  /** The `pairs` loop: every value under its key, in whatever order the table yields them. */
  method FillPairs(text: string, values: map<string, string>, ghost ps: seq<Piece>, ghost first: map<string, string>)
    returns (out: string)
    ensures WellFormed(ps) && KeysFit(values) && HarmlessIn(ps, values + first) && text == Flat(Fill(ps, first)) ==>
              out == Flat(Fill(ps, values + first))
  {
    hide Flat, Fill, WellFormed, HarmlessIn, KeysFit, Braced, Replaced, FilledUpTo;
    ghost var fits := WellFormed(ps) && KeysFit(values) && HarmlessIn(ps, values + first)
                      && text == Flat(Fill(ps, first));
    out := text;
    var rest := values.Keys;
    ghost var seen := {};
    FilledAll(out, ps, values, first);
    while rest != {}
      invariant seen !! rest && seen + rest == values.Keys
      invariant fits ==> FilledUpTo(out, ps, values, first, seen)
      decreases |rest|
    {
      var key :| key in rest;
      if fits {
        FillKey(out, ps, values, first, seen, key);
      }
      BracedIsText(key);
      out := Plain(out, Braced(key), values[key]);
      rest, seen := rest - {key}, seen + {key};
    }
    assert seen == values.Keys;
    FilledAll(out, ps, values, first);
  }

  // ── holes that stand for others ────────────────────────────────────────────

  /** A value that has holes itself, put in as pieces. */
  function Splice(ps: seq<Piece>, key: string, vs: seq<Piece>): seq<Piece> {
    if ps == [] then [] else (if ps[0] == Hole(key) then vs else [ps[0]]) + Splice(ps[1..], key, vs)
  }

  lemma Regroup(a: string, b: string, c: string)
    ensures (a + b) + c == a + (b + c)
  {
  }

  lemma {:induction false} FlatConcat(a: seq<Piece>, b: seq<Piece>)
    ensures Flat(a + b) == Flat(a) + Flat(b)
  {
    if a == [] {
      assert a + b == b;
    } else {
      assert (a + b)[1..] == a[1..] + b;
      FlatConcat(a[1..], b);
      Regroup(Text(a[0]), Flat(a[1..]), Flat(b));
    }
  }

  lemma FlatOne(p: Piece)
    ensures Flat([p]) == Text(p)
  {
    assert [p][1..] == [] && Text(p) + "" == Text(p);
  }

  lemma FillConcat(a: seq<Piece>, b: seq<Piece>, values: map<string, string>)
    ensures Fill(a + b, values) == Fill(a, values) + Fill(b, values)
  {
  }

  /** Filling holes that stand for `{key}` is filling `{key}` with what they are filled with. */
  lemma {:induction false} FillSpliced(ps: seq<Piece>, key: string, vs: seq<Piece>, values: map<string, string>)
    requires key in values && Flat(Fill(vs, values)) == values[key]
    ensures Flat(Fill(Splice(ps, key, vs), values)) == Flat(Fill(ps, values))
  {
    if ps != [] {
      var head, rest := if ps[0] == Hole(key) then vs else [ps[0]], Splice(ps[1..], key, vs);
      FillSpliced(ps[1..], key, vs, values);
      FillConcat(head, rest, values);
      FlatConcat(Fill(head, values), Fill(rest, values));
      FlatConcat(Fill([ps[0]], values), Fill(ps[1..], values));
      FillConcat([ps[0]], ps[1..], values);
      assert ps == [ps[0]] + ps[1..];
      if ps[0] == Hole(key) {
        FlatOne(Lit(values[key]));
        assert Fill([ps[0]], values) == [Lit(values[key])];
      }
    } else {
      assert Fill([], values) == [];
    }
  }

  /** A template with `{qualified}` spelt out: the schema, a dot and the own name, or without a schema the
      own name alone. */
  function SpeltOut(ps: seq<Piece>, own: string, schema: string): seq<Piece> {
    Splice(ps, "qualified", if schema == "" then [Hole(own)] else [Hole("schema"), Lit("."), Hole(own)])
  }

  lemma {:induction false} SpliceMembers(ps: seq<Piece>, key: string, vs: seq<Piece>, p: Piece)
    ensures p in Splice(ps, key, vs) <==> (p in ps && p != Hole(key)) || (Hole(key) in ps && p in vs)
  {
    if ps != [] {
      SpliceMembers(ps[1..], key, vs, p);
      assert forall q: Piece :: q in ps <==> q == ps[0] || q in ps[1..];
    }
  }

  lemma HarmlessDotted(a: string, b: string)
    requires Harmless(a) && Harmless(b)
    ensures Harmless(a + "." + b)
  {
    var t := a + "." + b;
    forall i | 0 <= i < |t| && t[i] == '{' ensures i + 1 < |t| && !Ident(t[i + 1]) {
      if i < |a| {
        assert a[i] == '{' && t[i + 1] == a[i + 1];
      } else {
        assert b[i - |a| - 1] == '{' && t[i + 1] == b[i - |a|];
      }
    }
  }

  lemma FillAgrees(ps: seq<Piece>, v: map<string, string>, w: map<string, string>)
    requires forall k :: Hole(k) in ps ==> (k in v <==> k in w) && (k in v ==> v[k] == w[k])
    ensures Fill(ps, v) == Fill(ps, w)
  {
    forall i | 0 <= i < |ps| ensures Fill(ps, v)[i] == Fill(ps, w)[i] {
      assert ps[i].Hole? ==> Hole(ps[i].key) in ps;
    }
  }

  /** A template spelt out is filled like the template, with the qualified name among its values. */
  lemma SpeltOutFills(ps: seq<Piece>, own: string, schema: string, name: string, values: map<string, string>)
    requires own != "qualified" && own != "schema"
    requires own in values && values[own] == name && "schema" in values && values["schema"] == schema
    ensures
      var full := values["qualified" := Qualified(schema, name)];
      && Flat(Fill(SpeltOut(ps, own, schema), values)) == Flat(Fill(ps, full))
      && (HarmlessIn(SpeltOut(ps, own, schema), values) ==> HarmlessIn(ps, full))
  {
    var full := values["qualified" := Qualified(schema, name)];
    var vs := if schema == "" then [Hole(own)] else [Hole("schema"), Lit("."), Hole(own)];
    var whole := SpeltOut(ps, own, schema);
    SpeltName(own, schema, name, full);
    FillSpliced(ps, "qualified", vs, full);
    forall k | Hole(k) in whole ensures k != "qualified" {
      SpliceMembers(ps, "qualified", vs, Hole(k));
    }
    FillAgrees(whole, values, full);
    if HarmlessIn(whole, values) {
      forall i | 0 <= i < |ps| && ps[i].Hole? && ps[i].key in full ensures Harmless(full[ps[i].key]) {
        SpliceMembers(ps, "qualified", vs, ps[i]);
        if ps[i].key == "qualified" {
          SpliceMembers(ps, "qualified", vs, Hole(own));
          SpliceMembers(ps, "qualified", vs, Hole("schema"));
          assert Hole(own) in vs && (schema != "" ==> vs[0] == Hole("schema"));
          HarmlessIsIn(whole, values, own);
          if schema != "" {
            HarmlessIsIn(whole, values, "schema");
            HarmlessDotted(schema, name);
          }
        } else {
          HarmlessIsIn(whole, values, ps[i].key);
        }
      }
    }
  }

  lemma HarmlessIsIn(ps: seq<Piece>, values: map<string, string>, key: string)
    requires HarmlessIn(ps, values) && Hole(key) in ps && key in values
    ensures Harmless(values[key])
  {
  }

  lemma SpeltName(own: string, schema: string, name: string, values: map<string, string>)
    requires own in values && values[own] == name && "schema" in values && values["schema"] == schema
    ensures Flat(Fill(if schema == "" then [Hole(own)] else [Hole("schema"), Lit("."), Hole(own)], values))
         == Qualified(schema, name)
  {
    if schema == "" {
      assert Fill([Hole(own)], values) == [Lit(name)];
      FlatOne(Lit(name));
    } else {
      var filled := [Lit(schema), Lit("."), Lit(name)];
      assert Fill([Hole("schema"), Lit("."), Hole(own)], values) == filled;
      assert filled[1..] == [Lit("."), Lit(name)] && filled[1..][1..] == [Lit(name)];
      FlatOne(Lit(name));
      assert schema + ("." + name) == schema + "." + name;
    }
  }

  function Qualified(schema: string, name: string): string {
    if schema == "" then name else schema + "." + name
  }

  // ── schema changes ─────────────────────────────────────────────────────────

  /** An operation as the driver declares it; `isNew` is the scope `new`. */
  datatype Op = Op(template: string, isNew: bool)

  function Value(values: map<string, string>, key: string): string {
    if key in values then values[key] else ""
  }

  function ObjectName(op: Op, name: string, values: map<string, string>): string {
    if op.isNew then Trim(Value(values, "name")) else name
  }

  /** What comes from the object; it takes precedence over what was asked for. */
  function ObjectValues(name: string, schema: string): map<string, string> {
    map["qualified" := Qualified(schema, name), "table" := name, "schema" := schema]
  }

  /** The template with all its holes filled at once: `{table}` with the object's name, which for a new
      object is the trimmed name asked for, `{schema}` with its schema, `{qualified}` as it is spelt out,
      and any other hole with the value asked for; a schema that is missing is the empty one. */
  method RenderDdl(op: Option<Op>, name: string, schema: string, values: map<string, string>, ghost ps: seq<Piece>)
    returns (r: Option<string>)
    ensures op.None? <==> r.None?
    ensures op.Some? && Flat(ps) == op.value.template && WellFormed(ps) && KeysFit(values) ==>
              var subject := if !op.value.isNew then name else if "name" in values then Trim(values["name"]) else "";
              var whole, all := SpeltOut(ps, "table", schema), values + map["table" := subject, "schema" := schema];
              HarmlessIn(whole, all) || HarmlessIn(ps, values + ObjectValues(subject, schema)) ==>
                r == Some(Collapsed(Flat(Fill(whole, all))))
  {
    assert Trim("") == "";
    hide Flat, Fill, WellFormed, Harmless, Braced, IsKey, Collapsed, Trim, Replaced, SpeltOut;
    if op.None? {
      return None;
    }
    var subject := ObjectName(op.value, name, values);
    var qualified := Qualified(schema, subject);
    var out := op.value.template;
    ObjectHoles();
    out := Plain(out, "{qualified}", qualified);
    out := Plain(out, "{table}", subject);
    out := Plain(out, "{schema}", schema);
    ghost var first := ObjectValues(subject, schema);
    if Flat(ps) == op.value.template && WellFormed(ps) && HarmlessIn(ps, first) {
      ObjectFilled(ps, subject, schema);
    }
    assert HarmlessIn(ps, values + first) ==> HarmlessIn(ps, first) by {
      assert forall k :: k in first ==> k in values + first && (values + first)[k] == first[k];
    }
    out := FillPairs(out, values, ps, first);
    DdlSpeltOut(ps, subject, schema, values);
    var collapsed := CollapseSpaces(out);
    return Some(collapsed);
  }

  lemma DdlSpeltOut(ps: seq<Piece>, subject: string, schema: string, values: map<string, string>)
    ensures
      var whole, all := SpeltOut(ps, "table", schema), values + map["table" := subject, "schema" := schema];
      var full := values + ObjectValues(subject, schema);
      Flat(Fill(whole, all)) == Flat(Fill(ps, full)) && (HarmlessIn(whole, all) ==> HarmlessIn(ps, full))
  {
    var all := values + map["table" := subject, "schema" := schema];
    SpeltOutFills(ps, "table", schema, subject, all);
    assert all["qualified" := Qualified(schema, subject)] == values + ObjectValues(subject, schema);
  }

  lemma ObjectHoles()
    ensures Braced("qualified") == "{qualified}" && Braced("table") == "{table}" && Braced("schema") == "{schema}"
    ensures IsKey("qualified") && IsKey("table") && IsKey("schema")
  {
  }

  lemma ObjectFilled(ps: seq<Piece>, subject: string, schema: string)
    requires WellFormed(ps) && HarmlessIn(ps, ObjectValues(subject, schema))
    ensures
      var a := Replaced(Flat(ps), "{qualified}", Qualified(schema, subject));
      var b := Replaced(a, "{table}", subject);
      Replaced(b, "{schema}", schema) == Flat(Fill(ps, ObjectValues(subject, schema)))
  {
    hide Flat, Fill, WellFormed, Harmless, Braced, IsKey, Replaced;
    ObjectHoles();
    FillNothing(ps);
    var q := Qualified(schema, subject);
    var all := ObjectValues(subject, schema);
    assert all["qualified"] == q && all["table"] == subject;
    assert HarmlessIn(ps, map["qualified" := q]) && HarmlessIn(ps, map["qualified" := q, "table" := subject]);
    FillStep(ps, map[], "qualified", q);
    FillStep(ps, map["qualified" := q], "table", subject);
    FillStep(ps, map["qualified" := q, "table" := subject], "schema", schema);
    assert map["qualified" := q]["table" := subject] == map["qualified" := q, "table" := subject];
    assert map["qualified" := q, "table" := subject]["schema" := schema] == all;
  }

  // ── repeating groups ───────────────────────────────────────────────────────

  datatype Row = Row(template: string, join: Option<string>)

  function Named(values: map<string, string>): bool {
    Trim(Value(values, "name")) != ""
  }

  lemma NamedByInk(values: map<string, string>)
    ensures Named(values) <==> "name" in values && exists i :: 0 <= i < |values["name"]| && !IsSpace(values["name"][i])
  {
    var name := Value(values, "name");
    hide Trim, Margin;
    TrimCuts(name);
    if Trim(name) != "" {
      assert !IsSpace(name[Margin(name)]);
    } else {
      assert Blank(name);
    }
    if Blank(name) {
      TrimBlank(name);
    }
  }

  /** A row is nothing exactly when its name is missing or all blank; any other has its holes filled at once. */
  method RenderRow(row: Row, values: map<string, string>, ghost ps: seq<Piece>) returns (r: Option<string>)
    ensures r.Some? <==> "name" in values && exists i :: 0 <= i < |values["name"]| && !IsSpace(values["name"][i])
    ensures r.Some? <==> Named(values)
    ensures r.Some? && Flat(ps) == row.template && WellFormed(ps) && KeysFit(values) && HarmlessIn(ps, values) ==>
              r.value == Collapsed(Flat(Fill(ps, values)))
  {
    hide Flat, Fill, WellFormed, HarmlessIn, KeysFit, Collapsed, Trim;
    NamedByInk(values);
    if Trim(Value(values, "name")) == "" {
      return None;
    }
    FillNothing(ps);
    assert values + map[] == values;
    var out := FillPairs(row.template, values, ps, map[]);
    var collapsed := CollapseSpaces(out);
    return Some(collapsed);
  }

  /** The texts of the rows that have a name. */
  function RowTexts(ps: seq<Piece>, rows: seq<map<string, string>>): seq<string> {
    if rows == [] then []
    else RowTexts(ps, rows[..|rows| - 1])
         + (var last := rows[|rows| - 1]; if Named(last) then [Collapsed(Flat(Fill(ps, last)))] else [])
  }

  method RenderRows(row: Row, rows: seq<map<string, string>>, ghost ps: seq<Piece>) returns (r: string)
    ensures Flat(ps) == row.template && WellFormed(ps)
            && (forall i :: 0 <= i < |rows| ==> KeysFit(rows[i]) && HarmlessIn(ps, rows[i])) ==>
              r == Join(RowTexts(ps, rows), if row.join.Some? then row.join.value else ", ")
  {
    hide Flat, Fill, WellFormed, HarmlessIn, KeysFit, Collapsed, Named, Join;
    ghost var fits := Flat(ps) == row.template && WellFormed(ps)
                      && (forall i :: 0 <= i < |rows| ==> KeysFit(rows[i]) && HarmlessIn(ps, rows[i]));
    var written := [];
    for i := 0 to |rows|
      invariant fits ==> written == RowTexts(ps, rows[..i])
    {
      var one := RenderRow(row, rows[i], ps);
      assert rows[..i + 1][..i] == rows[..i];
      if one.Some? {
        written := written + [one.value];
      }
    }
    assert rows[..|rows|] == rows;
    return Join(written, if row.join.Some? then row.join.value else ", ");
  }

  /** A half-typed row, one without a name, contributes nothing wherever it stands. */
  lemma {:induction false} NamelessRowsVanish(ps: seq<Piece>, before: seq<map<string, string>>,
                                             row: map<string, string>,
                                             behind: seq<map<string, string>>)
    requires !Named(row)
    ensures RowTexts(ps, before + [row] + behind) == RowTexts(ps, before + behind)
    decreases |behind|
  {
    hide Named, Collapsed, Flat, Fill;
    var all, rest := before + [row] + behind, before + behind;
    if behind == [] {
      assert all[..|all| - 1] == before && rest == before && all[|all| - 1] == row;
    } else {
      var front := behind[..|behind| - 1];
      assert all[..|all| - 1] == before + [row] + front && rest[..|rest| - 1] == before + front;
      NamelessRowsVanish(ps, before, row, front);
    }
  }

  // ── reads ──────────────────────────────────────────────────────────────────

  datatype Options = Options(name: Option<string>, schema: Option<string>, limit: Option<string>,
                             fragments: seq<string>, clauses: seq<string>, columns: Option<string>)

  function Or(value: Option<string>, other: string): string {
    if value.Some? then value.value else other
  }

  function Fragments(o: Options): string {
    if o.fragments != [] then ", " + Join(o.fragments, ", ") else ""
  }

  /** The values a read template is filled with, all but the fragments. */
  function ReadValues(o: Options): map<string, string> {
    var name, schema := Or(o.name, ""), Or(o.schema, "");
    map["columns" := if Or(o.columns, "") != "" then Or(o.columns, "") else "*",
        "clauses" := Join(o.clauses, " "),
        "qualified" := Qualified(schema, name),
        "name" := name,
        "schema" := schema,
        "limit" := Or(o.limit, "")]
  }

  /** What stands for `{fragments}`: each of them behind a comma. */
  function Listed(fragments: seq<string>): seq<Piece> {
    if fragments == [] then [] else [Lit(", "), Lit(fragments[0])] + Listed(fragments[1..])
  }

  lemma {:induction false} ListedFills(fragments: seq<string>, values: map<string, string>)
    ensures Fill(Listed(fragments), values) == Listed(fragments)
    ensures Flat(Listed(fragments)) == if fragments != [] then ", " + Join(fragments, ", ") else ""
  {
    if fragments != [] {
      var rest := Listed(fragments[1..]);
      ListedFills(fragments[1..], values);
      var two := [Lit(", "), Lit(fragments[0])];
      FillConcat(two, rest, values);
      assert Fill(two, values) == two;
      FlatConcat(two, rest);
      assert two[1..] == [Lit(fragments[0])];
      FlatOne(Lit(fragments[0]));
      JoinFirst(fragments);
    }
  }

  lemma JoinFirst(fragments: seq<string>)
    requires fragments != []
    ensures ", " + Join(fragments, ", ") == ", " + fragments[0]
              + if fragments[1..] != [] then ", " + Join(fragments[1..], ", ") else ""
  {
  }

  /** The holes filled one after another; the fragments come last, so they may be anything. */
  method FillRead(template: string, o: Options, ghost ps: seq<Piece>) returns (out: string)
    ensures Flat(ps) == template && WellFormed(ps) && HarmlessIn(ps, ReadValues(o)) ==>
              out == Flat(Fill(ps, ReadValues(o)["fragments" := Fragments(o)]))
  {
    hide Flat, Fill, WellFormed, HarmlessIn, Replaced, Qualified, Join, IsKey, Fragments;
    ReadKeys();
    var name, schema := Or(o.name, ""), Or(o.schema, "");
    var columns := if Or(o.columns, "") != "" then Or(o.columns, "") else "*";
    out := template;
    ghost var all, done: map<string, string> := ReadValues(o), map[];
    FillNothing(ps);
    out := PutIn(out, "columns", columns, ps, done, all);
    done := done["columns" := columns];
    out := PutIn(out, "clauses", Join(o.clauses, " "), ps, done, all);
    done := done["clauses" := Join(o.clauses, " ")];
    out := PutIn(out, "qualified", Qualified(schema, name), ps, done, all);
    done := done["qualified" := Qualified(schema, name)];
    out := PutNames(out, name, schema, Or(o.limit, ""), ps, done, all);
    done := done["name" := name]["schema" := schema]["limit" := Or(o.limit, "")];
    assert done == all;
    out := PutIn(out, "fragments", Fragments(o), ps, done, all);
  }

  /** The values of a read template that are asked for as they are. */
  function PlainValues(o: Options): map<string, string> {
    map["columns" := if Or(o.columns, "") != "" then Or(o.columns, "") else "*",
        "clauses" := Join(o.clauses, " "),
        "name" := Or(o.name, ""),
        "schema" := Or(o.schema, ""),
        "limit" := Or(o.limit, "")]
  }

  lemma ReadSpeltOut(ps: seq<Piece>, o: Options)
    ensures
      var values := PlainValues(o);
      var whole := SpeltOut(ps, "name", values["schema"]);
      && (HarmlessIn(whole, values) ==> HarmlessIn(ps, ReadValues(o)))
      && Flat(Fill(Splice(whole, "fragments", Listed(o.fragments)), values))
      == Flat(Fill(ps, ReadValues(o)["fragments" := Fragments(o)]))
  {
    var values := PlainValues(o);
    var name, schema := values["name"], values["schema"];
    var whole, all := SpeltOut(ps, "name", schema), values["fragments" := Fragments(o)];
    ReadMaps(o);
    hide Flat, Fill, Splice, Qualified, Join, SpeltOut, HarmlessIn, ReadValues, PlainValues, Fragments;
    SpeltOutFills(ps, "name", schema, name, values);
    SpeltOutFills(ps, "name", schema, name, all);
    FragmentsFill(whole, o, values, all);
  }

  lemma ReadMaps(o: Options)
    ensures
      var values := PlainValues(o);
      && (forall k :: k in ["name", "schema"] ==> k in values)
      && values["qualified" := Qualified(values["schema"], values["name"])] == ReadValues(o)
      && values["fragments" := Fragments(o)]["qualified" := Qualified(values["schema"], values["name"])]
      == ReadValues(o)["fragments" := Fragments(o)]
  {
    hide Join, Fragments;
  }

  lemma FragmentsFill(whole: seq<Piece>, o: Options, values: map<string, string>, all: map<string, string>)
    requires all == values["fragments" := Fragments(o)]
    ensures Flat(Fill(Splice(whole, "fragments", Listed(o.fragments)), values)) == Flat(Fill(whole, all))
  {
    hide Flat, Fill, Splice, Join;
    ListedFills(o.fragments, all);
    FillSpliced(whole, "fragments", Listed(o.fragments), all);
    NoFragmentsLeft(whole, o.fragments, values, all);
  }

  lemma NoFragmentsLeft(whole: seq<Piece>, fragments: seq<string>, values: map<string, string>,
                        all: map<string, string>)
    requires forall k :: k != "fragments" ==> (k in values <==> k in all) && (k in values ==> values[k] == all[k])
    ensures Fill(Splice(whole, "fragments", Listed(fragments)), values)
         == Fill(Splice(whole, "fragments", Listed(fragments)), all)
  {
    hide Splice;
    var spliced := Splice(whole, "fragments", Listed(fragments));
    forall k | Hole(k) in spliced ensures k != "fragments" {
      SpliceMembers(whole, "fragments", Listed(fragments), Hole(k));
      ListedHasNoHoles(fragments, k);
    }
    FillAgrees(spliced, values, all);
  }

  lemma {:induction false} ListedHasNoHoles(fragments: seq<string>, k: string)
    ensures Hole(k) !in Listed(fragments)
  {
    if fragments != [] {
      ListedHasNoHoles(fragments[1..], k);
    }
  }

  method PutNames(text: string, name: string, schema: string, limit: string, ghost ps: seq<Piece>,
                  ghost done: map<string, string>, ghost all: map<string, string>)
    returns (out: string)
    requires {"name", "schema", "limit"} !! done.Keys &&
             Within(done["name" := name]["schema" := schema]["limit" := limit], all)
    ensures WellFormed(ps) && HarmlessIn(ps, all) && text == Flat(Fill(ps, done)) ==>
              out == Flat(Fill(ps, done["name" := name]["schema" := schema]["limit" := limit]))
  {
    hide Flat, Fill, WellFormed, HarmlessIn, IsKey;
    ReadKeys();
    out := PutIn(text, "name", name, ps, done, all);
    out := PutIn(out, "schema", schema, ps, done["name" := name], all);
    out := PutIn(out, "limit", limit, ps, done["name" := name]["schema" := schema], all);
  }

  lemma ReadKeys()
    ensures forall k :: k in ["columns", "clauses", "qualified", "name", "schema", "limit", "fragments"] ==> IsKey(k)
  {
  }

  ghost predicate Within(part: map<string, string>, whole: map<string, string>) {
    forall k :: k in part ==> k in whole && whole[k] == part[k]
  }

  method PutIn(text: string, key: string, value: string, ghost ps: seq<Piece>, ghost done: map<string, string>,
               ghost all: map<string, string>)
    returns (out: string)
    requires IsKey(key) && key !in done && Within(done, all)
    ensures WellFormed(ps) && HarmlessIn(ps, all) && text == Flat(Fill(ps, done)) ==>
              out == Flat(Fill(ps, done[key := value]))
  {
    hide Flat, Fill, WellFormed, Harmless, Replaced;
    BracedIsText(key);
    out := Plain(text, Braced(key), value);
    if WellFormed(ps) && HarmlessIn(ps, all) && text == Flat(Fill(ps, done)) {
      FillStep(ps, done, key, value);
    }
  }

  /** All holes at once, although they are filled one after another: `{columns}` with a star when none are
      asked for, `{qualified}` as it is spelt out, and `{fragments}`, which may be anything, each behind a
      comma. */
  method RenderFull(template: string, o: Options, ghost ps: seq<Piece>) returns (r: string)
    ensures Flat(ps) == template && WellFormed(ps) ==>
              var values := map[
                "columns" := if o.columns.Some? && o.columns.value != "" then o.columns.value else "*",
                "clauses" := Join(o.clauses, " "),
                "name" := if o.name.Some? then o.name.value else "",
                "schema" := if o.schema.Some? then o.schema.value else "",
                "limit" := if o.limit.Some? then o.limit.value else ""];
              var whole := SpeltOut(ps, "name", values["schema"]);
              HarmlessIn(whole, values) || HarmlessIn(ps, ReadValues(o)) ==>
                r == Collapsed(Flat(Fill(Splice(whole, "fragments", Listed(o.fragments)), values)))
  {
    hide Flat, Fill, WellFormed, HarmlessIn, Collapsed, SpeltOut, Join, ReadValues, Fragments;
    var out := FillRead(template, o, ps);
    ReadSpeltOut(ps, o);
    r := CollapseSpaces(out);
  }

  // ── where order matters ────────────────────────────────────────────────────

  lemma PutFirst(ps: seq<Piece>, key: string, value: string)
    requires ps != []
    ensures Put(ps, key, value)[1..] == Put(ps[1..], key, value)
    ensures Flat(Put(ps, key, value))
         == (if ps[0] == Hole(key) then value else Text(ps[0])) + Flat(Put(ps[1..], key, value))
  {
    assert Put(ps, key, value)[1..] == Put(ps[1..], key, value);
  }

  /** A longer value makes a text that is no shorter, and longer where it has a place. */
  lemma {:induction false} LongerValue(ps: seq<Piece>, key: string, u: string, v: string)
    requires |u| > |v|
    ensures |Flat(Put(ps, key, u))| >= |Flat(Put(ps, key, v))|
    ensures Hole(key) in ps ==> |Flat(Put(ps, key, u))| > |Flat(Put(ps, key, v))|
  {
    if ps != [] {
      hide Flat, Put, Text;
      PutFirst(ps, key, u);
      PutFirst(ps, key, v);
      LongerValue(ps[1..], key, u, v);
    } else {
      assert Put(ps, key, u) == [] == Put(ps, key, v);
    }
  }

  lemma {:induction false} SameLengthValue(ps: seq<Piece>, key: string, u: string, v: string)
    requires |u| == |v| && u != v && Hole(key) in ps
    ensures Flat(Put(ps, key, u)) != Flat(Put(ps, key, v))
  {
    hide Flat, Put, Text;
    PutFirst(ps, key, u);
    PutFirst(ps, key, v);
    var t, t' := Flat(Put(ps, key, u)), Flat(Put(ps, key, v));
    if ps[0] == Hole(key) {
      assert t[..|u|] == u && t'[..|u|] == v;
    } else {
      SameLengthValue(ps[1..], key, u, v);
      var k := |Text(ps[0])|;
      assert t[k..] == Flat(Put(ps[1..], key, u)) && t'[k..] == Flat(Put(ps[1..], key, v));
    }
  }

  /** Two values under a key give the same text exactly when they are the same or have no place. */
  lemma ValueShows(ps: seq<Piece>, key: string, u: string, v: string)
    ensures Flat(Put(ps, key, u)) == Flat(Put(ps, key, v)) <==> Hole(key) !in ps || u == v
  {
    hide Flat;
    if Hole(key) !in ps {
      assert Put(ps, key, u) == ps == Put(ps, key, v);
    } else if |u| > |v| {
      LongerValue(ps, key, u, v);
    } else if |u| < |v| {
      LongerValue(ps, key, v, u);
    } else if u != v {
      SameLengthValue(ps, key, u, v);
    }
  }

  lemma {:induction false} OwnBraces(ps: seq<Piece>, key: string)
    ensures Flat(Put(ps, key, Braced(key))) == Flat(ps)
  {
    if ps != [] {
      PutFirst(ps, key, Braced(key));
      hide Put, Braced;
      OwnBraces(ps[1..], key);
    } else {
      assert Put(ps, key, Braced(key)) == [];
    }
  }

  /** Replacing in a well-formed beginning, whatever follows it. */
  lemma {:induction false} ReplacedBefore(ps: seq<Piece>, rest: string, key: string, value: string)
    requires WellFormed(ps) && IsKey(key)
    ensures Replaced(Flat(ps) + rest, Braced(key), value) ==
            Flat(Put(ps, key, value)) + Replaced(rest, Braced(key), value)
  {
    if ps == [] {
      assert Put(ps, key, value) == [];
      assert "" + rest == rest && "" + Replaced(rest, Braced(key), value) == Replaced(rest, Braced(key), value);
    } else {
      var p, tail := ps[0], Flat(ps[1..]);
      assert Flat(ps) == Text(p) + tail;
      assert if p.Lit? then Harmless(p.text) else IsKey(p.key);
      assert WellFormed(ps[1..]);
      hide Flat, Put, Replaced, Text, WellFormed, Harmless, IsKey, StartsWith;
      PutFirst(ps, key, value);
      ReplacedBefore(ps[1..], rest, key, value);
      PieceReplaced(p, tail + rest, key, value);
      Regroup(Text(p), tail, rest);
      Regroup(if p == Hole(key) then value else Text(p), Flat(Put(ps[1..], key, value)),
              Replaced(rest, Braced(key), value));
    }
  }

  /** Filling one key's holes with a text that has holes itself, and then another key's: the first
      value is filled along with the template. */
  lemma {:induction false} FilledInTurn(ps: seq<Piece>, a: string, vs: seq<Piece>, b: string, vb: string)
    requires WellFormed(ps) && WellFormed(vs) && IsKey(a) && IsKey(b) && a != b
    ensures Replaced(Flat(Put(ps, a, Flat(vs))), Braced(b), vb)
         == Flat(Put(Put(ps, b, vb), a, Flat(Put(vs, b, vb))))
  {
    if ps == [] {
      assert Put(ps, a, Flat(vs)) == [] == Put(Put(ps, b, vb), a, Flat(Put(vs, b, vb)));
      BracedIsText(b);
      assert !StartsWith("", Braced(b));
    } else {
      var p, tail := ps[0], Flat(Put(ps[1..], a, Flat(vs)));
      FilledInTurn(ps[1..], a, vs, b, vb);
      PutFirst(ps, a, Flat(vs));
      PutFirst(ps, b, vb);
      var later := Put(ps, b, vb);
      assert later[0] == if p == Hole(b) then Lit(vb) else p;
      PutFirst(later, a, Flat(Put(vs, b, vb)));
      if p == Hole(a) {
        ReplacedBefore(vs, tail, b, vb);
      } else {
        PieceReplaced(p, tail, b, vb);
      }
      hide Flat, Put, Replaced, Braced;
    }
  }

  /** The text after both keys, `a` first. */
  function InTurn(text: string, a: string, va: string, b: string, vb: string): string {
    BracedIsText(a);
    BracedIsText(b);
    Replaced(Replaced(text, Braced(a), va), Braced(b), vb)
  }

  /** `a`'s value does not show that it came before `b`'s: it has no place, or does not spell `b`'s hole, or
      `b`'s value spells nothing but that hole again. */
  predicate Early(ps: seq<Piece>, a: string, vs: seq<Piece>, b: string, vb: string) {
    Hole(a) !in ps || Hole(b) !in vs || vb == Braced(b)
  }

  /** When only one of the values can be filled by the other key. */
  lemma OneSided(ps: seq<Piece>, a: string, vs: seq<Piece>, b: string, ws: seq<Piece>)
    requires WellFormed(ps) && WellFormed(vs) && WellFormed(ws) && (Hole(a) !in ws || Hole(b) !in ps)
    requires IsKey(a) && IsKey(b) && a != b
    ensures
      var va, vb := Flat(vs), Flat(ws);
      InTurn(Flat(ps), a, va, b, vb) == InTurn(Flat(ps), b, vb, a, va) <==> Early(ps, a, vs, b, vb)
  {
    hide Replaced, Flat, WellFormed, Braced;
    var va, vb := Flat(vs), Flat(ws);
    PlainFillsHoles(ps, a, va);
    PlainFillsHoles(ps, b, vb);
    FilledInTurn(ps, a, vs, b, vb);
    FilledInTurn(ps, b, ws, a, va);
    assert Hole(a) !in ws ==> Put(ws, a, va) == ws;
    HolesKept(ps, b, a, va);
    assert Hole(b) !in ps ==> forall v: string :: Put(Put(ps, a, va), b, v) == Put(ps, a, va);
    assert Put(Put(ps, a, va), b, vb) == Put(Put(ps, b, vb), a, va);
    ValueShows(Put(ps, b, vb), a, Flat(Put(vs, b, vb)), va);
    HolesKept(ps, a, b, vb);
    OwnBraces(vs, b);
    ValueShows(vs, b, vb, Braced(b));
  }

  lemma HolesKept(ps: seq<Piece>, a: string, b: string, vb: string)
    requires a != b
    ensures Hole(a) in Put(ps, b, vb) <==> Hole(a) in ps
  {
    if Hole(a) in ps {
      var i :| 0 <= i < |ps| && ps[i] == Hole(a);
      assert Put(ps, b, vb)[i] == Hole(a);
    }
  }

  // ── counting holes ─────────────────────────────────────────────────────────

  function Holes(ps: seq<Piece>, key: string): (n: nat)
    ensures n > 0 <==> Hole(key) in ps
  {
    if ps == [] then 0 else (if ps[0] == Hole(key) then 1 else 0) + Holes(ps[1..], key)
  }

  lemma {:induction false} HolesConcat(a: seq<Piece>, b: seq<Piece>, key: string)
    ensures Holes(a + b, key) == Holes(a, key) + Holes(b, key)
  {
    if a == [] {
      assert a + b == b;
    } else {
      assert (a + b)[1..] == a[1..] + b;
      HolesConcat(a[1..], b, key);
    }
  }

  lemma {:induction false} SpliceFits(ps: seq<Piece>, key: string, vs: seq<Piece>)
    requires WellFormed(ps) && WellFormed(vs)
    ensures WellFormed(Splice(ps, key, vs)) && Flat(Splice(ps, key, vs)) == Flat(Put(ps, key, Flat(vs)))
  {
    if ps != [] {
      var head, rest := if ps[0] == Hole(key) then vs else [ps[0]], Splice(ps[1..], key, vs);
      SpliceFits(ps[1..], key, vs);
      PutFirst(ps, key, Flat(vs));
      FlatOne(ps[0]);
      hide Flat, Put, Harmless, IsKey, Text;
      FlatConcat(head, rest);
    } else {
      assert Put(ps, key, Flat(vs)) == [];
    }
  }

  lemma {:induction false} SpliceHoles(ps: seq<Piece>, key: string, vs: seq<Piece>, h: string)
    ensures Holes(Splice(ps, key, vs), h)
         == (if h == key then 0 else Holes(ps, h)) + Holes(ps, key) * Holes(vs, h)
  {
    if ps != [] {
      var head, rest := if ps[0] == Hole(key) then vs else [ps[0]], Splice(ps[1..], key, vs);
      SpliceHoles(ps[1..], key, vs, h);
      HolesConcat(head, rest, h);
      assert [ps[0]][1..] == [];
      OneTimes(Holes(ps[1..], key), Holes(vs, h));
    }
  }

  lemma OneTimes(n: nat, m: nat)
    ensures (1 + n) * m == m + n * m && (0 + n) * m == n * m
  {
  }

  lemma {:induction false} PutLength(ps: seq<Piece>, key: string, value: string)
    requires |value| == |Braced(key)| + 1
    ensures |Flat(Put(ps, key, value))| == |Flat(ps)| + Holes(ps, key)
  {
    if ps != [] {
      PutFirst(ps, key, value);
      PutLength(ps[1..], key, value);
      hide Put, Braced;
    } else {
      assert Put(ps, key, value) == [];
    }
  }

  /** The holes of a well-formed template can be read off its text. */
  lemma SameTextSameHoles(ps: seq<Piece>, qs: seq<Piece>, key: string)
    requires WellFormed(ps) && WellFormed(qs) && IsKey(key) && Flat(ps) == Flat(qs)
    ensures Holes(ps, key) == Holes(qs, key)
  {
    var longer := Braced(key) + "x";
    PutLength(ps, key, longer);
    PutLength(qs, key, longer);
    hide Flat, Put, Replaced;
    PlainFillsHoles(ps, key, longer);
    PlainFillsHoles(qs, key, longer);
  }

  /** The holes that are there, and those that come with a value put into other holes. */
  function WithValue(own: int, places: int, each: int): int {
    own + places * each
  }

  /** The result is a template again, with these holes left. */
  lemma InTurnSplices(ps: seq<Piece>, a: string, vs: seq<Piece>, b: string, ws: seq<Piece>)
    requires WellFormed(ps) && WellFormed(vs) && WellFormed(ws) && IsKey(a) && IsKey(b) && a != b
    ensures
      var rs := Splice(Splice(ps, a, vs), b, ws);
      var left := WithValue(Holes(ps, b), Holes(ps, a), Holes(vs, b));
      && WellFormed(rs) && Flat(rs) == InTurn(Flat(ps), a, Flat(vs), b, Flat(ws))
      && Holes(rs, a) == WithValue(WithValue(0, Holes(ps, a), Holes(vs, a)), left, Holes(ws, a))
      && Holes(rs, b) == WithValue(0, left, Holes(ws, b))
  {
    hide Flat, Put, Replaced, WellFormed, Holes, Splice, Braced;
    var first := Splice(ps, a, vs);
    SpliceFits(ps, a, vs);
    SpliceFits(first, b, ws);
    PlainFillsHoles(ps, a, Flat(vs));
    PlainFillsHoles(first, b, Flat(ws));
    SpliceHoles(ps, a, vs, a);
    SpliceHoles(ps, a, vs, b);
    SpliceHoles(first, b, ws, a);
    SpliceHoles(first, b, ws, b);
  }

  lemma Unequal(na: int, nb: int, own: int, other: int, back: int)
    requires na > 0 && nb > 0 && other > 0 && back > 0 && 0 <= own <= 1
    ensures WithValue(WithValue(0, na, own), WithValue(nb, na, other), back)
         != WithValue(0, WithValue(na, nb, back), own)
  {
    Product(na, other);
    if own == 0 {
      Product(nb + na * other, back);
    } else {
      Product(na * other, back);
      assert (nb + na * other) * back == nb * back + (na * other) * back;
    }
  }

  lemma Product(x: int, y: int)
    requires x > 0 && y > 0
    ensures x * y > 0
  {
  }

  /** Two values that spell each other's holes, and both have a place: the orders differ when one of them
      spells its own hole at most once. */
  lemma SpellingEachOther(ps: seq<Piece>, a: string, vs: seq<Piece>, b: string, ws: seq<Piece>)
    requires WellFormed(ps) && WellFormed(vs) && WellFormed(ws) && IsKey(a) && IsKey(b) && a != b
    requires Hole(a) in ps && Hole(b) in ps && Hole(b) in vs && Hole(a) in ws && Holes(vs, a) <= 1
    ensures InTurn(Flat(ps), a, Flat(vs), b, Flat(ws)) != InTurn(Flat(ps), b, Flat(ws), a, Flat(vs))
  {
    var aFirst, bFirst := Splice(Splice(ps, a, vs), b, ws), Splice(Splice(ps, b, ws), a, vs);
    hide Flat, WellFormed, InTurn, Holes, Splice, WithValue;
    InTurnSplices(ps, a, vs, b, ws);
    InTurnSplices(ps, b, ws, a, vs);
    Unequal(Holes(ps, a), Holes(ps, b), Holes(vs, a), Holes(vs, b), Holes(ws, a));
    if Flat(aFirst) == Flat(bFirst) {
      SameTextSameHoles(aFirst, bFirst, a);
    }
  }

  /** Both keys have a place, and each value spells the other's hole, and its own at least twice. */
  predicate Entangled(ps: seq<Piece>, a: string, vs: seq<Piece>, b: string, ws: seq<Piece>) {
    Hole(a) in ps && Hole(b) in ps && Hole(b) in vs && Hole(a) in ws && Holes(vs, a) > 1 && Holes(ws, b) > 1
  }

  /** Whether the order of `pairs` shows, for two keys whose values may spell any holes: the two orders
      give the same text when neither value shows that it came first, and, unless the values are
      entangled, only then. */
  lemma OrderMattersForHoles(ps: seq<Piece>, a: string, vs: seq<Piece>, b: string, ws: seq<Piece>)
    requires WellFormed(ps) && WellFormed(vs) && WellFormed(ws) && IsKey(a) && IsKey(b) && a != b
    ensures
      var va, vb := Flat(vs), Flat(ws);
      var same := InTurn(Flat(ps), a, va, b, vb) == InTurn(Flat(ps), b, vb, a, va);
      && (Early(ps, a, vs, b, vb) && Early(ps, b, ws, a, va) ==> same)
      && (same && !Entangled(ps, a, vs, b, ws) ==> Early(ps, a, vs, b, vb) && Early(ps, b, ws, a, va))
  {
    hide Flat, WellFormed, InTurn, Braced;
    if Hole(a) !in ws || Hole(b) !in ps {
      OneSided(ps, a, vs, b, ws);
    } else if Hole(b) !in vs || Hole(a) !in ps {
      OneSided(ps, b, ws, a, vs);
    } else {
      SpellsMore(ws, b, a);
      if Holes(vs, a) <= 1 {
        SpellingEachOther(ps, a, vs, b, ws);
      } else if Holes(ws, b) <= 1 {
        SpellingEachOther(ps, b, ws, a, vs);
      }
    }
  }

  /** A text that spells another hole is not just this one. */
  lemma SpellsMore(ws: seq<Piece>, b: string, a: string)
    requires WellFormed(ws) && IsKey(a) && IsKey(b) && a != b && Hole(a) in ws
    ensures Flat(ws) != Braced(b)
  {
    FlatOne(Hole(b));
    if Flat(ws) == Braced(b) {
      SameTextSameHoles(ws, [Hole(b)], a);
    }
  }

  /** With entangled values the two orders can agree all the same. */
  lemma OrdersCanAgree()
    ensures
      var ps, vs, ws := [Hole("a"), Hole("b")], [Hole("a"), Hole("b"), Hole("a")], [Hole("b"), Hole("a"), Hole("b")];
      && InTurn(Flat(ps), "a", Flat(vs), "b", Flat(ws)) == InTurn(Flat(ps), "b", Flat(ws), "a", Flat(vs))
      && !Early(ps, "a", vs, "b", Flat(ws)) && Entangled(ps, "a", vs, "b", ws)
  {
    var x, y := Hole("a"), Hole("b");
    var ps, vs, ws := [x, y], [x, y, x], [y, x, y];
    var four, eight := [x, y, x, y], [x, y, x, y, x, y, x, y];
    TwoPieces(x, y, vs, ws);
    assert vs + [y] == four && [x] + ws == four;
    assert [x, y] + [x, y] == four;
    SpliceConcat([x, y], [x, y], "b", ws);
    SpliceConcat([x, y], [x, y], "a", vs);
    assert four + four == eight;
    hide Flat, Splice, InTurn;
    InTurnSplices(ps, "a", vs, "b", ws);
    InTurnSplices(ps, "b", ws, "a", vs);
  }

  lemma {:induction false} SpliceConcat(a: seq<Piece>, b: seq<Piece>, key: string, vs: seq<Piece>)
    ensures Splice(a + b, key, vs) == Splice(a, key, vs) + Splice(b, key, vs)
  {
    if a == [] {
      assert a + b == b;
    } else {
      assert (a + b)[1..] == a[1..] + b;
      SpliceConcat(a[1..], b, key, vs);
    }
  }

  lemma TwoPieces(x: Piece, y: Piece, vs: seq<Piece>, ws: seq<Piece>)
    requires x == Hole("a") && y == Hole("b")
    ensures Splice([x, y], "a", vs) == vs + [y] && Splice([x, y], "b", ws) == [x] + ws
  {
    assert "a" != "b" && [x, y][1..] == [y] && [y][1..] == [];
    assert Splice([y], "a", vs) == [y] && Splice([y], "b", ws) == ws;
  }
}
