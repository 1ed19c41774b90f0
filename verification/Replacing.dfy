/** Literal replacement (`proto.lua`, `plain`). */
module Replacing {
  import opened Wrappers

  predicate StartsWith(s: string, needle: string) {
    |needle| <= |s| && s[..|needle|] == needle
  }

  /** Every occurrence from the left replaced, the replacement itself not looked at again. */
  function Replaced(s: string, needle: string, repl: string): string
    requires needle != ""
    decreases |s|
  {
    if StartsWith(s, needle) then repl + Replaced(s[|needle|..], needle, repl)
    else if s == "" then ""
    else [s[0]] + Replaced(s[1..], needle, repl)
  }

  lemma {:induction false} NothingToReplace(t: string, rest: string, needle: string, repl: string)
    requires needle != "" && (forall i :: 0 <= i < |t| ==> !StartsWith((t + rest)[i..], needle))
    ensures Replaced(t + rest, needle, repl) == t + Replaced(rest, needle, repl)
    decreases |t|
  {
    if t == "" {
      assert t + rest == rest;
    } else {
      var s, u := t + rest, t[1..];
      assert s[0..] == s;
      assert !StartsWith(s, needle);
      forall i | 0 <= i < |u| ensures !StartsWith((u + rest)[i..], needle) {
        assert (u + rest)[i..] == s[i + 1..];
      }
      NothingToReplace(u, rest, needle, repl);
      assert s[1..] == u + rest && s[0] == t[0];
      hide StartsWith;
      assert Replaced(s, needle, repl) == [t[0]] + Replaced(u + rest, needle, repl);
      assert [t[0]] + (u + Replaced(rest, needle, repl)) == t + Replaced(rest, needle, repl);
    }
  }

  /** Lua's `string.find` with plain matching: the first occurrence at or after `from`. */
  method Find(s: string, needle: string, from: nat) returns (at: Option<nat>)
    requires from <= |s| && needle != ""
    ensures at.Some? ==> from <= at.value <= |s| && StartsWith(s[at.value..], needle)
    ensures forall i :: from <= i < (if at.Some? then at.value else |s|) ==> !StartsWith(s[i..], needle)
  {
    for i := from to |s|
      invariant forall j :: from <= j < i ==> !StartsWith(s[j..], needle)
    {
      if StartsWith(s[i..], needle) {
        return Some(i);
      }
    }
    return None;
  }

  method Plain(s: string, needle: string, repl: string) returns (r: string)
    requires needle != ""
    ensures r == Replaced(s, needle, repl)
  {
    hide Replaced, StartsWith;
    var out, from: nat := "", 0;
    assert s[0..] == s && out + Replaced(s, needle, repl) == Replaced(s, needle, repl);
    while true
      invariant from <= |s| && out + Replaced(s[from..], needle, repl) == Replaced(s, needle, repl)
      decreases |s| - from
    {
      var a := Find(s, needle, from);
      if a.None? {
        NoneLeft(s, from, needle, repl);
        return out + s[from..];
      }
      OneReplaced(s, from, a.value, needle, repl);
      assert out + (s[from..a.value] + repl + Replaced(s[a.value + |needle|..], needle, repl))
          == out + s[from..a.value] + repl + Replaced(s[a.value + |needle|..], needle, repl);
      out := out + s[from..a.value] + repl;
      from := a.value + |needle|;
    }
  }

  lemma Skipped(s: string, from: nat, to: nat, needle: string, repl: string)
    requires needle != "" && from <= to <= |s| && (forall i :: from <= i < to ==> !StartsWith(s[i..], needle))
    ensures Replaced(s[from..], needle, repl) == s[from..to] + Replaced(s[to..], needle, repl)
  {
    hide StartsWith, Replaced;
    var t, rest := s[from..to], s[to..];
    assert s[from..] == t + rest;
    forall i | 0 <= i < |t| ensures !StartsWith((t + rest)[i..], needle) {
      assert (t + rest)[i..] == s[from + i..];
    }
    NothingToReplace(t, rest, needle, repl);
  }

  lemma NoneLeft(s: string, from: nat, needle: string, repl: string)
    requires needle != "" && from <= |s| && (forall i :: from <= i < |s| ==> !StartsWith(s[i..], needle))
    ensures Replaced(s[from..], needle, repl) == s[from..]
  {
    Skipped(s, from, |s|, needle, repl);
    assert s[|s|..] == "" && s[from..|s|] == s[from..] && s[from..] + "" == s[from..];
  }

  lemma OneReplaced(s: string, from: nat, a: nat, needle: string, repl: string)
    requires needle != "" && from <= a <= |s| && StartsWith(s[a..], needle)
    requires forall i :: from <= i < a ==> !StartsWith(s[i..], needle)
    ensures a + |needle| <= |s|
    ensures Replaced(s[from..], needle, repl) == s[from..a] + repl + Replaced(s[a + |needle|..], needle, repl)
  {
    Skipped(s, from, a, needle, repl);
    assert s[a..][|needle|..] == s[a + |needle|..];
  }

  /** One character that differs rules out a match. */
  lemma Mismatch(s: string, needle: string, i: nat)
    requires i < |needle| && (i < |s| ==> s[i] != needle[i])
    ensures !StartsWith(s, needle)
  {
    assert |needle| <= |s| ==> s[..|needle|][i] == s[i];
  }
}
