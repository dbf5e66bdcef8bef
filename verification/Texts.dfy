/** The string operations of the label parser: trimming, prefixes and splitting at underscores. */
module Texts {
  import opened Options
  import opened Decimals

  predicate White(c: char) { c == ' ' || '\t' <= c <= '\r' }

  function TrimStart(s: string): string { if s != [] && White(s[0]) then TrimStart(s[1..]) else s }

  function TrimEnd(s: string): string { if s != [] && White(s[|s| - 1]) then TrimEnd(s[..|s| - 1]) else s }

  function Trim(s: string): string { TrimEnd(TrimStart(s)) }

  function TrimEndChar(s: string, c: char): string {
    if s != [] && s[|s| - 1] == c then TrimEndChar(s[..|s| - 1], c) else s
  }

  predicate EndsWith(s: string, p: string) { |p| <= |s| && s[|s| - |p|..] == p }

  function TrimEndText(s: string, p: string): string
    requires p != []
  {
    if EndsWith(s, p) then TrimEndText(s[..|s| - |p|], p) else s
  }

  /** What follows a prefix. */
  function After(s: string, p: string): string
    requires p <= s
  {
    s[|p|..]
  }

  function Split(s: string): (parts: seq<string>)
    ensures parts != []
    decreases |s|
  {
    var k := IndexOf(s, '_', 0);
    if k == |s| then [s] else [s[..k]] + Split(s[k + 1..])
  }

  /** Text without underscores or white space. */
  predicate Plain(s: string) { forall i :: 0 <= i < |s| ==> s[i] != '_' && !White(s[i]) }

  lemma NothingToTrim(s: string)
    requires s != [] && !White(s[0]) && !White(s[|s| - 1])
    ensures Trim(s) == s
  {
  }

  lemma AfterPrefix(p: string, rest: string)
    ensures p <= p + rest && After(p + rest, p) == rest
  {
  }

  lemma PrefixDiffers(s: string, p: string, i: nat)
    requires i < |p| && i < |s| && s[i] != p[i]
    ensures !(p <= s)
  {
  }

  lemma LastDiffers(s: string, p: string)
    requires s != [] && p != [] && s[|s| - 1] != p[|p| - 1]
    ensures !EndsWith(s, p)
  {
    if |p| <= |s| {
      assert s[|s| - |p|..][|p| - 1] == s[|s| - 1];
    }
  }

  lemma CharTrimmedOnce(s: string, c: char)
    requires s != [] && s[|s| - 1] != c
    ensures TrimEndChar(s + [c], c) == s
  {
    assert (s + [c])[..|s|] == s;
  }

  lemma TextTrimmedOnce(s: string, p: string)
    requires p != [] && !EndsWith(s, p)
    ensures TrimEndText(s + p, p) == s
  {
    assert (s + p)[|s|..] == p && (s + p)[..|s|] == s;
  }

  lemma SplitPlain(a: string)
    requires Plain(a)
    ensures Split(a) == [a]
  {
    assert a[..|a|] == a;
  }

  lemma SplitNext(a: string, rest: string)
    requires Plain(a)
    ensures Split(a + "_" + rest) == [a] + Split(rest)
  {
    var s := a + "_" + rest;
    assert s[|a|] == '_' && forall i :: 0 <= i < |a| ==> s[i] == a[i];
    assert IndexOf(s, '_', 0) == |a|;
    assert s[..|a|] == a && s[|a| + 1..] == rest;
  }
}
