/** Values, text and facts about collections that several modules share. */
module Wrappers {

  /** A value that may be absent: a nil error, a missing row, a missing map entry. */
  datatype Option<+T> = None | Some(value: T)

  /** The first of two optional values that is present. */
  function FirstOf<T>(a: Option<T>, b: Option<T>): Option<T> {
    if a.Some? then a else b
  }

  predicate IsSpace(c: char) {
    || '\t' <= c <= '\r' || c == ' ' || c == '\U{85}' || c == '\U{A0}' || c == '\U{1680}'
    || '\U{2000}' <= c <= '\U{200A}' || c == '\U{2028}' || c == '\U{2029}' || c == '\U{202F}'
    || c == '\U{205F}' || c == '\U{3000}'
  }

  /** The string without the white space around it. */
  function TrimSpace(s: string): string {
    if s == [] then []
    else if IsSpace(s[0]) then TrimSpace(s[1..])
    else if IsSpace(s[|s| - 1]) then TrimSpace(s[..|s| - 1])
    else s
  }

  predicate AllSpace(s: string) {
    forall i :: 0 <= i < |s| ==> IsSpace(s[i])
  }

  /** All the white space around a text goes, and nothing else. */
  lemma {:induction false} TrimSpaceUnwraps(before: string, s: string, after: string)
    requires AllSpace(before) && AllSpace(after)
    requires s == "" || (!IsSpace(s[0]) && !IsSpace(s[|s| - 1]))
    ensures TrimSpace(before + (s + after)) == s
    decreases |before| + |after|
  {
    var w := before + (s + after);
    if before != "" {
      assert w[0] == before[0] && w[1..] == before[1..] + (s + after);
      TrimSpaceUnwraps(before[1..], s, after);
    } else if after != "" {
      assert w[|w| - 1] == after[|after| - 1] && w[..|w| - 1] == before + (s + after[..|after| - 1]);
      TrimSpaceUnwraps(before, s, after[..|after| - 1]);
      if s == "" {
        assert w == after;
        TrimSpaceUnwraps(after[1..], s, "");
        assert after[1..] + (s + "") == after[1..];
      }
    } else {
      assert w == s;
    }
  }

  lemma {:induction false} TrimSpaceTwice(s: string)
    ensures TrimSpace(TrimSpace(s)) == TrimSpace(s)
    decreases |s|
  {
    if s != [] {
      if IsSpace(s[0]) {
        TrimSpaceTwice(s[1..]);
      } else if IsSpace(s[|s| - 1]) {
        TrimSpaceTwice(s[..|s| - 1]);
      }
    }
  }

  predicate NoDuplicates<T(==)>(s: seq<T>) {
    forall i, j :: 0 <= i < j < |s| ==> s[i] != s[j]
  }

  lemma {:induction false} SubsetSize<T>(a: set<T>, b: set<T>)
    requires a <= b
    ensures |a| <= |b|
    ensures a != b ==> |a| < |b|
    decreases a
  {
    if a != {} {
      var x :| x in a;
      SubsetSize(a - {x}, b - {x});
    } else if b != {} {
      assert |b| > 0;
    }
  }

  lemma Assoc(a: string, b: string, c: string)
    ensures a + (b + c) == (a + b) + c
  {
  }
}
