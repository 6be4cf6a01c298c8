/**
 * The string operations of JavaScript's `String.prototype` that the client
 * cookie lookup uses: `indexOf`, `split` with a string separator, and the
 * `join` that undoes it.
 */
module Strings {
  import opened Wrappers

  /** `sub` occurs in `s` starting at position `k`. */
  predicate OccursAt(s: string, sub: string, k: int) {
    0 <= k && k + |sub| <= |s| && s[k..k + |sub|] == sub
  }

  /** `s.indexOf(sub, from)`: the first position at or after `from` where `sub` occurs. */
  function IndexOfFrom(s: string, sub: string, from: nat): (r: Option<nat>)
    requires from <= |s|
    ensures r.Some? ==> from <= r.value && OccursAt(s, sub, r.value)
    ensures forall k | from <= k && (r.Some? ==> k < r.value) :: !OccursAt(s, sub, k)
    decreases |s| - from
  {
    if from + |sub| > |s| then None
    else if s[from..from + |sub|] == sub then Some(from)
    else IndexOfFrom(s, sub, from + 1)
  }

  /**
   * `s.indexOf(sub)`, with `None` for JavaScript's -1. The result is 0
   * exactly when `sub` is a prefix of `s`.
   */
  function IndexOf(s: string, sub: string): (r: Option<nat>)
    ensures r.Some? ==> OccursAt(s, sub, r.value)
    ensures forall k | 0 <= k && (r.Some? ==> k < r.value) :: !OccursAt(s, sub, k)
    ensures r == Some(0) <==> sub <= s
  {
    IndexOfFrom(s, sub, 0)
  }

  /** `parts.join(sep)`. */
  function Join(parts: seq<string>, sep: string): string
    decreases |parts|
  {
    if |parts| == 0 then ""
    else if |parts| == 1 then parts[0]
    else parts[0] + sep + Join(parts[1..], sep)
  }

  /** An occurrence inside a prefix of `s` is an occurrence in `s`. */
  lemma OccursInPrefix(s: string, sub: string, i: nat, k: int)
    requires i <= |s|
    requires OccursAt(s[..i], sub, k)
    ensures OccursAt(s, sub, k)
  {
    assert s[..i][k..k + |sub|] == s[k..k + |sub|];
  }

  /**
   * `s.split(sep)` for a non-empty separator: the pieces between the
   * successive left-to-right occurrences of `sep`. Joining them back with
   * `sep` gives `s` again, no piece contains `sep`, a string without
   * `sep` is its own single piece, and otherwise the first piece ends at
   * the first occurrence of `sep`.
   */
  function Split(s: string, sep: string): (parts: seq<string>)
    requires sep != ""
    ensures |parts| >= 1
    ensures parts == [s] <==> IndexOf(s, sep).None?
    ensures |parts| > 1 ==> IndexOf(s, sep) == Some(|parts[0]|)
    ensures Join(parts, sep) == s
    ensures forall i | 0 <= i < |parts| :: IndexOf(parts[i], sep).None?
    decreases |s|
  {
    match IndexOf(s, sep)
    case None => [s]
    case Some(i) =>
      var rest := Split(s[i + |sep|..], sep);
      var parts := [s[..i]] + rest;
      assert parts[1..] == rest;
      assert s == s[..i] + sep + s[i + |sep|..] by {
        assert s[i..i + |sep|] == sep;
      }
      assert IndexOf(s[..i], sep).None? by {
        var r := IndexOf(s[..i], sep);
        if r.Some? {
          OccursInPrefix(s, sep, i, r.value);
        }
      }
      parts
  }
}
