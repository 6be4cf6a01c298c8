/**
 * The browser-side cookie lookup (app/utils/theme.client.ts): `getCookie`
 * splits the already URI-decoded `document.cookie` string on "; " and keeps
 * the value of the last segment that starts with `name=`.
 */
module ThemeClient {
  import opened Wrappers
  import Strings

  /** The separator `document.cookie` puts between cookies. */
  const Separator: string := "; "

  /** `val.indexOf(name) === 0`: `name` sits at the very start of the segment. */
  predicate Matches(segment: string, name: string) {
    Strings.IndexOf(segment, name) == Some(0)
  }

  /** The index of the last matching segment, if any. */
  function LastMatch(segs: seq<string>, name: string): (r: Option<nat>)
    ensures r.None? <==> forall j | 0 <= j < |segs| :: !Matches(segs[j], name)
    ensures r.Some? ==> r.value < |segs| && Matches(segs[r.value], name)
                        && forall j | r.value < j < |segs| :: !Matches(segs[j], name)
    decreases |segs|
  {
    if |segs| == 0 then None
    else if Matches(segs[|segs| - 1], name) then Some(|segs| - 1)
    else
      var r := LastMatch(segs[..|segs| - 1], name);
      assert forall j | 0 <= j < |segs| - 1 :: segs[..|segs| - 1][j] == segs[j];
      r
  }

  /**
   * The value the lookup yields for a list of segments: what follows `name`
   * in the last segment that starts with it, or "" when none does.
   */
  function CookieValue(segs: seq<string>, name: string): (v: string)
    ensures || (v == "" && forall j | 0 <= j < |segs| :: !Matches(segs[j], name))
            || (exists k | 0 <= k < |segs| :: && Matches(segs[k], name) && segs[k] == name + v
                                               && forall j | k < j < |segs| :: !Matches(segs[j], name))
  {
    match LastMatch(segs, name)
    case None => ""
    case Some(k) =>
      var v := segs[k][|name|..];
      assert segs[k] == name + v;
      v
  }

  /** One more segment either overrides the value found so far or leaves it alone. */
  lemma {:induction false} CookieValueExtend(segs: seq<string>, name: string, i: nat)
    requires i < |segs|
    ensures Matches(segs[i], name) ==> name <= segs[i]
    ensures CookieValue(segs[..i + 1], name)
            == if Matches(segs[i], name) then segs[i][|name|..] else CookieValue(segs[..i], name)
  {
    assert segs[..i + 1][..i] == segs[..i];
  }

  /**
   * The `forEach` of `getCookie`: walks the segments in order, overwriting
   * the result at every match, so the last match wins.
   */
  method ScanSegments(segs: seq<string>, name: string) returns (res: string)
    ensures res == CookieValue(segs, name)
  {
    res := "";
    var i := 0;
    while i < |segs|
      invariant 0 <= i <= |segs|
      invariant res == CookieValue(segs[..i], name)
    {
      var val := segs[i];
      CookieValueExtend(segs, name, i);
      if Matches(val, name) {
        res := val[|name|..];
      }
      i := i + 1;
    }
    assert segs[..i] == segs;
  }

  /** `getCookie(cName)` run over the decoded cookie string `decoded`. */
  method GetCookie(cName: string, decoded: string) returns (res: string)
    ensures res == CookieValue(Strings.Split(decoded, "; "), cName + "=")
  {
    var name := cName + "=";
    var cArr := Strings.Split(decoded, Separator);
    res := ScanSegments(cArr, name);
  }

  /** A segment matches exactly when it begins with the whole `name=`. */
  lemma MatchesIffPrefix(segment: string, name: string)
    ensures Matches(segment, name) <==> name <= segment
  {
  }

  /** A longer or shifted cookie name does not match: the prefix is anchored and ends with "=". */
  lemma {:induction false} MatchIsAnchoredAndExact()
    ensures !Matches("xtheme=a", "theme=")
    ensures !Matches("themes=a", "theme=")
    ensures Matches("theme=a", "theme=")
  {
    MatchesIffPrefix("xtheme=a", "theme=");
    assert "xtheme=a"[0] != "theme="[0];
    MatchesIffPrefix("themes=a", "theme=");
    assert "themes=a"[5] != "theme="[5];
    MatchesIffPrefix("theme=a", "theme=");
    assert "theme=a"[..6] == "theme=";
  }

  /** A string without "; " in it is one segment: "a;b" is not split. */
  lemma {:induction false} NoSeparatorIsOneSegment(decoded: string, name: string)
    requires Strings.IndexOf(decoded, "; ").None?
    ensures CookieValue(Strings.Split(decoded, "; "), name) == (if name <= decoded then decoded[|name|..] else "")
  {
    assert Strings.Split(decoded, "; ") == [decoded];
    MatchesIffPrefix(decoded, name);
    if name <= decoded {
      assert decoded == name + decoded[|name|..];
    }
  }

  /** An occurrence in a suffix of `s` is an occurrence in `s`, shifted. */
  lemma OccursInSuffix(s: string, sub: string, n: nat, k: int)
    requires n <= |s|
    requires Strings.OccursAt(s[n..], sub, k)
    ensures Strings.OccursAt(s, sub, n + k)
  {
    assert s[n..][k..k + |sub|] == s[n + k..n + k + |sub|];
  }

  /** A value found among the segments is the tail of one of them, right after `name=`. */
  lemma {:induction false} CookieValueIsSegmentTail(segs: seq<string>, name: string)
    ensures var v := CookieValue(segs, name);
            v != "" ==> exists k | 0 <= k < |segs| :: segs[k] == name + v
  {
  }

  /**
   * A value found among segments none of which contains `sep` does not
   * contain it either; with the "; " pieces of `split`, the value never
   * holds "; ".
   */
  lemma {:induction false} CookieValueAvoidsSeparator(segs: seq<string>, name: string, sep: string)
    requires sep != ""
    requires forall i | 0 <= i < |segs| :: Strings.IndexOf(segs[i], sep).None?
    ensures Strings.IndexOf(CookieValue(segs, name), sep).None?
  {
    var v := CookieValue(segs, name);
    match LastMatch(segs, name)
    case None =>
    case Some(k) =>
      assert segs[k] == name + v;
      assert v == segs[k][|name|..];
      var r := Strings.IndexOf(v, sep);
      if r.Some? {
        OccursInSuffix(segs[k], sep, |name|, r.value);
        assert false;
      }
  }
}
