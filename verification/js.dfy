/**
 * The small part of JavaScript's semantics the theme logic leans on:
 * the nullish-coalescing operator `??`, the logical-or operator `||` on
 * strings, and `String(...)` applied to a `FormData` entry.
 *
 * A string-typed operand that may be `null` or `undefined` is an
 * `Option<string>`; `None` is either of the two.
 */
module Js {
  import opened Wrappers

  /** A string operand is truthy unless it is null, undefined or "". */
  predicate Truthy(v: Option<string>) {
    v.Some? && v.value != ""
  }

  /**
   * `c0 ?? c1 ?? ... ?? last`: the first candidate that is neither null
   * nor undefined, whatever string it holds; `last` when there is none.
   * (`??` associates to the left, but `(a ?? b) ?? c` and `a ?? (b ?? c)`
   * agree, so the chain is folded from the right.)
   */
  function FirstNonNullish(cands: seq<Option<string>>, last: string): (r: string)
    ensures || (exists i | 0 <= i < |cands| :: && cands[i] == Some(r)
                                                && forall j | 0 <= j < i :: cands[j].None?)
            || (r == last && forall j | 0 <= j < |cands| :: cands[j].None?)
    decreases |cands|
  {
    if |cands| == 0 then last
    else
      match cands[0]
      case Some(v) => v
      case None =>
        var r := FirstNonNullish(cands[1..], last);
        assert forall i | 1 <= i < |cands| :: cands[1..][i - 1] == cands[i];
        r
  }

  /**
   * `c0 || c1 || ... || last` over strings: the first truthy candidate,
   * `last` when every candidate is null, undefined or "".
   */
  function FirstTruthy(cands: seq<Option<string>>, last: string): (r: string)
    ensures || (exists i | 0 <= i < |cands| :: && Truthy(cands[i]) && cands[i] == Some(r)
                                                && forall j | 0 <= j < i :: !Truthy(cands[j]))
            || (r == last && forall j | 0 <= j < |cands| :: !Truthy(cands[j]))
    decreases |cands|
  {
    if |cands| == 0 then last
    else if Truthy(cands[0]) then cands[0].value
    else
      var r := FirstTruthy(cands[1..], last);
      assert forall i | 1 <= i < |cands| :: cands[1..][i - 1] == cands[i];
      r
  }

  /**
   * The two chains differ only on "": when no candidate holds the empty
   * string, `??` and `||` pick the same value.
   */
  lemma ChainsAgreeWithoutEmpty(cands: seq<Option<string>>, last: string)
    requires forall i | 0 <= i < |cands| :: cands[i] != Some("")
    ensures FirstNonNullish(cands, last) == FirstTruthy(cands, last)
  {
  }

  /** A `FormData` entry: a text field or an uploaded file. */
  datatype FormValue = Text(text: string) | File

  /** One `name=value` pair of a submitted form, in submission order. */
  datatype FormField = FormField(name: string, value: FormValue)

  /** `FormData.get(name)`: the first entry with that name, or null. */
  function FormGet(form: seq<FormField>, name: string): (r: Option<FormValue>)
    ensures r.None? <==> forall i | 0 <= i < |form| :: form[i].name != name
    ensures r.Some? ==> exists i | 0 <= i < |form| :: form[i].name == name && form[i].value == r.value
                                  && forall j | 0 <= j < i :: form[j].name != name
    decreases |form|
  {
    if |form| == 0 then None
    else if form[0].name == name then Some(form[0].value)
    else
      var r := FormGet(form[1..], name);
      assert forall i | 1 <= i < |form| :: form[1..][i - 1] == form[i];
      if r.Some? then
        var k :| 0 <= k < |form[1..]| && form[1..][k].name == name && form[1..][k].value == r.value
                 && forall j | 0 <= j < k :: form[1..][j].name != name;
        assert form[k + 1] == form[1..][k];
        r
      else r
  }

  /** `String(v)` for what `FormData.get` returns. */
  function StringOf(v: Option<FormValue>): (s: string)
    ensures v == Some(Text(s)) || (v.None? && s == "null") || (v == Some(File) && s == "[object File]")
    ensures s == "" <==> v == Some(Text(""))
  {
    match v
    case None => "null"
    case Some(Text(t)) => t
    case Some(File) => "[object File]"
  }
}
