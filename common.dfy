/** Small shared vocabulary: optional values, pass/fail outcomes and the
    positions of the elements of a sequence that satisfy a test. */
module Common {

  datatype Option<+T> = None | Some(value: T)
  {
    /** The value if present, otherwise `default` (Python's `dict.get(key, default)`). */
    function GetOr(default: T): T {
      match this
      case Some(v) => v
      case None => default
    }
  }

  /** The result of a step that either completes or raises an exception with a message. */
  datatype Outcome = Pass | Fail(message: string)

  /** Python's `value if value else fallback` for an optional string: the
      value unless it is absent or empty. */
  function NonEmptyOr(value: Option<string>, fallback: string): (r: string)
    ensures r == fallback || value == Some(r)
  {
    if value.Some? && value.value != "" then value.value else fallback
  }

  /** The indices `i` of `s` with `keep(s[i])`, in increasing order. */
  function FilterIndices<T>(s: seq<T>, keep: T -> bool): (r: seq<nat>)
    ensures forall k :: 0 <= k < |r| ==> r[k] < |s| && keep(s[r[k]])
    ensures forall k, l :: 0 <= k < l < |r| ==> r[k] < r[l]
    ensures forall i :: 0 <= i < |s| && keep(s[i]) ==> i in r
  {
    if |s| == 0 then []
    else FilterIndices(s[..|s| - 1], keep) + (if keep(s[|s| - 1]) then [|s| - 1] else [])
  }

  /** Extending a prefix by one element. */
  lemma PrefixExtend<T>(s: seq<T>, i: nat)
    requires i < |s|
    ensures s[..i + 1] == s[..i] + [s[i]]
  {
  }
}
