/** Shared value types of the backend model: optional values, handler results and user ids. */
module Common {

  /** A value that may be absent (`undefined` / SQL NULL in the backend). */
  datatype Option<+T> = None | Some(value: T)

  /** The outcome of a route handler: a value, or the error it answers with. */
  datatype Result<+T, +E> = Ok(value: T) | Err(error: E)

  /** Internal user id (the `users.id` column). */
  type UserId = nat

  /** JavaScript truthiness of an optional string: present and not empty. */
  predicate Truthy(s: Option<string>)
  {
    s.Some? && s.value != ""
  }

  /**
   * `r` is the subsequence of `s` taken at the positions `idx`, which increase strictly:
   * every element of `r` comes from `s`, once, and in the order it has there.
   */
  predicate PicksAt<T(==)>(s: seq<T>, idx: seq<nat>, r: seq<T>)
  {
    && |idx| == |r|
    && (forall k :: 0 <= k < |idx| ==> idx[k] < |s| && r[k] == s[idx[k]])
    && (forall k, l :: 0 <= k < l < |idx| ==> idx[k] < idx[l])
  }

  /** Positions picked from a prefix are positions of the whole sequence. */
  lemma PicksAtGrow<T>(s: seq<T>, idx: seq<nat>, r: seq<T>)
    requires |s| > 0 && PicksAt(s[..|s| - 1], idx, r)
    ensures PicksAt(s, idx, r)
  {
    forall k | 0 <= k < |idx| ensures idx[k] < |s| && r[k] == s[idx[k]] {
      assert s[..|s| - 1][idx[k]] == s[idx[k]];
    }
  }

  /** Picking from a prefix and then the last element is picking from the whole sequence. */
  lemma PicksAtLast<T>(s: seq<T>, idx: seq<nat>, r: seq<T>)
    requires |s| > 0 && PicksAt(s[..|s| - 1], idx, r)
    ensures PicksAt(s, idx + [|s| - 1], r + [s[|s| - 1]])
  {
    PicksAtGrow(s, idx, r);
  }
}
