/**
 * The API origin: the page's origin with its first `:8008` replaced by
 * `:9000`, as `String.prototype.replace` does when its pattern is a string.
 */
module Origin {
  import opened Api

  const DOCS_PORT := ":8008"
  const API_PORT := ":9000"

  predicate OccursAt(s: string, pat: string, j: nat)
  {
    j + |pat| <= |s| && s[j..j + |pat|] == pat
  }

  /** The first index at or after `from` where `pat` occurs. */
  function IndexOfFrom(s: string, pat: string, from: nat): (r: Option<nat>)
    requires from <= |s|
    ensures r.Some? ==> from <= r.value && OccursAt(s, pat, r.value)
    ensures r.Some? ==> forall j :: from <= j < r.value ==> !OccursAt(s, pat, j)
    ensures r.None? ==> forall j :: from <= j ==> !OccursAt(s, pat, j)
    decreases |s| - from
  {
    if OccursAt(s, pat, from) then Some(from)
    else if from == |s| then None
    else IndexOfFrom(s, pat, from + 1)
  }

  /** The index of the first occurrence of `pat` in `s`, if any. */
  function IndexOf(s: string, pat: string): Option<nat>
  {
    IndexOfFrom(s, pat, 0)
  }

  /**
   * `s.replace(pat, rep)` for a string `pat` and a `rep` without `$` patterns:
   * `s` itself when `pat` does not occur, otherwise `s` with its first
   * occurrence of `pat` exchanged for `rep`.
   */
  function ReplaceFirst(s: string, pat: string, rep: string): (r: string)
    ensures (forall j :: !OccursAt(s, pat, j)) ==> r == s
    ensures forall k: nat :: OccursAt(s, pat, k) && (forall j :: 0 <= j < k ==> !OccursAt(s, pat, j))
                        ==> r == s[..k] + rep + s[k + |pat|..]
  {
    match IndexOf(s, pat)
    case None => s
    case Some(k) => s[..k] + rep + s[k + |pat|..]
  }

  /** The API's origin: the length is kept, since both ports are five characters. */
  function ApiOrigin(origin: string): (r: string)
    ensures |r| == |origin|
  {
    ReplaceFirst(origin, DOCS_PORT, API_PORT)
  }

  /** The origin is left as it is exactly when it has no `:8008`. */
  lemma ApiOriginUnchanged(origin: string)
    ensures ApiOrigin(origin) == origin <==> forall j :: !OccursAt(origin, DOCS_PORT, j)
  {
    match IndexOf(origin, DOCS_PORT)
    case None =>
    case Some(k) =>
      var r := ApiOrigin(origin);
      assert r[k..k + 5] == API_PORT != DOCS_PORT == origin[k..k + 5];
  }

  /**
   * When `:8008` occurs, first at `k`, the result has the same length, holds
   * `:9000` at `k`, and agrees with the origin everywhere else: later
   * occurrences of `:8008` stay as they are.
   */
  lemma ApiOriginRewritesFirst(origin: string, k: nat)
    requires OccursAt(origin, DOCS_PORT, k)
    requires forall j :: 0 <= j < k ==> !OccursAt(origin, DOCS_PORT, j)
    ensures |ApiOrigin(origin)| == |origin|
    ensures OccursAt(ApiOrigin(origin), API_PORT, k)
    ensures forall j :: 0 <= j < |origin| && !(k <= j < k + 5) ==> ApiOrigin(origin)[j] == origin[j]
  {
    assert IndexOf(origin, DOCS_PORT) == Some(k);
  }

  /** Of two non-overlapping occurrences of `:8008`, the second survives. */
  lemma ApiOriginKeepsLater(origin: string, i: nat, j: nat)
    requires OccursAt(origin, DOCS_PORT, i) && OccursAt(origin, DOCS_PORT, j)
    requires i + 5 <= j
    ensures OccursAt(ApiOrigin(origin), DOCS_PORT, j)
  {
    var k := IndexOf(origin, DOCS_PORT).value;
    ApiOriginRewritesFirst(origin, k);
    var r := ApiOrigin(origin);
    assert forall m :: j <= m < j + 5 ==> r[m] == origin[m];
    assert r[j..j + 5] == origin[j..j + 5];
  }
}
