/** Building blocks shared by every controller of the store: optional values,
    the failure shapes the HTTP actions return, and the first-match lookup,
    filtering, removal and truncation that the ORM queries perform over the
    ordered tables. */
module Common {

  datatype Option<+T> = None | Some(value: T)

  /** Why a request was refused. Each controller action answers with one of
      these inside a `Failure`; the wording of the source's messages is not
      modelled, only which case applies. */
  datatype Reason =
    | CartTokenMissing | CartItemNotFound | CartNotFound | CartEmpty
    | UnknownVariant | CartVanished | PaymentFailed
    | InvalidCallback | OrderIdNotNumeric | OrderNotFound | InvalidJson | OrderIdMissing
    | AccountNotConfirmed | UserExists | MailFailed | InvalidCode | VerificationTokenMissing
    | NotSignedIn | InvalidToken | UserNotVerified | BadCredentials | PasswordUnreadable | TokenMissing
    | ProductNotFound | ProductHasNoVariants

  /** The HTTP status classes the controllers use for refusals (400, 404, 401, 500). */
  datatype Failure =
    | BadRequest(reason: Reason)
    | NotFound(reason: Reason)
    | Unauthorized(reason: Reason)
    | ServerError(reason: Reason)

  /** A 200 answer carrying a value, or a refusal. */
  datatype Result<+T> = Ok(value: T) | Fail(failure: Failure)

  /** Index of the first element satisfying `p`, as `FirstOrDefault(p)` finds it. */
  function FirstIndex<T>(s: seq<T>, p: T -> bool): (r: Option<nat>)
    ensures r.Some? ==> r.value < |s| && p(s[r.value])
    ensures r.Some? ==> forall j :: 0 <= j < r.value ==> !p(s[j])
    ensures r.None? <==> forall j :: 0 <= j < |s| ==> !p(s[j])
  {
    if |s| == 0 then None
    else if p(s[0]) then Some(0)
    else match FirstIndex(s[1..], p)
      case None => None
      case Some(k) => Some(k + 1)
  }

  /** Two sequences that agree on `p` everywhere have the same first match. */
  lemma FirstIndexAgrees<T, U>(s: seq<T>, p: T -> bool, t: seq<U>, q: U -> bool)
    requires |s| == |t|
    requires forall j :: 0 <= j < |s| ==> (p(s[j]) <==> q(t[j]))
    ensures FirstIndex(s, p) == FirstIndex(t, q)
  {
  }

  /** The elements of `s` satisfying `p`, in their original order (a `Where`). */
  function Filter<T>(s: seq<T>, p: T -> bool): (r: seq<T>)
    ensures |r| <= |s|
    ensures forall j :: 0 <= j < |r| ==> p(r[j])
    ensures multiset(r) <= multiset(s)
    ensures forall x :: x in r ==> x in s
    ensures forall x :: x in s && p(x) ==> x in r
  {
    if |s| == 0 then []
    else
      var rest := Filter(s[1..], p);
      assert s == [s[0]] + s[1..];
      if p(s[0]) then [s[0]] + rest else rest
  }

  /** A filter keeps every copy of each element satisfying `p` and no copy
      of any other. */
  lemma {:induction false} FilterCounts<T>(s: seq<T>, p: T -> bool, x: T)
    ensures multiset(Filter(s, p))[x] == if p(x) then multiset(s)[x] else 0
  {
    if |s| > 0 {
      FilterCounts(s[1..], p, x);
      assert s == [s[0]] + s[1..];
      assert multiset(s) == multiset{s[0]} + multiset(s[1..]);
      if p(s[0]) {
        assert multiset(Filter(s, p)) == multiset{s[0]} + multiset(Filter(s[1..], p));
      }
    }
  }

  /** Filtering distributes over concatenation: a filtered table keeps its order. */
  lemma {:induction false} FilterAppend<T>(a: seq<T>, b: seq<T>, p: T -> bool)
    ensures Filter(a + b, p) == Filter(a, p) + Filter(b, p)
  {
    if |a| == 0 {
      assert a + b == b;
    } else {
      assert (a + b)[1..] == a[1..] + b;
      FilterAppend(a[1..], b, p);
    }
  }

  /** When no element of `s` satisfies `p`, the filter is empty. */
  lemma {:induction false} FilterNone<T>(s: seq<T>, p: T -> bool)
    requires forall j :: 0 <= j < |s| ==> !p(s[j])
    ensures Filter(s, p) == []
  {
    if |s| > 0 {
      FilterNone(s[1..], p);
    }
  }

  /** When every element of `s` satisfies `p`, the filter keeps all of `s`. */
  lemma {:induction false} FilterAll<T>(s: seq<T>, p: T -> bool)
    requires forall j :: 0 <= j < |s| ==> p(s[j])
    ensures Filter(s, p) == s
  {
    if |s| > 0 {
      FilterAll(s[1..], p);
      assert s == [s[0]] + s[1..];
    }
  }

  /** `s` without its element at `k` (an ORM `Remove` of one row). */
  function RemoveAt<T>(s: seq<T>, k: nat): (r: seq<T>)
    requires k < |s|
    ensures |r| == |s| - 1
    ensures forall j :: 0 <= j < k ==> r[j] == s[j]
    ensures forall j :: k <= j < |r| ==> r[j] == s[j + 1]
  {
    s[..k] + s[k + 1..]
  }

  /** The first `n` elements of `s`, or all of them when there are fewer (a `Take(n)`). */
  function Take<T>(s: seq<T>, n: int): (r: seq<T>)
    ensures |r| == if n <= 0 then 0 else if n < |s| then n else |s|
    ensures r <= s
  {
    if n <= 0 then [] else if n < |s| then s[..n] else s
  }
}
