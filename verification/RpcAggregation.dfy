/** Questions asked of every configured RPC node, answered only when it is safe to. */
module RpcAggregation {
  import opened Prelude

  datatype RpcError = NoProviders | Transport(code: nat)

  type NonceAnswer = Result<nat, RpcError>

  /** Some(hash is known) or None when the node has never heard of it. */
  type LookupAnswer = Result<Option<nat>, RpcError>

  /** Client i failed with this error and every client before it answered. */
  ghost predicate FirstError<T>(answers: seq<Result<T, RpcError>>, i: nat, error: RpcError) {
    && i < |answers| && answers[i] == Err(error)
    && forall j :: 0 <= j < i ==> answers[j].Ok?
  }

  /** The answer that counts: every client answered, and this is the largest answer. */
  ghost predicate IsPendingNonce(answers: seq<NonceAnswer>, n: nat) {
    && answers != []
    && (forall i :: 0 <= i < |answers| ==> answers[i].Ok?)
    && (exists i :: 0 <= i < |answers| && answers[i] == Ok(n))
    && (forall i :: 0 <= i < |answers| ==> answers[i].value <= n)
  }

  ghost predicate Known(answers: seq<LookupAnswer>) {
    exists i :: 0 <= i < |answers| && answers[i].Ok? && answers[i].value.Some?
  }

  ghost predicate AllMiss(answers: seq<LookupAnswer>) {
    answers != [] && forall i :: 0 <= i < |answers| ==> answers[i] == Ok(None)
  }

  method PendingNonceAcrossClients(answers: seq<NonceAnswer>) returns (r: Result<nat, RpcError>)
    ensures r.Ok? <==> answers != [] && forall i :: 0 <= i < |answers| ==> answers[i].Ok?
    ensures r.Ok? ==> IsPendingNonce(answers, r.value)
    ensures r.Err? && answers == [] ==> r.error == NoProviders
    ensures r.Err? && answers != [] ==> exists i: nat :: FirstError(answers, i, r.error)
  {
    if answers == [] {
      return Err(NoProviders);
    }
    var maxNonce: Option<nat> := None;
    var firstError: Option<RpcError> := None;
    ghost var errorAt: nat := 0;
    for k := 0 to |answers|
      invariant firstError.None? ==> forall i :: 0 <= i < k ==> answers[i].Ok?
      invariant firstError.Some? ==> errorAt < k && FirstError(answers, errorAt, firstError.value)
      invariant maxNonce.None? ==> forall i :: 0 <= i < k ==> answers[i].Err?
      invariant maxNonce.Some? ==> exists i :: 0 <= i < k && answers[i] == Ok(maxNonce.value)
      invariant maxNonce.Some? ==> forall i :: 0 <= i < k && answers[i].Ok? ==> answers[i].value <= maxNonce.value
    {
      match answers[k]
      case Ok(nonce) =>
        maxNonce := Some(if maxNonce.Some? then Max(maxNonce.value, nonce) else nonce);
      case Err(error) =>
        if firstError.None? {
          firstError := Some(error);
          errorAt := k;
        }
    }
    if firstError.Some? {
      return Err(firstError.value);
    }
    assert answers[0].Ok?;
    return if maxNonce.Some? then Ok(maxNonce.value) else Err(NoProviders);
  }

  method TransactionExistsAcrossClients(answers: seq<LookupAnswer>) returns (r: Result<bool, RpcError>)
    ensures r == Ok(true) <==> Known(answers)
    ensures r == Ok(false) <==> AllMiss(answers)
    ensures r.Err? && answers == [] ==> r.error == NoProviders
    ensures r.Err? && answers != [] ==> exists i: nat :: FirstError(answers, i, r.error)
  {
    if answers == [] {
      return Err(NoProviders);
    }
    var firstError: Option<RpcError> := None;
    ghost var errorAt: nat := 0;
    for k := 0 to |answers|
      invariant forall i :: 0 <= i < k && answers[i].Ok? ==> answers[i].value.None?
      invariant firstError.None? ==> forall i :: 0 <= i < k ==> answers[i] == Ok(None)
      invariant firstError.Some? ==> errorAt < k && FirstError(answers, errorAt, firstError.value)
    {
      match answers[k]
      case Ok(Some(_)) => return Ok(true);
      case Ok(None) =>
      case Err(error) =>
        if firstError.None? {
          firstError := Some(error);
          errorAt := k;
        }
    }
    return if firstError.Some? then Err(firstError.value) else Ok(false);
  }

  lemma SameMultisetSameMembers<T>(a: seq<T>, b: seq<T>, i: nat) returns (j: nat)
    requires multiset(a) == multiset(b) && i < |a|
    ensures j < |b| && b[j] == a[i]
  {
    assert a[i] in multiset(a);
    assert a[i] in multiset(b);
    assert a[i] in b;
    j :| 0 <= j < |b| && b[j] == a[i];
  }

  /** A successful nonce does not depend on the order of the clients. */
  lemma NonceIgnoresOrder(a: seq<NonceAnswer>, b: seq<NonceAnswer>, n: nat)
    requires multiset(a) == multiset(b) && IsPendingNonce(a, n)
    ensures IsPendingNonce(b, n) && forall m :: IsPendingNonce(b, m) ==> m == n
  {
    forall i | 0 <= i < |b|
      ensures b[i].Ok? && b[i].value <= n
    {
      var j := SameMultisetSameMembers(b, a, i);
    }
    var i :| 0 <= i < |a| && a[i] == Ok(n);
    var j := SameMultisetSameMembers(a, b, i);
  }

  /** Neither does a successful existence answer. */
  lemma ExistenceIgnoresOrder(a: seq<LookupAnswer>, b: seq<LookupAnswer>)
    requires multiset(a) == multiset(b)
    ensures Known(a) ==> Known(b)
    ensures AllMiss(a) ==> AllMiss(b)
  {
    if Known(a) {
      var i :| 0 <= i < |a| && a[i].Ok? && a[i].value.Some?;
      var j := SameMultisetSameMembers(a, b, i);
    }
    if AllMiss(a) {
      assert a[0] in multiset(a) && a[0] in multiset(b);
      forall i | 0 <= i < |b|
        ensures b[i] == Ok(None)
      {
        var j := SameMultisetSameMembers(b, a, i);
      }
    }
  }
}
