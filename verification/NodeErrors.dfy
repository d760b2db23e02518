/** Walking the causes of an error (packages/dubbo-node/src/node-error.ts, unwrapNodeErrorChain). Error
    objects are addressed by number; the graph of causes may have cycles. */
module NodeErrors {
  import opened Common

  type ErrorId = nat

  /** A thrown value: an `Error` object or something else. */
  datatype Value = NotAnError | ErrorObject(id: ErrorId)

  /** For every error object, its `cause` property if it has one. */
  type Causes = map<ErrorId, Option<Value>>

  /** All causes that are errors are in the graph. */
  predicate Closed(causes: Causes) {
    forall e | e in causes && causes[e].Some? && causes[e].value.ErrorObject? :: causes[e].value.id in causes
  }

  predicate Known(reason: Value, causes: Causes) {
    reason.ErrorObject? ==> reason.id in causes
  }

  /** The chain follows cause links from `reason`. */
  predicate Follows(chain: seq<ErrorId>, reason: Value, causes: Causes) {
    && (chain != [] ==> reason == ErrorObject(chain[0]))
    && (forall i | 0 <= i < |chain| :: chain[i] in causes)
    && (forall i | 0 <= i < |chain| - 1 :: causes[chain[i]] == Some(ErrorObject(chain[i + 1])))
  }

  predicate NoDuplicates(chain: seq<ErrorId>) {
    forall i, j | 0 <= i < j < |chain| :: chain[i] != chain[j]
  }

  /** What comes after the chain: `reason` itself for the empty chain, the last element's cause otherwise. */
  function After(chain: seq<ErrorId>, reason: Value, causes: Causes): Option<Value>
    requires Follows(chain, reason, causes)
  {
    if chain == [] then Some(reason) else causes[chain[|chain| - 1]]
  }

  /** The chain stops where it must: no cause, a cause that is not an error, or an error already in it. */
  predicate Stops(chain: seq<ErrorId>, reason: Value, causes: Causes)
    requires Follows(chain, reason, causes)
  {
    var next := After(chain, reason, causes);
    next.None? || next.value.NotAnError? || next.value.id in chain
  }

  predicate IsChain(chain: seq<ErrorId>, reason: Value, causes: Causes) {
    Follows(chain, reason, causes) && NoDuplicates(chain) && Stops(chain, reason, causes)
  }

  /** Two chains agree as long as both go on. */
  lemma {:induction false} SamePrefix(a: seq<ErrorId>, b: seq<ErrorId>, n: nat, reason: Value, causes: Causes)
    requires Follows(a, reason, causes) && Follows(b, reason, causes)
    requires n <= |a| && n <= |b|
    ensures a[..n] == b[..n]
  {
    if n > 0 {
      SamePrefix(a, b, n - 1, reason, causes);
      assert a[..n] == a[..n - 1] + [a[n - 1]] && b[..n] == b[..n - 1] + [b[n - 1]];
      if n > 1 {
        assert causes[a[n - 2]] == Some(ErrorObject(a[n - 2 + 1]))
          && causes[b[n - 2]] == Some(ErrorObject(b[n - 2 + 1]));
        assert a[n - 2] == a[..n - 1][n - 2] == b[..n - 1][n - 2] == b[n - 2];
      }
    }
  }

  /** A shorter walk has not reached a stop yet. */
  lemma ProperPrefixGoesOn(a: seq<ErrorId>, b: seq<ErrorId>, reason: Value, causes: Causes)
    requires Follows(a, reason, causes) && Follows(b, reason, causes) && NoDuplicates(b) && |a| < |b|
    ensures !Stops(a, reason, causes)
  {
    var n := |a|;
    SamePrefix(a, b, n, reason, causes);
    assert a == a[..n] == b[..n];
    if n > 0 {
      assert causes[b[n - 1]] == Some(ErrorObject(b[n - 1 + 1]));
      assert a[n - 1] == b[n - 1];
    }
    assert After(a, reason, causes) == Some(ErrorObject(b[n]));
  }

  /** The chain is determined by its specification. */
  lemma ChainIsUnique(a: seq<ErrorId>, b: seq<ErrorId>, reason: Value, causes: Causes)
    requires IsChain(a, reason, causes) && IsChain(b, reason, causes)
    ensures a == b
  {
    if |a| < |b| {
      ProperPrefixGoesOn(a, b, reason, causes);
    } else if |b| < |a| {
      ProperPrefixGoesOn(b, a, reason, causes);
    } else {
      SamePrefix(a, b, |a|, reason, causes);
      assert a == a[..|a|] && b == b[..|b|];
    }
  }

  /** The loop terminates on every finite graph, cycles included: each round adds an error not yet in the
      chain. */
  method UnwrapNodeErrorChain(start: Value, causes: Causes) returns (chain: seq<ErrorId>)
    requires Closed(causes) && Known(start, causes)
    ensures IsChain(chain, start, causes)
  {
    chain := [];
    var reason := start;
    ghost var left := causes.Keys;
    while true
      invariant left == causes.Keys - (set e | e in chain)
      invariant Follows(chain, start, causes) && NoDuplicates(chain)
      invariant After(chain, start, causes) == Some(reason) && Known(reason, causes)
      decreases left
    {
      if !reason.ErrorObject? {
        break;
      }
      if reason.id in chain {
        break;
      }
      assert reason.id in left;
      chain := chain + [reason.id];
      left := left - {reason.id};
      if causes[reason.id].None? {
        break;
      }
      reason := causes[reason.id].value;
    }
  }
}
