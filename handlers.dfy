/**
 * `runHandlers`: invokes each handler in turn, collects synchronous results at once,
 * keeps asynchronous ones pending and appends their fulfilled values after all have
 * settled. A handler that throws is skipped; cancellation stops the loop and discards
 * what is still pending. The code-action and code-lens request handlers run the same loop.
 */
module Handlers {
  import opened Wrappers

  /** How a returned promise settles. */
  datatype Settled<T> = Fulfilled(value: seq<T>) | Rejected

  /** What invoking one handler does: returns a list, returns a promise, or throws. */
  datatype Outcome<T> = Sync(items: seq<T>) | Async(settled: Settled<T>) | Throws

  /**
   * A cancellation token, as the loop observes it. The checks are numbered: check `k`
   * (k < number of handlers) is the one before invoking handler `k`, and the check
   * after the loop is numbered by the handlers invoked. `cancelledFrom` is the first
   * check that sees the cancellation (`None` for no token, or one never cancelled);
   * `cancelledWhileWaiting` says that cancellation wins the race against the pending
   * promises.
   */
  datatype Token = Token(cancelledFrom: Option<nat>, cancelledWhileWaiting: bool)

  /** No token at all: no check ever sees a cancellation. */
  const NoToken: Token := Token(None, false)

  predicate CancelledAt(t: Token, k: nat)
  {
    t.cancelledFrom.Some? && k >= t.cancelledFrom.value
  }

  /** How many handlers the loop invokes before it finishes or sees the cancellation. */
  function InvokedCount(n: nat, t: Token): (k: nat)
    ensures k <= n
    ensures forall j :: 0 <= j < k ==> !CancelledAt(t, j)
    ensures k < n ==> CancelledAt(t, k)
  {
    if t.cancelledFrom.Some? && t.cancelledFrom.value < n then t.cancelledFrom.value else n
  }

  /** The synchronous results of `hs`, concatenated in handler order. */
  function SyncItems<T>(hs: seq<Outcome<T>>): seq<T>
  {
    if hs == [] then []
    else SyncItems(hs[..|hs| - 1]) + (if hs[|hs| - 1].Sync? then hs[|hs| - 1].items else [])
  }

  /** The promises `hs` returned, in handler order. */
  function PendingOf<T>(hs: seq<Outcome<T>>): seq<Settled<T>>
  {
    if hs == [] then []
    else PendingOf(hs[..|hs| - 1]) + (if hs[|hs| - 1].Async? then [hs[|hs| - 1].settled] else [])
  }

  /** The values of the fulfilled promises, concatenated in order; rejected ones add nothing. */
  function FulfilledItems<T>(ps: seq<Settled<T>>): seq<T>
  {
    if ps == [] then []
    else FulfilledItems(ps[..|ps| - 1]) + (if ps[|ps| - 1].Fulfilled? then ps[|ps| - 1].value else [])
  }

  /**
   * The aggregated result: the synchronous results of the invoked handlers, followed by
   * the fulfilled asynchronous ones unless cancellation was seen after the loop or
   * during the wait.
   */
  function Aggregate<T>(hs: seq<Outcome<T>>, t: Token): seq<T>
  {
    var k := InvokedCount(|hs|, t);
    var pending := PendingOf(hs[..k]);
    SyncItems(hs[..k])
      + (if |pending| > 0 && !CancelledAt(t, k) && !t.cancelledWhileWaiting then FulfilledItems(pending) else [])
  }

  method RunHandlers<T>(hs: seq<Outcome<T>>, t: Token) returns (results: seq<T>)
    ensures results == Aggregate(hs, t)
  {
    results := [];
    var pending: seq<Settled<T>> := [];
    var i := 0;
    while i < |hs|
      invariant 0 <= i <= InvokedCount(|hs|, t)
      invariant results == SyncItems(hs[..i])
      invariant pending == PendingOf(hs[..i])
    {
      if CancelledAt(t, i) {
        break;
      }
      assert hs[..i + 1][..i] == hs[..i];
      match hs[i] {
        case Sync(items) => results := results + items;
        case Async(p) => pending := pending + [p];
        case Throws =>
      }
      i := i + 1;
    }
    assert i == InvokedCount(|hs|, t);
    if |pending| > 0 && !CancelledAt(t, i) && !t.cancelledWhileWaiting {
      ghost var synced := results;
      var j := 0;
      while j < |pending|
        invariant 0 <= j <= |pending|
        invariant results == synced + FulfilledItems(pending[..j])
      {
        assert pending[..j + 1][..j] == pending[..j];
        if pending[j].Fulfilled? {
          results := results + pending[j].value;
        }
        j := j + 1;
      }
      assert pending[..j] == pending;
    }
  }

  // ---------------------------------------------------------------------------
  // Properties of the aggregation

  lemma {:induction false} SyncItemsAppend<T>(a: seq<Outcome<T>>, b: seq<Outcome<T>>)
    ensures SyncItems(a + b) == SyncItems(a) + SyncItems(b)
    decreases |b|
  {
    if b != [] {
      var b' := b[..|b| - 1];
      assert (a + b)[..|a + b| - 1] == a + b';
      SyncItemsAppend(a, b');
    } else {
      assert a + b == a;
    }
  }

  lemma {:induction false} PendingOfAppend<T>(a: seq<Outcome<T>>, b: seq<Outcome<T>>)
    ensures PendingOf(a + b) == PendingOf(a) + PendingOf(b)
    decreases |b|
  {
    if b != [] {
      var b' := b[..|b| - 1];
      assert (a + b)[..|a + b| - 1] == a + b';
      PendingOfAppend(a, b');
    } else {
      assert a + b == a;
    }
  }

  /** With no handlers the result is empty, whatever the token. */
  lemma NoHandlersNoResults<T>(hs: seq<Outcome<T>>, t: Token)
    requires hs == []
    ensures Aggregate(hs, t) == []
  {
  }

  /** Without cancellation: every synchronous result in handler order, then every fulfilled asynchronous one. */
  lemma UncancelledAggregate<T>(hs: seq<Outcome<T>>)
    ensures Aggregate(hs, NoToken) == SyncItems(hs) + FulfilledItems(PendingOf(hs))
  {
    assert hs[..|hs|] == hs;
  }

  /** The synchronous results of the invoked handlers always come first, in handler order. */
  lemma SyncResultsComeFirst<T>(hs: seq<Outcome<T>>, t: Token)
    ensures var k := InvokedCount(|hs|, t);
      SyncItems(hs[..k]) <= Aggregate(hs, t)
  {
  }

  /** A handler that throws contributes nothing and does not stop the handlers after it. */
  lemma ThrowingHandlerIsSkipped<T>(before: seq<Outcome<T>>, after: seq<Outcome<T>>)
    ensures Aggregate(before + [Throws] + after, NoToken) == Aggregate(before + after, NoToken)
  {
    UncancelledAggregate(before + [Throws] + after);
    UncancelledAggregate(before + after);
    SyncItemsAppend(before + [Throws], after);
    SyncItemsAppend(before, [Throws]);
    SyncItemsAppend(before, after);
    PendingOfAppend(before + [Throws], after);
    PendingOfAppend(before, [Throws]);
    PendingOfAppend(before, after);
    var none: seq<Outcome<T>> := [];
    assert [Throws][..0] == none;
    var th: seq<Outcome<T>> := [Throws];
    assert SyncItems(th) == [];
    assert PendingOf(th) == [];
    assert SyncItems(before + [Throws] + after) == SyncItems(before + after);
    assert PendingOf(before + [Throws] + after) == PendingOf(before + after);
  }

  /**
   * Once a check sees the cancellation, the handlers from that point on are never invoked
   * and every pending promise is discarded: only the earlier synchronous results remain.
   */
  lemma CancellationStopsInvocation<T>(hs: seq<Outcome<T>>, c: nat)
    requires c <= |hs|
    ensures forall w :: Aggregate(hs, Token(Some(c), w)) == SyncItems(hs[..c])
  {
  }

  /** Cancellation that wins the race against the pending promises leaves only the synchronous results. */
  lemma CancelledWhileWaiting<T>(hs: seq<Outcome<T>>)
    ensures Aggregate(hs, Token(None, true)) == SyncItems(hs)
  {
    assert hs[..|hs|] == hs;
  }

  /** Rejected promises contribute nothing; fulfilled ones contribute their values in order. */
  lemma {:induction false} RejectedContributeNothing<T>(ps: seq<Settled<T>>, qs: seq<Settled<T>>)
    ensures FulfilledItems(ps + [Rejected] + qs) == FulfilledItems(ps + qs)
    decreases |qs|
  {
    if qs == [] {
      assert (ps + [Rejected] + qs)[..|ps + [Rejected] + qs| - 1] == ps;
      assert ps + qs == ps;
    } else {
      var q' := qs[..|qs| - 1];
      assert (ps + [Rejected] + qs)[..|ps + [Rejected] + qs| - 1] == ps + [Rejected] + q';
      assert (ps + qs)[..|ps + qs| - 1] == ps + q';
      RejectedContributeNothing(ps, q');
    }
  }
}
