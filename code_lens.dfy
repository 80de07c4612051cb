/**
 * The code-lens message handler: records whether the client can refresh lenses, registers
 * for `textDocument/codeLens`, and answers requests by running the code-lens handlers.
 */
module CodeLenses {
  import opened Wrappers
  import opened Lsp
  import opened Discovery
  import Handlers

  /** The lenses carry discovered regex entries as command arguments. */
  type Lens = CodeLens<RegexEntry>

  /** A code-lens handler: what it does for a request on document `uri`. */
  datatype CodeLensHandler = CodeLensHandler(onCodeLens: Uri -> Handlers.Outcome<Lens>)

  /** A code-lens resolve handler; only its presence matters here. */
  datatype CodeLensResolveHandler = CodeLensResolveHandler

  datatype Registration = Registration(resolveProvider: bool, workDoneProgress: bool)

  datatype Subscription = CodeLensListener | CodeLensResolveListener | CodeLensRegistration(options: Registration)

  /** What each handler does with a request on `uri`, in handler order. */
  function Outcomes(hs: seq<CodeLensHandler>, uri: Uri): (os: seq<Handlers.Outcome<Lens>>)
    ensures |os| == |hs|
    ensures forall i :: 0 <= i < |hs| ==> os[i] == hs[i].onCodeLens(uri)
  {
    seq(|hs|, i requires 0 <= i < |hs| => hs[i].onCodeLens(uri))
  }

  class CodeLensMessageHandler {
    var supportsRefresh: bool
    var onCodeLensHandlers: seq<CodeLensHandler>
    var onCodeLensResolveHandlers: seq<CodeLensResolveHandler>
    var disposables: seq<Subscription>
    /** The `workspace/codeLens/refresh` requests sent so far. */
    var refreshRequests: nat

    constructor()
      ensures !supportsRefresh && onCodeLensHandlers == [] && onCodeLensResolveHandlers == []
      ensures disposables == [] && refreshRequests == 0
    {
      supportsRefresh := false;
      onCodeLensHandlers := [];
      onCodeLensResolveHandlers := [];
      disposables := [];
      refreshRequests := 0;
    }

    /**
     * `onInitialized`: the refresh support is recorded first; past the dynamic-registration
     * gate the handlers are stored, listeners added for the kinds present, and the
     * registration is sent even when there are no handlers.
     */
    method OnInitialized(caps: ClientCapabilities, provided: seq<CodeLensHandler>, providedResolvers: seq<CodeLensResolveHandler>)
      modifies this
      ensures supportsRefresh == caps.codeLensRefreshSupport
      ensures refreshRequests == old(refreshRequests)
      ensures !caps.codeLensDynamicRegistration ==>
        && onCodeLensHandlers == old(onCodeLensHandlers)
        && onCodeLensResolveHandlers == old(onCodeLensResolveHandlers)
        && disposables == old(disposables)
      ensures caps.codeLensDynamicRegistration ==>
        && onCodeLensHandlers == provided
        && onCodeLensResolveHandlers == providedResolvers
        && disposables == old(disposables)
          + (if |provided| > 0 then [CodeLensListener] else [])
          + (if |providedResolvers| > 0 then [CodeLensResolveListener] else [])
          + [CodeLensRegistration(Registration(|providedResolvers| > 0, caps.windowWorkDoneProgress))]
    {
      supportsRefresh := caps.codeLensRefreshSupport;
      if !caps.codeLensDynamicRegistration {
        return;
      }
      onCodeLensHandlers := provided;
      onCodeLensResolveHandlers := providedResolvers;
      var registration := Registration(|providedResolvers| > 0, caps.windowWorkDoneProgress);
      if |provided| > 0 {
        disposables := disposables + [CodeLensListener];
      }
      if |providedResolvers| > 0 {
        disposables := disposables + [CodeLensResolveListener];
      }
      disposables := disposables + [CodeLensRegistration(registration)];
    }

    /** `onCodeLens`: nothing without handlers, otherwise the `runHandlers` aggregation. */
    method OnCodeLens(uri: Uri, token: Handlers.Token) returns (lenses: seq<Lens>)
      ensures |onCodeLensHandlers| == 0 ==> lenses == []
      ensures lenses == Handlers.Aggregate(Outcomes(onCodeLensHandlers, uri), token)
    {
      if |onCodeLensHandlers| == 0 {
        return [];
      }
      lenses := Handlers.RunHandlers(Outcomes(onCodeLensHandlers, uri), token);
    }

    /** `onCodeLensResolve` returns the lens unchanged. */
    method OnCodeLensResolve(lens: Lens) returns (r: Lens)
      ensures r == lens
    {
      r := lens;
    }

    /** `refresh` sends a refresh request only when the client supports it. */
    method Refresh()
      modifies this
      ensures refreshRequests == old(refreshRequests) + (if supportsRefresh then 1 else 0)
      ensures supportsRefresh == old(supportsRefresh)
      ensures onCodeLensHandlers == old(onCodeLensHandlers) && onCodeLensResolveHandlers == old(onCodeLensResolveHandlers)
      ensures disposables == old(disposables)
    {
      if supportsRefresh {
        refreshRequests := refreshRequests + 1;
      }
    }
  }

  /**
   * The reveal lens handler, whose `onCodeLens` is `async`, run through the aggregation as the
   * only handler without a token: its fulfilled lenses come back unchanged, a rejection gives none.
   */
  lemma SingleAsyncHandler(lenses: seq<Lens>)
    ensures Handlers.Aggregate([Handlers.Async(Handlers.Fulfilled(lenses))], Handlers.NoToken) == lenses
    ensures Handlers.Aggregate<Lens>([Handlers.Async(Handlers.Rejected)], Handlers.NoToken) == []
  {
    var none: seq<Handlers.Outcome<Lens>> := [];
    var noneSettled: seq<Handlers.Settled<Lens>> := [];
    assert Handlers.InvokedCount(1, Handlers.NoToken) == 1;
    var fulfilled := [Handlers.Async(Handlers.Fulfilled(lenses))];
    assert fulfilled[..1] == fulfilled && fulfilled[..0] == none;
    assert Handlers.SyncItems(fulfilled) == Handlers.SyncItems(none);
    assert Handlers.PendingOf(fulfilled) == Handlers.PendingOf(none) + [Handlers.Fulfilled(lenses)];
    var ps := [Handlers.Fulfilled(lenses)];
    assert ps[..0] == noneSettled;
    assert Handlers.FulfilledItems(ps) == Handlers.FulfilledItems(noneSettled) + lenses;
    var rejected: seq<Handlers.Outcome<Lens>> := [Handlers.Async(Handlers.Rejected)];
    assert rejected[..1] == rejected && rejected[..0] == none;
    assert Handlers.SyncItems(rejected) == Handlers.SyncItems(none);
    var qs: seq<Handlers.Settled<Lens>> := [Handlers.Rejected];
    assert Handlers.PendingOf(rejected) == Handlers.PendingOf(none) + qs;
    assert qs[..0] == noneSettled;
    assert Handlers.FulfilledItems(qs) == Handlers.FulfilledItems(noneSettled);
  }
}
