/**
 * The code-action message handler: chooses the code-action handlers the client can use,
 * registers for `textDocument/codeAction`, and answers requests by running the chosen
 * handlers over the request's diagnostics.
 */
module CodeActions {
  import opened Wrappers
  import opened Lsp
  import RangeUtil
  import Handlers

  /** Some kind in `b` is a prefix of the kind `kind`. */
  predicate RequestedBy(kind: string, b: seq<string>)
  {
    exists j :: 0 <= j < |b| && b[j] <= kind
  }

  /** `kindIntersects`: some kind in `a` starts with some kind in `b`. */
  function KindIntersects(a: seq<string>, b: seq<string>): (r: bool)
    ensures r <==> exists i :: 0 <= i < |a| && RequestedBy(a[i], b)
    ensures a == [] || b == [] ==> !r
  {
    if a == [] then false
    else StartsWithAny(a[0], b) || KindIntersects(a[1..], b)
  }

  /** The inner `b.some(requested => kind.startsWith(requested))`. */
  function StartsWithAny(kind: string, b: seq<string>): (r: bool)
    ensures r <==> RequestedBy(kind, b)
  {
    if b == [] then false
    else b[0] <= kind || StartsWithAny(kind, b[1..])
  }

  /** The kinds without repetitions, each kept at its first occurrence. */
  function Unique(xs: seq<string>): (r: seq<string>)
    ensures forall x :: x in r <==> x in xs
    ensures forall i, j :: 0 <= i < j < |r| ==> r[i] != r[j]
    ensures |r| <= |xs|
  {
    if xs == [] then []
    else
      var u := Unique(xs[..|xs| - 1]);
      assert xs == xs[..|xs| - 1] + [xs[|xs| - 1]];
      if xs[|xs| - 1] in u then u else u + [xs[|xs| - 1]]
  }

  /** A code-action handler: its kinds, whether it needs resolve support, and what it does per request. */
  datatype CodeActionHandler = CodeActionHandler(
    kinds: seq<string>,
    requiresResolveSupport: bool,
    onCodeAction: CodeActionParams -> Handlers.Outcome<CodeAction>)

  /** A code-action resolve handler, with its kinds. */
  datatype ResolveHandler = ResolveHandler(kinds: seq<string>)

  /** The registration options sent with `client/registerCapability`. */
  datatype Registration = Registration(codeActionKinds: seq<string>, resolveProvider: Option<bool>, workDoneProgress: bool)

  /** What `disposables` collects: the request listeners and the client registration. */
  datatype Subscription = CodeActionListener | CodeActionResolveListener | CodeActionRegistration(options: Registration)

  /** The registration filter: the handler's kinds meet the client's and resolve is no obstacle. */
  predicate Accepts(h: CodeActionHandler, resolveSupport: bool, valueSet: seq<string>)
  {
    (resolveSupport || !h.requiresResolveSupport) && KindIntersects(h.kinds, valueSet)
  }

  function FilterAccepted(hs: seq<CodeActionHandler>, resolveSupport: bool, valueSet: seq<string>): (r: seq<CodeActionHandler>)
    ensures |r| <= |hs|
    ensures forall h :: h in r <==> h in hs && Accepts(h, resolveSupport, valueSet)
  {
    if hs == [] then []
    else (if Accepts(hs[0], resolveSupport, valueSet) then [hs[0]] else []) + FilterAccepted(hs[1..], resolveSupport, valueSet)
  }

  /** The request filter by `context.only`. */
  function FilterByKinds(hs: seq<CodeActionHandler>, only: seq<string>): (r: seq<CodeActionHandler>)
    ensures |r| <= |hs|
    ensures forall h :: h in r <==> h in hs && KindIntersects(h.kinds, only)
  {
    if hs == [] then []
    else (if KindIntersects(hs[0].kinds, only) then [hs[0]] else []) + FilterByKinds(hs[1..], only)
  }

  /** All the kinds of the handlers, in handler order (`flatMap`). */
  function AllKinds(hs: seq<CodeActionHandler>): (ks: seq<string>)
    ensures forall k :: k in ks <==> exists h :: h in hs && k in h.kinds
  {
    if hs == [] then []
    else
      assert forall h :: h in hs ==> h == hs[0] || h in hs[1..];
      hs[0].kinds + AllKinds(hs[1..])
  }

  /** The registration options for the kept handlers. */
  function RegistrationFor(caps: ClientCapabilities, kept: seq<CodeActionHandler>, resolvers: seq<ResolveHandler>): (reg: Registration)
    ensures forall k :: k in reg.codeActionKinds <==> exists h :: h in kept && k in h.kinds
    ensures forall i, j :: 0 <= i < j < |reg.codeActionKinds| ==> reg.codeActionKinds[i] != reg.codeActionKinds[j]
    ensures reg.resolveProvider.Some? <==> caps.codeActionResolveSupport
    ensures reg.resolveProvider.Some? ==> (reg.resolveProvider.value <==> |resolvers| > 0)
    ensures reg.workDoneProgress == caps.windowWorkDoneProgress
  {
    Registration(
      Unique(AllKinds(kept)),
      if caps.codeActionResolveSupport then Some(|resolvers| > 0) else None,
      caps.windowWorkDoneProgress)
  }

  /**
   * `ensureDiagnostics`: the supplied diagnostics when there are any, otherwise the items
   * of a full diagnostic report that lie in the requested range.
   */
  function EnsureDiagnostics(supplied: seq<Diagnostic>, report: DiagnosticReport, range: Range): (ds: seq<Diagnostic>)
    ensures |supplied| > 0 ==> ds == supplied
    ensures |supplied| == 0 ==>
      forall d :: d in ds <==> report.Full? && d in report.items && RangeUtil.IsInRange(d.range, range)
    ensures |supplied| == 0 && report.Unchanged? ==> ds == []
  {
    if |supplied| > 0 then supplied
    else match report
      case Full(items) => InRange(items, range)
      case Unchanged => []
  }

  function InRange(items: seq<Diagnostic>, range: Range): (ds: seq<Diagnostic>)
    ensures |ds| <= |items|
    ensures forall d :: d in ds <==> d in items && RangeUtil.IsInRange(d.range, range)
  {
    if items == [] then []
    else (if RangeUtil.IsInRange(items[0].range, range) then [items[0]] else []) + InRange(items[1..], range)
  }

  /** The handlers a request runs: all of them, or those matching `context.only` when it is given. */
  function Selected(hs: seq<CodeActionHandler>, only: Option<seq<string>>): (r: seq<CodeActionHandler>)
    ensures only.None? ==> r == hs
    ensures only.Some? ==> forall h :: h in r <==> h in hs && KindIntersects(h.kinds, only.value)
  {
    match only
    case None => hs
    case Some(kinds) => FilterByKinds(hs, kinds)
  }

  /** What each handler does with the request, in handler order. */
  function Outcomes(hs: seq<CodeActionHandler>, p: CodeActionParams): (os: seq<Handlers.Outcome<CodeAction>>)
    ensures |os| == |hs|
    ensures forall i :: 0 <= i < |hs| ==> os[i] == hs[i].onCodeAction(p)
  {
    seq(|hs|, i requires 0 <= i < |hs| => hs[i].onCodeAction(p))
  }

  /** The request as the handlers see it, its context diagnostics replaced by `ensureDiagnostics`. */
  function WithDiagnostics(p: CodeActionParams, report: DiagnosticReport): (q: CodeActionParams)
    ensures q.uri == p.uri && q.range == p.range && q.context.only == p.context.only
    ensures q.context.diagnostics == EnsureDiagnostics(p.context.diagnostics, report, p.range)
  {
    p.(context := p.context.(diagnostics := EnsureDiagnostics(p.context.diagnostics, report, p.range)))
  }

  /** The response to a request: nothing without selected handlers, else the aggregation of their outcomes. */
  function Response(hs: seq<CodeActionHandler>, p: CodeActionParams, report: DiagnosticReport, token: Handlers.Token): seq<CodeAction>
  {
    var selected := Selected(hs, p.context.only);
    if |selected| == 0 then []
    else Handlers.Aggregate(Outcomes(selected, WithDiagnostics(p, report)), token)
  }

  class CodeActionMessageHandler {
    var onCodeActionHandlers: seq<CodeActionHandler>
    var onCodeActionResolveHandlers: seq<ResolveHandler>
    var disposables: seq<Subscription>

    constructor()
      ensures onCodeActionHandlers == [] && onCodeActionResolveHandlers == [] && disposables == []
    {
      onCodeActionHandlers := [];
      onCodeActionResolveHandlers := [];
      disposables := [];
    }

    /**
     * `onInitialized`, given the client capabilities and the handlers the service provider
     * holds: keep the usable handlers, listen for the requests they serve and register.
     */
    method OnInitialized(caps: ClientCapabilities, provided: seq<CodeActionHandler>, providedResolvers: seq<ResolveHandler>)
      modifies this
      ensures !caps.codeActionDynamicRegistration || caps.codeActionLiteralKinds.None? ==>
        && onCodeActionHandlers == old(onCodeActionHandlers)
        && onCodeActionResolveHandlers == old(onCodeActionResolveHandlers)
        && disposables == old(disposables)
      ensures caps.codeActionDynamicRegistration && caps.codeActionLiteralKinds.Some? ==>
        var kept := FilterAccepted(provided, caps.codeActionResolveSupport, caps.codeActionLiteralKinds.value);
        var resolvers := if caps.codeActionResolveSupport then providedResolvers else [];
        && onCodeActionHandlers == kept
        && onCodeActionResolveHandlers == resolvers
        && disposables == old(disposables)
          + (if |kept| > 0 then [CodeActionListener] else [])
          + (if |resolvers| > 0 then [CodeActionResolveListener] else [])
          + (if |kept| > 0 || |resolvers| > 0 then [CodeActionRegistration(RegistrationFor(caps, kept, resolvers))] else [])
    {
      if !caps.codeActionDynamicRegistration {
        return;
      }
      if caps.codeActionLiteralKinds.None? {
        return;
      }
      var kept := FilterAccepted(provided, caps.codeActionResolveSupport, caps.codeActionLiteralKinds.value);
      var resolvers := if caps.codeActionResolveSupport then providedResolvers else [];
      onCodeActionHandlers := kept;
      onCodeActionResolveHandlers := resolvers;
      disposables := disposables
        + (if |kept| > 0 then [CodeActionListener] else [])
        + (if |resolvers| > 0 then [CodeActionResolveListener] else [])
        + (if |kept| > 0 || |resolvers| > 0 then [CodeActionRegistration(RegistrationFor(caps, kept, resolvers))] else []);
    }

    /**
     * `onCodeAction`. The diagnostics report is what the diagnostics service answers when
     * the request carries no diagnostics; the token is as in `Handlers`.
     */
    method OnCodeAction(p: CodeActionParams, report: DiagnosticReport, token: Handlers.Token) returns (actions: seq<CodeAction>)
      ensures actions == Response(onCodeActionHandlers, p, report, token)
    {
      var handlers := Selected(onCodeActionHandlers, p.context.only);
      if |handlers| == 0 {
        return [];
      }
      var q := WithDiagnostics(p, report);
      actions := Handlers.RunHandlers(Outcomes(handlers, q), token);
    }

    /** `onCodeActionResolve` returns the action unchanged. */
    method OnCodeActionResolve(a: CodeAction) returns (r: CodeAction)
      ensures r == a
    {
      r := a;
    }
  }

  /** With `context.only` naming no kind at all, a request gets no actions. */
  lemma EmptyOnlyYieldsNothing(hs: seq<CodeActionHandler>, p: CodeActionParams, report: DiagnosticReport, token: Handlers.Token)
    requires p.context.only == Some([])
    ensures Response(hs, p, report, token) == []
  {
  }

  /** A handler that is kept serves at least one kind the client asked for. */
  lemma KeptHandlersServeRequestedKinds(provided: seq<CodeActionHandler>, resolveSupport: bool, valueSet: seq<string>, h: CodeActionHandler)
    requires h in FilterAccepted(provided, resolveSupport, valueSet)
    ensures exists i, j :: 0 <= i < |h.kinds| && 0 <= j < |valueSet| && valueSet[j] <= h.kinds[i]
  {
    assert KindIntersects(h.kinds, valueSet);
    var i :| 0 <= i < |h.kinds| && RequestedBy(h.kinds[i], valueSet);
  }

  /** Without resolve support no handler that requires it is kept. */
  lemma ResolveRequiringHandlersDropped(provided: seq<CodeActionHandler>, valueSet: seq<string>)
    ensures forall h :: h in FilterAccepted(provided, false, valueSet) ==> !h.requiresResolveSupport
  {
  }

  /** Kinds match by prefix: a handler kind `refactor.extract` serves a request for `refactor`, not the reverse. */
  lemma KindIntersectsIsByPrefix()
    ensures KindIntersects(["quickfix"], ["quickfix"])
    ensures KindIntersects(["refactor.extract"], ["refactor"])
    ensures !KindIntersects(["refactor"], ["refactor.extract"])
  {
    assert StartsWithAny("quickfix", ["quickfix"]);
    assert "refactor" <= "refactor.extract";
    assert StartsWithAny("refactor.extract", ["refactor"]);
    assert !("refactor.extract" <= "refactor");
  }

  /** When the request carries diagnostics, the diagnostics report is not consulted. */
  lemma SuppliedDiagnosticsWin(supplied: seq<Diagnostic>, r1: DiagnosticReport, r2: DiagnosticReport, range: Range)
    requires |supplied| > 0
    ensures EnsureDiagnostics(supplied, r1, range) == EnsureDiagnostics(supplied, r2, range)
  {
  }

  /** The range filter keeps the report's order: filtering a concatenation concatenates the results. */
  lemma {:induction false} InRangeAppend(a: seq<Diagnostic>, b: seq<Diagnostic>, range: Range)
    ensures InRange(a + b, range) == InRange(a, range) + InRange(b, range)
  {
    if a == [] {
      assert a + b == b;
    } else {
      var head := if RangeUtil.IsInRange(a[0].range, range) then [a[0]] else [];
      assert (a + b)[0] == a[0];
      assert (a + b)[1..] == a[1..] + b;
      calc {
        InRange(a + b, range);
        head + InRange(a[1..] + b, range);
        { InRangeAppend(a[1..], b, range); }
        head + (InRange(a[1..], range) + InRange(b, range));
        (head + InRange(a[1..], range)) + InRange(b, range);
        InRange(a, range) + InRange(b, range);
      }
    }
  }

  /** One diagnostic is kept exactly when its range lies in the request's range, and then once. */
  lemma InRangeSingle(d: Diagnostic, range: Range)
    ensures InRange([d], range) == (if RangeUtil.IsInRange(d.range, range) then [d] else [])
  {
    assert [d][1..] == [];
  }

  /** The registration filter keeps handler order: filtering a concatenation concatenates the results. */
  lemma {:induction false} FilterAcceptedAppend(a: seq<CodeActionHandler>, b: seq<CodeActionHandler>, resolveSupport: bool, valueSet: seq<string>)
    ensures FilterAccepted(a + b, resolveSupport, valueSet)
      == FilterAccepted(a, resolveSupport, valueSet) + FilterAccepted(b, resolveSupport, valueSet)
  {
    if a == [] {
      assert a + b == b;
    } else {
      assert (a + b)[0] == a[0];
      assert (a + b)[1..] == a[1..] + b;
      FilterAcceptedAppend(a[1..], b, resolveSupport, valueSet);
    }
  }

  /** One handler is kept exactly when it is accepted, and then once. */
  lemma FilterAcceptedSingle(h: CodeActionHandler, resolveSupport: bool, valueSet: seq<string>)
    ensures FilterAccepted([h], resolveSupport, valueSet) == (if Accepts(h, resolveSupport, valueSet) then [h] else [])
  {
    assert [h][1..] == [];
  }

  /** The `context.only` filter keeps handler order: filtering a concatenation concatenates the results. */
  lemma {:induction false} FilterByKindsAppend(a: seq<CodeActionHandler>, b: seq<CodeActionHandler>, only: seq<string>)
    ensures FilterByKinds(a + b, only) == FilterByKinds(a, only) + FilterByKinds(b, only)
  {
    if a == [] {
      assert a + b == b;
    } else {
      assert (a + b)[0] == a[0];
      assert (a + b)[1..] == a[1..] + b;
      FilterByKindsAppend(a[1..], b, only);
    }
  }

  /** One handler is kept exactly when one of its kinds meets a requested kind, and then once. */
  lemma FilterByKindsSingle(h: CodeActionHandler, only: seq<string>)
    ensures FilterByKinds([h], only) == (if KindIntersects(h.kinds, only) then [h] else [])
  {
    assert [h][1..] == [];
  }
}
