/** The linter diagnostic handler: one warning per regex written as a plain `RegExp(...)` call. */
module Linter {
  import opened Wrappers
  import opened Lsp
  import opened Discovery
  import RegexMatches

  /** The diagnostics source, which is also the configuration prefix. */
  const ExtensionId: string := "regex-radar"

  const PreferNewCode: string := "prefer-regex-new-expression"

  /** The trimmed three-line message of the template literal. */
  const FunctionCallMessage: string :=
    "'RegExp()' can be called with or without 'new', but sometimes with different effects.\n"
    + "Consider using a new expression.\n"
    + "See https://developer.mozilla.org/en-US/docs/Web/JavaScript/Reference/Global_Objects/RegExp/RegExp#return_value for the edge case."

  predicate IsFunctionCall(e: RegexEntry)
  {
    e.regexMatch.FunctionMatch?
  }

  /** The diagnostic the linter reports for one entry. */
  predicate IsLintFor(d: Diagnostic, e: RegexEntry)
  {
    d == Diagnostic(e.location.range, Some(Warning), Some(ExtensionId), FunctionCallMessage, Some(PreferNewCode), NoData)
  }

  /** The reduce over the file's regex entries. */
  function Lint(children: seq<RegexEntry>): (ds: seq<Diagnostic>)
    ensures |ds| <= |children|
    ensures forall d :: d in ds ==> exists e :: e in children && IsFunctionCall(e) && IsLintFor(d, e)
    ensures (forall e :: e in children ==> !IsFunctionCall(e)) <==> ds == []
  {
    if children == [] then []
    else
      var e := children[0];
      var rest := Lint(children[1..]);
      if IsFunctionCall(e) then
        [Diagnostic(e.location.range, Some(Warning), Some(ExtensionId), FunctionCallMessage, Some(PreferNewCode), NoData)] + rest
      else rest
  }

  /**
   * `onDocumentDiagnostic`: the discovery result for the document (with the File hint) and
   * whether the token was cancelled by then are inputs.
   */
  function OnDocumentDiagnostic(discovered: Option<FileEntry>, cancelled: bool): (ds: seq<Diagnostic>)
    ensures discovered.None? || cancelled ==> ds == []
    ensures discovered.Some? ==> |ds| <= |discovered.value.children|
    ensures forall d :: d in ds ==> d.severity == Some(Warning) && d.source == Some(ExtensionId) && d.code == Some(PreferNewCode)
  {
    if discovered.None? || cancelled then [] else Lint(discovered.value.children)
  }

  /** The linter keeps entry order: linting a concatenation concatenates the diagnostics. */
  lemma {:induction false} LintAppend(a: seq<RegexEntry>, b: seq<RegexEntry>)
    ensures Lint(a + b) == Lint(a) + Lint(b)
  {
    if a == [] {
      assert a + b == b;
    } else {
      assert (a + b)[0] == a[0];
      assert (a + b)[1..] == a[1..] + b;
      LintAppend(a[1..], b);
    }
  }

  /** One entry yields exactly one diagnostic if it is a Function match, none otherwise. */
  lemma LintSingle(e: RegexEntry)
    ensures |Lint([e])| == (if IsFunctionCall(e) then 1 else 0)
    ensures IsFunctionCall(e) ==> IsLintFor(Lint([e])[0], e)
  {
    assert [e][1..] == [];
  }

  /** Every Function-match entry among the children is reported. */
  lemma {:induction false} EveryFunctionCallReported(children: seq<RegexEntry>, i: nat)
    requires i < |children| && IsFunctionCall(children[i])
    ensures exists d :: d in Lint(children) && IsLintFor(d, children[i])
  {
    if i == 0 {
      assert IsLintFor(Lint(children)[0], children[0]);
    } else {
      EveryFunctionCallReported(children[1..], i - 1);
      var d :| d in Lint(children[1..]) && IsLintFor(d, children[1..][i - 1]);
      assert d in Lint(children);
    }
  }
}
