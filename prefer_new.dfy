/** The quick fix for the linter warning: insert `new ` before a `RegExp(...)` call. */
module PreferNewExpression {
  import opened Wrappers
  import opened Lsp
  import Linter
  import Discovery

  /** The kinds the handler advertises. */
  const Kinds: seq<string> := [QuickFix]

  const Title: string := "Convert to new expression"

  predicate IsPreferNew(d: Diagnostic)
  {
    d.code == Some(Linter.PreferNewCode)
  }

  /** The quick fix for one diagnostic in the document `uri`. */
  function CreateCodeAction(d: Diagnostic, uri: Uri): (a: CodeAction)
    ensures a.title == Title && a.isPreferred && a.kind == QuickFix
    ensures a.diagnostics == [d]
    ensures a.edit.changes.Keys == {uri}
    ensures a.edit.changes[uri] == [TextEdit(Range(d.range.start, d.range.start), "new ")]
  {
    CodeAction(Title, [d], true, QuickFix,
      WorkspaceEdit(map[uri := [TextEdit(Range(d.range.start, d.range.start), "new ")]]))
  }

  /** `onCodeAction`: filter the context's diagnostics by code, then map each to its fix. */
  function OnCodeAction(p: CodeActionParams): (actions: seq<CodeAction>)
    ensures |actions| <= |p.context.diagnostics|
    ensures forall a :: a in actions ==>
      exists d :: d in p.context.diagnostics && IsPreferNew(d) && a == CreateCodeAction(d, p.uri)
  {
    FixAllSound(p.context.diagnostics, p.uri);
    FixAll(p.context.diagnostics, p.uri)
  }

  function FixAll(ds: seq<Diagnostic>, uri: Uri): (actions: seq<CodeAction>)
    ensures |actions| <= |ds|
  {
    if ds == [] then []
    else (if IsPreferNew(ds[0]) then [CreateCodeAction(ds[0], uri)] else []) + FixAll(ds[1..], uri)
  }

  /** Every action fixes one diagnostic carrying the linter's code. */
  lemma {:induction false} FixAllSound(ds: seq<Diagnostic>, uri: Uri)
    ensures forall a :: a in FixAll(ds, uri) ==> exists d :: d in ds && IsPreferNew(d) && a == CreateCodeAction(d, uri)
  {
    if ds != [] {
      FixAllSound(ds[1..], uri);
      forall a | a in FixAll(ds, uri)
        ensures exists d :: d in ds && IsPreferNew(d) && a == CreateCodeAction(d, uri)
      {
        if IsPreferNew(ds[0]) && a == CreateCodeAction(ds[0], uri) {
          assert ds[0] in ds;
        } else {
          assert a in FixAll(ds[1..], uri);
          var d :| d in ds[1..] && IsPreferNew(d) && a == CreateCodeAction(d, uri);
          assert d in ds;
        }
      }
    }
  }

  /** Diagnostic order is kept: fixing a concatenation concatenates the actions. */
  lemma {:induction false} FixAllAppend(a: seq<Diagnostic>, b: seq<Diagnostic>, uri: Uri)
    ensures FixAll(a + b, uri) == FixAll(a, uri) + FixAll(b, uri)
  {
    if a == [] {
      assert a + b == b;
    } else {
      var head := if IsPreferNew(a[0]) then [CreateCodeAction(a[0], uri)] else [];
      assert (a + b)[0] == a[0];
      assert (a + b)[1..] == a[1..] + b;
      calc {
        FixAll(a + b, uri);
        head + FixAll(a[1..] + b, uri);
        { FixAllAppend(a[1..], b, uri); }
        head + (FixAll(a[1..], uri) + FixAll(b, uri));
        (head + FixAll(a[1..], uri)) + FixAll(b, uri);
        FixAll(a, uri) + FixAll(b, uri);
      }
    }
  }

  /** Every diagnostic with the linter's code gets exactly one action; any other code gets none. */
  lemma FixSingle(d: Diagnostic, uri: Uri)
    ensures FixAll([d], uri) == (if IsPreferNew(d) then [CreateCodeAction(d, uri)] else [])
  {
    assert [d][1..] == [];
  }

  /** Every warning the linter reports gets the quick fix. */
  lemma {:induction false} EveryLintHasAFix(children: seq<Discovery.RegexEntry>, uri: Uri)
    ensures |FixAll(Linter.Lint(children), uri)| == |Linter.Lint(children)|
  {
    var ds := Linter.Lint(children);
    if ds != [] {
      assert ds[0] in ds;
      assert IsPreferNew(ds[0]);
      AllPreferNewKept(ds, uri);
    }
  }

  lemma {:induction false} AllPreferNewKept(ds: seq<Diagnostic>, uri: Uri)
    requires forall d :: d in ds ==> IsPreferNew(d)
    ensures |FixAll(ds, uri)| == |ds|
  {
    if ds != [] {
      assert ds[0] in ds;
      AllPreferNewKept(ds[1..], uri);
    }
  }
}
