/**
 * The ReDoS diagnostic handler: maps the checker's verdict for each discovered regex to
 * an Error (exponential) or a Warning (polynomial) diagnostic, and to nothing otherwise.
 */
module RedosDiagnostics {
  import opened Wrappers
  import opened Lsp
  import opened Discovery
  import RegexMatches

  const ExtensionId: string := "regex-radar"

  const ExponentialCode: string := "redos-exponential"

  const PolynomialCode: string := "redos-polynomial"

  const MessagePrefix: string := "This regular expression is vulnerable to a ReDoS attack with complexity: "

  /** The checker's verdict for a match, as far as this handler reads it (`None` when there is none). */
  type VerdictOf = RegexMatches.RegexMatch -> Option<Verdict>

  /** The `switch` for one entry: a diagnostic for an exponential or polynomial verdict. */
  function Classify(e: RegexEntry, v: Option<Verdict>): (d: Option<Diagnostic>)
    ensures d.Some? <==> v.Some? && v.value.complexity.kind in {Exponential, Polynomial}
    ensures d.Some? ==>
      && d.value.range == e.location.range
      && d.value.data == RedosVerdict(v.value)
      && d.value.source == Some(ExtensionId)
      && d.value.message == MessagePrefix + v.value.complexity.summary
      && (d.value.severity == Some(Error) <==> v.value.complexity.kind == Exponential)
      && (d.value.severity == Some(Warning) <==> v.value.complexity.kind == Polynomial)
      && (d.value.code == Some(ExponentialCode) <==> v.value.complexity.kind == Exponential)
      && (d.value.code == Some(PolynomialCode) <==> v.value.complexity.kind == Polynomial)
  {
    match v
    case None => None
    case Some(verdict) =>
      var message := MessagePrefix + verdict.complexity.summary;
      match verdict.complexity.kind
      case Exponential =>
        Some(Diagnostic(e.location.range, Some(Error), Some(ExtensionId), message, Some(ExponentialCode), RedosVerdict(verdict)))
      case Polynomial =>
        Some(Diagnostic(e.location.range, Some(Warning), Some(ExtensionId), message, Some(PolynomialCode), RedosVerdict(verdict)))
      case _ => None
  }

  /** The reduce over the children, each paired with its verdict. */
  function Collect(children: seq<RegexEntry>, verdictOf: VerdictOf): (ds: seq<Diagnostic>)
    ensures |ds| <= |children|
    ensures forall d :: d in ds ==>
      exists e :: e in children && Classify(e, verdictOf(e.regexMatch)) == Some(d)
  {
    if children == [] then []
    else
      var e := children[0];
      var rest := Collect(children[1..], verdictOf);
      match Classify(e, verdictOf(e.regexMatch))
      case Some(d) => [d] + rest
      case None => rest
  }

  /**
   * `onDocumentDiagnostic`. Inputs: the `linter.enabled` setting it consults, whether the
   * token is cancelled after reading the configuration, the discovery result for the
   * document, whether the token is cancelled after discovery, and the verdicts.
   */
  function OnDocumentDiagnostic(
    linterEnabled: bool,
    cancelledBeforeDiscovery: bool,
    discovered: Option<FileEntry>,
    cancelledAfterDiscovery: bool,
    verdictOf: VerdictOf): (ds: seq<Diagnostic>)
    ensures !linterEnabled || cancelledBeforeDiscovery ==> ds == []
    ensures discovered.None? || cancelledAfterDiscovery ==> ds == []
    ensures discovered.Some? ==> |ds| <= |discovered.value.children|
    ensures forall d :: d in ds ==> d.code in {Some(ExponentialCode), Some(PolynomialCode)}
  {
    if !linterEnabled || cancelledBeforeDiscovery then []
    else if discovered.None? || cancelledAfterDiscovery then []
    else Collect(discovered.value.children, verdictOf)
  }

  /** Entry order is kept: collecting a concatenation concatenates the diagnostics. */
  lemma {:induction false} CollectAppend(a: seq<RegexEntry>, b: seq<RegexEntry>, verdictOf: VerdictOf)
    ensures Collect(a + b, verdictOf) == Collect(a, verdictOf) + Collect(b, verdictOf)
  {
    if a == [] {
      assert a + b == b;
    } else {
      assert (a + b)[0] == a[0];
      assert (a + b)[1..] == a[1..] + b;
      CollectAppend(a[1..], b, verdictOf);
    }
  }

  /** An entry whose verdict is exponential or polynomial is reported; any other verdict yields nothing. */
  lemma CollectSingle(e: RegexEntry, verdictOf: VerdictOf)
    ensures Collect([e], verdictOf) ==
      (match Classify(e, verdictOf(e.regexMatch)) case Some(d) => [d] case None => [])
  {
    assert [e][1..] == [];
  }

  /** Without any vulnerable verdict there are no diagnostics. */
  lemma {:induction false} SafeFileHasNoDiagnostics(children: seq<RegexEntry>, verdictOf: VerdictOf)
    requires forall e :: e in children ==> Classify(e, verdictOf(e.regexMatch)).None?
    ensures Collect(children, verdictOf) == []
  {
    if children != [] {
      assert children[0] in children;
      SafeFileHasNoDiagnostics(children[1..], verdictOf);
    }
  }
}
