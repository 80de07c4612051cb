/**
 * The Language Server Protocol 3.17 structures the core exchanges with the editor:
 * positions and ranges, diagnostics, code actions, code lenses and the part of the
 * client capabilities the server reads.
 */
module Lsp {
  import opened Wrappers

  type Uri = string

  /** A zero-based line and character offset. */
  datatype Position = Position(line: nat, character: nat)

  datatype Range = Range(start: Position, end: Position)

  datatype Location = Location(uri: Uri, range: Range)

  /** DiagnosticSeverity, numbered as in the "Diagnostic" structure of the Language Server Protocol 3.17. */
  datatype DiagnosticSeverity = Error | Warning | Information | Hint

  function SeverityCode(s: DiagnosticSeverity): (n: nat)
    ensures 1 <= n <= 4
  {
    match s
    case Error => 1
    case Warning => 2
    case Information => 3
    case Hint => 4
  }

  /** The verdict of the ReDoS checker, as far as the diagnostics read it. */
  datatype ComplexityKind = Safe | Constant | Linear | Polynomial | Exponential

  datatype Complexity = Complexity(kind: ComplexityKind, summary: string)

  datatype Verdict = Verdict(complexity: Complexity)

  /** What a diagnostic carries in its `data` field. */
  datatype DiagnosticData = NoData | RedosVerdict(verdict: Verdict)

  datatype Diagnostic = Diagnostic(
    range: Range,
    severity: Option<DiagnosticSeverity>,
    source: Option<string>,
    message: string,
    code: Option<string>,
    data: DiagnosticData)

  datatype TextEdit = TextEdit(range: Range, newText: string)

  datatype WorkspaceEdit = WorkspaceEdit(changes: map<Uri, seq<TextEdit>>)

  datatype CodeAction = CodeAction(
    title: string,
    diagnostics: seq<Diagnostic>,
    isPreferred: bool,
    kind: string,
    edit: WorkspaceEdit)

  /** `CodeActionKind.QuickFix`. */
  const QuickFix: string := "quickfix"

  datatype CodeActionContext = CodeActionContext(diagnostics: seq<Diagnostic>, only: Option<seq<string>>)

  datatype CodeActionParams = CodeActionParams(uri: Uri, range: Range, context: CodeActionContext)

  /** A document diagnostic report: a full list of items, or "unchanged since the last report". */
  datatype DiagnosticReport = Full(items: seq<Diagnostic>) | Unchanged

  /** Code-lens arguments are the discovered regex entries, kept abstract here. */
  datatype Command<A> = Command(title: string, command: string, tooltip: string, arguments: seq<A>)

  datatype CodeLens<A> = CodeLens(range: Range, command: Option<Command<A>>, isResolved: bool)

  /**
   * The client capabilities the server consults. Every capability in the source is read
   * with optional chaining and tested for truthiness, so an absent one is `false` here.
   */
  datatype ClientCapabilities = ClientCapabilities(
    codeActionDynamicRegistration: bool,
    codeActionLiteralKinds: Option<seq<string>>,
    codeActionResolveSupport: bool,
    codeLensDynamicRegistration: bool,
    codeLensRefreshSupport: bool,
    windowWorkDoneProgress: bool,
    workspaceConfiguration: bool,
    didChangeConfigurationDynamicRegistration: bool,
    workspaceFolders: bool)

  /** The empty capabilities object `{}`. */
  const NoCapabilities: ClientCapabilities :=
    ClientCapabilities(false, None, false, false, false, false, false, false, false)
}
