/**
 * The Regex Explorer inspector view: a tree-data provider holding the AST of the
 * selected regular expression, its root and tree items, and the step that picks the
 * regular expression under the editor selection.
 */
module InspectorView {
  import opened Wrappers
  import opened Lsp
  import opened InspectorEntries
  import Discovery
  import RangeUtil

  /** A parsed regular-expression literal: a pattern and a flags node. */
  type RegexAst = n: Node | n.RegExpLiteral? && n.pattern.Pattern? && n.flags.Flags?
    witness RegExpLiteral(Pattern([]), Flags(false, false, false, false, false, false, false, false))

  datatype CollapsibleState = NotCollapsible | Collapsed | Expanded

  /** The fields of a VS Code tree item this view sets; absent fields are `None`. */
  datatype TreeItem = TreeItem(
    labelText: string,
    description: Option<string>,
    tooltip: Option<string>,
    collapsibleState: Option<CollapsibleState>,
    iconPath: Option<string>)

  /** Theme icons by node type; only patterns and flags nodes have one. */
  function NodeIcon(n: Node): (icon: Option<string>)
    ensures icon.Some? <==> n.Pattern? || n.Flags?
  {
    match n
    case Pattern(_) => Some("regex")
    case Flags(_, _, _, _, _, _, _, _) => Some("symbol-object")
    case _ => None
  }

  const FlagIcon: string := "symbol-property"

  /** `getTreeItem`. */
  function GetTreeItem(e: InspectorEntry): (item: TreeItem)
    ensures e.FlagEntry? ==>
      item == TreeItem([e.flag], Some(PropertyName(e.property)), Some(e.description), None, Some(FlagIcon))
    ensures e.AstNode? ==>
      && item.labelText == TypeName(e.node)
      && item.description.None? && item.tooltip.None?
      && item.collapsibleState == Some(if HasChildren(e.node) then Collapsed else NotCollapsible)
      && item.iconPath == NodeIcon(e.node)
  {
    match e
    case FlagEntry(f, d, p) => TreeItem([f], Some(PropertyName(p)), Some(d), None, Some(FlagIcon))
    case AstNode(n) =>
      TreeItem(TypeName(n), None, None, Some(if HasChildren(n) then Collapsed else NotCollapsible), NodeIcon(n))
  }

  class InspectorViewTreeDataProvider {
    /** The AST shown, if any. */
    var ast: Option<RegexAst>
    /** How many tree-changed events `refresh` has fired. */
    var refreshes: nat

    constructor()
      ensures ast == None && refreshes == 0
    {
      ast := None;
      refreshes := 0;
    }

    /** `update`: load the AST of the given regular expression, or clear it, then refresh. */
    method Update(regex: Option<Discovery.RegexEntry>, astOf: Discovery.RegexEntry -> RegexAst)
      modifies this
      ensures ast == (if regex.Some? then Some(astOf(regex.value)) else None)
      ensures refreshes == old(refreshes) + 1
    {
      if regex.Some? {
        ast := Some(astOf(regex.value));
      } else {
        ast := None;
      }
      refreshes := refreshes + 1;
    }

    /** `getRoot`: the pattern, then the flags only when some flag is set. */
    function GetRoot(): (root: seq<InspectorEntry>)
      reads this
      ensures ast.None? ==> root == []
      ensures ast.Some? ==>
        && 1 <= |root| <= 2
        && root[0] == AstNode(ast.value.pattern)
        && (|root| == 2 <==> SomeFlagSet(ast.value.flags))
        && (|root| == 2 ==> root[1] == AstNode(ast.value.flags))
    {
      if ast.None? then []
      else
        var root := [CreateEntry(ast.value.pattern)];
        if HasChildren(ast.value.flags) then root + [CreateEntry(ast.value.flags)] else root
    }

    /** `getChildren`: the root for no element, else the element's children. */
    function GetChildren(element: Option<InspectorEntry>): (cs: seq<InspectorEntry>)
      reads this
      ensures element.None? ==> cs == GetRoot()
      ensures element.Some? ==> cs == Children(element.value)
    {
      if element.None? then GetRoot() else Children(element.value)
    }
  }

  /**
   * The root is the literal's own children when some flag is set, and its first child
   * alone otherwise.
   */
  lemma RootIsLiteralChildren(v: InspectorViewTreeDataProvider)
    requires v.ast.Some?
    ensures SomeFlagSet(v.ast.value.flags) ==> v.GetRoot() == Children(AstNode(v.ast.value))
    ensures !SomeFlagSet(v.ast.value.flags) ==> v.GetRoot() == Children(AstNode(v.ast.value))[..1]
  {
    StructuredChildren(v.ast.value);
  }

  const SupportedLanguageIds: seq<string> := ["typescript", "typescriptreact", "javascript", "javascriptreact"]

  /** VS Code's `Position.isBeforeOrEqual`: lines first, then characters. */
  predicate PositionLe(a: Position, b: Position)
  {
    a.line < b.line || (a.line == b.line && a.character <= b.character)
  }

  /** VS Code's `Range.contains(range)`: both ends of `inner` lie within `outer`. */
  predicate Contains(outer: Range, inner: Range)
  {
    PositionLe(outer.start, inner.start) && PositionLe(inner.end, outer.end)
  }

  /** `children.find(entry => range.contains(selection))`. */
  function FindContaining(children: seq<Discovery.RegexEntry>, selection: Range): (r: Option<nat>)
    ensures r.Some? ==>
      && r.value < |children|
      && Contains(children[r.value].location.range, selection)
      && forall j :: 0 <= j < r.value ==> !Contains(children[j].location.range, selection)
    ensures r.None? ==> forall j :: 0 <= j < |children| ==> !Contains(children[j].location.range, selection)
  {
    if children == [] then None
    else if Contains(children[0].location.range, selection) then Some(0)
    else
      var rest := FindContaining(children[1..], selection);
      if rest.Some? then Some(rest.value + 1) else None
  }

  /**
   * The regular expression `handleSelectionChange` loads: none for an unsupported
   * language, a request whose token was cancelled, a result that is not a file, or a
   * selection no regular expression of the file contains.
   */
  function SelectedRegex(languageId: string, cancelled: bool, result: Option<Discovery.Entry>, selection: Range): (r: Option<Discovery.RegexEntry>)
    ensures languageId !in SupportedLanguageIds || cancelled ==> r.None?
    ensures result.None? || !result.value.FileNode? ==> r.None?
    ensures r.Some? ==>
      && result.Some? && result.value.FileNode? && r.value in result.value.file.children
      && Contains(r.value.location.range, selection)
    ensures languageId in SupportedLanguageIds && !cancelled && result.Some? && result.value.FileNode?
      && (exists j :: 0 <= j < |result.value.file.children| && Contains(result.value.file.children[j].location.range, selection))
      ==> r.Some?
  {
    if languageId !in SupportedLanguageIds || cancelled then None
    else if result.None? || !result.value.FileNode? then None
    else
      var children := result.value.file.children;
      var i := FindContaining(children, selection);
      if i.Some? then Some(children[i.value]) else None
  }

  /**
   * The selection step of `handleSelectionChange`: load the first regular expression
   * under the selection into the view; otherwise leave the view as it was.
   */
  method HandleSelectionChange(
    view: InspectorViewTreeDataProvider, languageId: string, cancelled: bool,
    result: Option<Discovery.Entry>, selection: Range, astOf: Discovery.RegexEntry -> RegexAst)
    modifies view
    ensures var m := SelectedRegex(languageId, cancelled, result, selection);
      if m.Some? then view.ast == Some(astOf(m.value)) && view.refreshes == old(view.refreshes) + 1
      else view.ast == old(view.ast) && view.refreshes == old(view.refreshes)
  {
    var m := SelectedRegex(languageId, cancelled, result, selection);
    if m.Some? {
      view.Update(m, astOf);
    }
  }

  /** The first containing regular expression wins, even when a later one is narrower. */
  lemma FirstMatchWins(a: Discovery.RegexEntry, b: Discovery.RegexEntry, uri: Uri, selection: Range)
    requires Contains(a.location.range, selection) && Contains(b.location.range, selection)
    ensures SelectedRegex("typescript", false, Some(Discovery.FileNode(Discovery.FileEntry(uri, None, [a, b]))), selection) == Some(a)
  {
    assert FindContaining([a, b], selection) == Some(0);
  }

  /** Every range the code-action test accepts, VS Code containment accepts too. */
  lemma IsInRangeImpliesContains(a: Range, b: Range)
    requires RangeUtil.IsInRange(a, b)
    ensures Contains(b, a)
  {
  }

  /** The converse fails: VS Code containment orders positions by line first. */
  lemma ContainsDoesNotImplyIsInRange()
    ensures Contains(Range(Position(0, 5), Position(2, 0)), Range(Position(1, 0), Position(1, 0)))
    ensures !RangeUtil.IsInRange(Range(Position(1, 0), Position(1, 0)), Range(Position(0, 5), Position(2, 0)))
  {
  }
}
