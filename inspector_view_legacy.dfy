/**
 * The earlier Regex Explorer inspector view: the flags node is its own entry kind,
 * AST nodes have no children, and the flag rows come from a table of its own.
 */
module LegacyInspectorView {
  import opened Wrappers
  import opened InspectorEntries
  import Discovery
  import InspectorView

  /** An entry of the earlier view: an AST node, the flags node, or one flag. */
  datatype LegacyEntry = AstEntry(node: Node) | FlagsEntry(flags: Node) | FlagRow(info: FlagInfo)

  /**
   * The earlier flag table. It agrees with the current one on letters and descriptions,
   * but its `m` and `s` rows read the `ignoreCase` property.
   */
  const LegacyFlagTable: seq<FlagInfo> := [
    FlagInfo('d', "Generate indices for substring matches", HasIndices),
    FlagInfo('g', "Global search", Global),
    FlagInfo('i', "Case-insensitive search", IgnoreCase),
    FlagInfo('m', "Makes `^` and `$` match the start and end of each line instead of those of the entire string", IgnoreCase),
    FlagInfo('s', "Allows `.` to match newline characters", IgnoreCase),
    FlagInfo('u', "treat a pattern as a sequence of Unicode code points", Unicode),
    FlagInfo('v', "An upgrade to the `u` mode with more Unicode features.", UnicodeSets),
    FlagInfo('y', "Perform a \"sticky\" search that matches starting at the current position in the target string.", Sticky)
  ]

  /** `createInspectorViewEntry`: a Flags node becomes the flags entry, any other node an AST entry. */
  function CreateInspectorViewEntry(n: Node): (e: LegacyEntry)
    ensures n.Flags? ==> e == FlagsEntry(n)
    ensures !n.Flags? ==> e == AstEntry(n)
  {
    if n.Flags? then FlagsEntry(n) else AstEntry(n)
  }

  /** The rows of `table` whose property is truthy on `flags`, in table order. */
  function SetRows(flags: Node, table: seq<FlagInfo>): (rows: seq<FlagInfo>)
    ensures |rows| <= |table|
    ensures forall f :: f in rows <==> f in table && IsSet(flags, f.property)
  {
    if table == [] then []
    else
      assert forall g :: g in table ==> g == table[0] || g in table[1..];
      (if IsSet(flags, table[0].property) then [table[0]] else []) + SetRows(flags, table[1..])
  }

  /** The set rows of `table`, each as a flag row. */
  function FlagRows(flags: Node, table: seq<FlagInfo>): (cs: seq<LegacyEntry>)
    ensures |cs| == |SetRows(flags, table)|
    ensures forall i :: 0 <= i < |cs| ==> cs[i] == FlagRow(SetRows(flags, table)[i])
    ensures forall e :: e in cs <==> e.FlagRow? && e.info in table && IsSet(flags, e.info.property)
  {
    var rows := SetRows(flags, table);
    var cs := seq(|rows|, i requires 0 <= i < |rows| => FlagRow(rows[i]));
    assert forall e: LegacyEntry :: e.FlagRow? && e.info in rows ==> e in cs by {
      forall e: LegacyEntry | e.FlagRow? && e.info in rows
        ensures e in cs
      {
        var i :| 0 <= i < |rows| && rows[i] == e.info;
        assert cs[i] == e;
      }
    }
    cs
  }

  /** `createFlagsChildren`: the legacy table's set rows, as flag rows, in table order. */
  function CreateFlagsChildren(flags: Node): (cs: seq<LegacyEntry>)
    ensures |cs| <= |LegacyFlagTable|
    ensures |cs| == |SetRows(flags, LegacyFlagTable)|
    ensures forall i :: 0 <= i < |cs| ==> cs[i] == FlagRow(SetRows(flags, LegacyFlagTable)[i])
    ensures forall e :: e in cs <==> e.FlagRow? && e.info in LegacyFlagTable && IsSet(flags, e.info.property)
  {
    FlagRows(flags, LegacyFlagTable)
  }

  /** `getChildren` for an element: AST nodes have none, the flags entry has its set flags. */
  function ChildrenOf(e: LegacyEntry): (cs: seq<LegacyEntry>)
    ensures e.AstEntry? || e.FlagRow? ==> cs == []
  {
    match e
    case FlagsEntry(f) => CreateFlagsChildren(f)
    case _ => []
  }

  /** `getTreeItem`. */
  function GetTreeItem(e: LegacyEntry): (item: InspectorView.TreeItem)
    ensures e.AstEntry? ==> item == InspectorView.TreeItem(TypeName(e.node), None, None, None, None)
    ensures e.FlagsEntry? ==> item == InspectorView.TreeItem(TypeName(e.flags), None, None, Some(InspectorView.Collapsed), None)
    ensures e.FlagRow? ==>
      item == InspectorView.TreeItem([e.info.flag], Some(PropertyName(e.info.property)), Some(e.info.description), None, None)
  {
    match e
    case AstEntry(n) => InspectorView.TreeItem(TypeName(n), None, None, None, None)
    case FlagsEntry(f) => InspectorView.TreeItem(TypeName(f), None, None, Some(InspectorView.Collapsed), None)
    case FlagRow(info) => InspectorView.TreeItem([info.flag], Some(PropertyName(info.property)), Some(info.description), None, None)
  }

  class LegacyInspectorViewTreeDataProvider {
    var ast: Option<InspectorView.RegexAst>
    var refreshes: nat

    constructor()
      ensures ast == None && refreshes == 0
    {
      ast := None;
      refreshes := 0;
    }

    /** `update`: load the AST of the given regular expression, or clear it, then refresh. */
    method Update(regex: Option<Discovery.RegexEntry>, astOf: Discovery.RegexEntry -> InspectorView.RegexAst)
      modifies this
      ensures ast == (if regex.Some? then Some(astOf(regex.value)) else None)
      ensures refreshes == old(refreshes) + 1
    {
      if regex.Some? {
        ast := Some(astOf(regex.value));
      } else {
        ast := None;
      }
      refreshes := refreshes + 1;
    }

    /** `getRoot`: the pattern and the flags entry whenever an AST is loaded. */
    function GetRoot(): (root: seq<LegacyEntry>)
      reads this
      ensures ast.None? ==> root == []
      ensures ast.Some? ==> root == [AstEntry(ast.value.pattern), FlagsEntry(ast.value.flags)]
    {
      if ast.None? then [] else [CreateInspectorViewEntry(ast.value.pattern), CreateInspectorViewEntry(ast.value.flags)]
    }

    /** `getChildren`. */
    function GetChildren(element: Option<LegacyEntry>): (cs: seq<LegacyEntry>)
      reads this
      ensures element.None? ==> cs == GetRoot()
      ensures element.Some? ==> cs == ChildrenOf(element.value)
    {
      if element.None? then GetRoot() else ChildrenOf(element.value)
    }
  }

  /** The legacy table differs from the current one only in the properties of `m` and `s`. */
  lemma TablesDifferOnlyInMAndS()
    ensures |LegacyFlagTable| == |FlagTable|
    ensures forall k :: 0 <= k < |FlagTable| ==>
      && LegacyFlagTable[k].flag == FlagTable[k].flag
      && LegacyFlagTable[k].description == FlagTable[k].description
      && (LegacyFlagTable[k].property == FlagTable[k].property <==> k != 3 && k != 4)
  {
  }

  /** In the legacy view the `i`, `m` and `s` rows all appear exactly when `ignoreCase` is set. */
  lemma MultilineAndDotAllFollowIgnoreCase(flags: Node)
    requires flags.Flags?
    ensures LegacyFlagTable[2].flag == 'i' && LegacyFlagTable[3].flag == 'm' && LegacyFlagTable[4].flag == 's'
    ensures FlagRow(LegacyFlagTable[2]) in CreateFlagsChildren(flags) <==> flags.ignoreCase
    ensures FlagRow(LegacyFlagTable[3]) in CreateFlagsChildren(flags) <==> flags.ignoreCase
    ensures FlagRow(LegacyFlagTable[4]) in CreateFlagsChildren(flags) <==> flags.ignoreCase
  {
  }

  /** With `i` set and `m` unset, the legacy view still shows the `m` row. */
  lemma LegacyShowsMultilineForIgnoreCase(f: Node)
    requires f.Flags? && f.ignoreCase && !f.multiline
    ensures FlagRow(LegacyFlagTable[3]) in ChildrenOf(FlagsEntry(f))
  {
    MultilineAndDotAllFollowIgnoreCase(f);
  }

  /** With `m` unset, the current view shows no `m` row. */
  lemma CurrentHidesUnsetMultiline(f: Node)
    requires f.Flags? && !f.multiline
    ensures forall e :: e in InspectorEntries.Children(AstNode(f)) ==> e.flag != 'm'
  {
    FlagsChildrenAreTheSetFlags(f);
    forall e | e in InspectorEntries.Children(AstNode(f))
      ensures e.flag != 'm'
    {
      assert IsSet(f, e.property) && !IsSet(f, Multiline);
      OnlyMultilineRowIsM(FlagInfo(e.flag, e.description, e.property));
    }
  }

  /** In the current table, only the row for the multiline property carries the letter `m`. */
  lemma OnlyMultilineRowIsM(r: FlagInfo)
    requires r in FlagTable && r.property != Multiline
    ensures r.flag != 'm'
  {
  }

  /** The set rows keep the table's order: a concatenated table gives the concatenated rows. */
  lemma {:induction false} SetRowsAppend(flags: Node, a: seq<FlagInfo>, b: seq<FlagInfo>)
    ensures SetRows(flags, a + b) == SetRows(flags, a) + SetRows(flags, b)
  {
    if a == [] {
      assert a + b == b;
    } else {
      assert (a + b)[0] == a[0];
      assert (a + b)[1..] == a[1..] + b;
      SetRowsAppend(flags, a[1..], b);
    }
  }

  /** One row is kept exactly when its property is set. */
  lemma SetRowsSingle(flags: Node, f: FlagInfo)
    ensures SetRows(flags, [f]) == (if IsSet(flags, f.property) then [f] else [])
  {
    assert [f][1..] == [];
  }
}
