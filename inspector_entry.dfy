/**
 * The entries of the Regex Explorer inspector: AST nodes of a parsed regular expression
 * (in the node shapes of the regexpp parser, serialised without parent links) and the
 * flags it sets, with their children for the tree view.
 */
module InspectorEntries {
  import opened Wrappers

  /** What a backreference resolves to: one capturing group, or several for a duplicated name. */
  datatype Resolved = One(group: Node) | Many(groups: seq<Node>)

  datatype Node =
    | Pattern(alternatives: seq<Node>)
    | Alternative(elements: seq<Node>)
    | CapturingGroup(name: Option<string>, alternatives: seq<Node>)
    | CharacterClass(negate: bool, elements: seq<Node>)
    | CharacterClassRange(low: nat, high: nat)
    | ClassIntersection(left: Node, right: Node)
    | ClassStringDisjunction(alternatives: seq<Node>)
    | ClassSubtraction(left: Node, right: Node)
    | ExpressionCharacterClass(negate: bool, expression: Node)
    | Group(alternatives: seq<Node>, modifiers: Option<Node>)
    | Assertion(kind: string)
    | Modifiers(add: Node, remove: Option<Node>)
    | Quantifier(min: nat, max: Option<nat>, greedy: bool, element: Node)
    | RegExpLiteral(pattern: Node, flags: Node)
    | StringAlternative(elements: seq<Node>)
    | Backreference(reference: string, resolved: Resolved)
    | Character(value: nat)
    | CharacterSet(kind: string)
    | Flags(
        hasIndices: bool, global: bool, ignoreCase: bool, multiline: bool,
        dotAll: bool, unicode: bool, unicodeSets: bool, sticky: bool)
    | ModifierFlags(ignoreCase: bool, multiline: bool, dotAll: bool)

  /** The `type` string of a node, which labels it in the tree. */
  function TypeName(n: Node): string
  {
    match n
    case Pattern(_) => "Pattern"
    case Alternative(_) => "Alternative"
    case CapturingGroup(_, _) => "CapturingGroup"
    case CharacterClass(_, _) => "CharacterClass"
    case CharacterClassRange(_, _) => "CharacterClassRange"
    case ClassIntersection(_, _) => "ClassIntersection"
    case ClassStringDisjunction(_) => "ClassStringDisjunction"
    case ClassSubtraction(_, _) => "ClassSubtraction"
    case ExpressionCharacterClass(_, _) => "ExpressionCharacterClass"
    case Group(_, _) => "Group"
    case Assertion(_) => "Assertion"
    case Modifiers(_, _) => "Modifiers"
    case Quantifier(_, _, _, _) => "Quantifier"
    case RegExpLiteral(_, _) => "RegExpLiteral"
    case StringAlternative(_) => "StringAlternative"
    case Backreference(_, _) => "Backreference"
    case Character(_) => "Character"
    case CharacterSet(_) => "CharacterSet"
    case Flags(_, _, _, _, _, _, _, _) => "Flags"
    case ModifierFlags(_, _, _) => "ModifierFlags"
  }

  /** The flag properties of ECMA-262, section 22.2.6 (`RegExp.prototype` flag accessors). */
  datatype FlagProperty = HasIndices | Global | IgnoreCase | Multiline | DotAll | Unicode | UnicodeSets | Sticky

  function PropertyName(p: FlagProperty): string
  {
    match p
    case HasIndices => "hasIndices"
    case Global => "global"
    case IgnoreCase => "ignoreCase"
    case Multiline => "multiline"
    case DotAll => "dotAll"
    case Unicode => "unicode"
    case UnicodeSets => "unicodeSets"
    case Sticky => "sticky"
  }

  /** One row of the flag table: the letter, its description and the property it reads. */
  datatype FlagInfo = FlagInfo(flag: char, description: string, property: FlagProperty)

  const FlagTable: seq<FlagInfo> := [
    FlagInfo('d', "Generate indices for substring matches", HasIndices),
    FlagInfo('g', "Global search", Global),
    FlagInfo('i', "Case-insensitive search", IgnoreCase),
    FlagInfo('m', "Makes `^` and `$` match the start and end of each line instead of those of the entire string", Multiline),
    FlagInfo('s', "Allows `.` to match newline characters", DotAll),
    FlagInfo('u', "treat a pattern as a sequence of Unicode code points", Unicode),
    FlagInfo('v', "An upgrade to the `u` mode with more Unicode features.", UnicodeSets),
    FlagInfo('y', "Perform a \"sticky\" search that matches starting at the current position in the target string.", Sticky)
  ]

  /**
   * `flag.property in node && node[flag.property]`: `None` when the node has no such
   * property (only Flags and ModifierFlags have any), else its value.
   */
  function PropertyValue(n: Node, p: FlagProperty): (v: Option<bool>)
    ensures n.Flags? ==> v.Some?
    ensures n.ModifierFlags? ==> (v.Some? <==> p in {IgnoreCase, Multiline, DotAll})
    ensures !n.Flags? && !n.ModifierFlags? ==> v.None?
  {
    match n
    case Flags(d, g, i, m, s, u, v, y) =>
      Some(match p
        case HasIndices => d case Global => g case IgnoreCase => i case Multiline => m
        case DotAll => s case Unicode => u case UnicodeSets => v case Sticky => y)
    case ModifierFlags(i, m, s) =>
      (match p
        case IgnoreCase => Some(i) case Multiline => Some(m) case DotAll => Some(s)
        case _ => None)
    case _ => None
  }

  predicate IsSet(n: Node, p: FlagProperty)
  {
    PropertyValue(n, p) == Some(true)
  }

  /** An inspector entry: an AST node, or one flag of a flags node. */
  datatype InspectorEntry = AstNode(node: Node) | FlagEntry(flag: char, description: string, property: FlagProperty)

  /** `createInspectorViewEntry`: every node kind becomes an AST-node entry holding that node. */
  function CreateEntry(n: Node): (e: InspectorEntry)
    ensures e.AstNode? && e.node == n
  {
    AstNode(n)
  }

  /** `getAstChildren`: the child nodes the tree shows for a node. */
  function AstChildren(n: Node): (cs: seq<Node>)
    ensures forall c :: c in cs ==> c < n
  {
    match n
    case Pattern(alts) => alts
    case Alternative(elems) => elems
    case CapturingGroup(_, alts) => alts
    case CharacterClass(_, elems) => elems
    case ClassIntersection(l, r) => [l, r]
    case ClassStringDisjunction(alts) => alts
    case ClassSubtraction(l, r) => [l, r]
    case ExpressionCharacterClass(_, e) => [e]
    case Group(alts, mods) => if mods.Some? then alts + [mods.value] else alts
    case Modifiers(add, remove) => if remove.Some? then [add, remove.value] else [add]
    case Quantifier(_, _, _, e) => [e]
    case StringAlternative(elems) => elems
    case Backreference(_, resolved) =>
      (match resolved
        case One(g) => [g]
        case Many(gs) => gs)
    case RegExpLiteral(p, f) => [p, f]
    case _ => []
  }

  /** The flag table filtered by a node's set properties, as flag entries, in table order. */
  function FlagChildren(n: Node, table: seq<FlagInfo>): (cs: seq<InspectorEntry>)
    ensures |cs| <= |table|
    ensures forall e :: e in cs <==> e.FlagEntry? && FlagInfo(e.flag, e.description, e.property) in table && IsSet(n, e.property)
  {
    if table == [] then []
    else
      var f := table[0];
      assert forall g :: g in table ==> g == f || g in table[1..];
      (if IsSet(n, f.property) then [FlagEntry(f.flag, f.description, f.property)] else []) + FlagChildren(n, table[1..])
  }

  /** `getChildren`: an Alternative of one element shows that element's children. */
  function Children(e: InspectorEntry): (cs: seq<InspectorEntry>)
    decreases if e.AstNode? then e.node else Character(0)
    ensures e.FlagEntry? ==> cs == []
    ensures e.AstNode? && (e.node.Flags? || e.node.ModifierFlags?) ==> forall c :: c in cs ==> c.FlagEntry?
  {
    match e
    case FlagEntry(_, _, _) => []
    case AstNode(n) =>
      match n
      case Alternative(elems) =>
        if |elems| == 1 then Children(CreateEntry(elems[0]))
        else seq(|elems|, i requires 0 <= i < |elems| => CreateEntry(elems[i]))
      case Flags(_, _, _, _, _, _, _, _) => FlagChildren(n, FlagTable)
      case ModifierFlags(_, _, _) => FlagChildren(n, FlagTable)
      case _ =>
        var kids := AstChildren(n);
        seq(|kids|, i requires 0 <= i < |kids| => AstNode(kids[i]))
  }

  /** Some flag of the table is set on the node. */
  predicate SomeFlagSet(n: Node)
  {
    exists i :: 0 <= i < |FlagTable| && IsSet(n, FlagTable[i].property)
  }

  /** `hasChildren`. */
  function HasChildren(n: Node): bool
  {
    match n
    case Pattern(alts) => |alts| > 0
    case Alternative(elems) => |elems| > 0
    case CapturingGroup(_, alts) => |alts| > 0
    case CharacterClass(_, elems) => |elems| > 0
    case CharacterClassRange(_, _) => false
    case ClassIntersection(_, _) => true
    case ClassStringDisjunction(alts) => |alts| > 0
    case ClassSubtraction(_, _) => true
    case ExpressionCharacterClass(_, _) => true
    case Group(_, _) => true
    case Assertion(_) => false
    case Modifiers(_, _) => true
    case Quantifier(_, _, _, _) => true
    case StringAlternative(elems) => |elems| > 0
    case Backreference(_, _) => true
    case Character(_) => false
    case CharacterSet(_) => false
    case ModifierFlags(_, _, _) => SomeFlagSet(n)
    case RegExpLiteral(_, _) => true
    case Flags(_, _, _, _, _, _, _, _) => SomeFlagSet(n)
  }

  // ---------------------------------------------------------------------------
  // Properties

  /** The table lists d, g, i, m, s, u, v, y in that order, each with its own property. */
  lemma FlagTableShape()
    ensures |FlagTable| == 8
    ensures seq(8, i requires 0 <= i < 8 => FlagTable[i].flag) == "dgimsuvy"
    ensures forall i, j :: 0 <= i < j < 8 ==> FlagTable[i].property != FlagTable[j].property
  {
  }

  /** Flag entries have no children. */
  lemma FlagEntriesAreLeaves(f: char, d: string, p: FlagProperty)
    ensures Children(FlagEntry(f, d, p)) == []
  {
  }

  /** An Alternative with one element shows exactly that element's children. */
  lemma SingleElementAlternative(e: Node)
    ensures Children(AstNode(Alternative([e]))) == Children(AstNode(e))
  {
  }

  /** Characters, character sets, assertions and class ranges are leaves on both counts. */
  lemma LeafNodes(n: Node)
    requires n.Character? || n.CharacterSet? || n.Assertion? || n.CharacterClassRange?
    ensures !HasChildren(n) && Children(AstNode(n)) == []
  {
  }

  /** Group, Modifiers and RegExpLiteral children. */
  lemma StructuredChildren(n: Node)
    ensures n.Group? ==> AstChildren(n) == n.alternatives + (if n.modifiers.Some? then [n.modifiers.value] else [])
    ensures n.Modifiers? ==> AstChildren(n) == (if n.remove.Some? then [n.add, n.remove.value] else [n.add])
    ensures n.RegExpLiteral? ==> AstChildren(n) == [n.pattern, n.flags] && Children(AstNode(n)) == [AstNode(n.pattern), AstNode(n.flags)]
  {
  }

  /** A flags node has children exactly when some flag is set, and they are the set flags. */
  lemma FlagsChildrenAreTheSetFlags(n: Node)
    requires n.Flags? || n.ModifierFlags?
    ensures HasChildren(n) <==> |Children(AstNode(n))| > 0
    ensures forall e :: e in Children(AstNode(n)) <==> e.FlagEntry? && FlagInfo(e.flag, e.description, e.property) in FlagTable && IsSet(n, e.property)
  {
    var cs := Children(AstNode(n));
    if HasChildren(n) {
      var i :| 0 <= i < |FlagTable| && IsSet(n, FlagTable[i].property);
      var f := FlagTable[i];
      assert FlagEntry(f.flag, f.description, f.property) in cs;
    }
    if |cs| > 0 {
      var e := cs[0];
      assert e in cs;
      var k :| 0 <= k < |FlagTable| && FlagTable[k] == FlagInfo(e.flag, e.description, e.property);
      assert IsSet(n, FlagTable[k].property);
    }
  }

  /** A modifier-flags node can only show the i, m and s flags. */
  lemma ModifierFlagsShowOnlyIMS(n: Node)
    requires n.ModifierFlags?
    ensures forall e :: e in Children(AstNode(n)) ==> e.flag in "ims"
  {
    FlagsChildrenAreTheSetFlags(n);
  }

  /**
   * `hasChildren` agrees with `getChildren` for every node kind except three: an Alternative
   * whose one element is a leaf, and a Group or Backreference with nothing inside.
   */
  lemma HasChildrenAgreesWithChildren(n: Node)
    requires !n.Alternative? && !n.Group? && !n.Backreference?
    ensures HasChildren(n) <==> |Children(AstNode(n))| > 0
  {
    if n.Flags? || n.ModifierFlags? {
      FlagsChildrenAreTheSetFlags(n);
    }
  }

  /** The exception: an Alternative holding one character reports children but shows none. */
  lemma SingleLeafAlternativeDisagrees()
    ensures HasChildren(Alternative([Character(97)]))
    ensures Children(AstNode(Alternative([Character(97)]))) == []
  {
    SingleElementAlternative(Character(97));
  }

  /** Flag children keep the table's order: a concatenated table gives the concatenated children. */
  lemma {:induction false} FlagChildrenAppend(n: Node, a: seq<FlagInfo>, b: seq<FlagInfo>)
    ensures FlagChildren(n, a + b) == FlagChildren(n, a) + FlagChildren(n, b)
  {
    if a == [] {
      assert a + b == b;
    } else {
      assert (a + b)[0] == a[0];
      assert (a + b)[1..] == a[1..] + b;
      FlagChildrenAppend(n, a[1..], b);
    }
  }

  /** One table row gives its flag entry exactly when its property is set on the node. */
  lemma FlagChildrenSingle(n: Node, f: FlagInfo)
    ensures FlagChildren(n, [f]) == (if IsSet(n, f.property) then [FlagEntry(f.flag, f.description, f.property)] else [])
  {
    assert [f][1..] == [];
  }
}
