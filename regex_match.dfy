/** How a regular expression was written in the scanned source: the protocol's `RegexMatch`. */
module RegexMatches {
  import opened Wrappers
  import opened Lsp

  /** The `RegexMatchType` tag. `Unknown` has no match variant. */
  datatype RegexMatchType = Unknown | Literal | Constructor | Function | String

  /** The numbers the enum assigns: Unknown=0, Literal=1, Constructor=2, Function=3, String=4. */
  function MatchTypeCode(t: RegexMatchType): (n: nat)
    ensures n <= 4
  {
    match t
    case Unknown => 0
    case Literal => 1
    case Constructor => 2
    case Function => 3
    case String => 4
  }

  function MatchTypeFromCode(n: nat): (t: Option<RegexMatchType>)
    ensures t.Some? <==> n <= 4
  {
    if n == 0 then Some(Unknown)
    else if n == 1 then Some(Literal)
    else if n == 2 then Some(Constructor)
    else if n == 3 then Some(Function)
    else if n == 4 then Some(String)
    else None
  }

  /** The numbering is a bijection between the five tags and 0..4. */
  lemma MatchTypeCodeRoundTrip(t: RegexMatchType, n: nat)
    ensures MatchTypeFromCode(MatchTypeCode(t)) == Some(t)
    ensures n <= 4 ==> MatchTypeCode(MatchTypeFromCode(n).value) == n
  {
  }

  /**
   * The four match variants. Each carries its range and pattern; Literal,
   * Constructor and Function also carry flags, a String match has none.
   */
  datatype RegexMatch =
    | LiteralMatch(range: Range, pattern: string, flags: string)
    | ConstructorMatch(range: Range, pattern: string, flags: string)
    | FunctionMatch(range: Range, pattern: string, flags: string)
    | StringMatch(range: Range, pattern: string)

  /** The `type` field of a match. */
  function TypeOf(m: RegexMatch): (t: RegexMatchType)
    ensures t != Unknown
    ensures t == String <==> m.StringMatch?
  {
    match m
    case LiteralMatch(_, _, _) => Literal
    case ConstructorMatch(_, _, _) => Constructor
    case FunctionMatch(_, _, _) => Function
    case StringMatch(_, _) => String
  }

  /** The `flags` field, absent exactly on a String match. */
  function FlagsOf(m: RegexMatch): (f: Option<string>)
    ensures f.None? <==> TypeOf(m) == String
  {
    if m.StringMatch? then None else Some(m.flags)
  }

  /** A tag names a match variant exactly when it is not `Unknown`. */
  lemma EveryTagButUnknownHasAVariant(t: RegexMatchType)
    ensures t != Unknown <==> exists m: RegexMatch :: TypeOf(m) == t
  {
    var r := Range(Position(0, 0), Position(0, 0));
    match t
    case Unknown =>
    case Literal => assert TypeOf(LiteralMatch(r, "", "")) == t;
    case Constructor => assert TypeOf(ConstructorMatch(r, "", "")) == t;
    case Function => assert TypeOf(FunctionMatch(r, "", "")) == t;
    case String => assert TypeOf(StringMatch(r, "")) == t;
  }
}
