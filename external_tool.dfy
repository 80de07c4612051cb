/**
 * The "open in RegExr" and "open in regex101" commands: the web address each builds
 * for a regular expression, with the pattern and flags in the query string.
 */
module ExternalTool {
  import opened Wrappers
  import RegexMatches
  import Discovery

  /** A string record in insertion order, as `Object.entries` lists it. */
  type Record = seq<(string, string)>

  /** `record[key] = value`: an existing key keeps its place, a new key goes last. */
  function Put(r: Record, key: string, value: string): (r': Record)
    ensures |r'| == |r| || |r'| == |r| + 1
    ensures (exists i :: 0 <= i < |r| && r[i].0 == key) ==> |r'| == |r|
    ensures forall i :: 0 <= i < |r| && r[i].0 != key ==> r'[i] == r[i]
    ensures (key, value) in r'
  {
    if r == [] then [(key, value)]
    else if r[0].0 == key then [(key, value)] + r[1..]
    else [r[0]] + Put(r[1..], key, value)
  }

  /** One `key=encoded&` step of the `reduce`. */
  function Pair(p: (string, string), encode: string -> string): string
  {
    p.0 + "=" + encode(p.1)
  }

  /** The `reduce`: every pair followed by `&`. */
  function Concatenated(params: Record, encode: string -> string): (s: string)
    ensures params == [] <==> s == []
  {
    if params == [] then "" else Pair(params[0], encode) + "&" + Concatenated(params[1..], encode)
  }

  /** `buildQuery`: the concatenation without its last character (`slice(0, -1)`). */
  function BuildQuery(params: Record, encode: string -> string): (q: string)
    ensures params == [] ==> q == ""
  {
    var s := Concatenated(params, encode);
    if s == [] then s else s[..|s| - 1]
  }

  /** Independent reference: the pairs joined by `&`. */
  function Joined(params: Record, encode: string -> string): string
  {
    if params == [] then ""
    else if |params| == 1 then Pair(params[0], encode)
    else Pair(params[0], encode) + "&" + Joined(params[1..], encode)
  }

  lemma {:induction false} ConcatenatedIsJoinedWithAmpersand(params: Record, encode: string -> string)
    requires params != []
    ensures Concatenated(params, encode) == Joined(params, encode) + "&"
    decreases |params|
  {
    if |params| > 1 {
      ConcatenatedIsJoinedWithAmpersand(params[1..], encode);
    }
  }

  /** The query is `k1=enc(v1)&...&kn=enc(vn)` in insertion order, without a trailing `&`. */
  lemma BuildQueryJoinsPairs(params: Record, encode: string -> string)
    ensures BuildQuery(params, encode) == Joined(params, encode)
  {
    if params != [] {
      ConcatenatedIsJoinedWithAmpersand(params, encode);
      var j := Joined(params, encode);
      assert (j + "&")[..|j + "&"| - 1] == j;
    }
  }

  /** `createParams`: the pattern under the given key, then `flags` when the match has them. */
  function CreateParams(entry: Discovery.RegexEntry, expressionKey: string): (r: Record)
    ensures RegexMatches.FlagsOf(entry.regexMatch).None? ==> r == [(expressionKey, entry.regexMatch.pattern)]
    ensures expressionKey != "flags" && RegexMatches.FlagsOf(entry.regexMatch).Some? ==>
      r == [(expressionKey, entry.regexMatch.pattern), ("flags", entry.regexMatch.flags)]
  {
    var r := [(expressionKey, entry.regexMatch.pattern)];
    var flags := RegexMatches.FlagsOf(entry.regexMatch);
    if flags.Some? then Put(r, "flags", flags.value) else r
  }

  /** The components passed to `Uri.from`. */
  datatype UriComponents = UriComponents(scheme: string, authority: string, path: string, query: string)

  function CreateRegExrUri(entry: Discovery.RegexEntry, encode: string -> string): (u: UriComponents)
    ensures u.scheme == "https" && u.authority == "regexr.com" && u.path == "/"
    ensures u.query == Joined(CreateParams(entry, "expression"), encode)
  {
    BuildQueryJoinsPairs(CreateParams(entry, "expression"), encode);
    UriComponents("https", "regexr.com", "/", BuildQuery(CreateParams(entry, "expression"), encode))
  }

  function CreateRegex101Uri(entry: Discovery.RegexEntry, encode: string -> string): (u: UriComponents)
    ensures u.scheme == "https" && u.authority == "regex101.com" && u.path == "/"
    ensures u.query == Joined(CreateParams(entry, "regex"), encode)
  {
    BuildQueryJoinsPairs(CreateParams(entry, "regex"), encode);
    UriComponents("https", "regex101.com", "/", BuildQuery(CreateParams(entry, "regex"), encode))
  }

  /** A literal `/p/f` opens regex101 at `regex=enc(p)&flags=enc(f)`. */
  lemma Regex101QueryOfLiteral(entry: Discovery.RegexEntry, encode: string -> string)
    requires entry.regexMatch.LiteralMatch?
    ensures CreateRegex101Uri(entry, encode).query
      == "regex=" + encode(entry.regexMatch.pattern) + "&flags=" + encode(entry.regexMatch.flags)
  {
    var r := CreateParams(entry, "regex");
    assert r == [("regex", entry.regexMatch.pattern), ("flags", entry.regexMatch.flags)];
    assert r[1..] == [("flags", entry.regexMatch.flags)];
    var a, b := encode(entry.regexMatch.pattern), encode(entry.regexMatch.flags);
    assert Joined(r, encode) == ("regex" + "=" + a) + "&" + ("flags" + "=" + b);
    assert ("regex" + "=" + a) + "&" + ("flags" + "=" + b) == "regex=" + a + "&flags=" + b;
  }

  /** A string match carries no flags, so RegExr gets the expression alone. */
  lemma RegExrQueryOfString(entry: Discovery.RegexEntry, encode: string -> string)
    requires entry.regexMatch.StringMatch?
    ensures CreateRegExrUri(entry, encode).query == "expression=" + encode(entry.regexMatch.pattern)
  {
  }
}
