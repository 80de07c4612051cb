/**
 * The VS Code client: the output-channel adapter that turns the language server's
 * `[Level - time] message` lines into leveled log calls, and the language-client
 * singleton.
 */
module ClientLog {
  import opened Wrappers

  /** VS Code's `LogLevel`. */
  datatype LogLevel = Off | Trace | Debug | Info | Warning | Error

  /** `String.prototype.indexOf` for one character: the first index, or -1. */
  function IndexOf(s: string, c: char): (i: int)
    ensures -1 <= i < |s|
    ensures i == -1 <==> c !in s
    ensures i >= 0 ==> s[i] == c && c !in s[..i]
  {
    if s == [] then -1
    else if s[0] == c then 0
    else
      var r := IndexOf(s[1..], c);
      assert s[1..][..(if r >= 0 then r else 0)] == s[1..(if r >= 0 then r + 1 else 1)];
      if r == -1 then -1 else r + 1
  }

  /** A JavaScript slice index: negative counts from the end, both clamped to the string. */
  function SliceIndex(len: nat, k: int): (i: nat)
    ensures i <= len
    ensures 0 <= k <= len ==> i == k
  {
    if k < 0 then (if len + k < 0 then 0 else len + k) else if k > len then len else k
  }

  /** `String.prototype.slice(start, end)`. */
  function Slice(s: string, start: int, end: int): (t: string)
    ensures 0 <= start <= end <= |s| ==> t == s[start..end]
  {
    var a, b := SliceIndex(|s|, start), SliceIndex(|s|, end);
    if a < b then s[a..b] else ""
  }

  /** What `extractLogLevelAndMessage` returns, and the level it remembers afterwards. */
  datatype Extracted = Extracted(level: LogLevel, message: string, remembered: LogLevel)

  /**
   * `extractLogLevelAndMessage`. `levelNamed` is the `LogLevel[name]` lookup. A header
   * line sets and remembers its level; any other line takes the remembered level, which
   * then resets to Off.
   */
  function Extract(remembered: LogLevel, value: string, levelNamed: string -> Option<LogLevel>): (r: Extracted)
    ensures |value| > 0 && value[0] == '[' ==> r.level == r.remembered
    ensures !(|value| > 0 && value[0] == '[') ==>
      r == Extracted(remembered, value, Off)
    ensures |value| > 0 && value[0] == '[' && ' ' in value ==>
      var name := value[1..IndexOf(value, ' ')];
      r.level == (if levelNamed(name).Some? then levelNamed(name).value else Off)
    ensures |value| > 0 && value[0] == '[' && ']' in value && IndexOf(value, ']') + 2 <= |value| ==>
      r.message == value[IndexOf(value, ']') + 2..]
  {
    if |value| > 0 && value[0] == '[' then
      var end := IndexOf(value, ' ');
      var named := levelNamed(Slice(value, 1, end));
      var level := if named.Some? then named.value else Off;
      Extracted(level, Slice(value, IndexOf(value, ']') + 2, |value|), level)
    else
      Extracted(remembered, value, Off)
  }

  /** JavaScript white space and line terminators, as `trimEnd` removes them. */
  predicate IsWhiteSpace(c: char)
  {
    || c in {' ', '\t', '\n', '\r', '\U{000B}', '\U{000C}', '\U{00A0}', '\U{1680}', '\U{2028}', '\U{2029}'}
    || c in {'\U{202F}', '\U{205F}', '\U{3000}', '\U{FEFF}'}
    || ('\U{2000}' <= c <= '\U{200A}')
  }

  /** `String.prototype.trimEnd`. */
  function TrimEnd(s: string): (t: string)
    ensures t <= s
    ensures t == [] || !IsWhiteSpace(t[|t| - 1])
    ensures forall i :: |t| <= i < |s| ==> IsWhiteSpace(s[i])
  {
    if s == [] then s
    else if IsWhiteSpace(s[|s| - 1]) then TrimEnd(s[..|s| - 1])
    else s
  }

  /** The adapter: the level remembered between lines and the leveled calls made so far. */
  class OutputChannelAdapter {
    var lastLogLevel: LogLevel
    var logged: seq<(LogLevel, string)>

    constructor()
      ensures lastLogLevel == Off && logged == []
    {
      lastLogLevel := Off;
      logged := [];
    }

    /** `logMessage`: one call on the channel for every level but Off. */
    method LogMessage(level: LogLevel, message: string)
      modifies this
      ensures lastLogLevel == old(lastLogLevel)
      ensures logged == old(logged) + (if level == Off then [] else [(level, message)])
    {
      match level {
        case Off =>
        case _ => logged := logged + [(level, message)];
      }
    }

    /** `appendLine`. */
    method AppendLine(value: string, levelNamed: string -> Option<LogLevel>)
      modifies this
      ensures var r := Extract(old(lastLogLevel), value, levelNamed);
        && lastLogLevel == r.remembered
        && logged == old(logged) + (if r.level == Off then [] else [(r.level, r.message)])
    {
      var r := Extract(lastLogLevel, value, levelNamed);
      lastLogLevel := r.remembered;
      LogMessage(r.level, r.message);
    }

    /** `append`: the value without trailing white space, as one line. */
    method Append(value: string, levelNamed: string -> Option<LogLevel>)
      modifies this
      ensures var r := Extract(old(lastLogLevel), TrimEnd(value), levelNamed);
        && lastLogLevel == r.remembered
        && logged == old(logged) + (if r.level == Off then [] else [(r.level, r.message)])
    {
      AppendLine(TrimEnd(value), levelNamed);
    }
  }

  /**
   * After a header line, exactly one continuation line inherits its level: the next one
   * is logged at Off, that is, not at all.
   */
  lemma OneContinuationLineInherits(remembered: LogLevel, header: string, a: string, b: string, levelNamed: string -> Option<LogLevel>)
    requires |header| > 0 && header[0] == '['
    requires !(|a| > 0 && a[0] == '[') && !(|b| > 0 && b[0] == '[')
    ensures var h := Extract(remembered, header, levelNamed);
      var x := Extract(h.remembered, a, levelNamed);
      var y := Extract(x.remembered, b, levelNamed);
      x.level == h.level && x.message == a && y.level == Off
  {
  }

  /** The first occurrence is the one with no earlier occurrence. */
  lemma IndexOfIsFirst(s: string, c: char, i: nat)
    requires i < |s| && s[i] == c && c !in s[..i]
    ensures IndexOf(s, c) == i
  {
  }

  /**
   * A server line `[<name> <stamp>] <message>`, with no space or `]` in the name and no
   * `]` in the stamp, is logged at the level named, with the message after `] `.
   */
  lemma ServerLineFormat(remembered: LogLevel, name: string, stamp: string, message: string, levelNamed: string -> Option<LogLevel>)
    requires ' ' !in name && ']' !in name && ']' !in stamp
    ensures var value := "[" + name + " " + stamp + "] " + message;
      var level := if levelNamed(name).Some? then levelNamed(name).value else Off;
      Extract(remembered, value, levelNamed) == Extracted(level, message, level)
  {
    var value := "[" + name + " " + stamp + "] " + message;
    var sp := 1 + |name|;
    var br := sp + 1 + |stamp|;
    assert value[..sp] == "[" + name;
    IndexOfIsFirst(value, ' ', sp);
    assert value[..br] == "[" + name + " " + stamp;
    IndexOfIsFirst(value, ']', br);
    assert value[1..sp] == name;
    assert value[br + 2..] == message;
  }

  /** The module-level `client` slot of `registerLanguageClient`; clients are numbered. */
  class ClientRegistry {
    var client: Option<nat>
    var created: nat

    constructor()
      ensures client == None && created == 0
    {
      client := None;
      created := 0;
    }

    /** `registerLanguageClient`: the existing client, or a newly created one that is kept. */
    method Register() returns (c: nat)
      modifies this
      ensures old(client).Some? ==> c == old(client).value && client == old(client) && created == old(created)
      ensures old(client).None? ==> c == old(created) && client == Some(c) && created == old(created) + 1
    {
      if client.Some? {
        return client.value;
      }
      c := created;
      created := created + 1;
      client := Some(c);
    }
  }

  /** Registering twice yields one client. */
  method RegisterTwice() returns (first: nat, second: nat)
    ensures first == second == 0
  {
    var registry := new ClientRegistry();
    first := registry.Register();
    second := registry.Register();
  }
}
