/**
 * The lifecycle handler: fans the `initialize`, `initialized`, `shutdown` and `exit`
 * events out to their handlers, merging the capabilities the `initialize` handlers
 * return and isolating every handler's failure.
 */
module Lifecycle {
  import opened Wrappers
  import opened Json

  /** A server-capabilities object, by its top-level keys. */
  type Capabilities = map<string, Value>

  /** What an `onInitialize` handler does: returns capabilities, returns nothing, or throws. */
  datatype InitializeOutcome = Returns(capabilities: Capabilities) | ReturnsNothing | Throws(thrown: Thrown)

  /** A thrown value, as `logError` distinguishes them. */
  datatype Thrown = ErrorObject(text: string) | Printable(text: string) | Unprintable

  /** What an `initialized`, `shutdown` or `exit` handler does. */
  datatype HookOutcome = Completes | Fails(thrown: Thrown)

  datatype ServerInfo = ServerInfo(name: string, version: string)

  datatype InitializeResult = InitializeResult(capabilities: Capabilities, serverInfo: ServerInfo)

  /** What replaces a throwing handler's result: an object with one key, `capabilities`. */
  const ThrownReplacement: Capabilities := map["capabilities" := EmptyObject]

  /** The line `logError` writes to the console for a failure in `event`. */
  function LogLine(event: string, t: Thrown): (line: string)
    ensures ("error occured in lifecycle event: " + event + " - ") <= line
  {
    var prefix := "error occured in lifecycle event: " + event + " - ";
    match t
    case ErrorObject(text) => prefix + "'" + text + "'"
    case Printable(text) => prefix + "caught thrown value: " + text
    case Unprintable => prefix + "thrown value has no string representation"
  }

  /** The `map` then `filter`: each handler's capabilities, a thrower's replacement, nothing for a void result. */
  function Results(outcomes: seq<InitializeOutcome>): (rs: seq<Capabilities>)
    ensures |rs| <= |outcomes|
    ensures forall r :: r in rs ==> r == ThrownReplacement || Returns(r) in outcomes
  {
    if outcomes == [] then []
    else
      var rest := Results(outcomes[1..]);
      match outcomes[0]
      case Returns(c) => [c] + rest
      case ReturnsNothing => rest
      case Throws(_) => [ThrownReplacement] + rest
  }

  /** The log lines of the failures among `outcomes`, in handler order. */
  function InitializeLog(outcomes: seq<InitializeOutcome>): (log: seq<string>)
    ensures |log| <= |outcomes|
  {
    if outcomes == [] then []
    else (if outcomes[0].Throws? then [LogLine("onInitialize", outcomes[0].thrown)] else []) + InitializeLog(outcomes[1..])
  }

  /** The `reduce` with `Object.assign`: a left-to-right shallow merge, later keys overriding earlier ones. */
  function Merge(target: Capabilities, rs: seq<Capabilities>): (m: Capabilities)
    decreases |rs|
    ensures target.Keys <= m.Keys
  {
    if rs == [] then target else Merge(target + rs[0], rs[1..])
  }

  /** The log lines of the failing hooks of `event`, in handler order; completing hooks add none. */
  function HookLog(event: string, hooks: seq<HookOutcome>): (log: seq<string>)
    ensures |log| <= |hooks|
  {
    if hooks == [] then []
    else (if hooks[0].Fails? then [LogLine(event, hooks[0].thrown)] else []) + HookLog(event, hooks[1..])
  }

  class LifecycleHandler {
    /** The module-level `defaultCapabilities` object, which every merge writes into. */
    var defaultCapabilities: Capabilities
    /** The lines written to the console. */
    var log: seq<string>

    constructor()
      ensures defaultCapabilities == map[] && log == []
    {
      defaultCapabilities := map[];
      log := [];
    }

    /** The `initialize` request: merge the handlers' capabilities into the shared object and answer with it. */
    method OnInitialize(outcomes: seq<InitializeOutcome>, info: ServerInfo) returns (r: InitializeResult)
      modifies this
      ensures defaultCapabilities == Merge(old(defaultCapabilities), Results(outcomes))
      ensures r == InitializeResult(defaultCapabilities, info)
      ensures log == old(log) + InitializeLog(outcomes)
    {
      log := log + InitializeLog(outcomes);
      defaultCapabilities := Merge(defaultCapabilities, Results(outcomes));
      r := InitializeResult(defaultCapabilities, info);
    }

    /** The `initialized`, `shutdown` and `exit` notifications: every handler runs; each failure is logged. */
    method OnHookEvent(event: string, hooks: seq<HookOutcome>) returns (invoked: nat)
      modifies this
      ensures invoked == |hooks|
      ensures log == old(log) + HookLog(event, hooks)
      ensures defaultCapabilities == old(defaultCapabilities)
    {
      invoked := 0;
      var i := 0;
      while i < |hooks|
        invariant 0 <= i <= |hooks| && invoked == i
        invariant log == old(log) + HookLog(event, hooks[..i])
        invariant defaultCapabilities == old(defaultCapabilities)
      {
        HookLogAppend(event, hooks[..i], [hooks[i]]);
        assert hooks[..i + 1] == hooks[..i] + [hooks[i]];
        if hooks[i].Fails? {
          log := log + [LogLine(event, hooks[i].thrown)];
        }
        invoked := invoked + 1;
        i := i + 1;
      }
      assert hooks[..i] == hooks;
    }
  }

  // ---------------------------------------------------------------------------
  // Properties of the merge and the isolation

  /** Merging in two rounds is merging once with both rounds' results: the shared object persists. */
  lemma {:induction false} MergeTwice(target: Capabilities, first: seq<Capabilities>, second: seq<Capabilities>)
    ensures Merge(Merge(target, first), second) == Merge(target, first + second)
    decreases |first|
  {
    if first != [] {
      assert (first + second)[0] == first[0];
      assert (first + second)[1..] == first[1..] + second;
      MergeTwice(target + first[0], first[1..], second);
    } else {
      assert first + second == second;
    }
  }

  /** The merged object has exactly the keys of the target and of every result. */
  lemma {:induction false} MergeKeys(target: Capabilities, rs: seq<Capabilities>)
    ensures forall k :: k in Merge(target, rs) <==> k in target || exists i :: 0 <= i < |rs| && k in rs[i]

    decreases |rs|
  {
    if rs != [] {
      MergeKeys(target + rs[0], rs[1..]);
      forall k ensures k in Merge(target, rs) <==> k in target || exists i :: 0 <= i < |rs| && k in rs[i]
      {
        if k in Merge(target, rs) && k !in target && k !in rs[0] {
          assert k !in target + rs[0];
          assert k in Merge(target + rs[0], rs[1..]);
          var i :| 0 <= i < |rs[1..]| && k in rs[1..][i];
          assert k in rs[i + 1];
        }
        if exists i :: 0 <= i < |rs| && k in rs[i] {
          var i :| 0 <= i < |rs| && k in rs[i];
          if i > 0 {
            assert k in rs[1..][i - 1];
          }
        }
      }
    }
  }

  /** The value of a key is the one the last result that has it gives, else the target's. */
  lemma {:induction false} MergeLastWins(target: Capabilities, rs: seq<Capabilities>, k: string, i: nat)
    requires i < |rs| && k in rs[i]
    requires forall j :: i < j < |rs| ==> k !in rs[j]
    ensures k in Merge(target, rs) && Merge(target, rs)[k] == rs[i][k]

    decreases |rs|
  {
    if i == 0 {
      MergeKeeps(target + rs[0], rs[1..], k);
    } else {
      MergeLastWins(target + rs[0], rs[1..], k, i - 1);
    }
  }

  /** A key no result has keeps the target's value. */
  lemma {:induction false} MergeKeeps(target: Capabilities, rs: seq<Capabilities>, k: string)
    requires k in target
    requires forall j :: 0 <= j < |rs| ==> k !in rs[j]
    ensures k in Merge(target, rs) && Merge(target, rs)[k] == target[k]

    decreases |rs|
  {
    if rs != [] {
      MergeKeeps(target + rs[0], rs[1..], k);
    }
  }

  /** The results keep the handlers' order: a concatenation of outcomes gives the concatenated results. */
  lemma {:induction false} ResultsAppend(a: seq<InitializeOutcome>, b: seq<InitializeOutcome>)
    ensures Results(a + b) == Results(a) + Results(b)
  {
    if a == [] {
      assert a + b == b;
    } else {
      assert (a + b)[0] == a[0];
      assert (a + b)[1..] == a[1..] + b;
      ResultsAppend(a[1..], b);
    }
  }

  /** One handler's result: its capabilities when it returns some, none for a void result, the replacement for a throw. */
  lemma ResultsSingle(o: InitializeOutcome)
    ensures o.Returns? ==> Results([o]) == [o.capabilities]
    ensures o.ReturnsNothing? ==> Results([o]) == []
    ensures o.Throws? ==> Results([o]) == [ThrownReplacement]
  {
    assert [o][1..] == [];
  }

  /**
   * A throwing `onInitialize` handler contributes `{ capabilities: {} }` at its own position,
   * so the merged object always has the key `capabilities`.
   */
  lemma ThrowingInitializeAddsCapabilitiesKey(target: Capabilities, before: seq<InitializeOutcome>, t: Thrown, after: seq<InitializeOutcome>)
    ensures Results(before + [Throws(t)] + after) == Results(before) + [ThrownReplacement] + Results(after)
    ensures "capabilities" in Merge(target, Results(before + [Throws(t)] + after))
  {
    ResultsAppend(before + [Throws(t)], after);
    ResultsAppend(before, [Throws(t)]);
    ResultsSingle(Throws(t));
    var rs := Results(before) + [ThrownReplacement] + Results(after);
    assert rs[|Results(before)|] == ThrownReplacement;
    MergeKeys(target, rs);
  }

  /** A handler that returns nothing is dropped wherever it stands: the results are those of the others. */
  lemma VoidResultsDropped(before: seq<InitializeOutcome>, after: seq<InitializeOutcome>)
    ensures Results(before + [ReturnsNothing] + after) == Results(before + after)
  {
    ResultsAppend(before + [ReturnsNothing], after);
    ResultsAppend(before, [ReturnsNothing]);
    ResultsAppend(before, after);
    ResultsSingle(ReturnsNothing);
  }

  /** Whether a handler's outcome puts the key `k` into the merge. */
  predicate Sets(o: InitializeOutcome, k: string)
  {
    match o
    case Returns(c) => k in c
    case ReturnsNothing => false
    case Throws(_) => k in ThrownReplacement
  }

  /** No result of outcomes that do not set `k` has the key `k`. */
  lemma {:induction false} ResultsWithoutKey(os: seq<InitializeOutcome>, k: string)
    requires forall j :: 0 <= j < |os| ==> !Sets(os[j], k)
    ensures forall j :: 0 <= j < |Results(os)| ==> k !in Results(os)[j]
  {
    if os != [] {
      ResultsWithoutKey(os[1..], k);
      ResultsAppend([os[0]], os[1..]);
      assert [os[0]] + os[1..] == os;
      ResultsSingle(os[0]);
    }
  }

  /**
   * Later handlers override earlier ones key by key: a top-level key takes the value the last
   * handler returning it gives, when no later handler sets that key.
   */
  lemma LastReturningHandlerWins(target: Capabilities, os: seq<InitializeOutcome>, i: nat, k: string)
    requires i < |os| && os[i].Returns? && k in os[i].capabilities
    requires forall j :: i < j < |os| ==> !Sets(os[j], k)
    ensures k in Merge(target, Results(os)) && Merge(target, Results(os))[k] == os[i].capabilities[k]
  {
    var before, after := os[..i], os[i + 1..];
    assert os == before + [os[i]] + after;
    ResultsAppend(before + [os[i]], after);
    ResultsAppend(before, [os[i]]);
    ResultsSingle(os[i]);
    var rs := Results(before) + [os[i].capabilities] + Results(after);
    assert Results(os) == rs;
    ResultsWithoutKey(after, k);
    var n := |Results(before)|;
    assert rs[n] == os[i].capabilities;
    assert forall j :: n < j < |rs| ==> rs[j] == Results(after)[j - n - 1];
    MergeLastWins(target, rs, k, n);
  }

  lemma {:induction false} HookLogAppend(event: string, a: seq<HookOutcome>, b: seq<HookOutcome>)
    ensures HookLog(event, a + b) == HookLog(event, a) + HookLog(event, b)
  {
    if a == [] {
      assert a + b == b;
    } else {
      assert (a + b)[0] == a[0];
      assert (a + b)[1..] == a[1..] + b;
      HookLogAppend(event, a[1..], b);
    }
  }

  /** The initialize log follows handler order: logging a concatenation concatenates the logs. */
  lemma {:induction false} InitializeLogAppend(a: seq<InitializeOutcome>, b: seq<InitializeOutcome>)
    ensures InitializeLog(a + b) == InitializeLog(a) + InitializeLog(b)
  {
    if a == [] {
      assert a + b == b;
    } else {
      assert (a + b)[0] == a[0];
      assert (a + b)[1..] == a[1..] + b;
      InitializeLogAppend(a[1..], b);
    }
  }

  /** A throwing `onInitialize` handler logs exactly one line; a returning one logs nothing. */
  lemma InitializeLogSingle(o: InitializeOutcome)
    ensures o.Throws? ==> InitializeLog([o]) == [LogLine("onInitialize", o.thrown)]
    ensures !o.Throws? ==> InitializeLog([o]) == []
  {
    assert [o][1..] == [];
  }

  /**
   * A throwing `onInitialize` handler adds its one log line between the lines of the
   * handlers around it, which log as if it were absent.
   */
  lemma ThrowingInitializeIsLogged(before: seq<InitializeOutcome>, t: Thrown, after: seq<InitializeOutcome>)
    ensures InitializeLog(before + [Throws(t)] + after)
      == InitializeLog(before) + [LogLine("onInitialize", t)] + InitializeLog(after)
  {
    InitializeLogAppend(before + [Throws(t)], after);
    InitializeLogAppend(before, [Throws(t)]);
    InitializeLogSingle(Throws(t));
  }

  /** A failing hook adds one log line and nothing else: the hooks around it log as if it were absent. */
  lemma FailureIsIsolated(event: string, before: seq<HookOutcome>, t: Thrown, after: seq<HookOutcome>)
    ensures HookLog(event, before + [Fails(t)] + after) == HookLog(event, before) + [LogLine(event, t)] + HookLog(event, after)
  {
    HookLogAppend(event, before + [Fails(t)], after);
    HookLogAppend(event, before, [Fails(t)]);
    assert [Fails(t)][1..] == [];
  }
}
