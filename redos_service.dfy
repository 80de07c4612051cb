/**
 * The ReDoS check service: a cache of checker results keyed by `/pattern/flags`, in front
 * of a checker function that is created lazily, once. The checker itself runs elsewhere;
 * a miss hands back what it will be asked, and `CompleteCheck` stores what it answered.
 */
module RedosService {
  import opened Wrappers
  import RegexMatches

  /** The check parameters: a pattern and, except for String matches, flags. */
  datatype CheckParam = CheckParam(pattern: string, flags: Option<string>)

  /** The parameters the diagnostics handler passes for a discovered match. */
  function ParamOf(m: RegexMatches.RegexMatch): (p: CheckParam)
    ensures p.pattern == m.pattern && p.flags == RegexMatches.FlagsOf(m)
  {
    CheckParam(m.pattern, RegexMatches.FlagsOf(m))
  }

  /** How a template literal renders an optional string: an absent value prints as `undefined`. */
  function Interpolate(s: Option<string>): string
  {
    match s
    case Some(v) => v
    case None => "undefined"
  }

  /** The cache key, built from the raw flags value. */
  function Key(p: CheckParam): (k: string)
    ensures |k| == |p.pattern| + 2 + |Interpolate(p.flags)|
    ensures k[0] == '/' && k[|p.pattern| + 1] == '/'
    ensures k[1..|p.pattern| + 1] == p.pattern && k[|p.pattern| + 2..] == Interpolate(p.flags)
  {
    "/" + p.pattern + "/" + Interpolate(p.flags)
  }

  /**
   * The result of `check`: the cached result on a hit, or on a miss the pending check
   * (the pattern and flags argument the checker receives, and the key its answer goes to).
   */
  datatype CheckResult<D> = SyncResult(diagnostics: D) | Pending(pattern: string, flagsArgument: string, key: string)

  class RedosCheckService<D> {
    var cache: map<string, D>
    /** Whether the checker function has been created (the `checkFn` field is set). */
    var checkFnCreated: bool
    /** How many times the checker function has been created. */
    ghost var creations: nat

    ghost predicate Valid()
      reads this
    {
      creations == (if checkFnCreated then 1 else 0)
    }

    constructor()
      ensures Valid()
      ensures cache == map[] && !checkFnCreated
    {
      cache := map[];
      checkFnCreated := false;
      creations := 0;
    }

    /** The lazy `getCheck`: creates the checker function the first time only. */
    method GetCheck()
      requires Valid()
      modifies this
      ensures Valid() && checkFnCreated
      ensures cache == old(cache)
      ensures old(checkFnCreated) ==> creations == old(creations)
    {
      if !checkFnCreated {
        checkFnCreated := true;
        creations := creations + 1;
      }
    }

    /** `check`: a hit answers from the cache; a miss starts a check without touching the cache. */
    method Check(p: CheckParam) returns (r: CheckResult<D>)
      requires Valid()
      modifies this
      ensures Valid()
      ensures cache == old(cache)
      ensures Key(p) in cache ==> r == SyncResult(cache[Key(p)]) && checkFnCreated == old(checkFnCreated)
      ensures Key(p) !in cache ==> r == Pending(p.pattern, if p.flags.Some? then p.flags.value else "", Key(p))
      ensures Key(p) !in cache ==> checkFnCreated
      ensures creations <= 1
    {
      var key := Key(p);
      if key in cache {
        r := SyncResult(cache[key]);
      } else {
        GetCheck();
        var flagsArgument := if p.flags.Some? then p.flags.value else "";
        r := Pending(p.pattern, flagsArgument, key);
      }
    }

    /** The continuation of a pending check: its result is stored under the key. */
    method CompleteCheck(r: CheckResult<D>, result: D)
      requires r.Pending?
      modifies this
      ensures cache == old(cache)[r.key := result]
      ensures checkFnCreated == old(checkFnCreated) && creations == old(creations)
    {
      cache := cache[r.key := result];
    }
  }

  /** Once a miss has completed, the same check is a hit with the stored result; no entry was lost. */
  method CheckAfterCompletion<D>(s: RedosCheckService<D>, p: CheckParam, result: D) returns (r: CheckResult<D>)
    requires s.Valid()
    modifies s
    ensures old(s.cache).Keys <= s.cache.Keys
    ensures Key(p) !in old(s.cache) ==> r == SyncResult(result)
    ensures Key(p) in old(s.cache) ==> r == SyncResult(old(s.cache)[Key(p)])
  {
    var first := s.Check(p);
    if first.Pending? {
      s.CompleteCheck(first, result);
    }
    r := s.Check(p);
  }

  /** Absent flags and the literal flags string `undefined` share a cache entry. */
  lemma AbsentFlagsCollideWithUndefined(pattern: string)
    ensures Key(CheckParam(pattern, None)) == Key(CheckParam(pattern, Some("undefined")))
  {
  }

  /** With flags free of `/`, the key determines the pattern and the flags. */
  lemma KeyInjective(p: CheckParam, q: CheckParam)
    requires p.flags.Some? && q.flags.Some?
    requires '/' !in p.flags.value && '/' !in q.flags.value
    requires Key(p) == Key(q)
    ensures p == q
  {
  }
}
