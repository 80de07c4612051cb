/** The parser provider: a per-language memo cache in front of `createParser`. */
module Parsers {
  import opened Wrappers

  type LanguageId = string

  /** A parser, known here only by the language it parses. */
  datatype Parser = Parser(languageId: LanguageId)

  /** The message of the TypeError `createParser` rejects with. */
  function UnsupportedMessage(languageId: LanguageId): (m: string)
    ensures |m| == |languageId| + 30
    ensures m[..13] == "language ID: " && m[|m| - 17..] == " is not supported"
    ensures m[13..|m| - 17] == languageId
  {
    "language ID: " + languageId + " is not supported"
  }

  /** `createParser`: no language is supported, so every id is rejected. */
  function CreateParser(languageId: LanguageId): (r: Result<Parser, string>)
    ensures r.Err? && r.error == UnsupportedMessage(languageId)
  {
    Err(UnsupportedMessage(languageId))
  }

  class ParserProvider {
    var cache: map<LanguageId, Parser>

    constructor()
      ensures cache == map[]
    {
      cache := map[];
    }

    /**
     * The memo logic of `get`, for a creation function `create`: a hit returns the stored
     * parser without calling it; a miss calls it and stores the parser only when it succeeds.
     */
    method GetUsing(languageId: LanguageId, create: LanguageId -> Result<Parser, string>) returns (r: Result<Parser, string>)
      modifies this
      ensures languageId in old(cache) ==> r == Ok(old(cache)[languageId]) && cache == old(cache)
      ensures languageId !in old(cache) ==> r == create(languageId)
      ensures languageId !in old(cache) && r.Ok? ==> cache == old(cache)[languageId := r.value]
      ensures languageId !in old(cache) && r.Err? ==> cache == old(cache)
    {
      if languageId in cache {
        return Ok(cache[languageId]);
      }
      r := create(languageId);
      if r.Ok? {
        cache := cache[languageId := r.value];
      }
    }

    /** `get` with the provider's own `createParser`: a miss always fails and leaves the cache as it was. */
    method Get(languageId: LanguageId) returns (r: Result<Parser, string>)
      modifies this
      ensures languageId in old(cache) ==> r == Ok(old(cache)[languageId]) && cache == old(cache)
      ensures languageId !in old(cache) ==> r == Err(UnsupportedMessage(languageId)) && cache == old(cache)
      ensures old(cache) == map[] ==> r.Err? && cache == map[]
    {
      r := GetUsing(languageId, CreateParser);
    }
  }

  /** Distinct language ids are rejected with distinct messages. */
  lemma UnsupportedMessageInjective(a: LanguageId, b: LanguageId)
    requires UnsupportedMessage(a) == UnsupportedMessage(b)
    ensures a == b
  {
    var m := UnsupportedMessage(a);
    assert a == m[13..|m| - 17];
  }
}
