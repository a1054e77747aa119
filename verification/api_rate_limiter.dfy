/**
 * The API rate limiter (src/api/apiRateLimiter.ts): the options handed to
 * the limiter and the predicate deciding which requests it does not count.
 */
module ApiRateLimiter {

  /** The parts of an HTTP request the predicate reads. */
  datatype Request = Request(httpMethod: string, originalUrl: string)

  /** `{ max, windowMs, message }` as given by the caller. */
  datatype LimiterOptions = LimiterOptions(max: int, windowMs: int, message: string)

  /** The configuration `RateLimit` is built from: the caller's options and the skip predicate. */
  datatype RateLimit = RateLimit(max: int, windowMs: int, message: string, skip: Request -> bool)

  const Preflight := "OPTIONS"
  const ImportSuffix := "/import"
  const AutocompleteSuffix := "/autocomplete"

  /** `s.endsWith(suffix)`. */
  predicate EndsWith(s: string, suffix: string) {
    |suffix| <= |s| && s[|s| - |suffix|..] == suffix
  }

  /**
   * `skip(req)`: preflight requests, and URLs ending in an import or
   * autocomplete route, are not counted: exactly the preflights and the URLs
   * made of some text followed by one of the two routes.
   */
  predicate Skip(req: Request): (skipped: bool)
    ensures skipped <==>
      req.httpMethod == Preflight ||
      (exists prefix :: req.originalUrl == prefix + ImportSuffix) ||
      (exists prefix :: req.originalUrl == prefix + AutocompleteSuffix)
  {
    EndsWithIsSuffix(req.originalUrl, ImportSuffix);
    EndsWithIsSuffix(req.originalUrl, AutocompleteSuffix);
    if req.httpMethod == Preflight then true
    else if EndsWith(req.originalUrl, ImportSuffix) || EndsWith(req.originalUrl, AutocompleteSuffix) then true
    else false
  }

  /** `createRateLimiter(options)`: the options are handed on unchanged, with `Skip` as the predicate. */
  function CreateRateLimiter(options: LimiterOptions): (limiter: RateLimit)
    ensures limiter.max == options.max && limiter.windowMs == options.windowMs && limiter.message == options.message
    ensures forall req :: limiter.skip(req) == Skip(req)
  {
    RateLimit(options.max, options.windowMs, options.message, Skip)
  }

  // ---------------------------------------------------------------------
  // Properties
  // ---------------------------------------------------------------------

  /** `endsWith` holds exactly when the text is some prefix followed by the suffix. */
  lemma EndsWithIsSuffix(s: string, suffix: string)
    ensures EndsWith(s, suffix) <==> exists prefix :: s == prefix + suffix
  {
    if EndsWith(s, suffix) {
      assert s == s[..|s| - |suffix|] + suffix;
    }
    if exists prefix :: s == prefix + suffix {
      var prefix :| s == prefix + suffix;
      assert s[|s| - |suffix|..] == suffix;
    }
  }

  /** A suffix without the character `c` ends a text holding `c` only when it ends what follows `c`. */
  lemma EndsWithPastSeparator(head: string, c: char, tail: string, suffix: string)
    requires c !in suffix
    ensures EndsWith(head + [c] + tail, suffix) == EndsWith(tail, suffix)
  {
    var s := head + [c] + tail;
    if |suffix| <= |tail| {
      assert s[|s| - |suffix|..] == tail[|tail| - |suffix|..];
    } else if |suffix| <= |s| {
      var j := |suffix| - |tail| - 1;
      assert s[|s| - |suffix|..][j] == c;
      assert suffix[j] in suffix;
      assert s[|s| - |suffix|..] != suffix;
    }
  }

  /**
   * The suffix test reads the whole URL: behind a query string only the
   * end of the query counts, whatever the path is.
   */
  lemma SkipSeesTheWholeUrl(httpMethod: string, path: string, query: string)
    requires httpMethod != Preflight
    ensures Skip(Request(httpMethod, path + "?" + query)) ==
            (EndsWith(query, ImportSuffix) || EndsWith(query, AutocompleteSuffix))
  {
    assert path + "?" + query == path + ['?'] + query;
    EndsWithPastSeparator(path, '?', query, ImportSuffix);
    EndsWithPastSeparator(path, '?', query, AutocompleteSuffix);
  }

  /** A text holding no `/` ends with neither route. */
  lemma NoSlashNoRoute(s: string, suffix: string)
    requires '/' !in s && |suffix| >= 1 && suffix[0] == '/'
    ensures !EndsWith(s, suffix)
  {
    if |suffix| <= |s| {
      var k := |s| - |suffix|;
      assert s[k] in s;
      assert s[k..][0] != suffix[0];
    }
  }

  /** An autocomplete route called with a query string is counted. */
  lemma AutocompleteWithQueryIsCounted(httpMethod: string, prefix: string, query: string)
    requires httpMethod != Preflight && '/' !in query
    ensures !Skip(Request(httpMethod, prefix + AutocompleteSuffix + "?" + query))
  {
    SkipSeesTheWholeUrl(httpMethod, prefix + AutocompleteSuffix, query);
    NoSlashNoRoute(query, ImportSuffix);
    NoSlashNoRoute(query, AutocompleteSuffix);
  }
}
