/**
 The two keys a history row is filed under: its page key (the URL with one
 trailing slash removed) and its domain key (`protocol + "//" + hostname`).

 URL parsing itself follows the WHATWG URL Standard (the basic URL parser of
 section 4.4 and the `protocol`/`hostname` getters of section 6.1). It is not
 re-implemented here: every operation takes the parser as a parameter, so each
 property below holds whatever the parser does.
 */
module UrlKeys {
  import opened Wrappers

  /** The two components of a parsed URL that the aggregation reads.
      `protocol` is what the URL class's getter returns: the scheme followed by ':'. */
  datatype ParsedUrl = ParsedUrl(protocol: string, hostname: string)

  /** `new URL(s)`: `None` when the constructor throws. */
  type UrlParser = string -> Option<ParsedUrl>

  /** The domain key `${protocol}//${hostname}`: the protocol, two slashes, then the hostname. */
  function BasePath(u: ParsedUrl): (r: string)
    ensures |r| == |u.protocol| + 2 + |u.hostname|
    ensures r[..|u.protocol|] == u.protocol
    ensures r[|u.protocol|] == '/' && r[|u.protocol| + 1] == '/'
    ensures r[|u.protocol| + 2..] == u.hostname
  {
    u.protocol + "//" + u.hostname
  }

  /** What the getter returns: a scheme followed by a single ':'. WHATWG schemes are ASCII
      alphanumerics and "+", "-", ".", so they hold no ':'. */
  predicate SchemeWithColon(protocol: string) {
    && |protocol| > 0
    && protocol[|protocol| - 1] == ':'
    && forall i :: 0 <= i < |protocol| - 1 ==> protocol[i] != ':'
  }

  /** Two parsed URLs whose protocols have the getter's shape share a domain key only when they
      have the same protocol and the same hostname: the key's first ':' ends the protocol. */
  lemma BasePathDeterminesParts(u: ParsedUrl, v: ParsedUrl)
    requires SchemeWithColon(u.protocol) && SchemeWithColon(v.protocol)
    requires BasePath(u) == BasePath(v)
    ensures u == v
  {
  }

  predicate EndsWithSlash(s: string) {
    |s| > 0 && s[|s| - 1] == '/'
  }

  /** `s.replace(/\/$/, '')`: the regular expression has no flags, so `$` matches only at the
      very end of the string and at most one '/' is removed. */
  function Normalize(s: string): (r: string)
    ensures r <= s
    ensures |r| < |s| <==> EndsWithSlash(s)
    ensures |s| - 1 <= |r|
  {
    if EndsWithSlash(s) then s[..|s| - 1] else s
  }

  /** A URL without a trailing slash is already its own page key. */
  lemma NormalizeKeepsUnslashed(s: string)
    requires !EndsWithSlash(s)
    ensures Normalize(s) == s
  {
  }

  /** Appending one slash and normalising gives back the original string, whatever it ends with. */
  lemma NormalizeStripsAppendedSlash(s: string)
    ensures Normalize(s + "/") == s
  {
    assert (s + "/")[..|s|] == s;
  }

  /** Only one slash goes: `x//` becomes `x/`, not `x`. */
  lemma NormalizeStripsOnlyOneSlash(s: string)
    ensures Normalize(s + "//") == s + "/"
    ensures EndsWithSlash(Normalize(s + "//"))
  {
    assert s + "//" == (s + "/") + "/";
    NormalizeStripsAppendedSlash(s + "/");
  }

  /** Consequently normalisation is not idempotent: a second pass can remove another slash. */
  lemma NormalizeNotIdempotent()
    ensures Normalize(Normalize("x//")) != Normalize("x//")
  {
    NormalizeStripsOnlyOneSlash("x");
    NormalizeStripsAppendedSlash("x");
    assert Normalize(Normalize("x//")) == "x";
  }

  /** A URL and the same URL with one slash appended share a page key. */
  lemma NormalizeMergesTrailingSlash(s: string)
    requires !EndsWithSlash(s)
    ensures Normalize(s + "/") == Normalize(s)
  {
    NormalizeStripsAppendedSlash(s);
  }
}
