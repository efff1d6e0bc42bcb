/** The cookie translator of the FlareSolverr proxy fetcher: which jar cookies
    are sent to the solver, how they are rendered as JSON, and how the solver's
    JSON cookies become jar cookies again. */
module SolverCookies {
  import opened Common

  /** Cookie expiry values above this (2920-08-30) are clamped to it. */
  const ExpiryCap: int := 30000000000

  /** The fields of an `http.cookiejar.Cookie` that the translation reads or sets
      (`comment`, `comment_url` and `rest` are always None, None, {}). */
  datatype JarCookie = JarCookie(
    version: int,
    name: string,
    value: string,
    port: Option<string>,
    portSpecified: bool,
    domain: string,
    domainSpecified: bool,
    domainInitialDot: bool,
    path: Option<string>,
    pathSpecified: bool,
    secure: bool,
    expires: Option<int>,
    discard: bool)

  /** The dict sent to the solver for one jar cookie; `expires` is None when the
      key is left out. */
  datatype OutgoingCookie = OutgoingCookie(
    name: string, value: string, domain: string, path: Option<string>, expires: Option<int>)

  /** A cookie dict from the solver's `solution.cookies`; `expires` and `expiry`
      are None when the key is absent, `path` is None for a JSON null. */
  datatype SolverCookie = SolverCookie(
    name: string, value: string, domain: string, path: Option<string>, secure: bool,
    expires: Option<int>, expiry: Option<int>)

  /** The key under which a cookie jar stores a cookie: a later cookie with the
      same domain, path and name replaces the earlier one. */
  function KeyOf(c: JarCookie): (string, Option<string>, string)
  {
    (c.domain, c.path, c.name)
  }

  // ---------------------------------------------------------------- outgoing

  /** The cookies of `jar` whose domain is a literal substring of `url`, in jar order. */
  function CookiesFor(jar: seq<JarCookie>, url: string): seq<JarCookie>
    decreases |jar|
  {
    if jar == [] then []
    else if Contains(url, jar[0].domain) then [jar[0]] + CookiesFor(jar[1..], url)
    else CookiesFor(jar[1..], url)
  }

  /** Filtering a concatenation filters each part, so jar order is kept. */
  lemma {:induction false} CookiesForAppend(a: seq<JarCookie>, b: seq<JarCookie>, url: string)
    ensures CookiesFor(a + b, url) == CookiesFor(a, url) + CookiesFor(b, url)
    decreases |a|
  {
    if a != [] {
      assert (a + b)[0] == a[0];
      assert (a + b)[1..] == a[1..] + b;
      CookiesForAppend(a[1..], b, url);
    } else {
      assert a + b == b;
    }
  }

  /** Exactly the jar cookies whose domain occurs in the URL are kept, and no others. */
  lemma {:induction false} CookiesForMembers(jar: seq<JarCookie>, url: string, c: JarCookie)
    ensures c in CookiesFor(jar, url) <==> c in jar && Contains(url, c.domain)
    decreases |jar|
  {
    if jar != [] {
      CookiesForMembers(jar[1..], url, c);
      assert jar == [jar[0]] + jar[1..];
    }
  }

  /** `filter_cookies`: the append loop over the jar. */
  method FilterCookies(jar: seq<JarCookie>, url: string) returns (kept: seq<JarCookie>)
    ensures kept == CookiesFor(jar, url)
  {
    kept := [];
    var i := 0;
    while i < |jar|
      invariant 0 <= i <= |jar|
      invariant kept == CookiesFor(jar[..i], url)
    {
      var c := jar[i];
      assert jar[..i + 1] == jar[..i] + [c];
      CookiesForAppend(jar[..i], [c], url);
      if Contains(url, c.domain) {
        kept := kept + [c];
      }
      i := i + 1;
    }
    assert jar[..i] == jar;
  }

  /** The JSON dict for one jar cookie: `expires` is sent only when it is truthy. */
  function Jsonable(c: JarCookie): OutgoingCookie
  {
    OutgoingCookie(c.name, c.value, c.domain, c.path,
                   if c.expires.Some? && c.expires.value != 0 then c.expires else None)
  }

  /** `cookiejar_to_jsonable`: one dict per cookie, in order. */
  method CookiejarToJsonable(jar: seq<JarCookie>) returns (dicts: seq<OutgoingCookie>)
    ensures |dicts| == |jar|
    ensures forall i :: 0 <= i < |jar| ==> dicts[i] == Jsonable(jar[i])
  {
    dicts := [];
    var i := 0;
    while i < |jar|
      invariant 0 <= i <= |jar|
      invariant |dicts| == i
      invariant forall k :: 0 <= k < i ==> dicts[k] == Jsonable(jar[k])
    {
      dicts := dicts + [Jsonable(jar[i])];
      i := i + 1;
    }
  }

  // ---------------------------------------------------------------- incoming

  /** The expiry a solver cookie ends up with: read from `expires` when that key
      exists, else from `expiry`; 0 when neither exists; clamped at ExpiryCap. */
  function ExpiryOf(c: SolverCookie): (e: int)
    ensures e <= ExpiryCap
  {
    var raw := if c.expires.Some? then c.expires else c.expiry;
    if raw.None? then 0
    else if raw.value > ExpiryCap then ExpiryCap
    else raw.value
  }

  /** One element of `cookiejson_to_jarable`: the `Cookie(...)` constructed from a dict. */
  function Jarable(c: SolverCookie): (j: JarCookie)
    ensures j.expires == Some(ExpiryOf(c))
    ensures j.name == c.name && j.value == c.value && j.domain == c.domain && j.path == c.path
  {
    var e := ExpiryOf(c);
    JarCookie(
      0, c.name, c.value, None, false,
      c.domain, true, StartsWith(c.domain, "."),
      c.path, c.path.None? || c.path == Some(""),
      c.secure, Some(e), e == -1)
  }

  /** The expiry rules, stated per case. */
  lemma ExpiryRules(c: SolverCookie)
    ensures c.expires.None? && c.expiry.None? ==> ExpiryOf(c) == 0
    ensures c.expires.Some? && c.expires.value > ExpiryCap ==> ExpiryOf(c) == ExpiryCap
    ensures c.expires.Some? && c.expires.value <= ExpiryCap ==> ExpiryOf(c) == c.expires.value
    ensures c.expires.None? && c.expiry.Some? && c.expiry.value > ExpiryCap ==> ExpiryOf(c) == ExpiryCap
    ensures c.expires.None? && c.expiry.Some? && c.expiry.value <= ExpiryCap ==> ExpiryOf(c) == c.expiry.value
    ensures Jarable(c).discard <==> ExpiryOf(c) == -1
    ensures Jarable(c).domainInitialDot <==> |c.domain| > 0 && c.domain[0] == '.'
  {
  }

  /** The jar cookies for a list of solver dicts, one per dict, in order. */
  function JarableAll(data: seq<SolverCookie>): (r: seq<JarCookie>)
    ensures |r| == |data|
    ensures forall i :: 0 <= i < |data| ==> r[i] == Jarable(data[i])
    decreases |data|
  {
    if data == [] then [] else JarableAll(data[..|data| - 1]) + [Jarable(data[|data| - 1])]
  }

  /** `cookiejson_to_jarable`: one jar cookie per dict, in order. */
  method CookiejsonToJarable(data: seq<SolverCookie>) returns (cookies: seq<JarCookie>)
    ensures cookies == JarableAll(data)
  {
    cookies := [];
    var i := 0;
    while i < |data|
      invariant 0 <= i <= |data|
      invariant cookies == JarableAll(data[..i])
    {
      assert data[..i + 1][..i] == data[..i];
      cookies := cookies + [Jarable(data[i])];
      i := i + 1;
    }
    assert data[..i] == data;
  }

  /** The dict the solver would echo back for a cookie it was sent. */
  function Echoed(o: OutgoingCookie, secure: bool): SolverCookie
  {
    SolverCookie(o.name, o.value, o.domain, o.path, secure, o.expires, None)
  }

  /** A cookie sent to the solver and echoed back lands under the same jar key,
      so it replaces the original; its expiry is kept, except that an absent or
      zero expiry comes back as 0 and a far-future one is clamped. */
  lemma RoundTrip(c: JarCookie)
    ensures KeyOf(Jarable(Echoed(Jsonable(c), c.secure))) == KeyOf(c)
    ensures Jarable(Echoed(Jsonable(c), c.secure)).value == c.value
    ensures Jarable(Echoed(Jsonable(c), c.secure)).expires ==
      Some(if c.expires.None? then 0
           else if c.expires.value > ExpiryCap then ExpiryCap
           else c.expires.value)
  {
  }

  // ---------------------------------------------------------------- the jar

  /** No two cookies of the jar share a key (a cookie jar's storage invariant). */
  predicate UniqueKeys(jar: seq<JarCookie>)
  {
    forall i, j :: 0 <= i < j < |jar| ==> KeyOf(jar[i]) != KeyOf(jar[j])
  }

  /** `CookieJar.set_cookie`: the cookie replaces the one with its key, or is added. */
  function Stored(jar: seq<JarCookie>, c: JarCookie): (r: seq<JarCookie>)
    decreases |jar|
  {
    if jar == [] then [c]
    else if KeyOf(jar[0]) == KeyOf(c) then [c] + jar[1..]
    else [jar[0]] + Stored(jar[1..], c)
  }

  /** Storing makes `c` present, keeps every cookie with another key, and
      brings in nothing else. */
  lemma {:induction false} StoredMembers(jar: seq<JarCookie>, c: JarCookie)
    ensures c in Stored(jar, c)
    ensures forall d :: d in jar && KeyOf(d) != KeyOf(c) ==> d in Stored(jar, c)
    ensures forall d :: d in Stored(jar, c) ==> d == c || d in jar
    decreases |jar|
  {
    if jar != [] {
      assert jar == [jar[0]] + jar[1..];
      if KeyOf(jar[0]) != KeyOf(c) {
        StoredMembers(jar[1..], c);
        assert Stored(jar, c) == [jar[0]] + Stored(jar[1..], c);
      }
    }
  }

  /** Storing keeps the keys unique, makes `c` present, and keeps every cookie
      with another key. */
  lemma {:induction false} StoredProperties(jar: seq<JarCookie>, c: JarCookie)
    requires UniqueKeys(jar)
    ensures UniqueKeys(Stored(jar, c))
    ensures c in Stored(jar, c)
    ensures forall d :: d in jar && KeyOf(d) != KeyOf(c) ==> d in Stored(jar, c)
    ensures forall d :: d in Stored(jar, c) ==> d == c || d in jar
    decreases |jar|
  {
    if jar != [] {
      if KeyOf(jar[0]) == KeyOf(c) {
        var r := Stored(jar, c);
        assert r == [c] + jar[1..];
        forall i, j | 0 <= i < j < |r| ensures KeyOf(r[i]) != KeyOf(r[j]) {
          if i == 0 {
            assert KeyOf(jar[0]) != KeyOf(jar[j]);
          } else {
            assert r[i] == jar[i] && r[j] == jar[j];
          }
        }
        forall d | d in jar && KeyOf(d) != KeyOf(c) ensures d in r {
          assert d != jar[0];
          var k :| 0 <= k < |jar| && jar[k] == d;
          assert r[k] == d;
        }
      } else {
        assert UniqueKeys(jar[1..]) by {
          forall i, j | 0 <= i < j < |jar[1..]| ensures KeyOf(jar[1..][i]) != KeyOf(jar[1..][j]) {
            assert jar[1..][i] == jar[i + 1] && jar[1..][j] == jar[j + 1];
          }
        }
        StoredProperties(jar[1..], c);
        var rest := Stored(jar[1..], c);
        var r := Stored(jar, c);
        assert r == [jar[0]] + rest;
        forall j | 0 < j < |r| ensures KeyOf(r[0]) != KeyOf(r[j]) {
          assert r[j] in rest;
          if r[j] != c {
            assert r[j] in jar[1..];
            var k :| 0 <= k < |jar[1..]| && jar[1..][k] == r[j];
            assert jar[k + 1] == r[j];
          }
        }
        forall i, j | 0 <= i < j < |r| ensures KeyOf(r[i]) != KeyOf(r[j]) {
          if i > 0 {
            assert r[i] == rest[i - 1] && r[j] == rest[j - 1];
          }
        }
        forall d | d in jar && KeyOf(d) != KeyOf(c) ensures d in r {
          if d != jar[0] {
            var k :| 0 <= k < |jar| && jar[k] == d;
            assert jar[1..][k - 1] == d;
          }
        }
      }
    }
  }

  /** Storing a sequence of cookies in order. */
  function StoredAll(jar: seq<JarCookie>, cs: seq<JarCookie>): seq<JarCookie>
    decreases |cs|
  {
    if cs == [] then jar else StoredAll(Stored(jar, cs[0]), cs[1..])
  }

  lemma {:induction false} StoredAllUnique(jar: seq<JarCookie>, cs: seq<JarCookie>)
    requires UniqueKeys(jar)
    ensures UniqueKeys(StoredAll(jar, cs))
    decreases |cs|
  {
    if cs != [] {
      StoredProperties(jar, cs[0]);
      StoredAllUnique(Stored(jar, cs[0]), cs[1..]);
    }
  }

  /** No later cookie of `cs` has the key of `cs[i]`. */
  predicate LastOfKey(cs: seq<JarCookie>, i: nat)
  {
    forall j :: i < j < |cs| ==> KeyOf(cs[j]) != KeyOf(cs[i])
  }

  /** No cookie of `cs` has the key of `d`. */
  predicate KeyAbsent(cs: seq<JarCookie>, d: JarCookie)
  {
    forall j :: 0 <= j < |cs| ==> KeyOf(cs[j]) != KeyOf(d)
  }

  /** What the jar holds after storing a list of cookies: the last cookie of
      each key in the list, the old cookies whose key the list does not
      have, and nothing else. */
  lemma {:induction false} StoredAllContents(jar: seq<JarCookie>, cs: seq<JarCookie>)
    ensures forall i: nat :: i < |cs| && LastOfKey(cs, i) ==> cs[i] in StoredAll(jar, cs)
    ensures forall d :: d in jar && KeyAbsent(cs, d) ==> d in StoredAll(jar, cs)
    ensures forall d :: d in StoredAll(jar, cs) ==> d in jar || d in cs
    decreases |cs|
  {
    if cs != [] {
      var c, rest := cs[0], cs[1..];
      var next := Stored(jar, c);
      StoredMembers(jar, c);
      StoredAllContents(next, rest);
      assert StoredAll(jar, cs) == StoredAll(next, rest);
      forall i: nat | i < |cs| && LastOfKey(cs, i) ensures cs[i] in StoredAll(jar, cs) {
        if i == 0 {
          assert KeyAbsent(rest, c) by {
            forall j | 0 <= j < |rest| ensures KeyOf(rest[j]) != KeyOf(c) {
              assert rest[j] == cs[j + 1];
            }
          }
        } else {
          assert LastOfKey(rest, i - 1) by {
            forall j | i - 1 < j < |rest| ensures KeyOf(rest[j]) != KeyOf(rest[i - 1]) {
              assert rest[j] == cs[j + 1];
            }
          }
          assert rest[i - 1] == cs[i];
        }
      }
      forall d | d in jar && KeyAbsent(cs, d) ensures d in StoredAll(jar, cs) {
        assert KeyOf(cs[0]) != KeyOf(d);
        assert KeyAbsent(rest, d) by {
          forall j | 0 <= j < |rest| ensures KeyOf(rest[j]) != KeyOf(d) {
            assert rest[j] == cs[j + 1];
          }
        }
      }
      assert cs == [c] + rest;
    }
  }
}
