/**
 * The request signature of `AlbaService::sign`: the parameters sorted by
 * key, the URL lower-cased and split by parse_url, and the method
 * upper-cased are joined into one canonical string, which is signed with
 * HMAC-SHA256 and base64-encoded.
 */
module Signing {
  import opened Php
  import opened Rfc3986
  import opened Collation

  /** One `key=value` term of the query; the key is not encoded. */
  function Term(p: Pair): string {
    p.key + "=" + RawUrlEncode(p.value)
  }

  /** A term starts with the raw key and '=', and never ends in '&'. */
  lemma TermShape(p: Pair)
    ensures var r := Term(p);
      |r| > |p.key| && r[..|p.key|] == p.key && r[|p.key|] == '=' && r[|r| - 1] != '&'
  {
    var e := RawUrlEncode(p.value);
    assert e != [] ==> Unreserved(e[|e| - 1]) || e[|e| - 1] == '%';
    assert (p.key + "=" + e)[..|p.key|] == p.key;
  }

  /** What the loop of `_http_build_query_rfc_3986` has built after the
      given entries: a separator before every term. */
  function Accumulated(ps: Assoc): string {
    if ps == [] then "" else Accumulated(ps[..|ps| - 1]) + "&" + Term(ps[|ps| - 1])
  }

  /** The intended query: the terms in array order with '&' between them. */
  function JoinedTerms(ps: Assoc): string {
    if ps == [] then ""
    else if |ps| == 1 then Term(ps[0])
    else Term(ps[0]) + "&" + JoinedTerms(ps[1..])
  }

  /** `_http_build_query_rfc_3986($params)`: the accumulated terms with the
      separator trimmed off at both ends; it never starts or ends with '&'. */
  function QueryString(ps: Assoc): (r: string)
    ensures r == [] || (r[0] != '&' && r[|r| - 1] != '&')
  {
    Trim(Accumulated(ps), '&')
  }

  lemma {:induction false} JoinedTermsSnoc(ps: Assoc, p: Pair)
    requires ps != []
    ensures JoinedTerms(ps + [p]) == JoinedTerms(ps) + "&" + Term(p)
  {
    if |ps| == 1 {
      assert (ps + [p])[1..] == [p];
    } else {
      JoinedTermsSnoc(ps[1..], p);
      assert (ps + [p])[1..] == ps[1..] + [p];
    }
  }

  lemma {:induction false} AccumulatedIsJoined(ps: Assoc)
    requires ps != []
    ensures Accumulated(ps) == "&" + JoinedTerms(ps)
  {
    var init, last := ps[..|ps| - 1], ps[|ps| - 1];
    AccumulatedStep(ps);
    if init == [] {
      SingleTerm(ps);
    } else {
      assert Accumulated(init) == "&" + JoinedTerms(init) by {
        AccumulatedIsJoined(init);
      }
      assert JoinedTerms(ps) == JoinedTerms(init) + "&" + Term(last) by {
        JoinedTermsSnoc(init, last);
        assert init + [last] == ps;
      }
      Regroup(Accumulated(ps), Accumulated(init), JoinedTerms(init), JoinedTerms(ps), Term(last));
    }
  }

  lemma AccumulatedStep(ps: Assoc)
    requires ps != []
    ensures Accumulated(ps) == Accumulated(ps[..|ps| - 1]) + "&" + Term(ps[|ps| - 1])
  {
  }

  lemma SingleTerm(ps: Assoc)
    requires |ps| == 1
    ensures Accumulated(ps[..0]) == "" && JoinedTerms(ps) == Term(ps[0])
  {
  }

  lemma Regroup(accAll: string, accInit: string, joinedInit: string, joinedAll: string, t: string)
    requires accAll == accInit + "&" + t && accInit == "&" + joinedInit
    requires joinedAll == joinedInit + "&" + t
    ensures accAll == "&" + joinedAll
  {
  }

  lemma {:induction false} JoinedTermsEnd(ps: Assoc)
    requires ps != []
    ensures JoinedTerms(ps) != [] && JoinedTerms(ps)[|JoinedTerms(ps)| - 1] != '&'
  {
    if |ps| > 1 {
      JoinedTermsEnd(ps[1..]);
    } else {
      TermShape(ps[0]);
    }
  }

  lemma JoinedTermsStart(ps: Assoc)
    requires ps != []
    ensures JoinedTerms(ps) == Term(ps[0]) || JoinedTerms(ps)[..|Term(ps[0])| + 1] == Term(ps[0]) + "&"
  {
    if |ps| > 1 {
      var t := Term(ps[0]);
      assert (t + "&" + JoinedTerms(ps[1..]))[..|t| + 1] == t + "&";
    }
  }

  lemma LTrimCutsOnlyTheHead(s: string)
    requires s != [] && s[|s| - 1] != '&'
    ensures LTrim(s, '&') != []
    ensures LTrim(s, '&')[|LTrim(s, '&')| - 1] == s[|s| - 1]
  {
  }

  lemma LTrimSkipsSeparator(j: string)
    ensures LTrim("&" + j, '&') == LTrim(j, '&')
  {
    assert ("&" + j)[1..] == j;
  }

  lemma RTrimKeeps(l: string)
    requires l != [] && l[|l| - 1] != '&'
    ensures RTrim(l, {'&'}) == l
  {
  }

  lemma TrimAfterSeparator(j: string)
    requires j != [] && j[|j| - 1] != '&'
    ensures Trim("&" + j, '&') == LTrim(j, '&')
  {
    LTrimSkipsSeparator(j);
    LTrimCutsOnlyTheHead(j);
    RTrimKeeps(LTrim(j, '&'));
  }

  lemma {:induction false} JoinedTermsStartsWithKey(ps: Assoc)
    requires ps != [] && (ps[0].key == [] || ps[0].key[0] != '&')
    ensures JoinedTerms(ps)[0] != '&'
  {
    TermShape(ps[0]);
    JoinedTermsStart(ps);
  }

  /** The query is "" for an empty array and otherwise the terms joined by
      '&', with only the leading separators of a first key that starts with
      '&' lost; for keys that do not start with '&' it is exactly the
      joined terms. */
  lemma QueryStringShape(ps: Assoc)
    ensures ps == [] ==> QueryString(ps) == ""
    ensures ps != [] ==> QueryString(ps) == LTrim(JoinedTerms(ps), '&')
    ensures ps != [] && (ps[0].key == [] || ps[0].key[0] != '&') ==> QueryString(ps) == JoinedTerms(ps)
  {
    if ps != [] {
      AccumulatedIsJoined(ps);
      JoinedTermsEnd(ps);
      TrimAfterSeparator(JoinedTerms(ps));
      if ps[0].key == [] || ps[0].key[0] != '&' {
        JoinedTermsStartsWithKey(ps);
      }
    }
  }

  /** The path part: "" when the URL has no path; otherwise the path with
      every trailing '/' and '\' removed, followed by exactly one '/'. */
  function CanonicalPath(u: UrlParts): (r: string)
    ensures u.path.None? <==> r == ""
    ensures u.path.Some? ==>
      && r[|r| - 1] == '/'
      && r[..|r| - 1] <= u.path.value
      && (forall i :: |r| - 1 <= i < |u.path.value| ==> u.path.value[i] in {'/', '\\'})
      && (|r| == 1 || r[|r| - 2] !in {'/', '\\'})
  {
    if u.path.Some? then RTrim(u.path.value, {'/', '\\'}) + "/" else ""
  }

  /** Normalising a normalised path changes nothing. */
  lemma CanonicalPathIsIdempotent(u: UrlParts)
    requires u.path.Some?
    ensures CanonicalPath(u.(path := Some(CanonicalPath(u)))) == CanonicalPath(u)
  {
    var cs := {'/', '\\'};
    var p := RTrim(u.path.value, cs);
    assert (p + "/")[..|p|] == p;
    assert RTrim(p + "/", cs) == RTrim(p, cs);
    assert RTrim(p, cs) == p;
  }

  function HostOf(u: UrlParts): string {
    if u.host.Some? then u.host.value else ""
  }

  /** Whether the port takes part in the signature. */
  predicate PortShown(u: UrlParts, skipPort: bool) {
    u.port.Some? && u.port.value != 80 && !skipPort
  }

  /** The host part: the host ("" when there is none), and ':' with the
      decimal port appended exactly when the port is shown. */
  function CanonicalHost(u: UrlParts, skipPort: bool): (r: string)
    ensures HostOf(u) <= r
    ensures |r| > |HostOf(u)| <==> PortShown(u, skipPort)
    ensures PortShown(u, skipPort) ==> r[|HostOf(u)|..] == ":" + NatToString(u.port.value)
  {
    if PortShown(u, skipPort) then HostOf(u) + ":" + NatToString(u.port.value) else HostOf(u)
  }

  /** The string `sign` feeds to HMAC: the method, host, path and query,
      one per line. */
  function CanonicalString(b: Builtins, httpMethod: string, url: string, params: Assoc, skipPort: bool): string {
    var u := b.parseUrl(ToLower(url));
    ToUpper(httpMethod) + "\n" + CanonicalHost(u, skipPort) + "\n" + CanonicalPath(u) + "\n"
      + QueryString(SortByKey(b.collate, params))
  }

  /** The value of `sign($method, $url, $params, $secretKey, $skipPort)`. */
  function Signature(b: Builtins, httpMethod: string, url: string, params: Assoc, secretKey: string, skipPort: bool): string {
    b.base64(b.hmacSha256(CanonicalString(b, httpMethod, url, params, skipPort), secretKey))
  }

  /** Under a collation without ties, permuting the parameters does not
      change the signature. */
  lemma SignatureIgnoresInsertionOrder(b: Builtins, httpMethod: string, url: string, a: Assoc, a': Assoc, secretKey: string, skipPort: bool)
    requires TotalOrder(b.collate)
    requires DistinctKeys(a) && multiset(a) == multiset(a')
    ensures Signature(b, httpMethod, url, a, secretKey, skipPort) == Signature(b, httpMethod, url, a', secretKey, skipPort)
  {
    SortIgnoresInsertionOrder(b.collate, a, a');
  }

  /** Two PHP arrays with the same key-value contents are signed alike,
      whatever order their entries were inserted in. */
  lemma SignatureDependsOnlyOnContents(b: Builtins, httpMethod: string, url: string, a: Assoc, a': Assoc, secretKey: string, skipPort: bool)
    requires TotalOrder(b.collate)
    requires DistinctKeys(a) && DistinctKeys(a') && ToMap(a) == ToMap(a')
    ensures Signature(b, httpMethod, url, a, secretKey, skipPort) == Signature(b, httpMethod, url, a', secretKey, skipPort)
  {
    SameContentsArePermutations(a, a');
    SignatureIgnoresInsertionOrder(b, httpMethod, url, a, a', secretKey, skipPort);
  }

  /** The signature sees the URL only lower-cased and the method only
      upper-cased. */
  lemma SignatureFoldsCase(b: Builtins, httpMethod: string, url: string, params: Assoc, secretKey: string, skipPort: bool)
    ensures Signature(b, httpMethod, url, params, secretKey, skipPort)
         == Signature(b, ToUpper(httpMethod), ToLower(url), params, secretKey, skipPort)
  {
    CaseMappingIsIdempotent(httpMethod);
    CaseMappingIsIdempotent(url);
  }

  /** With skipPort set, the port never reaches the signature: URLs that
      differ only in their port are signed alike. */
  lemma SkippedPortIsIgnored(u: UrlParts, p: Option<nat>)
    ensures CanonicalHost(u, true) == CanonicalHost(u.(port := p), true) == HostOf(u)
  {
  }

  /** Port 80, given explicitly, is signed as if it were absent. */
  lemma Port80IsIgnored(u: UrlParts, skipPort: bool)
    requires u.port == Some(80)
    ensures CanonicalHost(u, skipPort) == CanonicalHost(u.(port := None), skipPort)
  {
  }
}
