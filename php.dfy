/**
 * The PHP value semantics and built-ins the client relies on: arrays with
 * string keys, truthiness, ASCII case mapping, trimming, padding and the
 * interface of the primitives the model leaves uninterpreted.
 */
module Php {

  datatype Option<T> = None | Some(value: T)

  /** One entry of a PHP array with string keys. A value is kept as the
      string PHP converts it to when it is concatenated or encoded. */
  datatype Pair = Pair(key: string, value: string)

  /** A PHP array with string keys: its entries in insertion order. */
  type Assoc = seq<Pair>

  /** PHP never holds two entries with the same key. */
  predicate DistinctKeys(a: Assoc) {
    forall i, j :: 0 <= i < j < |a| ==> a[i].key != a[j].key
  }

  /** The keys an array holds. */
  function KeySet(a: Assoc): set<string> {
    if a == [] then {} else {a[0].key} + KeySet(a[1..])
  }

  /** A key is in the key set exactly when some entry holds it. */
  lemma {:induction false} KeySetIndices(a: Assoc)
    ensures forall k :: k in KeySet(a) <==> exists i :: 0 <= i < |a| && a[i].key == k
  {
    if a != [] {
      KeySetIndices(a[1..]);
      forall k | k in KeySet(a)
        ensures exists i :: 0 <= i < |a| && a[i].key == k
      {
        if k != a[0].key {
          assert k in KeySet(a[1..]);
          var i :| 0 <= i < |a[1..]| && a[1..][i].key == k;
          assert a[i + 1].key == k;
        }
      }
      forall k, i | 0 <= i < |a| && a[i].key == k
        ensures k in KeySet(a)
      {
        if i > 0 {
          assert a[1..][i - 1].key == k;
        }
      }
    }
  }

  /** The key-value contents of an array, forgetting the order of entries.
      Should two entries share a key, the first one is the one that counts. */
  function ToMap(a: Assoc): (m: map<string, string>)
    ensures m.Keys == KeySet(a)
  {
    if a == [] then map[] else ToMap(a[1..])[a[0].key := a[0].value]
  }

  /** An array written out entry by entry: each entry is added on top of
      the contents of the entries after it. */
  lemma ToMapCons(p: Pair, a: Assoc)
    ensures ToMap([p] + a) == ToMap(a)[p.key := p.value]
  {
    assert ([p] + a)[1..] == a;
  }

  /** In an array with distinct keys every entry is what its key maps to. */
  lemma {:induction false} ToMapAt(a: Assoc, i: nat)
    requires DistinctKeys(a) && i < |a|
    ensures a[i].key in ToMap(a) && ToMap(a)[a[i].key] == a[i].value
  {
    if i > 0 {
      ToMapAt(a[1..], i - 1);
    }
  }

  /** An array is distinct exactly when its tail is and its head's key
      does not occur in the tail. */
  lemma DistinctCons(a: Assoc)
    requires a != []
    ensures DistinctKeys(a) <==> DistinctKeys(a[1..]) && a[0].key !in KeySet(a[1..])
  {
    KeySetIndices(a[1..]);
    if DistinctKeys(a) {
      forall i | 0 <= i < |a[1..]|
        ensures a[1..][i].key != a[0].key
      {
        assert a[1..][i] == a[i + 1];
      }
    }
    if DistinctKeys(a[1..]) && a[0].key !in KeySet(a[1..]) {
      forall i, j | 0 <= i < j < |a|
        ensures a[i].key != a[j].key
      {
        assert a[j] == a[1..][j - 1];
        if i > 0 {
          assert a[i] == a[1..][i - 1];
        }
      }
    }
  }

  /** `$a[k] = v`: the entry holding k gets the new value where it stands;
      without such an entry, a new one is appended. */
  function Put(a: Assoc, k: string, v: string): (r: Assoc)
    ensures ToMap(r) == ToMap(a)[k := v]
    ensures k !in ToMap(a) ==> r == a + [Pair(k, v)]
    ensures |a| <= |r| && forall i :: 0 <= i < |a| ==> r[i].key == a[i].key
  {
    if a == [] then [Pair(k, v)]
    else if a[0].key == k then
      PutReplacesHead(a, k, v);
      [Pair(k, v)] + a[1..]
    else
      var t := Put(a[1..], k, v);
      PutBeyondHeadContents(a, k, v, t);
      PutBeyondHeadAppends(a, k, v, t);
      [a[0]] + t
  }

  lemma PutReplacesHead(a: Assoc, k: string, v: string)
    requires a != [] && a[0].key == k
    ensures ToMap([Pair(k, v)] + a[1..]) == ToMap(a)[k := v]
  {
    assert ([Pair(k, v)] + a[1..])[1..] == a[1..];
  }

  lemma PutBeyondHeadContents(a: Assoc, k: string, v: string, t: Assoc)
    requires a != [] && a[0].key != k
    requires ToMap(t) == ToMap(a[1..])[k := v]
    ensures ToMap([a[0]] + t) == ToMap(a)[k := v]
  {
    assert ([a[0]] + t)[1..] == t;
  }

  lemma PutBeyondHeadAppends(a: Assoc, k: string, v: string, t: Assoc)
    requires a != [] && a[0].key != k
    requires k !in ToMap(a[1..]) ==> t == a[1..] + [Pair(k, v)]
    ensures k !in ToMap(a) ==> [a[0]] + t == a + [Pair(k, v)]
  {
    if k !in ToMap(a) {
      assert a == [a[0]] + a[1..];
    }
  }

  lemma {:induction false} PutKeepsDistinct(a: Assoc, k: string, v: string)
    requires DistinctKeys(a)
    ensures DistinctKeys(Put(a, k, v))
  {
    if a != [] {
      DistinctCons(a);
      if a[0].key == k {
        assert ([Pair(k, v)] + a[1..])[1..] == a[1..];
        DistinctCons([Pair(k, v)] + a[1..]);
      } else {
        var t := Put(a[1..], k, v);
        PutKeepsDistinct(a[1..], k, v);
        assert ([a[0]] + t)[1..] == t;
        DistinctCons([a[0]] + t);
      }
    }
  }

  /** `array_merge($a, $b)` for arrays with string keys: the entries of b
      override those of a with the same key, new keys are appended. */
  function Merge(a: Assoc, b: Assoc): (r: Assoc)
    ensures KeySet(r) == KeySet(a) + KeySet(b)
    ensures |a| <= |r| && forall i :: 0 <= i < |a| ==> r[i].key == a[i].key
    decreases |b|
  {
    if b == [] then a
    else
      var p := Put(a, b[0].key, b[0].value);
      assert ToMap(p).Keys == KeySet(a) + {b[0].key};
      Merge(p, b[1..])
  }

  lemma {:induction false} MergeOverrides(a: Assoc, b: Assoc)
    requires DistinctKeys(b)
    ensures ToMap(Merge(a, b)) == ToMap(a) + ToMap(b)
    decreases |b|
  {
    if b != [] {
      var x, y := b[0].key, b[0].value;
      DistinctCons(b);
      assert x !in ToMap(b[1..]);
      MergeOverrides(Put(a, x, y), b[1..]);
      UpdateThenUnion(ToMap(a), ToMap(b[1..]), x, y);
    }
  }

  lemma UpdateThenUnion(m: map<string, string>, n: map<string, string>, x: string, y: string)
    requires x !in n
    ensures m[x := y] + n == m + n[x := y]
  {
  }

  lemma {:induction false} MergeKeepsDistinct(a: Assoc, b: Assoc)
    requires DistinctKeys(a)
    ensures DistinctKeys(Merge(a, b))
    decreases |b|
  {
    if b != [] {
      PutKeepsDistinct(a, b[0].key, b[0].value);
      MergeKeepsDistinct(Put(a, b[0].key, b[0].value), b[1..]);
    }
  }

  lemma ToMapOfTail(a: Assoc)
    requires a != [] && DistinctKeys(a)
    ensures ToMap(a[1..]) == ToMap(a) - {a[0].key}
  {
    DistinctCons(a);
    var m := ToMap(a[1..]);
    assert a[0].key !in m;
    assert ToMap(a) == m[a[0].key := a[0].value];
    UpdateThenRemove(m, a[0].key, a[0].value);
  }

  lemma UpdateThenRemove(m: map<string, string>, x: string, y: string)
    requires x !in m
    ensures m[x := y] - {x} == m
  {
  }

  lemma RemoveThenUpdate(m: map<string, string>, x: string, y: string, v: string)
    requires x != y
    ensures (m - {x})[y := v] == m[y := v] - {x}
  {
  }

  lemma SpliceAfterHead(a: Assoc, j: nat)
    requires 0 < j < |a|
    ensures a[..j] + a[j + 1..] == [a[0]] + (a[1..][..j - 1] + a[1..][j..])
  {
    assert a[..j] == [a[0]] + a[1..][..j - 1];
    assert a[j + 1..] == a[1..][j..];
  }

  /** Dropping one entry of an array with distinct keys drops its key. */
  lemma {:induction false} RemoveEntry(a: Assoc, j: nat)
    requires DistinctKeys(a) && j < |a|
    ensures DistinctKeys(a[..j] + a[j + 1..])
    ensures ToMap(a[..j] + a[j + 1..]) == ToMap(a) - {a[j].key}
  {
    if j == 0 {
      assert a[..j] + a[j + 1..] == a[1..];
      ToMapOfTail(a);
    } else {
      var t := a[1..];
      var t' := t[..j - 1] + t[j..];
      assert DistinctKeys(t);
      RemoveEntry(t, j - 1);
      var r := [a[0]] + t';
      SpliceAfterHead(a, j);
      assert r[1..] == t' && r[0] == a[0];
      assert a[0].key != a[j].key;
      assert ToMap(r) == ToMap(t')[a[0].key := a[0].value];
      RemoveThenUpdate(ToMap(t), a[j].key, a[0].key, a[0].value);
      assert a[0].key !in ToMap(t') by {
        DistinctCons(a);
      }
      DistinctCons(r);
    }
  }

  /** The entry of b that holds the key of a's first entry. */
  lemma FindHead(a: Assoc, b: Assoc) returns (j: nat)
    requires a != [] && DistinctKeys(a) && DistinctKeys(b) && ToMap(a) == ToMap(b)
    ensures j < |b| && b[j] == a[0]
  {
    ToMapAt(a, 0);
    KeySetIndices(b);
    assert a[0].key in KeySet(b);
    j :| 0 <= j < |b| && b[j].key == a[0].key;
    ToMapAt(b, j);
  }

  lemma SpliceMultiset(b: Assoc, j: nat)
    requires j < |b|
    ensures multiset(b) == multiset(b[..j] + b[j + 1..]) + multiset{b[j]}
  {
    assert b == b[..j] + [b[j]] + b[j + 1..];
  }

  /** Two arrays with distinct keys and the same contents hold the same
      entries, in some order. */
  lemma {:induction false} SameContentsArePermutations(a: Assoc, b: Assoc)
    requires DistinctKeys(a) && DistinctKeys(b) && ToMap(a) == ToMap(b)
    ensures multiset(a) == multiset(b)
    decreases |a|
  {
    if a != [] {
      var j := FindHead(a, b);
      var b' := b[..j] + b[j + 1..];
      RemoveEntry(b, j);
      ToMapOfTail(a);
      assert DistinctKeys(a[1..]) by {
        DistinctCons(a);
      }
      SameContentsArePermutations(a[1..], b');
      SpliceMultiset(b, j);
      assert a == [a[0]] + a[1..];
    }
  }

  /** PHP truthiness of an optional argument whose default is False or NULL:
      an absent argument, "" and "0" are false, every other string is true. */
  predicate Truthy(x: Option<string>) {
    x.Some? && x.value != "" && x.value != "0"
  }

  function LowerChar(c: char): char {
    if 'A' <= c <= 'Z' then (c as int + 32) as char else c
  }

  function UpperChar(c: char): char {
    if 'a' <= c <= 'z' then (c as int - 32) as char else c
  }

  /** `strtolower`: ASCII letters only. */
  function ToLower(s: string): string {
    seq(|s|, i requires 0 <= i < |s| => LowerChar(s[i]))
  }

  /** `strtoupper`: ASCII letters only. */
  function ToUpper(s: string): string {
    seq(|s|, i requires 0 <= i < |s| => UpperChar(s[i]))
  }

  lemma CaseMappingIsIdempotent(s: string)
    ensures ToLower(ToLower(s)) == ToLower(s)
    ensures ToUpper(ToUpper(s)) == ToUpper(s)
  {
  }

  /** `rtrim($s, $chars)`: the longest prefix of s that does not end in one
      of chars; everything cut off belongs to chars. */
  function RTrim(s: string, chars: set<char>): (r: string)
    ensures r <= s
    ensures forall i :: |r| <= i < |s| ==> s[i] in chars
    ensures r == [] || r[|r| - 1] !in chars
  {
    if s != [] && s[|s| - 1] in chars then RTrim(s[..|s| - 1], chars) else s
  }

  /** `ltrim($s, $c)`: the longest suffix of s that does not start with c;
      everything cut off is c. */
  function LTrim(s: string, c: char): (r: string)
    ensures |r| <= |s| && r == s[|s| - |r|..]
    ensures forall i :: 0 <= i < |s| - |r| ==> s[i] == c
    ensures r == [] || r[0] != c
  {
    if s != [] && s[0] == c then LTrim(s[1..], c) else s
  }

  /** `trim($s, $c)`: c is cut off at both ends. */
  function Trim(s: string, c: char): string {
    RTrim(LTrim(s, c), {c})
  }

  /** `implode($parts)` with no glue. */
  function Implode(parts: seq<string>): string {
    if parts == [] then "" else Implode(parts[..|parts| - 1]) + parts[|parts| - 1]
  }

  function DigitChar(d: nat): char
    requires d < 10
  {
    "0123456789"[d]
  }

  /** The number a string of decimal digits denotes. */
  function DecimalValue(s: string): int {
    if s == [] then 0 else DecimalValue(s[..|s| - 1]) * 10 + (s[|s| - 1] as int - '0' as int)
  }

  lemma DigitCharValue(d: nat)
    requires d < 10
    ensures '0' <= DigitChar(d) <= '9' && DigitChar(d) as int - '0' as int == d
  {
  }

  /** The decimal string PHP makes of a non-negative integer: digits only,
      denoting n, with no leading zero. */
  function NatToString(n: nat): (r: string)
    ensures |r| > 0 && forall i :: 0 <= i < |r| ==> '0' <= r[i] <= '9'
    ensures DecimalValue(r) == n
    ensures r[0] != '0' || n == 0
  {
    DigitCharValue(n % 10);
    if n < 10 then
      assert [DigitChar(n)][..0] == [];
      [DigitChar(n)]
    else
      var init := NatToString(n / 10);
      assert (init + [DigitChar(n % 10)])[..|init|] == init;
      init + [DigitChar(n % 10)]
  }

  /** Different numbers print differently. */
  lemma NatToStringIsInjective(m: nat, n: nat)
    requires NatToString(m) == NatToString(n)
    ensures m == n
  {
  }

  /** `sprintf('%02s', $s)`: s left-padded with '0' to two characters;
      a longer s is left as it is. */
  function ZeroPad2(s: string): (r: string)
    ensures |r| == if |s| < 2 then 2 else |s|
    ensures r[|r| - |s|..] == s
    ensures forall i :: 0 <= i < |r| - |s| ==> r[i] == '0'
  {
    if |s| >= 2 then s else if |s| == 1 then "0" + s else "00"
  }

  /** A value of a decoded JSON object, as far as PHP's conversion to a
      string tells values apart: strings are kept; null becomes ""; a number
      or a boolean becomes its text (JScalar); a JSON array decodes to a PHP
      array, which converts to "Array" with a warning but is refused where a
      string parameter is declared; a JSON object decodes to an object that
      cannot be converted at all. */
  datatype Json = JString(s: string) | JNull | JScalar | JArray | JObject

  /** The parts of a URL that `parse_url` reports; an unreported part (or a
      URL parse_url rejects altogether) is None. */
  datatype UrlParts = UrlParts(host: Option<string>, port: Option<nat>, path: Option<string>)

  /** The built-ins the model does not interpret:
      md5 (lower-case hex digest), hmacSha256(data, key) (raw binary digest),
      base64, parseUrl and collate, the locale-aware comparison ksort uses
      with SORT_LOCALE_STRING (collate(a, b): a sorts no later than b). */
  datatype Builtins = Builtins(
    md5: string -> string,
    hmacSha256: (string, string) -> string,
    base64: string -> string,
    parseUrl: string -> UrlParts,
    collate: (string, string) -> bool)
}
