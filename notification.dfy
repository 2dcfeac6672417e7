/**
 * The signature of a payment notification, as `checkCallbackSign` checks
 * it: the values of a fixed list of fields, in that order and without any
 * separator, followed by the service's secret, hashed with MD5.
 */
module Notification {
  import opened Php

  /** The notification fields that take part in the signature, in order. */
  const Whitelist: seq<string> := [
    "tid", "name", "comment", "partner_id", "service_id", "order_id",
    "type", "cost", "income_total", "income", "partner_income",
    "system_income", "command", "phone_number", "email", "resultStr",
    "date_created", "version"]

  /** A POST body: PHP's `$_POST` holds one string per field name. */
  type Post = map<string, string>

  /** The values of the given fields that the post holds, in field order
      (what the loop collects before the secret). */
  function PresentValues(post: Post, fields: seq<string>): seq<string> {
    if fields == [] then []
    else
      var f := fields[|fields| - 1];
      PresentValues(post, fields[..|fields| - 1]) + (if f in post then [post[f]] else [])
  }

  /** The string whose MD5 digest a notification must carry in `check`. */
  function CallbackSignInput(post: Post, secret: string): string {
    Implode(PresentValues(post, Whitelist) + [secret])
  }

  /** `checkCallbackSign($post)`: the digest matches the `check` field; a
      post without `check` never matches. */
  predicate CallbackSignValid(b: Builtins, post: Post, secret: string) {
    "check" in post && b.md5(CallbackSignInput(post, secret)) == post["check"]
  }

  /** The text a field contributes: its value, or nothing when absent. */
  function FieldText(post: Post, f: string): string {
    if f in post then post[f] else ""
  }

  /** The field texts of the given fields, one after the other. */
  function ConcatFields(post: Post, fields: seq<string>): string {
    if fields == [] then ""
    else ConcatFields(post, fields[..|fields| - 1]) + FieldText(post, fields[|fields| - 1])
  }

  lemma ImplodeSnoc(parts: seq<string>, x: string)
    ensures Implode(parts + [x]) == Implode(parts) + x
  {
    assert (parts + [x])[..|parts|] == parts;
  }

  /** Skipping absent fields is the same as counting them as "". */
  lemma {:induction false} PresentValuesConcat(post: Post, fields: seq<string>)
    ensures Implode(PresentValues(post, fields)) == ConcatFields(post, fields)
  {
    if fields != [] {
      var init, f := fields[..|fields| - 1], fields[|fields| - 1];
      PresentValuesConcat(post, init);
      if f in post {
        ImplodeSnoc(PresentValues(post, init), post[f]);
      } else {
        assert PresentValues(post, fields) == PresentValues(post, init) + [];
        assert PresentValues(post, init) + [] == PresentValues(post, init);
      }
    }
  }

  /** The signed string spelled out: the texts of the whitelisted fields
      in order, then the secret. */
  lemma SignInputIsFieldsThenSecret(post: Post, secret: string)
    ensures CallbackSignInput(post, secret) == ConcatFields(post, Whitelist) + secret
  {
    ImplodeSnoc(PresentValues(post, Whitelist), secret);
    PresentValuesConcat(post, Whitelist);
  }

  /** Posts that agree on the texts of the given fields agree on their
      concatenation. */
  lemma {:induction false} ConcatFieldsAgree(post: Post, post': Post, fields: seq<string>)
    requires forall i :: 0 <= i < |fields| ==> FieldText(post, fields[i]) == FieldText(post', fields[i])
    ensures ConcatFields(post, fields) == ConcatFields(post', fields)
  {
    if fields != [] {
      ConcatFieldsAgree(post, post', fields[..|fields| - 1]);
    }
  }

  /** Only the whitelisted fields and `check` decide whether a notification
      is accepted; an absent field counts the same as an empty one. */
  lemma ValidityDependsOnlyOnWhitelist(b: Builtins, post: Post, post': Post, secret: string)
    requires forall f :: f in Whitelist ==> FieldText(post, f) == FieldText(post', f)
    requires ("check" in post <==> "check" in post') && ("check" in post ==> post["check"] == post'["check"])
    ensures CallbackSignValid(b, post, secret) <==> CallbackSignValid(b, post', secret)
  {
    SignInputIsFieldsThenSecret(post, secret);
    SignInputIsFieldsThenSecret(post', secret);
    ConcatFieldsAgree(post, post', Whitelist);
  }

  /** Adding or changing a field outside the whitelist (other than `check`)
      does not change the verdict. */
  lemma OtherFieldsAreIgnored(b: Builtins, post: Post, k: string, v: string, secret: string)
    requires k !in Whitelist && k != "check"
    ensures CallbackSignValid(b, post[k := v], secret) <==> CallbackSignValid(b, post, secret)
  {
    ValidityDependsOnlyOnWhitelist(b, post[k := v], post, secret);
  }

  /** Omitting a whitelisted field and sending it empty sign alike. */
  lemma AbsentIsEmpty(b: Builtins, post: Post, f: string, secret: string)
    requires f in Whitelist
    ensures CallbackSignValid(b, post - {f}, secret) <==> CallbackSignValid(b, post[f := ""], secret)
  {
    ValidityDependsOnlyOnWhitelist(b, post - {f}, post[f := ""], secret);
  }

  lemma {:induction false} ConcatFieldsSplit(post: Post, fs: seq<string>, gs: seq<string>)
    ensures ConcatFields(post, fs + gs) == ConcatFields(post, fs) + ConcatFields(post, gs)
  {
    if gs == [] {
      assert fs + gs == fs;
    } else {
      var init, g := gs[..|gs| - 1], gs[|gs| - 1];
      var all := fs + gs;
      assert all[..|all| - 1] == fs + init && all[|all| - 1] == g;
      ConcatFieldsSplit(post, fs, init);
      var a, b, c := ConcatFields(post, fs), ConcatFields(post, init), FieldText(post, g);
      assert ConcatFields(post, all) == (a + b) + c;
      assert ConcatFields(post, gs) == b + c;
      assert (a + b) + c == a + (b + c);
    }
  }

  /** With no separator between values, moving the boundary between two
      adjacent fields keeps the signed string: tid "1" with name "23" signs
      like tid "12" with name "3". */
  lemma BoundaryShiftKeepsSignature(secret: string)
    ensures CallbackSignInput(map["tid" := "1", "name" := "23"], secret)
         == CallbackSignInput(map["tid" := "12", "name" := "3"], secret)
  {
    assert "1" + "23" == "12" + "3";
    TidNameOnly(map["tid" := "1", "name" := "23"], map["tid" := "12", "name" := "3"], "1", "23", "12", "3", secret);
  }

  /** Two posts holding only `tid` and `name` sign alike when the two
      values read the same once run together. */
  lemma TidNameOnly(p: Post, q: Post, t: string, n: string, t': string, n': string, secret: string)
    requires p == map["tid" := t, "name" := n] && q == map["tid" := t', "name" := n']
    requires t + n == t' + n'
    ensures CallbackSignInput(p, secret) == CallbackSignInput(q, secret)
  {
    var head, rest := Whitelist[..2], Whitelist[2..];
    assert Whitelist == head + rest;
    ConcatFieldsSplit(p, head, rest);
    ConcatFieldsSplit(q, head, rest);
    TidNameTexts(p, t, n);
    TidNameTexts(q, t', n');
    RestIsUntouched(p, q);
    SignInputIsFieldsThenSecret(p, secret);
    SignInputIsFieldsThenSecret(q, secret);
  }

  lemma TidNameTexts(post: Post, tid: string, name: string)
    requires post == map["tid" := tid, "name" := name]
    ensures ConcatFields(post, Whitelist[..2]) == tid + name
  {
    var head := Whitelist[..2];
    assert head == ["tid", "name"];
    assert head[..1] == ["tid"] && ["tid"][..0] == [];
    assert ConcatFields(post, ["tid"]) == tid;
  }

  lemma RestIsUntouched(p: Post, q: Post)
    requires p.Keys == q.Keys == {"tid", "name"}
    ensures ConcatFields(p, Whitelist[2..]) == ConcatFields(q, Whitelist[2..])
  {
    var rest := Whitelist[2..];
    forall i | 0 <= i < |rest|
      ensures FieldText(p, rest[i]) == FieldText(q, rest[i])
    {
      assert rest[i] == Whitelist[i + 2];
      assert rest[i] !in p.Keys;
    }
    ConcatFieldsAgree(p, q, rest);
  }
}
