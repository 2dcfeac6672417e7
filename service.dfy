/**
 * `AlbaService`: a client of the payment gateway bound to one service id
 * and its secret. Every operation assembles the fields of one request,
 * signs them where the API asks for it, and hands the request to `_curl`;
 * here an operation returns the request it would send.
 */
module Service {
  import opened Php
  import opened Rfc3986
  import opened Collation
  import opened Signing
  import opened Recurrent
  import opened Notification
  import opened Errors

  const BaseUrl := "https://partner.rficb.ru/"
  const CardTokenUrl := "https://secure.rficb.ru/cardtoken/"
  const CardTokenTestUrl := "https://test.rficb.ru/cardtoken/"

  /** An HTTP request: its method, its URL, and the fields it carries. */
  datatype Request = Request(verb: string, url: string, fields: Assoc)

  /** The fields before the trailing `check`. */
  function Unsigned(fields: Assoc): Assoc
    requires fields != []
  {
    fields[..|fields| - 1]
  }

  /** The last field is `check`, the signature of the request's method and
      URL and of all the fields before it, made with the given secret. */
  predicate SignedBy(b: Builtins, r: Request, secret: string) {
    && r.fields != []
    && r.fields[|r.fields| - 1] == Pair("check", Signature(b, r.verb, r.url, Unsigned(r.fields), secret, false))
  }

  /** Adding an entry with a new key in front of an array with distinct keys. */
  lemma Cons(p: Pair, a: Assoc)
    requires DistinctKeys(a) && p.key !in ToMap(a)
    ensures DistinctKeys([p] + a)
    ensures ToMap([p] + a) == ToMap(a)[p.key := p.value]
  {
    ToMapCons(p, a);
    assert ([p] + a)[1..] == a;
    DistinctCons([p] + a);
  }

  /** What `_curl` received: nothing (the transfer failed), or a body that
      json_decode turned into an object (Some) or not (None). */
  datatype CurlResult = Failed | Received(answer: Option<map<string, Json>>)

  predicate IsErrorAnswer(r: CurlResult) {
    r.Received? && r.answer.Some? && "status" in r.answer.value && r.answer.value["status"] == JString("error")
  }

  /** What `_curl` does with what it received: return the decoded answer,
      or throw. */
  datatype Reply = Returned(answer: Option<map<string, Json>>) | Threw(raised: Raised)

  /** The message of an error answer: `msg` if present, else `message`
      (null when that is missing too). */
  function ErrorMessage(o: map<string, Json>): Json {
    if "msg" in o then o["msg"] else if "message" in o then o["message"] else JNull
  }

  /** The code of an error answer: `code` if present, else "unknown". */
  function ErrorCode(o: map<string, Json>): Json {
    if "code" in o then o["code"] else JString("unknown")
  }

  /** How `_curl` treats what it received. A failed transfer raises a
      transport error. An answer whose status is "error" is first logged as
      "$msg ($code)", which fails for an object message or code, and then
      raised with the message passed to `Exception`'s string parameter,
      which refuses an array. Any other answer, including a body that is not
      a JSON object, is returned as it is. */
  function Classify(r: CurlResult): (res: Reply)
    ensures res.Returned? <==> !r.Failed? && !IsErrorAnswer(r)
    ensures res.Returned? ==> res.answer == r.answer
    ensures r.Failed? ==> res == Threw(AlbaException(Transport))
    ensures IsErrorAnswer(r) ==>
      var msg, code := ErrorMessage(r.answer.value), ErrorCode(r.answer.value);
      && (res == Threw(ConversionError) <==> msg.JObject? || msg.JArray? || code.JObject?)
      && (res != Threw(ConversionError) ==> res == Threw(AlbaException(Api(msg, code))))
  {
    match r
    case Failed => Threw(NewAlbaException(2, Transport))
    case Received(answer) =>
      if answer.Some? && "status" in answer.value && answer.value["status"] == JString("error") then
        var msg := ErrorMessage(answer.value);
        var code := ErrorCode(answer.value);
        if msg.JObject? || code.JObject? then Threw(ConversionError)       // "$msg ($code)"
        else if msg.JArray? then Threw(ConversionError)                     // parent::__construct($message)
        else Threw(NewAlbaException(2, Api(msg, code)))
      else
        Returned(answer)
  }

  /** An error answer whose message and code are strings raises an
      AlbaException that carries the server's own texts. */
  lemma ApiErrorCarriesServerTexts(o: map<string, Json>, msg: string, code: string)
    requires "status" in o && o["status"] == JString("error")
    requires "msg" in o && o["msg"] == JString(msg) && "code" in o && o["code"] == JString(code)
    ensures Classify(Received(Some(o))) == Threw(AlbaException(Api(JString(msg), JString(code))))
  {
  }

  /** An error answer whose message is an object or an array, or whose code
      is an object, raises no AlbaException at all. */
  lemma UnprintableErrorIsNoAlbaException(o: map<string, Json>)
    requires "status" in o && o["status"] == JString("error")
    requires ErrorMessage(o).JObject? || ErrorMessage(o).JArray? || ErrorCode(o).JObject?
    ensures !Classify(Received(Some(o))).Returned?
    ensures !Classify(Received(Some(o))).raised.AlbaException?
  {
  }

  /** The nine fields every `initPayment` sends. */
  function FixedInitContents(serviceId: string, payType: string, cost: string, name: string, email: string,
                             phone: string, commission: string): map<string, string>
  {
    map[
      "cost" := cost, "name" := name, "email" := email, "phone_number" := phone,
      "background" := "1", "commission" := commission, "type" := payType,
      "service_id" := serviceId, "version" := "2.0"]
  }

  const FixedInitKeys: set<string> :=
    {"cost", "name", "email", "phone_number", "background", "commission", "type", "service_id", "version"}

  const RecurrentKeys: set<string> :=
    {"recurrent_type", "recurrent_comment", "recurrent_url", "recurrent_period", "recurrent_order_id"}

  /** The fields `initPayment` sends before `check`, as a finite map: the
      nine fixed fields, the order id and card token when given, and the
      recurrent fields on top. */
  function InitPaymentContents(serviceId: string, payType: string, cost: string, name: string, email: string,
                               phone: string, orderId: Option<string>, commission: string,
                               cardToken: Option<string>, recurrent: Option<RecurrentParams>): map<string, string>
  {
    var fixed := FixedInitContents(serviceId, payType, cost, name, email, phone, commission);
    var withOrder := if orderId.Some? then fixed["order_id" := orderId.value] else fixed;
    var withToken := if cardToken.Some? then withOrder["card_token" := cardToken.value] else withOrder;
    if recurrent.Some? then withToken + ToMap(recurrent.value.Fields()) else withToken
  }

  lemma RecurrentFieldKeys(rp: RecurrentParams)
    ensures ToMap(rp.Fields()).Keys <= RecurrentKeys
  {
  }

  lemma KeyGroupsApart()
    ensures FixedInitKeys !! RecurrentKeys
    ensures "order_id" !in FixedInitKeys + RecurrentKeys && "card_token" !in FixedInitKeys + RecurrentKeys
    ensures "check" !in FixedInitKeys + RecurrentKeys + {"order_id", "card_token"}
  {
  }

  /** The nine fixed fields are always sent with the values given (no
      recurrent field overrides them); order_id and card_token are sent
      exactly when given; the recurrent fields all arrive as built, and
      only when recurrent params are given; no other key is sent, and
      `check` is not among the signed fields. */
  lemma InitPaymentFields(serviceId: string, payType: string, cost: string, name: string, email: string,
                          phone: string, orderId: Option<string>, commission: string,
                          cardToken: Option<string>, recurrent: Option<RecurrentParams>)
    ensures var m := InitPaymentContents(serviceId, payType, cost, name, email, phone, orderId, commission, cardToken, recurrent);
      var fixed := FixedInitContents(serviceId, payType, cost, name, email, phone, commission);
      && (forall k :: k in fixed ==> k in m && m[k] == fixed[k])
      && ("order_id" in m <==> orderId.Some?) && (orderId.Some? ==> m["order_id"] == orderId.value)
      && ("card_token" in m <==> cardToken.Some?) && (cardToken.Some? ==> m["card_token"] == cardToken.value)
      && (recurrent.Some? ==> forall k :: k in ToMap(recurrent.value.Fields()) ==> k in m && m[k] == ToMap(recurrent.value.Fields())[k])
      && m.Keys == FixedInitKeys + (if orderId.Some? then {"order_id"} else {})
                   + (if cardToken.Some? then {"card_token"} else {})
                   + (if recurrent.Some? then ToMap(recurrent.value.Fields()).Keys else {})
      && "check" !in m
  {
    KeyGroupsApart();
    var fixed := FixedInitContents(serviceId, payType, cost, name, email, phone, commission);
    assert fixed.Keys == FixedInitKeys;
    if recurrent.Some? {
      RecurrentFieldKeys(recurrent.value);
    }
    InitPaymentKeys(serviceId, payType, cost, name, email, phone, orderId, commission, cardToken, recurrent);
  }

  lemma InitPaymentKeys(serviceId: string, payType: string, cost: string, name: string, email: string,
                        phone: string, orderId: Option<string>, commission: string,
                        cardToken: Option<string>, recurrent: Option<RecurrentParams>)
    ensures InitPaymentContents(serviceId, payType, cost, name, email, phone, orderId, commission, cardToken, recurrent).Keys
         == FixedInitKeys + (if orderId.Some? then {"order_id"} else {})
            + (if cardToken.Some? then {"card_token"} else {})
            + (if recurrent.Some? then ToMap(recurrent.value.Fields()).Keys else {})
  {
    var fixed := FixedInitContents(serviceId, payType, cost, name, email, phone, commission);
    assert fixed.Keys == FixedInitKeys;
    var o: set<string> := if orderId.Some? then {"order_id"} else {};
    var t: set<string> := if cardToken.Some? then {"card_token"} else {};
    var withOrder := if orderId.Some? then fixed["order_id" := orderId.value] else fixed;
    assert withOrder.Keys == FixedInitKeys + o;
    var withToken := if cardToken.Some? then withOrder["card_token" := cardToken.value] else withOrder;
    assert withToken.Keys == FixedInitKeys + o + t;
  }

  /** `m` with `k` set to `v` when `cond` holds, unchanged otherwise. */
  function MapWhen(m: map<string, string>, cond: bool, k: string, v: string): map<string, string> {
    if cond then m[k := v] else m
  }

  /** The string an optional argument stands for ("" when omitted). */
  function TextOf(x: Option<string>): string {
    if x.Some? then x.value else ""
  }

  /** The fields `refund` signs: version and tid always; amount and reason
      when truthy; test as "1" when requested. */
  function RefundContents(tid: string, amount: Option<string>, test: bool, reason: Option<string>): map<string, string> {
    var fixed := map["version" := "2.0", "tid" := tid];
    var withAmount := MapWhen(fixed, Truthy(amount), "amount", TextOf(amount));
    var withTest := MapWhen(withAmount, test, "test", "1");
    MapWhen(withTest, Truthy(reason), "reason", TextOf(reason))
  }

  /** An optional refund field is sent exactly when its argument is truthy:
      an amount or reason of "" or "0" is dropped. */
  lemma RefundFields(tid: string, amount: Option<string>, test: bool, reason: Option<string>)
    ensures var m := RefundContents(tid, amount, test, reason);
      && "version" in m && m["version"] == "2.0" && "tid" in m && m["tid"] == tid
      && ("amount" in m <==> Truthy(amount)) && (Truthy(amount) ==> m["amount"] == amount.value)
      && ("test" in m <==> test) && (test ==> m["test"] == "1")
      && ("reason" in m <==> Truthy(reason)) && (Truthy(reason) ==> m["reason"] == reason.value)
      && m.Keys <= {"version", "tid", "amount", "test", "reason"}
  {
  }

  /** The fields `createCardToken` sends: no signature; the month padded to
      two digits; the card holder only when truthy. */
  function CardTokenContents(serviceId: string, card: string, expMonth: string, expYear: string, cvc: string,
                             cardHolder: Option<string>): map<string, string> {
    var fixed := map["service_id" := serviceId, "card" := card, "exp_month" := ZeroPad2(expMonth),
                     "exp_year" := expYear, "cvc" := cvc];
    if Truthy(cardHolder) then fixed["card_holder" := cardHolder.value] else fixed
  }

  /** The month is sent as at least two characters, a one-character month
      with a leading '0'; the card holder is sent exactly when truthy; the
      request carries no `check`. */
  lemma CardTokenFields(serviceId: string, card: string, expMonth: string, expYear: string, cvc: string,
                        cardHolder: Option<string>)
    ensures var m := CardTokenContents(serviceId, card, expMonth, expYear, cvc, cardHolder);
      && "exp_month" in m && |m["exp_month"]| >= 2
      && (|expMonth| == 1 ==> m["exp_month"] == ['0', expMonth[0]])
      && (|expMonth| >= 2 ==> m["exp_month"] == expMonth)
      && ("card_holder" in m <==> Truthy(cardHolder))
      && (Truthy(cardHolder) ==> m["card_holder"] == cardHolder.value)
      && "check" !in m
  {
  }

  class AlbaService {
    const serviceId: string
    const secret: string

    constructor(serviceId: string, secret: string)
      ensures this.serviceId == serviceId && this.secret == secret
    {
      this.serviceId := serviceId;
      this.secret := secret;
    }

    /** `_http_build_query_rfc_3986($queryData)`: builds the query term by
        term, each preceded by '&', and trims the separator at both ends. */
    method HttpBuildQueryRfc3986(queryData: Assoc) returns (r: string)
      ensures r == QueryString(queryData)
    {
      var acc := "";
      for i := 0 to |queryData|
        invariant acc == Accumulated(queryData[..i])
      {
        assert queryData[..i + 1][..i] == queryData[..i];
        acc := acc + "&" + queryData[i].key + "=" + RawUrlEncode(queryData[i].value);
      }
      assert queryData[..|queryData|] == queryData;
      r := Trim(acc, '&');
    }

    /** `sign($method, $url, $params, $secretKey, $skipPort)`. */
    method Sign(b: Builtins, httpMethod: string, url: string, params: Assoc, secretKey: string, skipPort: bool)
      returns (signature: string)
      ensures signature == Signature(b, httpMethod, url, params, secretKey, skipPort)
    {
      var sorted := SortByKey(b.collate, params);
      var parsed := b.parseUrl(ToLower(url));
      var path := if parsed.path.Some? then RTrim(parsed.path.value, {'/', '\\'}) + "/" else "";
      var host := if parsed.host.Some? then parsed.host.value else "";
      if parsed.port.Some? && parsed.port.value != 80 {
        if !skipPort {
          host := host + ":" + NatToString(parsed.port.value);
        }
      }
      var upper := ToUpper(httpMethod);
      var query := HttpBuildQueryRfc3986(sorted);
      var data := upper + "\n" + host + "\n" + path + "\n" + query;
      signature := b.base64(b.hmacSha256(data, secretKey));
    }

    /** Appends `check`, the signature of the request so far. */
    method Signed(b: Builtins, verb: string, url: string, fields: Assoc) returns (req: Request)
      requires DistinctKeys(fields) && "check" !in ToMap(fields)
      ensures req.verb == verb && req.url == url
      ensures DistinctKeys(req.fields) && SignedBy(b, req, secret)
      ensures Unsigned(req.fields) == fields
    {
      var check := Sign(b, verb, url, fields, secret, false);
      PutKeepsDistinct(fields, "check", check);
      var all := Put(fields, "check", check);
      req := Request(verb, url, all);
    }

    /** `payTypes()`: a GET whose URL carries the service id and the MD5
        digest of the service id followed by the secret. */
    method PayTypes(b: Builtins) returns (req: Request)
      ensures req.verb == "GET" && req.fields == []
      ensures req.url == BaseUrl + "alba/pay_types/?service_id=" + serviceId + "&check=" + b.md5(serviceId + secret)
    {
      var check := b.md5(serviceId + secret);
      req := Request("GET", BaseUrl + "alba/pay_types/?service_id=" + serviceId + "&check=" + check, []);
    }

    /** `initPayment(...)`; an optional argument left at False is None. */
    method InitPayment(b: Builtins, payType: string, cost: string, name: string, email: string, phone: string,
                       orderId: Option<string> := None, commission: string := "partner",
                       cardToken: Option<string> := None,
                       recurrent: Option<RecurrentParams> := None) returns (req: Request)
      ensures req.verb == "POST" && req.url == BaseUrl + "alba/input/"
      ensures DistinctKeys(req.fields) && SignedBy(b, req, secret)
      ensures ToMap(Unsigned(req.fields))
           == InitPaymentContents(serviceId, payType, cost, name, email, phone, orderId, commission, cardToken, recurrent)
    {
      var fields := FixedInitFields(cost, name, email, phone, commission, payType, serviceId);
      if orderId.Some? {
        PutKeepsDistinct(fields, "order_id", orderId.value);
        fields := Put(fields, "order_id", orderId.value);
      }
      if cardToken.Some? {
        PutKeepsDistinct(fields, "card_token", cardToken.value);
        fields := Put(fields, "card_token", cardToken.value);
      }
      if recurrent.Some? {
        MergeKeepsDistinct(fields, recurrent.value.Fields());
        MergeOverrides(fields, recurrent.value.Fields());
        fields := Merge(fields, recurrent.value.Fields());
      }
      InitPaymentFields(serviceId, payType, cost, name, email, phone, orderId, commission, cardToken, recurrent);
      req := Signed(b, "POST", BaseUrl + "alba/input/", fields);
    }

    /** `transactionDetails($tid)`. */
    method TransactionDetails(b: Builtins, tid: string) returns (req: Request)
      ensures req.verb == "POST" && req.url == BaseUrl + "alba/details/"
      ensures DistinctKeys(req.fields) && SignedBy(b, req, secret)
      ensures Unsigned(req.fields) == [Pair("tid", tid), Pair("version", "2.0")]
    {
      var fields := [Pair("tid", tid), Pair("version", "2.0")];
      Cons(Pair("tid", tid), [Pair("version", "2.0")]);
      req := Signed(b, "POST", BaseUrl + "alba/details/", fields);
    }

    /** `refund($tid, $amount, $test, $reason)`; an omitted amount or reason
        is None. */
    method Refund(b: Builtins, tid: string, amount: Option<string>, test: bool, reason: Option<string>)
      returns (req: Request)
      ensures req.verb == "POST" && req.url == BaseUrl + "alba/refund/"
      ensures DistinctKeys(req.fields) && SignedBy(b, req, secret)
      ensures ToMap(Unsigned(req.fields)) == RefundContents(tid, amount, test, reason)
    {
      var fields := FixedRefundFields(tid);
      fields := PutWhen(fields, Truthy(amount), "amount", TextOf(amount));
      fields := PutWhen(fields, test, "test", "1");
      fields := PutWhen(fields, Truthy(reason), "reason", TextOf(reason));
      RefundFields(tid, amount, test, reason);
      req := Signed(b, "POST", BaseUrl + "alba/refund/", fields);
    }

    /** `gateDetails($gate)`: signed as a GET of the bare URL. */
    method GateDetails(b: Builtins, gate: string) returns (req: Request)
      ensures req.verb == "GET" && req.url == BaseUrl + "alba/gate_details/"
      ensures DistinctKeys(req.fields) && SignedBy(b, req, secret)
      ensures Unsigned(req.fields) == [Pair("version", "2.0"), Pair("gate", gate), Pair("service_id", serviceId)]
    {
      var fields := [Pair("version", "2.0"), Pair("gate", gate), Pair("service_id", serviceId)];
      Cons(Pair("gate", gate), [Pair("service_id", serviceId)]);
      Cons(Pair("version", "2.0"), [Pair("gate", gate), Pair("service_id", serviceId)]);
      req := Signed(b, "GET", BaseUrl + "alba/gate_details/", fields);
    }

    /** `createCardToken(...)`: an unsigned POST to the test or the
        production host. */
    method CreateCardToken(card: string, expMonth: string, expYear: string, cvc: string, test: bool,
                           cardHolder: Option<string>) returns (req: Request)
      ensures req.verb == "POST"
      ensures req.url == (if test then CardTokenTestUrl else CardTokenUrl) + "create"
      ensures DistinctKeys(req.fields)
      ensures ToMap(req.fields) == CardTokenContents(serviceId, card, expMonth, expYear, cvc, cardHolder)
    {
      var month := ZeroPad2(expMonth);
      var fields := CardTokenFixedFields(serviceId, card, month, expYear, cvc);
      if Truthy(cardHolder) {
        PutKeepsDistinct(fields, "card_holder", cardHolder.value);
        fields := Put(fields, "card_holder", cardHolder.value);
      }
      var baseUrl := if test then CardTokenTestUrl else CardTokenUrl;
      req := Request("POST", baseUrl + "create", fields);
    }

    /** `checkCallbackSign($post)`: collects the values of the whitelisted
        fields the post holds, appends the secret, and compares the MD5
        digest of the concatenation with `check`. */
    method CheckCallbackSign(b: Builtins, post: Post) returns (ok: bool)
      ensures ok <==> CallbackSignValid(b, post, secret)
    {
      var params: seq<string> := [];
      for i := 0 to |Whitelist|
        invariant params == PresentValues(post, Whitelist[..i])
      {
        assert Whitelist[..i + 1][..i] == Whitelist[..i];
        if Whitelist[i] in post {
          params := params + [post[Whitelist[i]]];
        }
      }
      assert Whitelist[..|Whitelist|] == Whitelist;
      params := params + [secret];
      ok := "check" in post && b.md5(Implode(params)) == post["check"];
    }
  }

  /** The nine fields every `initPayment` starts from: the array literal,
      entered key by key. */
  function FixedInitFields(cost: string, name: string, email: string, phone: string, commission: string,
                           payType: string, serviceId: string): (r: Assoc)
    ensures DistinctKeys(r)
    ensures ToMap(r) == FixedInitContents(serviceId, payType, cost, name, email, phone, commission)
  {
    var s1 := Put([], "cost", cost);
    var s2 := Put(s1, "name", name);
    var s3 := Put(s2, "email", email);
    var s4 := Put(s3, "phone_number", phone);
    var s5 := Put(s4, "background", "1");
    var s6 := Put(s5, "commission", commission);
    var s7 := Put(s6, "type", payType);
    var s8 := Put(s7, "service_id", serviceId);
    PutKeepsDistinct([], "cost", cost);
    PutKeepsDistinct(s1, "name", name);
    PutKeepsDistinct(s2, "email", email);
    PutKeepsDistinct(s3, "phone_number", phone);
    PutKeepsDistinct(s4, "background", "1");
    PutKeepsDistinct(s5, "commission", commission);
    PutKeepsDistinct(s6, "type", payType);
    PutKeepsDistinct(s7, "service_id", serviceId);
    PutKeepsDistinct(s8, "version", "2.0");
    Put(s8, "version", "2.0")
  }

  /** `if (cond) { $a[k] = v; }` */
  function PutWhen(a: Assoc, cond: bool, k: string, v: string): (r: Assoc)
    requires DistinctKeys(a)
    ensures DistinctKeys(r)
    ensures ToMap(r) == MapWhen(ToMap(a), cond, k, v)
  {
    if cond then
      PutKeepsDistinct(a, k, v);
      Put(a, k, v)
    else a
  }

  /** The two fields every `refund` starts from. */
  function FixedRefundFields(tid: string): (r: Assoc)
    ensures DistinctKeys(r)
    ensures ToMap(r) == map["version" := "2.0", "tid" := tid]
  {
    var s1 := Put([], "version", "2.0");
    PutKeepsDistinct([], "version", "2.0");
    PutKeepsDistinct(s1, "tid", tid);
    Put(s1, "tid", tid)
  }

  /** The five fields every `createCardToken` starts from. */
  function CardTokenFixedFields(serviceId: string, card: string, month: string, expYear: string, cvc: string): (r: Assoc)
    ensures DistinctKeys(r)
    ensures ToMap(r) == map["service_id" := serviceId, "card" := card, "exp_month" := month,
                            "exp_year" := expYear, "cvc" := cvc]
  {
    var s1 := Put([], "service_id", serviceId);
    var s2 := Put(s1, "card", card);
    var s3 := Put(s2, "exp_month", month);
    var s4 := Put(s3, "exp_year", expYear);
    PutKeepsDistinct([], "service_id", serviceId);
    PutKeepsDistinct(s1, "card", card);
    PutKeepsDistinct(s2, "exp_month", month);
    PutKeepsDistinct(s3, "exp_year", expYear);
    PutKeepsDistinct(s4, "cvc", cvc);
    Put(s4, "cvc", cvc)
  }
}
