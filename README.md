# alba.php: a verified model of the payment gateway client

`alba.php` is the PHP client of a payment gateway's partner API. The model
covers four parts of it:

- **Request signing.** `AlbaService::sign` sorts the parameters by key. It
  lower-cases the URL and splits it with `parse_url`. It normalises the
  path and the host, and upper-cases the HTTP method. The four parts are
  joined by newlines, and the result is HMAC-SHA256 signed and
  base64-encoded. The query part is built by `_http_build_query_rfc_3986`,
  which percent-encodes values as `rawurlencode` does.
- **The fields of each request.** These are built by `RecurrentParams` and
  by `payTypes`, `initPayment`, `transactionDetails`, `refund`,
  `gateDetails` and `createCardToken`. Each signed request gets a trailing
  `check` field. The check is computed over the fields before it.
- **The notification signature.** `checkCallbackSign` concatenates the
  values of 18 whitelisted fields in a fixed order, followed by the secret.
  It then compares the MD5 digest of that string with the `check` field.
- **The webhook router.** The `AlbaCallback` constructor builds a registry
  of services keyed by service id. `handle` checks the service id and the
  signature. `callback` then picks one of four handlers by command.

How the model represents PHP:

- A PHP array with string keys is `Php.Assoc`, the sequence of its entries
  in insertion order.
- `Php.ToMap` gives the array's contents.
- `$a[k] = v` is `Php.Put`, and `array_merge` is `Php.Merge`.
- The primitives the client calls but does not define are fields of
  `Php.Builtins`, passed as a parameter and left uninterpreted. These are
  md5, `hash_hmac('sha256', …, TRUE)`, `base64_encode`, `parse_url` and the
  locale collation behind `ksort(…, SORT_LOCALE_STRING)`.
- An operation that would call `_curl` returns the `Service.Request` it
  would send. `Service.Classify` models how `_curl` treats the answer.

Modules:

- `php.dfy`: PHP arrays, truthiness, case mapping, trimming and padding.
- `rfc3986.dfy`: `rawurlencode` and `rawurldecode` (sections 2.1 and 2.3 of
  RFC 3986).
- `collation.dfy`: `ksort` as a stable sort (PHP 8.0 and later).
- `signing.dfy`: the canonical string and the signature.
- `errors.dfy`: `AlbaException`.
- `recurrent.dfy`: `RecurrentParams`.
- `notification.dfy`: the notification signature.
- `service.dfy`: the `AlbaService` class and response classification.
- `callback.dfy`: the `AlbaCallback` class.

`$commission` defaults to `'partner'` (alba.php:216), so `initPayment`
always sends `commission`. `Service.AlbaService.InitPayment` declares the
same defaults as the source for its optional parameters.

## Model

| member | source | states |
|---|---|---|
| `Php.Put` | alba.php:231-237 | `$a[k] = v` leaves the contents updated at k. A key that was absent is appended after all existing entries. |
| `Php.PutKeepsDistinct` | alba.php:231-237 | Assigning to a key never creates a second entry with the same key. |
| `Php.Merge` | alba.php:240 | `array_merge(a, b)` with string keys: the keys are those of a and b together, and every entry of a keeps its position. |
| `Php.MergeOverrides` | alba.php:240 | `array_merge(a, b)` holds the contents of a overridden by those of b. |
| `Php.MergeKeepsDistinct` | alba.php:240 | `array_merge` keeps the keys distinct. |
| `Php.SameContentsArePermutations` | alba.php:110 | Two arrays with distinct keys and the same key-value contents hold the same entries, possibly in another order. |
| `Php.RTrim` | alba.php:115 | `rtrim` returns a prefix of its input. Everything it cuts off is in the character list. What remains does not end in one of those characters. |
| `Php.LTrim` | alba.php:96 | `ltrim` returns a suffix of its input. Everything it cuts off is the character. What remains does not start with it. |
| `Php.Truthy` | alba.php:289-297 | `if ($x)` on an optional string argument: false when it is omitted, "" or "0", true for every other string. |
| `Php.Trim` | alba.php:96 | `trim($r, '&')`: `Php.LTrim` with the character, then `Php.RTrim` with it. |
| `Php.NatToString` | alba.php:119 | A port is rendered as decimal digits that denote it, with no leading zero. |
| `Php.NatToStringIsInjective` | alba.php:119 | Different ports are rendered differently. |
| `Php.ZeroPad2` | alba.php:337 | `sprintf('%02s')` returns at least two characters. The result ends with the input and is left-padded with '0' only. |
| `Rfc3986.RawUrlEncode` | alba.php:93 | `rawurlencode` output consists of unreserved characters and the '%' of escapes only. In particular it holds no '&' or '='. |
| `Rfc3986.DecodeInvertsEncode` | alba.php:93 | `rawurldecode` recovers every byte string from its `rawurlencode` form. |
| `Rfc3986.SpaceIsPercent20` | alba.php:93 | A space is encoded as `%20`, never as '+'. |
| `Rfc3986.EncodeDistributes` | alba.php:93 | `rawurlencode` works byte by byte: the encoding of a concatenation is the concatenation of the encodings. |
| `Rfc3986.UnreservedIsKept` | alba.php:93 | An unreserved character (section 2.3 of RFC 3986: letters, digits, '-', '.', '_', '~') is kept as it is. |
| `Rfc3986.OtherByteIsEscaped` | alba.php:93 | Every other byte becomes '%' and two upper-case hex digits that denote it (section 2.1 of RFC 3986). |
| `Rfc3986.SpaceAnywhereIsPercent20` | alba.php:93 | A space anywhere in a value is encoded as `%20`. |
| `Collation.SortByKey` | alba.php:110 | `ksort` returns a permutation of the entries. |
| `Collation.SortByKeyIsSorted` | alba.php:110 | Under a total preorder, the keys come out in collation order. |
| `Collation.SortByKeyKeepsDistinct` | alba.php:110 | Sorting keeps the keys distinct. |
| `Collation.SortedArrangementIsUnique` | alba.php:110 | Under a collation that never ties different keys, entries with distinct keys have only one sorted arrangement. |
| `Collation.SortIgnoresInsertionOrder` | alba.php:110 | Under such a collation, `ksort`'s result does not depend on the order the entries were inserted in. |
| `Collation.SortByKeyIsStable` | alba.php:110 | The sort is stable under any total preorder: for every key, the entries whose keys tie with it come out in the order they were inserted in. |
| `Collation.TiedKeysKeepInsertionOrder` | alba.php:110 | Under a collation that ties all keys, the array is left as it is. |
| `Signing.TermShape` | alba.php:91-93 | One term is the raw key, '=' and the encoded value. It never ends in '&'. |
| `Signing.QueryString` | alba.php:96 | The query never starts or ends with '&'. |
| `Signing.AccumulatedIsJoined` | alba.php:84-95 | The loop builds '&' followed by the terms joined by '&', in array order. |
| `Signing.QueryStringShape` | alba.php:82-97 | The query of an empty array is "". Otherwise it is `k1=enc(v1)&…&kn=enc(vn)` in array order. Only when the first key starts with '&' are those leading separators lost. |
| `Signing.CanonicalPath` | alba.php:114-115 | The path part is "" exactly when the URL has no path. Otherwise it ends in '/', and what precedes that '/' is a prefix of the path. Everything cut from the path is '/' or '\'. The part ends in exactly one separator. |
| `Php.ToLower` | alba.php:112 | `strtolower`: each ASCII upper-case letter mapped to lower case, everything else kept. |
| `Php.ToUpper` | alba.php:123 | `strtoupper`: each ASCII lower-case letter mapped to upper case, everything else kept. |
| `Signing.CanonicalString` | alba.php:112-132 | The string that is signed: the upper-cased method, the host part, the path part and the query of the key-sorted parameters, joined by newlines. |
| `Signing.CanonicalPathIsIdempotent` | alba.php:114-115 | Normalising a normalised path changes nothing. |
| `Signing.CanonicalHost` | alba.php:116-121 | The host part starts with the host, or with "" when there is none. It is longer than the host exactly when a port other than 80 is present and skipPort is false. In that case the extension is ':' and the decimal port. |
| `Signing.SkippedPortIsIgnored` | alba.php:117-121 | With skipPort set, the host part is the host, whatever the port. |
| `Signing.Port80IsIgnored` | alba.php:117 | An explicit port 80 signs like no port. |
| `Signing.SignatureIgnoresInsertionOrder` | alba.php:108-142 | Under a collation without ties, permuting the parameters leaves the signature unchanged. |
| `Signing.SignatureDependsOnlyOnContents` | alba.php:108-142 | Arrays with the same key-value contents get the same signature. |
| `Signing.Signature` | alba.php:134-142 | The value `sign` returns: the base64 encoding of the raw HMAC-SHA256 of the canonical string under the secret key. |
| `Signing.SignatureFoldsCase` | alba.php:112-123 | The signature sees the URL only lower-cased and the method only upper-cased. |
| `Errors.NewAlbaException` | alba.php:6-10 | The constructor yields an AlbaException carrying the error exactly when it gets both of its arguments. |
| `Errors.NotificationErrorsAreLost` | alba.php:412-446 | As written, every notification error surfaces as an ArgumentCountError. |
| `Errors.BadSignatureLooksLikeUnknownService` | alba.php:425-428 | As written, a bad signature and an unknown service raise the same thing. |
| `Errors.Raise` | alba.php:6-10 | Raising with message and code carries the error. |
| `Errors.RaiseAsWritten` | alba.php:417-446 | What each throw site raises as the code stands: the HTTP errors pass a message and a code, the four notification errors only a message. |
| `Recurrent.RecurrentParams.Fields` | alba.php:20-39 | `first_pay(url, c)` yields exactly recurrent_type "first", recurrent_comment c, recurrent_url url and recurrent_period "byrequest". `next_pay(o)` yields exactly recurrent_type "next" and recurrent_order_id o. The keys are distinct. |
| `Php.Implode` | alba.php:391 | `implode` with no glue: the parts' texts one after the other. |
| `Notification.ImplodeSnoc` | alba.php:390-391 | Appending a part to the list appends its text to the imploded string. |
| `Notification.PresentValuesConcat` | alba.php:385-389 | Skipping absent fields gives the same string as counting each of them as "". |
| `Notification.SignInputIsFieldsThenSecret` | alba.php:364-391 | The hashed string is the texts of the 18 whitelisted fields in their fixed order, then the secret. |
| `Notification.ConcatFieldsAgree` | alba.php:385-389 | Posts that agree on the listed fields' texts agree on their concatenation. |
| `Notification.ValidityDependsOnlyOnWhitelist` | alba.php:362-392 | The verdict depends only on the texts of the whitelisted fields and on `check`. |
| `Notification.OtherFieldsAreIgnored` | alba.php:385-389 | Adding or changing a field outside the whitelist, other than `check`, does not change the verdict. |
| `Notification.AbsentIsEmpty` | alba.php:386-388 | Omitting a whitelisted field and sending it empty get the same verdict. |
| `Notification.BoundaryShiftKeepsSignature` | alba.php:391 | Values are concatenated without separators: tid "1" with name "23" hashes like tid "12" with name "3". |
| `Notification.TidNameOnly` | alba.php:384-393 | Any two posts holding only `tid` and `name` whose values run together to the same text carry the same signature input. |
| `Notification.ConcatFieldsSplit` | alba.php:385-389 | The texts of a field list split at any point are the texts of the two parts, one after the other. |
| `Service.Classify` | alba.php:170-188 | A failed transfer raises a transport error. An answer whose status is "error" raises PHP's conversion Error or TypeError exactly when its message (msg, else message) is an object or an array or its code is an object. Otherwise it raises an API error carrying that message (null when both are missing) and the code (else "unknown"). Any other answer, including a body that is not an object, is returned unchanged. |
| `Service.ApiErrorCarriesServerTexts` | alba.php:179-183 | An error answer with a string msg and code raises an AlbaException carrying exactly those texts. |
| `Service.UnprintableErrorIsNoAlbaException` | alba.php:180-183 | An error answer whose message is an object or array, or whose code is an object, raises something other than AlbaException. |
| `Service.FixedInitFields` | alba.php:220-230 | The nine fixed `initPayment` fields have distinct keys and the given values. |
| `Service.InitPaymentKeys` | alba.php:220-241 | The keys sent are exactly the nine fixed ones, plus order_id, card_token and the recurrent fields' keys each only when given. |
| `Service.InitPaymentFields` | alba.php:220-241 | The nine fixed fields always keep their values, and no recurrent field overrides them. order_id and card_token are sent exactly when given. Every recurrent field arrives as built. The keys are exactly the nine fixed ones, order_id and card_token when given, and the recurrent keys only when recurrent params are given. `check` is not among the signed fields. |
| `Service.RefundFields` | alba.php:286-299 | version and tid are always sent. amount and reason are sent exactly when truthy, so "" and "0" are dropped. test is sent as "1" exactly when requested. No other key is sent. |
| `Service.FixedRefundFields` | alba.php:286-287 | The two fixed `refund` fields have distinct keys and hold version 2.0 and the tid. |
| `Service.PutWhen` | alba.php:289-291 | A conditional assignment keeps the keys distinct and sets the key exactly when the condition holds. |
| `Service.CardTokenFixedFields` | alba.php:339-345 | The five fixed card-token fields have distinct keys and the given values. |
| `Service.CardTokenFields` | alba.php:337-348 | A one-character month gains a leading '0', and a longer month is kept. card_holder is sent exactly when truthy. The request carries no `check`. |
| `Service.AlbaService.constructor` | alba.php:60-64 | The service keeps its id and secret. |
| `Service.AlbaService.HttpBuildQueryRfc3986` | alba.php:82-97 | The loop's result is the query string, whose shape `Signing.QueryStringShape` gives. |
| `Service.AlbaService.Sign` | alba.php:108-143 | The step-by-step computation yields `Signing.Signature` of its inputs. |
| `Service.AlbaService.Signed` | alba.php:245-250 | Appending `check` gives distinct keys. The fields before `check` are unchanged. `check` is the signature of the method, URL and those fields. |
| `Service.AlbaService.PayTypes` | alba.php:196-203 | A GET without fields. Its URL carries the service id and the MD5 digest of the id followed by the secret. |
| `Service.AlbaService.InitPayment` | alba.php:215-254 | Defaults as in the source: no order id, commission 'partner', no card token, no recurrent params. A POST to alba/input/ with distinct keys, signed over the fields before `check`. Those fields hold exactly the `InitPaymentContents` that `Service.InitPaymentFields` describes. |
| `Service.AlbaService.TransactionDetails` | alba.php:261-274 | A signed POST to alba/details/ of tid and version "2.0". |
| `Service.AlbaService.Refund` | alba.php:283-309 | A signed POST to alba/refund/ of exactly the fields `Service.RefundFields` describes. |
| `Service.AlbaService.GateDetails` | alba.php:315-329 | A request to alba/gate_details/ of version, gate and service_id, signed as a GET. |
| `Service.AlbaService.CreateCardToken` | alba.php:335-356 | An unsigned POST to the test or production card-token host plus "create", with the fields `Service.CardTokenFields` describes. |
| `Service.AlbaService.CheckCallbackSign` | alba.php:362-392 | The loop accepts exactly when `check` is present and equals the MD5 digest of the whitelisted values present, followed by the secret. |
| `Callback.CommandOfIsInjective` | alba.php:437-447 | Each command selects at most one handler. |
| `Callback.Callback` | alba.php:435-448 | A handler fires exactly when the command is process, success, recurrent_cancel or refund, and it is that command's handler. Any other command, or none, is an UnknownCommand error naming it. |
| `Callback.RegistryKeys` | alba.php:401-407 | The registry holds exactly the ids of the listed services. |
| `Callback.RegistryLastWins` | alba.php:404-406 | An id is served by the last listed service carrying it. |
| `Callback.HandlerRunsOnlyWhenAuthentic` | alba.php:412-430 | A handler runs only if the service id is present and registered and that service's secret signs the notification. The handler is the one for the notification's command. |
| `Callback.UnknownServiceIgnoresSignature` | alba.php:420-429 | An unregistered service id is refused before any signature check: the verdict does not depend on the digest. |
| `Callback.AuthenticNotificationReachesCallback` | alba.php:420-423 | An authentic notification for a registered service goes to `callback`. |
| `Callback.AlbaCallback.constructor` | alba.php:401-407 | The services map is the registry of the list. |
| `Callback.AlbaCallback.Handle` | alba.php:412-430 | The outcome is the decision `HandleOutcome`. A missing service_id is a MissingParameter error. An unregistered id is an UnknownService error. A bad signature is BadSignature, with no handler run. Otherwise the outcome is `callback`'s. |

## Left out

- Transport is not modelled. This covers `_curl`'s cURL calls, its timeout, the `http_build_query` encoding of the POST body and of the `gateDetails` query, and `json_decode`. Operations return the request they would send; `Service.Classify` covers only how the answer is treated.
- `payTypes` and `createCardToken` return the `types` and `token` fields of the answer. The model stops at the request.
- `_log` is not modelled: it has no effect.
- A decoded JSON value is kept only as far as PHP's conversion to a string tells values apart: a string keeps its text, while numbers and booleans are one case (`JScalar`) whose text is not kept, and arrays and objects are one case each.
- HMAC-SHA256, MD5, base64 and `parse_url` are uninterpreted functions. Only their inputs are reasoned about. The model therefore cannot compute a concrete signature value.
- The locale collation of `ksort(…, SORT_LOCALE_STRING)` is a parameter. Order independence is proved for collations that never tie different keys. Under ties, the stable order is kept, as PHP's sort does from PHP 8.0 on; earlier versions used an unstable sort, which is not modelled.
- The bodies of the four handlers are not modelled: they are empty extension points. Only which handler fired is recorded.
- The exception message texts are not modelled.
- Values are kept as the strings PHP would convert them to. Integer keys are not modelled: PHP would normalise numeric-string keys to integers. The loose comparison of `in_array` in `handle` is modelled as exact string equality.
- An optional argument passed explicitly as NULL to `initPayment` is not modelled. For `order_id` or `card_token`, the signature would cover an empty value, because `rawurlencode(null)` is "", but `http_build_query` drops NULL values, so the field would not be sent. A NULL `$recurrent_params` makes `array_merge` raise a TypeError from PHP 8 on.
- A char stands for a byte, and case mapping is ASCII-only, as `strtolower`/`strtoupper` are from PHP 8.2 on.
- Constructing `RecurrentParams` directly with arbitrary fields is not modelled: only the two factories are.
- The separator of `_http_build_query_rfc_3986` is fixed at its default '&', the only one the client uses.
- `Service.AlbaService.GateDetails`: the request URL is kept without the query string that carries the fields.

## Findings

| source | as written | input that shows it | evidently intended | confidence | as-written member | corrected member |
|---|---|---|---|---|---|---|
| alba.php:417 | The four notification throw sites (alba.php:417, 425, 428, 446) call `new AlbaException($message)` with one argument. The constructor at alba.php:6 requires a message and a code, so PHP 7.1 and later raise an ArgumentCountError instead. | A notification without `service_id`, or one with a bad signature: both raise the same ArgumentCountError. | An AlbaException that carries the message and a code for the error kind. | not executed | `Errors.NotificationErrorsAreLost` | `Errors.Raise` |
