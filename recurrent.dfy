/**
 * `RecurrentParams`: the extra fields of a payment that starts or continues
 * a series of recurrent payments.
 */
module Recurrent {
  import opened Php

  const First := "first"
  const Next := "next"
  const ByRequest := "byrequest"

  /** `first_pay($url, $comment)` and `next_pay($order_id)`. */
  datatype RecurrentParams = FirstPay(url: string, comment: string) | NextPay(orderId: string)
  {
    /** The `fields` array the factory builds. */
    function Fields(): (r: Assoc)
      ensures DistinctKeys(r)
      ensures FirstPay? ==> ToMap(r) == map[
        "recurrent_type" := First,
        "recurrent_comment" := comment,
        "recurrent_url" := url,
        "recurrent_period" := ByRequest]
      ensures NextPay? ==> ToMap(r) == map[
        "recurrent_type" := Next,
        "recurrent_order_id" := orderId]
    {
      match this
      case FirstPay(url, comment) =>
        var period := [Pair("recurrent_period", ByRequest)];
        var rest := [Pair("recurrent_url", url)] + period;
        var tail := [Pair("recurrent_comment", comment)] + rest;
        ToMapCons(Pair("recurrent_url", url), period);
        ToMapCons(Pair("recurrent_comment", comment), rest);
        ToMapCons(Pair("recurrent_type", First), tail);
        [Pair("recurrent_type", First)] + tail
      case NextPay(orderId) =>
        ToMapCons(Pair("recurrent_type", Next), [Pair("recurrent_order_id", orderId)]);
        [Pair("recurrent_type", Next), Pair("recurrent_order_id", orderId)]
    }
  }
}
