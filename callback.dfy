/**
 * `AlbaCallback`: receives the gateway's payment notifications for a set
 * of services, checks each one's signature with the secret of the service
 * it names, and passes it to the handler its command selects.
 */
module Callback {
  import opened Php
  import opened Errors
  import opened Notification
  import opened Service

  /** The four extension points `callback` dispatches to. */
  datatype Handler = OnProcess | OnSuccess | OnRecurrentCancel | OnRefund

  /** The command that selects a handler. */
  function CommandOf(h: Handler): string {
    match h
    case OnProcess => "process"
    case OnSuccess => "success"
    case OnRecurrentCancel => "recurrent_cancel"
    case OnRefund => "refund"
  }

  /** Each command selects at most one handler. */
  lemma CommandOfIsInjective(h: Handler, h': Handler)
    requires CommandOf(h) == CommandOf(h')
    ensures h == h'
  {
  }

  /** What handling a notification comes to: one handler ran, or an
      exception was raised and none ran. */
  datatype Outcome = Fired(handler: Handler) | Rejected(error: AlbaError)

  /** `callback($data)`: the handler whose command the notification
      carries; any other command, or none, is an error. */
  function Callback(data: Post): (r: Outcome)
    ensures r.Fired? <==> "command" in data && data["command"] in {"process", "success", "recurrent_cancel", "refund"}
    ensures r.Fired? ==> CommandOf(r.handler) == data["command"]
    ensures r.Rejected? ==> r.error == UnknownCommand(if "command" in data then Some(data["command"]) else None)
  {
    var command := if "command" in data then Some(data["command"]) else None;
    if command == Some("process") then Fired(OnProcess)
    else if command == Some("success") then Fired(OnSuccess)
    else if command == Some("recurrent_cancel") then Fired(OnRecurrentCancel)
    else if command == Some("refund") then Fired(OnRefund)
    else Rejected(UnknownCommand(command))
  }

  /** The registry the constructor builds: each service under its id, a
      later service replacing an earlier one with the same id. */
  function Registry(list: seq<AlbaService>): map<string, AlbaService> {
    if list == [] then map[]
    else Registry(list[..|list| - 1])[list[|list| - 1].serviceId := list[|list| - 1]]
  }

  /** Every listed service's id is registered, and nothing else is. */
  lemma {:induction false} RegistryKeys(list: seq<AlbaService>)
    ensures Registry(list).Keys == set i | 0 <= i < |list| :: list[i].serviceId
  {
    if list != [] {
      var init := list[..|list| - 1];
      RegistryKeys(init);
      assert forall i :: 0 <= i < |init| ==> init[i] == list[i];
    }
  }

  /** An id is served by the last service in the list that carries it. */
  lemma {:induction false} RegistryLastWins(list: seq<AlbaService>, i: nat)
    requires i < |list|
    requires forall j :: i < j < |list| ==> list[j].serviceId != list[i].serviceId
    ensures list[i].serviceId in Registry(list) && Registry(list)[list[i].serviceId] == list[i]
  {
    if i < |list| - 1 {
      var init := list[..|list| - 1];
      assert init[i] == list[i];
      RegistryLastWins(init, i);
    }
  }

  /** `handle($post)` as a decision: the service id must be present and
      registered (checked before any signature), the signature must match
      that service's secret, and only then does the command pick a handler. */
  function HandleOutcome(b: Builtins, services: map<string, AlbaService>, post: Post): Outcome {
    if "service_id" !in post then Rejected(MissingParameter("service_id"))
    else if post["service_id"] !in services then Rejected(UnknownService(post["service_id"]))
    else if !CallbackSignValid(b, post, services[post["service_id"]].secret) then Rejected(BadSignature)
    else Callback(post)
  }

  /** A handler runs only for a registered service whose secret signs the
      notification, and it is the handler of the notification's command. */
  lemma HandlerRunsOnlyWhenAuthentic(b: Builtins, services: map<string, AlbaService>, post: Post)
    ensures HandleOutcome(b, services, post).Fired? ==>
      && "service_id" in post && post["service_id"] in services
      && CallbackSignValid(b, post, services[post["service_id"]].secret)
      && "command" in post && CommandOf(HandleOutcome(b, services, post).handler) == post["command"]
  {
  }

  /** A notification for an unregistered service is refused before its
      signature is looked at: the verdict does not depend on the digest. */
  lemma UnknownServiceIgnoresSignature(b: Builtins, b': Builtins, services: map<string, AlbaService>, post: Post)
    requires "service_id" in post && post["service_id"] !in services
    ensures HandleOutcome(b, services, post) == HandleOutcome(b', services, post) == Rejected(UnknownService(post["service_id"]))
  {
  }

  /** An authentic notification for a registered service reaches
      `callback`, whatever its command. */
  lemma AuthenticNotificationReachesCallback(b: Builtins, services: map<string, AlbaService>, post: Post)
    requires "service_id" in post && post["service_id"] in services
    requires CallbackSignValid(b, post, services[post["service_id"]].secret)
    ensures HandleOutcome(b, services, post) == Callback(post)
  {
  }

  class AlbaCallback {
    var services: map<string, AlbaService>

    /** `new AlbaCallback($services)`: registers the services by id. */
    constructor(list: seq<AlbaService>)
      ensures services == Registry(list)
    {
      services := map[];
      new;
      for i := 0 to |list|
        invariant services == Registry(list[..i])
      {
        assert list[..i + 1][..i] == list[..i];
        services := services[list[i].serviceId := list[i]];
      }
      assert list[..|list|] == list;
    }

    /** `handle($post)`. */
    method Handle(b: Builtins, post: Post) returns (outcome: Outcome)
      ensures outcome == HandleOutcome(b, services, post)
    {
      if "service_id" !in post {
        return Rejected(MissingParameter("service_id"));
      }
      var serviceId := post["service_id"];
      if serviceId in services {
        var service := services[serviceId];
        var ok := service.CheckCallbackSign(b, post);
        if ok {
          outcome := Callback(post);
        } else {
          outcome := Rejected(BadSignature);
        }
      } else {
        outcome := Rejected(UnknownService(serviceId));
      }
    }
  }
}
