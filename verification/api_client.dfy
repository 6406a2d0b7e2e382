/** UBKitAPIClient.swift: the registry of response observers keyed by request id, the routing
    decision each observer makes on a notification, the host's response entry point that posts
    those notifications, and the guarded outbound call to the host.

    The registry is a sequential state machine. Each request's continuation is a ticket into
    `outcomes`, which records whether it is still pending or how it was resumed. */
module ApiClient {
  import opened Optional
  import opened RequestMethod
  import opened TargetType
  import Utf8
  import NameBuilder

  /** `UBKitAPIClientError`. */
  datatype ClientError = ReceivedInvalidData

  /** A value in a notification's `userInfo`: a String, or anything else. */
  datatype InfoValue = InfoString(s: string) | InfoOther

  /** A posted notification: its name and its optional `userInfo`. */
  datatype Notification = Notification(name: string, userInfo: Option<map<string, InfoValue>>)

  /** What an observer's closure does with one notification. */
  datatype Decision = Ignore | Fail(error: ClientError) | Succeed(data: seq<Utf8.byte>)

  /** How a continuation ended, if it has. */
  datatype Outcome = Pending | Succeeded(data: seq<Utf8.byte>) | Failed(error: ClientError)

  /** A registered observer: the notification name it listens to and the continuation it resumes. */
  datatype Observer = Observer(name: string, ticket: nat)

  /** `observers` keyed by request id, and every continuation created so far. */
  datatype Registry = Registry(observers: map<string, Observer>, outcomes: seq<Outcome>)

  /** The outbound callback registered by the host. */
  datatype Delegate = Delegate(handle: nat)

  /** The four strings handed to the host's callback. */
  datatype HostCall = HostCall(path: string, id: string, verb: string, payload: string)

  // ---------------------------------------------------------------- routing

  /** The userInfo carries the observer's own request id as a String. */
  predicate IdMatches(info: map<string, InfoValue>, requestId: string) {
    "id" in info && info["id"] == InfoString(requestId)
  }

  /** The observer closure in `request(target:)`: a missing userInfo fails before the id is
      looked at; a missing or different id is ignored; a missing or non-String `data` fails;
      otherwise the UTF-8 bytes of `data` are the result. */
  function Route(requestId: string, n: Notification): (d: Decision)
    ensures n.userInfo.None? ==> d == Fail(ReceivedInvalidData)
    ensures n.userInfo.Some? ==> (d.Ignore? <==> !IdMatches(n.userInfo.value, requestId))
    ensures d.Fail? ==> d.error == ReceivedInvalidData
    ensures n.userInfo.Some? && IdMatches(n.userInfo.value, requestId) ==>
              if "data" in n.userInfo.value && n.userInfo.value["data"].InfoString?
              then d == Succeed(Utf8.Encode(n.userInfo.value["data"].s))
              else d == Fail(ReceivedInvalidData)
    ensures d.Succeed? ==> && n.userInfo.Some?
                           && "data" in n.userInfo.value && n.userInfo.value["data"].InfoString?
                           && Utf8.Decode(d.data) == Some(n.userInfo.value["data"].s)
  {
    match n.userInfo
    case None => Fail(ReceivedInvalidData)
    case Some(info) =>
      if !IdMatches(info, requestId) then Ignore
      else if "data" !in info || !info["data"].InfoString? then Fail(ReceivedInvalidData)
      else
        var text := info["data"].s;
        Utf8.RoundTrip(text);
        Succeed(Utf8.Encode(text))
  }

  function Completion(d: Decision): Outcome
    requires !d.Ignore?
  {
    match d
    case Fail(e) => Failed(e)
    case Succeed(data) => Succeeded(data)
  }

  // ---------------------------------------------------------------- registry

  /** Every registered observer holds a distinct continuation that is still pending. */
  predicate Valid(r: Registry) {
    && (forall id :: id in r.observers ==>
          r.observers[id].ticket < |r.outcomes| && r.outcomes[r.observers[id].ticket].Pending?)
    && (forall a, b :: a in r.observers && b in r.observers && r.observers[a].ticket == r.observers[b].ticket ==> a == b)
  }

  /** A continuation that is pending but that no observer can resume any more. */
  predicate Orphaned(r: Registry, t: nat) {
    t < |r.outcomes| && r.outcomes[t].Pending? && forall id :: id in r.observers ==> r.observers[id].ticket != t
  }

  /** The client as constructed: no observers, no continuations. */
  function Empty(): (r: Registry)
    ensures Valid(r) && |r.observers| == 0 && |r.outcomes| == 0
  {
    Registry(map[], [])
  }

  /** `removeObserverIfNeeded(for:)`: drops the entry for `requestId` if there is one; the
      continuation it held is not resumed. */
  function Remove(r: Registry, requestId: string): (r': Registry)
    ensures r'.observers.Keys == r.observers.Keys - {requestId}
    ensures forall id :: id in r'.observers ==> r'.observers[id] == r.observers[id]
    ensures r'.outcomes == r.outcomes
    ensures requestId !in r.observers ==> r' == r
    ensures Valid(r) ==> Valid(r')
    ensures forall t: nat :: Orphaned(r, t) ==> Orphaned(r', t)
  {
    Registry(r.observers - {requestId}, r.outcomes)
  }

  /** Registration in `request(target:)`: evict any entry for the id, then insert an observer for
      `name` holding a fresh pending continuation, so at most one entry per id survives. */
  function Register(r: Registry, requestId: string, name: string): (r': Registry)
    ensures r'.observers.Keys == r.observers.Keys + {requestId}
    ensures requestId in r'.observers && r'.observers[requestId] == Observer(name, |r.outcomes|)
    ensures forall id :: id in r.observers && id != requestId ==> r'.observers[id] == r.observers[id]
    ensures r'.outcomes == r.outcomes + [Pending]
  {
    var evicted := Remove(r, requestId);
    Registry(evicted.observers[requestId := Observer(name, |r.outcomes|)], r.outcomes + [Pending])
  }

  /** Registration keeps the registry valid; the continuation of an evicted entry is left pending
      with nothing able to resume it, and earlier orphans stay orphaned. */
  lemma RegisterKeepsValid(r: Registry, requestId: string, name: string)
    requires Valid(r)
    ensures Valid(Register(r, requestId, name))
    ensures requestId in r.observers ==> Orphaned(Register(r, requestId, name), r.observers[requestId].ticket)
    ensures forall t: nat :: Orphaned(r, t) ==> Orphaned(Register(r, requestId, name), t)
  {
    var r' := Register(r, requestId, name);
    forall id | id in r'.observers
      ensures r'.observers[id].ticket < |r'.outcomes| && r'.outcomes[r'.observers[id].ticket].Pending?
    {
      if id != requestId {
        assert r'.outcomes[r.observers[id].ticket] == r.outcomes[r.observers[id].ticket];
      }
    }
  }

  /** The observers that act on `n`: those listening to its name whose closure does not ignore it. */
  function Acting(r: Registry, n: Notification): set<string> {
    set id | id in r.observers && r.observers[id].name == n.name && !Route(id, n).Ignore?
  }

  /** The continuation each acting observer resumes, keyed by its ticket. */
  function Resumptions(r: Registry, n: Notification): (m: map<nat, Outcome>)
    requires Valid(r)
    ensures forall id :: id in Acting(r, n) ==>
              r.observers[id].ticket in m && m[r.observers[id].ticket] == Completion(Route(id, n))
    ensures forall t :: t in m ==> exists id :: id in Acting(r, n) && r.observers[id].ticket == t
  {
    var acting := Acting(r, n);
    var m := map id | id in acting :: r.observers[id].ticket := Completion(Route(id, n));
    assert forall t :: t in m ==> exists id :: id in acting && r.observers[id].ticket == t by {
      forall t | t in m ensures exists id :: id in acting && r.observers[id].ticket == t {
      }
    }
    m
  }

  /** Posting `n`: every observer listening to its name runs its closure; each one that does not
      ignore the notification removes its own entry and resumes its own continuation. */
  function Deliver(r: Registry, n: Notification): (r': Registry)
    requires Valid(r)
    ensures |r'.outcomes| == |r.outcomes|
    ensures forall id :: id in r.observers ==>
              (id in r'.observers <==> r.observers[id].name != n.name || Route(id, n).Ignore?)
    ensures r'.observers.Keys <= r.observers.Keys
    ensures forall id :: id in r'.observers ==> r'.observers[id] == r.observers[id]
    ensures forall id :: id in r.observers && id !in r'.observers ==>
              r'.outcomes[r.observers[id].ticket] == Completion(Route(id, n))
    ensures forall t :: 0 <= t < |r.outcomes| && (forall id :: id in r.observers && id !in r'.observers ==> r.observers[id].ticket != t) ==>
              r'.outcomes[t] == r.outcomes[t]
  {
    var resumed := Resumptions(r, n);
    Registry(r.observers - Acting(r, n),
             seq(|r.outcomes|, t requires 0 <= t < |r.outcomes| => if t in resumed then resumed[t] else r.outcomes[t]))
  }

  /** Delivery keeps the registry valid, never changes a continuation that has already ended,
      and never resumes an orphaned one: every continuation is resumed at most once. */
  lemma DeliverKeepsValid(r: Registry, n: Notification)
    requires Valid(r)
    ensures Valid(Deliver(r, n))
    ensures forall t :: 0 <= t < |r.outcomes| && !r.outcomes[t].Pending? ==> Deliver(r, n).outcomes[t] == r.outcomes[t]
    ensures forall t: nat :: Orphaned(r, t) ==> Orphaned(Deliver(r, n), t)
  {
    var r' := Deliver(r, n);
    forall id | id in r'.observers
      ensures r'.observers[id].ticket < |r'.outcomes| && r'.outcomes[r'.observers[id].ticket].Pending?
    {
      var t := r.observers[id].ticket;
      forall k | k in r.observers && k !in r'.observers ensures r.observers[k].ticket != t {
      }
    }
  }

  // ---------------------------------------------------------------- host entry points

  /** The notification `UnityBridgeKitSendingResponseData` posts: named by the builder from
      (path, id, method), with userInfo holding exactly `id` and `data`. */
  function HostNotification(path: string, id: string, verb: string, data: string): (n: Notification)
    ensures n.name == path + "_" + id + "_" + verb
    ensures n.userInfo.Some? && n.userInfo.value.Keys == {"id", "data"}
    ensures n.userInfo.value["id"] == InfoString(id) && n.userInfo.value["data"] == InfoString(data)
  {
    var name := NameBuilder.Build(NameBuilder.SetMethod(NameBuilder.SetId(NameBuilder.SetPath(NameBuilder.New(), path), id), verb));
    Notification(name, Some(map["id" := InfoString(id), "data" := InfoString(data)]))
  }

  /** A response from the host, delivered to the registry. */
  function RespondFromHost(r: Registry, path: string, id: string, verb: string, data: string): (r': Registry)
    requires Valid(r)
    ensures Valid(r')
  {
    DeliverKeepsValid(r, HostNotification(path, id, verb, data));
    Deliver(r, HostNotification(path, id, verb, data))
  }

  /** A host notification can only ever succeed, and only for the observer whose id it carries:
      every other observer ignores it, and the invalid-data failures are unreachable from it. */
  lemma RouteHostNotification(requestId: string, path: string, id: string, verb: string, data: string)
    ensures Route(requestId, HostNotification(path, id, verb, data)) ==
            if id == requestId then Succeed(Utf8.Encode(data)) else Ignore
  {
  }

  /** A response for an id with no entry (never registered, already completed or evicted)
      changes nothing, so a late or duplicate response is harmless. */
  lemma UnknownIdIsIgnored(r: Registry, path: string, id: string, verb: string, data: string)
    requires Valid(r)
    requires id !in r.observers
    ensures RespondFromHost(r, path, id, verb, data) == r
  {
    var n := HostNotification(path, id, verb, data);
    var r' := Deliver(r, n);
    forall k | k in r.observers ensures Route(k, n).Ignore? {
      RouteHostNotification(k, path, id, verb, data);
    }
    assert r'.observers == r.observers;
    assert r'.outcomes == r.outcomes;
  }

  /** A response whose name differs from the waiting observer's (another path or method) is
      ignored by every observer: the registry and every continuation are left as they were. */
  lemma NameMismatchLeavesWaiter(r: Registry, path: string, id: string, verb: string, data: string)
    requires Valid(r)
    requires id in r.observers && r.observers[id].name != path + "_" + id + "_" + verb
    ensures RespondFromHost(r, path, id, verb, data) == r
  {
    var n := HostNotification(path, id, verb, data);
    var r' := Deliver(r, n);
    forall k | k in r.observers ensures r.observers[k].name != n.name || Route(k, n).Ignore? {
      RouteHostNotification(k, path, id, verb, data);
    }
    assert r'.observers == r.observers;
    assert r'.outcomes == r.outcomes;
  }

  /** The matching response removes exactly that id's entry and resolves its continuation with
      the UTF-8 bytes of `data`; every other entry and continuation is untouched. */
  lemma MatchingResponseResolves(r: Registry, path: string, id: string, verb: string, data: string)
    requires Valid(r)
    requires id in r.observers && r.observers[id].name == path + "_" + id + "_" + verb
    ensures var r' := RespondFromHost(r, path, id, verb, data);
            && r'.observers.Keys == r.observers.Keys - {id}
            && r'.outcomes[r.observers[id].ticket] == Succeeded(Utf8.Encode(data))
            && forall t :: 0 <= t < |r.outcomes| && t != r.observers[id].ticket ==> r'.outcomes[t] == r.outcomes[t]
  {
    var n := HostNotification(path, id, verb, data);
    var r' := Deliver(r, n);
    forall k | k in r.observers ensures Route(k, n) == if k == id then Succeed(Utf8.Encode(data)) else Ignore {
      RouteHostNotification(k, path, id, verb, data);
    }
    assert forall k :: k in r.observers && k !in r'.observers ==> k == id;
  }

  // ---------------------------------------------------------------- outbound

  /** `unityBrigeKitSendingRequestToUnityUsingCallback`: no host call is made while no delegate
      has been registered; otherwise the four strings are passed through unchanged. */
  function SendToHost(delegate: Option<Delegate>, path: string, id: string, verb: string, payload: string): (call: Option<HostCall>)
    ensures call.None? <==> delegate.None?
    ensures call.Some? ==> call.value == HostCall(path, id, verb, payload)
  {
    if delegate.None? then None else Some(HostCall(path, id, verb, payload))
  }

  /** `request(target:)` up to its suspension: evict any observer for the id, send the encoded
      request, then register the observer for the target's notification name. */
  function Request(r: Registry, t: Target, delegate: Option<Delegate>, render: Json.Json -> string): (res: (Registry, Option<HostCall>))
    requires Valid(r)
    ensures Valid(res.0)
    ensures res.0.observers.Keys == r.observers.Keys + {t.id}
    ensures forall id :: id in r.observers && id != t.id ==> res.0.observers[id] == r.observers[id]
    ensures t.id in res.0.observers && res.0.observers[t.id] == Observer(NotificationName(t), |r.outcomes|)
    ensures res.0.outcomes == r.outcomes + [Pending]
    ensures res.1.None? <==> delegate.None?
    ensures res.1.Some? ==> res.1.value == HostCall(t.path, t.id, RawValue(t.verb), EncodedToJsonString(t, render))
  {
    var evicted := Remove(r, t.id);
    RegisterKeepsValid(evicted, t.id, NotificationName(t));
    var call := SendToHost(delegate, t.path, t.id, RawValue(t.verb), EncodedToJsonString(t, render));
    (Register(evicted, t.id, NotificationName(t)), call)
  }

  /** The observer registered by a request is reached by the host's response for that target. */
  lemma RequestThenResponse(r: Registry, t: Target, delegate: Option<Delegate>, render: Json.Json -> string, data: string)
    requires Valid(r)
    ensures var r1 := Request(r, t, delegate, render).0;
            var r2 := RespondFromHost(r1, t.path, t.id, RawValue(t.verb), data);
            && t.id !in r2.observers
            && r2.outcomes[|r.outcomes|] == Succeeded(Utf8.Encode(data))
  {
    var r1 := Request(r, t, delegate, render).0;
    MatchingResponseResolves(r1, t.path, t.id, RawValue(t.verb), data);
  }

  /** The request is sent before its observer is registered: a response delivered in between
      finds no entry, is dropped, and the continuation registered afterwards stays pending. */
  lemma ResponseBeforeRegistrationIsLost(r: Registry, t: Target, data: string)
    requires Valid(r)
    ensures var evicted := Remove(r, t.id);
            var early := RespondFromHost(evicted, t.path, t.id, RawValue(t.verb), data);
            var r' := Register(early, t.id, NotificationName(t));
            early == evicted && r'.outcomes[|r.outcomes|] == Pending
  {
    UnknownIdIsIgnored(Remove(r, t.id), t.path, t.id, RawValue(t.verb), data);
  }

  /** Re-registering an id orphans the earlier continuation: no later response, for any id,
      can resume it. */
  lemma EvictedWaiterNeverCompletes(r: Registry, id: string, name: string, path: string, id2: string, verb: string, data: string)
    requires Valid(r) && id in r.observers
    ensures var r1 := Register(r, id, name);
            var r2 := RespondFromHost(r1, path, id2, verb, data);
            r2.outcomes[r.observers[id].ticket] == Pending
  {
  }
}
