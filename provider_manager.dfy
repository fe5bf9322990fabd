/** The trigger registry, change-feed reconciliation, fire gating and active-host state of the
    provider (provider/lib/ProviderManager.js).

    The closure over `self` becomes the class `TriggerManager`. Its in-memory registry
    `triggers`, the persisted trigger documents `store` (the document store, seen as a map
    from document id to document) and the calls made to the external event provider
    `providerCalls` together form the value `Registry`, and every state change is specified
    by a pure transition on that value. Callbacks that the source runs asynchronously (the
    event provider's promise, the store's callbacks, timers) run to completion in order. */
module ProviderManager {

  import opened Wrappers
  import opened Strings
  import opened Json
  import opened QName
  import opened FirePolicy
  import BasicAuth
  import Redis

  /** `REDIS_FIELD` of provider/lib/constants.js. */
  const REDIS_FIELD: string := "active"

  datatype ReasonKind = MANUAL | AUTO

  datatype Reason = Reason(kind: ReasonKind, statusCode: Option<int>, message: string)

  /** A document's `status`. `active` is `None` when the field is missing or not a boolean. */
  datatype Status = Status(active: Option<bool>, dateChanged: int, reason: Option<Reason>)

  /** A persisted trigger document. `status` is `None` when it is missing or `null`. */
  datatype TriggerDoc = TriggerDoc(
    docId: string, apikey: Value, additionalData: Value, bucket: Value, interval: Value,
    s3Endpoint: Value, s3Apikey: Value, worker: Value, status: Option<Status>)

  /** The in-memory record the provider keeps for a registered trigger. */
  datatype Trigger = Trigger(
    id: string, apikey: Value, additionalData: Value, bucket: Value, interval: Value,
    s3Endpoint: Value, s3Apikey: Value)

  /** A call made to the external event provider. */
  datatype ProviderCall = Add(id: string, trigger: Trigger) | Remove(id: string)

  /** The registry's state: in-memory triggers, persisted documents, event-provider calls. */
  datatype Registry = Registry(triggers: map<string, Trigger>, store: map<string, TriggerDoc>, calls: seq<ProviderCall>)

  /** Every registered trigger is stored under its own id. */
  ghost predicate Keyed(r: Registry)
  {
    forall k :: k in r.triggers ==> r.triggers[k].id == k
  }

  /** `initTrigger(doc)`: the in-memory record keeps the document id and the connection
      fields, and nothing of the status. */
  function InitTrigger(doc: TriggerDoc): (t: Trigger)
    ensures t.id == doc.docId
  {
    Trigger(doc.docId, doc.apikey, doc.additionalData, doc.bucket, doc.interval, doc.s3Endpoint, doc.s3Apikey)
  }

  /** `createTrigger(t)`: store the record under its id, then register it with the event
      provider. */
  function Created(r: Registry, t: Trigger): (r': Registry)
    ensures r'.triggers.Keys == r.triggers.Keys + {t.id} && r'.triggers[t.id] == t
    ensures forall k :: k in r.triggers && k != t.id ==> r'.triggers[k] == r.triggers[k]
    ensures r'.store == r.store && r'.calls == r.calls + [Add(t.id, t)]
    ensures Keyed(r) ==> Keyed(r')
  {
    Registry(r.triggers[t.id := t], r.store, r.calls + [Add(t.id, t)])
  }

  /** `deleteTrigger(id)`: forget the trigger and unregister it; nothing at all when it is
      not registered. */
  function Deleted(r: Registry, id: string): (r': Registry)
    ensures r'.triggers.Keys == r.triggers.Keys - {id}
    ensures forall k :: k in r'.triggers ==> r'.triggers[k] == r.triggers[k]
    ensures r'.store == r.store
    ensures id !in r.triggers ==> r' == r
    ensures id in r.triggers ==> r'.calls == r.calls + [Remove(id)]
    ensures Keyed(r) ==> Keyed(r')
  {
    if id in r.triggers then Registry(r.triggers - {id}, r.store, r.calls + [Remove(id)]) else r
  }

  /** A stored document that `disableTrigger` may still disable: no status, or an active one. */
  predicate StillActive(doc: TriggerDoc)
  {
    doc.status.None? || doc.status.value.active == Some(true)
  }

  /** The document with its status replaced by an automatic disable. */
  function DisabledDoc(doc: TriggerDoc, statusCode: Option<int>, message: string, now: int): (d: TriggerDoc)
    ensures d.docId == doc.docId && !StillActive(d)
    ensures d.status == Some(Status(Some(false), now, Some(Reason(AUTO, statusCode, message))))
    ensures d.(status := doc.status) == doc
  {
    doc.(status := Some(Status(Some(false), now, Some(Reason(AUTO, statusCode, message)))))
  }

  /** `disableTrigger(id, statusCode, message)` once the store has answered. The lookup
      succeeds when `lookupOk` and the document exists; a document that is still active is
      then written back disabled (the write takes effect when `insertOk`), and a document
      already inactive is left alone. Any failed lookup, a missing document or a store error
      alike, deletes the trigger from memory, even though an existing document stays active. */
  function Disabled(r: Registry, id: string, statusCode: Option<int>, message: string, now: int, lookupOk: bool, insertOk: bool): (r': Registry)
    ensures r'.store.Keys == r.store.Keys && r'.triggers.Keys <= r.triggers.Keys
    ensures id in r.store && lookupOk && insertOk ==> !StillActive(r'.store[id])
    ensures id !in r.store || !lookupOk ==> r' == Deleted(r, id) && id !in r'.triggers
    ensures Keyed(r) ==> Keyed(r')
  {
    if id in r.store && lookupOk then
      if StillActive(r.store[id]) && insertOk then
        r.(store := r.store[id := DisabledDoc(r.store[id], statusCode, message, now)])
      else r
    else Deleted(r, id)
  }

  /** The store changes only by disabling a document that was still active, and then only in
      its status; a failed lookup leaves the store alone and deletes the id from memory. */
  lemma DisabledChangesOnlyActiveStatus(r: Registry, id: string, statusCode: Option<int>, message: string, now: int, lookupOk: bool, insertOk: bool)
    ensures var r' := Disabled(r, id, statusCode, message, now, lookupOk, insertOk);
            && r'.store.Keys == r.store.Keys
            && (forall k :: k in r.store && k != id ==> r'.store[k] == r.store[k])
            && (id in r.store && r'.store[id] != r.store[id] ==>
                  StillActive(r.store[id]) && r'.store[id] == DisabledDoc(r.store[id], statusCode, message, now))
            && (id in r.store && lookupOk ==> r'.triggers == r.triggers && r'.calls == r.calls)
            && (id !in r.store || !lookupOk ==> r' == Deleted(r, id))
  {
  }

  /** What the change handler does with a change event. */
  datatype ChangeAction = Ignore | Register | Unregister

  /** The change handler's decision: a registered trigger whose document says
      `status.active === false` is removed; an unregistered one with no status or
      `status.active === true` is added; everything else is ignored. */
  function ChangeDecision(registered: bool, status: Option<Status>): (a: ChangeAction)
    ensures a == Unregister <==> registered && status.Some? && status.value.active == Some(false)
    ensures a == Register <==> !registered && (status.None? || status.value.active == Some(true))
  {
    if registered then
      if status.Some? && status.value.active == Some(false) then Unregister else Ignore
    else if status.None? || status.value.active == Some(true) then Register
    else Ignore
  }

  /** The registry after the change event `(id, doc)`. */
  function Changed(r: Registry, id: string, doc: TriggerDoc): (r': Registry)
    ensures r'.store == r.store
    ensures |r.calls| <= |r'.calls| <= |r.calls| + 1 && r'.calls[..|r.calls|] == r.calls
    ensures doc.docId == id ==>
              (id in r'.triggers <==> if id in r.triggers then !(doc.status.Some? && doc.status.value.active == Some(false))
                                      else doc.status.None? || doc.status.value.active == Some(true))
  {
    match ChangeDecision(id in r.triggers, doc.status)
    case Unregister => Deleted(r, id)
    case Register => Created(r, InitTrigger(doc))
    case Ignore => r
  }

  /** Applying the same change event twice is the same as applying it once. */
  lemma ChangedIdempotent(r: Registry, id: string, doc: TriggerDoc)
    requires doc.docId == id
    ensures Changed(Changed(r, id, doc), id, doc) == Changed(r, id, doc)
  {
    var once := Changed(r, id, doc);
    match ChangeDecision(id in r.triggers, doc.status)
    case Unregister =>
      assert id !in once.triggers;
      assert ChangeDecision(false, doc.status) == Ignore;
    case Register =>
      assert id in once.triggers;
      assert ChangeDecision(true, doc.status) == Ignore;
    case Ignore =>
  }

  /** A change event touches only its own trigger: a removal happens only for a registered id
      whose document says inactive, an addition only for the document's own id when it has no
      status or an active one, and every other entry keeps its value. */
  lemma ChangedTouchesOnlyItsTrigger(r: Registry, id: string, doc: TriggerDoc)
    ensures var r' := Changed(r, id, doc);
            && r'.store == r.store
            && (forall k :: k in r.triggers && k !in r'.triggers ==>
                  k == id && doc.status.Some? && doc.status.value.active == Some(false))
            && (forall k :: k in r'.triggers && k !in r.triggers ==>
                  k == doc.docId && (doc.status.None? || doc.status.value.active == Some(true)))
            && (forall k :: k in r.triggers && k in r'.triggers && k != doc.docId ==> r'.triggers[k] == r.triggers[k])
            && (Keyed(r) ==> Keyed(r'))
  {
  }

  /** One row of the startup view: the trigger id, its document, and the reply to the check
      that the platform trigger still exists. */
  datatype ViewRow = ViewRow(id: string, doc: TriggerDoc, existence: HttpReply)

  function InitDisableMessage(statusCode: int): string
  {
    "Automatically disabled after receiving a " + IntToString(statusCode) + " status code on init trigger"
  }

  /** Startup reconciliation of one row: an id already registered is skipped; a trigger the
      platform answers with a disable-eligible status is disabled; any other answer, an error
      included, registers it. */
  function ReconcileRow(r: Registry, row: ViewRow, now: int, lookupOk: bool, insertOk: bool): (r': Registry)
    ensures r.triggers.Keys <= r'.triggers.Keys && r'.store.Keys == r.store.Keys
    ensures forall k :: k in r.store && k != row.id ==> r'.store[k] == r.store[k]
    ensures forall k :: k != row.id && k != row.doc.docId ==> (k in r'.triggers <==> k in r.triggers)
    ensures row.id !in r.triggers && !InitDisables(row) ==> row.doc.docId in r'.triggers
    ensures row.id !in r.triggers && InitDisables(row) ==>
              && row.id !in r'.triggers
              && (row.id in r.store ==>
                    r'.store[row.id] == if lookupOk && StillActive(r.store[row.id]) && insertOk
                                        then DisabledDoc(r.store[row.id], Some(row.existence.code), InitDisableMessage(row.existence.code), now)
                                        else r.store[row.id])
  {
    if row.id in r.triggers then r
    else if InitDisables(row) then
      Disabled(r, row.id, Some(row.existence.code), InitDisableMessage(row.existence.code), now, lookupOk, insertOk)
    else
      Created(r, InitTrigger(row.doc))
  }

  /** The platform's answer to the existence check says the trigger is gone or unusable. */
  predicate InitDisables(row: ViewRow)
  {
    row.existence.Response? && ShouldDisableTrigger(row.existence.code)
  }

  /** The registry after reconciling the rows in order. */
  function Reconciled(r: Registry, rows: seq<ViewRow>, now: int, lookupOk: bool, insertOk: bool): (r': Registry)
    ensures r.triggers.Keys <= r'.triggers.Keys && r'.store.Keys == r.store.Keys
  {
    if rows == [] then r
    else ReconcileRow(Reconciled(r, rows[..|rows| - 1], now, lookupOk, insertOk), rows[|rows| - 1], now, lookupOk, insertOk)
  }

  /** After reconciliation, every row is registered unless the existence check disabled it,
      and the registry still stores every trigger under its id. */
  lemma {:induction false} ReconciledRegistersRows(r: Registry, rows: seq<ViewRow>, now: int, lookupOk: bool, insertOk: bool)
    requires Keyed(r)
    requires forall i :: 0 <= i < |rows| ==> rows[i].doc.docId == rows[i].id
    ensures var r' := Reconciled(r, rows, now, lookupOk, insertOk);
            && Keyed(r')
            && r.triggers.Keys <= r'.triggers.Keys
            && forall i :: 0 <= i < |rows| && !InitDisables(rows[i])
                 ==> rows[i].id in r'.triggers
  {
    if rows != [] {
      var init := rows[..|rows| - 1];
      ReconciledRegistersRows(r, init, now, lookupOk, insertOk);
      var mid := Reconciled(r, init, now, lookupOk, insertOk);
      var row := rows[|rows| - 1];
      if row.id !in mid.triggers && InitDisables(row) {
        assert row.id !in mid.store || !lookupOk ==> Disabled(mid, row.id, Some(row.existence.code), InitDisableMessage(row.existence.code), now, lookupOk, insertOk) == mid;
      }
      forall i | 0 <= i < |rows| - 1 && !InitDisables(rows[i])
        ensures rows[i].id in Reconciled(r, rows, now, lookupOk, insertOk).triggers
      {
        assert rows[i] == init[i];
      }
    }
  }

  /** Rows for other ids leave an id's registration and its stored document alone. */
  lemma {:induction false} ReconciledLeavesOthers(r: Registry, rows: seq<ViewRow>, now: int, lookupOk: bool, insertOk: bool, id: string)
    requires forall i :: 0 <= i < |rows| ==> rows[i].doc.docId == rows[i].id && rows[i].id != id
    ensures var r' := Reconciled(r, rows, now, lookupOk, insertOk);
            && (id in r'.triggers <==> id in r.triggers)
            && (id in r.store ==> r'.store[id] == r.store[id])
  {
    if rows != [] {
      ReconciledLeavesOthers(r, rows[..|rows| - 1], now, lookupOk, insertOk, id);
    }
  }

  /** The other direction of `ReconciledRegistersRows`: an id that was not registered, occurs
      in one row only and is answered with a disable-eligible status stays unregistered, and
      its stored document, if still active, is written back disabled when the write succeeds. */
  lemma {:induction false} ReconciledDisablesEligibleRows(r: Registry, rows: seq<ViewRow>, now: int, lookupOk: bool, insertOk: bool, i: int)
    requires forall j :: 0 <= j < |rows| ==> rows[j].doc.docId == rows[j].id
    requires 0 <= i < |rows| && rows[i].id !in r.triggers && InitDisables(rows[i])
    requires forall j :: 0 <= j < |rows| && j != i ==> rows[j].id != rows[i].id
    ensures var r' := Reconciled(r, rows, now, lookupOk, insertOk);
            var id := rows[i].id;
            var code := rows[i].existence.code;
            && id !in r'.triggers
            && (id in r.store ==>
                  r'.store[id] == if lookupOk && StillActive(r.store[id]) && insertOk
                                  then DisabledDoc(r.store[id], Some(code), InitDisableMessage(code), now)
                                  else r.store[id])
  {
    var init := rows[..|rows| - 1];
    var last := rows[|rows| - 1];
    var mid := Reconciled(r, init, now, lookupOk, insertOk);
    assert Reconciled(r, rows, now, lookupOk, insertOk) == ReconcileRow(mid, last, now, lookupOk, insertOk);
    if i == |rows| - 1 {
      ReconciledLeavesOthers(r, init, now, lookupOk, insertOk, last.id);
    } else {
      assert init[i] == rows[i] && last.id != rows[i].id && last.doc.docId != rows[i].id;
      ReconciledDisablesEligibleRows(r, init, now, lookupOk, insertOk, i);
    }
  }

  /** `shouldDisableTrigger` on a fire, as the registry sees it. A trigger
      whose fire was disabled has its document written inactive; when that write comes back on
      the change feed the trigger leaves the registry, so later fires for it are no-ops. */
  lemma DisableThenChangeUnregisters(r: Registry, id: string, statusCode: int, message: string, now: int)
    requires id in r.triggers && id in r.store && StillActive(r.store[id]) && r.store[id].docId == id
    ensures var disabled := Disabled(r, id, Some(statusCode), message, now, true, true);
            && id in disabled.store
            && id !in Changed(disabled, id, disabled.store[id]).triggers
  {
  }

  /** The prefix shared by the hosts of one worker: the host name without trailing digits. */
  function HostPrefix(host: string): (p: string)
    ensures |p| <= |host| && host[..|p|] == p
    ensures forall i :: |p| <= i < |host| ==> IsDigit(host[i])
    ensures StripTrailingDigits(p) == p
  {
    var p := StripTrailingDigits(host);
    assert p + "" == p;
    StripDigitSuffix(p, "");
    p
  }

  /** The host that is active until told otherwise: the prefix followed by `0`. */
  function DefaultActiveHost(hostPrefix: string): string
  {
    hostPrefix + "0"
  }

  /** The other host of the pair: `<prefix>1` for `<prefix>0`, and `<prefix>0` for any other. */
  function RedundantHost(host: string, hostPrefix: string): (h: string)
    ensures h != host
    ensures h == hostPrefix + "0" || h == hostPrefix + "1"
  {
    if host == hostPrefix + "0" then
      assert (hostPrefix + "1")[|hostPrefix|] != host[|hostPrefix|];
      hostPrefix + "1"
    else hostPrefix + "0"
  }

  /** `initActiveHost(stored)`: a stored value is adopted, otherwise the default is kept and
      written to the store. Returns the local belief and the value to write, if any. */
  function InitActiveHost(defaultHost: string, stored: Option<string>): (r: (string, Option<string>))
    ensures stored.Some? ==> r == (stored.value, None)
    ensures stored.None? ==> r == (defaultHost, Some(defaultHost))
  {
    match stored
    case Some(h) => (h, None)
    case None => (defaultHost, Some(defaultHost))
  }

  /** Two hosts of one worker, `<p>0` and `<p>1`, start against an empty key one after the
      other, in either order. Both end up believing `<p>0` is active (the first writes the
      default, the second adopts it), so exactly one of them fires. */
  lemma TwoHostsAgreeOnActive(p: string, firstIsZero: bool)
    requires |p| > 0 ==> !IsDigit(p[|p| - 1])
    ensures var h0, h1 := p + "0", p + "1";
            var first := if firstIsZero then h0 else h1;
            var second := if firstIsZero then h1 else h0;
            var (active1, write1) := InitActiveHost(DefaultActiveHost(HostPrefix(first)), None);
            var (active2, write2) := InitActiveHost(DefaultActiveHost(HostPrefix(second)), write1);
            && active1 == active2 == h0
            && write1 == Some(h0) && write2 == None
            && (active1 == first) != (active2 == second)
  {
    StripDigitSuffix(p, "0");
    StripDigitSuffix(p, "1");
    assert (p + "0")[|p|] == '0' && (p + "1")[|p|] == '1';
  }

  /** The URI the provider posts a fire to. */
  function FireUri(routerHost: string, q: QualifiedName): (u: string)
    ensures var front := "https://" + routerHost + "/api/v1/namespaces/";
            var back := "/triggers/" + q.name;
            && |u| == |front| + |q.namespace| + |back|
            && u[..|front|] == front && u[|front|..|front| + |q.namespace|] == q.namespace && u[|u| - |back|..] == back
  {
    "https://" + routerHost + "/api/v1/namespaces/" + q.namespace + "/triggers/" + q.name
  }

  /** The environment settings the provider reads at start-up; `None` stands for unset. */
  datatype ProviderEnv = ProviderEnv(
    endpointAuth: Option<string>, routerHost: Option<string>, worker: Option<string>,
    hostIndex: Option<string>, redisKeyPrefix: Option<string>)

  /** `value || fallback` on an environment variable. */
  function OrDefault(v: Option<string>, fallback: string): (s: string)
    ensures Present(v) ==> s == v.value
    ensures !Present(v) ==> s == fallback
  {
    if v.Some? && v.value != "" then v.value else fallback
  }

  class TriggerManager {
    var triggers: map<string, Trigger>
    var store: map<string, TriggerDoc>
    var providerCalls: seq<ProviderCall>
    var activeHost: string

    const endpointAuth: Option<string>
    const routerHost: string
    const worker: string
    const host: string
    const hostPrefix: string
    const redisClient: Redis.RedisClient?
    const redisKey: string
    const redisField: string

    /** The registry value this object holds. */
    function Snapshot(): Registry
      reads this
    {
      Registry(triggers, store, providerCalls)
    }

    ghost predicate Valid()
      reads this
    {
      Keyed(Snapshot())
    }

    /** The module's set-up: settings with their defaults, the host prefix, and the default
      active host `<prefix>0`. `dbName` is the document store's name, the fallback key prefix. */
    constructor (env: ProviderEnv, dbName: string, store: map<string, TriggerDoc>, redisClient: Redis.RedisClient?)
      ensures Valid()
      ensures triggers == map[] && this.store == store && providerCalls == []
      ensures endpointAuth == env.endpointAuth && routerHost == OrDefault(env.routerHost, "localhost")
      ensures worker == OrDefault(env.worker, "worker0") && host == OrDefault(env.hostIndex, "host0")
      ensures hostPrefix == HostPrefix(host) && activeHost == DefaultActiveHost(hostPrefix)
      ensures this.redisClient == redisClient && redisField == REDIS_FIELD
      ensures redisKey == OrDefault(env.redisKeyPrefix, dbName) + "_" + worker
    {
      var w := OrDefault(env.worker, "worker0");
      var h := OrDefault(env.hostIndex, "host0");
      triggers := map[];
      this.store := store;
      providerCalls := [];
      endpointAuth := env.endpointAuth;
      routerHost := OrDefault(env.routerHost, "localhost");
      worker := w;
      host := h;
      hostPrefix := HostPrefix(h);
      activeHost := DefaultActiveHost(HostPrefix(h));
      this.redisClient := redisClient;
      redisKey := OrDefault(env.redisKeyPrefix, dbName) + "_" + w;
      redisField := REDIS_FIELD;
    }

    /** `shouldFireTrigger()`: this host fires exactly when it is the active one, so its
        partner of the pair, `RedundantHost(host, hostPrefix)`, is then not the active host. */
    function ShouldFireTrigger(): (fires: bool)
      reads this
      ensures fires <==> activeHost == host
      ensures fires ==> activeHost != RedundantHost(host, hostPrefix)
    {
      activeHost == host
    }

    method CreateTrigger(t: Trigger)
      requires Valid()
      modifies this
      ensures Valid()
      ensures Snapshot() == Created(old(Snapshot()), t)
      ensures activeHost == old(activeHost)
    {
      triggers := triggers[t.id := t];
      providerCalls := providerCalls + [Add(t.id, t)];
    }

    method DeleteTrigger(id: string)
      requires Valid()
      modifies this
      ensures Valid()
      ensures Snapshot() == Deleted(old(Snapshot()), id)
      ensures activeHost == old(activeHost)
    {
      if id in triggers {
        triggers := triggers - {id};
        providerCalls := providerCalls + [Remove(id)];
      }
    }

    /** `disableTrigger(id, statusCode, message)`. The store's lookup is `store[id]`, and
      `lookupOk` is false when the store answers it with an error; `insertOk` says whether the write back succeeds (a failed write is only logged), and
      `now` is the time `Date.now()` gives. */
    method DisableTrigger(id: string, statusCode: Option<int>, message: string, now: int, lookupOk: bool, insertOk: bool)
      requires Valid()
      modifies this
      ensures Valid()
      ensures Snapshot() == Disabled(old(Snapshot()), id, statusCode, message, now, lookupOk, insertOk)
      ensures activeHost == old(activeHost)
    {
      if id in store && lookupOk {
        var existing := store[id];
        if StillActive(existing) && insertOk {
          store := store[id := DisabledDoc(existing, statusCode, message, now)];
        }
      } else {
        DeleteTrigger(id);
      }
    }

    /** The `catch` of `createTrigger`: the event provider refused the trigger. */
    method OnRegistrationFailure(id: string, err: string, now: int, lookupOk: bool, insertOk: bool)
      requires Valid()
      modifies this
      ensures Valid()
      ensures Snapshot() == Disabled(old(Snapshot()), id, None,
                "Automatically disabled after receiving exception on init trigger: " + err, now, lookupOk, insertOk)
      ensures activeHost == old(activeHost)
    {
      DisableTrigger(id, None, "Automatically disabled after receiving exception on init trigger: " + err, now, lookupOk, insertOk);
    }

    /** The change-feed handler for the change `(id, doc)`. */
    method HandleChange(id: string, doc: TriggerDoc)
      requires Valid()
      modifies this
      ensures Valid()
      ensures Snapshot() == Changed(old(Snapshot()), id, doc)
      ensures activeHost == old(activeHost)
    {
      if id in triggers {
        if doc.status.Some? && doc.status.value.active == Some(false) {
          DeleteTrigger(id);
        }
      } else if doc.status.None? || doc.status.value.active == Some(true) {
        CreateTrigger(InitTrigger(doc));
      }
    }

    /** `initAllTriggers` once the view has answered with `rows` and each existence check with
      its reply. */
    method ReconcileAll(rows: seq<ViewRow>, now: int, lookupOk: bool, insertOk: bool)
      requires Valid()
      modifies this
      ensures Valid()
      ensures Snapshot() == Reconciled(old(Snapshot()), rows, now, lookupOk, insertOk)
      ensures activeHost == old(activeHost)
    {
      for i := 0 to |rows|
        invariant Valid()
        invariant Snapshot() == Reconciled(old(Snapshot()), rows[..i], now, lookupOk, insertOk)
        invariant activeHost == old(activeHost)
      {
        var row := rows[i];
        if row.id !in triggers {
          if row.existence.Response? && ShouldDisableTrigger(row.existence.code) {
            DisableTrigger(row.id, Some(row.existence.code), InitDisableMessage(row.existence.code), now, lookupOk, insertOk);
          } else {
            CreateTrigger(InitTrigger(row.doc));
          }
        }
        assert rows[..i + 1][..i] == rows[..i];
      }
      assert rows[..|rows|] == rows;
    }

    /** `fireTrigger(id, event)`: only a registered trigger on the active host is posted, to
      the URI built from its parsed id; a post that ends in a disable-eligible reply then
      disables it. `replies` are the platform's answers to the successive attempts. */
    method FireTrigger(id: string, event: Value, replies: seq<HttpReply>, now: int, lookupOk: bool, insertOk: bool)
      returns (run: Option<FireRun>)
      requires Valid()
      requires |replies| > RETRY_ATTEMPTS
      modifies this
      ensures Valid()
      ensures run.Some? <==> old(id in triggers) && old(ShouldFireTrigger())
      ensures run.Some? ==>
                var t := old(triggers)[id];
                run.value == PostTrigger(t.id, event, FireUri(routerHost, ParseQName(t.id)), replies, 0)
      ensures run.None? ==> Snapshot() == old(Snapshot())
      ensures run.Some? && run.value.disable.Some? ==>
                var call := run.value.disable.value;
                Snapshot() == Disabled(old(Snapshot()), call.id, Some(call.statusCode), call.message, now, lookupOk, insertOk)
      ensures run.Some? && run.value.disable.None? ==> Snapshot() == old(Snapshot())
      ensures activeHost == old(activeHost)
    {
      if id in triggers && ShouldFireTrigger() {
        var t := triggers[id];
        var uri := FireUri(routerHost, ParseQName(t.id));
        var result := PostTrigger(t.id, event, uri, replies, 0);
        if result.disable.Some? {
          var call := result.disable.value;
          DisableTrigger(call.id, Some(call.statusCode), call.message, now, lookupOk, insertOk);
        }
        run := Some(result);
      } else {
        run := None;
      }
    }

    /** `fireTrigger(id, event)` as written: the first attempt calls `postTrigger` with the
      retry count `0`, and the retry it schedules passes its arguments one position early,
      so a fire makes at most two attempts. */
    method FireTriggerAsWritten(id: string, event: Value, replies: seq<HttpReply>, now: int, lookupOk: bool, insertOk: bool)
      returns (run: Option<FireRun>)
      requires Valid()
      requires |replies| >= 2
      modifies this
      ensures Valid()
      ensures run.Some? <==> old(id in triggers) && old(ShouldFireTrigger())
      ensures run.Some? ==>
                var t := old(triggers)[id];
                && run.value == PostTriggerAsWritten(t.id, event, Str(FireUri(routerHost, ParseQName(t.id))), Num(0), replies)
                && |run.value.requests| <= 2
      ensures run.None? ==> Snapshot() == old(Snapshot())
      ensures run.Some? && run.value.disable.Some? ==>
                var call := run.value.disable.value;
                Snapshot() == Disabled(old(Snapshot()), call.id, Some(call.statusCode), call.message, now, lookupOk, insertOk)
      ensures run.Some? && run.value.disable.None? ==> Snapshot() == old(Snapshot())
      ensures activeHost == old(activeHost)
    {
      if id in triggers && ShouldFireTrigger() {
        var t := triggers[id];
        var uri := FireUri(routerHost, ParseQName(t.id));
        var result := PostTriggerAsWritten(t.id, event, Str(uri), Num(0), replies);
        if result.disable.Some? {
          var call := result.disable.value;
          DisableTrigger(call.id, Some(call.statusCode), call.message, now, lookupOk, insertOk);
        }
        run := Some(result);
      } else {
        run := None;
      }
    }

    /** `initRedis` and `initActiveHost`: with a coordination store, read the active host;
      adopt a stored value, or write the default when there is none. `ok` is false when the
      store fails, which fails the start-up. */
    method InitRedis() returns (ok: bool)
      modifies this, redisClient
      ensures triggers == old(triggers) && store == old(store) && providerCalls == old(providerCalls)
      ensures redisClient == null ==> ok && activeHost == old(activeHost)
      ensures redisClient != null ==>
                ok == (old(redisClient.failure).None?)
                && redisClient.published == old(redisClient.published)
                && (ok ==> var (belief, write) := InitActiveHost(old(activeHost), old(redisClient.HGet(redisKey, redisField)));
                           activeHost == belief
                           && redisClient.HGet(redisKey, redisField) == Some(belief)
                           && (write.None? ==> redisClient.hash == old(redisClient.hash))
                           && (write.Some? ==> redisClient.hash == Redis.Stored(old(redisClient.hash), redisKey, redisField, write.value)))
                && (!ok ==> activeHost == old(activeHost) && redisClient.hash == old(redisClient.hash))
    {
      ok := true;
      if redisClient != null {
        if redisClient.failure.Some? {
          ok := false;
          return;
        }
        var stored := redisClient.HGet(redisKey, redisField);
        var (belief, write) := InitActiveHost(activeHost, stored);
        if write.Some? {
          var err := redisClient.HSet(redisKey, redisField, write.value);
        }
        activeHost := belief;
      }
    }

    /** The subscriber's `message` handler: any message published on the worker's channel is
      the new active host. */
    method OnMessage(message: string)
      modifies this
      ensures activeHost == message
      ensures Snapshot() == old(Snapshot())
    {
      activeHost := message;
    }

    /** The `SIGTERM` handler, registered only with a coordination store: the active host
      hands over to the other host by writing it and then publishing it. */
    method OnSigterm()
      requires redisClient != null
      modifies redisClient
      ensures var handOver := old(ShouldFireTrigger()) && old(redisClient.failure).None?;
              var other := RedundantHost(host, hostPrefix);
              && (handOver ==> redisClient.hash == Redis.Stored(old(redisClient.hash), redisKey, redisField, other)
                               && redisClient.HGet(redisKey, redisField) == Some(other)
                               && redisClient.published == old(redisClient.published) + [Redis.Message(redisKey, other)])
              && (!handOver ==> redisClient.hash == old(redisClient.hash) && redisClient.published == old(redisClient.published))
    {
      if activeHost == host {
        var other := RedundantHost(host, hostPrefix);
        var err := redisClient.HSet(redisKey, redisField, other);
        if err.None? {
          redisClient.Publish(redisKey, other);
        }
      }
    }

    /** `authorize`: the Basic-authentication decision against this provider's setting. */
    function Authorize(authorization: Option<string>, decode: string -> string): (d: BasicAuth.Decision)
      ensures !Present(endpointAuth) ==> d == BasicAuth.Proceed
      ensures Present(endpointAuth) && !Present(authorization) ==> d == BasicAuth.Challenge
      ensures d == BasicAuth.AuthorizeAsWritten(endpointAuth, authorization, decode)
    {
      BasicAuth.AuthorizeAsWritten(endpointAuth, authorization, decode)
    }
  }
}
