/** The provider's `/active` endpoint (provider/lib/active.js): it reports whether this host is
    the active one and, with an `active=true|false` query, moves the active role to this host
    or to the other host of the pair. */
module ActiveEndpoint {

  import opened Wrappers
  import opened Strings
  import opened ProviderManager
  import Redis

  /** The response's `active` field: a boolean, or `'swapping'` while a hand-over through the
      coordination store is under way. */
  datatype ActiveState = IsActive(b: bool) | Swapping

  datatype ActiveResponse = ActiveResponse(
    worker: string, host: string, active: ActiveState, error: Option<string>, message: Option<string>)

  const INVALID_QUERY: string := "Invalid query string"
  const STATE_CHANGED: string := "The active state has changed"

  /** The host an `active` query asks for: this host for `true`, the other host for `false`
      (in any case), `None` for any other text. */
  function RequestedHost(host: string, hostPrefix: string, query: string): (h: Option<string>)
    ensures h.None? <==> ToLower(query) != "true" && ToLower(query) != "false"
    ensures ToLower(query) == "true" ==> h == Some(host)
    ensures ToLower(query) == "false" ==> h == Some(RedundantHost(host, hostPrefix)) && h.value != host
  {
    var q := ToLower(query);
    if q != "true" && q != "false" then None
    else if q == "true" then Some(host)
    else Some(RedundantHost(host, hostPrefix))
  }

  /** The coordination store as the handler sees it: absent, or present with the outcome of
      its write (`None` when it succeeds, otherwise the error). */
  datatype Coordination = NoStore | Store(failure: Option<string>)

  /** What the handler does: the response it sends, the active host it leaves behind, and the
      value it writes to and publishes on the store, if any. */
  datatype ActiveOutcome = ActiveOutcome(response: ActiveResponse, activeHost: string, handOver: Option<string>)

  /** The handler as a function of this host's settings, its current belief, the store and
      the query. */
  function Outcome(worker: string, host: string, hostPrefix: string, activeHost: string,
                   store: Coordination, query: Option<string>): (o: ActiveOutcome)
    ensures o.response.worker == worker && o.response.host == host
    ensures o.handOver.Some? ==> store == Store(None) && o.handOver.value != activeHost
    ensures o.activeHost != activeHost ==> store == NoStore && o.response.message == Some(STATE_CHANGED)
    ensures o.response.error.Some? ==> o.activeHost == activeHost && o.handOver.None?
    ensures Present(query) && RequestedHost(host, hostPrefix, query.value).Some? ==>
              var target := RequestedHost(host, hostPrefix, query.value).value;
              && (store == NoStore ==> o.activeHost == target)
              && (store.Store? && store.failure.Some? && target != activeHost ==> o.response.error == store.failure)
  {
    var response := ActiveResponse(worker, host, IsActive(host == activeHost), None, None);
    if !Present(query) then ActiveOutcome(response, activeHost, None)
    else
      match RequestedHost(host, hostPrefix, query.value)
      case None => ActiveOutcome(response.(error := Some(INVALID_QUERY)), activeHost, None)
      case Some(target) =>
        if activeHost == target then ActiveOutcome(response, activeHost, None)
        else
          match store
          case NoStore =>
            ActiveOutcome(response.(active := IsActive(host == target), message := Some(STATE_CHANGED)), target, None)
          case Store(None) => ActiveOutcome(response.(active := Swapping), activeHost, Some(target))
          case Store(Some(err)) => ActiveOutcome(response.(error := Some(err)), activeHost, None)
  }

  /** Without a query, or with one that is not `true`/`false`, the handler only reports
      whether this host is active; an invalid query also says so in `error`. */
  lemma ReportOnly(worker: string, host: string, hostPrefix: string, activeHost: string, store: Coordination, query: Option<string>)
    requires !Present(query) || RequestedHost(host, hostPrefix, query.value).None?
    ensures var o := Outcome(worker, host, hostPrefix, activeHost, store, query);
            && o.activeHost == activeHost && o.handOver.None?
            && o.response.active == IsActive(host == activeHost)
            && (o.response.error == Some(INVALID_QUERY) <==> Present(query))
  {
  }

  /** Without a store, `active=true` makes this host the one that fires and `active=false`
      makes it stop firing, and the response reports the new state either way. */
  lemma LocalSwapTakesEffect(worker: string, host: string, hostPrefix: string, activeHost: string, query: string)
    requires ToLower(query) == "true" || ToLower(query) == "false"
    ensures var o := Outcome(worker, host, hostPrefix, activeHost, NoStore, Some(query));
            && (o.activeHost == host <==> ToLower(query) == "true")
            && (ToLower(query) == "false" ==> o.activeHost == RedundantHost(host, hostPrefix))
            && o.response.active == IsActive(o.activeHost == host)
            && o.response.error.None? && o.handOver.None?
  {
  }

  /** With a working store, a query that asks for a change hands over to the requested host
      through the store and leaves the local belief to the published message; one that asks
      for the present state does nothing. */
  lemma StoreSwapHandsOver(worker: string, host: string, hostPrefix: string, activeHost: string, query: string)
    requires ToLower(query) == "true" || ToLower(query) == "false"
    ensures var o := Outcome(worker, host, hostPrefix, activeHost, Store(None), Some(query));
            var target := RequestedHost(host, hostPrefix, query).value;
            && o.activeHost == activeHost
            && (target != activeHost <==> o.handOver == Some(target))
            && (target != activeHost <==> o.response.active == Swapping)
  {
  }

  /** Sending the same query again once its change has taken effect changes nothing more. */
  lemma RepeatedQueryIsStable(worker: string, host: string, hostPrefix: string, activeHost: string, store: Coordination, query: Option<string>)
    ensures var o := Outcome(worker, host, hostPrefix, activeHost, store, query);
            var target := if o.handOver.Some? then o.handOver.value else o.activeHost;
            var again := Outcome(worker, host, hostPrefix, target, store, query);
            again.activeHost == target && again.handOver.None? && again.response.message.None?
  {
  }

  /** The current store outcome, `NoStore` for a provider without one. */
  function CoordinationOf(client: Redis.RedisClient?): Coordination
    reads client
  {
    if client == null then NoStore else Store(client.failure)
  }

  /** `active(req, res)`: `query` is `req.query.active` (`None` when there is no such field).
      The handler answers with `Outcome`; with a store, the hand-over value is written to the
      worker's key and published on its channel. */
  method Active(tm: TriggerManager, query: Option<string>) returns (response: ActiveResponse)
    modifies tm, tm.redisClient
    ensures var o := Outcome(tm.worker, tm.host, tm.hostPrefix, old(tm.activeHost), old(CoordinationOf(tm.redisClient)), query);
            && response == o.response
            && tm.activeHost == o.activeHost
            && tm.Snapshot() == old(tm.Snapshot())
            && (tm.redisClient != null && o.handOver.Some? ==>
                  tm.redisClient.hash == Redis.Stored(old(tm.redisClient.hash), tm.redisKey, tm.redisField, o.handOver.value)
                  && tm.redisClient.HGet(tm.redisKey, tm.redisField) == o.handOver
                  && tm.redisClient.published == old(tm.redisClient.published) + [Redis.Message(tm.redisKey, o.handOver.value)])
            && (tm.redisClient != null && o.handOver.None? ==>
                  tm.redisClient.hash == old(tm.redisClient.hash) && tm.redisClient.published == old(tm.redisClient.published))
  {
    response := ActiveResponse(tm.worker, tm.host, IsActive(tm.host == tm.activeHost), None, None);
    if query.Some? && query.value != "" {
      var q := ToLower(query.value);
      if q != "true" && q != "false" {
        response := response.(error := Some(INVALID_QUERY));
        return;
      }
      var redundantHost := RedundantHost(tm.host, tm.hostPrefix);
      var activeHost := if q == "true" then tm.host else redundantHost;
      if tm.activeHost != activeHost {
        if tm.redisClient != null {
          var err := tm.redisClient.HSet(tm.redisKey, tm.redisField, activeHost);
          if err.None? {
            response := response.(active := Swapping);
            tm.redisClient.Publish(tm.redisKey, activeHost);
          } else {
            response := response.(error := err);
          }
        } else {
          response := response.(active := IsActive(tm.host == activeHost));
          tm.activeHost := activeHost;
          response := response.(message := Some(STATE_CHANGED));
        }
      }
    }
  }
}
