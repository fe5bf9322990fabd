/** The feed action (action/cosWebAction.js): the web action the platform calls to create,
    read, update and delete a COS trigger. It checks the caller's right to the trigger,
    validates the feed parameters, and talks to the trigger document store.

    The document store (action/lib/Database.js) is not part of this model: each call the
    action makes on it is recorded with its arguments, and the store's answers are inputs,
    as are the platform's answer to the trigger lookup, the answer of the bucket check and
    the time. A promise chain becomes a function from those answers to the calls made and
    the way the action's promise settles. */
module CosWebAction {

  import opened Wrappers
  import opened Strings
  import opened Json
  import opened QName
  import opened Config
  import opened Common

  const FEED_PARAMETERS: seq<string> := ["bucket", "endpoint", "apikey", "interval"]
  const DB_PARAMETERS: seq<string> := ["bucket", "s3_endpoint", "s3_apikey", "interval"]

  const NO_TRIGGER_NAME: string := "no trigger name parameter was provided"
  const UNSUPPORTED_LIFECYCLE: string := "unsupported lifecycleEvent"
  const VALIDATION_FAILED: string := "COS trigger feed validation failed"
  const NO_UPDATES: string := "no updatable parameters were specified"
  const INVALID_INTERVAL: string := "invalid interval parameter"

  /** A feed parameter a caller may set. */
  predicate Updatable(p: string)
  {
    p == "apikey" || p == "endpoint" || p == "bucket" || p == "interval"
  }

  /** The name under which the document store keeps an updatable parameter. */
  function DbName(p: string): (n: string)
    requires Updatable(p)
    ensures n in DB_PARAMETERS
  {
    if p == "apikey" then "s3_apikey" else if p == "endpoint" then "s3_endpoint" else p
  }

  /** Distinct feed parameters are stored under distinct names, in the same order as they
      are listed. */
  lemma DbNameInjective(p: string, q: string)
    requires Updatable(p) && Updatable(q) && DbName(p) == DbName(q)
    ensures p == q
  {
  }

  /** `verifiedParam(param)`: the stored name of an updatable parameter; any other name is an
      error. */
  function VerifiedParam(p: string): (r: Result<string, string>)
    ensures r.Ok? <==> Updatable(p)
    ensures r.Ok? ==> r.value == DbName(p) && r.value in DB_PARAMETERS
    ensures r.Err? ==> r.error == p + " is not an updatable parameter"
  {
    if Updatable(p) then Ok(DbName(p)) else Err(p + " is not an updatable parameter")
  }

  /** The feed parameters map onto the stored parameters one for one. */
  lemma FeedParametersMapToDbParameters()
    ensures |FEED_PARAMETERS| == |DB_PARAMETERS|
    ensures forall i :: 0 <= i < |FEED_PARAMETERS| ==>
              VerifiedParam(FEED_PARAMETERS[i]) == Ok(DB_PARAMETERS[i])
  {
  }

  /** The error of the bucket check. */
  datatype S3Error = S3Error(message: Option<string>, code: Option<string>)

  const BUCKET_ERROR_PREFIX: string := "COS trigger feed: error returned accessing bucket => ("

  /** `formatError(err)`: the code and message of a failed bucket check, `unknown` for each
      that is missing. */
  function FormatError(err: S3Error): (s: string)
    ensures s == BUCKET_ERROR_PREFIX + "code: " + (if Present(err.code) then err.code.value else "unknown")
                 + ", message: " + (if Present(err.message) then err.message.value else "unknown") + ")"
  {
    var msg := if Present(err.message) then err.message.value else "unknown";
    var code := if Present(err.code) then err.code.value else "unknown";
    BUCKET_ERROR_PREFIX + "code: " + code + ", message: " + msg + ")"
  }

  /** The loop over an expected list: each listed parameter must be present and updatable,
      and is copied under its stored name. */
  function CollectExpected(valid: map<string, Value>, params: map<string, Value>, expected: seq<string>): (r: Result<map<string, Value>, string>)
    ensures r.Ok? ==> valid.Keys <= r.value.Keys
    decreases |expected|
  {
    if expected == [] then Ok(valid)
    else
      var p := expected[0];
      if p !in params then Err("missing " + p + " parameter")
      else
        match VerifiedParam(p)
        case Err(e) => Err(e)
        case Ok(name) => CollectExpected(valid[name := params[p]], params, expected[1..])
  }

  /** The first listed parameter that is missing is the one reported. */
  lemma {:induction false} CollectExpectedMissing(valid: map<string, Value>, params: map<string, Value>, expected: seq<string>, i: nat)
    requires i < |expected| && expected[i] !in params
    requires forall j :: 0 <= j < i ==> expected[j] in params && Updatable(expected[j])
    ensures CollectExpected(valid, params, expected) == Err("missing " + expected[i] + " parameter")
    decreases i
  {
    if i > 0 {
      var p := expected[0];
      CollectExpectedMissing(valid[DbName(p) := params[p]], params, expected[1..], i - 1);
    }
  }

  /** When every listed parameter is present and updatable, the collection succeeds, adds
      only the stored names of listed parameters, and keeps every other entry of `valid`. */
  lemma {:induction false} CollectExpectedFrame(valid: map<string, Value>, params: map<string, Value>, expected: seq<string>)
    requires forall i :: 0 <= i < |expected| ==> expected[i] in params && Updatable(expected[i])
    ensures var r := CollectExpected(valid, params, expected);
            && r.Ok?
            && (forall k :: k in r.value ==> k in valid || exists i :: 0 <= i < |expected| && k == DbName(expected[i]))
            && (forall k :: k in valid && (forall i :: 0 <= i < |expected| ==> k != DbName(expected[i])) ==> r.value[k] == valid[k])
    decreases |expected|
  {
    if expected != [] {
      var p := expected[0];
      var valid' := valid[DbName(p) := params[p]];
      CollectExpectedFrame(valid', params, expected[1..]);
      var r := CollectExpected(valid', params, expected[1..]);
      forall k | k in r.value
        ensures k in valid || exists i :: 0 <= i < |expected| && k == DbName(expected[i])
      {
        if k !in valid' {
          var j :| 0 <= j < |expected[1..]| && k == DbName(expected[1..][j]);
          assert k == DbName(expected[j + 1]);
        } else if k !in valid {
          assert k == DbName(expected[0]);
        }
      }
      forall k | k in valid && (forall i :: 0 <= i < |expected| ==> k != DbName(expected[i]))
        ensures r.value[k] == valid[k]
      {
        assert k != DbName(expected[0]);
        forall j | 0 <= j < |expected[1..]|
          ensures k != DbName(expected[1..][j])
        {
          assert expected[1..][j] == expected[j + 1];
        }
      }
    }
  }

  /** When every listed parameter is present and updatable, each is copied under its stored
      name and every other entry of `valid` is kept. */
  lemma {:induction false} CollectExpectedComplete(valid: map<string, Value>, params: map<string, Value>, expected: seq<string>)
    requires forall i :: 0 <= i < |expected| ==> expected[i] in params && Updatable(expected[i])
    requires forall i, j :: 0 <= i < j < |expected| ==> expected[i] != expected[j]
    ensures var r := CollectExpected(valid, params, expected);
            && r.Ok?
            && (forall i :: 0 <= i < |expected| ==> DbName(expected[i]) in r.value && r.value[DbName(expected[i])] == params[expected[i]])
            && (forall k :: k in r.value ==> k in valid || exists i :: 0 <= i < |expected| && k == DbName(expected[i]))
            && (forall k :: k in valid && (forall i :: 0 <= i < |expected| ==> k != DbName(expected[i])) ==> r.value[k] == valid[k])
    decreases |expected|
  {
    CollectExpectedFrame(valid, params, expected);
    if expected != [] {
      var p := expected[0];
      var valid' := valid[DbName(p) := params[p]];
      CollectExpectedComplete(valid', params, expected[1..]);
      var r := CollectExpected(valid', params, expected[1..]);
      forall i | 0 <= i < |expected|
        ensures DbName(expected[i]) in r.value && r.value[DbName(expected[i])] == params[expected[i]]
      {
        if i == 0 {
          forall j | 0 <= j < |expected[1..]|
            ensures DbName(p) != DbName(expected[1..][j])
          {
            if DbName(p) == DbName(expected[1..][j]) {
              DbNameInjective(p, expected[1..][j]);
            }
          }
        } else {
          assert expected[i] == expected[1..][i - 1];
        }
      }
    }
  }

  /** The feed name of a stored parameter. */
  function FeedName(n: string): (p: string)
    requires n in DB_PARAMETERS
    ensures Updatable(p) && DbName(p) == n
  {
    if n == "s3_apikey" then "apikey" else if n == "s3_endpoint" then "endpoint" else n
  }

  /** The updatable parameters among `names`, under their stored names. */
  function Updates(params: map<string, Value>, names: set<string>): (u: map<string, Value>)
    ensures forall p :: p in names && p in params && Updatable(p) ==> DbName(p) in u && u[DbName(p)] == params[p]
    ensures forall n :: n in u ==> n in DB_PARAMETERS && FeedName(n) in names && FeedName(n) in params
  {
    var u := map n | n in DB_PARAMETERS && FeedName(n) in names && FeedName(n) in params :: params[FeedName(n)];
    assert forall p :: Updatable(p) ==> FeedName(DbName(p)) == p;
    u
  }

  /** No update is collected exactly when none of the names is present and updatable. */
  lemma UpdatesEmpty(params: map<string, Value>, names: set<string>)
    ensures Updates(params, names) == map[] <==> forall p :: p in names && p in params ==> !Updatable(p)
  {
    if p :| p in names && p in params && Updatable(p) {
      assert DbName(p) in Updates(params, names);
    }
  }

  /** Taking one more parameter name into account adds its update, if it has one. */
  lemma UpdatesStep(params: map<string, Value>, done: set<string>, p: string)
    requires p in params
    ensures Updatable(p) ==> Updates(params, done + {p}) == Updates(params, done)[DbName(p) := params[p]]
    ensures !Updatable(p) ==> Updates(params, done + {p}) == Updates(params, done)
  {
    var before := Updates(params, done);
    var after := Updates(params, done + {p});
    if Updatable(p) {
      var expected := before[DbName(p) := params[p]];
      forall n
        ensures n in after <==> n in expected
        ensures n in after ==> after[n] == expected[n]
      {
        if n in DB_PARAMETERS && n != DbName(p) {
          assert FeedName(n) != p;
        }
      }
      assert after == expected;
    } else {
      forall n
        ensures n in after <==> n in before
        ensures n in after ==> after[n] == before[n]
      {
        if n in DB_PARAMETERS {
          assert FeedName(n) != p;
        }
      }
      assert after == before;
    }
  }

  lemma UnionThenUpdate(a: map<string, Value>, b: map<string, Value>, k: string, v: Value)
    ensures a + b[k := v] == (a + b)[k := v]
  {
  }

  /** The loop over every parameter of an update: names that are not updatable are skipped,
      and at least one must be updatable. */
  function CollectUpdates(valid: map<string, Value>, params: map<string, Value>): (r: Result<map<string, Value>, string>)
    ensures r.Err? <==> forall p :: p in params ==> !Updatable(p)
    ensures r.Err? ==> r.error == NO_UPDATES
  {
    var u := Updates(params, params.Keys);
    UpdatesEmpty(params, params.Keys);
    if u == map[] then Err(NO_UPDATES)
    else Ok(valid + u)
  }

  /** An update changes exactly the stored parameters it names: every stored parameter
      whose feed name is absent keeps its previous value. */
  lemma UpdateKeepsUnmentioned(valid: map<string, Value>, params: map<string, Value>, p: string)
    requires CollectUpdates(valid, params).Ok? && Updatable(p)
    ensures var r := CollectUpdates(valid, params).value;
            && (p in params ==> r[DbName(p)] == params[p])
            && (p !in params && DbName(p) in valid ==> r[DbName(p)] == valid[DbName(p)])
  {
    var u := Updates(params, params.Keys);
    if p !in params {
      forall q | q in params && Updatable(q)
        ensures DbName(q) != DbName(p)
      {
        if DbName(q) == DbName(p) {
          DbNameInjective(q, p);
        }
      }
      assert DbName(p) !in u;
    } else {
      assert DbName(p) in u;
    }
  }

  /** `interval` is an integer of at least 1. */
  predicate ValidInterval(v: Value)
  {
    v.Num? && v.n >= 1
  }

  /** `validateParams(params, valid, expectedParams)` with the bucket check answered by
      `bucketCheck` (`None`: the bucket was listed). */
  function Validated(params: map<string, Value>, valid: map<string, Value>, expected: Option<seq<string>>, bucketCheck: Option<S3Error>): (r: Result<map<string, Value>, string>)
    ensures r.Ok? ==> ValidInterval(Get(r.value, "interval")) && bucketCheck.None?
    ensures r.Ok? ==> valid.Keys <= r.value.Keys
  {
    var collected := if expected.Some? then CollectExpected(valid, params, expected.value) else CollectUpdates(valid, params);
    match collected
    case Err(e) => Err(e)
    case Ok(v) =>
      if !ValidInterval(Get(v, "interval")) then Err(INVALID_INTERVAL)
      else if bucketCheck.Some? then Err(FormatError(bucketCheck.value))
      else Ok(v)
  }

  /** A create request with all four feed parameters, a valid interval and a reachable bucket
      is accepted, and yields exactly the four stored parameters. */
  lemma CreateValidationAccepts(params: map<string, Value>)
    requires forall p :: p in FEED_PARAMETERS ==> p in params
    requires ValidInterval(params["interval"])
    ensures Validated(params, map[], Some(FEED_PARAMETERS), None)
            == Ok(map["bucket" := params["bucket"], "s3_endpoint" := params["endpoint"],
                      "s3_apikey" := params["apikey"], "interval" := params["interval"]])
  {
    CreateCollected(params);
  }

  /** The four feed parameters of a complete create request, under their stored names. */
  lemma CreateCollected(params: map<string, Value>)
    requires forall p :: p in FEED_PARAMETERS ==> p in params
    ensures CollectExpected(map[], params, FEED_PARAMETERS)
            == Ok(map["bucket" := params["bucket"], "s3_endpoint" := params["endpoint"],
                      "s3_apikey" := params["apikey"], "interval" := params["interval"]])
  {
    var r := CollectExpected(map[], params, FEED_PARAMETERS);
    var v1 := map["bucket" := params["bucket"]];
    var v2 := v1["s3_endpoint" := params["endpoint"]];
    var v3 := v2["s3_apikey" := params["apikey"]];
    var v4 := v3["interval" := params["interval"]];
    assert FEED_PARAMETERS[1..][1..][1..][1..] == [];
    assert CollectExpected(v4, params, []) == Ok(v4);
    assert r == Ok(v4);
  }

  /** An update request naming some updatable parameter, whose resulting interval is valid,
      is accepted with the stored parameters overridden by the named ones when the bucket
      is listed, and refused with the bucket error otherwise. */
  lemma UpdateValidationAccepts(params: map<string, Value>, valid: map<string, Value>, bucketCheck: Option<S3Error>)
    requires exists p :: p in params && Updatable(p)
    requires ValidInterval(Get(valid + Updates(params, params.Keys), "interval"))
    ensures bucketCheck.None? ==> Validated(params, valid, None, bucketCheck) == Ok(valid + Updates(params, params.Keys))
    ensures bucketCheck.Some? ==> Validated(params, valid, None, bucketCheck) == Err(FormatError(bucketCheck.value))
  {
  }

  /** The interval is checked before the bucket: an update whose resulting interval is
      invalid is refused with `invalid interval parameter` whatever the bucket check
      answers. */
  lemma IntervalCheckedBeforeBucket(params: map<string, Value>, valid: map<string, Value>, bucketCheck: Option<S3Error>)
    requires exists p :: p in params && Updatable(p)
    requires !ValidInterval(Get(valid + Updates(params, params.Keys), "interval"))
    ensures Validated(params, valid, None, bucketCheck) == Err(INVALID_INTERVAL)
  {
  }

  /** The same order for a create request with every feed parameter: an invalid interval is
      reported whatever the bucket check answers. */
  lemma CreateIntervalCheckedBeforeBucket(params: map<string, Value>, bucketCheck: Option<S3Error>)
    requires forall p :: p in FEED_PARAMETERS ==> p in params
    requires !ValidInterval(params["interval"])
    ensures Validated(params, map[], Some(FEED_PARAMETERS), bucketCheck) == Err(INVALID_INTERVAL)
  {
    CreateCollected(params);
  }

  /** A create request without some feed parameter is refused naming the first one missing. */
  lemma CreateValidationReportsMissing(params: map<string, Value>, i: nat, bucketCheck: Option<S3Error>)
    requires i < |FEED_PARAMETERS| && FEED_PARAMETERS[i] !in params
    requires forall j :: 0 <= j < i ==> FEED_PARAMETERS[j] in params
    ensures Validated(params, map[], Some(FEED_PARAMETERS), bucketCheck) == Err("missing " + FEED_PARAMETERS[i] + " parameter")
  {
    CollectExpectedMissing(map[], params, FEED_PARAMETERS, i);
  }

  /** The `for ... of expectedParams` loop of `validateParams`, filling `valid` in place. */
  method CollectExpectedLoop(params: map<string, Value>, valid0: map<string, Value>, expected: seq<string>)
    returns (r: Result<map<string, Value>, string>)
    ensures r == CollectExpected(valid0, params, expected)
  {
    var valid := valid0;
    for i := 0 to |expected|
      invariant CollectExpected(valid0, params, expected) == CollectExpected(valid, params, expected[i..])
    {
      var p := expected[i];
      assert expected[i..][1..] == expected[i + 1..];
      if p !in params {
        return Err("missing " + p + " parameter");
      }
      match VerifiedParam(p) {
        case Err(e) =>
          return Err(e);
        case Ok(name) =>
          valid := valid[name := params[p]];
      }
    }
    assert expected[|expected|..] == [];
    return Ok(valid);
  }

  /** The `for ... in params` loop of `validateParams`: every updatable parameter is copied
      under its stored name, the others are skipped, in whatever order they come. */
  method CollectUpdatesLoop(params: map<string, Value>, valid0: map<string, Value>)
    returns (r: Result<map<string, Value>, string>)
    ensures r == CollectUpdates(valid0, params)
  {
    var valid := valid0;
    var remaining := params.Keys;
    var done: set<string> := {};
    var hasUpdate := false;
    while remaining != {}
      invariant remaining + done == params.Keys && remaining !! done
      invariant valid == valid0 + Updates(params, done)
      invariant hasUpdate <==> Updates(params, done) != map[]
      decreases remaining
    {
      var p :| p in remaining;
      UpdatesStep(params, done, p);
      match VerifiedParam(p) {
        case Ok(name) =>
          UnionThenUpdate(valid0, Updates(params, done), name, params[p]);
          valid := valid[name := params[p]];
          hasUpdate := true;
          assert name in Updates(params, done + {p});
        case Err(_) =>
      }
      remaining := remaining - {p};
      done := done + {p};
    }
    assert done == params.Keys;
    if !hasUpdate {
      return Err(NO_UPDATES);
    }
    return Ok(valid);
  }

  /** `validateParams(params, valid, expectedParams)`: one of the two loops, then the
      interval and the bucket checks. */
  method ValidateParams(params: map<string, Value>, valid0: map<string, Value>, expected: Option<seq<string>>, bucketCheck: Option<S3Error>)
    returns (r: Result<map<string, Value>, string>)
    ensures r == Validated(params, valid0, expected, bucketCheck)
  {
    var collected;
    if expected.Some? {
      collected := CollectExpectedLoop(params, valid0, expected.value);
    } else {
      collected := CollectUpdatesLoop(params, valid0);
    }
    if collected.Err? {
      return Err(collected.error);
    }
    var valid := collected.value;
    if !ValidInterval(Get(valid, "interval")) {
      return Err(INVALID_INTERVAL);
    }
    if bucketCheck.Some? {
      return Err(FormatError(bucketCheck.value));
    }
    return Ok(valid);
  }

  /** The lifecycle operation a request asks for. */
  datatype Lifecycle = Create | Read | Update | Delete

  /** The `__ow_method` dispatch of `main`. */
  function LifecycleOf(owMethod: Value): (l: Option<Lifecycle>)
    ensures l.Some? ==> owMethod.Str?
    ensures l == Some(Create) <==> owMethod == Str("post")
    ensures l == Some(Read) <==> owMethod == Str("get")
    ensures l == Some(Update) <==> owMethod == Str("put")
    ensures l == Some(Delete) <==> owMethod == Str("delete")
  {
    if owMethod == Str("post") then Some(Create)
    else if owMethod == Str("get") then Some(Read)
    else if owMethod == Str("put") then Some(Update)
    else if owMethod == Str("delete") then Some(Delete)
    else None
  }

  /** How the action's promise settles, or what `main` returns. */
  datatype Reply =
    | Answered(response: Response)     // returned, or the promise resolved with it
    | Refused(response: Response)      // the promise rejected with an error response
    | Failed(error: StoreError)        // the promise rejected with the store's error
    | Crashed                          // a `TypeError`: thrown by `main`, or rejecting the promise

  /** A rejection of the document store: an `Error` with its message. */
  datatype StoreError = StoreError(message: Value)

  /** A call the action makes on the document store. */
  datatype DbCall =
    | GetWorkerId(workers: seq<Value>)
    | CreateDoc(id: string, newDoc: map<string, Value>)
    | GetDoc(key: Value)
    | DisableDoc(id: string, doc: Value, reason: string)
    | UpdateDoc(id: string, doc: Value, params: Value)
    | DeleteDoc(key: Value)

  /** Whether a call writes to the store. */
  predicate Writes(c: DbCall)
  {
    c.CreateDoc? || c.DisableDoc? || c.UpdateDoc? || c.DeleteDoc?
  }

  /** Every call that names the trigger names it by `id`, and a first read is of `id`. */
  predicate KeyedBy(calls: seq<DbCall>, id: string)
  {
    forall i :: 0 <= i < |calls| ==>
      && (calls[i].CreateDoc? || calls[i].DisableDoc? || calls[i].UpdateDoc? ==> calls[i].id == id)
      && (calls[i].GetDoc? && i == 0 ==> calls[i].key == Str(id))
  }

  /** The store's answers: to `getWorkerID`, `createTrigger`, the first and second
      `getTrigger`, `disableTrigger` (which resolves with the id), `updateTrigger` and
      `deleteTrigger`. */
  datatype StoreAnswers = StoreAnswers(
    workerId: Result<Value, StoreError>,
    create: Option<StoreError>,
    fetch: Result<map<string, Value>, StoreError>,
    disable: Result<Value, StoreError>,
    refetch: Result<map<string, Value>, StoreError>,
    update: Option<StoreError>,
    delete: Option<StoreError>)

  datatype FlowResult = FlowResult(reply: Reply, calls: seq<DbCall>)

  /** What `main` knows before it dispatches. */
  datatype Prelude = Prelude(lifecycle: Lifecycle, triggerName: string, triggerData: TriggerData, triggerId: string, workers: seq<Value>)

  /** The first part of `main`: the trigger name is required, parsed into the trigger data and
      the trigger id `/namespace/name`, and the method must be one of the four. */
  function Prepare(params: map<string, Value>, parse: string -> Option<Value>): (r: Result<Prelude, Reply>)
    ensures !Truthy(Get(params, "triggerName")) ==> r == Err(Answered(SendError(400, NO_TRIGGER_NAME, Undefined)))
    ensures r.Ok? ==> Get(params, "triggerName") == Str(r.value.triggerName)
                      && r.value.triggerId == TriggerId(ParseQName(r.value.triggerName))
                      && Some(r.value.lifecycle) == LifecycleOf(Get(params, "__ow_method"))
    ensures (Get(params, "triggerName").Str? && Truthy(Get(params, "triggerName")) && LifecycleOf(Get(params, "__ow_method")).None?)
              ==> r == Err(Answered(SendError(400, UNSUPPORTED_LIFECYCLE, Undefined)))
  {
    var triggerName := Get(params, "triggerName");
    if !Truthy(triggerName) then Err(Answered(SendError(400, NO_TRIGGER_NAME, Undefined)))
    else if !triggerName.Str? then Err(Crashed)
    else
      var parts := ParseQName(triggerName.s);
      var triggerData := TriggerData(Get(params, "authKey"), parts.name, parts.namespace,
                                     ConstructObject(Get(params, "additionalData"), parse));
      var workers := if Get(params, "workers").Arr? then Get(params, "workers").items else [];
      match LifecycleOf(Get(params, "__ow_method"))
      case None => Err(Answered(SendError(400, UNSUPPORTED_LIFECYCLE, Undefined)))
      case Some(lifecycle) => Ok(Prelude(lifecycle, triggerName.s, triggerData, TriggerId(parts), workers))
  }

  /** The document a create request starts from: active since `now`, with no limit on fires. */
  function NewTrigger(t: TriggerData, now: int): (doc: map<string, Value>)
    ensures doc.Keys == {"apikey", "maxTriggers", "status", "additionalData"}
    ensures doc["maxTriggers"] == Num(-1)
    ensures doc["status"] == Obj(map["active" := Bool(true), "dateChanged" := Num(now)])
    ensures doc["apikey"] == t.apikey && doc["additionalData"] == t.additionalData
  {
    map["apikey" := t.apikey, "maxTriggers" := Num(-1),
        "status" := Obj(map["active" := Bool(true), "dateChanged" := Num(now)]),
        "additionalData" := t.additionalData]
  }

  /** The message `err.message` of the validation `catch`: an error response from the
      authentication check has none. */
  function CaughtMessage(failure: Result<Response, string>): Value
  {
    match failure
    case Ok(_) => Undefined
    case Err(m) => Str(m)
  }

  /** The `post` chain as written: the `catch` after validation rejects the action's promise
      but returns normally, so the chain goes on to pick a worker and create the document,
      without the validated parameters. The first settlement wins. */
  function CreateFlowAsWritten(pre: Prelude, params: map<string, Value>, auth: Result<(), Response>,
                               bucketCheck: Option<S3Error>, store: StoreAnswers, now: int): (f: FlowResult)
    ensures 1 <= |f.calls| <= 2 && f.calls[0] == GetWorkerId(pre.workers)
    ensures store.workerId.Ok? ==> |f.calls| == 2 && f.calls[1].CreateDoc? && f.calls[1].id == pre.triggerId
    ensures KeyedBy(f.calls, pre.triggerId)
  {
    var validated: Result<map<string, Value>, Result<Response, string>> :=
      if auth.Err? then Err(Ok(auth.error))
      else match Validated(params, map[], Some(FEED_PARAMETERS), bucketCheck)
           case Ok(v) => Ok(v)
           case Err(m) => Err(Err(m));
    var first: Option<Reply> := if validated.Err? then Some(Refused(SendError(400, VALIDATION_FAILED, CaughtMessage(validated.error)))) else None;
    var newTrigger := NewTrigger(pre.triggerData, now) + (if validated.Ok? then validated.value else map[]);
    var calls := [GetWorkerId(pre.workers)];
    match store.workerId
    case Err(e) => FlowResult(first.GetOr(Failed(e)), calls)
    case Ok(worker) =>
      var calls' := calls + [CreateDoc(pre.triggerId, newTrigger["worker" := worker])];
      match store.create
      case Some(e) => FlowResult(first.GetOr(Failed(e)), calls')
      case None => FlowResult(first.GetOr(Answered(SendResponse(None, None))), calls')
  }

  /** The `post` chain as intended: a failed authentication or validation settles the request
      and nothing more is done. */
  function CreateFlow(pre: Prelude, params: map<string, Value>, auth: Result<(), Response>,
                      bucketCheck: Option<S3Error>, store: StoreAnswers, now: int): (f: FlowResult)
    ensures f.reply.Refused? ==> f.calls == []
    ensures KeyedBy(f.calls, pre.triggerId)
  {
    if auth.Err? then FlowResult(Refused(SendError(400, VALIDATION_FAILED, Undefined)), [])
    else
      match Validated(params, map[], Some(FEED_PARAMETERS), bucketCheck)
      case Err(m) => FlowResult(Refused(SendError(400, VALIDATION_FAILED, Str(m))), [])
      case Ok(valid) =>
        var newTrigger := NewTrigger(pre.triggerData, now) + valid;
        match store.workerId
        case Err(e) => FlowResult(Failed(e), [GetWorkerId(pre.workers)])
        case Ok(worker) =>
          var calls := [GetWorkerId(pre.workers), CreateDoc(pre.triggerId, newTrigger["worker" := worker])];
          match store.create
          case Some(e) => FlowResult(Failed(e), calls)
          case None => FlowResult(Answered(SendResponse(None, None)), calls)
  }

  /** As written, a create request that fails authentication is refused and yet a trigger
      document, without bucket, endpoint, key or interval, is created under its id. */
  lemma CreateAsWrittenStoresRefusedTrigger(pre: Prelude, params: map<string, Value>, failure: Response,
                                            bucketCheck: Option<S3Error>, store: StoreAnswers, now: int, worker: Value)
    requires store.workerId == Ok(worker)
    ensures var f := CreateFlowAsWritten(pre, params, Err(failure), bucketCheck, store, now);
            && f.reply == Refused(SendError(400, VALIDATION_FAILED, Undefined))
            && f.calls == [GetWorkerId(pre.workers), CreateDoc(pre.triggerId, NewTrigger(pre.triggerData, now)["worker" := worker])]
            && "bucket" !in NewTrigger(pre.triggerData, now)["worker" := worker]
  {
    assert NewTrigger(pre.triggerData, now) + map[] == NewTrigger(pre.triggerData, now);
  }

  /** As intended, a refused create request writes nothing; an accepted one stores the new
      trigger, active, unlimited, with the validated parameters and the chosen worker. */
  lemma CreateFlowWritesOnlyWhenAccepted(pre: Prelude, params: map<string, Value>, auth: Result<(), Response>,
                                         bucketCheck: Option<S3Error>, store: StoreAnswers, now: int)
    ensures var f := CreateFlow(pre, params, auth, bucketCheck, store, now);
            && (f.reply.Refused? ==> forall i :: 0 <= i < |f.calls| ==> !Writes(f.calls[i]))
            && (f.reply.Answered? ==>
                  var valid := Validated(params, map[], Some(FEED_PARAMETERS), bucketCheck);
                  && auth.Ok? && valid.Ok? && store.workerId.Ok?
                  && f.calls == [GetWorkerId(pre.workers), CreateDoc(pre.triggerId, (NewTrigger(pre.triggerData, now) + valid.value)["worker" := store.workerId.value])]
                  && f.reply.response == SendResponse(None, None))
  {
  }

  /** The configuration the `get` answer reports for a document whose `_id` is `id`: the
      name and namespace are the third and second `:`-separated pieces of the id
      (`undefined` when there are fewer), the rest are the stored parameters under their
      feed names. */
  function ReadConfig(doc: map<string, Value>, id: string): (config: map<string, Value>)
    ensures config.Keys == {"name", "namespace", "bucket", "endpoint", "apikey", "interval"}
    ensures var pieces := Split(id, ':');
            && config["name"] == (if |pieces| > 2 then Str(pieces[2]) else Undefined)
            && config["namespace"] == (if |pieces| > 1 then Str(pieces[1]) else Undefined)
    ensures && config["bucket"] == Get(doc, "bucket") && config["endpoint"] == Get(doc, "s3_endpoint")
            && config["apikey"] == Get(doc, "s3_apikey") && config["interval"] == Get(doc, "interval")
  {
    var pieces := Split(id, ':');
    map["name" := if |pieces| > 2 then Str(pieces[2]) else Undefined,
        "namespace" := if |pieces| > 1 then Str(pieces[1]) else Undefined,
        "bucket" := Get(doc, "bucket"),
        "endpoint" := Get(doc, "s3_endpoint"),
        "apikey" := Get(doc, "s3_apikey"),
        "interval" := Get(doc, "interval")]
  }

  /** The status the `get` answer reports: the stored flag, change time and reason, each
      `undefined` when the stored status is not an object. */
  function ReadStatus(status: Value): (reported: map<string, Value>)
    requires status != Undefined && status != Null
    ensures reported.Keys == {"active", "dateChanged", "reason"}
    ensures && reported["active"] == Prop(status, "active")
            && reported["dateChanged"] == Prop(status, "dateChanged")
            && reported["reason"] == Prop(status, "reason")
    ensures !status.Obj? ==> forall k :: k in reported ==> reported[k] == Undefined
  {
    map["active" := Prop(status, "active"),
        "dateChanged" := Prop(status, "dateChanged"),
        "reason" := Prop(status, "reason")]
  }

  /** The body of the `get` answer; `None` when reading the document throws (an `_id` that
      is not a string, a missing status). */
  function ReadBody(doc: map<string, Value>): (body: Option<Value>)
    ensures body.Some? <==> Get(doc, "_id").Str? && Get(doc, "status") != Undefined && Get(doc, "status") != Null
    ensures body.Some? ==>
              body.value == Obj(map["config" := Obj(ReadConfig(doc, Get(doc, "_id").s)),
                                    "status" := Obj(ReadStatus(Get(doc, "status")))])
  {
    var id := Get(doc, "_id");
    var status := Get(doc, "status");
    if !id.Str? || status == Undefined || status == Null then None
    else Some(Obj(map["config" := Obj(ReadConfig(doc, id.s)), "status" := Obj(ReadStatus(status))]))
  }

  /** A trigger created by an accepted request reads back, once the store has given it an
      `_id`, with the bucket, endpoint, key and interval of the request, active since the
      creation. The document is the one `CreateFlowWritesOnlyWhenAccepted` shows written. */
  lemma CreateThenRead(params: map<string, Value>, t: TriggerData, now: int, worker: Value, id: string)
    requires forall p :: p in FEED_PARAMETERS ==> p in params
    requires ValidInterval(params["interval"])
    ensures var valid := Validated(params, map[], Some(FEED_PARAMETERS), None);
            && valid.Ok?
            && var doc := ((NewTrigger(t, now) + valid.value)["worker" := worker])["_id" := Str(id)];
            && ReadBody(doc).Some?
            && var config := ReadConfig(doc, id);
            && config["bucket"] == params["bucket"] && config["endpoint"] == params["endpoint"]
            && config["apikey"] == params["apikey"] && config["interval"] == params["interval"]
            && ReadStatus(Get(doc, "status"))["active"] == Bool(true)
            && ReadStatus(Get(doc, "status"))["dateChanged"] == Num(now)
  {
    CreateValidationAccepts(params);
    var valid := Validated(params, map[], Some(FEED_PARAMETERS), None).value;
    StoredTriggerHolds(params, valid, t, now, worker, id);
    var status := map["active" := Bool(true), "dateChanged" := Num(now)];
    assert Prop(Obj(status), "active") == Bool(true) && Prop(Obj(status), "dateChanged") == Num(now);
  }

  /** A new trigger document holding the validated parameters of a create request, given an
      `_id`, holds the request's parameters under their stored names and an active status
      dated at its creation. */
  lemma StoredTriggerHolds(params: map<string, Value>, valid: map<string, Value>, t: TriggerData, now: int, worker: Value, id: string)
    requires forall p :: p in FEED_PARAMETERS ==> p in params
    requires valid == map["bucket" := params["bucket"], "s3_endpoint" := params["endpoint"],
                          "s3_apikey" := params["apikey"], "interval" := params["interval"]]
    ensures var doc := ((NewTrigger(t, now) + valid)["worker" := worker])["_id" := Str(id)];
            && Get(doc, "_id") == Str(id)
            && Get(doc, "bucket") == params["bucket"] && Get(doc, "s3_endpoint") == params["endpoint"]
            && Get(doc, "s3_apikey") == params["apikey"] && Get(doc, "interval") == params["interval"]
            && Get(doc, "status") == Obj(map["active" := Bool(true), "dateChanged" := Num(now)])
  {
  }

  /** The `get` chain: authenticate, read the document, answer with its configuration. */
  function ReadFlow(pre: Prelude, auth: Result<(), Response>, store: StoreAnswers): (f: FlowResult)
    ensures auth.Err? ==> f == FlowResult(Refused(auth.error), [])
    ensures auth.Ok? ==> f.calls == [GetDoc(Str(pre.triggerId))]
    ensures KeyedBy(f.calls, pre.triggerId)
    ensures f.reply.Answered? ==> store.fetch.Ok? && f.reply.response == SendResponse(Some(200), ReadBody(store.fetch.value))
  {
    if auth.Err? then FlowResult(Refused(auth.error), [])
    else
      var calls := [GetDoc(Str(pre.triggerId))];
      match store.fetch
      case Err(e) => FlowResult(Failed(e), calls)
      case Ok(doc) =>
        match ReadBody(doc)
        case None => FlowResult(Crashed, calls)
        case Some(body) => FlowResult(Answered(SendResponse(Some(200), Some(body))), calls)
  }

  /** `trigger.status && trigger.status.active === false`. */
  predicate Disabled(doc: map<string, Value>)
  {
    Truthy(Get(doc, "status")) && Prop(Get(doc, "status"), "active") == Bool(false)
  }

  /** `_.pick(doc, dbParameters)`. */
  function Pick(doc: map<string, Value>, keys: seq<string>): (r: map<string, Value>)
    ensures forall k :: k in r <==> k in doc && k in keys
    ensures forall k :: k in r ==> r[k] == doc[k]
  {
    map k | k in doc && k in keys :: doc[k]
  }

  function DisabledMessage(triggerName: string): string
  {
    triggerName + " cannot be updated because it is disabled"
  }

  /** The validation step of the `put` chain: the settlement it causes, if any, the original
      document, and the validated parameters. */
  datatype UpdateCheck = UpdateCheck(first: Option<Reply>, calls: seq<DbCall>, original: Value, updated: Value)

  function CheckUpdate(pre: Prelude, params: map<string, Value>, auth: Result<(), Response>,
                       bucketCheck: Option<S3Error>, store: StoreAnswers): (c: UpdateCheck)
    ensures c.first.None? ==>
              && auth.Ok? && store.fetch.Ok? && !Disabled(store.fetch.value)
              && Validated(params, Pick(store.fetch.value, DB_PARAMETERS), None, bucketCheck).Ok?
              && c.calls == [GetDoc(Str(pre.triggerId))]
              && c.original == Obj(store.fetch.value)
              && c.updated == Obj(Validated(params, Pick(store.fetch.value, DB_PARAMETERS), None, bucketCheck).value)
    ensures c.calls == [] || c.calls == [GetDoc(Str(pre.triggerId))]
  {
    if auth.Err? then UpdateCheck(Some(Refused(SendError(400, VALIDATION_FAILED, Undefined))), [], Undefined, Undefined)
    else
      var calls := [GetDoc(Str(pre.triggerId))];
      match store.fetch
      case Err(e) => UpdateCheck(Some(Refused(SendError(400, VALIDATION_FAILED, e.message))), calls, Undefined, Undefined)
      case Ok(trigger) =>
        if Disabled(trigger) then
          UpdateCheck(Some(Refused(SendError(400, DisabledMessage(pre.triggerName), Undefined))), calls, Undefined, Undefined)
        else
          match Validated(params, Pick(trigger, DB_PARAMETERS), None, bucketCheck)
          case Err(m) => UpdateCheck(Some(Refused(SendError(400, VALIDATION_FAILED, Str(m)))), calls, Obj(trigger), Undefined)
          case Ok(valid) => UpdateCheck(None, calls, Obj(trigger), Obj(valid))
  }

  /** The `put` chain as written: after a refusal the chain still disables the stored trigger,
      reads it again and updates it, with `undefined` parameters. */
  function UpdateFlowAsWritten(pre: Prelude, params: map<string, Value>, auth: Result<(), Response>,
                               bucketCheck: Option<S3Error>, store: StoreAnswers): (f: FlowResult)
    ensures |f.calls| >= 1
    ensures auth.Err? ==> f.reply == Refused(SendError(400, VALIDATION_FAILED, Undefined))
                          && f.calls[0] == DisableDoc(pre.triggerId, Undefined, "updating")
    ensures KeyedBy(f.calls, pre.triggerId)
  {
    UpdateChainAsWritten(pre, CheckUpdate(pre, params, auth, bucketCheck, store), store)
  }

  /** The rest of the `put` chain as written, once the validation step has settled or not. */
  function UpdateChainAsWritten(pre: Prelude, check: UpdateCheck, store: StoreAnswers): (f: FlowResult)
    requires check.calls == [] || check.calls == [GetDoc(Str(pre.triggerId))]
    ensures |f.calls| >= |check.calls| + 1 && f.calls[|check.calls|] == DisableDoc(pre.triggerId, check.original, "updating")
    ensures check.first.Some? ==> f.reply == check.first.value
    ensures check.first.None? && check.calls != [] ==> f == UpdateWrites(pre, check.original, check.updated, store)
    ensures KeyedBy(f.calls, pre.triggerId)
  {
    var calls := check.calls + [DisableDoc(pre.triggerId, check.original, "updating")];
    match store.disable
    case Err(e) => FlowResult(check.first.GetOr(Failed(e)), calls)
    case Ok(id) =>
      var calls' := calls + [GetDoc(id)];
      match store.refetch
      case Err(e) => FlowResult(check.first.GetOr(Failed(e)), calls')
      case Ok(trigger) =>
        var calls'' := calls' + [UpdateDoc(pre.triggerId, Obj(trigger), check.updated)];
        match store.update
        case Some(e) => FlowResult(check.first.GetOr(Failed(e)), calls'')
        case None => FlowResult(check.first.GetOr(Answered(SendResponse(None, None))), calls'')
  }

  /** The writes of an update that passed its checks: take the trigger out of service, read
      it again and store it with the updated parameters. */
  function UpdateWrites(pre: Prelude, original: Value, updated: Value, store: StoreAnswers): (f: FlowResult)
    ensures f.reply.Answered? || f.reply.Failed?
    ensures KeyedBy(f.calls, pre.triggerId)
    ensures f.reply.Answered? ==>
              && store.disable.Ok? && store.refetch.Ok?
              && f.calls == [GetDoc(Str(pre.triggerId)), DisableDoc(pre.triggerId, original, "updating"),
                             GetDoc(store.disable.value), UpdateDoc(pre.triggerId, Obj(store.refetch.value), updated)]
              && f.reply.response == SendResponse(None, None)
  {
    var read := GetDoc(Str(pre.triggerId));
    var disable := DisableDoc(pre.triggerId, original, "updating");
    match store.disable
    case Err(e) => FlowResult(Failed(e), [read, disable])
    case Ok(id) =>
      match store.refetch
      case Err(e) => FlowResult(Failed(e), [read, disable, GetDoc(id)])
      case Ok(trigger) =>
        var calls := [read, disable, GetDoc(id), UpdateDoc(pre.triggerId, Obj(trigger), updated)];
        match store.update
        case Some(e) => FlowResult(Failed(e), calls)
        case None => FlowResult(Answered(SendResponse(None, None)), calls)
  }

  /** The `put` chain as intended: a refusal ends the request. */
  function UpdateFlow(pre: Prelude, params: map<string, Value>, auth: Result<(), Response>,
                      bucketCheck: Option<S3Error>, store: StoreAnswers): (f: FlowResult)
    ensures f.reply.Refused? ==> forall i :: 0 <= i < |f.calls| ==> !Writes(f.calls[i])
    ensures KeyedBy(f.calls, pre.triggerId)
  {
    var check := CheckUpdate(pre, params, auth, bucketCheck, store);
    if check.first.Some? then FlowResult(check.first.value, check.calls)
    else UpdateWrites(pre, check.original, check.updated, store)
  }

  /** An update of a disabled trigger is refused with 400 naming the trigger. As written the
      chain then still disables it and writes an update with `undefined` parameters; as
      intended nothing is written. */
  lemma UpdateOfDisabledTrigger(pre: Prelude, params: map<string, Value>, bucketCheck: Option<S3Error>, store: StoreAnswers)
    requires store.fetch.Ok? && Disabled(store.fetch.value)
    requires store.disable.Ok? && store.refetch.Ok? && store.update.None?
    ensures var refusal := Refused(SendError(400, DisabledMessage(pre.triggerName), Undefined));
            var written := UpdateFlowAsWritten(pre, params, Ok(()), bucketCheck, store);
            var intended := UpdateFlow(pre, params, Ok(()), bucketCheck, store);
            && written.reply == refusal && intended.reply == refusal
            && intended.calls == [GetDoc(Str(pre.triggerId))]
            && written.calls == [GetDoc(Str(pre.triggerId)), DisableDoc(pre.triggerId, Undefined, "updating"),
                                 GetDoc(store.disable.value), UpdateDoc(pre.triggerId, Obj(store.refetch.value), Undefined)]
  {
  }

  /** An accepted update stores the previous stored parameters overridden by those named in
      the request, after taking the trigger out of service under its id. */
  lemma UpdateFlowAccepted(pre: Prelude, params: map<string, Value>, auth: Result<(), Response>, bucketCheck: Option<S3Error>, store: StoreAnswers)
    requires UpdateFlow(pre, params, auth, bucketCheck, store).reply.Answered?
    ensures var f := UpdateFlow(pre, params, auth, bucketCheck, store);
            && auth.Ok? && store.fetch.Ok? && !Disabled(store.fetch.value)
            && var valid := Validated(params, Pick(store.fetch.value, DB_PARAMETERS), None, bucketCheck);
            && valid.Ok?
            && f.calls == [GetDoc(Str(pre.triggerId)), DisableDoc(pre.triggerId, Obj(store.fetch.value), "updating"),
                           GetDoc(store.disable.value), UpdateDoc(pre.triggerId, Obj(store.refetch.value), Obj(valid.value))]
  {
  }

  /** The `delete` chain: authenticate (a trigger already gone from the platform is fine),
      read the document, take it out of service, delete it. */
  function DeleteFlow(pre: Prelude, auth: Result<(), Response>, store: StoreAnswers): (f: FlowResult)
    ensures auth.Err? ==> f == FlowResult(Refused(auth.error), [])
    ensures f.reply.Answered? ==>
              && store.fetch.Ok? && store.disable.Ok?
              && f.calls == [GetDoc(Str(pre.triggerId)), DisableDoc(pre.triggerId, Obj(store.fetch.value), "deleting"), DeleteDoc(store.disable.value)]
    ensures KeyedBy(f.calls, pre.triggerId)
  {
    if auth.Err? then FlowResult(Refused(auth.error), [])
    else
      var calls := [GetDoc(Str(pre.triggerId))];
      match store.fetch
      case Err(e) => FlowResult(Failed(e), calls)
      case Ok(trigger) =>
        var calls' := calls + [DisableDoc(pre.triggerId, Obj(trigger), "deleting")];
        match store.disable
        case Err(e) => FlowResult(Failed(e), calls')
        case Ok(id) =>
          var calls'' := calls' + [DeleteDoc(id)];
          match store.delete
          case Some(e) => FlowResult(Failed(e), calls'')
          case None => FlowResult(Answered(SendResponse(None, None)), calls'')
  }

  /** `main(params)`: the platform's answer to the trigger lookup is `lookup`, the bucket
      check's is `bucketCheck`, the store's are `store`, and `now` is the time. */
  function Main(params: map<string, Value>, parse: string -> Option<Value>,
                lookup: (OwConfig, string) -> Option<LookupError>, bucketCheck: Option<S3Error>,
                store: StoreAnswers, now: int): (f: FlowResult)
    ensures !Truthy(Get(params, "triggerName")) ==> f == FlowResult(Answered(SendError(400, NO_TRIGGER_NAME, Undefined)), [])
    ensures f.calls != [] ==> Get(params, "triggerName").Str? && KeyedBy(f.calls, TriggerId(ParseQName(Get(params, "triggerName").s)))
  {
    match Prepare(params, parse)
    case Err(reply) => FlowResult(reply, [])
    case Ok(pre) =>
      var auth := VerifyTriggerAuth(pre.triggerData, pre.lifecycle == Delete, lookup);
      match pre.lifecycle
      case Create => CreateFlow(pre, params, auth, bucketCheck, store, now)
      case Read => ReadFlow(pre, auth, store)
      case Update => UpdateFlow(pre, params, auth, bucketCheck, store)
      case Delete => DeleteFlow(pre, auth, store)
  }

  /** `main(params)` exactly as written: the `post` and `put` chains go on after a refusal. */
  function MainAsWritten(params: map<string, Value>, parse: string -> Option<Value>,
                         lookup: (OwConfig, string) -> Option<LookupError>, bucketCheck: Option<S3Error>,
                         store: StoreAnswers, now: int): (f: FlowResult)
    ensures !Truthy(Get(params, "triggerName")) ==> f == FlowResult(Answered(SendError(400, NO_TRIGGER_NAME, Undefined)), [])
    ensures f.calls != [] ==> Get(params, "triggerName").Str? && KeyedBy(f.calls, TriggerId(ParseQName(Get(params, "triggerName").s)))
  {
    match Prepare(params, parse)
    case Err(reply) => FlowResult(reply, [])
    case Ok(pre) =>
      var auth := VerifyTriggerAuth(pre.triggerData, pre.lifecycle == Delete, lookup);
      match pre.lifecycle
      case Create => CreateFlowAsWritten(pre, params, auth, bucketCheck, store, now)
      case Read => ReadFlow(pre, auth, store)
      case Update => UpdateFlowAsWritten(pre, params, auth, bucketCheck, store)
      case Delete => DeleteFlow(pre, auth, store)
  }

  /** The `post` chain settles as intended; it differs only in the calls made after a refusal. */
  lemma CreateFlowsAgree(pre: Prelude, params: map<string, Value>, auth: Result<(), Response>,
                         bucketCheck: Option<S3Error>, store: StoreAnswers, now: int)
    ensures var written := CreateFlowAsWritten(pre, params, auth, bucketCheck, store, now);
            var intended := CreateFlow(pre, params, auth, bucketCheck, store, now);
            && written.reply == intended.reply
            && (!intended.reply.Refused? ==> written.calls == intended.calls)
  {
    var written := CreateFlowAsWritten(pre, params, auth, bucketCheck, store, now);
    var intended := CreateFlow(pre, params, auth, bucketCheck, store, now);
    if auth.Err? {
      assert written.reply == Refused(SendError(400, VALIDATION_FAILED, Undefined));
    } else if Validated(params, map[], Some(FEED_PARAMETERS), bucketCheck).Err? {
      var m := Validated(params, map[], Some(FEED_PARAMETERS), bucketCheck).error;
      assert written.reply == Refused(SendError(400, VALIDATION_FAILED, Str(m)));
    }
  }

  /** The `put` chain settles as intended; it differs only in the calls made after a refusal. */
  lemma UpdateFlowsAgree(pre: Prelude, params: map<string, Value>, auth: Result<(), Response>,
                         bucketCheck: Option<S3Error>, store: StoreAnswers)
    ensures var written := UpdateFlowAsWritten(pre, params, auth, bucketCheck, store);
            var intended := UpdateFlow(pre, params, auth, bucketCheck, store);
            && written.reply == intended.reply
            && (!intended.reply.Refused? ==> written.calls == intended.calls)
  {

  }

  /** The action as written answers every request as intended; the two differ only in the store
      calls made after a request was refused. */
  lemma MainAsWrittenAgrees(params: map<string, Value>, parse: string -> Option<Value>,
                            lookup: (OwConfig, string) -> Option<LookupError>, bucketCheck: Option<S3Error>,
                            store: StoreAnswers, now: int)
    ensures var written := MainAsWritten(params, parse, lookup, bucketCheck, store, now);
            var intended := Main(params, parse, lookup, bucketCheck, store, now);
            && written.reply == intended.reply
            && (!intended.reply.Refused? ==> written == intended)
  {
    match Prepare(params, parse)
    case Err(_) =>
    case Ok(pre) =>
      var auth := VerifyTriggerAuth(pre.triggerData, pre.lifecycle == Delete, lookup);
      CreateFlowsAgree(pre, params, auth, bucketCheck, store, now);
      UpdateFlowsAgree(pre, params, auth, bucketCheck, store);
  }

  /** A request with a method other than the four is answered 400 without touching the store. */
  lemma MainRejectsUnsupportedMethod(params: map<string, Value>, parse: string -> Option<Value>,
                                     lookup: (OwConfig, string) -> Option<LookupError>, bucketCheck: Option<S3Error>,
                                     store: StoreAnswers, now: int)
    requires Get(params, "triggerName").Str? && Get(params, "triggerName").s != ""
    requires LifecycleOf(Get(params, "__ow_method")).None?
    ensures Main(params, parse, lookup, bucketCheck, store, now) == FlowResult(Answered(SendError(400, UNSUPPORTED_LIFECYCLE, Undefined)), [])
  {
  }

  /** A delete of a trigger the platform no longer knows (404) still removes its document. */
  lemma DeleteOfVanishedTrigger(pre: Prelude, store: StoreAnswers, message: Value)
    requires store.fetch.Ok? && store.disable.Ok? && store.delete.None?
    ensures var f := DeleteFlow(pre, AuthDecision(Some(LookupError(Some(404), message)), true), store);
            f.reply == Answered(SendResponse(None, None)) && f.calls[|f.calls| - 1] == DeleteDoc(store.disable.value)
  {
  }
}
