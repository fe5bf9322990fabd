/** The feed action's shared helpers (action/lib/common.js): response records, the
    trigger-authentication decision, the forwarded web parameters and the reading of
    `additionalData`. `parseQName` is the one of module QName.

    The platform client and `JSON.parse` are not modelled: the outcome of the trigger lookup
    and `parse` are parameters. */
module Common {

  import opened Wrappers
  import opened Strings
  import opened Json
  import opened QName
  import opened Config

  /** The record a web action returns. */
  datatype Response = Response(statusCode: int, headers: map<string, string>, body: Value)

  const JSON_HEADERS: map<string, string> := map["Content-Type" := "application/json"]
  const SUCCESS_BODY: Value := Obj(map["status" := Str("success")])
  const AUTH_FAILED: string := "Trigger authentication request failed."

  /** `sendResponse(statusCode, body)`; an argument left `undefined` takes its default,
      200 and `{status: 'success'}`. */
  function SendResponse(statusCode: Option<int>, body: Option<Value>): (r: Response)
    ensures r.headers == JSON_HEADERS
    ensures r.statusCode == statusCode.GetOr(200) && r.body == body.GetOr(SUCCESS_BODY)
  {
    Response(statusCode.GetOr(200), JSON_HEADERS, body.GetOr(SUCCESS_BODY))
  }

  /** `sendError(statusCode, error, message)`: a JSON body with the error and, only when it is
      truthy, the message. */
  function SendError(statusCode: int, error: string, message: Value): (r: Response)
    ensures r.statusCode == statusCode && r.headers == JSON_HEADERS && r.body.Obj?
    ensures Get(r.body.props, "error") == Str(error)
    ensures "message" in r.body.props <==> Truthy(message)
    ensures r.body.props.Keys <= {"error", "message"}
    ensures Truthy(message) ==> r.body.props["message"] == message
  {
    var params := map["error" := Str(error)];
    SendResponse(Some(statusCode), Some(Obj(if Truthy(message) then params["message" := message] else params)))
  }

  /** An error body is never the default success body, so a caller can always tell the two
      apart, whatever the status code. */
  lemma ErrorIsNotSuccess(statusCode: int, error: string, message: Value, code: Option<int>)
    ensures SendError(statusCode, error, message).body != SendResponse(code, None).body
  {
    assert "error" in SendError(statusCode, error, message).body.props;
  }

  /** The rejection of the platform's trigger lookup: `statusCode` is `None` when the error
      carries no truthy status code. */
  datatype LookupError = LookupError(statusCode: Option<int>, message: Value)

  predicate HasStatus(e: LookupError)
  {
    e.statusCode.Some? && e.statusCode.value != 0
  }

  /** The `verifyTriggerAuth` decision once the lookup has answered (`None`: the trigger was
      found). An error with a status code is passed on with that code, except that a missing
      trigger is acceptable when it is being deleted; an error without one becomes a 400
      carrying its message. */
  function AuthDecision(lookup: Option<LookupError>, isDelete: bool): (r: Result<(), Response>)
    ensures r.Ok? <==> lookup.None? || (isDelete && lookup.value.statusCode == Some(404))
    ensures r.Err? && HasStatus(lookup.value) ==> r.error == SendError(lookup.value.statusCode.value, AUTH_FAILED, Undefined)
    ensures r.Err? && !HasStatus(lookup.value) ==> r.error == SendError(400, AUTH_FAILED, lookup.value.message)
  {
    match lookup
    case None => Ok(())
    case Some(err) =>
      if HasStatus(err) then
        if !(isDelete && err.statusCode.value == 404) then Err(SendError(err.statusCode.value, AUTH_FAILED, Undefined))
        else Ok(())
      else Err(SendError(400, AUTH_FAILED, err.message))
  }

  /** `verifyTriggerAuth(triggerData, isDelete)`: the trigger is looked up by name with the
      client configuration the trigger selects; `lookup` is the platform's answer. */
  function VerifyTriggerAuth(t: TriggerData, isDelete: bool, lookup: (OwConfig, string) -> Option<LookupError>): (r: Result<(), Response>)
    ensures var answer := lookup(GetOpenWhiskConfig(t), t.name);
            && (r.Ok? <==> answer.None? || (isDelete && answer.value.statusCode == Some(404)))
            && (r.Err? ==> r.error.statusCode == (if HasStatus(answer.value) then answer.value.statusCode.value else 400))
  {
    AuthDecision(lookup(GetOpenWhiskConfig(t), t.name), isDelete)
  }

  /** A failed authentication is reported with the platform's own status code, or 400, and
      never as a success. */
  lemma AuthRejectionCode(lookup: Option<LookupError>, isDelete: bool)
    requires AuthDecision(lookup, isDelete).Err?
    ensures var r := AuthDecision(lookup, isDelete).error;
            && lookup.Some?
            && r.statusCode == (if HasStatus(lookup.value) then lookup.value.statusCode.value else 400)
            && r.statusCode != 0 && !(isDelete && r.statusCode == 404)
            && Get(r.body.props, "error") == Str(AUTH_FAILED)
  {
  }

  /** `constructObject(data)`: a string is parsed (a parse failure gives `undefined`), an
      object or array is returned as it is, and anything else gives `undefined`. */
  function ConstructObject(data: Value, parse: string -> Option<Value>): (r: Value)
    ensures !Truthy(data) ==> r == Undefined
    ensures data.Obj? || data.Arr? ==> r == data
    ensures data.Str? && data.s != "" ==> r == parse(data.s).GetOr(Undefined)
    ensures data.Num? || data.Frac? || data.Bool? ==> r == Undefined
  {
    if !Truthy(data) then Undefined
    else if data.Str? then parse(data.s).GetOr(Undefined)
    else if data.Obj? || data.Arr? then data
    else Undefined
  }

  /** Reading back the additional data the action stored, with a `parse` that inverts
      `stringify`, gives the IAM object itself; the trigger then authenticates with a token
      exactly when the IAM key was set. */
  lemma StoredIamDataReadsBack(env: ActionEnv, stringify: Value -> string, parse: string -> Option<Value>, t: TriggerData)
    requires stringify(IamData(env)) != "" && parse(stringify(IamData(env))) == Some(IamData(env))
    requires t.additionalData == ConstructObject(Str(stringify(IamData(env))), parse)
    ensures t.additionalData == IamData(env)
    ensures GetOpenWhiskConfig(t).auth.TokenManager? <==> Present(env.iamNamespaceApiKey)
  {
    IamDataSelectsTokenManager(env, t.apikey, t.name, t.namespace);
  }

  /** `'/' + namespace + '/' + parseQName(triggerName).name` as `createWebParams` builds it:
      `undefined` and other falsy values print as text; a truthy value that is not a string
      has no `charAt`, so `parseQName` throws (`None`). */
  function WebTriggerName(triggerName: Value, env: ActionEnv): (r: Option<string>)
    ensures triggerName.Str? ==> r == Some(TriggerId(QualifiedName(EnvText(env.namespace), ParseQName(triggerName.s).name)))
    ensures r.None? <==> Truthy(triggerName) && !triggerName.Str?
  {
    var name := if triggerName.Str? then Some(ParseQName(triggerName.s).name)
                else if !Truthy(triggerName) then Some(FalsyText(triggerName))
                else None;
    if name.None? then None
    else Some("/" + EnvText(env.namespace) + "/" + name.value)
  }

  /** An environment variable as string concatenation prints it. */
  function EnvText(v: Option<string>): (s: string)
    ensures v.Some? ==> s == v.value
    ensures v.None? ==> s == "undefined"
  {
    if v.Some? then v.value else "undefined"
  }

  /** The web parameters `createWebParams(rawParams)` returns, or `None` when it throws. */
  function WebParams(raw: map<string, Value>, env: ActionEnv, stringify: Value -> string): (r: Option<map<string, Value>>)
    ensures r.None? <==> WebTriggerName(Get(raw, "triggerName"), env).None?
    ensures r.Some? ==>
              && "lifecycleEvent" !in r.value && "apihost" !in r.value
              && r.value.Keys == raw.Keys - {"lifecycleEvent", "apihost"} + {"triggerName", "additionalData"}
                                 + (if !Truthy(Get(raw, "apikey")) && CosApikey(raw).Some? then {"apikey"} else {})
              && r.value["triggerName"] == Str(WebTriggerName(Get(raw, "triggerName"), env).value)
              && r.value["additionalData"] == Str(stringify(IamData(env)))
              && (forall k :: k in raw && k !in {"lifecycleEvent", "apihost", "triggerName", "apikey", "additionalData"} ==> r.value[k] == raw[k])
              && (Truthy(Get(raw, "apikey")) ==> r.value["apikey"] == raw["apikey"])
              && (!Truthy(Get(raw, "apikey")) && CosApikey(raw).Some? ==> r.value["apikey"] == CosApikey(raw).value)
  {
    match WebTriggerName(Get(raw, "triggerName"), env)
    case None => None
    case Some(triggerName) =>
      Some(WithAdditionalData(WebCopy(raw, triggerName), env, stringify))
  }

  /** The copy `createWebParams` makes before adding the additional data: the two
      platform keys are gone and the trigger name is replaced; the key and the credentials
      `addAdditionalData` looks at are those of `raw`. */
  function WebCopy(raw: map<string, Value>, triggerName: string): (copy: map<string, Value>)
    ensures copy.Keys == raw.Keys - {"lifecycleEvent", "apihost"} + {"triggerName"}
    ensures copy["triggerName"] == Str(triggerName)
    ensures forall k :: k in raw && k !in {"lifecycleEvent", "apihost", "triggerName"} ==> copy[k] == raw[k]
    ensures Get(copy, "apikey") == Get(raw, "apikey") && CosApikey(copy) == CosApikey(raw)
  {
    var copy := (raw - {"lifecycleEvent", "apihost"})["triggerName" := Str(triggerName)];
    assert Get(copy, "__bx_creds") == Get(raw, "__bx_creds");
    copy
  }

  /** The trigger name in the forwarded parameters, parsed again as the action's `main` does,
      names the action's namespace and the name that was given, whether or not it was
      qualified. */
  lemma WebTriggerNameParses(triggerName: string, env: ActionEnv)
    requires env.namespace.Some? && Delimiter !in env.namespace.value
    ensures var q := ParseQName(WebTriggerName(Str(triggerName), env).value);
            q == QualifiedName(env.namespace.value, ParseQName(triggerName).name)
  {
    TriggerIdParses(QualifiedName(env.namespace.value, ParseQName(triggerName).name));
  }

  /** `createWebParams(rawParams)`: a copy of the parameters, so that `raw` itself is left
      as it was. */
  method CreateWebParams(raw: JsObject, env: ActionEnv, stringify: Value -> string) returns (r: Option<JsObject>)
    ensures r.None? <==> WebParams(raw.props, env, stringify).None?
    ensures r.Some? ==> fresh(r.value) && r.value.props == WebParams(raw.props, env, stringify).value
  {
    var triggerName := WebTriggerName(Get(raw.props, "triggerName"), env);
    if triggerName.None? {
      return None;
    }
    var webparams := new JsObject(raw.props);
    webparams.props := webparams.props - {"lifecycleEvent"};
    webparams.props := webparams.props - {"apihost"};
    webparams.props := webparams.props["triggerName" := Str(triggerName.value)];
    assert webparams.props == (raw.props - {"lifecycleEvent", "apihost"})["triggerName" := Str(triggerName.value)];
    AddAdditionalData(webparams, env, stringify);
    r := Some(webparams);
  }
}
