/** The feed action's platform configuration (action/lib/config.js): which credentials the
    platform client uses for a trigger, and the IAM data and COS API key the action adds to
    the parameters it forwards.

    The IAM token manager and `JSON.stringify` are not modelled: the token manager is the pair
    of settings it is built from, and `stringify` is a parameter. */
module Config {

  import opened Wrappers
  import opened Strings
  import opened Json

  /** The environment the action runs in; `None` stands for an unset variable. */
  datatype ActionEnv = ActionEnv(
    namespace: Option<string>,            // __OW_NAMESPACE
    iamNamespaceApiKey: Option<string>,   // __OW_IAM_NAMESPACE_API_KEY
    iamApiUrl: Option<string>,            // __OW_IAM_API_URL
    namespaceCrn: Option<string>)         // __OW_NAMESPACE_CRN

  /** An environment variable read into a JavaScript value. */
  function EnvValue(v: Option<string>): (r: Value)
    ensures v.Some? ==> r == Str(v.value)
    ensures v.None? ==> r == Undefined
  {
    if v.Some? then Str(v.value) else Undefined
  }

  /** The trigger as the feed action describes it to the platform. */
  datatype TriggerData = TriggerData(apikey: Value, name: string, namespace: string, additionalData: Value)

  /** How the platform client authenticates: with an IAM token manager, or with an API key. */
  datatype Auth = TokenManager(iamApikey: Value, iamUrl: Value) | ApiKey(apiKey: Value)

  datatype OwConfig = OwConfig(ignoreCerts: bool, namespace: string, auth: Auth)

  /** `additionalData && additionalData.iamApikey`: the trigger carries an IAM key. */
  predicate UsesIam(additionalData: Value)
  {
    Truthy(additionalData) && Truthy(Prop(additionalData, "iamApikey"))
  }

  /** `getOpenWhiskConfig(triggerData)`: a trigger with an IAM key authenticates with a token
      manager built from that key and the IAM URL, any other with its API key; certificates
      are never checked and the namespace is the trigger's. */
  function GetOpenWhiskConfig(t: TriggerData): (c: OwConfig)
    ensures c.ignoreCerts && c.namespace == t.namespace
    ensures c.auth.TokenManager? <==> UsesIam(t.additionalData)
    ensures c.auth.TokenManager? ==> Truthy(c.auth.iamApikey) && c.auth.iamApikey == Prop(t.additionalData, "iamApikey")
    ensures c.auth.ApiKey? ==> c.auth.apiKey == t.apikey
  {
    if UsesIam(t.additionalData) then
      OwConfig(true, t.namespace, TokenManager(Prop(t.additionalData, "iamApikey"), Prop(t.additionalData, "iamUrl")))
    else
      OwConfig(true, t.namespace, ApiKey(t.apikey))
  }

  /** The `additionalData` object `addAdditionalData` builds: the three IAM settings when the
      namespace's IAM key is set, nothing otherwise. */
  function IamData(env: ActionEnv): (v: Value)
    ensures v.Obj?
    ensures Present(env.iamNamespaceApiKey) ==>
              v.props == map["iamApikey" := Str(env.iamNamespaceApiKey.value),
                             "iamUrl" := EnvValue(env.iamApiUrl),
                             "namespaceCRN" := EnvValue(env.namespaceCrn)]
    ensures !Present(env.iamNamespaceApiKey) ==> v.props == map[]
  {
    if Present(env.iamNamespaceApiKey) then
      Obj(map["iamApikey" := Str(env.iamNamespaceApiKey.value),
              "iamUrl" := EnvValue(env.iamApiUrl),
              "namespaceCRN" := EnvValue(env.namespaceCrn)])
    else Obj(map[])
  }

  /** A trigger whose additional data is the object `addAdditionalData` builds uses token
      authentication exactly when the action ran with a namespace IAM key, and then with
      that key. */
  lemma IamDataSelectsTokenManager(env: ActionEnv, apikey: Value, name: string, namespace: string)
    ensures var c := GetOpenWhiskConfig(TriggerData(apikey, name, namespace, IamData(env)));
            && (c.auth.TokenManager? <==> Present(env.iamNamespaceApiKey))
            && (c.auth.TokenManager? ==> c.auth == TokenManager(Str(env.iamNamespaceApiKey.value), EnvValue(env.iamApiUrl)))
            && (c.auth.ApiKey? ==> c.auth.apiKey == apikey)
  {
    var d := IamData(env);
    if Present(env.iamNamespaceApiKey) {
      assert Prop(d, "iamApikey") == Str(env.iamNamespaceApiKey.value);
      assert Prop(d, "iamUrl") == EnvValue(env.iamApiUrl);
    } else {
      assert Prop(d, "iamApikey") == Undefined;
    }
  }

  /** The API key of the bound Cloud Object Storage service,
      `params.__bx_creds['cloud-object-storage'].apikey`, when such credentials are bound. */
  function CosApikey(params: map<string, Value>): (k: Option<Value>)
    ensures var creds := Get(params, "__bx_creds");
            && (k.Some? <==> Truthy(creds) && Truthy(Prop(creds, "cloud-object-storage")))
            && (k.Some? ==> k.value == Prop(Prop(creds, "cloud-object-storage"), "apikey"))
  {
    var creds := Get(params, "__bx_creds");
    if Truthy(creds) && Truthy(Prop(creds, "cloud-object-storage")) then
      Some(Prop(Prop(creds, "cloud-object-storage"), "apikey"))
    else None
  }

  /** The parameters after `addAdditionalData`. */
  function WithAdditionalData(params: map<string, Value>, env: ActionEnv, stringify: Value -> string): (r: map<string, Value>)
    ensures r.Keys == params.Keys + {"additionalData"} + (if !Truthy(Get(params, "apikey")) && CosApikey(params).Some? then {"apikey"} else {})
    ensures r["additionalData"] == Str(stringify(IamData(env)))
    ensures Truthy(Get(params, "apikey")) || CosApikey(params).None? ==> Get(r, "apikey") == Get(params, "apikey")
    ensures !Truthy(Get(params, "apikey")) && CosApikey(params).Some? ==> r["apikey"] == CosApikey(params).value
    ensures forall k :: k in params && k != "apikey" && k != "additionalData" ==> r[k] == params[k]
  {
    var withKey := if !Truthy(Get(params, "apikey")) && CosApikey(params).Some? then params["apikey" := CosApikey(params).value] else params;
    withKey["additionalData" := Str(stringify(IamData(env)))]
  }

  /** Adding the additional data a second time changes nothing: the key it copied in is kept
      and the same serialised object is written again. */
  lemma WithAdditionalDataIdempotent(params: map<string, Value>, env: ActionEnv, stringify: Value -> string)
    ensures WithAdditionalData(WithAdditionalData(params, env, stringify), env, stringify) == WithAdditionalData(params, env, stringify)
  {
    var once := WithAdditionalData(params, env, stringify);
    assert Get(once, "__bx_creds") == Get(params, "__bx_creds");
    assert CosApikey(once) == CosApikey(params);
  }

  /** `addAdditionalData(params)`, which updates `params` in place. */
  method AddAdditionalData(params: JsObject, env: ActionEnv, stringify: Value -> string)
    modifies params
    ensures params.props == WithAdditionalData(old(params.props), env, stringify)
  {
    var additionalData: map<string, Value> := map[];
    var creds := Get(params.props, "__bx_creds");
    if Truthy(creds) && Truthy(Prop(creds, "cloud-object-storage")) {
      var cosCreds := Prop(creds, "cloud-object-storage");
      if !Truthy(Get(params.props, "apikey")) {
        params.props := params.props["apikey" := Prop(cosCreds, "apikey")];
      }
    }
    if Present(env.iamNamespaceApiKey) {
      additionalData := additionalData["iamApikey" := Str(env.iamNamespaceApiKey.value)];
      additionalData := additionalData["iamUrl" := EnvValue(env.iamApiUrl)];
      additionalData := additionalData["namespaceCRN" := EnvValue(env.namespaceCrn)];
    }
    params.props := params.props["additionalData" := Str(stringify(Obj(additionalData)))];
  }
}
