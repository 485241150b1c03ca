/**
 * The `instance config` commands of cmd/instance_config.go: the required
 * `--id` check of `list`, `get` and `set`, the lookup of one setting in
 * `get`, and the coercion of the argument of `set` into a typed value.
 *
 * The commands' dealings with the outside world are parameters: what
 * `getAPIKey` returned, what `GetRabbitMQConfig` returned, what
 * `UpdateRabbitMQConfig` returned, and whether `strconv.ParseFloat` accepts
 * a string. Each command's outcome records the calls it made, in order.
 */
module InstanceConfig {
  import opened Wrappers
  import opened Strconv

  /** The typed value `set` sends for a setting; a float is kept as the literal `ParseFloat` accepted. */
  datatype Value = Bool(b: bool) | Null | Int(i: int) | Float(literal: string) | Str(s: string)

  /** The calls a command makes outside this model. */
  datatype Call =
    | ReadApiKey
    | GetConfig(apiKey: string, id: string)
    | UpdateConfig(apiKey: string, id: string, payload: map<string, Value>)

  /** The errors a command returns. `Api` carries the client's error, returned unwrapped. */
  datatype Failure =
    | InstanceIdRequired
    | ApiKeyUnavailable(cause: string)
    | Api(cause: string)
    | SettingNotFound(name: string)

  /**
   * The text of each error, as the command returns it. A wrapped cause is
   * kept whole at the end of the text, the missing setting's name is quoted
   * whole, and the client's own error is returned unchanged.
   */
  function Message(f: Failure): (m: string)
    ensures f.ApiKeyUnavailable? ==> |f.cause| < |m| && m[|m| - |f.cause|..] == f.cause
    ensures f.Api? ==> m == f.cause
    ensures f.SettingNotFound? ==> 9 + |f.name| < |m| && m[9..9 + |f.name|] == f.name
  {
    match f
    case InstanceIdRequired => "instance ID is required. Use --id flag"
    case ApiKeyUnavailable(cause) => "failed to get API key: " + cause
    case Api(cause) => cause
    case SettingNotFound(name) => "setting '" + name + "' not found"
  }

  /** The calls a command made and what it returned: the value it prints, or its error. */
  datatype Outcome<T> = Outcome(calls: seq<Call>, result: Result<T, Failure>)

  /**
   * `strings.ToLower` as far as the coercion can tell: ASCII letters are
   * lowered and everything else is kept. Go also lowers other letters, but
   * none of them lowers to a letter of "true", "false" or "null", so the
   * three comparisons of the chain come out the same.
   */
  function ToLower(s: string): (r: string)
    ensures |r| == |s|
    ensures forall i :: 0 <= i < |s| && 'A' <= s[i] <= 'Z' ==> r[i] as int == s[i] as int + 32
    ensures forall i :: 0 <= i < |s| && !('A' <= s[i] <= 'Z') ==> r[i] == s[i]
  {
    if s == [] then []
    else [if 'A' <= s[0] <= 'Z' then (s[0] as int + 32) as char else s[0]] + ToLower(s[1..])
  }

  /** The inputs the chain recognises before trying numbers, compared case-insensitively. */
  predicate IsKeyword(raw: string)
  {
    ToLower(raw) == "true" || ToLower(raw) == "false" || ToLower(raw) == "null"
  }

  /**
   * The coercion of `set`: `true`, `false` and `null` in any case, then an
   * integer `Atoi` accepts, then a float `ParseFloat` accepts, and otherwise
   * the string itself.
   */
  function Coerce(raw: string, parsesAsFloat: string -> bool): (v: Value)
    ensures v == Bool(true) <==> ToLower(raw) == "true"
    ensures v == Bool(false) <==> ToLower(raw) == "false"
    ensures v == Null <==> ToLower(raw) == "null"
    ensures v.Int? <==> Atoi(raw).Some?
    ensures v.Int? ==> Atoi(raw) == Some(v.i)
    ensures v.Float? <==> !IsKeyword(raw) && Atoi(raw).None? && parsesAsFloat(raw)
    ensures v.Str? <==> !IsKeyword(raw) && Atoi(raw).None? && !parsesAsFloat(raw)
    ensures v.Float? ==> v.literal == raw
    ensures v.Str? ==> v.s == raw
  {
    KeywordsAreNotIntegers(raw);
    var lower := ToLower(raw);
    if lower == "true" then Bool(true)
    else if lower == "false" then Bool(false)
    else if lower == "null" then Null
    else match Atoi(raw)
      case Some(n) => Int(n)
      case None => if parsesAsFloat(raw) then Float(raw) else Str(raw)
  }

  /** A keyword starts with a letter, which `Atoi` never accepts: keywords are checked first, but they would not be integers anyway. */
  lemma KeywordsAreNotIntegers(raw: string)
    ensures IsKeyword(raw) ==> Atoi(raw).None?
  {
    if IsKeyword(raw) {
      var lower := ToLower(raw);
      assert |raw| > 0 && 'a' <= lower[0] <= 'z';
    }
  }

  /** The decimal form of every 64-bit integer is sent as that integer, never as a float, whatever `ParseFloat` says. */
  lemma CoerceIntegers(n: int, parsesAsFloat: string -> bool)
    requires InInt64(n)
    ensures Coerce(Itoa(n), parsesAsFloat) == Int(n)
  {
    AtoiItoa(n);
  }

  /** `instance config list`: every setting of the instance. */
  function ConfigList<J>(id: string, apiKey: Result<string, string>, fetched: Result<map<string, J>, string>)
    : (o: Outcome<map<string, J>>)
    ensures id == "" <==> o.result == Failure(InstanceIdRequired)
    ensures id == "" ==> o.calls == []
    ensures id != "" ==> |o.calls| > 0 && o.calls[0] == ReadApiKey
    ensures id != "" && apiKey.Success? ==> o.calls == [ReadApiKey, GetConfig(apiKey.value, id)]
    ensures id != "" && apiKey.Failure? ==> o == Outcome([ReadApiKey], Failure(ApiKeyUnavailable(apiKey.error)))
    ensures id != "" && apiKey.Success? && fetched.Failure? ==> o.result == Failure(Api(fetched.error))
    ensures o.result.Success? <==> id != "" && apiKey.Success? && fetched.Success?
    ensures o.result.Success? ==> o.result.value == fetched.value
  {
    if id == "" then Outcome([], Failure(InstanceIdRequired))
    else match apiKey
      case Failure(cause) => Outcome([ReadApiKey], Failure(ApiKeyUnavailable(cause)))
      case Success(key) =>
        var calls := [ReadApiKey, GetConfig(key, id)];
        match fetched
        case Failure(cause) => Outcome(calls, Failure(Api(cause)))
        case Success(config) => Outcome(calls, Success(config))
  }

  /**
   * `instance config get`: the one setting `name`, as a map with that single
   * key, or "setting not found" when the instance has no such setting.
   */
  function ConfigGet<J>(id: string, name: string, apiKey: Result<string, string>,
                        fetched: Result<map<string, J>, string>): (o: Outcome<map<string, J>>)
    ensures id == "" <==> o.result == Failure(InstanceIdRequired)
    ensures id == "" ==> o.calls == []
    ensures id != "" && apiKey.Failure? ==> o == Outcome([ReadApiKey], Failure(ApiKeyUnavailable(apiKey.error)))
    ensures id != "" && apiKey.Success? ==> o.calls == [ReadApiKey, GetConfig(apiKey.value, id)]
    ensures id != "" && apiKey.Success? && fetched.Failure? ==> o.result == Failure(Api(fetched.error))
    ensures o.result.Success? <==> id != "" && apiKey.Success? && fetched.Success? && name in fetched.value
    ensures o.result.Success? ==> o.result.value.Keys == {name} && o.result.value[name] == fetched.value[name]
    ensures id != "" && apiKey.Success? && fetched.Success? && name !in fetched.value ==>
              o.result == Failure(SettingNotFound(name))
  {
    var listed := ConfigList(id, apiKey, fetched);
    match listed.result
    case Failure(f) => Outcome(listed.calls, Failure(f))
    case Success(config) =>
      if name in config then Outcome(listed.calls, Success(map[name := config[name]]))
      else Outcome(listed.calls, Failure(SettingNotFound(name)))
  }

  /** What `get` prints is the configuration restricted to the requested key. */
  lemma GetIsRestriction<J>(id: string, name: string, key: string, config: map<string, J>)
    requires id != ""
    ensures var o := ConfigGet(id, name, Success(key), Success(config));
      o.result.Success? ==> o.result.value == (map k | k in config && k == name :: config[k])
  {
  }

  /**
   * `instance config set`: the update sends exactly one setting, `name`,
   * bound to the coerced value, once the id and the API key are there.
   */
  function ConfigSet(id: string, name: string, raw: string, apiKey: Result<string, string>,
                     parsesAsFloat: string -> bool, updated: Option<string>): (o: Outcome<()>)
    ensures id == "" <==> o.result == Failure(InstanceIdRequired)
    ensures id == "" ==> o.calls == []
    ensures id != "" && apiKey.Failure? ==> o == Outcome([ReadApiKey], Failure(ApiKeyUnavailable(apiKey.error)))
    ensures id != "" && apiKey.Success? ==>
              |o.calls| == 2 && o.calls[0] == ReadApiKey && o.calls[1].UpdateConfig?
              && o.calls[1].apiKey == apiKey.value && o.calls[1].id == id
              && o.calls[1].payload.Keys == {name}
              && o.calls[1].payload[name] == Coerce(raw, parsesAsFloat)
    ensures o.result.Success? <==> id != "" && apiKey.Success? && updated.None?
    ensures id != "" && apiKey.Success? && updated.Some? ==> o.result == Failure(Api(updated.value))
  {
    if id == "" then Outcome([], Failure(InstanceIdRequired))
    else match apiKey
      case Failure(cause) => Outcome([ReadApiKey], Failure(ApiKeyUnavailable(cause)))
      case Success(key) =>
        var calls := [ReadApiKey, UpdateConfig(key, id, map[name := Coerce(raw, parsesAsFloat)])];
        match updated
        case Some(cause) => Outcome(calls, Failure(Api(cause)))
        case None => Outcome(calls, Success(()))
  }
}
