/**
 * The `cumulus/settings` filter (cumulus.php:66-101), its database defaults
 * (cumulus.php:103-114) and the public getters built on it (api.php:26-56).
 *
 * A setting comes from, in order: the value passed in, the database option,
 * a PHP constant, an environment variable. PHP constants and `$_ENV` are
 * parameters: `constants` holds the constants that are defined, `env` the
 * environment.
 */
module Settings {
  import opened PhpValues

  /** The four settings the fallback chain manages. */
  datatype Key = CloudName | ApiKey | ApiSecret | Folder

  /** The array key of a managed setting. */
  function KeyName(k: Key): string {
    match k
    case CloudName => "cloud_name"
    case ApiKey => "api_key"
    case ApiSecret => "api_secret"
    case Folder => "folder"
  }

  /** The constant and environment variable a managed setting falls back to. */
  function VarName(k: Key): string {
    match k
    case CloudName => "CUMULUS_CLOUD_NAME"
    case ApiKey => "CUMULUS_API_KEY"
    case ApiSecret => "CUMULUS_API_SECRET"
    case Folder => "CUMULUS_FOLDER"
  }

  /** The managed setting an array key names, if any. */
  function ManagedKey(name: string): (r: Option<Key>)
    ensures r.Some? ==> KeyName(r.value) == name
    ensures forall k :: KeyName(k) == name ==> r == Some(k)
  {
    if name == "cloud_name" then Some(CloudName)
    else if name == "api_key" then Some(ApiKey)
    else if name == "api_secret" then Some(ApiSecret)
    else if name == "folder" then Some(Folder)
    else None
  }

  /** `get_option($name)`: `false` when the option does not exist. */
  function GetOption(options: map<string, Value>, name: string): (v: Value)
    ensures name in options ==> v == options[name]
    ensures name !in options ==> v == Bool(false)
  {
    if name in options then options[name] else Bool(false)
  }

  /** The array the `cumulus/settings/defaults` filter builds from the database. */
  function DefaultsFrom(options: map<string, Value>): (d: map<string, Value>)
    ensures d.Keys == {"cloud_name", "api_key", "api_secret"}
    ensures d["cloud_name"] == GetOption(options, "cumulus_cloud_name")
    ensures d["api_key"] == GetOption(options, "cumulus_api_key")
    ensures d["api_secret"] == GetOption(options, "cumulus_api_secret")
  {
    map["cloud_name" := GetOption(options, "cumulus_cloud_name"),
        "api_key" := GetOption(options, "cumulus_api_key"),
        "api_secret" := GetOption(options, "cumulus_api_secret")]
  }

  /**
   * The database defaults, loaded once per request: the first call reads the
   * options, every later call returns what the first one read.
   */
  class DefaultsCache {
    var cached: Option<map<string, Value>>

    constructor ()
      ensures cached == None
    {
      cached := None;
    }

    method Load(options: map<string, Value>) returns (d: map<string, Value>)
      modifies this
      ensures old(cached).Some? ==> d == old(cached).value
      ensures old(cached).None? ==> d == DefaultsFrom(options)
      ensures cached == Some(d)
    {
      if cached.None? {
        cached := Some(DefaultsFrom(options));
      }
      d := cached.value;
    }
  }

  /** Two loads in one request agree, even if the options changed in between. */
  method LoadTwice(options1: map<string, Value>, options2: map<string, Value>) returns (d1: map<string, Value>, d2: map<string, Value>)
    ensures d1 == d2 == DefaultsFrom(options1)
  {
    var cache := new DefaultsCache();
    d1 := cache.Load(options1);
    d2 := cache.Load(options2);
  }

  /** `wp_parse_args($settings, $defaults)`: the incoming values win key by key. */
  function ParseArgs(incoming: map<string, Value>, defaults: map<string, Value>): (r: map<string, Value>)
    ensures r.Keys == incoming.Keys + defaults.Keys
    ensures forall k :: k in incoming ==> r[k] == incoming[k]
    ensures forall k :: k !in incoming && k in defaults ==> r[k] == defaults[k]
  {
    ArrayMerge(defaults, incoming)
  }

  /** `!empty($_ENV[$name])`, and the value then. */
  function EnvValue(env: map<string, string>, name: string): (r: Option<string>)
    ensures r.Some? <==> name in env && TruthyString(env[name])
    ensures r.Some? ==> r.value == env[name]
  {
    if name in env && TruthyString(env[name]) then Some(env[name]) else None
  }

  /**
   * The precedence the filter gives one setting: a non-empty current value
   * stays; otherwise a defined constant replaces it; a value that is still
   * empty is replaced by a non-empty environment variable.
   */
  function Chosen(current: Value, constant: Option<Value>, envVar: Option<string>): (v: Value)
    ensures Truthy(current) ==> v == current
    ensures !Truthy(current) && constant.Some? && Truthy(constant.value) ==> v == constant.value
    ensures !Truthy(current) && (constant.None? || !Truthy(constant.value)) && envVar.Some? ==> v == Str(envVar.value)
    ensures !Truthy(current) && (constant.None? || !Truthy(constant.value)) && envVar.None? ==>
              v == (if constant.Some? then constant.value else current)
    ensures Truthy(v) ==> Truthy(current) || (constant.Some? && v == constant.value) || (envVar.Some? && v == Str(envVar.value))
  {
    if Truthy(current) then current
    else
      var afterConstant := if constant.Some? then constant.value else current;
      if !Truthy(afterConstant) && envVar.Some? then Str(envVar.value) else afterConstant
  }

  /**
   * The constant the filter copies into a setting, as written: `folder` takes
   * the value of `CUMULUS_API_SECRET` whenever `CUMULUS_FOLDER` is defined
   * (cumulus.php:93-94).
   */
  function ConstantAsWritten(k: Key, constants: map<string, Value>): (c: Option<Value>)
    ensures k != Folder ==> (c.Some? <==> VarName(k) in constants)
    ensures k != Folder && c.Some? ==> c.value == constants[VarName(k)]
    ensures k == Folder ==> (c.Some? <==> "CUMULUS_FOLDER" in constants && "CUMULUS_API_SECRET" in constants)
    ensures k == Folder && c.Some? ==> "CUMULUS_API_SECRET" in constants && c.value == constants["CUMULUS_API_SECRET"]
  {
    if k == Folder then
      if "CUMULUS_FOLDER" in constants && "CUMULUS_API_SECRET" in constants then Some(constants["CUMULUS_API_SECRET"]) else None
    else if VarName(k) in constants then Some(constants[VarName(k)])
    else None
  }

  /** The constant the filter evidently means to copy: `CUMULUS_FOLDER` for `folder`. */
  function ConstantIntended(k: Key, constants: map<string, Value>): (c: Option<Value>)
    ensures c.Some? <==> VarName(k) in constants
    ensures c.Some? ==> c.value == constants[VarName(k)]
  {
    if VarName(k) in constants then Some(constants[VarName(k)]) else None
  }

  function ConstantFor(k: Key, constants: map<string, Value>, intended: bool): Option<Value> {
    if intended then ConstantIntended(k, constants) else ConstantAsWritten(k, constants)
  }

  /**
   * Reading `CUMULUS_API_SECRET` while it is undefined throws an `Error` in
   * PHP 8; the filter reads it when `folder` is empty and `CUMULUS_FOLDER`
   * is defined.
   */
  predicate FolderThrows(base: map<string, Value>, constants: map<string, Value>) {
    Empty(Get(base, "folder")) && "CUMULUS_FOLDER" in constants && "CUMULUS_API_SECRET" !in constants
  }

  /** Whether the chain has a value to offer a setting: a defined constant or a non-empty variable. */
  predicate Supplied(k: Key, constants: map<string, Value>, env: map<string, string>, intended: bool) {
    ConstantFor(k, constants, intended).Some? || EnvValue(env, VarName(k)).Some?
  }

  /** The value the chain gives a managed setting. */
  function ChosenFor(k: Key, base: map<string, Value>, constants: map<string, Value>, env: map<string, string>, intended: bool): Value {
    Chosen(Get(base, KeyName(k)), ConstantFor(k, constants, intended), EnvValue(env, VarName(k)))
  }

  /**
   * What one fallback pair does to the settings: the setting takes its
   * `Chosen` value, and is created when the chain has a value to offer.
   */
  function Settle(s: map<string, Value>, k: Key, constant: Option<Value>, envVar: Option<string>): (r: map<string, Value>)
    ensures forall name :: name != KeyName(k) ==> (name in r <==> name in s)
    ensures forall name :: name != KeyName(k) && name in s ==> r[name] == s[name]
    ensures KeyName(k) in r <==> KeyName(k) in s || constant.Some? || envVar.Some?
    ensures KeyName(k) in r ==> r[KeyName(k)] == Chosen(Get(s, KeyName(k)), constant, envVar)
  {
    if KeyName(k) in s || constant.Some? || envVar.Some? then s[KeyName(k) := Chosen(Get(s, KeyName(k)), constant, envVar)]
    else s
  }

  /** The settings after the four fallback pairs, in the filter's order. */
  function Settled(base: map<string, Value>, constants: map<string, Value>, env: map<string, string>, intended: bool): map<string, Value> {
    var s1 := Settle(base, CloudName, ConstantFor(CloudName, constants, intended), EnvValue(env, VarName(CloudName)));
    var s2 := Settle(s1, ApiKey, ConstantFor(ApiKey, constants, intended), EnvValue(env, VarName(ApiKey)));
    var s3 := Settle(s2, ApiSecret, ConstantFor(ApiSecret, constants, intended), EnvValue(env, VarName(ApiSecret)));
    Settle(s3, Folder, ConstantFor(Folder, constants, intended), EnvValue(env, VarName(Folder)))
  }

  /** The chain leaves every key it does not manage as it was. */
  lemma SettledUnmanaged(base: map<string, Value>, constants: map<string, Value>, env: map<string, string>, intended: bool, name: string)
    requires ManagedKey(name).None?
    ensures var r := Settled(base, constants, env, intended);
            (name in r <==> name in base) && (name in base ==> r[name] == base[name])
  {
  }

  /**
   * Each managed setting ends up with its `Chosen` value, whatever the other
   * pairs do, and exists exactly when it existed before or the chain had a
   * value to offer.
   */
  lemma SettledManaged(base: map<string, Value>, constants: map<string, Value>, env: map<string, string>, intended: bool, k: Key)
    ensures var r := Settled(base, constants, env, intended);
            && (KeyName(k) in r <==> KeyName(k) in base || Supplied(k, constants, env, intended))
            && (KeyName(k) in r ==> r[KeyName(k)] == ChosenFor(k, base, constants, env, intended))
  {
    var s1 := Settle(base, CloudName, ConstantFor(CloudName, constants, intended), EnvValue(env, VarName(CloudName)));
    var s2 := Settle(s1, ApiKey, ConstantFor(ApiKey, constants, intended), EnvValue(env, VarName(ApiKey)));
    var s3 := Settle(s2, ApiSecret, ConstantFor(ApiSecret, constants, intended), EnvValue(env, VarName(ApiSecret)));
    var name := KeyName(k);
    match k {
      case CloudName =>
        assert name != KeyName(ApiKey) && name != KeyName(ApiSecret) && name != KeyName(Folder);
      case ApiKey =>
        assert name != KeyName(CloudName) && name != KeyName(ApiSecret) && name != KeyName(Folder);
        assert Get(s1, name) == Get(base, name);
      case ApiSecret =>
        assert name != KeyName(CloudName) && name != KeyName(ApiKey) && name != KeyName(Folder);
        assert Get(s2, name) == Get(base, name);
      case Folder =>
        assert name != KeyName(CloudName) && name != KeyName(ApiKey) && name != KeyName(ApiSecret);
        assert Get(s3, name) == Get(base, name);
    }
  }

  datatype Outcome =
    | Resolved(settings: map<string, Value>)
    | UndefinedConstant(name: string)

  /**
   * One pair of fallbacks (cumulus.php:72-77 and its three repetitions):
   * an empty setting takes the constant when there is one, and a setting
   * that is still empty takes a non-empty environment variable.
   */
  method FallBack(s: map<string, Value>, k: Key, constant: Option<Value>, envVar: Option<string>) returns (r: map<string, Value>)
    ensures r == Settle(s, k, constant, envVar)
  {
    r := s;
    if Empty(Get(r, KeyName(k))) && constant.Some? {
      r := r[KeyName(k) := constant.value];
    }
    if Empty(Get(r, KeyName(k))) && envVar.Some? {
      r := r[KeyName(k) := Str(envVar.value)];
    }
  }

  /**
   * The `cumulus/settings` filter as written: the defaults merged under the
   * incoming values, then the four fallback pairs in order. The folder pair
   * reads `CUMULUS_API_SECRET`, which throws when it is undefined.
   */
  method ResolveSettings(incoming: map<string, Value>, defaults: map<string, Value>, constants: map<string, Value>, env: map<string, string>)
    returns (r: Outcome)
    ensures r.UndefinedConstant? <==> FolderThrows(ParseArgs(incoming, defaults), constants)
    ensures r.UndefinedConstant? ==> r.name == "CUMULUS_API_SECRET"
    ensures r.Resolved? ==> r.settings == Settled(ParseArgs(incoming, defaults), constants, env, false)
  {
    var s := ParseArgs(incoming, defaults);
    s := FallBack(s, CloudName, ConstantAsWritten(CloudName, constants), EnvValue(env, VarName(CloudName)));
    s := FallBack(s, ApiKey, ConstantAsWritten(ApiKey, constants), EnvValue(env, VarName(ApiKey)));
    s := FallBack(s, ApiSecret, ConstantAsWritten(ApiSecret, constants), EnvValue(env, VarName(ApiSecret)));
    if Empty(Get(s, "folder")) && "CUMULUS_FOLDER" in constants && "CUMULUS_API_SECRET" !in constants {
      return UndefinedConstant("CUMULUS_API_SECRET");
    }
    s := FallBack(s, Folder, ConstantAsWritten(Folder, constants), EnvValue(env, VarName(Folder)));
    r := Resolved(s);
  }

  /**
   * The filter with the folder fallback corrected to read `CUMULUS_FOLDER`;
   * it never throws.
   */
  method ResolveSettingsIntended(incoming: map<string, Value>, defaults: map<string, Value>, constants: map<string, Value>, env: map<string, string>)
    returns (settings: map<string, Value>)
    ensures settings == Settled(ParseArgs(incoming, defaults), constants, env, true)
  {
    var s := ParseArgs(incoming, defaults);
    s := FallBack(s, CloudName, ConstantIntended(CloudName, constants), EnvValue(env, VarName(CloudName)));
    s := FallBack(s, ApiKey, ConstantIntended(ApiKey, constants), EnvValue(env, VarName(ApiKey)));
    s := FallBack(s, ApiSecret, ConstantIntended(ApiSecret, constants), EnvValue(env, VarName(ApiSecret)));
    s := FallBack(s, Folder, ConstantIntended(Folder, constants), EnvValue(env, VarName(Folder)));
    settings := s;
  }

  /** A non-empty value passed in is never replaced, managed or not. */
  lemma IncomingWins(incoming: map<string, Value>, defaults: map<string, Value>, constants: map<string, Value>, env: map<string, string>, intended: bool, key: string)
    requires key in incoming && Truthy(incoming[key])
    ensures var r := Settled(ParseArgs(incoming, defaults), constants, env, intended);
            key in r && r[key] == incoming[key]
  {
    var m := ManagedKey(key);
    if m.Some? {
      SettledManaged(ParseArgs(incoming, defaults), constants, env, intended, m.value);
    } else {
      SettledUnmanaged(ParseArgs(incoming, defaults), constants, env, intended, key);
    }
  }

  /** A key not passed in takes its non-empty database default. */
  lemma DefaultFillsAbsent(incoming: map<string, Value>, defaults: map<string, Value>, constants: map<string, Value>, env: map<string, string>, intended: bool, key: string)
    requires key !in incoming && key in defaults && Truthy(defaults[key])
    ensures var r := Settled(ParseArgs(incoming, defaults), constants, env, intended);
            key in r && r[key] == defaults[key]
  {
    var m := ManagedKey(key);
    if m.Some? {
      SettledManaged(ParseArgs(incoming, defaults), constants, env, intended, m.value);
    } else {
      SettledUnmanaged(ParseArgs(incoming, defaults), constants, env, intended, key);
    }
  }

  /**
   * For the cloud name, API key and API secret, a defined non-empty constant
   * beats the environment whenever the setting is empty.
   */
  lemma ConstantBeatsEnv(base: map<string, Value>, constants: map<string, Value>, env: map<string, string>, k: Key)
    requires k != Folder
    requires Empty(Get(base, KeyName(k))) && VarName(k) in constants && Truthy(constants[VarName(k)])
    ensures var r := Settled(base, constants, env, false);
            KeyName(k) in r && r[KeyName(k)] == constants[VarName(k)]
  {
    SettledManaged(base, constants, env, false, k);
  }

  /** Without a constant, an empty setting takes a non-empty environment variable. */
  lemma EnvWithoutConstant(base: map<string, Value>, constants: map<string, Value>, env: map<string, string>, k: Key)
    requires k != Folder
    requires Empty(Get(base, KeyName(k))) && VarName(k) !in constants
    requires VarName(k) in env && TruthyString(env[VarName(k)])
    ensures var r := Settled(base, constants, env, false);
            KeyName(k) in r && r[KeyName(k)] == Str(env[VarName(k)])
  {
    SettledManaged(base, constants, env, false, k);
  }

  /** An empty setting with neither a constant nor a non-empty variable stays as it was. */
  lemma NothingToOffer(base: map<string, Value>, constants: map<string, Value>, env: map<string, string>, intended: bool, k: Key)
    requires Empty(Get(base, KeyName(k))) && !Supplied(k, constants, env, intended)
    ensures var r := Settled(base, constants, env, intended);
            (KeyName(k) in r <==> KeyName(k) in base) && Get(r, KeyName(k)) == Get(base, KeyName(k))
  {
    SettledManaged(base, constants, env, intended, k);
  }

  /** As written: with `CUMULUS_FOLDER` defined, an empty folder becomes the API secret. */
  lemma FolderTakesSecret(base: map<string, Value>, constants: map<string, Value>, env: map<string, string>)
    requires Empty(Get(base, "folder")) && "CUMULUS_FOLDER" in constants
    requires "CUMULUS_API_SECRET" in constants && Truthy(constants["CUMULUS_API_SECRET"])
    ensures var r := Settled(base, constants, env, false);
            "folder" in r && r["folder"] == constants["CUMULUS_API_SECRET"]
  {
    SettledManaged(base, constants, env, false, Folder);
    assert KeyName(Folder) == "folder";
  }

  /**
   * The discrepancy on concrete input: `CUMULUS_FOLDER` is "uploads" and the
   * secret is "s3cr3t"; the folder comes out as the secret, not "uploads".
   */
  lemma FolderQuirkExample(constants: map<string, Value>)
    requires constants == map["CUMULUS_FOLDER" := Str("uploads"), "CUMULUS_API_SECRET" := Str("s3cr3t")]
    ensures var r := Settled(map[], constants, map[], false);
            "folder" in r && r["folder"] == Str("s3cr3t") && r["folder"] != constants["CUMULUS_FOLDER"]
  {
    FolderTakesSecret(map[], constants, map[]);
  }

  /** Corrected: with a non-empty `CUMULUS_FOLDER`, an empty folder becomes that constant. */
  lemma FolderFromConstantIntended(base: map<string, Value>, constants: map<string, Value>, env: map<string, string>)
    requires Empty(Get(base, "folder")) && "CUMULUS_FOLDER" in constants && Truthy(constants["CUMULUS_FOLDER"])
    ensures var r := Settled(base, constants, env, true);
            "folder" in r && r["folder"] == constants["CUMULUS_FOLDER"]
  {
    SettledManaged(base, constants, env, true, Folder);
    assert KeyName(Folder) == "folder";
  }

  /** The corrected chain agrees with the original on every key but the folder. */
  lemma IntendedDiffersOnlyInFolder(base: map<string, Value>, constants: map<string, Value>, env: map<string, string>, key: string)
    requires key != "folder"
    ensures var asWritten := Settled(base, constants, env, false);
            var intended := Settled(base, constants, env, true);
            (key in asWritten <==> key in intended) && (key in asWritten ==> asWritten[key] == intended[key])
  {
    var m := ManagedKey(key);
    if m.Some? {
      SettledManaged(base, constants, env, false, m.value);
      SettledManaged(base, constants, env, true, m.value);
    } else {
      SettledUnmanaged(base, constants, env, false, key);
      SettledUnmanaged(base, constants, env, true, key);
    }
  }

  /**
   * `settings()` (api.php:26-28): the filter as written applied to an empty
   * array, over the database defaults. It throws exactly when `CUMULUS_FOLDER`
   * is defined and `CUMULUS_API_SECRET` is not; otherwise the result has (at
   * least) the `cloud_name`, `api_key` and `api_secret` keys its
   * documentation promises.
   */
  method CurrentSettings(options: map<string, Value>, constants: map<string, Value>, env: map<string, string>)
    returns (r: Outcome)
    ensures r.UndefinedConstant? <==> "CUMULUS_FOLDER" in constants && "CUMULUS_API_SECRET" !in constants
    ensures r.Resolved? ==> r.settings == Settled(DefaultsFrom(options), constants, env, false)
    ensures r.Resolved? ==> {"cloud_name", "api_key", "api_secret"} <= r.settings.Keys
  {
    var defaults := DefaultsFrom(options);
    assert ParseArgs(map[], defaults) == defaults;
    r := ResolveSettings(map[], defaults, constants, env);
  }

  /** `settings()` with the folder fallback corrected: it never throws, and has the same keys. */
  method CurrentSettingsIntended(options: map<string, Value>, constants: map<string, Value>, env: map<string, string>)
    returns (settings: map<string, Value>)
    ensures settings == Settled(DefaultsFrom(options), constants, env, true)
    ensures {"cloud_name", "api_key", "api_secret"} <= settings.Keys
  {
    var defaults := DefaultsFrom(options);
    assert ParseArgs(map[], defaults) == defaults;
    settings := ResolveSettingsIntended(map[], defaults, constants, env);
  }

  /**
   * As written, `folder()` on a site with the folder and the secret defined
   * as constants, and no folder option, returns the secret.
   */
  lemma FolderGetterAsWritten(options: map<string, Value>, constants: map<string, Value>, env: map<string, string>)
    requires "CUMULUS_FOLDER" in constants && "CUMULUS_API_SECRET" in constants
    requires constants["CUMULUS_API_SECRET"].Str? && TruthyString(constants["CUMULUS_API_SECRET"].s)
    ensures Setting(Settled(DefaultsFrom(options), constants, env, false), "folder") == Some(constants["CUMULUS_API_SECRET"].s)
  {
    FolderTakesSecret(DefaultsFrom(options), constants, env);
  }

  /**
   * A getter such as `cloud_name()` or `folder()`: the setting or `''`,
   * returned as a string. `false` and `null` become `''`, an integer its
   * digits; an array cannot be returned as a string (a `TypeError`: `None`).
   */
  function Setting(settings: map<string, Value>, key: string): (r: Option<string>)
    ensures key !in settings ==> r == Some("")
    ensures key in settings && settings[key].Str? ==> r == Some(settings[key].s)
    ensures r.None? <==> key in settings && settings[key].Arr?
    ensures r.Some? ==> (TruthyString(r.value) <==> Truthy(Get(settings, key)))
  {
    var v := Get(settings, key);
    if v.Arr? then None else Some(ToStr(v))
  }
}
