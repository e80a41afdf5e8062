/**
 * The broker's configuration (main.go:143-254): the `Configuration` record
 * and its field table, the Credhub override loop `credhubProcess`, the
 * `Validate` checks and fixups, and `parseConfig`, which runs them in order.
 *
 * `envconfig.Process` is not part of this model: its outcome (the record
 * it fills from the environment, or its error) is an input.  The Credhub
 * client is a lookup function from credential name to what
 * `GetLatestByName` answers.
 */
module Settings {
  import opened Wrappers
  import opened Text
  import opened Address

  /** The kinds of field the override loop knows how to set. */
  datatype Kind = BoolKind | StringKind | ListKind

  /** The fields of `Configuration`, one constructor per field. */
  datatype Field =
    | SecurityUserName | SecurityUserPassword | VaultToken
    | CredhubUrl | Port | ServiceId | VaultAddr | VaultAdvertiseAddr
    | ServiceName | ServiceDescription | PlanName | PlanDescription
    | ServiceTags | VaultRenew

  /** The fields in declaration order, the order `credhubProcess` visits them. */
  const Fields: seq<Field> := [
    SecurityUserName, SecurityUserPassword, VaultToken,
    CredhubUrl, Port, ServiceId, VaultAddr, VaultAdvertiseAddr,
    ServiceName, ServiceDescription, PlanName, PlanDescription,
    ServiceTags, VaultRenew]

  /** The `envconfig` struct tag of each field. */
  function Tag(f: Field): string
  {
    match f
    case SecurityUserName => "security_user_name"
    case SecurityUserPassword => "security_user_password"
    case VaultToken => "vault_token"
    case CredhubUrl => "credhub_url"
    case Port => "port"
    case ServiceId => "service_id"
    case VaultAddr => "vault_addr"
    case VaultAdvertiseAddr => "vault_advertise_addr"
    case ServiceName => "service_name"
    case ServiceDescription => "service_description"
    case PlanName => "plan_name"
    case PlanDescription => "plan_description"
    case ServiceTags => "service_tags"
    case VaultRenew => "vault_renew"
  }

  function KindOf(f: Field): Kind
  {
    match f
    case ServiceTags => ListKind
    case VaultRenew => BoolKind
    case _ => StringKind
  }

  /** The table lists every field exactly once. */
  lemma FieldsComplete(f: Field)
    ensures f in Fields
    ensures forall i, j | 0 <= i < j < |Fields| :: Fields[i] != Fields[j]
  {
  }

  /** The values of a `Configuration`. */
  datatype Config = Config(
    securityUserName: string,
    securityUserPassword: string,
    vaultToken: string,
    credhubUrl: string,
    port: string,
    serviceId: string,
    vaultAddr: string,
    vaultAdvertiseAddr: string,
    serviceName: string,
    serviceDescription: string,
    planName: string,
    planDescription: string,
    serviceTags: seq<string>,
    vaultRenew: bool)

  /** What `envconfig` puts in a field when the environment leaves it unset (main.go:161-176). */
  function Defaults(): Config
  {
    Config(
      "", "", "",
      "",
      ":8000",
      "0654695e-0760-a1d4-1cad-5dd87b75ed99",
      "https://127.0.0.1:8200",
      "",
      "hashicorp-vault",
      "HashiCorp Vault Service Broker",
      "shared",
      "Secure access to Vault's storage and transit backends",
      [],
      true)
  }

  /** A value one field can hold. */
  datatype Value = BoolVal(b: bool) | StrVal(s: string) | ListVal(items: seq<string>)

  predicate Fits(f: Field, v: Value)
  {
    match KindOf(f)
    case BoolKind => v.BoolVal?
    case StringKind => v.StrVal?
    case ListKind => v.ListVal?
  }

  function Get(c: Config, f: Field): (v: Value)
    ensures Fits(f, v)
  {
    match f
    case SecurityUserName => StrVal(c.securityUserName)
    case SecurityUserPassword => StrVal(c.securityUserPassword)
    case VaultToken => StrVal(c.vaultToken)
    case CredhubUrl => StrVal(c.credhubUrl)
    case Port => StrVal(c.port)
    case ServiceId => StrVal(c.serviceId)
    case VaultAddr => StrVal(c.vaultAddr)
    case VaultAdvertiseAddr => StrVal(c.vaultAdvertiseAddr)
    case ServiceName => StrVal(c.serviceName)
    case ServiceDescription => StrVal(c.serviceDescription)
    case PlanName => StrVal(c.planName)
    case PlanDescription => StrVal(c.planDescription)
    case ServiceTags => ListVal(c.serviceTags)
    case VaultRenew => BoolVal(c.vaultRenew)
  }

  /** The record with field `f` holding `v`, every other field as it was. */
  function Set(c: Config, f: Field, v: Value): Config
    requires Fits(f, v)
  {
    match f
    case SecurityUserName => c.(securityUserName := v.s)
    case SecurityUserPassword => c.(securityUserPassword := v.s)
    case VaultToken => c.(vaultToken := v.s)
    case CredhubUrl => c.(credhubUrl := v.s)
    case Port => c.(port := v.s)
    case ServiceId => c.(serviceId := v.s)
    case VaultAddr => c.(vaultAddr := v.s)
    case VaultAdvertiseAddr => c.(vaultAdvertiseAddr := v.s)
    case ServiceName => c.(serviceName := v.s)
    case ServiceDescription => c.(serviceDescription := v.s)
    case PlanName => c.(planName := v.s)
    case PlanDescription => c.(planDescription := v.s)
    case ServiceTags => c.(serviceTags := v.items)
    case VaultRenew => c.(vaultRenew := v.b)
  }

  /** Setting a field changes that field, to the value given, and no other. */
  lemma GetSet(c: Config, f: Field, v: Value, g: Field)
    requires Fits(f, v)
    ensures Get(Set(c, f, v), g) == if g == f then v else Get(c, g)
  {
  }

  /** Two records that agree on every field are the same record. */
  lemma {:induction false} SameFields(c: Config, d: Config)
    requires forall f :: Get(c, f) == Get(d, f)
    ensures c == d
  {
    assert Get(c, SecurityUserName) == Get(d, SecurityUserName);
    assert Get(c, SecurityUserPassword) == Get(d, SecurityUserPassword);
    assert Get(c, VaultToken) == Get(d, VaultToken);
    assert Get(c, CredhubUrl) == Get(d, CredhubUrl);
    assert Get(c, Port) == Get(d, Port);
    assert Get(c, ServiceId) == Get(d, ServiceId);
    assert Get(c, VaultAddr) == Get(d, VaultAddr);
    assert Get(c, VaultAdvertiseAddr) == Get(d, VaultAdvertiseAddr);
    assert Get(c, ServiceName) == Get(d, ServiceName);
    assert Get(c, ServiceDescription) == Get(d, ServiceDescription);
    assert Get(c, PlanName) == Get(d, PlanName);
    assert Get(c, PlanDescription) == Get(d, PlanDescription);
    assert Get(c, ServiceTags) == Get(d, ServiceTags);
    assert Get(c, VaultRenew) == Get(d, VaultRenew);
  }

  /** A Credhub credential value: a string, or a value of some other JSON type. */
  datatype Credential = Str(s: string) | NonStr(typeName: string)

  /** What `GetLatestByName` answers: the latest credential, if any, and an error, if any. */
  datatype Lookup = Lookup(latest: Option<Credential>, err: Option<string>)

  /** The errors `parseConfig` can return. */
  datatype ConfigError =
    | EnvError(msg: string)
    | LookupError(msg: string)
    | NotString(key: string, typeName: string)
    | BadBool(key: string, text: string)
    | Missing(name: string)

  /** The error text the source produces for each error. */
  function Message(e: ConfigError): (m: string)
    ensures e.Missing? ==> m == "missing " + e.name
  {
    match e
    case EnvError(msg) => msg
    case LookupError(msg) => msg
    case NotString(key, t) => "we only support credhub values as bash-like string values, but received " + key + " as a " + t
    case BadBool(key, text) => "error parsing bool " + key + ": strconv.ParseBool: parsing " + Quote(text) + ": invalid syntax"
    case Missing(name) => "missing " + name
  }

  /** The Credhub name looked up for a field: the prefix, then the field's tag with its letters upper-cased one by one. */
  function Key(prefix: string, f: Field): (r: string)
    ensures |r| == |prefix| + |Tag(f)| && r[..|prefix|] == prefix
    ensures forall i | 0 <= i < |Tag(f)| :: r[|prefix| + i] == UpperChar(Tag(f)[i])
  {
    ToUpperChars(Tag(f));
    prefix + ToUpper(Tag(f))
  }

  /** A lookup error that does not stop the loop: its text mentions "not found", in any case. */
  predicate NotFound(err: string)
  {
    Contains(ToLower(err), "not found")
  }

  /** What one iteration of `credhubProcess` does with a field. */
  datatype Step = Keep | Put(v: Value) | Abort(e: ConfigError)

  /** The iteration for field `f`: skip it, set it, or stop with an error. */
  function FieldStep(prefix: string, f: Field, lookup: string -> Lookup): (r: Step)
    ensures r.Put? ==> Fits(f, r.v)
  {
    var key := Key(prefix, f);
    var found := lookup(key);
    if found.err.Some? && !NotFound(found.err.value) then Abort(LookupError(found.err.value))
    else if found.latest.None? then Keep
    else
      match found.latest.value
      case NonStr(t) => Abort(NotString(key, t))
      case Str(s) =>
        if s == "" then Keep
        else
          match KindOf(f)
          case BoolKind =>
            (match ParseBool(s)
             case None => Abort(BadBool(key, s))
             case Some(b) => Put(BoolVal(b)))
          case StringKind => Put(StrVal(s))
          case ListKind => Put(ListVal(Split(s, ',')))
  }

  /**
   * One iteration stops the loop exactly on a lookup error that is not
   * "not found", a non-string credential, or a bad boolean; skips the field
   * exactly when Credhub has nothing or an empty string; and otherwise sets
   * the field to the string, its comma-separated pieces, or the boolean it
   * spells.
   */
  lemma FieldStepCases(prefix: string, f: Field, lookup: string -> Lookup)
    ensures var found := lookup(Key(prefix, f));
      && (FieldStep(prefix, f, lookup).Abort? <==>
            || (found.err.Some? && !NotFound(found.err.value))
            || (found.latest.Some? && found.latest.value.NonStr?)
            || (found.latest.Some? && found.latest.value.Str? && found.latest.value.s != ""
                && KindOf(f) == BoolKind && ParseBool(found.latest.value.s).None?))
      && (FieldStep(prefix, f, lookup).Keep? <==>
            && (found.err.None? || NotFound(found.err.value))
            && (found.latest.None? || found.latest.value == Str("")))
    ensures FieldStep(prefix, f, lookup).Put? ==> var s := lookup(Key(prefix, f)).latest.value.s;
      && lookup(Key(prefix, f)).latest == Some(Str(s)) && s != ""
      && (KindOf(f) == StringKind ==> FieldStep(prefix, f, lookup).v == StrVal(s))
      && (KindOf(f) == ListKind ==> FieldStep(prefix, f, lookup).v == ListVal(Split(s, ',')))
      && (KindOf(f) == BoolKind ==> ParseBool(s) == Some(FieldStep(prefix, f, lookup).v.b))
  {
  }

  /** Where the override loop ends: the record reached, and the error that stopped it, if any. */
  datatype Outcome = Outcome(config: Config, error: Option<ConfigError>)

  /** The override loop over `fields`, in order, starting from `c`. */
  function Overrides(prefix: string, c: Config, lookup: string -> Lookup, fields: seq<Field>): Outcome
    decreases |fields|
  {
    if fields == [] then Outcome(c, None)
    else
      match FieldStep(prefix, fields[0], lookup)
      case Keep => Overrides(prefix, c, lookup, fields[1..])
      case Put(v) => Overrides(prefix, Set(c, fields[0], v), lookup, fields[1..])
      case Abort(e) => Outcome(c, Some(e))
  }

  /** The value the loop leaves in field `g` when no field of `fields` aborts. */
  function Merged(prefix: string, c: Config, lookup: string -> Lookup, fields: seq<Field>, g: Field): Value
  {
    if g in fields && FieldStep(prefix, g, lookup).Put? then FieldStep(prefix, g, lookup).v else Get(c, g)
  }

  /** The loop fails exactly when the step of some field it visits aborts. */
  lemma {:induction false} OverridesError(prefix: string, c: Config, lookup: string -> Lookup, fields: seq<Field>)
    ensures Overrides(prefix, c, lookup, fields).error.None? <==> forall f | f in fields :: !FieldStep(prefix, f, lookup).Abort?
    decreases |fields|
  {
    if fields != [] {
      var f := fields[0];
      var rest := fields[1..];
      assert forall g | g in fields :: g == f || g in rest;
      match FieldStep(prefix, f, lookup)
      case Keep =>
        OverridesError(prefix, c, lookup, rest);
      case Put(v) =>
        OverridesError(prefix, Set(c, f, v), lookup, rest);
      case Abort(e) =>
    }
  }

  /**
   * Over distinct fields, when the loop does not fail, each field holds its
   * override if it has one and keeps its value if not.
   */
  lemma {:induction false} OverridesValue(prefix: string, c: Config, lookup: string -> Lookup, fields: seq<Field>, g: Field)
    requires forall i, j | 0 <= i < j < |fields| :: fields[i] != fields[j]
    requires Overrides(prefix, c, lookup, fields).error.None?
    ensures Get(Overrides(prefix, c, lookup, fields).config, g) == Merged(prefix, c, lookup, fields, g)
    decreases |fields|
  {
    if fields != [] {
      var f := fields[0];
      var rest := fields[1..];
      assert fields == [f] + rest;
      assert f !in rest;
      match FieldStep(prefix, f, lookup)
      case Keep =>
        OverridesValue(prefix, c, lookup, rest, g);
        MergedKeep(prefix, c, lookup, f, rest, g);
      case Put(v) =>
        OverridesValue(prefix, Set(c, f, v), lookup, rest, g);
        MergedPut(prefix, c, lookup, f, v, rest, g);
    }
  }

  lemma MergedKeep(prefix: string, c: Config, lookup: string -> Lookup, f: Field, rest: seq<Field>, g: Field)
    requires FieldStep(prefix, f, lookup).Keep?
    ensures Merged(prefix, c, lookup, rest, g) == Merged(prefix, c, lookup, [f] + rest, g)
  {
  }

  lemma MergedPut(prefix: string, c: Config, lookup: string -> Lookup, f: Field, v: Value, rest: seq<Field>, g: Field)
    requires FieldStep(prefix, f, lookup) == Put(v) && f !in rest
    ensures Merged(prefix, Set(c, f, v), lookup, rest, g) == Merged(prefix, c, lookup, [f] + rest, g)
  {
    GetSet(c, f, v, g);
  }

  /** The loop stops at the first field whose step aborts, keeping what the fields before it set. */
  lemma {:induction false} OverridesFirstError(prefix: string, c: Config, lookup: string -> Lookup, fields: seq<Field>, j: nat)
    requires j < |fields| && FieldStep(prefix, fields[j], lookup).Abort?
    requires forall k | 0 <= k < j :: !FieldStep(prefix, fields[k], lookup).Abort?
    ensures Overrides(prefix, c, lookup, fields)
         == Outcome(Overrides(prefix, c, lookup, fields[..j]).config, Some(FieldStep(prefix, fields[j], lookup).e))
    decreases j
  {
    if j > 0 {
      assert fields[1..][..j - 1] == fields[..j][1..];
      match FieldStep(prefix, fields[0], lookup)
      case Keep =>
        OverridesFirstError(prefix, c, lookup, fields[1..], j - 1);
      case Put(v) =>
        OverridesFirstError(prefix, Set(c, fields[0], v), lookup, fields[1..], j - 1);
    } else {
      assert fields[..0] == [];
    }
  }

  /** `Validate`'s checks: the first required field that is empty, in the order the source checks them. */
  function MissingField(c: Config): (r: Option<ConfigError>)
    ensures r.None? <==> c.securityUserName != "" && c.securityUserPassword != "" && c.vaultToken != ""
    ensures r == Some(Missing("SECURITY_USER_NAME")) <==> c.securityUserName == ""
    ensures r == Some(Missing("SECURITY_USER_PASSWORD")) <==> c.securityUserName != "" && c.securityUserPassword == ""
    ensures r == Some(Missing("VAULT_TOKEN")) <==> c.securityUserName != "" && c.securityUserPassword != "" && c.vaultToken == ""
  {
    if c.securityUserName == "" then Some(Missing("SECURITY_USER_NAME"))
    else if c.securityUserPassword == "" then Some(Missing("SECURITY_USER_PASSWORD"))
    else if c.vaultToken == "" then Some(Missing("VAULT_TOKEN"))
    else None
  }

  /**
   * The three required fields have no default, so a record of defaults
   * alone fails validation on the first of them; the default port already
   * has the ':' validation would add.
   */
  lemma DefaultsNeedRequired()
    ensures Defaults().securityUserName == "" && Defaults().securityUserPassword == "" && Defaults().vaultToken == ""
    ensures MissingField(Defaults()) == Some(Missing("SECURITY_USER_NAME"))
    ensures FixPort(Defaults().port) == Defaults().port
  {
  }

  /** The port with the ':' prefix `http.ListenAndServe` expects. */
  function FixPort(p: string): (r: string)
    ensures ":" <= r
    ensures ":" <= p ==> r == p
    ensures !(":" <= p) ==> r == ":" + p
  {
    if ":" <= p then p else ":" + p
  }

  /** `Validate`'s fixups: the port prefix, the advertise address defaulted from the Vault address, both addresses normalised. */
  function Fixed(c: Config): (r: Config)
    ensures r.port == FixPort(c.port)
    ensures c.vaultAdvertiseAddr == "" ==> r.vaultAdvertiseAddr == r.vaultAddr
    ensures c.vaultAdvertiseAddr != "" ==> r.vaultAdvertiseAddr == NormalizeAddr(c.vaultAdvertiseAddr)
    ensures r.vaultAddr == NormalizeAddr(c.vaultAddr)
    ensures r == c.(port := r.port, vaultAddr := r.vaultAddr, vaultAdvertiseAddr := r.vaultAdvertiseAddr)
  {
    var advertise := if c.vaultAdvertiseAddr == "" then c.vaultAddr else c.vaultAdvertiseAddr;
    c.(port := FixPort(c.port),
       vaultAddr := NormalizeAddr(c.vaultAddr),
       vaultAdvertiseAddr := NormalizeAddr(advertise))
  }

  /** A record whose port and addresses are the fixed ones, and whose other fields are unchanged, is the fixed record. */
  lemma FixedFields(c: Config, d: Config)
    requires d.port == FixPort(c.port)
    requires d.vaultAddr == NormalizeAddr(c.vaultAddr)
    requires d.vaultAdvertiseAddr == NormalizeAddr(if c.vaultAdvertiseAddr == "" then c.vaultAddr else c.vaultAdvertiseAddr)
    requires d == c.(port := d.port, vaultAddr := d.vaultAddr, vaultAdvertiseAddr := d.vaultAdvertiseAddr)
    ensures d == Fixed(c)
  {
  }

  /** The fixed port is the given one with exactly one leading ':' added when it had none. */
  lemma FixPortIdempotent(p: string)
    ensures FixPort(FixPort(p)) == FixPort(p)
    ensures FixPort(p)[1..] == if ":" <= p then p[1..] else p
  {
  }

  /**
   * Validating twice changes nothing more, as long as both addresses settle
   * under normalisation (see `NormalizeIdempotent`).
   */
  lemma {:induction false} FixedIdempotent(c: Config)
    requires Settles(c.vaultAddr)
    requires Settles(if c.vaultAdvertiseAddr == "" then c.vaultAddr else c.vaultAdvertiseAddr)
    ensures Fixed(Fixed(c)) == Fixed(c)
  {
    var advertise := if c.vaultAdvertiseAddr == "" then c.vaultAddr else c.vaultAdvertiseAddr;
    NormalizeIdempotent(c.vaultAddr);
    NormalizeIdempotent(advertise);
    FixPortIdempotent(c.port);
    if c.vaultAdvertiseAddr == "" {
      assert Fixed(c).vaultAdvertiseAddr == NormalizeAddr(c.vaultAddr);
    }
    if Fixed(c).vaultAdvertiseAddr == "" {
      assert NormalizeAddr(advertise) == "";
    }
  }

  /** The result of `Validate` on a record: its error, or the fixed record. */
  function Validated(c: Config): Result<Config, ConfigError>
  {
    match MissingField(c)
    case Some(e) => Failure(e)
    case None => Success(Fixed(c))
  }

  /** The name prefix `parseConfig` gives `credhubProcess`. */
  const CredhubPrefix := "VAULT_SERVICE_BROKER_"

  /**
   * `parseConfig` as a function of what `envconfig` produced and what
   * Credhub answers: overrides only when a Credhub URL is configured, then
   * validation.
   */
  function Resolve(env: Result<Config, string>, lookup: string -> Lookup): Result<Config, ConfigError>
  {
    match env
    case Failure(msg) => Failure(EnvError(msg))
    case Success(c) =>
      if c.credhubUrl == "" then Validated(c)
      else
        var o := Overrides(CredhubPrefix, c, lookup, Fields);
        match o.error
        case Some(e) => Failure(e)
        case None => Validated(o.config)
  }

  /** Without a Credhub URL the answer does not depend on Credhub at all. */
  lemma ResolveIgnoresCredhubWithoutUrl(c: Config, lookup: string -> Lookup, other: string -> Lookup)
    requires c.credhubUrl == ""
    ensures Resolve(Success(c), lookup) == Resolve(Success(c), other)
    ensures Resolve(Success(c), lookup) == Validated(c)
  {
  }

  /**
   * With only the three required fields set, and no Credhub URL, the
   * defaults come out as they are except for the Vault address, which gains
   * its closing '/' and is also the advertise address.
   */
  lemma ResolveDefaults(user: string, password: string, token: string, lookup: string -> Lookup)
    requires user != "" && password != "" && token != ""
    ensures var c := Defaults().(securityUserName := user, securityUserPassword := password, vaultToken := token);
      Resolve(Success(c), lookup)
        == Success(c.(vaultAddr := "https://127.0.0.1:8200/", vaultAdvertiseAddr := "https://127.0.0.1:8200/"))
  {
    var c := Defaults().(securityUserName := user, securityUserPassword := password, vaultToken := token);
    var d := c.(vaultAddr := "https://127.0.0.1:8200/", vaultAdvertiseAddr := "https://127.0.0.1:8200/");
    assert c.credhubUrl == "" && c.vaultAdvertiseAddr == "" && c.vaultAddr == "https://127.0.0.1:8200";
    assert MissingField(c).None?;
    assert ":" <= c.port;
    DefaultVaultAddr();
    FixedFields(c, d);
  }

  lemma DefaultVaultAddr()
    ensures NormalizeAddr("https://127.0.0.1:8200") == "https://127.0.0.1:8200/"
  {
    NormalizeDefaultVaultAddr("https", "127.0.0.1", "8200");
    DefaultVaultAddrPieces();
  }

  lemma DefaultVaultAddrPieces()
    ensures "https" + "://" + "127.0.0.1" + ":" + "8200" == "https://127.0.0.1:8200"
    ensures "https" + "://" + "127.0.0.1" + ":" + "8200" + "/" == "https://127.0.0.1:8200/"
  {
  }

  /** An `envconfig` failure is passed on and nothing else happens. */
  lemma ResolveEnvFailure(msg: string, lookup: string -> Lookup)
    ensures Resolve(Failure(msg), lookup) == Failure(EnvError(msg))
    ensures Message(Resolve(Failure(msg), lookup).error) == msg
  {
  }

  /** Overrides run before validation: an aborting override is the error, whatever validation would say. */
  lemma {:induction false} ResolveOverrideError(c: Config, lookup: string -> Lookup, j: nat)
    requires c.credhubUrl != ""
    requires j < |Fields| && FieldStep(CredhubPrefix, Fields[j], lookup).Abort?
    requires forall k | 0 <= k < j :: !FieldStep(CredhubPrefix, Fields[k], lookup).Abort?
    ensures Resolve(Success(c), lookup) == Failure(FieldStep(CredhubPrefix, Fields[j], lookup).e)
  {
    OverridesFirstError(CredhubPrefix, c, lookup, Fields, j);
  }

  /**
   * A Credhub value for a field that validation leaves alone beats the
   * environment's value; a field Credhub skips keeps the environment's.
   */
  lemma {:induction false} ResolveOverrideWins(c: Config, lookup: string -> Lookup, g: Field)
    requires c.credhubUrl != ""
    requires g !in {Port, VaultAddr, VaultAdvertiseAddr}
    requires Resolve(Success(c), lookup).Success?
    ensures Get(Resolve(Success(c), lookup).value, g)
         == if FieldStep(CredhubPrefix, g, lookup).Put? then FieldStep(CredhubPrefix, g, lookup).v else Get(c, g)
  {
    ResolveOverrides(c, lookup);
    var o := Overrides(CredhubPrefix, c, lookup, Fields).config;
    FieldsComplete(g);
    OverridesValue(CredhubPrefix, c, lookup, Fields, g);
    FixedKeeps(o, g);
  }

  /** A Credhub port still gets the ':' prefix: validation runs after the overrides. */
  lemma {:induction false} ResolveOverridePort(c: Config, lookup: string -> Lookup, p: string)
    requires c.credhubUrl != ""
    requires FieldStep(CredhubPrefix, Port, lookup) == Put(StrVal(p))
    requires Resolve(Success(c), lookup).Success?
    ensures Resolve(Success(c), lookup).value.port == FixPort(p)
  {
    ResolveOverrides(c, lookup);
    var o := Overrides(CredhubPrefix, c, lookup, Fields).config;
    OverridePut(CredhubPrefix, c, lookup, Port, StrVal(p));
    GetPort(o);
  }

  /** With a Credhub URL, a successful resolution is the validation of the overridden record. */
  lemma ResolveOverrides(c: Config, lookup: string -> Lookup)
    requires c.credhubUrl != ""
    requires Resolve(Success(c), lookup).Success?
    ensures Overrides(CredhubPrefix, c, lookup, Fields).error.None?
    ensures Resolve(Success(c), lookup) == Success(Fixed(Overrides(CredhubPrefix, c, lookup, Fields).config))
  {
  }

  /** When no field aborts, a field Credhub sets holds the value it was set to. */
  lemma OverridePut(prefix: string, c: Config, lookup: string -> Lookup, f: Field, v: Value)
    requires FieldStep(prefix, f, lookup) == Put(v)
    requires Overrides(prefix, c, lookup, Fields).error.None?
    ensures Get(Overrides(prefix, c, lookup, Fields).config, f) == v
  {
    FieldsComplete(f);
    OverridesValue(prefix, c, lookup, Fields, f);
  }

  lemma GetPort(c: Config)
    ensures Get(c, Port) == StrVal(c.port)
  {
  }

  /** The fixups touch only the port and the two addresses. */
  lemma FixedKeeps(c: Config, g: Field)
    requires g !in {Port, VaultAddr, VaultAdvertiseAddr}
    ensures Get(Fixed(c), g) == Get(c, g)
  {
  }

  /** The broker configuration, updated in place by `credhubProcess` and `Validate`. */
  class Configuration {
    var securityUserName: string
    var securityUserPassword: string
    var vaultToken: string
    var credhubUrl: string
    var port: string
    var serviceId: string
    var vaultAddr: string
    var vaultAdvertiseAddr: string
    var serviceName: string
    var serviceDescription: string
    var planName: string
    var planDescription: string
    var serviceTags: seq<string>
    var vaultRenew: bool

    /** A configuration holding the values `envconfig` produced. */
    constructor (c: Config)
      ensures Snapshot() == c
    {
      securityUserName := c.securityUserName;
      securityUserPassword := c.securityUserPassword;
      vaultToken := c.vaultToken;
      credhubUrl := c.credhubUrl;
      port := c.port;
      serviceId := c.serviceId;
      vaultAddr := c.vaultAddr;
      vaultAdvertiseAddr := c.vaultAdvertiseAddr;
      serviceName := c.serviceName;
      serviceDescription := c.serviceDescription;
      planName := c.planName;
      planDescription := c.planDescription;
      serviceTags := c.serviceTags;
      vaultRenew := c.vaultRenew;
    }

    /** The current values of all fields. */
    function Snapshot(): Config
      reads this
    {
      Config(securityUserName, securityUserPassword, vaultToken, credhubUrl, port, serviceId,
        vaultAddr, vaultAdvertiseAddr, serviceName, serviceDescription, planName, planDescription,
        serviceTags, vaultRenew)
    }

    /** `settableField.SetBool`, `SetString` or `Set`: one field takes a value of its kind. */
    method Assign(f: Field, v: Value)
      requires Fits(f, v)
      modifies this
      ensures Snapshot() == Set(old(Snapshot()), f, v)
    {
      match f
      case SecurityUserName => securityUserName := v.s;
      case SecurityUserPassword => securityUserPassword := v.s;
      case VaultToken => vaultToken := v.s;
      case CredhubUrl => credhubUrl := v.s;
      case Port => port := v.s;
      case ServiceId => serviceId := v.s;
      case VaultAddr => vaultAddr := v.s;
      case VaultAdvertiseAddr => vaultAdvertiseAddr := v.s;
      case ServiceName => serviceName := v.s;
      case ServiceDescription => serviceDescription := v.s;
      case PlanName => planName := v.s;
      case PlanDescription => planDescription := v.s;
      case ServiceTags => serviceTags := v.items;
      case VaultRenew => vaultRenew := v.b;
    }

    /**
     * `credhubProcess`: visits the fields in declaration order, looking up
     * `prefix` followed by the upper-cased tag, and overwrites each field
     * that Credhub holds a non-empty value for.  The first fatal answer
     * stops the loop, leaving the fields set so far.
     */
    method CredhubProcess(prefix: string, lookup: string -> Lookup) returns (err: Option<ConfigError>)
      modifies this
      ensures Outcome(Snapshot(), err) == Overrides(prefix, old(Snapshot()), lookup, Fields)
    {
      var i := 0;
      while i < |Fields|
        invariant 0 <= i <= |Fields|
        invariant Overrides(prefix, old(Snapshot()), lookup, Fields) == Overrides(prefix, Snapshot(), lookup, Fields[i..])
      {
        assert Fields[i..][0] == Fields[i] && Fields[i..][1..] == Fields[i + 1..];
        err := VisitField(prefix, Fields[i], lookup);
        if err.Some? {
          return;
        }
        i := i + 1;
      }
      assert Fields[|Fields|..] == [];
      return None;
    }

    /** One iteration of `credhubProcess`'s loop: it does to field `f` what `FieldStep` says. */
    method VisitField(prefix: string, f: Field, lookup: string -> Lookup) returns (err: Option<ConfigError>)
      modifies this
      ensures FieldStep(prefix, f, lookup).Abort? ==> err == Some(FieldStep(prefix, f, lookup).e) && Snapshot() == old(Snapshot())
      ensures FieldStep(prefix, f, lookup).Keep? ==> err.None? && Snapshot() == old(Snapshot())
      ensures FieldStep(prefix, f, lookup).Put? ==> err.None? && Snapshot() == Set(old(Snapshot()), f, FieldStep(prefix, f, lookup).v)
    {
      var key := Key(prefix, f);
      var found := lookup(key);
      if found.err.Some? && !NotFound(found.err.value) {
        return Some(LookupError(found.err.value));
      }
      if found.latest.None? {
        return None;
      }
      match found.latest.value {
        case NonStr(t) =>
          return Some(NotString(key, t));
        case Str(setting) =>
          if setting == "" {
            return None;
          }
          match KindOf(f) {
            case BoolKind =>
              var asBool := ParseBool(setting);
              if asBool.None? {
                return Some(BadBool(key, setting));
              }
              Assign(f, BoolVal(asBool.value));
            case StringKind =>
              Assign(f, StrVal(setting));
            case ListKind =>
              Assign(f, ListVal(Split(setting, ',')));
          }
          return None;
      }
    }

    /**
     * `Validate`: the first missing required field is the error and
     * nothing changes; otherwise the port, advertise address and Vault
     * address are fixed in place.
     */
    method Validate() returns (err: Option<ConfigError>)
      modifies this
      ensures err == MissingField(old(Snapshot()))
      ensures err.Some? ==> Snapshot() == old(Snapshot())
      ensures err.None? ==> Snapshot() == Fixed(old(Snapshot()))
    {
      if securityUserName == "" {
        return Some(Missing("SECURITY_USER_NAME"));
      }
      if securityUserPassword == "" {
        return Some(Missing("SECURITY_USER_PASSWORD"));
      }
      if vaultToken == "" {
        return Some(Missing("VAULT_TOKEN"));
      }
      ghost var c := Snapshot();
      FixUp();
      FixedFields(c, Snapshot());
      return None;
    }

    /** The fixups of `Validate`: ':' before the port, the advertise address defaulted, both addresses normalised. */
    method FixUp()
      modifies this`port, this`vaultAddr, this`vaultAdvertiseAddr
      ensures port == FixPort(old(port))
      ensures vaultAddr == NormalizeAddr(old(vaultAddr))
      ensures vaultAdvertiseAddr == NormalizeAddr(if old(vaultAdvertiseAddr) == "" then old(vaultAddr) else old(vaultAdvertiseAddr))
    {
      if !(":" <= port) {
        port := ":" + port;
      }
      if vaultAdvertiseAddr == "" {
        vaultAdvertiseAddr := vaultAddr;
      }
      vaultAddr := NormalizeAddr(vaultAddr);
      vaultAdvertiseAddr := NormalizeAddr(vaultAdvertiseAddr);
    }
  }

  /**
   * `parseConfig`: builds the configuration from `envconfig`'s result, runs
   * the Credhub overrides when a Credhub URL is set, then validates.  On any
   * error no configuration is returned.
   */
  method ParseConfig(env: Result<Config, string>, lookup: string -> Lookup) returns (r: Result<Configuration, ConfigError>)
    ensures r.Failure? <==> Resolve(env, lookup).Failure?
    ensures r.Failure? ==> r.error == Resolve(env, lookup).error
    ensures r.Success? ==> fresh(r.value) && r.value.Snapshot() == Resolve(env, lookup).value
  {
    if env.Failure? {
      return Failure(EnvError(env.error));
    }
    var config := new Configuration(env.value);
    var err := None;
    if config.credhubUrl != "" {
      err := config.CredhubProcess(CredhubPrefix, lookup);
    }
    if err.None? {
      err := config.Validate();
    }
    r := if err.Some? then Failure(err.value) else Success(config);
  }
}
