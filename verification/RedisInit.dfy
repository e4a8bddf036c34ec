/** internal/handlers/redis/redis.go: the Init of the handler that all redis monitors share. */
module RedisInits {
  import opened Collections
  import opened HandlerSettings
  import L = Lifecycles
  import F = ForeignConfigs

  /** conv.ToInt on a text. */
  type IntReader = string -> Option<int>

  /** What the client connects with. */
  datatype Options = Options(addr: string, username: string, password: string, poolSize: int)

  function Get(config: ConfigMap, key: string): string { if key in config then config[key] else "" }

  function PoolSizeOf(toInt: IntReader, config: ConfigMap): Option<int> { toInt(Get(config, "pool_size")) }

  function OptionsOf(toInt: IntReader, config: ConfigMap): Options {
    Options(Get(config, "address") + ":" + Get(config, "port"), Get(config, "username"), Get(config, "password"),
            match PoolSizeOf(toInt, config) case Some(n) => n case None => 0)
  }

  const TEXT_FIELDS: set<string> := {"Address", "Username", "Password", "Port"}

  lemma NoTextFields()
    ensures "PoolSize" !in TEXT_FIELDS && "client" !in TEXT_FIELDS
  {
    assert |"PoolSize"| == |"Username"| == |"Password"| == 8 && "PoolSize"[1] == 'o';
    assert |"client"| == 6;
  }

  /** Init is refused iff the pool size cannot be read; the four texts are assigned by then. */
  function InitOutcome(toInt: IntReader, config: ConfigMap): Outcome {
    if PoolSizeOf(toInt, config).Some? then Accepted else Refused(TEXT_FIELDS)
  }

  /** A text field that was last assigned from `source`. */
  function TextFrom(source: Option<ConfigMap>, key: string): string {
    match source
    case Some(config) => Get(config, key)
    case None => ""
  }

  predicate TextsFrom(s: Settings, address: string, port: string, username: string, password: string) {
    && address == TextFrom(Source(s, "Address"), "address") && port == TextFrom(Source(s, "Port"), "port")
    && username == TextFrom(Source(s, "Username"), "username") && password == TextFrom(Source(s, "Password"), "password")
  }

  predicate ClientFrom(toInt: IntReader, s: Settings, poolSize: int, client: Option<Options>) {
    && (match Source(s, "PoolSize")
        case Some(config) => PoolSizeOf(toInt, config) == Some(poolSize)
        case None => poolSize == 0)
    && (match Source(s, "client")
        case Some(config) => client == Some(OptionsOf(toInt, config))
        case None => client == None)
  }

  /** Where the fields come from after an Init. */
  lemma SourcesAfter(toInt: IntReader, s: Settings, config: ConfigMap)
    ensures var s' := AfterInit(s, config, InitOutcome(toInt, config));
            && (forall field :: field in TEXT_FIELDS ==> Source(s', field) == Some(config))
            && (forall field :: field in {"PoolSize", "client"} ==>
                  Source(s', field) == if PoolSizeOf(toInt, config).Some? then Some(config) else Source(s, field))
  {
    NoTextFields();
    forall field
      ensures var outcome := InitOutcome(toInt, config);
              Source(AfterInit(s, config, outcome), field) == if Assigns(outcome, field) then Some(config) else Source(s, field)
    {
      SourceAfter(s, config, InitOutcome(toInt, config), field);
    }
  }

  lemma FieldsAfter(toInt: IntReader, s: Settings, config: ConfigMap, poolSize: int, client: Option<Options>)
    requires ClientFrom(toInt, s, poolSize, client)
    ensures var s', size := AfterInit(s, config, InitOutcome(toInt, config)), PoolSizeOf(toInt, config);
            && TextsFrom(s', Get(config, "address"), Get(config, "port"), Get(config, "username"), Get(config, "password"))
            && (if size.Some? then ClientFrom(toInt, s', size.value, Some(OptionsOf(toInt, config)))
                else ClientFrom(toInt, s', poolSize, client))
  {
    SourcesAfter(toInt, s, config);
    assert "Address" in TEXT_FIELDS && "Port" in TEXT_FIELDS && "Username" in TEXT_FIELDS && "Password" in TEXT_FIELDS;
  }

  class Instance {
    const toInt: IntReader
    var Address: string
    var Port: string
    var Username: string
    var Password: string
    var PoolSize: int
    var client: Option<Options>
    ghost var settings: Settings

    /** The settings say which configuration each field, and the client, comes from. */
    ghost predicate Valid()
      reads this
    {
      TextsFrom(settings, Address, Port, Username, Password) && ClientFrom(toInt, settings, PoolSize, client)
    }

    constructor (toInt: IntReader)
      ensures Valid() && this.toInt == toInt && settings == UNSET && client == None
    {
      this.toInt := toInt;
      Address, Port, Username, Password, PoolSize, client := "", "", "", "", 0, None;
      settings := UNSET;
    }

    /** The tags of every sample that Gather pushes. */
    function Tags(): map<string, string>
      reads this
    {
      map["address" := Address]
    }

    /** After a refused Init samples are collected over the old client and tagged with the
        new address. */
    method Init(config: ConfigMap) returns (ok: bool)
      requires Valid()
      modifies this
      ensures Valid() && settings == AfterInit(old(settings), config, InitOutcome(toInt, config))
      ensures ok == InitOutcome(toInt, config).Accepted?
      ensures ok ==>
                && toInt(Get(config, "pool_size")) == Some(PoolSize)
                && client == Some(Options(Get(config, "address") + ":" + Get(config, "port"),
                                          Get(config, "username"), Get(config, "password"), PoolSize))
      ensures !ok ==> client == old(client) && PoolSize == old(PoolSize)
      ensures Tags() == map["address" := if "address" in config then config["address"] else ""]
    {
      Address := Get(config, "address");
      Username := Get(config, "username");
      Password := Get(config, "password");
      Port := Get(config, "port");
      FieldsAfter(toInt, settings, config, PoolSize, client);
      settings := AfterInit(settings, config, InitOutcome(toInt, config));
      var size := toInt(Get(config, "pool_size"));
      if size.None? {
        return false;
      }
      PoolSize := size.value;
      client := Some(Options(Address + ":" + Port, Username, Password, PoolSize));
      return true;
    }
  }

  /** Two redis monitors that differ, of which the first can be accepted. */
  predicate Differ(toInt: IntReader, specs: map<string, L.Spec>, a: string, b: string) {
    a in specs && b in specs && specs[a].config != specs[b].config && PoolSizeOf(toInt, specs[a].config).Some?
  }

  /** So among redis monitors one can run without its own configuration iff two differ and
      the pool size of one of them can be read: the other one need not even be accepted. */
  lemma RedisForeignIff(specs: map<string, L.Spec>, toInt: IntReader)
    requires forall name :: name in specs ==> specs[name].job.model == "redis"
    ensures (exists es :: F.Follows(specs, F.Determined((m, config) => InitOutcome(toInt, config)), es)
                       && F.SomeForeign(specs, L.After({"redis"}, es))) <==>
            exists a, b :: Differ(toInt, specs, a, b)
  {
    var init := (m: string, config: ConfigMap) => InitOutcome(toInt, config);
    F.DeterminedForeignIff({"redis"}, specs, init);
    forall a, b
      ensures F.TakesOver({"redis"}, specs, init, a, b) <==> Differ(toInt, specs, a, b)
    {
      assert b in specs ==> F.HasEffect(InitOutcome(toInt, specs[b].config)) by {
        assert "Address" in TEXT_FIELDS;
      }
    }
  }
}
