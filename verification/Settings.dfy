/** What a handler collects with. Every handler keeps one set of fields (address, client,
    connection string, switches ...) that Init assigns one after the other from the
    configuration it is given, and a failing Init returns in the middle: see
    internal/handlers/redis/redis.go:47-77, internal/handlers/mysql/mysql.go:52-101 and
    internal/handlers/postgresql/postgresql.go:71-109. */
module HandlerSettings {
  import opened Collections

  type ConfigMap = map<string, string>

  /** How an Init ends. A refused one has assigned some fields before it returned. */
  datatype Outcome = Accepted | Refused(replaced: set<string>)

  /** The configuration that the last accepted Init assigned to every field, and those
      that refused ones assigned to some fields since. */
  datatype Settings = Settings(base: Option<ConfigMap>, over: map<string, ConfigMap>)

  const UNSET: Settings := Settings(None, map[])

  function AfterInit(s: Settings, cfg: ConfigMap, outcome: Outcome): Settings {
    match outcome
    case Accepted => Settings(Some(cfg), map[])
    case Refused(replaced) => s.(over := s.over + map field | field in replaced :: cfg)
  }

  /** The configuration that a field was last assigned from. */
  function Source(s: Settings, field: string): Option<ConfigMap> {
    if field in s.over then Some(s.over[field]) else s.base
  }

  /** Every field is assigned from `cfg`. */
  ghost predicate RunsWith(s: Settings, cfg: ConfigMap) {
    forall field :: Source(s, field) == Some(cfg)
  }

  predicate Assigns(outcome: Outcome, field: string) { outcome.Accepted? || field in outcome.replaced }

  /** An Init changes where the fields it assigns come from, and no others. */
  lemma SourceAfter(s: Settings, cfg: ConfigMap, outcome: Outcome, field: string)
    ensures Source(AfterInit(s, cfg, outcome), field) == if Assigns(outcome, field) then Some(cfg) else Source(s, field)
  {
  }
}
