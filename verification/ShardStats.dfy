/** internal/handlers/elasticsearch/elasticsearch.go: the fields one shard reports. */
module ShardStats {
  import opened Collections
  import opened JsonFlatteners

  /** The known states of a shard, in the order of their codes. */
  const SHARD_STATES: seq<string> := ["UNASSIGNED", "INITIALIZING", "STARTED", "RELOCATING"]

  /** mapShardStatusToCode; `upper` is strings.ToUpper. A code from 1 says which state it
      is, and 0 is every other text. */
  function ShardStatusCode(upper: string -> string, s: string): (code: nat)
    ensures code <= 4
    ensures code > 0 ==> SHARD_STATES[code - 1] == upper(s)
    ensures code == 0 <==> upper(s) !in SHARD_STATES
  {
    match upper(s)
    case "UNASSIGNED" => 1
    case "INITIALIZING" => 2
    case "STARTED" => 3
    case "RELOCATING" => 4
    case _ => 0
  }

  predicate TextOrFlag(f: Field) { f.TextField? || f.FlagField? }

  /** The shard's fields with routing_primary gone and a textual routing_state coded. */
  function Coded(upper: string -> string, all: map<string, Field>): map<string, Field> {
    var fields := all - {"routing_primary"};
    if "routing_state" in fields && fields["routing_state"].TextField?
    then fields["routing_state" := CodeField(ShardStatusCode(upper, fields["routing_state"].s))]
    else fields
  }

  function WithoutTextAndFlags(fields: map<string, Field>): map<string, Field> {
    map key | key in fields && !TextOrFlag(fields[key]) :: fields[key]
  }

  /** What is pushed, given the shard flattened with strings and bools. */
  function ShardFields(upper: string -> string, all: map<string, Field>): map<string, Field> {
    WithoutTextAndFlags(Coded(upper, all))
  }

  function TextOr(fields: map<string, Field>, key: string, other: string): string {
    if key in fields && fields[key].TextField? then fields[key].s else other
  }

  datatype Shard = Shard(fields: map<string, Field>, primary: bool, node: string)

  /** Deleting entries from the map while ranging over it, in any order. */
  method DeleteTextAndFlags(all: map<string, Field>) returns (fields: map<string, Field>)
    ensures fields == WithoutTextAndFlags(all)
  {
    fields := all;
    var rest := fields.Keys;
    while rest != {}
      invariant rest <= fields.Keys <= all.Keys
      invariant forall key :: key in fields ==> fields[key] == all[key]
      invariant forall key :: key in all && key !in rest ==> (key in fields <==> !TextOrFlag(all[key]))
      decreases rest
    {
      var key :| key in rest;
      rest := rest - {key};
      if TextOrFlag(fields[key]) {
        fields := fields - {key};
      }
    }
  }

  /** Which values are found under which keys. */
  type Finding = (string, Json) -> bool

  /** The values of a shard, each at some path that joins to the key. */
  ghost function ValuesOf(shard: Json): Finding { (key, value) => ValueAt(shard, "", true, true, key, value) }

  ghost predicate PlaceOf(holds: Finding, r: Shard) {
    && (r.primary <==> holds("routing_primary", Flag(true)))
    && (forall s :: holds("routing_node", Text(s)) ==> r.node == s)
    && ((forall s :: !holds("routing_node", Text(s))) ==> r.node == "")
  }

  ghost predicate FieldsOf(upper: string -> string, holds: Finding, fields: map<string, Field>) {
    && (forall key, n :: holds(key, Number(n)) && key != "routing_primary" ==> key in fields && fields[key] == NumberField(n))
    && (forall s :: holds("routing_state", Text(s)) ==>
          "routing_state" in fields && fields["routing_state"] == CodeField(ShardStatusCode(upper, s)))
    && (forall key :: key in fields ==>
          if fields[key].NumberField? then key != "routing_primary" && holds(key, Number(fields[key].n))
          else key == "routing_state" && exists s :: holds(key, Text(s)))
  }

  /** What a shard report says about the tree: the primary flag, the node, every number, and
      the code of a textual routing state. */
  ghost predicate ReportOf(upper: string -> string, shard: Json, r: Shard) {
    PlaceOf(ValuesOf(shard), r) && FieldsOf(upper, ValuesOf(shard), r.fields)
  }

  lemma Stored(shard: Json, all: map<string, Field>, key: string, value: Json, field: Field)
    requires Produces(map[], shard, "", true, true, all) && CollisionFree(shard, "", true, true) && Stores(field, value)
    ensures ValuesOf(shard)(key, value) <==> key in all && all[key] == field
  {
    if ValuesOf(shard)(key, value) {
      SharedValueStored(map[], shard, "", true, true, all, key, value, field);
    }
    if key in all && all[key] == field {
      FieldSource(map[], shard, "", true, true, all, key);
    }
  }

  /** The full flattening holds exactly the values of the shard. */
  ghost predicate Mirrors(holds: Finding, all: map<string, Field>) {
    && (forall key, b :: holds(key, Flag(b)) <==> key in all && all[key] == FlagField(b))
    && (forall key, s :: holds(key, Text(s)) <==> key in all && all[key] == TextField(s))
    && (forall key, n :: holds(key, Number(n)) <==> key in all && all[key] == NumberField(n))
    && (forall key :: key in all ==> !all[key].CodeField?)
  }

  lemma AllStored(shard: Json, all: map<string, Field>)
    requires Produces(map[], shard, "", true, true, all) && CollisionFree(shard, "", true, true)
    ensures Mirrors(ValuesOf(shard), all)
  {
    forall key, b
      ensures ValuesOf(shard)(key, Flag(b)) <==> key in all && all[key] == FlagField(b)
    {
      Stored(shard, all, key, Flag(b), FlagField(b));
    }
    forall key, s
      ensures ValuesOf(shard)(key, Text(s)) <==> key in all && all[key] == TextField(s)
    {
      Stored(shard, all, key, Text(s), TextField(s));
    }
    forall key, n
      ensures ValuesOf(shard)(key, Number(n)) <==> key in all && all[key] == NumberField(n)
    {
      Stored(shard, all, key, Number(n), NumberField(n));
    }
    forall key | key in all
      ensures !all[key].CodeField?
    {
      FieldSource(map[], shard, "", true, true, all, key);
    }
  }

  /** What becomes of the fields: numbers stay, but for routing_primary, and a textual
      routing state is coded. */
  predicate Remaining(upper: string -> string, all: map<string, Field>, fields: map<string, Field>) {
    && (forall key :: key in all && all[key].NumberField? && key != "routing_primary" ==> key in fields && fields[key] == all[key])
    && ("routing_state" in all && all["routing_state"].TextField? ==>
          "routing_state" in fields && fields["routing_state"] == CodeField(ShardStatusCode(upper, all["routing_state"].s)))
    && (forall key :: key in fields ==> key in all && (fields[key].NumberField? ==> key != "routing_primary" && fields[key] == all[key]))
    && (forall key :: key in fields && !fields[key].NumberField? ==> key == "routing_state" && all[key].TextField?)
  }

  lemma ShardFieldsMeaning(upper: string -> string, all: map<string, Field>)
    requires forall key :: key in all ==> !all[key].CodeField?
    ensures Remaining(upper, all, ShardFields(upper, all))
  {
    assert "routing_state"[8] == 's' && "routing_primary"[8] == 'p';
  }

  lemma NodeMeaning(upper: string -> string, all: map<string, Field>)
    ensures TextOr(Coded(upper, all), "routing_node", "") ==
            if "routing_node" in all && all["routing_node"].TextField? then all["routing_node"].s else ""
  {
    assert |"routing_node"| == 12 && |"routing_state"| == 13 && |"routing_primary"| == 15;
  }

  lemma FieldsReported(upper: string -> string, holds: Finding, all: map<string, Field>, fields: map<string, Field>)
    requires Mirrors(holds, all) && Remaining(upper, all, fields)
    ensures FieldsOf(upper, holds, fields)
  {
    forall key | key in fields && fields[key].NumberField?
      ensures holds(key, Number(fields[key].n))
    {
      assert all[key] == NumberField(fields[key].n);
    }
    forall key | key in fields && !fields[key].NumberField?
      ensures holds(key, Text(all[key].s))
    {
      assert all[key] == TextField(all[key].s);
    }
  }

  lemma PlaceReported(holds: Finding, all: map<string, Field>, r: Shard)
    requires Mirrors(holds, all)
    requires r.primary == ("routing_primary" in all && all["routing_primary"] == FlagField(true))
    requires r.node == if "routing_node" in all && all["routing_node"].TextField? then all["routing_node"].s else ""
    ensures PlaceOf(holds, r)
  {
    if "routing_node" in all && all["routing_node"].TextField? {
      assert holds("routing_node", Text(all["routing_node"].s));
    }
  }

  lemma ShardReported(upper: string -> string, shard: Json, all: map<string, Field>, r: Shard)
    requires Produces(map[], shard, "", true, true, all) && CollisionFree(shard, "", true, true)
    requires r.fields == ShardFields(upper, all)
    requires r.primary == ("routing_primary" in all && all["routing_primary"] == FlagField(true))
    requires r.node == TextOr(Coded(upper, all), "routing_node", "")
    ensures ReportOf(upper, shard, r)
  {
    AllStored(shard, all);
    NodeMeaning(upper, all);
    PlaceReported(ValuesOf(shard), all, r);
    ShardFieldsMeaning(upper, all);
    FieldsReported(upper, ValuesOf(shard), all, r.fields);
  }

  /** In a shard whose keys are not empty and have no underscore the flag is routing.primary. */
  lemma PlainShardPrimary(shard: Json, value: Json)
    requires PlainKeys(shard) && Wanted(value, true, true)
    ensures ValuesOf(shard)("routing_primary", value) <==> Get(shard, ["routing", "primary"]) == Some(value)
  {
    var usual := ["routing", "primary"];
    assert JoinedKey("", usual) == "routing_primary" by { assert usual[1..] == ["primary"] && usual[1..][1..] == []; }
    assert Plain("routing") && Plain("primary");
    if ValuesOf(shard)("routing_primary", value) {
      var path :| Get(shard, path) == Some(value) && JoinedKey("", path) == "routing_primary";
      JoinedKeyInjective("", path, usual);
    }
  }

  /** A shard with another key for it: primary, without a routing.primary. */
  lemma OtherShardPrimary()
    ensures var shard := Object(map["routing_primary" := Flag(true)]);
            && CollisionFree(shard, "", true, true) && ValuesOf(shard)("routing_primary", Flag(true))
            && Get(shard, ["routing", "primary"]) == None
  {
    var shard := Object(map["routing_primary" := Flag(true)]);
    assert Get(shard, ["routing_primary"]) == Some(Flag(true)) && JoinedKey("", ["routing_primary"]) == "routing_primary";
    assert |"routing"| == 7 && |"routing_primary"| == 15;
    forall key, f, g | LeafAt(shard, "", true, true, key, f) && LeafAt(shard, "", true, true, key, g)
      ensures f == g
    {
      var j := LeafMember(shard, "", true, true, key, f);
      var k := LeafMember(shard, "", true, true, key, g);
      SimpleLeaf(Flag(true), "routing_primary", true, true);
    }
  }

  /** The shard part of gatherSingleIndexStats. */
  method GatherShard(upper: string -> string, shard: Json) returns (r: Result<Shard>)
    ensures r.Failure? <==> Unexpected(shard)
    ensures r.Success? ==> exists all: map<string, Field> ::
              && Produces(map[], shard, "", true, true, all)
              && r.value.fields == ShardFields(upper, all)
              && r.value.primary == ("routing_primary" in all && all["routing_primary"] == FlagField(true))
              && r.value.node == TextOr(Coded(upper, all), "routing_node", "")
    ensures r.Success? && CollisionFree(shard, "", true, true) ==> ReportOf(upper, shard, r.value)
  {
    var flattened := new JSONFlattener();
    var ok := flattened.FullFlattenJSON("", shard, true, true);
    if !ok {
      return Failure;
    }
    var fields := flattened.Fields;
    ghost var all := fields;
    assert Produces(map[], shard, "", true, true, all);
    var primary := "routing_primary" in fields && fields["routing_primary"] == FlagField(true);
    fields := fields - {"routing_primary"};
    if "routing_state" in fields && fields["routing_state"].TextField? {
      fields := fields["routing_state" := CodeField(ShardStatusCode(upper, fields["routing_state"].s))];
    }
    var node := TextOr(fields, "routing_node", "");
    fields := DeleteTextAndFlags(fields);
    if CollisionFree(shard, "", true, true) {
      ShardReported(upper, shard, all, Shard(fields, primary, node));
    }
    return Success(Shard(fields, primary, node));
  }

  /** A numbers-only flattening sees exactly the number leaves of the full one. */
  lemma NumbersAmongAll(v: Json, name: string, key: string, field: Field)
    ensures LeafAt(v, name, false, false, key, field) <==> LeafAt(v, name, true, true, key, field) && field.NumberField?
  {
    if LeafAt(v, name, false, false, key, field) {
      var path :| Leaf(v, path, false, false, field) && JoinedKey(name, path) == key;
      assert Leaf(v, path, true, true, field);
    }
    if LeafAt(v, name, true, true, key, field) && field.NumberField? {
      var path :| Leaf(v, path, true, true, field) && JoinedKey(name, path) == key;
      assert Leaf(v, path, false, false, field);
    }
  }

  /** The coded routing state, when the shard reports one as a string. */
  function RoutingState(upper: string -> string, all: map<string, Field>): map<string, Field> {
    if "routing_state" in all && all["routing_state"].TextField?
    then map["routing_state" := CodeField(ShardStatusCode(upper, all["routing_state"].s))]
    else map[]
  }

  lemma NumbersOfAll(shard: Json, all: map<string, Field>, numbers: map<string, Field>, key: string)
    requires CollisionFree(shard, "", true, true)
    requires Flattened(map[], shard, "", true, true, all)
    requires Flattened(map[], shard, "", false, false, numbers)
    ensures key in numbers <==> key in all && all[key].NumberField?
    ensures key in numbers ==> numbers[key] == all[key]
    ensures key in all ==> !all[key].CodeField?
  {
    if key in all {
      NumbersAmongAll(shard, "", key, all[key]);
    }
    if key in numbers {
      NumbersAmongAll(shard, "", key, numbers[key]);
    }
  }

  lemma FlattenedShard(upper: string -> string, shard: Json, all: map<string, Field>, numbers: map<string, Field>)
    requires CollisionFree(shard, "", true, true)
    requires Flattened(map[], shard, "", true, true, all)
    requires Flattened(map[], shard, "", false, false, numbers)
    ensures ShardFields(upper, all) == (numbers - {"routing_primary"}) + RoutingState(upper, all)
  {
    var left, right := ShardFields(upper, all), (numbers - {"routing_primary"}) + RoutingState(upper, all);
    forall key
      ensures key in left <==> key in right
      ensures key in left ==> left[key] == right[key]
    {
      NumbersOfAll(shard, all, numbers, key);
    }
  }

  /** On a collision-free shard, deleting strings and bools afterwards equals flattening
      numbers only, without routing_primary, plus the coded routing_state, for whatever
      either flattening produces. */
  lemma ShardRefinement(upper: string -> string, shard: Json, all: map<string, Field>, numbers: map<string, Field>)
    requires CollisionFree(shard, "", true, true)
    requires Produces(map[], shard, "", true, true, all)
    requires Produces(map[], shard, "", false, false, numbers)
    ensures ShardFields(upper, all) == (numbers - {"routing_primary"}) + RoutingState(upper, all)
  {
    ProducedFlattened(map[], shard, "", true, true, all);
    ProducedFlattened(map[], shard, "", false, false, numbers);
    FlattenedShard(upper, shard, all, numbers);
  }
}
