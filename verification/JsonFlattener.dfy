/** pkg/jsonx/jsonflattener.go: nested objects flattened into one map of fields. */
module JsonFlatteners {
  import opened Collections

  /** What a decoder hands over. `Other` is a value of a type no JSON decoder produces. */
  datatype Json =
    | Object(members: map<string, Json>)
    | Array(elements: seq<Json>)
    | Number(n: real)
    | Text(s: string)
    | Flag(b: bool)
    | Null
    | Other

  /** A value in the fields map; codes are put there by callers, never by flattening. */
  datatype Field = NumberField(n: real) | TextField(s: string) | FlagField(b: bool) | CodeField(code: nat)

  /** The field a value becomes by itself, given which kinds are wanted. */
  function AsField(v: Json, text: bool, flag: bool): Option<Field> {
    match v
    case Number(n) => Some(NumberField(n))
    case Text(s) => if text then Some(TextField(s)) else None
    case Flag(b) => if flag then Some(FlagField(b)) else None
    case _ => None
  }

  // ---- where values are, and what they are called ---------------------------

  /** The value reached through object members; arrays are not entered. */
  function Get(v: Json, path: seq<string>): Option<Json>
    decreases |path|
  {
    if path == [] then Some(v)
    else if v.Object? && path[0] in v.members then Get(v.members[path[0]], path[1..])
    else None
  }

  function Extend(name: string, key: string): string {
    if name != "" then name + "_" + key else key
  }

  function JoinedKey(name: string, path: seq<string>): string
    decreases |path|
  {
    if path == [] then name else JoinedKey(Extend(name, path[0]), path[1..])
  }

  /** An eligible leaf of `v`: `path` leads to a value of a wanted kind. */
  predicate Leaf(v: Json, path: seq<string>, text: bool, flag: bool, field: Field) {
    Get(v, path).Some? && AsField(Get(v, path).value, text, flag) == Some(field)
  }

  /** A leaf of `v` whose joined key is `key`. */
  ghost predicate LeafAt(v: Json, name: string, text: bool, flag: bool, key: string, field: Field) {
    exists path :: Leaf(v, path, text, flag, field) && JoinedKey(name, path) == key
  }

  /** A value of an unexpected type can be reached. */
  ghost predicate Unexpected(v: Json) {
    exists path :: Get(v, path) == Some(Other)
  }

  /** Every field is a leaf's, or an untouched field from before. */
  ghost predicate FromLeaves(before: map<string, Field>, v: Json, name: string, text: bool, flag: bool, after: map<string, Field>) {
    forall key :: key in after ==>
      LeafAt(v, name, text, flag, key, after[key]) || (key in before && after[key] == before[key])
  }

  /** A field from before survives unless a leaf takes its key. */
  ghost predicate Undisturbed(before: map<string, Field>, v: Json, name: string, text: bool, flag: bool, after: map<string, Field>) {
    forall key :: key in before ==>
      key in after && (after[key] == before[key] || LeafAt(v, name, text, flag, key, after[key]))
  }

  /** On success a key that a leaf has holds a leaf's value. */
  ghost predicate Overwrites(v: Json, name: string, text: bool, flag: bool, after: map<string, Field>) {
    forall key, field :: LeafAt(v, name, text, flag, key, field) ==>
      key in after && LeafAt(v, name, text, flag, key, after[key])
  }

  /** The whole contract of one flattening. */
  ghost predicate Flattened(before: map<string, Field>, v: Json, name: string, text: bool, flag: bool, after: map<string, Field>) {
    && FromLeaves(before, v, name, text, flag, after)
    && Undisturbed(before, v, name, text, flag, after)
    && Overwrites(v, name, text, flag, after)
  }

  // ---- members of an object -------------------------------------------------

  lemma MemberLeaf(v: Json, k: string, name: string, text: bool, flag: bool, key: string, field: Field)
    requires v.Object? && k in v.members
    requires LeafAt(v.members[k], Extend(name, k), text, flag, key, field)
    ensures LeafAt(v, name, text, flag, key, field)
  {
    var path :| Leaf(v.members[k], path, text, flag, field) && JoinedKey(Extend(name, k), path) == key;
    var whole := [k] + path;
    assert whole[1..] == path;
    assert Leaf(v, whole, text, flag, field) && JoinedKey(name, whole) == key;
  }

  lemma LeafMember(v: Json, name: string, text: bool, flag: bool, key: string, field: Field) returns (k: string)
    requires v.Object? && LeafAt(v, name, text, flag, key, field)
    ensures k in v.members && LeafAt(v.members[k], Extend(name, k), text, flag, key, field)
  {
    var path :| Leaf(v, path, text, flag, field) && JoinedKey(name, path) == key;
    k := path[0];
    assert Leaf(v.members[k], path[1..], text, flag, field);
  }

  lemma MemberUnexpected(v: Json, k: string)
    requires v.Object? && k in v.members && Unexpected(v.members[k])
    ensures Unexpected(v)
  {
    var path :| Get(v.members[k], path) == Some(Other);
    assert ([k] + path)[1..] == path;
    assert Get(v, [k] + path) == Some(Other);
  }

  lemma UnexpectedMember(v: Json)
    requires v.Object? && Unexpected(v)
    ensures exists k :: k in v.members && Unexpected(v.members[k])
  {
    var path :| Get(v, path) == Some(Other);
    assert Get(v.members[path[0]], path[1..]) == Some(Other);
  }

  /** Each leaf below member `k` finds its key holding the value of a leaf of `v`. */
  ghost predicate Covered(v: Json, k: string, name: string, text: bool, flag: bool, after: map<string, Field>)
    requires v.Object? && k in v.members
  {
    forall key, field :: LeafAt(v.members[k], Extend(name, k), text, flag, key, field) ==>
      key in after && LeafAt(v, name, text, flag, key, after[key])
  }

  lemma MemberFlattened(start: map<string, Field>, before: map<string, Field>, v: Json, k: string,
                        name: string, text: bool, flag: bool, after: map<string, Field>)
    requires v.Object? && k in v.members
    requires FromLeaves(start, v, name, text, flag, before) && Undisturbed(start, v, name, text, flag, before)
    requires FromLeaves(before, v.members[k], Extend(name, k), text, flag, after)
    requires Undisturbed(before, v.members[k], Extend(name, k), text, flag, after)
    ensures FromLeaves(start, v, name, text, flag, after) && Undisturbed(start, v, name, text, flag, after)
  {
    forall key | key in after && LeafAt(v.members[k], Extend(name, k), text, flag, key, after[key])
      ensures LeafAt(v, name, text, flag, key, after[key])
    {
      MemberLeaf(v, k, name, text, flag, key, after[key]);
    }
  }

  lemma MembersCovered(before: map<string, Field>, v: Json, k: string, seen: set<string>,
                       name: string, text: bool, flag: bool, after: map<string, Field>)
    requires v.Object? && k in v.members && seen <= v.members.Keys
    requires forall j :: j in seen ==> Covered(v, j, name, text, flag, before)
    requires Undisturbed(before, v.members[k], Extend(name, k), text, flag, after)
    requires Overwrites(v.members[k], Extend(name, k), text, flag, after)
    ensures forall j :: j in seen + {k} ==> Covered(v, j, name, text, flag, after)
  {
    forall key | key in after && LeafAt(v.members[k], Extend(name, k), text, flag, key, after[key])
      ensures LeafAt(v, name, text, flag, key, after[key])
    {
      MemberLeaf(v, k, name, text, flag, key, after[key]);
    }
  }

  lemma AllCovered(v: Json, name: string, text: bool, flag: bool, after: map<string, Field>)
    requires v.Object? && forall k :: k in v.members ==> Covered(v, k, name, text, flag, after)
    ensures Overwrites(v, name, text, flag, after)
  {
    forall key, field | LeafAt(v, name, text, flag, key, field)
      ensures key in after && LeafAt(v, name, text, flag, key, after[key])
    {
      var k := LeafMember(v, name, text, flag, key, field);
      assert Covered(v, k, name, text, flag, after);
    }
  }

  /** A value that is not an object has at most one leaf: itself. */
  lemma SimpleLeaf(v: Json, name: string, text: bool, flag: bool)
    requires !v.Object?
    ensures forall key, field :: LeafAt(v, name, text, flag, key, field) <==>
              key == name && AsField(v, text, flag) == Some(field)
    ensures Unexpected(v) <==> v == Other
  {
    assert Get(v, []) == Some(v) && JoinedKey(name, []) == name;
    forall key, field
      ensures LeafAt(v, name, text, flag, key, field) <==> key == name && AsField(v, text, flag) == Some(field)
    {
      if key == name && AsField(v, text, flag) == Some(field) {
        assert Leaf(v, [], text, flag, field);
      }
    }
  }

  // ---- what a run can produce -----------------------------------------------

  /** Some run of the flattening, with some visiting order at every object, ends without
      an error and makes the fields `after` out of the fields `before`. */
  ghost predicate Produces(before: map<string, Field>, v: Json, name: string, text: bool, flag: bool, after: map<string, Field>)
    decreases v, 1
  {
    if v.Object? then ProducesVisiting(before, v, v.members.Keys, name, text, flag, after)
    else v != Other && after == if AsField(v, text, flag).Some? then before[name := AsField(v, text, flag).value] else before
  }

  /** The same for visiting the members `keys` of an object, some `last` one at the end. */
  ghost predicate ProducesVisiting(before: map<string, Field>, v: Json, keys: set<string>, name: string, text: bool, flag: bool,
                                   after: map<string, Field>)
    requires v.Object? && keys <= v.members.Keys
    decreases v, 0, keys
  {
    if keys == {} then after == before
    else
      exists last, middle ::
        && last in keys
        && ProducesVisiting(before, v, keys - {last}, name, text, flag, middle)
        && Produces(middle, v.members[last], Extend(name, last), text, flag, after)
  }

  lemma ProducesNext(before: map<string, Field>, v: Json, keys: set<string>, middle: map<string, Field>, k: string,
                     name: string, text: bool, flag: bool, after: map<string, Field>)
    requires v.Object? && keys <= v.members.Keys && k in v.members && k !in keys
    requires ProducesVisiting(before, v, keys, name, text, flag, middle)
    requires Produces(middle, v.members[k], Extend(name, k), text, flag, after)
    ensures ProducesVisiting(before, v, keys + {k}, name, text, flag, after)
  {
    assert keys + {k} - {k} == keys;
  }

  /** Every result a run can produce meets the contract Flattened. */
  lemma {:induction false} ProducedFlattened(before: map<string, Field>, v: Json, name: string, text: bool, flag: bool, after: map<string, Field>)
    requires Produces(before, v, name, text, flag, after)
    ensures Flattened(before, v, name, text, flag, after) && !Unexpected(v)
    decreases v, 1
  {
    if v.Object? {
      ProducedSoFar(before, v, v.members.Keys, name, text, flag, after);
      AllCovered(v, name, text, flag, after);
      if Unexpected(v) {
        UnexpectedMember(v);
      }
    } else {
      SimpleLeaf(v, name, text, flag);
    }
  }

  lemma {:induction false} ProducedSoFar(before: map<string, Field>, v: Json, keys: set<string>, name: string, text: bool, flag: bool,
                                         after: map<string, Field>)
    requires v.Object? && keys <= v.members.Keys && ProducesVisiting(before, v, keys, name, text, flag, after)
    ensures FromLeaves(before, v, name, text, flag, after) && Undisturbed(before, v, name, text, flag, after)
    ensures forall k :: k in keys ==> !Unexpected(v.members[k]) && Covered(v, k, name, text, flag, after)
    decreases v, 0, keys
  {
    if keys != {} {
      var k, middle :| && k in keys
                       && ProducesVisiting(before, v, keys - {k}, name, text, flag, middle)
                       && Produces(middle, v.members[k], Extend(name, k), text, flag, after);
      ProducedSoFar(before, v, keys - {k}, name, text, flag, middle);
      ProducedFlattened(middle, v.members[k], Extend(name, k), text, flag, after);
      MemberFlattened(before, middle, v, k, name, text, flag, after);
      MembersCovered(middle, v, k, keys - {k}, name, text, flag, after);
    }
  }

  class JSONFlattener {
    var Fields: map<string, Field>

    constructor ()
      ensures Fields == map[]
    {
      Fields := map[];
    }

    method FlattenJSON(fieldname: string, v: Json) returns (ok: bool)
      modifies this
      ensures ok <==> !Unexpected(v)
      ensures ok ==> Produces(old(Fields), v, fieldname, false, false, Fields)
      ensures ok ==> Flattened(old(Fields), v, fieldname, false, false, Fields)
    {
      ok := FullFlattenJSON(fieldname, v, false, false);
    }

    /** `ok` is false where the source returns its error. The members of an object are
        visited in any order; the result is one that the chosen orders produce. */
    method FullFlattenJSON(fieldname: string, v: Json, convertString: bool, convertBool: bool) returns (ok: bool)
      modifies this
      ensures ok <==> !Unexpected(v)
      ensures FromLeaves(old(Fields), v, fieldname, convertString, convertBool, Fields)
      ensures Undisturbed(old(Fields), v, fieldname, convertString, convertBool, Fields)
      ensures ok ==> Produces(old(Fields), v, fieldname, convertString, convertBool, Fields)
      ensures ok ==> Overwrites(v, fieldname, convertString, convertBool, Fields)
      decreases v
    {
      if v.Object? {
        var rest := v.members.Keys;
        ghost var visited: set<string> := {};
        while rest != {}
          invariant rest !! visited && rest + visited == v.members.Keys
          invariant ProducesVisiting(old(Fields), v, visited, fieldname, convertString, convertBool, Fields)
          decreases rest
        {
          var k :| k in rest;
          ghost var before := Fields;
          ProducedSoFar(old(Fields), v, visited, fieldname, convertString, convertBool, before);
          ok := FullFlattenJSON(Extend(fieldname, k), v.members[k], convertString, convertBool);
          MemberFlattened(old(Fields), before, v, k, fieldname, convertString, convertBool, Fields);
          if !ok {
            MemberUnexpected(v, k);
            return;
          }
          ProducesNext(old(Fields), v, visited, before, k, fieldname, convertString, convertBool, Fields);
          rest, visited := rest - {k}, visited + {k};
        }
        assert visited == v.members.Keys;
        ProducedFlattened(old(Fields), v, fieldname, convertString, convertBool, Fields);
        return true;
      }
      SimpleLeaf(v, fieldname, convertString, convertBool);
      var field := AsField(v, convertString, convertBool);
      if field.Some? {
        Fields := Fields[fieldname := field.value];
      }
      return v != Other;
    }
  }

  // ---- one result for every iteration order ---------------------------------

  /** Leaves with the same joined key carry the same value. */
  ghost predicate CollisionFree(v: Json, name: string, text: bool, flag: bool) {
    forall key, f, g :: LeafAt(v, name, text, flag, key, f) && LeafAt(v, name, text, flag, key, g) ==> f == g
  }

  /** Without collisions the result is the old fields overwritten by exactly the leaves. */
  lemma ExactFields(before: map<string, Field>, v: Json, name: string, text: bool, flag: bool, after: map<string, Field>)
    requires Flattened(before, v, name, text, flag, after) && CollisionFree(v, name, text, flag)
    ensures forall key, field :: LeafAt(v, name, text, flag, key, field) ==> key in after && after[key] == field
    ensures forall key :: (forall field :: !LeafAt(v, name, text, flag, key, field)) ==>
              (key in after <==> key in before) && (key in before ==> after[key] == before[key])
  {
  }

  predicate Wanted(v: Json, text: bool, flag: bool) { v.Number? || (text && v.Text?) || (flag && v.Flag?) }

  /** The field holds just this value. */
  predicate Stores(field: Field, v: Json) {
    match field
    case NumberField(n) => v == Number(n)
    case TextField(s) => v == Text(s)
    case FlagField(b) => v == Flag(b)
    case CodeField(_) => false
  }

  /** A wanted value at `path` whose key is `key`. */
  ghost predicate ValueAt(v: Json, name: string, text: bool, flag: bool, key: string, value: Json) {
    Wanted(value, text, flag) && exists path :: Get(v, path) == Some(value) && JoinedKey(name, path) == key
  }

  lemma LeafValue(v: Json, name: string, text: bool, flag: bool, key: string, field: Field)
    ensures LeafAt(v, name, text, flag, key, field) <==> exists value :: ValueAt(v, name, text, flag, key, value) && Stores(field, value)
  {
    if LeafAt(v, name, text, flag, key, field) {
      var path :| Leaf(v, path, text, flag, field) && JoinedKey(name, path) == key;
      assert ValueAt(v, name, text, flag, key, Get(v, path).value);
    }
    if value :| ValueAt(v, name, text, flag, key, value) && Stores(field, value) {
      var path :| Get(v, path) == Some(value) && JoinedKey(name, path) == key;
      assert Leaf(v, path, text, flag, field);
    }
  }

  /** Every field is as it was, or stores a wanted value of the tree unchanged. */
  lemma FieldSource(before: map<string, Field>, v: Json, name: string, text: bool, flag: bool, after: map<string, Field>, key: string)
    requires Produces(before, v, name, text, flag, after) && key in after
    ensures (key in before && after[key] == before[key])
         || exists value :: ValueAt(v, name, text, flag, key, value) && Stores(after[key], value)
  {
    ProducedFlattened(before, v, name, text, flag, after);
    LeafValue(v, name, text, flag, key, after[key]);
  }

  /** A wanted value whose key no other path to one has is stored unchanged. */
  lemma ValueStored(before: map<string, Field>, v: Json, name: string, text: bool, flag: bool, after: map<string, Field>, path: seq<string>)
    requires Produces(before, v, name, text, flag, after)
    requires Get(v, path).Some? && Wanted(Get(v, path).value, text, flag)
    requires forall other :: other != path && Get(v, other).Some? && Wanted(Get(v, other).value, text, flag) ==>
               JoinedKey(name, other) != JoinedKey(name, path)
    ensures var key := JoinedKey(name, path);
            key in after && match Get(v, path).value
                            case Number(n) => after[key] == NumberField(n)
                            case Text(s) => after[key] == TextField(s)
                            case Flag(b) => after[key] == FlagField(b)
                            case _ => true
  {
    var key, value := JoinedKey(name, path), Get(v, path).value;
    var field := if value.Number? then NumberField(value.n) else if value.Text? then TextField(value.s) else FlagField(value.b);
    assert ValueAt(v, name, text, flag, key, value) && Stores(field, value);
    LeafValue(v, name, text, flag, key, field);
    assert key in after && LeafAt(v, name, text, flag, key, after[key]) by {
      ProducedFlattened(before, v, name, text, flag, after);
    }
    LeafValue(v, name, text, flag, key, after[key]);
    var stored :| ValueAt(v, name, text, flag, key, stored) && Stores(after[key], stored);
    assert stored == value;
  }

  /** The same where colliding leaves agree. */
  lemma SharedValueStored(before: map<string, Field>, v: Json, name: string, text: bool, flag: bool, after: map<string, Field>,
                          key: string, value: Json, field: Field)
    requires Produces(before, v, name, text, flag, after) && CollisionFree(v, name, text, flag)
    requires ValueAt(v, name, text, flag, key, value) && Stores(field, value)
    ensures key in after && after[key] == field
  {
    LeafValue(v, name, text, flag, key, field);
    ProducedFlattened(before, v, name, text, flag, after);
    ExactFields(before, v, name, text, flag, after);
  }

  /** So any two results agree. */
  lemma OrderIndependent(before: map<string, Field>, v: Json, name: string, text: bool, flag: bool,
                         after1: map<string, Field>, after2: map<string, Field>)
    requires Flattened(before, v, name, text, flag, after1) && Flattened(before, v, name, text, flag, after2)
    requires CollisionFree(v, name, text, flag)
    ensures after1 == after2
  {
  }

  /** A tree without unexpected values can be flattened, and some of its members first. */
  lemma {:induction false} SomeResult(before: map<string, Field>, v: Json, name: string, text: bool, flag: bool)
    returns (after: map<string, Field>)
    requires !Unexpected(v)
    ensures Produces(before, v, name, text, flag, after)
    decreases v, 1
  {
    if v.Object? {
      after := SomeVisit(before, v, v.members.Keys, name, text, flag);
    } else {
      SimpleLeaf(v, name, text, flag);
      after := if AsField(v, text, flag).Some? then before[name := AsField(v, text, flag).value] else before;
    }
  }

  lemma {:induction false} SomeVisit(before: map<string, Field>, v: Json, keys: set<string>, name: string, text: bool, flag: bool)
    returns (after: map<string, Field>)
    requires v.Object? && keys <= v.members.Keys && !Unexpected(v)
    ensures ProducesVisiting(before, v, keys, name, text, flag, after)
    decreases v, 0, keys
  {
    if keys == {} {
      after := before;
    } else {
      var k :| k in keys;
      var middle := SomeVisit(before, v, keys - {k}, name, text, flag);
      if Unexpected(v.members[k]) {
        MemberUnexpected(v, k);
      }
      after := SomeResult(middle, v.members[k], Extend(name, k), text, flag);
    }
  }

  /** Every leaf can win its key: visit the members on its path last, at every level. */
  lemma {:induction false} LeafCanWin(before: map<string, Field>, v: Json, name: string, text: bool, flag: bool, key: string, field: Field)
    returns (after: map<string, Field>)
    requires !Unexpected(v) && LeafAt(v, name, text, flag, key, field)
    ensures Produces(before, v, name, text, flag, after) && key in after && after[key] == field
    decreases v
  {
    if v.Object? {
      var k := LeafMember(v, name, text, flag, key, field);
      var middle := SomeVisit(before, v, v.members.Keys - {k}, name, text, flag);
      if Unexpected(v.members[k]) {
        MemberUnexpected(v, k);
      }
      after := LeafCanWin(middle, v.members[k], Extend(name, k), text, flag, key, field);
    } else {
      SimpleLeaf(v, name, text, flag);
      after := before[key := field];
    }
  }

  ghost predicate OneResult(before: map<string, Field>, v: Json, name: string, text: bool, flag: bool) {
    forall a, b :: Produces(before, v, name, text, flag, a) && Produces(before, v, name, text, flag, b) ==> a == b
  }

  lemma CollisionDecides(before: map<string, Field>, v: Json, name: string, text: bool, flag: bool, key: string, f: Field, g: Field)
    requires !Unexpected(v) && LeafAt(v, name, text, flag, key, f) && LeafAt(v, name, text, flag, key, g) && f != g
    ensures !OneResult(before, v, name, text, flag)
  {
    var a := LeafCanWin(before, v, name, text, flag, key, f);
    var b := LeafCanWin(before, v, name, text, flag, key, g);
    assert a[key] != b[key];
  }

  /** A tree flattens to one result, whatever the orders, iff its leaves do not collide. */
  lemma OneResultIff(before: map<string, Field>, v: Json, name: string, text: bool, flag: bool)
    requires !Unexpected(v)
    ensures CollisionFree(v, name, text, flag) <==> OneResult(before, v, name, text, flag)
  {
    if CollisionFree(v, name, text, flag) {
      forall a, b | Produces(before, v, name, text, flag, a) && Produces(before, v, name, text, flag, b)
        ensures a == b
      {
        ProducedFlattened(before, v, name, text, flag, a);
        ProducedFlattened(before, v, name, text, flag, b);
        OrderIndependent(before, v, name, text, flag, a, b);
      }
    } else {
      var key, f, g :| LeafAt(v, name, text, flag, key, f) && LeafAt(v, name, text, flag, key, g) && f != g;
      CollisionDecides(before, v, name, text, flag, key, f, g);
    }
  }

  /** A tree on which the order decides: either number can end up in "a_b". */
  lemma CollisionAmbiguous(x: real, y: real) returns (first: map<string, Field>, second: map<string, Field>)
    ensures var v := Object(map["a" := Object(map["b" := Number(x)]), "a_b" := Number(y)]);
            && Produces(map[], v, "", false, false, first) && "a_b" in first && first["a_b"] == NumberField(x)
            && Produces(map[], v, "", false, false, second) && "a_b" in second && second["a_b"] == NumberField(y)
  {
    var inner := Object(map["b" := Number(x)]);
    var v := Object(map["a" := inner, "a_b" := Number(y)]);
    assert ["a", "b"][1..] == ["b"] && ["b"][1..] == [];
    assert Leaf(v, ["a", "b"], false, false, NumberField(x)) && JoinedKey("", ["a", "b"]) == "a_b";
    assert Leaf(v, ["a_b"], false, false, NumberField(y)) && JoinedKey("", ["a_b"]) == "a_b";
    if Unexpected(v) {
      UnexpectedMember(v);
      if Unexpected(inner) {
        UnexpectedMember(inner);
        SimpleLeaf(Number(x), "", false, false);
      }
      SimpleLeaf(Number(y), "", false, false);
    }
    first := LeafCanWin(map[], v, "", false, false, "a_b", NumberField(x));
    second := LeafCanWin(map[], v, "", false, false, "a_b", NumberField(y));
  }

  // ---- when keys cannot collide ---------------------------------------------

  predicate Plain(key: string) { key != "" && '_' !in key }

  predicate PlainPath(path: seq<string>) { forall i :: 0 <= i < |path| ==> Plain(path[i]) }

  /** No object key of the tree is empty or has an underscore. */
  ghost predicate PlainKeys(v: Json) {
    forall path :: Get(v, path).Some? ==> PlainPath(path)
  }

  function Suffixes(path: seq<string>): string
    decreases |path|
  {
    if path == [] then "" else "_" + path[0] + Suffixes(path[1..])
  }

  /** Below a non-empty name every further key is appended after an underscore, even an
      empty one; at the top, leading empty keys leave no trace. */
  lemma {:induction false} JoinedKeyMeaning(name: string, path: seq<string>)
    ensures name != "" ==> JoinedKey(name, path) == name + Suffixes(path)
    ensures name == "" && path != [] ==>
              JoinedKey(name, path) == if path[0] == "" then JoinedKey("", path[1..]) else path[0] + Suffixes(path[1..])
    decreases |path|
  {
    if path == [] {
      assert name + "" == name;
    } else {
      JoinedKeyMeaning(Extend(name, path[0]), path[1..]);
      assert name + ("_" + path[0] + Suffixes(path[1..])) == name + "_" + path[0] + Suffixes(path[1..]);
    }
  }

  /** The first `n` characters are free of underscores, and an underscore or the end follows. */
  predicate FirstWord(s: string, n: nat) {
    n <= |s| && (forall i :: 0 <= i < n ==> s[i] != '_') && (n < |s| ==> s[n] == '_')
  }

  lemma KeyIsFirstWord(k: string, p: seq<string>)
    requires Plain(k)
    ensures FirstWord(k + Suffixes(p), |k|)
  {
  }

  lemma OneFirstWord(s: string, n: nat, m: nat)
    requires FirstWord(s, n) && FirstWord(s, m)
    ensures n == m
  {
  }

  /** The first key ends at the first underscore. */
  lemma FirstKey(k: string, p: seq<string>, j: string, q: seq<string>)
    requires Plain(k) && Plain(j) && k + Suffixes(p) == j + Suffixes(q)
    ensures k == j && Suffixes(p) == Suffixes(q)
  {
    var s := k + Suffixes(p);
    KeyIsFirstWord(k, p);
    KeyIsFirstWord(j, q);
    OneFirstWord(s, |k|, |j|);
    assert s[..|k|] == k && s[..|k|] == j;
    assert s[|k|..] == Suffixes(p) && s[|k|..] == Suffixes(q);
  }

  lemma {:induction false} SuffixesInjective(p: seq<string>, q: seq<string>)
    requires PlainPath(p) && PlainPath(q) && Suffixes(p) == Suffixes(q)
    ensures p == q
    decreases |p|
  {
    if p != [] && q != [] {
      var sp, sq := Suffixes(p[1..]), Suffixes(q[1..]);
      assert Suffixes(p)[1..] == p[0] + sp && Suffixes(q)[1..] == q[0] + sq;
      FirstKey(p[0], p[1..], q[0], q[1..]);
      SuffixesInjective(p[1..], q[1..]);
      assert p == [p[0]] + p[1..] && q == [q[0]] + q[1..];
    }
  }

  lemma JoinedKeyInjective(name: string, p: seq<string>, q: seq<string>)
    requires PlainPath(p) && PlainPath(q) && JoinedKey(name, p) == JoinedKey(name, q)
    ensures p == q
  {
    JoinedKeyMeaning(name, p);
    JoinedKeyMeaning(name, q);
    if name != "" {
      assert JoinedKey(name, p)[|name|..] == Suffixes(p) && JoinedKey(name, q)[|name|..] == Suffixes(q);
      SuffixesInjective(p, q);
    } else if p != [] && q != [] {
      FirstKey(p[0], p[1..], q[0], q[1..]);
      SuffixesInjective(p[1..], q[1..]);
      assert p == [p[0]] + p[1..] && q == [q[0]] + q[1..];
    }
  }

  /** A tree with plain keys has no collisions, under any name and for any wanted kinds. */
  lemma PlainKeysCollisionFree(v: Json, name: string, text: bool, flag: bool)
    requires PlainKeys(v)
    ensures CollisionFree(v, name, text, flag)
  {
    forall key, f, g | LeafAt(v, name, text, flag, key, f) && LeafAt(v, name, text, flag, key, g)
      ensures f == g
    {
      var p :| Leaf(v, p, text, flag, f) && JoinedKey(name, p) == key;
      var q :| Leaf(v, q, text, flag, g) && JoinedKey(name, q) == key;
      JoinedKeyInjective(name, p, q);
    }
  }
}
