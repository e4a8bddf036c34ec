/** internal/handlers/redis/redis.go: the k=v lines of the INFO reply. */
module RedisLines {
  import opened Collections
  import S = Samples

  // ---- text -----------------------------------------------------------------------

  /** strings.Split by one character. */
  function Split(s: string, sep: char): (parts: seq<string>)
    ensures parts != []
  {
    if s == "" then [""]
    else
      var rest := Split(s[1..], sep);
      if s[0] == sep then [""] + rest else [[s[0]] + rest[0]] + rest[1..]
  }

  function Join(parts: seq<string>, sep: char): string {
    if parts == [] then ""
    else if |parts| == 1 then parts[0]
    else parts[0] + [sep] + Join(parts[1..], sep)
  }

  lemma {:induction false} SplitOne(part: string, sep: char)
    requires sep !in part
    ensures Split(part, sep) == [part]
  {
    if part != "" {
      SplitOne(part[1..], sep);
      assert part == [part[0]] + part[1..];
    }
  }

  lemma {:induction false} SplitFirst(part: string, sep: char, rest: string)
    requires sep !in part
    ensures Split(part + [sep] + rest, sep) == [part] + Split(rest, sep)
  {
    var s := part + [sep] + rest;
    if part == "" {
      assert s[1..] == rest;
    } else {
      SplitFirst(part[1..], sep, rest);
      assert s[1..] == part[1..] + [sep] + rest;
      assert part == [part[0]] + part[1..];
    }
  }

  lemma {:induction false} SplitJoin(parts: seq<string>, sep: char)
    requires parts != [] && forall i :: 0 <= i < |parts| ==> sep !in parts[i]
    ensures Split(Join(parts, sep), sep) == parts
  {
    if |parts| == 1 {
      SplitOne(parts[0], sep);
    } else {
      SplitFirst(parts[0], sep, Join(parts[1..], sep));
      SplitJoin(parts[1..], sep);
      assert parts == [parts[0]] + parts[1..];
    }
  }

  /** Splitting undoes joining only one way round: what was split joins to the text again. */
  lemma {:induction false} JoinSplit(s: string, sep: char)
    ensures Join(Split(s, sep), sep) == s
    ensures forall i :: 0 <= i < |Split(s, sep)| ==> sep !in Split(s, sep)[i]
  {
    if s != "" {
      JoinSplit(s[1..], sep);
      var rest := Split(s[1..], sep);
      assert s == [s[0]] + s[1..];
      if s[0] != sep {
        var parts := [[s[0]] + rest[0]] + rest[1..];
        assert parts[1..] == rest[1..];
        if |rest| > 1 {
          assert Join(parts, sep) == [s[0]] + (rest[0] + [sep] + Join(rest[1..], sep));
        }
      } else {
        assert ([""] + rest)[1..] == rest;
      }
    }
  }

  lemma {:induction false} SplitPieces(s: string, sep: char)
    ensures |Split(s, sep)| >= 2 <==> sep in s
  {
    if s != "" {
      SplitPieces(s[1..], sep);
      assert s == [s[0]] + s[1..];
    }
  }

  /** strings.TrimLeft: characters of the cutset are removed from the front, one by one. */
  function TrimLeft(s: string, cutset: string): string {
    if s != "" && s[0] in cutset then TrimLeft(s[1..], cutset) else s
  }

  /** A front of characters of the cutset is removed, and the rest starts with none of them. */
  lemma {:induction false} TrimLeftMeaning(s: string, cutset: string) returns (front: string)
    ensures s == front + TrimLeft(s, cutset)
    ensures forall i :: 0 <= i < |front| ==> front[i] in cutset
    ensures TrimLeft(s, cutset) != "" ==> TrimLeft(s, cutset)[0] !in cutset
  {
    front := "";
    if s != "" && s[0] in cutset {
      var rest := TrimLeftMeaning(s[1..], cutset);
      front := [s[0]] + rest;
      assert s == [s[0]] + s[1..];
    } else {
      assert "" + s == s;
    }
  }

  // ---- numbers --------------------------------------------------------------------

  const TWO_63: int := 0x8000_0000_0000_0000

  predicate Int64(n: int) { -TWO_63 <= n < TWO_63 }

  predicate Digit(c: char) { '0' <= c <= '9' }

  predicate Digits(s: string) { forall i :: 0 <= i < |s| ==> Digit(s[i]) }

  function Value(digits: string): nat
    requires Digits(digits)
  {
    if digits == "" then 0
    else 10 * Value(digits[..|digits| - 1]) + (digits[|digits| - 1] as int - '0' as int)
  }

  predicate IsSigned(s: string, sign: string, digits: string) {
    s == sign + digits && sign in {"", "+", "-"} && digits != "" && Digits(digits)
  }

  /** strconv.ParseInt(s, 10, 64): an error for other characters or out of range. */
  function ParseInt(s: string): (r: Option<int>)
    ensures r.Some? ==> Int64(r.value)
  {
    var signed := s != "" && (s[0] == '-' || s[0] == '+');
    var digits := if signed then s[1..] else s;
    if digits == "" || !Digits(digits) then None
    else
      var n := if signed && s[0] == '-' then -(Value(digits) as int) else Value(digits) as int;
      if Int64(n) then Some(n) else None
  }

  predicate Worth(s: string, sign: string, digits: string, n: int) {
    IsSigned(s, sign, digits) && Int64(n) && n == if sign == "-" then -(Value(digits) as int) else Value(digits) as int
  }

  lemma OneSign(s: string, sign: string, digits: string)
    requires IsSigned(s, sign, digits)
    ensures var signed := s[0] == '-' || s[0] == '+';
            && s != "" && sign == (if signed then [s[0]] else "") && digits == (if signed then s[1..] else s)
  {
    assert Digit(digits[0]);
    if sign == "" {
      assert s == digits;
    } else {
      assert s[0] == sign[0] && s[1..] == digits && sign == [sign[0]];
    }
  }

  /** A sign or none, digits, and what they are worth if that is an int64; nothing else is read. */
  lemma ParseIntMeaning(s: string, n: int)
    ensures ParseInt(s) == Some(n) <==> exists sign, digits :: Worth(s, sign, digits, n)
  {
    if sign, digits :| Worth(s, sign, digits, n) {
      OneSign(s, sign, digits);
    }
    if ParseInt(s) == Some(n) {
      if s[0] == '-' || s[0] == '+' {
        assert s == [s[0]] + s[1..] && ([s[0]] == "-" <==> s[0] == '-');
        assert [s[0]] in {"", "+", "-"};
        assert Worth(s, [s[0]], s[1..], n);
      } else {
        assert s == "" + s;
        assert Worth(s, "", s, n);
      }
    }
  }

  function PrintNat(n: nat): (s: string)
    ensures s != "" && Digits(s)
  {
    var last := [('0' as int + n % 10) as char];
    if n < 10 then last else PrintNat(n / 10) + last
  }

  function PrintInt(n: int): string { if n < 0 then "-" + PrintNat(-n) else PrintNat(n) }

  lemma {:induction false} ValuePrinted(n: nat)
    ensures Value(PrintNat(n)) == n
  {
    var last := ('0' as int + n % 10) as char;
    if n >= 10 {
      ValuePrinted(n / 10);
      var s := PrintNat(n / 10) + [last];
      assert s[..|s| - 1] == PrintNat(n / 10);
    } else {
      assert [last][..0] == "";
    }
  }

  lemma ParsePrinted(n: int)
    requires Int64(n)
    ensures ParseInt(PrintInt(n)) == Some(n)
    ensures ',' !in PrintInt(n) && '=' !in PrintInt(n)
  {
    var digits := PrintNat(if n < 0 then -n else n);
    ValuePrinted(if n < 0 then -n else n);
    assert Digit(digits[0]);
    if n < 0 {
      assert PrintInt(n)[1..] == digits;
    }
  }

  // ---- the split loops ------------------------------------------------------------

  type Fields = map<string, int>

  function SetInt(fields: Fields, key: string, text: string): Fields {
    if ParseInt(text).Some? then fields[key := ParseInt(text).value] else fields
  }

  /** What the keyspace loop makes of the parts, provided each has a '='. */
  function KeyspaceFields(parts: seq<string>): Fields
    requires forall i :: 0 <= i < |parts| ==> '=' in parts[i]
  {
    if parts == [] then map[]
    else
      var last := parts[|parts| - 1];
      SplitPieces(last, '=');
      SetInt(KeyspaceFields(parts[..|parts| - 1]), Split(last, '=')[0], Split(last, '=')[1])
  }

  predicate AllHaveValue(line: string) {
    forall i :: 0 <= i < |Split(line, ',')| ==> '=' in Split(line, ',')[i]
  }

  /** The split loop of gatherKeyspaceLine. It takes the second piece of every part without checking that
      there is one: Failure is the resulting panic. It happens exactly for a line with
      "keys=" in it that has a part without '='. */
  method ParseKeyspaceLine(line: string) returns (r: Result<Fields>)
    ensures r.Failure? <==> Contains(line, "keys=") && !AllHaveValue(line)
    ensures r.Success? ==> r.value == if Contains(line, "keys=") then KeyspaceFields(Split(line, ',')) else map[]
  {
    var fields: Fields := map[];
    if !Contains(line, "keys=") {
      return Success(fields);
    }
    var parts := Split(line, ',');
    for i := 0 to |parts|
      invariant forall j :: 0 <= j < i ==> '=' in parts[j]
      invariant fields == KeyspaceFields(parts[..i])
    {
      var kv := Split(parts[i], '=');
      SplitPieces(parts[i], '=');
      if |kv| < 2 {
        return Failure;
      }
      assert parts[..i + 1][..i] == parts[..i];
      fields := SetInt(fields, kv[0], kv[1]);
    }
    assert parts[..|parts|] == parts;
    return Success(fields);
  }

  /** One sample for each field, with those tags. */
  ghost predicate Published(family: string, fields: Fields, tags: S.LabelMap, keys: seq<string>, vs: seq<S.Sample?>)
    reads set v | v in vs && v != null
  {
    && |vs| == |keys| == |fields| && (forall key :: key in keys <==> key in fields)
    && forall i :: 0 <= i < |vs| ==> S.Made(vs[i], "redis", family + keys[i], S.Integer(fields[keys[i]]), [tags])
  }

  /** The loop over the fields, in any order. */
  method Publish(slist: S.SampleList, family: string, fields: Fields, tags: S.LabelMap) returns (keys: seq<string>, vs: seq<S.Sample?>)
    modifies slist
    ensures slist.Fifo() == old(slist.Fifo()) + vs
    ensures Published(family, fields, tags, keys, vs) && forall v :: v in vs ==> fresh(v)
  {
    keys, vs := [], [];
    var rest := fields.Keys;
    while rest != {}
      invariant rest <= fields.Keys && |vs| == |keys| == |fields| - |rest|
      invariant slist.Fifo() == old(slist.Fifo()) + vs
      invariant forall key :: key in keys <==> key in fields && key !in rest
      invariant forall v :: v in vs ==> fresh(v)
      invariant forall i :: 0 <= i < |vs| ==>
                  keys[i] in keys && vs[i] in vs && S.Made(vs[i], "redis", family + keys[i], S.Integer(fields[keys[i]]), [tags])
      decreases rest
    {
      var key :| key in rest;
      var v := S.NewSample("redis", family + key, S.Integer(fields[key]), [tags]);
      slist.PushFront(v);
      rest := rest - {key};
      keys, vs := keys + [key], vs + [v];
    }
  }

  /** What the keyspace line stands for, when it does not panic. */
  function KeyspaceOf(line: string): Fields
    requires Contains(line, "keys=") ==> AllHaveValue(line)
  {
    if Contains(line, "keys=") then KeyspaceFields(Split(line, ',')) else map[]
  }

  /** gatherKeyspaceLine: one sample for each field, tagged with the database. */
  method GatherKeyspaceLine(name: string, line: string, slist: S.SampleList, globalTags: S.LabelMap)
    returns (panics: bool, keys: seq<string>, vs: seq<S.Sample?>)
    modifies slist
    ensures panics <==> Contains(line, "keys=") && !AllHaveValue(line)
    ensures slist.Fifo() == old(slist.Fifo()) + vs && (panics ==> vs == []) && forall v :: v in vs ==> fresh(v)
    ensures !panics ==> Published("keyspace_", KeyspaceOf(line), globalTags["db" := name], keys, vs)
  {
    keys, vs := [], [];
    var fields := ParseKeyspaceLine(line);
    panics := fields.Failure?;
    if !panics {
      keys, vs := Publish(slist, "keyspace_", fields.value, globalTags["db" := name]);
    }
  }

  /** A line on which it panics. */
  lemma KeyspacePanics()
    ensures Contains("keys=1,x", "keys=") && !AllHaveValue("keys=1,x")
  {
    SplitOne("x", ',');
    SplitFirst("keys=1", ',', "x");
    assert "keys=1" + "," + "x" == "keys=1,x";
    assert Split("keys=1,x", ',')[1] == "x";
  }

  /** The parts of the form k=v, with exactly one '='. */
  function Pairs(parts: seq<string>): seq<(string, string)> {
    if parts == [] then []
    else
      var kv := Split(parts[|parts| - 1], '=');
      Pairs(parts[..|parts| - 1]) + if |kv| == 2 then [(kv[0], kv[1])] else []
  }

  datatype Replica = Replica(id: string, ip: Option<string>, port: Option<string>, fields: Fields)

  /** One k=v of a replication line. */
  function AddPair(r: Replica, kv: (string, string)): Replica {
    match kv.0
    case "ip" => r.(ip := Some(kv.1))
    case "port" => r.(port := Some(kv.1))
    case "state" => r
    case _ => r.(fields := SetInt(r.fields, kv.0, kv.1))
  }

  function AddPairs(r: Replica, pairs: seq<(string, string)>): Replica {
    if pairs == [] then r else AddPair(AddPairs(r, pairs[..|pairs| - 1]), pairs[|pairs| - 1])
  }

  lemma PairsSnoc(r: Replica, parts: seq<string>, part: string)
    ensures var kv := Split(part, '=');
            AddPairs(r, Pairs(parts + [part])) ==
            if |kv| == 2 then AddPair(AddPairs(r, Pairs(parts)), (kv[0], kv[1])) else AddPairs(r, Pairs(parts))
  {
    var kv, before := Split(part, '='), Pairs(parts);
    assert (parts + [part])[..|parts|] == parts;
    if |kv| == 2 {
      assert (before + [(kv[0], kv[1])])[..|before|] == before;
    } else {
      assert before + [] == before;
    }
  }

  const TAG_KEYS: set<string> := {"ip", "port", "state"}

  /** The last pair with that key says `text`. */
  predicate LastText(pairs: seq<(string, string)>, key: string, text: string) {
    exists i :: 0 <= i < |pairs| && pairs[i] == (key, text) && forall j :: i < j < |pairs| ==> pairs[j].0 != key
  }

  /** Of the pairs with that key whose text is a number, the last one says `n`. */
  predicate LastNumber(pairs: seq<(string, string)>, key: string, n: int) {
    exists i :: 0 <= i < |pairs| && pairs[i].0 == key && ParseInt(pairs[i].1) == Some(n)
      && forall j :: i < j < |pairs| && pairs[j].0 == key ==> ParseInt(pairs[j].1) == None
  }

  predicate HasKey(pairs: seq<(string, string)>, key: string) { exists i :: 0 <= i < |pairs| && pairs[i].0 == key }

  predicate HasNumber(pairs: seq<(string, string)>, key: string) {
    exists i :: 0 <= i < |pairs| && pairs[i].0 == key && ParseInt(pairs[i].1).Some?
  }

  /** `tag` is the last text given to the key, if there is one. */
  ghost predicate TagOf(pairs: seq<(string, string)>, key: string, tag: Option<string>) {
    if HasKey(pairs, key) then tag.Some? && LastText(pairs, key, tag.value) else tag == None
  }

  /** The fields are the keys other than ip, port and state that were given a number,
      each with the last one. */
  ghost predicate FieldsOf(pairs: seq<(string, string)>, fields: Fields) {
    && (forall key :: key in fields <==> key !in TAG_KEYS && HasNumber(pairs, key))
    && (forall key :: key in fields ==> LastNumber(pairs, key, fields[key]))
  }

  /** What the pairs of a replication line say about the replica. */
  ghost predicate Describes(pairs: seq<(string, string)>, r: Replica) {
    TagOf(pairs, "ip", r.ip) && TagOf(pairs, "port", r.port) && FieldsOf(pairs, r.fields)
  }

  lemma TagNext(pairs: seq<(string, string)>, kv: (string, string), key: string, tag: Option<string>)
    requires TagOf(pairs, key, tag)
    ensures TagOf(pairs + [kv], key, if kv.0 == key then Some(kv.1) else tag)
  {
    var all := pairs + [kv];
    assert all[|pairs|] == kv;
    if kv.0 != key && HasKey(pairs, key) {
      var i :| 0 <= i < |pairs| && pairs[i] == (key, tag.value) && forall j :: i < j < |pairs| ==> pairs[j].0 != key;
      assert all[i] == pairs[i];
    }
  }

  lemma NumberNext(pairs: seq<(string, string)>, kv: (string, string), key: string)
    ensures HasNumber(pairs + [kv], key) <==> HasNumber(pairs, key) || (kv.0 == key && ParseInt(kv.1).Some?)
    ensures kv.0 == key && ParseInt(kv.1).Some? ==> LastNumber(pairs + [kv], key, ParseInt(kv.1).value)
    ensures !(kv.0 == key && ParseInt(kv.1).Some?) ==> forall n :: LastNumber(pairs, key, n) ==> LastNumber(pairs + [kv], key, n)
  {
    var all := pairs + [kv];
    assert all[|pairs|] == kv;
    if HasNumber(pairs, key) {
      var i :| 0 <= i < |pairs| && pairs[i].0 == key && ParseInt(pairs[i].1).Some?;
      assert all[i] == pairs[i];
    }
    if !(kv.0 == key && ParseInt(kv.1).Some?) {
      forall n | LastNumber(pairs, key, n)
        ensures LastNumber(all, key, n)
      {
        var i :| 0 <= i < |pairs| && pairs[i].0 == key && ParseInt(pairs[i].1) == Some(n)
          && forall j :: i < j < |pairs| && pairs[j].0 == key ==> ParseInt(pairs[j].1) == None;
        assert all[i] == pairs[i];
      }
    }
  }

  lemma DescribesNext(pairs: seq<(string, string)>, kv: (string, string), r: Replica)
    requires Describes(pairs, r)
    ensures Describes(pairs + [kv], AddPair(r, kv))
  {
    TagNext(pairs, kv, "ip", r.ip);
    TagNext(pairs, kv, "port", r.port);
    forall key
      ensures key in AddPair(r, kv).fields <==> key !in TAG_KEYS && HasNumber(pairs + [kv], key)
      ensures key in AddPair(r, kv).fields ==> LastNumber(pairs + [kv], key, AddPair(r, kv).fields[key])
    {
      NumberNext(pairs, kv, key);
    }
  }

  /** The loop's result is described by the pairs of the line. */
  lemma {:induction false} PairsDescribe(r: Replica, pairs: seq<(string, string)>)
    requires r.ip == r.port == None && r.fields == map[]
    ensures Describes(pairs, AddPairs(r, pairs)) && AddPairs(r, pairs).id == r.id
  {
    if pairs != [] {
      var n := |pairs| - 1;
      PairsDescribe(r, pairs[..n]);
      DescribesNext(pairs[..n], pairs[n], AddPairs(r, pairs[..n]));
      assert pairs == pairs[..n] + [pairs[n]];
    }
  }

  lemma OneTag(pairs: seq<(string, string)>, key: string, a: Option<string>, b: Option<string>)
    requires TagOf(pairs, key, a) && TagOf(pairs, key, b)
    ensures a == b
  {
  }

  lemma OneNumber(pairs: seq<(string, string)>, key: string, a: int, b: int)
    requires LastNumber(pairs, key, a) && LastNumber(pairs, key, b)
    ensures a == b
  {
  }

  lemma SameFields(pairs: seq<(string, string)>, a: Fields, b: Fields)
    requires FieldsOf(pairs, a) && FieldsOf(pairs, b)
    ensures a == b
  {
    forall key
      ensures key in a <==> key in b
      ensures key in a ==> a[key] == b[key]
    {
      if key in a {
        OneNumber(pairs, key, a[key], b[key]);
      }
    }
  }

  /** There is only one replica that the pairs describe. */
  lemma OneDescription(pairs: seq<(string, string)>, a: Replica, b: Replica)
    requires Describes(pairs, a) && Describes(pairs, b) && a.id == b.id
    ensures a == b
  {
    OneTag(pairs, "ip", a.ip, b.ip);
    OneTag(pairs, "port", a.port, b.port);
    SameFields(pairs, a.fields, b.fields);
  }

  function NewReplica(name: string): Replica { Replica(TrimLeft(name, "slave"), None, None, map[]) }

  /** The split loop of gatherReplicationLine: parts that are not of the form k=v are skipped; ip and port
      are the last texts given to them, and each other key but state has the last number
      given to it. */
  method ParseReplicationLine(name: string, line: string) returns (r: Replica)
    ensures r.id == TrimLeft(name, "slave") && Describes(Pairs(Split(line, ',')), r)
    ensures r == AddPairs(NewReplica(name), Pairs(Split(line, ',')))
  {
    r := NewReplica(name);
    ghost var start := r;
    var parts := Split(line, ',');
    for i := 0 to |parts|
      invariant r == AddPairs(start, Pairs(parts[..i]))
    {
      var kv := Split(parts[i], '=');
      assert parts[..i + 1] == parts[..i] + [parts[i]];
      PairsSnoc(start, parts[..i], parts[i]);
      if |kv| == 2 {
        r := AddPair(r, (kv[0], kv[1]));
      }
    }
    assert parts[..|parts|] == parts;
    PairsDescribe(start, Pairs(parts));
  }

  /** The tags of a replica's samples. */
  function ReplicaTags(globalTags: S.LabelMap, r: Replica): S.LabelMap {
    globalTags["replica_id" := r.id]
    + (if r.ip.Some? then map["replica_ip" := r.ip.value] else map[])
    + (if r.port.Some? then map["replica_port" := r.port.value] else map[])
  }

  /** The id, the ip and the port are set as far as they are known; other tags stay. */
  lemma ReplicaTagsMeaning(globalTags: S.LabelMap, r: Replica)
    ensures var tags := ReplicaTags(globalTags, r);
            && "replica_id" in tags && tags["replica_id"] == r.id
            && (r.ip.Some? ==> "replica_ip" in tags && tags["replica_ip"] == r.ip.value)
            && (r.port.Some? ==> "replica_port" in tags && tags["replica_port"] == r.port.value)
            && forall key :: key != "replica_id" && (key == "replica_ip" ==> r.ip == None) && (key == "replica_port" ==> r.port == None) ==>
                 (key in tags <==> key in globalTags) && (key in tags ==> tags[key] == globalTags[key])
  {
    assert |"replica_id"| == |"replica_ip"| == 10 && "replica_id"[9] == 'd' && |"replica_port"| == 12;
  }

  /** gatherReplicationLine: one sample for each field, tagged with the replica. */
  method GatherReplicationLine(name: string, line: string, slist: S.SampleList, globalTags: S.LabelMap)
    returns (r: Replica, keys: seq<string>, vs: seq<S.Sample?>)
    modifies slist
    ensures r.id == TrimLeft(name, "slave") && Describes(Pairs(Split(line, ',')), r)
    ensures slist.Fifo() == old(slist.Fifo()) + vs && forall v :: v in vs ==> fresh(v)
    ensures Published("replication_", r.fields, ReplicaTags(globalTags, r), keys, vs)
  {
    r := ParseReplicationLine(name, line);
    keys, vs := Publish(slist, "replication_", r.fields, ReplicaTags(globalTags, r));
  }

  // ---- round trips ------------------------------------------------------------------

  predicate SeparatorFree(s: string) { ',' !in s && '=' !in s }

  lemma PairSplit(key: string, text: string)
    requires SeparatorFree(key) && SeparatorFree(text)
    ensures Split(key + "=" + text, '=') == [key, text] && ',' !in key + "=" + text && '=' in key + "=" + text
  {
    SplitFirst(key, '=', text);
    SplitOne(text, '=');
    assert (key + "=" + text)[|key|] == '=';
  }

  /** The last write to each key. */
  function LastWrites(entries: seq<(string, int)>): Fields {
    if entries == [] then map[]
    else
      var last := entries[|entries| - 1];
      LastWrites(entries[..|entries| - 1])[last.0 := last.1]
  }

  predicate Printable(entries: seq<(string, int)>) {
    forall i :: 0 <= i < |entries| ==> SeparatorFree(entries[i].0) && Int64(entries[i].1)
  }

  function PrintEntries(entries: seq<(string, int)>): seq<string> {
    seq(|entries|, i requires 0 <= i < |entries| => entries[i].0 + "=" + PrintInt(entries[i].1))
  }

  lemma EntryPrinted(key: string, n: int)
    requires SeparatorFree(key) && Int64(n)
    ensures var part := key + "=" + PrintInt(n);
            Split(part, '=') == [key, PrintInt(n)] && ',' !in part && '=' in part && ParseInt(PrintInt(n)) == Some(n)
  {
    ParsePrinted(n);
    PairSplit(key, PrintInt(n));
  }

  lemma {:induction false} EntriesRead(entries: seq<(string, int)>)
    requires Printable(entries)
    ensures forall i :: 0 <= i < |entries| ==> '=' in PrintEntries(entries)[i] && ',' !in PrintEntries(entries)[i]
    ensures KeyspaceFields(PrintEntries(entries)) == LastWrites(entries)
  {
    forall i | 0 <= i < |entries|
      ensures '=' in PrintEntries(entries)[i] && ',' !in PrintEntries(entries)[i]
    {
      EntryPrinted(entries[i].0, entries[i].1);
    }
    if entries != [] {
      var n := |entries| - 1;
      EntriesRead(entries[..n]);
      EntryPrinted(entries[n].0, entries[n].1);
      assert PrintEntries(entries)[..n] == PrintEntries(entries[..n]);
    }
  }

  predicate EndsWith(s: string, end: string) { |end| <= |s| && s[|s| - |end|..] == end }

  /** Whether the line counts as a keyspace line is decided by its keys. */
  predicate HasKeys(entries: seq<(string, int)>) {
    exists i :: 0 <= i < |entries| && EndsWith(entries[i].0, "keys")
  }

  lemma KeysFirst(key: string, after: string)
    requires '=' !in key
    ensures "keys=" <= key + "=" + after <==> key == "keys"
  {
    var s := key + "=" + after;
    assert s[|key|] == '=' && s[..|key|] == key;
    if "keys=" <= s {
      assert s[4] == '=' && s[..4] == "keys";
      assert forall i :: 0 <= i < |key| ==> s[i] == key[i];
    }
  }

  lemma EndsWithNext(s: string, end: string)
    requires s != ""
    ensures EndsWith(s, end) <==> s == end || EndsWith(s[1..], end)
  {
    if |end| < |s| {
      assert s[1..][|s| - 1 - |end|..] == s[|s| - |end|..];
    } else if |end| == |s| {
      assert s[0..] == s;
    }
  }

  lemma {:induction false} KeysInKey(key: string, after: string)
    requires '=' !in key
    ensures Contains(key + "=" + after, "keys=") <==> EndsWith(key, "keys") || Contains(after, "keys=")
  {
    var s, word := key + "=" + after, "keys=";
    KeysFirst(key, after);
    if key == "" {
      assert s[1..] == after;
    } else {
      KeysInKey(key[1..], after);
      EndsWithNext(key, "keys");
      assert s[1..] == key[1..] + "=" + after;
      assert Contains(s, word) <==> word <= s || Contains(s[1..], word);
    }
  }

  lemma {:induction false} KeysAfter(before: string, after: string)
    requires 'k' !in before
    ensures Contains(before + after, "keys=") <==> Contains(after, "keys=")
  {
    var s := before + after;
    if before == "" {
      assert s == after;
    } else {
      KeysAfter(before[1..], after);
      assert s[1..] == before[1..] + after && s[0] == before[0];
    }
  }

  lemma KeysInEntry(key: string, n: int, rest: string)
    requires '=' !in key && Int64(n)
    ensures Contains(key + "=" + PrintInt(n) + "," + rest, "keys=") <==> EndsWith(key, "keys") || Contains(rest, "keys=")
  {
    var text := PrintInt(n);
    assert key + "=" + text + "," + rest == key + "=" + (text + "," + rest);
    KeysInKey(key, text + "," + rest);
    KeysAfter(text + ",", rest);
  }

  lemma KeysInLast(key: string, n: int)
    requires '=' !in key && Int64(n)
    ensures Contains(key + "=" + PrintInt(n), "keys=") <==> EndsWith(key, "keys")
  {
    KeysInKey(key, PrintInt(n));
    KeysAfter(PrintInt(n), "");
    assert PrintInt(n) + "" == PrintInt(n);
  }

  lemma HasKeysNext(entries: seq<(string, int)>)
    requires entries != []
    ensures HasKeys(entries) <==> EndsWith(entries[0].0, "keys") || HasKeys(entries[1..])
  {
    if HasKeys(entries[1..]) {
      var i :| 0 <= i < |entries[1..]| && EndsWith(entries[1..][i].0, "keys");
      assert entries[1..][i] == entries[i + 1];
    }
    if HasKeys(entries) {
      var i :| 0 <= i < |entries| && EndsWith(entries[i].0, "keys");
      assert i > 0 ==> entries[1..][i - 1] == entries[i];
    }
  }

  lemma KeysNext(entry: (string, int), entries: seq<(string, int)>)
    requires SeparatorFree(entry.0) && Int64(entry.1) && entries != []
    ensures Contains(Join(PrintEntries([entry] + entries), ','), "keys=") <==>
              EndsWith(entry.0, "keys") || Contains(Join(PrintEntries(entries), ','), "keys=")
  {
    var all := [entry] + entries;
    assert PrintEntries(all)[1..] == PrintEntries(entries);
    assert PrintEntries(all)[0] == entry.0 + "=" + PrintInt(entry.1);
    KeysInEntry(entry.0, entry.1, Join(PrintEntries(entries), ','));
  }

  lemma {:induction false} KeysInLine(entries: seq<(string, int)>)
    requires entries != [] && Printable(entries)
    ensures Contains(Join(PrintEntries(entries), ','), "keys=") <==> HasKeys(entries)
  {
    HasKeysNext(entries);
    if |entries| == 1 {
      KeysInLast(entries[0].0, entries[0].1);
    } else {
      KeysInLine(entries[1..]);
      KeysNext(entries[0], entries[1..]);
      assert [entries[0]] + entries[1..] == entries;
    }
  }

  /** Printing entries with separator-free keys and int64 values as k=v joined by commas
      and reading them back gives the last write to each key, without a panic; the line
      passes the guard of the keyspace loop iff some key ends in "keys". */
  lemma KeyspaceRoundTrip(entries: seq<(string, int)>)
    requires entries != [] && Printable(entries)
    ensures var line := Join(PrintEntries(entries), ',');
            && AllHaveValue(line) && KeyspaceFields(Split(line, ',')) == LastWrites(entries)
            && (Contains(line, "keys=") <==> HasKeys(entries))
  {
    KeysInLine(entries);
    EntriesRead(entries);
    SplitJoin(PrintEntries(entries), ',');
  }

  /** Entries with distinct keys are a map in some order; its last writes are the map. */
  lemma {:induction false} LastWritesOfMap(entries: seq<(string, int)>, m: Fields)
    requires forall i, j :: 0 <= i < j < |entries| ==> entries[i].0 != entries[j].0
    requires forall i :: 0 <= i < |entries| ==> entries[i].0 in m && m[entries[i].0] == entries[i].1
    requires forall key :: key in m ==> exists i :: 0 <= i < |entries| && entries[i].0 == key
    ensures LastWrites(entries) == m
  {
    if entries != [] {
      var n := |entries| - 1;
      var smaller := m - {entries[n].0};
      forall key | key in smaller
        ensures exists i :: 0 <= i < |entries[..n]| && entries[..n][i].0 == key
      {
        var i :| 0 <= i < |entries| && entries[i].0 == key;
        assert entries[..n][i].0 == key;
      }
      LastWritesOfMap(entries[..n], smaller);
    }
  }

  /** What may stand between two commas of a replication line: a number for a field, a
      text for a tag (or one that is no number), or something not of the form k=v. */
  datatype Piece = NumberPiece(key: string, n: int) | TextPiece(key: string, text: string) | OddPiece(part: string)

  predicate PieceOk(piece: Piece) {
    match piece
    case NumberPiece(key, n) => SeparatorFree(key) && key !in TAG_KEYS && Int64(n)
    case TextPiece(key, text) => SeparatorFree(key) && SeparatorFree(text) && (key in TAG_KEYS || ParseInt(text) == None)
    case OddPiece(part) => ',' !in part && |Split(part, '=')| != 2
  }

  function PrintPiece(piece: Piece): string {
    match piece
    case NumberPiece(key, n) => key + "=" + PrintInt(n)
    case TextPiece(key, text) => key + "=" + text
    case OddPiece(part) => part
  }

  function PrintPieces(pieces: seq<Piece>): (parts: seq<string>)
    ensures |parts| == |pieces|
  {
    seq(|pieces|, i requires 0 <= i < |pieces| => PrintPiece(pieces[i]))
  }

  function Numbers(pieces: seq<Piece>): seq<(string, int)> {
    if pieces == [] then []
    else
      var last := pieces[|pieces| - 1];
      Numbers(pieces[..|pieces| - 1]) + if last.NumberPiece? then [(last.key, last.n)] else []
  }

  /** The last text printed for a key. */
  function LastTextOf(pieces: seq<Piece>, key: string): Option<string> {
    if pieces == [] then None
    else
      var last := pieces[|pieces| - 1];
      if last.TextPiece? && last.key == key then Some(last.text) else LastTextOf(pieces[..|pieces| - 1], key)
  }

  lemma LastWritesNext(entries: seq<(string, int)>, entry: (string, int))
    ensures LastWrites(entries + [entry]) == LastWrites(entries)[entry.0 := entry.1]
  {
    assert (entries + [entry])[..|entries|] == entries;
  }

  /** What reading a replica's printed pieces should give. */
  function Expected(name: string, pieces: seq<Piece>): Replica {
    Replica(TrimLeft(name, "slave"), LastTextOf(pieces, "ip"), LastTextOf(pieces, "port"), LastWrites(Numbers(pieces)))
  }

  /** What one piece changes. */
  function AddPiece(r: Replica, piece: Piece): Replica {
    match piece
    case NumberPiece(key, n) => r.(fields := r.fields[key := n])
    case TextPiece(key, text) => r.(ip := if key == "ip" then Some(text) else r.ip, port := if key == "port" then Some(text) else r.port)
    case OddPiece(_) => r
  }

  lemma ExpectedNext(name: string, pieces: seq<Piece>, piece: Piece)
    ensures Expected(name, pieces + [piece]) == AddPiece(Expected(name, pieces), piece)
  {
    assert (pieces + [piece])[..|pieces|] == pieces;
    assert Numbers(pieces) + [] == Numbers(pieces);
    if piece.NumberPiece? {
      LastWritesNext(Numbers(pieces), (piece.key, piece.n));
    }
  }

  lemma NumberRead(r: Replica, key: string, n: int)
    requires PieceOk(NumberPiece(key, n))
    ensures Split(PrintPiece(NumberPiece(key, n)), '=') == [key, PrintInt(n)]
    ensures AddPair(r, (key, PrintInt(n))) == AddPiece(r, NumberPiece(key, n))
  {
    EntryPrinted(key, n);
  }

  lemma TextRead(r: Replica, key: string, text: string)
    requires PieceOk(TextPiece(key, text))
    ensures Split(PrintPiece(TextPiece(key, text)), '=') == [key, text]
    ensures AddPair(r, (key, text)) == AddPiece(r, TextPiece(key, text))
  {
    PairSplit(key, text);
  }

  /** Reading one more printed piece. */
  lemma PieceRead(r: Replica, parts: seq<string>, piece: Piece)
    requires PieceOk(piece)
    ensures AddPairs(r, Pairs(parts + [PrintPiece(piece)])) == AddPiece(AddPairs(r, Pairs(parts)), piece)
  {
    var before := AddPairs(r, Pairs(parts));
    PairsSnoc(r, parts, PrintPiece(piece));
    match piece
    case NumberPiece(key, n) => NumberRead(before, key, n);
    case TextPiece(key, text) => TextRead(before, key, text);
    case OddPiece(part) =>
  }

  lemma PrintNext(pieces: seq<Piece>, piece: Piece)
    ensures PrintPieces(pieces + [piece]) == PrintPieces(pieces) + [PrintPiece(piece)]
  {
  }

  lemma {:induction false} PiecesRead(name: string, pieces: seq<Piece>)
    requires forall i :: 0 <= i < |pieces| ==> PieceOk(pieces[i])
    ensures AddPairs(NewReplica(name), Pairs(PrintPieces(pieces))) == Expected(name, pieces)
  {
    if pieces != [] {
      var before, last := pieces[..|pieces| - 1], pieces[|pieces| - 1];
      PiecesRead(name, before);
      PieceRead(NewReplica(name), PrintPieces(before), last);
      ExpectedNext(name, before, last);
      PrintNext(before, last);
      assert before + [last] == pieces;
    }
  }

  /** Reading a printed replication line gives the last write to each numeric field and the
      last ip and port, whatever stands in between. */
  lemma ReplicationRoundTrip(name: string, pieces: seq<Piece>)
    requires pieces != [] && forall i :: 0 <= i < |pieces| ==> PieceOk(pieces[i])
    ensures var r := AddPairs(NewReplica(name), Pairs(Split(Join(PrintPieces(pieces), ','), ',')));
            && r.fields == LastWrites(Numbers(pieces))
            && r.ip == LastTextOf(pieces, "ip") && r.port == LastTextOf(pieces, "port")
  {
    forall i | 0 <= i < |pieces|
      ensures ',' !in PrintPieces(pieces)[i]
    {
      match pieces[i]
      case NumberPiece(key, n) => EntryPrinted(key, n);
      case TextPiece(key, text) => PairSplit(key, text);
      case OddPiece(_) =>
    }
    SplitJoin(PrintPieces(pieces), ',');
    PiecesRead(name, pieces);
  }

  lemma TrimNothing(digits: string)
    requires Digits(digits)
    ensures TrimLeft(digits, "slave") == digits
  {
    if digits != "" {
      assert Digit(digits[0]);
    }
  }

  lemma {:induction false} TrimPrefix(prefix: string, s: string, cutset: string)
    requires forall i :: 0 <= i < |prefix| ==> prefix[i] in cutset
    ensures TrimLeft(prefix + s, cutset) == TrimLeft(s, cutset)
  {
    if prefix == "" {
      assert prefix + s == s;
    } else {
      TrimPrefix(prefix[1..], s, cutset);
      assert (prefix + s)[1..] == prefix[1..] + s;
    }
  }

  /** The replica's number is what follows "slave": no digit is in the cutset. */
  lemma ReplicaId(digits: string)
    requires Digits(digits)
    ensures TrimLeft("slave" + digits, "slave") == digits
  {
    TrimPrefix("slave", digits, "slave");
    TrimNothing(digits);
  }
}
