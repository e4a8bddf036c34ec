/** internal/handlers/elasticsearch/elasticsearch.go: sorting indices into buckets and
    gathering the newest of each. Maps are visited in any order. */
module Indices {
  import opened Collections

  type Matcher = string -> bool

  // ---- the order of strings ---------------------------------------------------

  predicate Less(a: string, b: string) {
    if b == "" then false
    else if a == "" then true
    else a[0] < b[0] || (a[0] == b[0] && Less(a[1..], b[1..]))
  }

  /** At the first place where they differ the character is smaller, or the first one ends. */
  predicate SmallerAt(a: string, b: string, i: nat) {
    i <= |a| && i < |b| && a[..i] == b[..i] && (i == |a| || a[i] < b[i])
  }

  lemma {:induction false} LessMeaning(a: string, b: string)
    ensures Less(a, b) <==> exists i: nat :: SmallerAt(a, b, i)
  {
    if a == "" || b == "" || a[0] != b[0] {
      if Less(a, b) {
        assert SmallerAt(a, b, 0);
      }
      if i: nat :| SmallerAt(a, b, i) {
        assert i > 0 ==> a[..i][0] == b[..i][0];
      }
    } else {
      LessMeaning(a[1..], b[1..]);
      forall i: nat
        ensures SmallerAt(a, b, i + 1) <==> SmallerAt(a[1..], b[1..], i)
      {
        if i + 1 <= |a| && i + 1 < |b| {
          assert a[..i + 1] == [a[0]] + a[1..][..i] && b[..i + 1] == [b[0]] + b[1..][..i];
        }
      }
      if i: nat :| SmallerAt(a[1..], b[1..], i) {
        assert SmallerAt(a, b, i + 1);
      }
      if i: nat :| SmallerAt(a, b, i) {
        assert i > 0 && SmallerAt(a[1..], b[1..], i - 1);
      }
    }
  }

  lemma {:induction false} LessTotal(a: string, b: string)
    ensures a == b || Less(a, b) || Less(b, a)
    ensures Less(a, b) ==> a != b && !Less(b, a)
  {
    if a != "" && b != "" {
      LessTotal(a[1..], b[1..]);
      assert a == [a[0]] + a[1..] && b == [b[0]] + b[1..];
    }
  }

  lemma {:induction false} LessTransitive(a: string, b: string, c: string)
    requires Less(a, b) && Less(b, c)
    ensures Less(a, c)
  {
    if a != "" {
      if a[0] == b[0] && b[0] == c[0] {
        LessTransitive(a[1..], b[1..], c[1..]);
      }
    }
  }

  predicate Ascending(s: seq<string>) {
    forall i, j :: 0 <= i < j < |s| ==> s[i] == s[j] || Less(s[i], s[j])
  }

  predicate Descending(s: seq<string>) {
    forall i, j :: 0 <= i < j < |s| ==> Less(s[j], s[i])
  }

  predicate Distinct(s: seq<string>) {
    forall i, j :: 0 <= i < j < |s| ==> s[i] != s[j]
  }

  function NameSet(s: seq<string>): set<string> { set name | name in s }

  function Insert(x: string, s: seq<string>): (r: seq<string>)
    ensures multiset(r) == multiset{x} + multiset(s) && |r| == |s| + 1
  {
    if s == [] then [x]
    else if Less(x, s[0]) then [x] + s
    else
      assert s == [s[0]] + s[1..];
      [s[0]] + Insert(x, s[1..])
  }

  /** sort.Strings, by insertion. */
  function Sort(s: seq<string>): (r: seq<string>)
    ensures multiset(r) == multiset(s) && |r| == |s|
  {
    if s == [] then []
    else
      assert s == [s[0]] + s[1..];
      Insert(s[0], Sort(s[1..]))
  }

  lemma {:induction false} InsertAscending(x: string, s: seq<string>)
    requires Ascending(s)
    ensures Ascending(Insert(x, s))
  {
    if s != [] {
      LessTotal(x, s[0]);
      if Less(x, s[0]) {
        forall j | 0 <= j < |s|
          ensures Less(x, s[j])
        {
          if s[j] != s[0] {
            LessTransitive(x, s[0], s[j]);
          }
        }
      } else {
        InsertAscending(x, s[1..]);
        var rest := Insert(x, s[1..]);
        forall y | y in rest
          ensures y == s[0] || Less(s[0], y)
        {
          assert y in multiset(rest);
          if y != x {
            assert y in s[1..];
          }
        }
      }
    }
  }

  lemma {:induction false} SortAscending(s: seq<string>)
    ensures Ascending(Sort(s))
  {
    if s != [] {
      SortAscending(s[1..]);
      InsertAscending(s[0], Sort(s[1..]));
    }
  }

  // ---- the newest of one bucket -------------------------------------------------

  /** How many of a bucket's indices are gathered. */
  function TrackCount(size: nat, newest: int): (count: nat)
    ensures count <= size
  {
    if 0 < newest < size then newest else size
  }

  /** The visiting order of one bucket: from the end, after sorting if a number is configured. */
  function Visits(names: seq<string>, newest: int): seq<string> {
    Reverse(if newest > 0 then Sort(names) else names)[..TrackCount(|names|, newest)]
  }

  /** `v` is the `count` greatest of `names`, greatest first. */
  ghost predicate Newest(names: set<string>, count: nat, v: seq<string>) {
    && |v| == count && Descending(v)
    && (forall name :: name in v ==> name in names)
    && (forall name, later :: name in names && name !in v && later in v ==> Less(name, later))
  }

  lemma {:induction false} ReverseAt<T>(s: seq<T>)
    ensures forall i :: 0 <= i < |s| ==> Reverse(s)[i] == s[|s| - 1 - i]
  {
    if s != [] {
      ReverseAt(s[1..]);
    }
  }

  lemma {:induction false} DistinctMultiset(s: seq<string>)
    ensures Distinct(s) <==> forall x :: multiset(s)[x] <= 1
  {
    if s != [] {
      DistinctMultiset(s[1..]);
      assert s == [s[0]] + s[1..];
      if Distinct(s) {
        assert s[0] !in s[1..];
      }
      if forall x :: multiset(s)[x] <= 1 {
        assert forall x :: multiset(s[1..])[x] <= multiset(s)[x];
        assert multiset(s)[s[0]] == 1 + multiset(s[1..])[s[0]];
        assert s[0] !in s[1..];
      }
    }
  }

  lemma FrontAt(sorted: seq<string>, count: nat)
    requires count <= |sorted|
    ensures forall i :: 0 <= i < count ==> Reverse(sorted)[..count][i] == sorted[|sorted| - 1 - i]
  {
    ReverseAt(sorted);
  }

  lemma VisitsAt(names: seq<string>, newest: int)
    requires newest > 0
    ensures var v, sorted := Visits(names, newest), Sort(names);
            forall i :: 0 <= i < |v| ==> v[i] == sorted[|names| - 1 - i]
  {
    FrontAt(Sort(names), TrackCount(|names|, newest));
  }

  lemma SortMembers(names: seq<string>, name: string)
    ensures name in Sort(names) <==> name in names
  {
    assert name in Sort(names) <==> name in multiset(Sort(names));
    assert name in names <==> name in multiset(names);
  }

  lemma SortStrict(names: seq<string>)
    requires Distinct(names)
    ensures forall i, j :: 0 <= i < j < |names| ==> Less(Sort(names)[i], Sort(names)[j])
  {
    SortAscending(names);
    DistinctMultiset(names);
    DistinctMultiset(Sort(names));
  }

  /** With a number configured the gather loop visits exactly the newest indices of the
      bucket, in descending order, whatever order they were bucketed in. */
  lemma VisitsNewest(names: seq<string>, newest: int)
    requires Distinct(names) && newest > 0
    ensures Newest(NameSet(names), Min(newest, |names|), Visits(names, newest))
  {
    var sorted, v := Sort(names), Visits(names, newest);
    VisitsAt(names, newest);
    SortStrict(names);
    forall name | name in v
      ensures name in names
    {
      SortMembers(names, name);
    }
    forall i | |names| - |v| <= i < |names|
      ensures sorted[i] in v
    {
      assert v[|names| - 1 - i] == sorted[i];
    }
    forall name, later | name in names && name !in v && later in v
      ensures Less(name, later)
    {
      SortMembers(names, name);
      var i :| 0 <= i < |sorted| && sorted[i] == name;
      var j :| 0 <= j < |v| && v[j] == later;
    }
  }

  lemma GreatestFirst(names: set<string>, count: nat, v: seq<string>, w: seq<string>)
    requires Newest(names, count, v) && Newest(names, count, w) && count > 0 && v[0] != w[0]
    ensures Less(w[0], v[0])
  {
    assert w[0] in names;
    if w[0] in v {
      var i :| 0 <= i < |v| && v[i] == w[0];
    }
  }

  lemma NewestTail(names: set<string>, count: nat, v: seq<string>)
    requires Newest(names, count, v) && count > 0
    ensures Newest(names - {v[0]}, count - 1, v[1..])
  {
    forall name | name in v[1..]
      ensures name in names - {v[0]}
    {
      var i :| 0 <= i < |v[1..]| && v[1..][i] == name;
      LessTotal(v[i + 1], v[0]);
    }
    assert forall name :: name in v <==> name == v[0] || name in v[1..] by {
      assert v == [v[0]] + v[1..];
    }
  }

  /** There is only one such sequence. */
  lemma {:induction false} NewestUnique(names: set<string>, count: nat, v: seq<string>, w: seq<string>)
    requires Newest(names, count, v) && Newest(names, count, w)
    ensures v == w
  {
    if count > 0 && v[0] != w[0] {
      GreatestFirst(names, count, v, w);
      GreatestFirst(names, count, w, v);
      LessTotal(v[0], w[0]);
    }
    if count > 0 {
      NewestTail(names, count, v);
      NewestTail(names, count, w);
      NewestUnique(names - {v[0]}, count - 1, v[1..], w[1..]);
      assert v == [v[0]] + v[1..] && w == [w[0]] + w[1..];
    }
  }

  lemma {:induction false} ReverseMultiset<T>(s: seq<T>)
    ensures multiset(Reverse(s)) == multiset(s)
  {
    if s != [] {
      ReverseMultiset(s[1..]);
      assert s == [s[0]] + s[1..];
    }
  }

  /** Without a number every index is visited once. */
  lemma VisitsAll(names: seq<string>, newest: int)
    requires newest <= 0
    ensures multiset(Visits(names, newest)) == multiset(names)
  {
    ReverseMultiset(names);
    assert Reverse(names)[..|names|] == Reverse(names);
  }

  // ---- buckets --------------------------------------------------------------------

  predicate AllTogether(configured: seq<string>) { |configured| == 0 || configured[0] == "_all" }

  /** `bucket` is a bucket in which `name` may be put. */
  predicate Fits(configured: seq<string>, matchers: map<string, Matcher>, bucket: string, name: string) {
    if AllTogether(configured) then bucket == "_all"
    else if bucket in matchers && matchers[bucket](name) then true
    else bucket == name && forall other :: other in matchers ==> !matchers[other](name)
  }

  predicate In(buckets: map<string, seq<string>>, bucket: string, name: string) {
    bucket in buckets && name in buckets[bucket]
  }

  /** Every name is in exactly one bucket, once, and it fits there; no bucket is empty. */
  ghost predicate Bucketed(configured: seq<string>, matchers: map<string, Matcher>, names: set<string>, buckets: map<string, seq<string>>) {
    && (forall bucket :: bucket in buckets ==> buckets[bucket] != [] && Distinct(buckets[bucket]))
    && (forall bucket, name :: In(buckets, bucket, name) ==> name in names && Fits(configured, matchers, bucket, name))
    && (forall name :: name in names ==> exists bucket :: In(buckets, bucket, name))
    && (forall l, m, name :: In(buckets, l, name) && In(buckets, m, name) ==> l == m)
  }

  function Append(buckets: map<string, seq<string>>, bucket: string, name: string): map<string, seq<string>> {
    buckets[bucket := (if bucket in buckets then buckets[bucket] else []) + [name]]
  }

  lemma AppendIn(buckets: map<string, seq<string>>, bucket: string, name: string)
    ensures forall l, other :: In(Append(buckets, bucket, name), l, other) <==> In(buckets, l, other) || (l == bucket && other == name)
  {
  }

  lemma AppendBucketed(configured: seq<string>, matchers: map<string, Matcher>, names: set<string>,
                       buckets: map<string, seq<string>>, bucket: string, name: string)
    requires Bucketed(configured, matchers, names, buckets) && name !in names && Fits(configured, matchers, bucket, name)
    ensures Bucketed(configured, matchers, names + {name}, Append(buckets, bucket, name))
  {
    var after := Append(buckets, bucket, name);
    AppendIn(buckets, bucket, name);
    assert !In(buckets, bucket, name);
    forall other | other in names + {name}
      ensures exists l :: In(after, l, other)
    {
      if other == name {
        assert In(after, bucket, name);
      } else {
        var l :| In(buckets, l, other);
        assert In(after, l, other);
      }
    }
  }

  /** The bucket of one index: a configured index whose matcher accepts it, else itself. */
  method FindBucket(matchers: map<string, Matcher>, name: string) returns (bucket: string)
    ensures forall configured :: !AllTogether(configured) ==> Fits(configured, matchers, bucket, name)
  {
    var rest := matchers.Keys;
    while rest != {}
      invariant rest <= matchers.Keys
      invariant forall other :: other in matchers && other !in rest ==> !matchers[other](name)
      decreases rest
    {
      var other :| other in rest;
      if matchers[other](name) {
        return other;
      }
      rest := rest - {other};
    }
    return name;
  }

  /** What the loops can make of the names: in some order, each is appended to some bucket
      in which it may be put. */
  ghost predicate Produced(configured: seq<string>, matchers: map<string, Matcher>, names: set<string>, buckets: map<string, seq<string>>)
    decreases names, 1
  {
    if names == {} then buckets == map[]
    else exists name, bucket, before :: ProducedLast(configured, matchers, names, name, bucket, before, buckets)
  }

  /** With `name` as the last one. */
  ghost predicate ProducedLast(configured: seq<string>, matchers: map<string, Matcher>, names: set<string>, name: string, bucket: string,
                               before: map<string, seq<string>>, buckets: map<string, seq<string>>)
    decreases names, 0
  {
    && name in names && Fits(configured, matchers, bucket, name)
    && Produced(configured, matchers, names - {name}, before) && buckets == Append(before, bucket, name)
  }

  lemma ProducedNext(configured: seq<string>, matchers: map<string, Matcher>, names: set<string>,
                     buckets: map<string, seq<string>>, bucket: string, name: string)
    requires Produced(configured, matchers, names, buckets) && name !in names && Fits(configured, matchers, bucket, name)
    ensures Produced(configured, matchers, names + {name}, Append(buckets, bucket, name))
  {
    assert names + {name} - {name} == names;
    assert ProducedLast(configured, matchers, names + {name}, name, bucket, buckets, Append(buckets, bucket, name));
  }

  lemma {:induction false} ProducedBucketed(configured: seq<string>, matchers: map<string, Matcher>, names: set<string>, buckets: map<string, seq<string>>)
    requires Produced(configured, matchers, names, buckets)
    ensures Bucketed(configured, matchers, names, buckets)
    decreases names
  {
    if names != {} {
      var name, bucket, before :| ProducedLast(configured, matchers, names, name, bucket, before, buckets);
      var rest := names - {name};
      assert rest + {name} == names;
      ProducedBucketed(configured, matchers, rest, before);
      AppendBucketed(configured, matchers, rest, before, bucket, name);
    }
  }

  /** The last name of a bucket, taken away again. */
  function WithoutLast(buckets: map<string, seq<string>>, bucket: string): map<string, seq<string>>
    requires bucket in buckets && buckets[bucket] != []
  {
    var s := buckets[bucket];
    if |s| == 1 then buckets - {bucket} else buckets[bucket := s[..|s| - 1]]
  }

  lemma LastAppended(buckets: map<string, seq<string>>, bucket: string)
    requires bucket in buckets && buckets[bucket] != []
    ensures var s := buckets[bucket];
            Append(WithoutLast(buckets, bucket), bucket, s[|s| - 1]) == buckets
  {
    var s := buckets[bucket];
    assert s == s[..|s| - 1] + [s[|s| - 1]];
  }

  lemma WithoutLastIn(buckets: map<string, seq<string>>, bucket: string)
    requires bucket in buckets && buckets[bucket] != [] && Distinct(buckets[bucket])
    ensures var s := buckets[bucket];
            forall l, name :: In(WithoutLast(buckets, bucket), l, name) <==>
              In(buckets, l, name) && !(l == bucket && name == s[|s| - 1])
  {
    var s := buckets[bucket];
    assert forall name :: name in s[..|s| - 1] <==> name in s && name != s[|s| - 1];
  }

  lemma WithoutLastBucketed(configured: seq<string>, matchers: map<string, Matcher>, names: set<string>,
                            buckets: map<string, seq<string>>, bucket: string)
    requires Bucketed(configured, matchers, names, buckets) && bucket in buckets
    ensures var s := buckets[bucket];
            s != [] && Bucketed(configured, matchers, names - {s[|s| - 1]}, WithoutLast(buckets, bucket))
  {
    var s := buckets[bucket];
    var last, before := s[|s| - 1], WithoutLast(buckets, bucket);
    WithoutLastIn(buckets, bucket);
    assert In(buckets, bucket, last);
    forall name | name in names - {last}
      ensures exists l :: In(before, l, name)
    {
      var l :| In(buckets, l, name);
      assert In(before, l, name);
    }
  }

  /** Every bucketing is one that the loops can produce. */
  lemma {:induction false} BucketedProduced(configured: seq<string>, matchers: map<string, Matcher>, names: set<string>, buckets: map<string, seq<string>>)
    requires Bucketed(configured, matchers, names, buckets)
    ensures Produced(configured, matchers, names, buckets)
    decreases names
  {
    if names == {} {
      forall bucket | bucket in buckets
        ensures false
      {
        assert In(buckets, bucket, buckets[bucket][0]);
      }
    } else {
      var some :| some in names;
      var bucket :| In(buckets, bucket, some);
      var s := buckets[bucket];
      var last := s[|s| - 1];
      assert In(buckets, bucket, last);
      WithoutLastBucketed(configured, matchers, names, buckets, bucket);
      BucketedProduced(configured, matchers, names - {last}, WithoutLast(buckets, bucket));
      LastAppended(buckets, bucket);
      assert ProducedLast(configured, matchers, names, last, bucket, WithoutLast(buckets, bucket), buckets);
    }
  }

  method CategorizeIndices(configured: seq<string>, matchers: map<string, Matcher>, indices: set<string>)
    returns (buckets: map<string, seq<string>>)
    ensures Produced(configured, matchers, indices, buckets)
    ensures Bucketed(configured, matchers, indices, buckets)
  {
    buckets := map[];
    var rest := indices;
    ghost var done: set<string> := {};
    while rest != {}
      invariant rest !! done && rest + done == indices
      invariant Produced(configured, matchers, done, buckets)
      decreases rest
    {
      var name :| name in rest;
      rest := rest - {name};
      var bucket := "_all";
      if !AllTogether(configured) {
        bucket := FindBucket(matchers, name);
      }
      ProducedNext(configured, matchers, done, buckets, bucket, name);
      buckets := Append(buckets, bucket, name);
      done := done + {name};
    }
    assert done == indices;
    ProducedBucketed(configured, matchers, indices, buckets);
  }

  /** None of the indices to visit gives an error. */
  predicate NoneFails(names: seq<string>, newest: int, fails: set<string>) {
    forall name :: name in Visits(names, newest) ==> name !in fails
  }

  /** All of them were visited without one. */
  predicate Gathered(names: seq<string>, newest: int, fails: set<string>, visited: seq<string>) {
    visited == Visits(names, newest) && NoneFails(names, newest, fails)
  }

  /** The gather loop over one bucket; `fails` are the indices whose stats give an error. */
  method GatherBucket(matching: seq<string>, newest: int, fails: set<string>) returns (ok: bool, visited: seq<string>)
    ensures ok <==> NoneFails(matching, newest, fails)
    ensures ok ==> Gathered(matching, newest, fails, visited) && forall name :: name in visited ==> name !in fails
    ensures !ok ==> visited <= Visits(matching, newest) && visited != [] && visited[|visited| - 1] in fails
  {
    var names := matching;
    var count := |names|;
    var track := count;
    if newest > 0 {
      if newest < track {
        track := newest;
      }
      names := Sort(names);
    }
    ReverseAt(names);
    visited := [];
    var i := count - 1;
    while i >= count - track
      invariant count - track - 1 <= i < count && |visited| == count - 1 - i
      invariant visited == Reverse(names)[..|visited|]
      invariant forall name :: name in visited ==> name !in fails
    {
      visited := visited + [names[i]];
      if names[i] in fails {
        assert visited <= Visits(matching, newest);
        assert Visits(matching, newest)[|visited| - 1] == names[i];
        return false, visited;
      }
      i := i - 1;
    }
    return true, visited;
  }

  /** The buckets, in any order, until an index fails. */
  method GatherBuckets(buckets: map<string, seq<string>>, newest: int, fails: set<string>)
    returns (ok: bool, visited: map<string, seq<string>>)
    ensures visited.Keys <= buckets.Keys
    ensures ok <==> forall bucket :: bucket in buckets ==> NoneFails(buckets[bucket], newest, fails)
    ensures ok ==> visited.Keys == buckets.Keys && forall bucket :: bucket in buckets ==> visited[bucket] == Visits(buckets[bucket], newest)
  {
    visited := map[];
    var rest := buckets.Keys;
    while rest != {}
      invariant rest <= buckets.Keys && visited.Keys == buckets.Keys - rest
      invariant forall bucket :: bucket in visited ==> Gathered(buckets[bucket], newest, fails, visited[bucket])
      decreases rest
    {
      var bucket :| bucket in rest;
      rest := rest - {bucket};
      var v;
      ok, v := GatherBucket(buckets[bucket], newest, fails);
      visited := visited[bucket := v];
      if !ok {
        return;
      }
    }
    ok := true;
  }

  /** gatherIndividualIndicesStats */
  method GatherIndices(configured: seq<string>, matchers: map<string, Matcher>, indices: set<string>, newest: int, fails: set<string>)
    returns (ok: bool, buckets: map<string, seq<string>>, visited: map<string, seq<string>>)
    ensures Bucketed(configured, matchers, indices, buckets) && visited.Keys <= buckets.Keys
    ensures ok <==> forall bucket :: bucket in buckets ==> NoneFails(buckets[bucket], newest, fails)
    ensures ok ==> visited.Keys == buckets.Keys && forall bucket :: bucket in buckets ==> visited[bucket] == Visits(buckets[bucket], newest)
  {
    buckets := CategorizeIndices(configured, matchers, indices);
    ok, visited := GatherBuckets(buckets, newest, fails);
  }

  // ---- when the buckets do not depend on the iteration orders ---------------------

  /** Some name can be put into two buckets. */
  ghost predicate Overlap(configured: seq<string>, matchers: map<string, Matcher>, names: set<string>) {
    exists name, l, m :: name in names && l != m && Fits(configured, matchers, l, name) && Fits(configured, matchers, m, name)
  }

  lemma SameBucket(configured: seq<string>, matchers: map<string, Matcher>, names: set<string>,
                   b: map<string, seq<string>>, d: map<string, seq<string>>, bucket: string, name: string)
    requires Bucketed(configured, matchers, names, b) && Bucketed(configured, matchers, names, d)
    requires !Overlap(configured, matchers, names) && In(b, bucket, name)
    ensures In(d, bucket, name)
  {
    assert name in names && Fits(configured, matchers, bucket, name);
    var l :| In(d, l, name);
    assert Fits(configured, matchers, l, name);
  }

  /** When no index is accepted by two matchers, two bucketings have the same buckets, up
      to the order inside them. */
  lemma BucketsDetermined(configured: seq<string>, matchers: map<string, Matcher>, names: set<string>,
                          b: map<string, seq<string>>, d: map<string, seq<string>>, bucket: string)
    requires Bucketed(configured, matchers, names, b) && Bucketed(configured, matchers, names, d)
    requires !Overlap(configured, matchers, names) && bucket in b
    ensures bucket in d && NameSet(b[bucket]) == NameSet(d[bucket])
  {
    forall name
      ensures In(b, bucket, name) <==> In(d, bucket, name)
    {
      if In(b, bucket, name) {
        SameBucket(configured, matchers, names, b, d, bucket, name);
      }
      if In(d, bucket, name) {
        SameBucket(configured, matchers, names, d, b, bucket, name);
      }
    }
    assert In(b, bucket, b[bucket][0]);
    forall name
      ensures name in b[bucket] <==> name in d[bucket]
    {
      assert In(b, bucket, name) <==> In(d, bucket, name);
    }
  }

  lemma {:induction false} DistinctSize(s: seq<string>)
    requires Distinct(s)
    ensures |NameSet(s)| == |s|
  {
    if s != [] {
      DistinctSize(s[1..]);
      assert NameSet(s) == {s[0]} + NameSet(s[1..]);
      assert s[0] !in s[1..];
    }
  }

  lemma SameMultiset(s: seq<string>, t: seq<string>)
    requires Distinct(s) && Distinct(t) && NameSet(s) == NameSet(t)
    ensures multiset(s) == multiset(t)
  {
    DistinctMultiset(s);
    DistinctMultiset(t);
    forall name
      ensures multiset(s)[name] == multiset(t)[name]
    {
      assert name in s <==> name in NameSet(s);
      assert name in t <==> name in NameSet(t);
      assert name in s <==> name in multiset(s);
      assert name in t <==> name in multiset(t);
    }
  }

  /** Two orders of one bucket give the same visits, or without a number the same ones in
      another order. */
  lemma SameVisits(s: seq<string>, t: seq<string>, newest: int)
    requires Distinct(s) && Distinct(t) && NameSet(s) == NameSet(t)
    ensures multiset(Visits(s, newest)) == multiset(Visits(t, newest))
    ensures newest > 0 ==> Visits(s, newest) == Visits(t, newest)
  {
    if newest > 0 {
      VisitsNewest(s, newest);
      VisitsNewest(t, newest);
      DistinctSize(s);
      DistinctSize(t);
      NewestUnique(NameSet(s), Min(newest, |s|), Visits(s, newest), Visits(t, newest));
    } else {
      VisitsAll(s, newest);
      VisitsAll(t, newest);
      SameMultiset(s, t);
    }
  }

  /** Two bucketings put the same names into the same buckets. */
  ghost predicate SameBuckets(b: map<string, seq<string>>, d: map<string, seq<string>>) {
    b.Keys == d.Keys && forall bucket :: bucket in b ==> NameSet(b[bucket]) == NameSet(d[bucket])
  }

  lemma NoOverlapSame(configured: seq<string>, matchers: map<string, Matcher>, names: set<string>,
                      b: map<string, seq<string>>, d: map<string, seq<string>>)
    requires Bucketed(configured, matchers, names, b) && Bucketed(configured, matchers, names, d)
    requires !Overlap(configured, matchers, names)
    ensures SameBuckets(b, d)
  {
    forall bucket | bucket in b || bucket in d
      ensures bucket in b && bucket in d && NameSet(b[bucket]) == NameSet(d[bucket])
    {
      if bucket in b {
        BucketsDetermined(configured, matchers, names, b, d, bucket);
      } else {
        BucketsDetermined(configured, matchers, names, d, b, bucket);
      }
    }
  }

  /** So without overlap the visits are the same for every iteration order; without a
      number, up to their order in a bucket. */
  lemma VisitsDetermined(configured: seq<string>, matchers: map<string, Matcher>, names: set<string>, newest: int,
                         b: map<string, seq<string>>, d: map<string, seq<string>>)
    requires Bucketed(configured, matchers, names, b) && Bucketed(configured, matchers, names, d)
    requires !Overlap(configured, matchers, names)
    ensures b.Keys == d.Keys
    ensures forall bucket :: bucket in b ==> multiset(Visits(b[bucket], newest)) == multiset(Visits(d[bucket], newest))
    ensures newest > 0 ==> forall bucket :: bucket in b ==> Visits(b[bucket], newest) == Visits(d[bucket], newest)
  {
    NoOverlapSame(configured, matchers, names, b, d);
    forall bucket | bucket in b
      ensures multiset(Visits(b[bucket], newest)) == multiset(Visits(d[bucket], newest))
      ensures newest > 0 ==> Visits(b[bucket], newest) == Visits(d[bucket], newest)
    {
      SameVisits(b[bucket], d[bucket], newest);
    }
  }

  /** Every set of names can be bucketed. */
  lemma {:induction false} SomeBucketing(configured: seq<string>, matchers: map<string, Matcher>, names: set<string>)
    returns (b: map<string, seq<string>>)
    ensures Bucketed(configured, matchers, names, b)
  {
    b := map[];
    if names != {} {
      var name :| name in names;
      b := SomeBucketing(configured, matchers, names - {name});
      var bucket := if AllTogether(configured) then "_all" else name;
      if !AllTogether(configured) {
        if other :| other in matchers && matchers[other](name) {
          bucket := other;
        }
      }
      AppendBucketed(configured, matchers, names - {name}, b, bucket, name);
      b := Append(b, bucket, name);
      assert names - {name} + {name} == names;
    }
  }

  lemma TwoBucketings(configured: seq<string>, matchers: map<string, Matcher>, names: set<string>, name: string, l: string, m: string)
    returns (b: map<string, seq<string>>, d: map<string, seq<string>>)
    requires name in names && Fits(configured, matchers, l, name) && Fits(configured, matchers, m, name)
    ensures Bucketed(configured, matchers, names, b) && In(b, l, name)
    ensures Bucketed(configured, matchers, names, d) && In(d, m, name)
  {
    var rest := SomeBucketing(configured, matchers, names - {name});
    AppendBucketed(configured, matchers, names - {name}, rest, l, name);
    AppendBucketed(configured, matchers, names - {name}, rest, m, name);
    assert names - {name} + {name} == names;
    b, d := Append(rest, l, name), Append(rest, m, name);
  }

  ghost predicate OneBucketing(configured: seq<string>, matchers: map<string, Matcher>, names: set<string>) {
    forall b, d :: Produced(configured, matchers, names, b) && Produced(configured, matchers, names, d) ==> SameBuckets(b, d)
  }

  lemma OverlapDiffers(configured: seq<string>, matchers: map<string, Matcher>, names: set<string>, name: string, l: string, m: string)
    requires name in names && l != m && Fits(configured, matchers, l, name) && Fits(configured, matchers, m, name)
    ensures !OneBucketing(configured, matchers, names)
  {
    var b, d := TwoBucketings(configured, matchers, names, name, l, m);
    BucketedProduced(configured, matchers, names, b);
    BucketedProduced(configured, matchers, names, d);
    assert !In(d, l, name);
    assert name in NameSet(b[l]);
    assert !SameBuckets(b, d);
  }

  /** The loops can produce one bucketing only, up to the order inside buckets, iff no two
      buckets overlap. */
  lemma BucketsDeterminedIff(configured: seq<string>, matchers: map<string, Matcher>, names: set<string>)
    ensures !Overlap(configured, matchers, names) <==> OneBucketing(configured, matchers, names)
  {
    if Overlap(configured, matchers, names) {
      var name, l, m :| name in names && l != m && Fits(configured, matchers, l, name) && Fits(configured, matchers, m, name);
      OverlapDiffers(configured, matchers, names, name, l, m);
    } else {
      forall b, d | Produced(configured, matchers, names, b) && Produced(configured, matchers, names, d)
        ensures SameBuckets(b, d)
      {
        ProducedBucketed(configured, matchers, names, b);
        ProducedBucketed(configured, matchers, names, d);
        NoOverlapSame(configured, matchers, names, b, d);
      }
    }
  }

  lemma OneName(configured: seq<string>, matchers: map<string, Matcher>, bucket: string, name: string)
    requires Fits(configured, matchers, bucket, name)
    ensures Produced(configured, matchers, {name}, map[bucket := [name]])
  {
    var none: map<string, seq<string>> := map[];
    var names: set<string> := {};
    assert Produced(configured, matchers, names, none);
    ProducedNext(configured, matchers, names, none, bucket, name);
    assert names + {name} == {name};
    assert Append(none, bucket, name) == map[bucket := [name]] by {
      assert [] + [name] == [name];
    }
  }

  predicate StartsWithA(s: string) { "a" <= s }

  predicate IsA(s: string) { s == "a" }

  /** Index "a" with the patterns "a*" and "a": it can end up in either bucket. */
  lemma TwoBuckets()
    ensures var configured, matchers := ["a*", "a"], map["a*" := StartsWithA, "a" := IsA];
            && Produced(configured, matchers, {"a"}, map["a*" := ["a"]])
            && Produced(configured, matchers, {"a"}, map["a" := ["a"]])
  {
    var configured, matchers: map<string, Matcher> := ["a*", "a"], map["a*" := StartsWithA, "a" := IsA];
    assert |"a*"| == 2 && |"_all"| == 4 && !AllTogether(configured);
    assert matchers["a*"]("a");
    assert matchers["a"]("a");
    OneName(configured, matchers, "a*", "a");
    OneName(configured, matchers, "a", "a");
  }

  /** Without configured indices, or with "_all" first, there is one bucket of that name. */
  lemma AllInOneBucket(configured: seq<string>, matchers: map<string, Matcher>, names: set<string>, buckets: map<string, seq<string>>)
    requires Produced(configured, matchers, names, buckets) && (configured == [] || configured[0] == "_all")
    ensures buckets.Keys == if names == {} then {} else {"_all"}
    ensures forall name :: name in names ==> In(buckets, "_all", name)
  {
    ProducedBucketed(configured, matchers, names, buckets);
    forall name | name in names
      ensures In(buckets, "_all", name)
    {
      var bucket :| In(buckets, bucket, name);
    }
    forall bucket | bucket in buckets
      ensures bucket == "_all" && names != {}
    {
      assert In(buckets, bucket, buckets[bucket][0]);
    }
    if name :| name in names {
      assert In(buckets, "_all", name);
    }
  }

  /** Otherwise an index is in the bucket of a pattern that accepts it, or in its own. */
  lemma OwnOrPatternBucket(configured: seq<string>, matchers: map<string, Matcher>, names: set<string>, buckets: map<string, seq<string>>,
                           bucket: string, name: string)
    requires Produced(configured, matchers, names, buckets) && configured != [] && configured[0] != "_all"
    requires In(buckets, bucket, name)
    ensures (bucket in matchers && matchers[bucket](name))
         || (bucket == name && forall other :: other in matchers ==> !matchers[other](name))
  {
    ProducedBucketed(configured, matchers, names, buckets);
  }

  /** compileIndexMatchers; `compile` fails on a pattern that is no valid glob. */
  method CompileIndexMatchers(configured: seq<string>, compile: string -> Option<Matcher>) returns (r: Result<map<string, Matcher>>)
    ensures r.Success? <==> forall index :: index in configured ==> compile(index).Some?
    ensures r.Success? ==>
              && r.value.Keys == NameSet(configured)
              && forall index :: index in configured ==> r.value[index] == compile(index).value
  {
    var matchers: map<string, Matcher> := map[];
    for i := 0 to |configured|
      invariant matchers.Keys == set j | 0 <= j < i :: configured[j]
      invariant forall j :: 0 <= j < i ==> compile(configured[j]).Some? && matchers[configured[j]] == compile(configured[j]).value
    {
      if configured[i] !in matchers {
        var compiled := compile(configured[i]);
        if compiled.None? {
          return Failure;
        }
        matchers := matchers[configured[i] := compiled.value];
      }
    }
    return Success(matchers);
  }
}
