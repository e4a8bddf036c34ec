/** Where in its model's list a queued sample stood. The order of a model's samples is kept
    on the way to the queue exactly as long as batches are pushed in the order in which
    their samples were drained. */
module PipelinePlaces {
  import opened Collections
  import opened Pipeline
  import opened PipelineOrder
  import opened PipelineDrains

  predicate Keeps(c: Config, r: Ref) { r != NIL && c.converts(r) }

  /** The places, counted on from `start`, of the samples that are neither nil nor unconvertible. */
  function Places(c: Config, items: seq<Ref>, start: nat): seq<nat> {
    if items == [] then []
    else (if Keeps(c, items[0]) then [start] else []) + Places(c, items[1..], start + 1)
  }

  predicate Ascending(s: seq<nat>) { forall i, j :: 0 <= i < j < |s| ==> s[i] < s[j] }

  predicate Within(s: seq<nat>, low: nat, high: nat) { forall i :: 0 <= i < |s| ==> low <= s[i] < high }

  lemma KeptOne(c: Config, r: Ref)
    ensures Kept(c, [r]) == if Keeps(c, r) then [r] else []
  {
    assert Select(NonNil, [r][1..]) == [];
    assert Select(c.converts, [r][1..]) == [] && Select(c.converts, []) == [];
  }

  lemma {:induction false} PlacesMeaning(c: Config, items: seq<Ref>, start: nat)
    ensures |Places(c, items, start)| == |Kept(c, items)|
    ensures Within(Places(c, items, start), start, start + |items|) && Ascending(Places(c, items, start))
    ensures forall k :: 0 <= k < |Kept(c, items)| ==> Kept(c, items)[k] == items[Places(c, items, start)[k] - start]
  {
    if items != [] {
      PlacesMeaning(c, items[1..], start + 1);
      assert items == [items[0]] + items[1..];
      KeptConcat(c, [items[0]], items[1..]);
      KeptOne(c, items[0]);
    }
  }

  // ---- a model's part of the queue's history --------------------------------------

  predicate FromModel(m: nat, drains: seq<Drain>, e: Entry) { e.ticket < |drains| && drains[e.ticket].model == m }

  /** The items of model `m` in the order in which they were pushed to the queue. */
  function Stream(m: nat, drains: seq<Drain>, accepted: seq<Entry>): seq<Ref> {
    if accepted == [] then []
    else
      var last := accepted[|accepted| - 1];
      Stream(m, drains, accepted[..|accepted| - 1]) + if FromModel(m, drains, last) then last.items else []
  }

  /** How much of the model's list was gone before drain `t`. */
  function StartOf(m: nat, drains: seq<Drain>, t: nat): nat
    requires t <= |drains|
  {
    |DrainedFrom(m, drains[..t])|
  }

  function EntryPlaces(c: Config, m: nat, drains: seq<Drain>, e: Entry): seq<nat> {
    if FromModel(m, drains, e) then Places(c, drains[e.ticket].items, StartOf(m, drains, e.ticket)) else []
  }

  /** The places that the items of the stream had in the model's list. */
  function StreamPlaces(c: Config, m: nat, drains: seq<Drain>, accepted: seq<Entry>): seq<nat> {
    if accepted == [] then []
    else StreamPlaces(c, m, drains, accepted[..|accepted| - 1]) + EntryPlaces(c, m, drains, accepted[|accepted| - 1])
  }

  /** A batch of the model with something in it. */
  predicate Counts(m: nat, drains: seq<Drain>, e: Entry) { FromModel(m, drains, e) && e.items != [] }

  /** The model's batches were pushed in the order of their drains. */
  predicate InDrainOrder(m: nat, drains: seq<Drain>, accepted: seq<Entry>) {
    forall i, j :: 0 <= i < j < |accepted| && Counts(m, drains, accepted[i]) && Counts(m, drains, accepted[j]) ==>
      accepted[i].ticket < accepted[j].ticket
  }

  // ---- what a place says ----------------------------------------------------------

  lemma {:induction false} DrainedPrefix(m: nat, drains: seq<Drain>, t: nat)
    requires t <= |drains|
    ensures DrainedFrom(m, drains[..t]) <= DrainedFrom(m, drains)
  {
    if t < |drains| {
      var n := |drains| - 1;
      DrainedPrefix(m, drains[..n], t);
      assert drains[..n][..t] == drains[..t];
    } else {
      assert drains[..t] == drains;
    }
  }

  /** Drain `t` of the model took the stretch of the list from its start on. */
  lemma DrainStretch(m: nat, drains: seq<Drain>, t: nat)
    requires t < |drains| && drains[t].model == m
    ensures var start := StartOf(m, drains, t);
            && start + |drains[t].items| <= |DrainedFrom(m, drains)|
            && DrainedFrom(m, drains)[start..start + |drains[t].items|] == drains[t].items
  {
    DrainedPrefix(m, drains, t + 1);
    assert drains[..t + 1][..t] == drains[..t];
  }

  predicate EntriesOk(c: Config, drains: seq<Drain>, accepted: seq<Entry>) {
    forall i :: 0 <= i < |accepted| ==>
      accepted[i].ticket < |drains| && accepted[i].items == Kept(c, drains[accepted[i].ticket].items)
  }

  /** Each item of the list `whole` is found at its place. */
  predicate Found(items: seq<Ref>, places: seq<nat>, whole: seq<Ref>) {
    |items| == |places| && forall k :: 0 <= k < |items| ==> places[k] < |whole| && items[k] == whole[places[k]]
  }

  lemma EntryFound(c: Config, m: nat, drains: seq<Drain>, e: Entry)
    requires FromModel(m, drains, e) && e.items == Kept(c, drains[e.ticket].items)
    ensures Found(e.items, EntryPlaces(c, m, drains, e), DrainedFrom(m, drains))
  {
    var start, items := StartOf(m, drains, e.ticket), drains[e.ticket].items;
    PlacesMeaning(c, items, start);
    DrainStretch(m, drains, e.ticket);
    var places, whole := Places(c, items, start), DrainedFrom(m, drains);
    forall k | 0 <= k < |places|
      ensures places[k] < |whole| && e.items[k] == whole[places[k]]
    {
      assert whole[start..start + |items|][places[k] - start] == whole[places[k]];
    }
  }

  /** Every item of the stream stood at its place of the model's list. */
  lemma {:induction false} StreamFound(c: Config, m: nat, drains: seq<Drain>, accepted: seq<Entry>)
    requires EntriesOk(c, drains, accepted)
    ensures Found(Stream(m, drains, accepted), StreamPlaces(c, m, drains, accepted), DrainedFrom(m, drains))
  {
    if accepted != [] {
      var n := |accepted| - 1;
      StreamFound(c, m, drains, accepted[..n]);
      if FromModel(m, drains, accepted[n]) {
        EntryFound(c, m, drains, accepted[n]);
      }
    }
  }

  // ---- when the order is kept -----------------------------------------------------

  predicate InEntry(c: Config, m: nat, drains: seq<Drain>, accepted: seq<Entry>, x: nat, i: nat) {
    i < |accepted| && x in EntryPlaces(c, m, drains, accepted[i])
  }

  lemma {:induction false} PlaceMember(c: Config, m: nat, drains: seq<Drain>, accepted: seq<Entry>, x: nat)
    ensures x in StreamPlaces(c, m, drains, accepted) <==> exists i :: InEntry(c, m, drains, accepted, x, i)
  {
    if accepted != [] {
      var before := accepted[..|accepted| - 1];
      PlaceMember(c, m, drains, before, x);
      forall i: nat
        ensures InEntry(c, m, drains, accepted, x, i) <==>
                  InEntry(c, m, drains, before, x, i) || (i == |before| && x in EntryPlaces(c, m, drains, accepted[i]))
      {
      }
    }
  }

  /** The places of an earlier drain are below those of a later one. */
  lemma DrainsApart(m: nat, drains: seq<Drain>, t: nat, u: nat)
    requires t < u < |drains| && drains[t].model == m
    ensures StartOf(m, drains, t) + |drains[t].items| <= StartOf(m, drains, u)
  {
    assert drains[..u][..t + 1] == drains[..t + 1] && drains[..t + 1][..t] == drains[..t];
    DrainedPrefix(m, drains[..u], t + 1);
  }

  predicate AllBelow(a: seq<nat>, b: seq<nat>) { forall i, j :: 0 <= i < |a| && 0 <= j < |b| ==> a[i] < b[j] }

  lemma EntriesApart(c: Config, m: nat, drains: seq<Drain>, e: Entry, f: Entry)
    requires Counts(m, drains, e) && Counts(m, drains, f)
    requires e.items == Kept(c, drains[e.ticket].items) && f.items == Kept(c, drains[f.ticket].items)
    ensures AllBelow(EntryPlaces(c, m, drains, e), EntryPlaces(c, m, drains, f)) <==> e.ticket < f.ticket
  {
    var a, b := EntryPlaces(c, m, drains, e), EntryPlaces(c, m, drains, f);
    PlacesMeaning(c, drains[e.ticket].items, StartOf(m, drains, e.ticket));
    PlacesMeaning(c, drains[f.ticket].items, StartOf(m, drains, f.ticket));
    if e.ticket < f.ticket {
      DrainsApart(m, drains, e.ticket, f.ticket);
    } else if f.ticket < e.ticket {
      DrainsApart(m, drains, f.ticket, e.ticket);
      assert b[0] < a[0];
    } else {
      assert a[0] == b[0];
    }
  }

  lemma AscendingConcat(a: seq<nat>, b: seq<nat>)
    requires Ascending(b)
    ensures Ascending(a + b) <==> Ascending(a) && AllBelow(a, b)
  {
    var s := a + b;
    if Ascending(s) {
      forall i, j | 0 <= i < j < |a|
        ensures a[i] < a[j]
      {
        assert s[i] < s[j];
      }
      forall i, j | 0 <= i < |a| && 0 <= j < |b|
        ensures a[i] < b[j]
      {
        assert s[i] < s[|a| + j];
      }
    }
  }

  /** All earlier batches of the model are from earlier drains than the last one. */
  predicate LastInOrder(m: nat, drains: seq<Drain>, accepted: seq<Entry>)
    requires accepted != []
  {
    var last := accepted[|accepted| - 1];
    Counts(m, drains, last) ==>
      forall i :: 0 <= i < |accepted| - 1 && Counts(m, drains, accepted[i]) ==> accepted[i].ticket < last.ticket
  }

  lemma DrainOrderNext(m: nat, drains: seq<Drain>, accepted: seq<Entry>)
    requires accepted != []
    ensures InDrainOrder(m, drains, accepted) <==>
              InDrainOrder(m, drains, accepted[..|accepted| - 1]) && LastInOrder(m, drains, accepted)
  {
    var before := accepted[..|accepted| - 1];
    if InDrainOrder(m, drains, accepted) {
      forall i, j | 0 <= i < j < |before| && Counts(m, drains, before[i]) && Counts(m, drains, before[j])
        ensures before[i].ticket < before[j].ticket
      {
        assert before[i] == accepted[i] && before[j] == accepted[j];
      }
    }
    if InDrainOrder(m, drains, before) && LastInOrder(m, drains, accepted) {
      forall i, j | 0 <= i < j < |accepted| && Counts(m, drains, accepted[i]) && Counts(m, drains, accepted[j])
        ensures accepted[i].ticket < accepted[j].ticket
      {
        assert j < |before| ==> before[i] == accepted[i] && before[j] == accepted[j];
      }
    }
  }

  lemma EntryEmpty(c: Config, m: nat, drains: seq<Drain>, e: Entry)
    requires e.ticket < |drains| && e.items == Kept(c, drains[e.ticket].items)
    ensures EntryPlaces(c, m, drains, e) == [] <==> !Counts(m, drains, e)
  {
    if FromModel(m, drains, e) {
      PlacesMeaning(c, drains[e.ticket].items, StartOf(m, drains, e.ticket));
    }
  }

  /** What is above all places of the stream is above those of each of its batches. */
  lemma PlacesReach(c: Config, m: nat, drains: seq<Drain>, accepted: seq<Entry>, i: nat, b: seq<nat>)
    requires i < |accepted|
    ensures AllBelow(StreamPlaces(c, m, drains, accepted), b) ==> AllBelow(EntryPlaces(c, m, drains, accepted[i]), b)
  {
    var places := EntryPlaces(c, m, drains, accepted[i]);
    if AllBelow(StreamPlaces(c, m, drains, accepted), b) {
      forall k, l | 0 <= k < |places| && 0 <= l < |b|
        ensures places[k] < b[l]
      {
        assert InEntry(c, m, drains, accepted, places[k], i);
        PlaceMember(c, m, drains, accepted, places[k]);
      }
    }
  }

  /** Which is: all places so far are below those of the last batch. */
  lemma LastPlaces(c: Config, m: nat, drains: seq<Drain>, accepted: seq<Entry>)
    requires accepted != [] && EntriesOk(c, drains, accepted)
    ensures var n := |accepted| - 1;
            AllBelow(StreamPlaces(c, m, drains, accepted[..n]), EntryPlaces(c, m, drains, accepted[n])) <==> LastInOrder(m, drains, accepted)
  {
    var n := |accepted| - 1;
    var before, last := StreamPlaces(c, m, drains, accepted[..n]), EntryPlaces(c, m, drains, accepted[n]);
    EntryEmpty(c, m, drains, accepted[n]);
    if last != [] {
      if LastInOrder(m, drains, accepted) {
        forall k, l | 0 <= k < |before| && 0 <= l < |last|
          ensures before[k] < last[l]
        {
          PlaceMember(c, m, drains, accepted[..n], before[k]);
          var i: nat :| InEntry(c, m, drains, accepted[..n], before[k], i);
          EntryEmpty(c, m, drains, accepted[i]);
          EntriesApart(c, m, drains, accepted[i], accepted[n]);
        }
      } else {
        var i :| 0 <= i < n && Counts(m, drains, accepted[i]) && accepted[i].ticket >= accepted[n].ticket;
        EntriesApart(c, m, drains, accepted[i], accepted[n]);
        PlacesReach(c, m, drains, accepted[..n], i, last);
      }
    }
  }

  /** The stream is in the order of the model's list iff the batches are in drain order. */
  lemma {:induction false} OrderKeptIff(c: Config, m: nat, drains: seq<Drain>, accepted: seq<Entry>)
    requires EntriesOk(c, drains, accepted)
    ensures Ascending(StreamPlaces(c, m, drains, accepted)) <==> InDrainOrder(m, drains, accepted)
  {
    if accepted != [] {
      var n := |accepted| - 1;
      OrderKeptIff(c, m, drains, accepted[..n]);
      var last := EntryPlaces(c, m, drains, accepted[n]);
      if FromModel(m, drains, accepted[n]) {
        PlacesMeaning(c, drains[accepted[n].ticket].items, StartOf(m, drains, accepted[n].ticket));
      }
      AscendingConcat(StreamPlaces(c, m, drains, accepted[..n]), last);
      LastPlaces(c, m, drains, accepted);
      DrainOrderNext(m, drains, accepted);
    }
  }
}
