/** pkg/process/process.go: relisting a model's samples with labels and timestamps. */
module Processes {
  import opened Collections
  import opened SafeLists
  import opened Samples

  /** internal/labels/labels.go */
  const GLOBAL_LABELS: LabelMap := map["source" := "kubemonitor"]

  function AddMissing(labels: LabelMap, extra: LabelMap): LabelMap { extra + labels }

  function Addressed(labels: LabelMap): LabelMap {
    if "instance" in labels then labels["address" := labels["instance"]] else labels
  }

  function Enrich(labels: LabelMap, additional: LabelMap): LabelMap {
    Addressed(AddMissing(AddMissing(labels, GLOBAL_LABELS), additional))
  }

  predicate Present(s: Sample?) { s != null }

  /** The loops over a label map, which may visit its keys in any order. */
  method AddMissingLabels(s: Sample, extra: LabelMap)
    modifies s`Labels
    ensures s.Labels == AddMissing(old(s.Labels), extra)
  {
    var rest := extra.Keys;
    while rest != {}
      invariant rest <= extra.Keys
      invariant s.Labels.Keys == old(s.Labels).Keys + (extra.Keys - rest)
      invariant forall k :: k in s.Labels ==> s.Labels[k] == AddMissing(old(s.Labels), extra)[k]
      decreases rest
    {
      var k :| k in rest;
      if k !in s.Labels {
        s.Labels := s.Labels[k := extra[k]];
      }
      rest := rest - {k};
    }
  }

  method ProcessSample(s: Sample, additional: LabelMap, now: Time)
    modifies s
    ensures s.Labels == Enrich(old(s.Labels), additional)
    ensures s.Timestamp == if old(s.Timestamp) == ZERO_TIME then now else old(s.Timestamp)
  {
    if s.Timestamp == ZERO_TIME {
      s.Timestamp := now;
    }
    AddMissingLabels(s, GLOBAL_LABELS);
    AddMissingLabels(s, additional);
    if "instance" in s.Labels {
      s.Labels := s.Labels["address" := s.Labels["instance"]];
    }
  }

  /** Processing again with the same labels changes nothing. */
  lemma EnrichTwice(labels: LabelMap, additional: LabelMap)
    ensures Enrich(Enrich(labels, additional), additional) == Enrich(labels, additional)
  {
    var once := Enrich(labels, additional);
    assert AddMissing(once, GLOBAL_LABELS) == once;
    assert AddMissing(once, additional) == once;
  }

  lemma {:induction false} PresentMembers(list: seq<Sample?>)
    ensures forall i :: 0 <= i < |Select(Present, list)| ==> Select(Present, list)[i] != null && Select(Present, list)[i] in list
  {
    if list != [] {
      PresentMembers(list[1..]);
    }
  }

  /** The same sample may be listed more than once; it still ends up as if processed once.
      `now` is the clock, which never shows the zero time; no additional labels is the
      empty map. */
  method Process(slist: SampleList, additional: LabelMap, now: Time) returns (nlst: SampleList)
    requires now != ZERO_TIME
    modifies slist, set s | s in slist.L && s != null
    ensures fresh(nlst) && slist.Fifo() == []
    ensures nlst.Fifo() == Select(Present, old(slist.Fifo()))
    ensures forall i :: 0 <= i < |nlst.Fifo()| ==> nlst.Fifo()[i] != null && nlst.Fifo()[i].Timestamp != ZERO_TIME
    ensures forall s: Sample :: s in old(slist.L) ==>
              s.Labels == Enrich(old(s.Labels), additional) && s.Timestamp == (if old(s.Timestamp) == ZERO_TIME then now else old(s.Timestamp))
  {
    nlst := new SafeList<Sample?>();
    var size := slist.Len();
    if size == 0 {
      return;
    }
    var ss := slist.PopBackAll();
    ReverseMembers(old(slist.L));
    for i := 0 to |ss|
      invariant ss == Reverse(old(slist.L)) && slist.Fifo() == [] && fresh(nlst)
      invariant forall s :: s in ss <==> s in old(slist.L)
      invariant nlst.Fifo() == Select(Present, ss[..i])
      invariant forall s: Sample :: s in old(slist.L) && s !in ss[..i] ==> s.Labels == old(s.Labels) && s.Timestamp == old(s.Timestamp)
      invariant forall s: Sample :: s in old(slist.L) && s in ss[..i] ==>
                  s.Labels == Enrich(old(s.Labels), additional) && s.Timestamp == (if old(s.Timestamp) == ZERO_TIME then now else old(s.Timestamp))
    {
      assert ss[..i + 1] == ss[..i] + [ss[i]];
      SelectConcat(Present, ss[..i], [ss[i]]);
      if ss[i] != null {
        assert ss[i] in old(slist.L);
        EnrichTwice(old(ss[i].Labels), additional);
        ProcessSample(ss[i], additional, now);
        nlst.PushFront(ss[i]);
      }
    }
    assert ss[..|ss|] == ss;
    PresentMembers(ss);
  }

  /** Which label wins: the address is the instance when there is one; otherwise the
      sample's own value, then the global one, then the additional one. */
  lemma EnrichPrecedence(labels: LabelMap, additional: LabelMap, k: string)
    ensures var r := Enrich(labels, additional);
            && (k in r <==> k in labels || k in GLOBAL_LABELS || k in additional || (k == "address" && "instance" in r))
            && (k in r && (k != "address" || "instance" !in r) ==>
                  r[k] == if k in labels then labels[k] else if k in GLOBAL_LABELS then GLOBAL_LABELS[k] else additional[k])
            && ("instance" in r ==> r["address"] == r["instance"])
  {
  }

  lemma {:induction false} PresentTwice(s: seq<Sample?>)
    ensures Select(Present, Select(Present, s)) == Select(Present, s)
  {
    if s != [] {
      PresentTwice(s[1..]);
    }
  }

  /** So a second Process with the same labels yields the same list of unchanged samples. */
  method ProcessTwice(slist: SampleList, additional: LabelMap, now: Time, later: Time) returns (nlst: SampleList)
    requires now != ZERO_TIME && later != ZERO_TIME
    modifies slist, set s | s in slist.L && s != null
    ensures nlst.Fifo() == Select(Present, old(slist.Fifo()))
    ensures forall s: Sample :: s in old(slist.L) ==>
              s.Labels == Enrich(old(s.Labels), additional) && s.Timestamp == (if old(s.Timestamp) == ZERO_TIME then now else old(s.Timestamp))
  {
    ghost var listed := slist.Fifo();
    ReverseMembers(slist.L);
    var once := Process(slist, additional, now);
    PresentTwice(listed);
    SelectMembers(Present, listed);
    ReverseMembers(once.L);
    forall s: Sample | s in old(slist.L)
      ensures Enrich(s.Labels, additional) == s.Labels
    {
      EnrichTwice(old(s.Labels), additional);
    }
    nlst := Process(once, additional, later);
  }
}
