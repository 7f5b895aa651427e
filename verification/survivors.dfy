/**
 * Which articles the corpus keeps, stated by topic name. The filters work on
 * provisional ids; since the provisional table is a bijection, an id is seen
 * in a split exactly when its topic name is.
 */
module Survivors {

  import opened Seqs
  import opened Parser
  import opened Topics
  import opened Corpus

  predicate SingleTopic(r: RawDocument) {
    r.topics.Some? && |r.topics.value| == 1
  }

  /**
   * The articles that reach the cross-split filter: the train and test
   * articles, and with `multiclass` only those with exactly one topic.
   */
  function Candidates(raws: seq<RawDocument>, multiclass: bool): (cands: seq<RawDocument>)
    ensures forall i :: 0 <= i < |cands| ==> Used(cands[i]) && cands[i] in raws
    ensures multiclass ==> forall i :: 0 <= i < |cands| ==> SingleTopic(cands[i])
  {
    if multiclass then Filter(Filter(raws, Used), SingleTopic) else Filter(raws, Used)
  }

  /** Some article of `rs` in split `s` carries topic `x`. */
  predicate Carries(rs: seq<RawDocument>, s: Split, x: Topic) {
    exists i :: 0 <= i < |rs| && WellFormed(rs[i]) && Modapte(rs[i].attrs) == s && x in rs[i].topics.value
  }

  /** Topic `x` is carried by a train article and by a test article of `rs`. */
  predicate InBothSplits(rs: seq<RawDocument>, x: Topic) {
    Carries(rs, Train, x) && Carries(rs, Test, x)
  }

  /** Every document of `docs` carries a topic seen in both splits of `rs`. */
  predicate AllCarryBoth(docs: seq<Document>, rs: seq<RawDocument>) {
    forall d :: d in docs ==> exists j :: 0 <= j < |d.topics| && InBothSplits(rs, d.topics[j])
  }

  /** Every well-formed article of `rs` carrying a topic seen in both splits of `rs` is in `kept`. */
  predicate CarriersKept(rs: seq<RawDocument>, kept: seq<RawDocument>) {
    forall i, j :: (0 <= i < |rs| && rs[i].topics.Some? && 0 <= j < |rs[i].topics.value|
      && InBothSplits(rs, rs[i].topics.value[j])) ==> rs[i] in kept
  }

  /** Article `r` lists a topic that is carried in both splits of `rs`. */
  predicate ListsBothSplitTopic(rs: seq<RawDocument>, r: RawDocument) {
    r.topics.Some? && exists j :: 0 <= j < |r.topics.value| && InBothSplits(rs, r.topics.value[j])
  }

  function CarrierTest(rs: seq<RawDocument>): RawDocument -> bool {
    r => ListsBothSplitTopic(rs, r)
  }

  /** The articles of `rs` that list a topic carried in both splits of `rs`, in order and with repeats. */
  function Carriers(rs: seq<RawDocument>): seq<RawDocument> {
    Filter(rs, CarrierTest(rs))
  }

  /** Distinct topics have distinct ids in a valid table. */
  lemma IdsInjective(t: TopicTable, x: Topic, y: Topic)
    requires Valid(t) && x in t.ids && y in t.ids && t.ids[x] == t.ids[y]
    ensures x == y
  {
    ValidIsBijection(t);
  }

  /** The id of `x` is among the categories of split `s` exactly when the name `x` is. */
  lemma CatsInByName(docs: seq<Document>, t: TopicTable, s: Split, x: Topic)
    requires Valid(t) && x in t.ids
    requires forall k :: 0 <= k < |docs| ==> Numbered(docs[k], t) && Derived(docs[k])
    ensures t.ids[x] in CatsIn(docs, s) <==> Carries(Map(Source, docs), s, x)
  {
    if t.ids[x] in CatsIn(docs, s) {
      var i :| 0 <= i < |docs| && docs[i].modapte == s && t.ids[x] in docs[i].cats;
      IdCarried(docs, t, s, x, i);
    }
    if Carries(Map(Source, docs), s, x) {
      var i :| 0 <= i < |docs| && WellFormed(Map(Source, docs)[i])
        && Modapte(Map(Source, docs)[i].attrs) == s && x in Map(Source, docs)[i].topics.value;
      NameNumbered(docs, t, s, x, i);
    }
  }

  /** A document of split `s` with the id of `x` among its categories carries `x`. */
  lemma IdCarried(docs: seq<Document>, t: TopicTable, s: Split, x: Topic, i: int)
    requires Valid(t) && x in t.ids
    requires 0 <= i < |docs| && Numbered(docs[i], t) && Derived(docs[i])
    requires docs[i].modapte == s && t.ids[x] in docs[i].cats
    ensures Carries(Map(Source, docs), s, x)
  {
    var m :| 0 <= m < |docs[i].cats| && docs[i].cats[m] == t.ids[x];
    IdsInjective(t, docs[i].topics[m], x);
    assert Map(Source, docs)[i] == Source(docs[i]);
  }

  /** A document of split `s` carrying `x` has the id of `x` among its categories. */
  lemma NameNumbered(docs: seq<Document>, t: TopicTable, s: Split, x: Topic, i: int)
    requires 0 <= i < |docs| && Numbered(docs[i], t) && Derived(docs[i])
    requires WellFormed(Map(Source, docs)[i]) && Modapte(Map(Source, docs)[i].attrs) == s
    requires x in Map(Source, docs)[i].topics.value
    ensures x in t.ids && t.ids[x] in CatsIn(docs, s)
  {
    assert Map(Source, docs)[i] == Source(docs[i]);
    var m :| 0 <= m < |docs[i].topics| && docs[i].topics[m] == x;
    assert docs[i].cats[m] == t.ids[x];
  }

  /** The documents entering the cross-split filter are the candidates, annotated. */
  lemma SingleIsCandidates(raws: seq<RawDocument>, multiclass: bool)
    requires AllWellFormed(raws)
    ensures var got := GetDocs(raws).0;
            Map(Source, if multiclass then FilterMultiLabel(got) else got) == Candidates(raws, multiclass)
  {
    var got := GetDocs(raws).0;
    if multiclass {
      forall i | 0 <= i < |got|
        ensures SingleLabel(got[i]) == SingleTopic(Source(got[i]))
      {
        assert got[i] in got;
      }
      FilterMap(Source, got, SingleLabel, SingleTopic);
    }
  }

  /** A document left with a category after restriction carries a topic seen in both splits. */
  lemma RestrictedCarriesBoth(docs: seq<Document>, t: TopicTable, i: nat)
    requires Valid(t)
    requires forall k :: 0 <= k < |docs| ==> Numbered(docs[k], t) && Derived(docs[k])
    requires i < |docs| && |RestrictCats(docs[i], ValidCats(docs)).cats| > 0
    ensures exists j :: 0 <= j < |docs[i].topics| && InBothSplits(Map(Source, docs), docs[i].topics[j])
  {
    var c0 := RestrictCats(docs[i], ValidCats(docs)).cats[0];
    assert c0 in docs[i].cats && c0 in ValidCats(docs);
    var j :| 0 <= j < |docs[i].cats| && docs[i].cats[j] == c0;
    var x := docs[i].topics[j];
    CatsInByName(docs, t, Train, x);
    CatsInByName(docs, t, Test, x);
  }

  /** A document with a topic seen in both splits of the input is kept by `filter_empty_cats`. */
  lemma BothSplitsKept(docs: seq<Document>, t: TopicTable, i: nat, j: nat)
    requires Valid(t)
    requires forall k :: 0 <= k < |docs| ==> Numbered(docs[k], t) && Derived(docs[k])
    requires i < |docs| && j < |docs[i].topics| && InBothSplits(Map(Source, docs), docs[i].topics[j])
    ensures Source(docs[i]) in Map(Source, FilterEmptyCats(docs))
  {
    var valid := ValidCats(docs);
    var kept := FilterEmptyCats(docs);
    var x := docs[i].topics[j];
    CatsInByName(docs, t, Train, x);
    CatsInByName(docs, t, Test, x);
    assert docs[i].cats[j] in valid;
    var e := RestrictCats(docs[i], valid);
    assert e in kept;
    var m :| 0 <= m < |kept| && kept[m] == e;
    assert Map(Source, kept)[m] == Source(docs[i]);
  }

  /** A document keeps a category through the restriction exactly when it lists a topic seen in both splits. */
  lemma KeptExactlyCarriers(docs: seq<Document>, t: TopicTable, i: nat)
    requires Valid(t)
    requires forall k :: 0 <= k < |docs| ==> Numbered(docs[k], t) && Derived(docs[k])
    requires i < |docs|
    ensures HasCats(RestrictCats(docs[i], ValidCats(docs))) <==> ListsBothSplitTopic(Map(Source, docs), Source(docs[i]))
  {
    var rs := Map(Source, docs);
    assert Source(docs[i]).topics.value == docs[i].topics;
    if HasCats(RestrictCats(docs[i], ValidCats(docs))) {
      RestrictedCarriesBoth(docs, t, i);
    }
    if ListsBothSplitTopic(rs, Source(docs[i])) {
      var j :| 0 <= j < |docs[i].topics| && InBothSplits(rs, docs[i].topics[j]);
      CarrierKeepsCat(docs, t, i, j);
    }
  }

  /** The category of a topic seen in both splits survives the restriction. */
  lemma CarrierKeepsCat(docs: seq<Document>, t: TopicTable, i: nat, j: nat)
    requires Valid(t)
    requires forall k :: 0 <= k < |docs| ==> Numbered(docs[k], t) && Derived(docs[k])
    requires i < |docs| && j < |docs[i].topics| && InBothSplits(Map(Source, docs), docs[i].topics[j])
    ensures docs[i].topics[j] in t.ids && t.ids[docs[i].topics[j]] in ValidCats(docs)
    ensures HasCats(RestrictCats(docs[i], ValidCats(docs)))
  {
    var x := docs[i].topics[j];
    assert Numbered(docs[i], t);
    CatsInByName(docs, t, Train, x);
    CatsInByName(docs, t, Test, x);
    assert docs[i].cats[j] in RestrictCats(docs[i], ValidCats(docs)).cats;
  }

  /** The articles behind the documents `filter_empty_cats` keeps are exactly the carriers, in order. */
  lemma FilterKeepsCarriers(docs: seq<Document>, t: TopicTable)
    requires Valid(t)
    requires forall k :: 0 <= k < |docs| ==> Numbered(docs[k], t) && Derived(docs[k])
    ensures Map(Source, FilterEmptyCats(docs)) == Carriers(Map(Source, docs))
  {
    var rs := Map(Source, docs);
    var restricted := RestrictAll(docs, ValidCats(docs));
    forall i | 0 <= i < |restricted|
      ensures HasCats(restricted[i]) == CarrierTest(rs)(Source(restricted[i]))
    {
      KeptExactlyCarriers(docs, t, i);
      assert Source(restricted[i]) == Source(docs[i]);
    }
    FilterMap(Source, restricted, HasCats, CarrierTest(rs));
  }

  /** The documents that enter `filter_empty_cats` inside `Build`. */
  function Single(raws: seq<RawDocument>, multiclass: bool): seq<Document>
    requires AllWellFormed(raws)
  {
    var got := GetDocs(raws).0;
    if multiclass then FilterMultiLabel(got) else got
  }

  /** The documents entering the cross-split filter: numbered by a valid table, annotated, and the candidates. */
  lemma SingleFacts(raws: seq<RawDocument>, multiclass: bool)
    requires AllWellFormed(raws)
    ensures var single := Single(raws, multiclass);
            var t := GetDocs(raws).1;
            && Valid(t)
            && (forall k :: 0 <= k < |single| ==> Numbered(single[k], t) && Derived(single[k]))
            && Map(Source, single) == Candidates(raws, multiclass)
  {
    var got := GetDocs(raws).0;
    var single := Single(raws, multiclass);
    SingleIsCandidates(raws, multiclass);
    forall k | 0 <= k < |single|
      ensures Numbered(single[k], GetDocs(raws).1) && Derived(single[k])
    {
      assert single[k] in got;
    }
  }

  /** The facts about the stages of `Build` that the survivor lemmas share. */
  lemma StageFacts(raws: seq<RawDocument>, multiclass: bool)
    requires AllWellFormed(raws)
    ensures var single := Single(raws, multiclass);
            var t := GetDocs(raws).1;
            var c := Build(raws, multiclass);
            && Valid(t)
            && (forall k :: 0 <= k < |single| ==> Numbered(single[k], t) && Derived(single[k]))
            && Map(Source, single) == Candidates(raws, multiclass)
            && c.docs == Renumber(FilterEmptyCats(single)).0
  {
    SingleFacts(raws, multiclass);
  }

  /** The documents of the corpus built from `single` keep their order among the sources of `single`. */
  lemma SurvivorsInOrder(single: seq<Document>, docs: seq<Document>)
    requires docs == Renumber(FilterEmptyCats(single)).0
    ensures Subseq(Map(Source, docs), Map(Source, single))
  {
    var kept := FilterEmptyCats(single);
    assert Map(Source, docs) == Map(Source, kept);
    SubseqMap(Source, kept, RestrictAll(single, ValidCats(single)));
  }

  /** Every document of the corpus built from `single` carries a topic seen in both splits. */
  lemma SurvivorsCarryBoth(single: seq<Document>, t: TopicTable, docs: seq<Document>)
    requires Valid(t)
    requires forall k :: 0 <= k < |single| ==> Numbered(single[k], t) && Derived(single[k])
    requires docs == Renumber(FilterEmptyCats(single)).0
    ensures AllCarryBoth(docs, Map(Source, single))
  {
    var kept := FilterEmptyCats(single);
    forall d | d in docs
      ensures exists j :: 0 <= j < |d.topics| && InBothSplits(Map(Source, single), d.topics[j])
    {
      var k :| 0 <= k < |docs| && docs[k] == d;
      assert kept[k] in kept;
      var i :| 0 <= i < |single| && kept[k] == RestrictCats(single[i], ValidCats(single));
      RestrictedCarriesBoth(single, t, i);
      assert d.topics == single[i].topics;
    }
  }

  /** Every document of `single` carrying a topic seen in both splits reaches the corpus. */
  lemma CarriersSurvive(single: seq<Document>, t: TopicTable, docs: seq<Document>)
    requires Valid(t)
    requires forall k :: 0 <= k < |single| ==> Numbered(single[k], t) && Derived(single[k])
    requires docs == Renumber(FilterEmptyCats(single)).0
    ensures CarriersKept(Map(Source, single), Map(Source, docs))
  {
    var rs := Map(Source, single);
    assert Map(Source, docs) == Map(Source, FilterEmptyCats(single));
    forall i, j | 0 <= i < |rs| && rs[i].topics.Some? && 0 <= j < |rs[i].topics.value| && InBothSplits(rs, rs[i].topics.value[j])
      ensures rs[i] in Map(Source, docs)
    {
      BothSplitsKept(single, t, i, j);
    }
  }

  /**
   * The corpus keeps exactly the candidate articles that carry a topic seen
   * in both a train and a test candidate, in input order.
   */
  lemma BuildSurvivors(raws: seq<RawDocument>, multiclass: bool)
    requires AllWellFormed(raws)
    ensures var c := Build(raws, multiclass);
            var cands := Candidates(raws, multiclass);
            && Subseq(Map(Source, c.docs), cands)
            && AllCarryBoth(c.docs, cands)
            && CarriersKept(cands, Map(Source, c.docs))
            && Map(Source, c.docs) == Carriers(cands)
  {
    StageFacts(raws, multiclass);
    var single := Single(raws, multiclass);
    var t := GetDocs(raws).1;
    var docs := Build(raws, multiclass).docs;
    SurvivorsInOrder(single, docs);
    SurvivorsCarryBoth(single, t, docs);
    CarriersSurvive(single, t, docs);
    FilterKeepsCarriers(single, t);
  }
}
