/**
 * The corpus as the comment at datasets.py:110 describes it: every topic of
 * the final table has a train and a test document. `Corpus.Build` follows
 * the code, where renumbering reads the full topic lists and so brings back
 * topics the cross-split filter removed; here the filter also drops those
 * topics from each document, so renumbering sees only the surviving ones.
 */
module Intended {

  import opened Seqs
  import opened Parser
  import opened Topics
  import opened Corpus
  import opened Survivors

  /** The document with only the topics whose provisional id is in `valid`, in their order. */
  function KeepValidTopics(d: Document, t: TopicTable, valid: set<nat>): (r: Document)
    ensures r == d.(topics := r.topics)
    ensures Subseq(r.topics, d.topics)
    ensures forall x :: x in r.topics <==> x in d.topics && x in t.ids && t.ids[x] in valid
  {
    d.(topics := Filter(d.topics, x => x in t.ids && t.ids[x] in valid))
  }

  /** A document with its labels blanked: the article and the fields derived from it. */
  function WithoutLabels(d: Document): Document {
    d.(topics := [], cats := [])
  }

  /** One document through the corrected filter: categories and topic names restricted together. */
  function RestrictBoth(d: Document, t: TopicTable, valid: set<nat>): (r: Document)
    ensures forall x :: x in r.topics ==> x in t.ids && t.ids[x] in valid
  {
    KeepValidTopics(RestrictCats(d, valid), t, valid)
  }

  /**
   * `filter_empty_cats` that restricts the topic names along with the
   * categories: every topic a kept document still lists has a provisional id
   * seen in both splits.
   */
  function FilterEmptyCatsIntended(docs: seq<Document>, t: TopicTable): (r: seq<Document>)
    ensures forall d :: d in r ==> |d.cats| > 0
    ensures forall d, x :: d in r && x in d.topics ==> x in t.ids && t.ids[x] in ValidCats(docs)
    ensures |r| == |FilterEmptyCats(docs)|
    ensures forall k :: 0 <= k < |r| ==> r[k] == KeepValidTopics(FilterEmptyCats(docs)[k], t, ValidCats(docs))
  {
    var valid := ValidCats(docs);
    var restricted := Map(d => RestrictBoth(d, t, valid), docs);
    forall d, x | d in restricted && x in d.topics
      ensures x in t.ids && t.ids[x] in valid
    {
      var i :| 0 <= i < |restricted| && restricted[i] == d;
    }
    SameDocumentsAsFilter(docs, t, restricted);
    Filter(restricted, HasCats)
  }

  /**
   * `ReutersCorpus` with the corrected filter: renumbering then yields a
   * gap-free table in first-seen order whose every topic is carried by a
   * train candidate and by a test candidate.
   */
  function BuildIntended(raws: seq<RawDocument>, multiclass: bool): (c: ReutersCorpus)
    requires AllWellFormed(raws)
    ensures Valid(Table(c))
    ensures forall d :: d in c.docs ==> Numbered(d, Table(c))
    ensures c.targetNames == Dedup(Flatten(Map(TopicsOf, c.docs)))
    ensures forall x :: x in c.targetNames <==> InBothSplits(Candidates(raws, multiclass), x)
    ensures Map(WithoutLabels, c.docs) == Map(WithoutLabels, Build(raws, multiclass).docs)
  {
    var kept := FilterEmptyCatsIntended(Single(raws, multiclass), GetDocs(raws).1);
    IntendedFacts(raws, multiclass, kept);
    var renumbered := Renumber(kept);
    ReutersCorpus(renumbered.0, renumbered.1.ids, renumbered.1.names)
  }

  /** What renumbering the documents kept by the corrected filter gives. */
  lemma IntendedFacts(raws: seq<RawDocument>, multiclass: bool, kept: seq<Document>)
    requires AllWellFormed(raws)
    requires kept == FilterEmptyCatsIntended(Single(raws, multiclass), GetDocs(raws).1)
    ensures var r := Renumber(kept);
      && (forall d :: d in r.0 ==> Numbered(d, r.1))
      && r.1.names == Dedup(Flatten(Map(TopicsOf, r.0)))
      && (forall x :: x in r.1.names <==> InBothSplits(Candidates(raws, multiclass), x))
      && Map(WithoutLabels, r.0) == Map(WithoutLabels, Build(raws, multiclass).docs)
  {
    RenumberedTable(kept);
    KeptTopicsInBoth(raws, multiclass, kept);
    BothSplitTopicsListed(raws, multiclass, kept);
    SameArticlesAsBuild(raws, multiclass, kept);
  }

  /** Every topic listed by a document the corrected filter keeps is carried in both splits of the candidates. */
  lemma KeptTopicsInBoth(raws: seq<RawDocument>, multiclass: bool, kept: seq<Document>)
    requires AllWellFormed(raws)
    requires kept == FilterEmptyCatsIntended(Single(raws, multiclass), GetDocs(raws).1)
    ensures forall x :: x in Flatten(Map(TopicsOf, kept)) ==> InBothSplits(Candidates(raws, multiclass), x)
  {
    var single := Single(raws, multiclass);
    var t := GetDocs(raws).1;
    SingleFacts(raws, multiclass);
    forall x | x in Flatten(Map(TopicsOf, kept))
      ensures InBothSplits(Map(Source, single), x)
    {
      ListedHasValidId(single, t, kept, x);
      CatsInByName(single, t, Train, x);
      CatsInByName(single, t, Test, x);
    }
  }

  /** A topic listed by a document the corrected filter keeps has a provisional id seen in both splits. */
  lemma ListedHasValidId(single: seq<Document>, t: TopicTable, kept: seq<Document>, x: Topic)
    requires kept == FilterEmptyCatsIntended(single, t)
    requires x in Flatten(Map(TopicsOf, kept))
    ensures x in t.ids && t.ids[x] in ValidCats(single)
  {
    var k :| 0 <= k < |kept| && x in Map(TopicsOf, kept)[k];
    assert kept[k] in kept;
  }

  /**
   * The corrected filter keeps the documents `filter_empty_cats` keeps, in
   * order, with the same categories; only their topic lists are narrowed.
   */
  lemma SameDocumentsAsFilter(docs: seq<Document>, t: TopicTable, restricted: seq<Document>)
    requires |restricted| == |docs|
    requires forall i :: 0 <= i < |docs| ==> restricted[i] == RestrictBoth(docs[i], t, ValidCats(docs))
    ensures |Filter(restricted, HasCats)| == |FilterEmptyCats(docs)|
    ensures forall k :: 0 <= k < |Filter(restricted, HasCats)| ==>
      Filter(restricted, HasCats)[k] == KeepValidTopics(FilterEmptyCats(docs)[k], t, ValidCats(docs))
  {
    var valid := ValidCats(docs);
    var all := RestrictAll(docs, valid);
    var narrow := d => KeepValidTopics(d, t, valid);
    assert restricted == Map(narrow, all);
    forall i | 0 <= i < |all|
      ensures HasCats(all[i]) == HasCats(narrow(all[i]))
    {
      assert narrow(all[i]).cats == all[i].cats;
    }
    FilterMap(narrow, all, HasCats, HasCats);
    assert FilterEmptyCats(docs) == Filter(all, HasCats);
  }

  /** Renumbering the corrected filter's output keeps the same articles, in order, as `Build`. */
  lemma SameArticlesAsBuild(raws: seq<RawDocument>, multiclass: bool, kept: seq<Document>)
    requires AllWellFormed(raws)
    requires kept == FilterEmptyCatsIntended(Single(raws, multiclass), GetDocs(raws).1)
    ensures Map(WithoutLabels, Renumber(kept).0) == Map(WithoutLabels, Build(raws, multiclass).docs)
  {
    var single := Single(raws, multiclass);
    StageFacts(raws, multiclass);
    var filtered := FilterEmptyCats(single);
    var a := Renumber(kept).0;
    var b := Renumber(filtered).0;
    forall k | 0 <= k < |a|
      ensures WithoutLabels(a[k]) == WithoutLabels(b[k])
    {
      assert a[k] == kept[k].(cats := a[k].cats);
      assert kept[k] == filtered[k].(topics := kept[k].topics);
      assert b[k] == filtered[k].(cats := b[k].cats);
    }
    assert Map(WithoutLabels, a) == Map(WithoutLabels, b);
  }

  /** Every topic carried in both splits of the candidates is listed by a document the corrected filter keeps. */
  lemma BothSplitTopicsListed(raws: seq<RawDocument>, multiclass: bool, kept: seq<Document>)
    requires AllWellFormed(raws)
    requires kept == FilterEmptyCatsIntended(Single(raws, multiclass), GetDocs(raws).1)
    ensures forall x :: InBothSplits(Candidates(raws, multiclass), x) ==> x in Flatten(Map(TopicsOf, kept))
  {
    var single := Single(raws, multiclass);
    var t := GetDocs(raws).1;
    SingleFacts(raws, multiclass);
    var rs := Map(Source, single);
    forall x | InBothSplits(rs, x)
      ensures x in Flatten(Map(TopicsOf, kept))
    {
      var i :| 0 <= i < |rs| && WellFormed(rs[i]) && Modapte(rs[i].attrs) == Train && x in rs[i].topics.value;
      assert rs[i].topics.value == single[i].topics;
      var j :| 0 <= j < |single[i].topics| && single[i].topics[j] == x;
      ValidTopicListed(single, t, i, j);
    }
  }

  /** A topic of a document that is carried in both splits survives the corrected filter on that document. */
  lemma ValidTopicListed(single: seq<Document>, t: TopicTable, i: nat, j: nat)
    requires Valid(t)
    requires forall k :: 0 <= k < |single| ==> Numbered(single[k], t) && Derived(single[k])
    requires i < |single| && j < |single[i].topics| && InBothSplits(Map(Source, single), single[i].topics[j])
    ensures single[i].topics[j] in Flatten(Map(TopicsOf, FilterEmptyCatsIntended(single, t)))
  {
    CarrierKeepsCat(single, t, i, j);
    ValidTopicKept(single, t, i, single[i].topics[j]);
  }

  /** A valid topic of a document that keeps a category is listed by the corrected filter's output. */
  lemma ValidTopicKept(docs: seq<Document>, t: TopicTable, i: nat, x: Topic)
    requires i < |docs| && x in docs[i].topics
    requires x in t.ids && t.ids[x] in ValidCats(docs)
    requires HasCats(RestrictCats(docs[i], ValidCats(docs)))
    ensures x in Flatten(Map(TopicsOf, FilterEmptyCatsIntended(docs, t)))
  {
    var valid := ValidCats(docs);
    var kept := FilterEmptyCatsIntended(docs, t);
    var all := RestrictAll(docs, valid);
    var filtered := FilterEmptyCats(docs);
    assert filtered == Filter(all, HasCats);
    assert all[i] in filtered;
    var k :| 0 <= k < |filtered| && filtered[k] == all[i];
    assert kept[k] == KeepValidTopics(all[i], t, valid);
    assert x in Map(TopicsOf, kept)[k];
  }
}
