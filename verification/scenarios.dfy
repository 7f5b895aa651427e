/** Small corpora worked through the pipeline. */
module Scenarios {

  import opened Wrappers
  import opened Seqs
  import opened Parser
  import opened Topics
  import opened Corpus
  import opened Survivors
  import opened Intended

  /** An article in ModApte split `split` (with topics) carrying `topics`. */
  function Article(split: string, topics: seq<Topic>): RawDocument {
    RawDocument(map["LEWISSPLIT" := split, "TOPICS" := "YES"], None, None, None, None, Some(topics))
  }

  const Grain: Topic := Some("grain")
  const Oilseed: Topic := Some("oilseed")
  const Wheat: Topic := Some("wheat")

  const TrainGrain := Article("TRAIN", [Grain])
  const TestGrain := Article("TEST", [Grain])
  const TrainOilseed := Article("TRAIN", [Oilseed])
  const TrainGrainOilseed := Article("TRAIN", [Grain, Oilseed])
  const TrainGrainWheat := Article("TRAIN", [Grain, Wheat])
  const TestGrainWheat := Article("TEST", [Grain, Wheat])

  /** A subsequence of `[a, b]` that contains both of two distinct elements is `[a, b]`. */
  lemma PairSubseq<T>(r: seq<T>, a: T, b: T)
    requires a != b && Subseq(r, [a, b]) && a in r && b in r
    ensures r == [a, b]
  {
    SubseqShort(r, [a, b]);
    SubseqFull(r, [a, b]);
  }

  lemma Flatten2<T(!new)>(x: seq<T>, y: seq<T>)
    ensures Flatten([x, y]) == x + y
  {
    assert [x][..0] == [];
    assert Flatten([x]) == x;
    assert [x, y][..1] == [x];
  }

  /** Everything `Build` and `BuildSurvivors` promise about corpus `c` built from `raws`. */
  predicate Promised(raws: seq<RawDocument>, multiclass: bool, c: ReutersCorpus)
    requires AllWellFormed(raws)
  {
    var cands := Candidates(raws, multiclass);
    && Subseq(Map(Source, c.docs), raws)
    && (forall d :: d in c.docs ==> |d.cats| >= 1 && Numbered(d, Table(c)))
    && Valid(Table(c))
    && c.targetNames == Dedup(Flatten(Map(TopicsOf, c.docs)))
    && (multiclass ==> forall d :: d in c.docs ==> |d.cats| == 1)
    && AllCarryBoth(c.docs, cands)
    && CarriersKept(cands, Map(Source, c.docs))
  }

  lemma BuildKeepsPromise(raws: seq<RawDocument>, multiclass: bool)
    requires AllWellFormed(raws)
    ensures Promised(raws, multiclass, Build(raws, multiclass))
  {
    BuildSurvivors(raws, multiclass);
  }

  /** Every article of `raws` is used: `Candidates` (without `multiclass`) is `raws` itself. */
  lemma AllUsed(raws: seq<RawDocument>)
    requires forall i :: 0 <= i < |raws| ==> Used(raws[i])
    ensures Candidates(raws, false) == raws
  {
    FilterKeepsAll(raws, Used);
  }

  /** The survivors of two articles that both carry a topic seen in both splits are the two articles. */
  lemma BothKept(raws: seq<RawDocument>, c: ReutersCorpus, a: RawDocument, b: RawDocument, x: Topic)
    requires raws == [a, b] && a != b && AllWellFormed(raws) && Promised(raws, false, c)
    requires Used(a) && Used(b) && Modapte(a.attrs) == Train && Modapte(b.attrs) == Test
    requires x in a.topics.value && x in b.topics.value
    ensures Map(Source, c.docs) == [a, b]
  {
    FilterKeepsAll(raws, Used);
    assert Candidates(raws, false) == raws;
    assert InBothSplits(raws, x) by {
      assert raws[0] == a && raws[1] == b;
    }
    var i :| 0 <= i < |a.topics.value| && a.topics.value[i] == x;
    var j :| 0 <= j < |b.topics.value| && b.topics.value[j] == x;
    assert raws[0] in Map(Source, c.docs) by { assert raws[0].topics.value[i] == x; }
    assert raws[1] in Map(Source, c.docs) by { assert raws[1].topics.value[j] == x; }
    PairSubseq(Map(Source, c.docs), a, b);
  }

  /** The numbering facts of a corpus, as `Build` promises them. */
  predicate Numbering(c: ReutersCorpus) {
    && (forall d :: d in c.docs ==> Numbered(d, Table(c)))
    && Valid(Table(c))
    && c.targetNames == Dedup(Flatten(Map(TopicsOf, c.docs)))
  }

  /** One train and one test article about grain: both kept, grain is topic 1. */
  lemma TwoSplitsShareGrain()
    ensures AllWellFormed([TrainGrain, TestGrain])
    ensures var c := Build([TrainGrain, TestGrain], false);
            && Map(Source, c.docs) == [TrainGrain, TestGrain]
            && c.targetNames == [Grain]
            && c.topics == map[Grain := 1]
            && (forall d :: d in c.docs ==> d.cats == [1])
  {
    var raws := [TrainGrain, TestGrain];
    assert AllWellFormed(raws);
    BuildKeepsPromise(raws, false);
    GrainCorpus(Build(raws, false));
  }

  lemma GrainCorpus(c: ReutersCorpus)
    requires AllWellFormed([TrainGrain, TestGrain]) && Promised([TrainGrain, TestGrain], false, c)
    ensures Map(Source, c.docs) == [TrainGrain, TestGrain]
    ensures c.targetNames == [Grain]
    ensures c.topics == map[Grain := 1]
    ensures (forall d :: d in c.docs ==> d.cats == [1])
  {
    assert TrainGrain.attrs != TestGrain.attrs;
    BothKept([TrainGrain, TestGrain], c, TrainGrain, TestGrain, Grain);
    GrainNumbering(c);
  }

  lemma GrainNumbering(c: ReutersCorpus)
    requires Map(Source, c.docs) == [TrainGrain, TestGrain] && Numbering(c)
    ensures c.targetNames == [Grain]
    ensures c.topics == map[Grain := 1]
    ensures (forall d :: d in c.docs ==> d.cats == [1])
  {
    assert Source(c.docs[0]) == TrainGrain && Source(c.docs[1]) == TestGrain;
    assert Map(TopicsOf, c.docs) == [[Grain], [Grain]];
    GrainNames(c.targetNames, Map(TopicsOf, c.docs));
    forall d | d in c.docs
      ensures d.cats == [1]
    {
      var k :| 0 <= k < |c.docs| && c.docs[k] == d;
      assert Map(Source, c.docs)[k] == Source(d);
      CatsByPosition(d, Table(c), [Grain]);
    }
    assert c.targetNames[0] == Grain;
    assert c.topics.Keys == {Grain};
  }

  lemma GrainNames(names: seq<Topic>, lists: seq<seq<Topic>>)
    requires lists == [[Grain], [Grain]] && names == Dedup(Flatten(lists))
    ensures names == [Grain]
  {
    Flatten2([Grain], [Grain]);
    assert [Grain, Grain][1..] == [Grain];
    assert Without([Grain][1..], Grain) == [];
    assert Without([Grain], Grain) == [];
  }

  /** A document whose topics list the table's names in order has categories 1..n. */
  lemma CatsByPosition(d: Document, t: TopicTable, names: seq<Topic>)
    requires Valid(t) && Numbered(d, t) && t.names == names && d.topics == names
    ensures |d.cats| == |names|
    ensures forall i :: 0 <= i < |names| ==> d.cats[i] == i + 1
  {
  }

  /**
   * A train article on oilseed that no test article mentions is dropped,
   * and oilseed gets no id.
   */
  lemma TrainOnlyTopicDropped()
    ensures AllWellFormed([TrainGrain, TestGrain, TrainOilseed])
    ensures var c := Build([TrainGrain, TestGrain, TrainOilseed], false);
            && TrainOilseed !in Map(Source, c.docs)
            && TrainGrain in Map(Source, c.docs) && TestGrain in Map(Source, c.docs)
            && Oilseed !in c.topics
  {
    var raws := [TrainGrain, TestGrain, TrainOilseed];
    assert AllWellFormed(raws);
    BuildKeepsPromise(raws, false);
    OilseedCorpus(Build(raws, false));
  }

  lemma OilseedCorpus(c: ReutersCorpus)
    requires AllWellFormed([TrainGrain, TestGrain, TrainOilseed])
    requires Promised([TrainGrain, TestGrain, TrainOilseed], false, c)
    ensures TrainOilseed !in Map(Source, c.docs)
    ensures TrainGrain in Map(Source, c.docs) && TestGrain in Map(Source, c.docs)
    ensures Oilseed !in c.topics
  {
    AllUsed([TrainGrain, TestGrain, TrainOilseed]);
    GrainCarriersKept(Map(Source, c.docs));
    OilseedNeverInTest();
    OnlyGrainKept(c.docs);
    NoOilseedId(c);
  }

  /** Both grain articles of the oilseed corpus are kept. */
  lemma GrainCarriersKept(kept: seq<RawDocument>)
    requires CarriersKept([TrainGrain, TestGrain, TrainOilseed], kept)
    ensures TrainGrain in kept && TestGrain in kept
  {
    var raws := [TrainGrain, TestGrain, TrainOilseed];
    assert InBothSplits(raws, Grain) by {
      assert raws[0] == TrainGrain && raws[1] == TestGrain;
    }
    assert raws[0].topics.value[0] == Grain && raws[1].topics.value[0] == Grain;
  }

  /** No test article of the oilseed corpus carries oilseed. */
  lemma OilseedNeverInTest()
    ensures !Carries([TrainGrain, TestGrain, TrainOilseed], Test, Oilseed)
  {
    var raws := [TrainGrain, TestGrain, TrainOilseed];
    forall i | 0 <= i < |raws|
      ensures !(WellFormed(raws[i]) && Modapte(raws[i].attrs) == Test && Oilseed in raws[i].topics.value)
    {
      if i == 1 {
        assert raws[1].topics.value == [Grain] && Grain != Oilseed;
      } else {
        assert raws[i].attrs["LEWISSPLIT"] == "TRAIN";
      }
    }
  }

  /** The survivors of the oilseed corpus are its grain articles. */
  lemma OnlyGrainKept(docs: seq<Document>)
    requires Subseq(Map(Source, docs), [TrainGrain, TestGrain, TrainOilseed])
    requires AllCarryBoth(docs, [TrainGrain, TestGrain, TrainOilseed])
    requires !Carries([TrainGrain, TestGrain, TrainOilseed], Test, Oilseed)
    ensures TrainOilseed !in Map(Source, docs)
    ensures forall d :: d in docs ==> d.topics == [Grain]
  {
    forall d | d in docs
      ensures d.topics == [Grain]
    {
      GrainSurvivor(docs, d);
    }
    forall k | 0 <= k < |docs|
      ensures Map(Source, docs)[k] != TrainOilseed
    {
      assert docs[k] in docs;
      GrainSurvivor(docs, docs[k]);
    }
  }

  lemma GrainSurvivor(docs: seq<Document>, d: Document)
    requires Subseq(Map(Source, docs), [TrainGrain, TestGrain, TrainOilseed])
    requires AllCarryBoth(docs, [TrainGrain, TestGrain, TrainOilseed])
    requires !Carries([TrainGrain, TestGrain, TrainOilseed], Test, Oilseed)
    requires d in docs
    ensures d.topics == [Grain] && Source(d) != TrainOilseed
  {
    var raws := [TrainGrain, TestGrain, TrainOilseed];
    SourceKept(docs, raws, d);
    var j :| 0 <= j < |d.topics| && InBothSplits(raws, d.topics[j]);
    NotOilseedArticle(d, j, raws);
    assert Source(d) == TrainGrain || Source(d) == TestGrain;
    assert Source(d).topics == Some([Grain]);
  }

  /** The article behind a kept document is one of the articles. */
  lemma SourceKept(docs: seq<Document>, raws: seq<RawDocument>, d: Document)
    requires Subseq(Map(Source, docs), raws) && d in docs
    ensures Source(d) in raws
  {
    var k :| 0 <= k < |docs| && docs[k] == d;
    assert Map(Source, docs)[k] == Source(d);
    SubseqIn(Map(Source, docs), raws, Source(d));
  }

  /** A document carrying a topic seen in both splits is not the oilseed article when no test article has oilseed. */
  lemma NotOilseedArticle(d: Document, j: int, raws: seq<RawDocument>)
    requires !Carries(raws, Test, Oilseed)
    requires 0 <= j < |d.topics| && InBothSplits(raws, d.topics[j])
    ensures Source(d) != TrainOilseed
  {
    assert d.topics[j] != Oilseed;
  }

  /** When every document carries only grain, grain is the only topic with an id. */
  lemma NoOilseedId(c: ReutersCorpus)
    requires forall d :: d in c.docs ==> d.topics == [Grain]
    requires Valid(Table(c)) && c.targetNames == Dedup(Flatten(Map(TopicsOf, c.docs)))
    ensures Oilseed !in c.topics
  {
    forall x | x in c.targetNames
      ensures x == Grain
    {
      assert x in Flatten(Map(TopicsOf, c.docs));
      var k :| 0 <= k < |c.docs| && x in Map(TopicsOf, c.docs)[k];
      assert c.docs[k] in c.docs;
    }
    assert Grain != Oilseed;
  }

  /**
   * An article outside the ModApte splits needs no `TOPICS` attribute:
   * `_add_modapte` never reads it, the article is `unused`, and it is dropped.
   */
  const NotUsedArticle := RawDocument(map["LEWISSPLIT" := "NOT-USED"], None, None, None, None, Some([Grain]))

  lemma UnusedWithoutTopicsAttribute()
    ensures AllWellFormed([NotUsedArticle])
    ensures "TOPICS" !in NotUsedArticle.attrs && Modapte(NotUsedArticle.attrs) == Unused
    ensures Build([NotUsedArticle], false).docs == []
  {
    var raws := [NotUsedArticle];
    assert AllWellFormed(raws);
    BuildKeepsPromise(raws, false);
    NothingUsedCorpus(Build(raws, false));
  }

  lemma NothingUsedCorpus(c: ReutersCorpus)
    requires AllWellFormed([NotUsedArticle]) && Promised([NotUsedArticle], false, c)
    ensures c.docs == []
  {
    var cands := Candidates([NotUsedArticle], false);
    assert !Used(NotUsedArticle);
    assert |cands| == 0;
    assert forall x :: !InBothSplits(cands, x);
  }

  /** With `multiclass`, articles with two topics are dropped before the cross-split filter. */
  lemma MultiLabelDropped()
    ensures AllWellFormed([TrainGrainWheat, TestGrainWheat])
    ensures Candidates([TrainGrainWheat, TestGrainWheat], true) == []
    ensures Build([TrainGrainWheat, TestGrainWheat], true).docs == []
  {
    var raws := [TrainGrainWheat, TestGrainWheat];
    assert AllWellFormed(raws);
    BuildKeepsPromise(raws, true);
    TwoTopicCorpus(Build(raws, true));
  }

  lemma TwoTopicCorpus(c: ReutersCorpus)
    requires AllWellFormed([TrainGrainWheat, TestGrainWheat])
    requires Promised([TrainGrainWheat, TestGrainWheat], true, c)
    ensures Candidates([TrainGrainWheat, TestGrainWheat], true) == []
    ensures c.docs == []
  {
    if |c.docs| > 0 {
      assert false;
    }
  }

  /**
   * Renumbering rebuilds categories from the full topic lists, so a topic
   * removed by the cross-split filter comes back: oilseed, never seen in a
   * test article, ends up with id 2 on the surviving train article.
   */
  lemma FilteredTopicReturns()
    ensures AllWellFormed([TrainGrainOilseed, TestGrain])
    ensures var c := Build([TrainGrainOilseed, TestGrain], false);
            && !InBothSplits([TrainGrainOilseed, TestGrain], Oilseed)
            && Map(Source, c.docs) == [TrainGrainOilseed, TestGrain]
            && c.targetNames == [Grain, Oilseed]
            && (forall d :: d in c.docs && Source(d) == TrainGrainOilseed ==> d.cats == [1, 2])
  {
    var raws := [TrainGrainOilseed, TestGrain];
    assert AllWellFormed(raws);
    BuildKeepsPromise(raws, false);
    PairNeverInTest();
    ReturnedTopicCorpus(Build(raws, false));
  }

  lemma ReturnedTopicCorpus(c: ReutersCorpus)
    requires AllWellFormed([TrainGrainOilseed, TestGrain])
    requires Promised([TrainGrainOilseed, TestGrain], false, c)
    ensures Map(Source, c.docs) == [TrainGrainOilseed, TestGrain]
    ensures c.targetNames == [Grain, Oilseed]
    ensures (forall d :: d in c.docs && Source(d) == TrainGrainOilseed ==> d.cats == [1, 2])
  {
    assert TrainGrainOilseed.attrs != TestGrain.attrs;
    BothKept([TrainGrainOilseed, TestGrain], c, TrainGrainOilseed, TestGrain, Grain);
    ReturnedTopicNumbering(c);
  }

  /**
   * With the filter that also drops the names of removed topics, the same two
   * articles both survive, and the table holds grain alone.
   */
  lemma IntendedDropsFilteredTopic()
    ensures AllWellFormed([TrainGrainOilseed, TestGrain])
    ensures var c := BuildIntended([TrainGrainOilseed, TestGrain], false);
            && c.targetNames == [Grain]
            && |c.docs| == 2
            && c.docs[0].attrs == TrainGrainOilseed.attrs
            && c.docs[1].attrs == TestGrain.attrs
  {
    var raws := [TrainGrainOilseed, TestGrain];
    assert AllWellFormed(raws);
    AllUsed(raws);
    FilteredTopicReturns();
    var c := BuildIntended(raws, false);
    PairNames(c.targetNames);
    SameArticles(c.docs, Build(raws, false).docs);
  }

  /** The topics carried in both splits of the returned-topic pair: grain alone. */
  lemma PairNames(names: seq<Topic>)
    requires Distinct(names)
    requires forall x :: x in names <==> InBothSplits([TrainGrainOilseed, TestGrain], x)
    ensures names == [Grain]
  {
    var raws := [TrainGrainOilseed, TestGrain];
    PairNeverInTest();
    assert WellFormed(raws[0]) && Modapte(raws[0].attrs) == Train && Grain in raws[0].topics.value;
    assert WellFormed(raws[1]) && Modapte(raws[1].attrs) == Test && Grain in raws[1].topics.value;
    assert Grain in names;
    forall k | 0 <= k < |names|
      ensures names[k] == Grain
    {
      var x := names[k];
      assert x in names;
      assert Carries(raws, Test, x);
      var i :| 0 <= i < |raws| && WellFormed(raws[i]) && Modapte(raws[i].attrs) == Test && x in raws[i].topics.value;
      assert i == 1 by { assert Modapte(raws[0].attrs) == Train; }
      assert raws[1].topics.value == [Grain];
    }
    if |names| > 1 {
      FirstTwoDiffer(names);
      assert false;
    }
  }

  /** A duplicate-free list of two or more topics starts with two different ones. */
  lemma FirstTwoDiffer(names: seq<Topic>)
    requires Distinct(names) && |names| > 1
    ensures names[0] != names[1]
  {
  }

  /** Two corpora with the same articles: same length and attributes. */
  lemma SameArticles(docs: seq<Document>, built: seq<Document>)
    requires Map(WithoutLabels, docs) == Map(WithoutLabels, built)
    requires Map(Source, built) == [TrainGrainOilseed, TestGrain]
    ensures |docs| == 2 && docs[0].attrs == TrainGrainOilseed.attrs && docs[1].attrs == TestGrain.attrs
  {
    assert |docs| == |Map(WithoutLabels, docs)|;
    assert WithoutLabels(docs[0]) == Map(WithoutLabels, built)[0] == WithoutLabels(built[0]);
    assert WithoutLabels(docs[1]) == Map(WithoutLabels, built)[1] == WithoutLabels(built[1]);
    assert Source(built[0]) == TrainGrainOilseed && Source(built[1]) == TestGrain;
  }

  /** No test article of the returned-topic corpus carries oilseed. */
  lemma PairNeverInTest()
    ensures !Carries([TrainGrainOilseed, TestGrain], Test, Oilseed)
  {
    var raws := [TrainGrainOilseed, TestGrain];
    forall i | 0 <= i < |raws|
      ensures !(WellFormed(raws[i]) && Modapte(raws[i].attrs) == Test && Oilseed in raws[i].topics.value)
    {
      if i == 1 {
        assert raws[1].topics.value == [Grain] && Grain != Oilseed;
      } else {
        assert raws[i].attrs["LEWISSPLIT"] == "TRAIN";
      }
    }
  }

  lemma ReturnedTopicNumbering(c: ReutersCorpus)
    requires Map(Source, c.docs) == [TrainGrainOilseed, TestGrain] && Numbering(c)
    ensures c.targetNames == [Grain, Oilseed]
    ensures (forall d :: d in c.docs && Source(d) == TrainGrainOilseed ==> d.cats == [1, 2])
  {
    assert Source(c.docs[0]) == TrainGrainOilseed && Source(c.docs[1]) == TestGrain;
    assert Map(TopicsOf, c.docs) == [[Grain, Oilseed], [Grain]];
    ReturnedNames(c.targetNames, Map(TopicsOf, c.docs));
    forall d | d in c.docs && Source(d) == TrainGrainOilseed
      ensures d.cats == [1, 2]
    {
      CatsByPosition(d, Table(c), [Grain, Oilseed]);
    }
  }

  lemma ReturnedNames(names: seq<Topic>, lists: seq<seq<Topic>>)
    requires lists == [[Grain, Oilseed], [Grain]] && names == Dedup(Flatten(lists))
    ensures names == [Grain, Oilseed]
  {
    Flatten2([Grain, Oilseed], [Grain]);
    assert Grain != Oilseed;
    assert [Grain, Oilseed, Grain][1..] == [Oilseed, Grain];
    assert [Oilseed, Grain][1..] == [Grain];
    assert Without([Grain][1..], Grain) == [];
    assert Without([Oilseed, Grain], Grain) == [Oilseed];
    assert Without([Oilseed][1..], Oilseed) == [];
    assert Dedup([Oilseed]) == [Oilseed];
  }
}
