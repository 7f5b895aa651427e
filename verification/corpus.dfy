/**
 * `ReutersCorpus`: annotate the parsed articles, keep the ModApte train and
 * test documents, drop categories not seen in both splits and number the
 * topics of the survivors without gaps.
 *
 * The source mutates one dictionary per document in place; here each stage
 * is a pure function from documents to new documents.
 */
module Corpus {

  import opened Wrappers
  import opened Seqs
  import opened Parser
  import opened Topics

  /** The `modapte` field. */
  datatype Split = Train | Test | Unused

  /** A document after annotation: the parser's fields plus `text`, `modapte` and `cats`. */
  datatype Document = Document(
    attrs: map<string, string>,
    date: Option<string>,
    title: Option<string>,
    dateline: Option<string>,
    body: Option<string>,
    topics: seq<Topic>,
    text: string,
    modapte: Split,
    cats: seq<nat>)

  /** The constructed corpus: `docs`, the `topics` dictionary and `target_names`. */
  datatype ReutersCorpus = ReutersCorpus(docs: seq<Document>, topics: map<Topic, nat>, targetNames: seq<Topic>)

  /**
   * The attribute keys `_add_modapte` reads: `LEWISSPLIT` always, and
   * `TOPICS` only once the split is TRAIN or TEST, because `and` stops at a
   * false left operand.
   */
  predicate SplitReadable(attrs: map<string, string>) {
    && "LEWISSPLIT" in attrs
    && ((attrs["LEWISSPLIT"] == "TRAIN" || attrs["LEWISSPLIT"] == "TEST") ==> "TOPICS" in attrs)
  }

  /** The keys that annotation reads without a default (a missing one raises `KeyError`). */
  predicate WellFormed(r: RawDocument) {
    SplitReadable(r.attrs) && r.topics.Some?
  }

  predicate AllWellFormed(raws: seq<RawDocument>) {
    forall i :: 0 <= i < |raws| ==> WellFormed(raws[i])
  }

  /** The parsed article a document was annotated from. */
  function Source(d: Document): RawDocument {
    RawDocument(d.attrs, d.date, d.title, d.dateline, d.body, Some(d.topics))
  }

  /** `doc.get(tag) or ""`. */
  function OrEmpty(s: Option<string>): string {
    s.GetOr("")
  }

  /**
   * `_add_text`: title, dateline and body joined by single spaces, a missing
   * field read as the empty string; nothing is trimmed, so each field can be
   * read back from its position.
   */
  function JoinText(title: Option<string>, dateline: Option<string>, body: Option<string>): (text: string)
    ensures var t, d, b := OrEmpty(title), OrEmpty(dateline), OrEmpty(body);
      && |text| == |t| + |d| + |b| + 2
      && text[..|t|] == t
      && text[|t|] == ' '
      && text[|t| + 1..|t| + 1 + |d|] == d
      && text[|t| + 1 + |d|] == ' '
      && text[|t| + 2 + |d|..] == b
  {
    var rest := OrEmpty(dateline) + " " + OrEmpty(body);
    var title := OrEmpty(title);
    var text := title + " " + rest;
    assert text[|title| + 1..] == rest;
    text
  }

  /**
   * `_add_modapte`: `train` exactly for a TRAIN split with topics, `test`
   * exactly for a TEST split with topics, `unused` for everything else.
   */
  function Modapte(attrs: map<string, string>): (m: Split)
    requires SplitReadable(attrs)
    ensures m == Train <==> attrs["LEWISSPLIT"] == "TRAIN" && attrs["TOPICS"] == "YES"
    ensures m == Test <==> attrs["LEWISSPLIT"] == "TEST" && attrs["TOPICS"] == "YES"
    ensures m == Unused <==> !(attrs["LEWISSPLIT"] in {"TRAIN", "TEST"} && attrs["TOPICS"] == "YES")
    ensures attrs["LEWISSPLIT"] != "TRAIN" && attrs["LEWISSPLIT"] != "TEST" ==> m == Unused
  {
    if attrs["LEWISSPLIT"] == "TRAIN" && attrs["TOPICS"] == "YES" then Train
    else if attrs["LEWISSPLIT"] == "TEST" && attrs["TOPICS"] == "YES" then Test
    else Unused
  }

  /**
   * `d` is `r` annotated: the parser's fields are kept, `text` and `modapte`
   * are derived from them, and there is one category per topic.
   */
  predicate AnnotationOf(d: Document, r: RawDocument) {
    && Source(d) == r
    && Derived(d)
    && |d.cats| == |d.topics|
  }

  /** `text` and `modapte` are what annotation derives from the document's own fields. */
  predicate Derived(d: Document) {
    && WellFormed(Source(d))
    && d.text == JoinText(d.title, d.dateline, d.body)
    && d.modapte == Modapte(d.attrs)
  }

  /** Each of the document's categories is the table's id of the topic at the same position. */
  predicate Numbered(d: Document, t: TopicTable) {
    && |d.cats| == |d.topics|
    && forall i :: 0 <= i < |d.topics| ==> d.topics[i] in t.ids && d.cats[i] == t.ids[d.topics[i]]
  }

  lemma NumberedExtends(d: Document, t: TopicTable, t': TopicTable)
    requires Numbered(d, t) && Extends(t, t')
    ensures Numbered(d, t')
  {
  }

  /** The three modifiers of `get_docs` applied to one article, in order. */
  function Annotate(t: TopicTable, r: RawDocument): (res: (Document, TopicTable))
    requires Valid(t) && WellFormed(r)
    ensures AnnotationOf(res.0, r)
    ensures Valid(res.1) && Extends(t, res.1)
    ensures Numbered(res.0, res.1)
  {
    var topics := r.topics.value;
    var added := AddTopics(t, topics);
    var d := Document(r.attrs, r.date, r.title, r.dateline, r.body, topics,
                      JoinText(r.title, r.dateline, r.body), Modapte(r.attrs), added.1);
    (d, added.0)
  }

  /** Annotation of every article in order, threading the provisional topic table. */
  function AnnotateAll(t: TopicTable, raws: seq<RawDocument>): (res: (seq<Document>, TopicTable))
    requires Valid(t) && AllWellFormed(raws)
    ensures |res.0| == |raws|
    ensures forall k :: 0 <= k < |raws| ==> AnnotationOf(res.0[k], raws[k]) && Numbered(res.0[k], res.1)
    ensures Valid(res.1) && Extends(t, res.1)
  {
    if |raws| == 0 then ([], t)
    else
      var prev := AnnotateAll(t, raws[..|raws| - 1]);
      var last := Annotate(prev.1, raws[|raws| - 1]);
      AnnotateAllStep(raws, prev.0, prev.1, last.0, last.1);
      ExtendsTrans(t, prev.1, last.1);
      (prev.0 + [last.0], last.1)
  }

  /** Appending the last article's annotation keeps every earlier document annotated and numbered. */
  lemma AnnotateAllStep(raws: seq<RawDocument>, docs: seq<Document>, t: TopicTable, d: Document, t': TopicTable)
    requires |raws| > 0 && |docs| == |raws| - 1
    requires forall k :: 0 <= k < |docs| ==> AnnotationOf(docs[k], raws[..|raws| - 1][k]) && Numbered(docs[k], t)
    requires Extends(t, t') && AnnotationOf(d, raws[|raws| - 1]) && Numbered(d, t')
    ensures forall k :: 0 <= k < |raws| ==> AnnotationOf((docs + [d])[k], raws[k]) && Numbered((docs + [d])[k], t')
  {
    forall k | 0 <= k < |raws|
      ensures AnnotationOf((docs + [d])[k], raws[k]) && Numbered((docs + [d])[k], t')
    {
      if k < |docs| {
        assert (docs + [d])[k] == docs[k] && raws[..|raws| - 1][k] == raws[k];
        NumberedExtends(docs[k], t, t');
      }
    }
  }

  /** The ModApte split of an article is train or test. */
  predicate Used(r: RawDocument) {
    WellFormed(r) && Modapte(r.attrs) != Unused
  }

  predicate IsUsed(d: Document) {
    d.modapte != Unused
  }

  /** Filtering annotated documents by their split is filtering the articles. */
  lemma {:induction false} FilterUsedCorresponds(docs: seq<Document>, raws: seq<RawDocument>)
    requires |docs| == |raws|
    requires forall k :: 0 <= k < |raws| ==> AnnotationOf(docs[k], raws[k])
    ensures |Filter(docs, IsUsed)| == |Filter(raws, Used)|
    ensures forall k :: 0 <= k < |Filter(raws, Used)| ==> AnnotationOf(Filter(docs, IsUsed)[k], Filter(raws, Used)[k])
  {
    if |docs| > 0 {
      FilterUsedCorresponds(docs[1..], raws[1..]);
    }
  }

  /**
   * `get_docs`: the annotation of exactly the train and test articles, in
   * input order, numbered by the provisional table built over all articles.
   */
  function GetDocs(raws: seq<RawDocument>): (res: (seq<Document>, TopicTable))
    requires AllWellFormed(raws)
    ensures Valid(res.1)
    ensures |res.0| == |Filter(raws, Used)|
    ensures forall k :: 0 <= k < |res.0| ==> AnnotationOf(res.0[k], Filter(raws, Used)[k])
    ensures forall k :: 0 <= k < |res.0| ==> IsUsed(res.0[k]) && Numbered(res.0[k], res.1)
    ensures Map(Source, res.0) == Filter(raws, Used)
    ensures forall d :: d in res.0 ==> Derived(d) && IsUsed(d) && |d.cats| == |d.topics|
  {
    var all := AnnotateAll(Empty, raws);
    FilterUsedCorresponds(all.0, raws);
    var docs := Filter(all.0, IsUsed);
    SourcesOfAnnotated(docs, Filter(raws, Used));
    UsedDocsNumbered(all.0, all.1);
    (docs, all.1)
  }

  /** Documents annotated position by position from `raws` map back to `raws`. */
  lemma SourcesOfAnnotated(docs: seq<Document>, raws: seq<RawDocument>)
    requires |docs| == |raws| && forall k :: 0 <= k < |raws| ==> AnnotationOf(docs[k], raws[k])
    ensures Map(Source, docs) == raws
  {
    assert forall k :: 0 <= k < |docs| ==> Map(Source, docs)[k] == raws[k];
  }

  /** The used documents of a numbered, annotated sequence are used, numbered and annotated. */
  lemma UsedDocsNumbered(all: seq<Document>, t: TopicTable)
    requires forall k :: 0 <= k < |all| ==> Derived(all[k]) && Numbered(all[k], t)
    ensures forall k :: 0 <= k < |Filter(all, IsUsed)| ==>
      IsUsed(Filter(all, IsUsed)[k]) && Numbered(Filter(all, IsUsed)[k], t)
    ensures forall d :: d in Filter(all, IsUsed) ==> Derived(d) && IsUsed(d) && |d.cats| == |d.topics|
  {
    var docs := Filter(all, IsUsed);
    forall d | d in docs
      ensures Derived(d) && IsUsed(d) && Numbered(d, t)
    {
      var j :| 0 <= j < |all| && all[j] == d;
    }
    assert forall k :: 0 <= k < |docs| ==> docs[k] in docs;
  }

  predicate SingleLabel(d: Document) {
    |d.cats| == 1
  }

  /** `filter_multi_label`: the documents with exactly one category, in order. */
  function FilterMultiLabel(docs: seq<Document>): (r: seq<Document>)
    ensures Subseq(r, docs)
    ensures forall d :: d in r ==> d in docs && |d.cats| == 1
    ensures forall d :: d in docs && |d.cats| == 1 ==> d in r
  {
    Filter(docs, SingleLabel)
  }

  /** The categories of the documents in split `s`. */
  function CatsIn(docs: seq<Document>, s: Split): (cats: set<nat>)
    ensures forall c :: c in cats <==> exists i :: 0 <= i < |docs| && docs[i].modapte == s && c in docs[i].cats
  {
    set i, c | 0 <= i < |docs| && docs[i].modapte == s && c in docs[i].cats :: c
  }

  /** The categories seen in both a train and a test document. */
  function ValidCats(docs: seq<Document>): set<nat> {
    CatsIn(docs, Train) * CatsIn(docs, Test)
  }

  /** The document with only the categories in `valid`, in their order. */
  function RestrictCats(d: Document, valid: set<nat>): (r: Document)
    ensures r == d.(cats := r.cats)
    ensures forall c :: c in r.cats <==> c in d.cats && c in valid
    ensures Subseq(r.cats, d.cats) && |r.cats| <= |d.cats|
    ensures (forall i :: 0 <= i < |d.cats| ==> d.cats[i] in valid) ==> r == d
  {
    var p := c => c in valid;
    if forall i :: 0 <= i < |d.cats| ==> d.cats[i] in valid then
      FilterKeepsAll(d.cats, p);
      d.(cats := Filter(d.cats, p))
    else
      d.(cats := Filter(d.cats, p))
  }

  function RestrictAll(docs: seq<Document>, valid: set<nat>): (r: seq<Document>)
    ensures |r| == |docs|
    ensures forall i :: 0 <= i < |docs| ==> r[i] == RestrictCats(docs[i], valid)
    ensures Map(Source, r) == Map(Source, docs)
  {
    var r := Map(d => RestrictCats(d, valid), docs);
    assert forall i :: 0 <= i < |docs| ==> Map(Source, r)[i] == Map(Source, docs)[i];
    r
  }

  predicate HasCats(d: Document) {
    |d.cats| > 0
  }

  /**
   * `filter_empty_cats`: every document restricted to the categories seen in
   * both splits, and those left without categories dropped, order kept.
   */
  function FilterEmptyCats(docs: seq<Document>): (r: seq<Document>)
    ensures Subseq(r, RestrictAll(docs, ValidCats(docs)))
    ensures forall d :: d in r ==> |d.cats| > 0
    ensures forall d :: d in r ==> exists i :: 0 <= i < |docs| && d == RestrictCats(docs[i], ValidCats(docs))
    ensures forall d, c :: d in r && c in d.cats ==>
              && (exists i :: 0 <= i < |docs| && docs[i].modapte == Train && c in docs[i].cats)
              && (exists i :: 0 <= i < |docs| && docs[i].modapte == Test && c in docs[i].cats)
    ensures forall i, c :: 0 <= i < |docs| && c in docs[i].cats && c in ValidCats(docs)
              ==> RestrictCats(docs[i], ValidCats(docs)) in r
  {
    var restricted := RestrictAll(docs, ValidCats(docs));
    Filter(restricted, HasCats)
  }

  /** Every category left by `filter_empty_cats` is again seen in both splits of its output. */
  lemma FilterEmptyCatsKeepsValid(docs: seq<Document>, d: Document, c: nat)
    requires d in FilterEmptyCats(docs) && c in d.cats
    ensures c in ValidCats(FilterEmptyCats(docs))
  {
    var valid := ValidCats(docs);
    var i :| 0 <= i < |docs| && d == RestrictCats(docs[i], valid);
    assert c in valid;
    var j :| 0 <= j < |docs| && docs[j].modapte == Train && c in docs[j].cats;
    KeptInSplit(docs, Train, c, j);
    var k :| 0 <= k < |docs| && docs[k].modapte == Test && c in docs[k].cats;
    KeptInSplit(docs, Test, c, k);
  }

  /** A valid category of a document in split `s` is still carried in split `s` after filtering. */
  lemma KeptInSplit(docs: seq<Document>, s: Split, c: nat, j: int)
    requires 0 <= j < |docs| && docs[j].modapte == s && c in docs[j].cats && c in ValidCats(docs)
    ensures c in CatsIn(FilterEmptyCats(docs), s)
  {
    var r := FilterEmptyCats(docs);
    var e := RestrictCats(docs[j], ValidCats(docs));
    assert e in r && c in e.cats;
    var je :| 0 <= je < |r| && r[je] == e;
  }

  /** Running `filter_empty_cats` on its own output changes nothing. */
  lemma FilterEmptyCatsIdempotent(docs: seq<Document>)
    ensures FilterEmptyCats(FilterEmptyCats(docs)) == FilterEmptyCats(docs)
  {
    var r := FilterEmptyCats(docs);
    var valid' := ValidCats(r);
    forall i | 0 <= i < |r|
      ensures RestrictAll(r, valid')[i] == r[i]
    {
      forall j | 0 <= j < |r[i].cats|
        ensures r[i].cats[j] in valid'
      {
        FilterEmptyCatsKeepsValid(docs, r[i], r[i].cats[j]);
      }
    }
    assert RestrictAll(r, valid') == r;
    FilterKeepsAll(r, HasCats);
  }

  function TopicsOf(d: Document): seq<Topic> {
    d.topics
  }

  /**
   * `_renumber_topics`: a fresh table grown over the documents in order, and
   * every document's categories rebuilt from its full topic list.
   */
  function Renumber(docs: seq<Document>): (res: (seq<Document>, TopicTable))
    ensures |res.0| == |docs|
    ensures forall k :: 0 <= k < |docs| ==> res.0[k] == docs[k].(cats := res.0[k].cats)
    ensures forall k :: 0 <= k < |docs| ==> Numbered(res.0[k], res.1)
    ensures Map(Source, res.0) == Map(Source, docs)
    ensures Valid(res.1)
  {
    if |docs| == 0 then ([], Empty)
    else
      var init := docs[..|docs| - 1];
      var prev := Renumber(init);
      var d := docs[|docs| - 1];
      var added := AddTopics(prev.1, d.topics);
      forall k | 0 <= k < |init|
        ensures Numbered(prev.0[k], added.0)
      {
        NumberedExtends(prev.0[k], prev.1, added.0);
      }
      var d' := d.(cats := added.1);
      var r := prev.0 + [d'];
      assert init + [d] == docs;
      MapSnoc(Source, prev.0, d');
      MapSnoc(Source, init, d);
      assert Source(d') == Source(d);
      (r, added.0)
  }

  /** The renumbered table lists the distinct topics of the documents in first-seen order. */
  lemma {:induction false} RenumberFirstSeen(docs: seq<Document>)
    ensures Renumber(docs).1.names == Dedup(Flatten(Map(TopicsOf, docs)))
  {
    if |docs| > 0 {
      var init := docs[..|docs| - 1];
      var d := docs[|docs| - 1];
      RenumberFirstSeen(init);
      var lists := Map(TopicsOf, docs);
      assert lists[..|docs| - 1] == Map(TopicsOf, init);
      AddTopicsFirstSeen(Renumber(init).1, d.topics, Flatten(Map(TopicsOf, init)));
    }
  }

  /**
   * Renumbering reads only the topic lists: the categories the documents had
   * before, filtered or not, make no difference to its result.
   */
  lemma {:induction false} RenumberIgnoresCats(a: seq<Document>, b: seq<Document>)
    requires |a| == |b|
    requires forall k :: 0 <= k < |a| ==> a[k].(cats := []) == b[k].(cats := [])
    ensures Renumber(a) == Renumber(b)
  {
    if |a| > 0 {
      RenumberIgnoresCats(a[..|a| - 1], b[..|b| - 1]);
      var x, y := a[|a| - 1], b[|b| - 1];
      assert x.topics == x.(cats := []).topics == y.topics;
    }
  }

  /** The table a corpus exposes, as a `TopicTable`. */
  function Table(c: ReutersCorpus): TopicTable {
    TopicTable(c.topics, c.targetNames)
  }

  /** Each document kept before renumbering: annotated, used, and with 1..|topics| categories. */
  predicate KeptDoc(d: Document, multiclass: bool) {
    && Derived(d) && IsUsed(d) && 1 <= |d.cats| <= |d.topics|
    && (multiclass ==> |d.topics| == 1)
  }

  /**
   * `ReutersCorpus(raw_docs, multiclass)`: annotate, keep train and test,
   * optionally keep single-label documents, drop categories not seen in both
   * splits, then renumber. The result keeps the surviving articles in input
   * order; each is a train or test document with at least one category, and
   * its categories are the final ids of its full topic list; the table numbers
   * the distinct topics of the survivors 1..N in first-seen order.
   */
  function Build(raws: seq<RawDocument>, multiclass: bool): (c: ReutersCorpus)
    requires AllWellFormed(raws)
    ensures Subseq(Map(Source, c.docs), raws)
    ensures forall d :: d in c.docs ==> Derived(d) && (d.modapte == Train || d.modapte == Test)
    ensures forall d :: d in c.docs ==> |d.cats| >= 1 && Numbered(d, Table(c))
    ensures Valid(Table(c))
    ensures c.targetNames == Dedup(Flatten(Map(TopicsOf, c.docs)))
    ensures multiclass ==> forall d :: d in c.docs ==> |d.cats| == 1
  {
    var got := GetDocs(raws).0;
    var single := if multiclass then FilterMultiLabel(got) else got;
    var kept := FilterEmptyCats(single);
    BuildFacts(raws, multiclass, got, single, kept);
    RenumberFacts(kept, multiclass);
    var renumbered := Renumber(kept);
    ReutersCorpus(renumbered.0, renumbered.1.ids, renumbered.1.names)
  }

  /** Renumbering documents kept by the filters gives the promised corpus. */
  lemma RenumberFacts(kept: seq<Document>, multiclass: bool)
    requires forall d :: d in kept ==> KeptDoc(d, multiclass)
    ensures var r := Renumber(kept);
      && (forall d :: d in r.0 ==> Derived(d) && (d.modapte == Train || d.modapte == Test))
      && (forall d :: d in r.0 ==> |d.cats| >= 1)
      && (multiclass ==> forall d :: d in r.0 ==> |d.cats| == 1)
      && Map(Source, r.0) == Map(Source, kept)
      && r.1.names == Dedup(Flatten(Map(TopicsOf, r.0)))
  {
    var r := Renumber(kept);
    RenumberFirstSeen(kept);
    RenumberKeepsTopics(kept);
    forall d | d in r.0
      ensures Derived(d) && (d.modapte == Train || d.modapte == Test)
      ensures |d.cats| >= 1
      ensures multiclass ==> |d.cats| == 1
    {
      var k :| 0 <= k < |r.0| && r.0[k] == d;
      assert d == kept[k].(cats := d.cats);
      assert KeptDoc(kept[k], multiclass);
    }
  }

  /**
   * The table renumbering builds numbers every document it returns and lists
   * exactly the topics the documents list, each once, in first-seen order.
   */
  lemma RenumberedTable(docs: seq<Document>)
    ensures var r := Renumber(docs);
      && (forall d :: d in r.0 ==> Numbered(d, r.1))
      && r.1.names == Dedup(Flatten(Map(TopicsOf, r.0)))
      && forall x :: x in r.1.names <==> x in Flatten(Map(TopicsOf, docs))
  {
    var r := Renumber(docs);
    RenumberFirstSeen(docs);
    RenumberKeepsTopics(docs);
    forall d | d in r.0
      ensures Numbered(d, r.1)
    {
      var k :| 0 <= k < |r.0| && r.0[k] == d;
    }
  }

  /** Renumbering leaves every topic list as it was. */
  lemma RenumberKeepsTopics(docs: seq<Document>)
    ensures Map(TopicsOf, Renumber(docs).0) == Map(TopicsOf, docs)
  {
    var r := Renumber(docs).0;
    assert forall k :: 0 <= k < |docs| ==> Map(TopicsOf, r)[k] == Map(TopicsOf, docs)[k];
  }

  /** What the stages before renumbering guarantee about each document they keep. */
  lemma BuildFacts(raws: seq<RawDocument>, multiclass: bool,
                   got: seq<Document>, single: seq<Document>, kept: seq<Document>)
    requires AllWellFormed(raws)
    requires got == GetDocs(raws).0
    requires single == if multiclass then FilterMultiLabel(got) else got
    requires kept == FilterEmptyCats(single)
    ensures Subseq(Map(Source, kept), raws)
    ensures forall d :: d in kept ==> KeptDoc(d, multiclass)
  {
    if multiclass {
      SubseqMap(Source, single, got);
    } else {
      SubseqRefl(Map(Source, got));
    }
    SubseqTrans(Map(Source, single), Map(Source, got), raws);
    var valid := ValidCats(single);
    SubseqMap(Source, kept, RestrictAll(single, valid));
    SubseqTrans(Map(Source, kept), Map(Source, single), raws);
    forall d | d in kept
      ensures KeptDoc(d, multiclass)
    {
      var i :| 0 <= i < |single| && d == RestrictCats(single[i], valid);
      assert single[i] in got;
    }
  }
}
