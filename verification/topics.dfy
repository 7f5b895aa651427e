/**
 * The topic table of `ReutersCorpus`: the dictionary `topics` from topic
 * name to id and the list `target_names`, grown by `_add_topics`.
 */
module Topics {

  import opened Seqs
  import opened Parser

  /** `ids` is `self.topics`, `names` is `self.target_names`. */
  datatype TopicTable = TopicTable(ids: map<Topic, nat>, names: seq<Topic>)

  const Empty: TopicTable := TopicTable(map[], [])

  /**
   * The table is a bijection between the names and 1..|names|: a name has an
   * id exactly when it is listed, and the name at position i has id i + 1.
   */
  predicate Valid(t: TopicTable) {
    && (forall k :: k in t.ids ==> k in t.names)
    && (forall i :: 0 <= i < |t.names| ==> t.names[i] in t.ids && t.ids[t.names[i]] == i + 1)
  }

  /** `t'` keeps every id of `t` and lists the names of `t` first. */
  predicate Extends(t: TopicTable, t': TopicTable) {
    && t.names <= t'.names
    && forall k :: k in t.ids ==> k in t'.ids && t'.ids[k] == t.ids[k]
  }

  /** The inverse direction of the bijection: every id names its own position. */
  lemma ValidIsBijection(t: TopicTable)
    requires Valid(t)
    ensures Distinct(t.names)
    ensures forall k :: k in t.ids ==> 1 <= t.ids[k] <= |t.names| && t.names[t.ids[k] - 1] == k
  {
    forall k | k in t.ids
      ensures 1 <= t.ids[k] <= |t.names| && t.names[t.ids[k] - 1] == k
    {
      var i :| 0 <= i < |t.names| && t.names[i] == k;
      assert t.ids[t.names[i]] == i + 1;
    }
  }

  /** One iteration of the loop in `_add_topics`: a new name gets the next id. */
  function AddTopic(t: TopicTable, x: Topic): (t': TopicTable)
    requires Valid(t)
    ensures Valid(t') && Extends(t, t')
    ensures x in t'.ids
    ensures forall k :: k in t'.ids <==> k in t.ids || k == x
    ensures t'.names == if x in t.names then t.names else t.names + [x]
  {
    if x in t.ids then t
    else
      var names := t.names + [x];
      TopicTable(t.ids[x := |names|], names)
  }

  /** `cats` gives, position by position, the id `t` has for each topic of `xs`. */
  predicate Assigned(t: TopicTable, xs: seq<Topic>, cats: seq<nat>) {
    && |cats| == |xs|
    && forall i :: 0 <= i < |xs| ==> xs[i] in t.ids && cats[i] == t.ids[xs[i]]
  }

  /** The names with an id in `t'` are those of `t` and those of `xs`. */
  ghost predicate Covers(t: TopicTable, t': TopicTable, xs: seq<Topic>) {
    forall k :: k in t'.ids <==> k in t.ids || k in xs
  }

  /**
   * `_add_topics` on a document with topic list `xs`: the grown table and the
   * document's `cats`, one id per topic, each the id the final table gives it.
   */
  function AddTopics(t: TopicTable, xs: seq<Topic>): (res: (TopicTable, seq<nat>))
    requires Valid(t)
    ensures Valid(res.0) && Extends(t, res.0)
    ensures Covers(t, res.0, xs)
    ensures Assigned(res.0, xs, res.1)
  {
    if |xs| == 0 then (t, [])
    else
      var prev := AddTopics(t, xs[..|xs| - 1]);
      var t' := AddTopic(prev.0, xs[|xs| - 1]);
      AddTopicsStep(t, prev.0, t', xs, prev.1);
      (t', prev.1 + [t'.ids[xs[|xs| - 1]]])
  }

  /** One more topic: the table and the categories of `AddTopics` grow together. */
  lemma AddTopicsStep(t: TopicTable, mid: TopicTable, t': TopicTable, xs: seq<Topic>, cats: seq<nat>)
    requires |xs| > 0
    requires Valid(mid) && Extends(t, mid) && Covers(t, mid, xs[..|xs| - 1]) && Assigned(mid, xs[..|xs| - 1], cats)
    requires t' == AddTopic(mid, xs[|xs| - 1])
    ensures Extends(t, t') && Covers(t, t', xs) && Assigned(t', xs, cats + [t'.ids[xs[|xs| - 1]]])
  {
    var init, x := xs[..|xs| - 1], xs[|xs| - 1];
    assert init + [x] == xs;
    ExtendsTrans(t, mid, t');
    CoversSnoc(t, mid, t', init, x);
    AssignedSnoc(mid, t', init, cats, x);
  }

  lemma ExtendsTrans(t: TopicTable, t': TopicTable, t'': TopicTable)
    requires Extends(t, t') && Extends(t', t'')
    ensures Extends(t, t'')
  {
  }

  lemma CoversSnoc(t: TopicTable, mid: TopicTable, t': TopicTable, xs: seq<Topic>, x: Topic)
    requires Covers(t, mid, xs)
    requires forall k :: k in t'.ids <==> k in mid.ids || k == x
    ensures Covers(t, t', xs + [x])
  {
    assert forall k :: k in xs + [x] <==> k in xs || k == x;
  }

  lemma AssignedSnoc(t: TopicTable, t': TopicTable, xs: seq<Topic>, cats: seq<nat>, x: Topic)
    requires Assigned(t, xs, cats) && Extends(t, t') && x in t'.ids
    ensures Assigned(t', xs + [x], cats + [t'.ids[x]])
  {
    forall i | 0 <= i < |xs| + 1
      ensures (xs + [x])[i] in t'.ids && (cats + [t'.ids[x]])[i] == t'.ids[(xs + [x])[i]]
    {
      if i < |xs| {
        assert (xs + [x])[i] == xs[i] && (cats + [t'.ids[x]])[i] == cats[i];
      }
    }
  }

  /**
   * New names are listed in first-seen order: a table whose names are the
   * first-seen order of `p` has, after `xs`, the first-seen order of `p + xs`.
   */
  lemma {:induction false} AddTopicsFirstSeen(t: TopicTable, xs: seq<Topic>, p: seq<Topic>)
    requires Valid(t) && t.names == Dedup(p)
    ensures AddTopics(t, xs).0.names == Dedup(p + xs)
  {
    if |xs| == 0 {
      assert p + xs == p;
    } else {
      var init, x := xs[..|xs| - 1], xs[|xs| - 1];
      assert (p + init) + [x] == p + xs by {
        assert init + [x] == xs;
      }
      AddTopicsFirstSeen(t, init, p);
      FirstSeenStep(AddTopics(t, init).0, p + init, x);
    }
  }

  /** One name more keeps the names in first-seen order. */
  lemma FirstSeenStep(t: TopicTable, q: seq<Topic>, x: Topic)
    requires Valid(t) && t.names == Dedup(q)
    ensures AddTopic(t, x).names == Dedup(q + [x])
  {
    DedupSnoc(q, x);
  }
}
