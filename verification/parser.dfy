/**
 * Field extraction from one parsed `REUTERS` element (`ReutersParser`).
 * The element tree itself comes from an XML parser that is not modelled:
 * it is an input here.
 */
module Parser {

  import opened Wrappers

  /** An element as the XML library presents it: tag, attributes, text before the first child, children. */
  datatype Element = Element(tag: string, attrs: map<string, string>, text: Option<string>, children: seq<Element>)

  /** A topic name: the text of a `<D>` element, which may be absent. */
  type Topic = Option<string>

  /** The three sub-fields read out of a `TEXT` element. */
  datatype TextFields = TextFields(title: Option<string>, dateline: Option<string>, body: Option<string>)

  /**
   * One article as the parser yields it. `topics` is `None` when the article
   * has no `TOPICS` child (the dictionary key is then missing); a missing
   * date, title, dateline or body is `None`.
   */
  datatype RawDocument = RawDocument(
    attrs: map<string, string>,
    date: Option<string>,
    title: Option<string>,
    dateline: Option<string>,
    body: Option<string>,
    topics: Option<seq<Topic>>)

  /** ASCII lower-casing of one character. */
  function LowerChar(c: char): char {
    if 'A' <= c <= 'Z' then (c as int - 'A' as int + 'a' as int) as char else c
  }

  function Lower(s: string): (r: string)
    ensures |r| == |s|
  {
    seq(|s|, i requires 0 <= i < |s| => LowerChar(s[i]))
  }

  /** The tag of `e` is `tag`, compared after lower-casing when `folded`. */
  predicate TagIs(e: Element, tag: string, folded: bool) {
    (if folded then Lower(e.tag) else e.tag) == tag
  }

  /** Index of the last child whose tag is `tag`, if any. */
  function LastTagged(cs: seq<Element>, tag: string, folded: bool): (r: Option<nat>)
    ensures r.Some? ==> r.value < |cs| && TagIs(cs[r.value], tag, folded)
    ensures r.Some? ==> forall j :: r.value < j < |cs| ==> !TagIs(cs[j], tag, folded)
    ensures r.None? ==> forall j :: 0 <= j < |cs| ==> !TagIs(cs[j], tag, folded)
  {
    if |cs| == 0 then None
    else if TagIs(cs[|cs| - 1], tag, folded) then Some(|cs| - 1)
    else
      var r := LastTagged(cs[..|cs| - 1], tag, folded);
      assert forall j :: 0 <= j < |cs| - 1 ==> cs[..|cs| - 1][j] == cs[j];
      r
  }

  /** The text of the last child tagged `tag`; `None` when there is none. */
  function LastText(cs: seq<Element>, tag: string, folded: bool): Option<string> {
    match LastTagged(cs, tag, folded)
    case None => None
    case Some(i) => cs[i].text
  }

  /** `get_topics`: the texts of the children of a `TOPICS` element, in order. */
  function GetTopics(topics: Element): (r: seq<Topic>)
    ensures |r| == |topics.children|
    ensures forall i :: 0 <= i < |r| ==> r[i] == topics.children[i].text
  {
    seq(|topics.children|, i requires 0 <= i < |topics.children| => topics.children[i].text)
  }

  /** The `tagmap` loop of `get_text` over the children `cs`, in order. */
  function TextFieldsOf(cs: seq<Element>): (r: TextFields)
    ensures r.title == LastText(cs, "title", true)
    ensures r.dateline == LastText(cs, "dateline", true)
    ensures r.body == LastText(cs, "body", true)
  {
    if |cs| == 0 then TextFields(None, None, None)
    else
      var fields := TextFieldsOf(cs[..|cs| - 1]);
      var item := cs[|cs| - 1];
      LastTextSnoc(cs, "title", true);
      LastTextSnoc(cs, "dateline", true);
      LastTextSnoc(cs, "body", true);
      var tag := Lower(item.tag);
      if tag == "title" then fields.(title := item.text)
      else if tag == "dateline" then fields.(dateline := item.text)
      else if tag == "body" then fields.(body := item.text)
      else fields
  }

  /**
   * `get_text`: each of title, dateline and body is the text of the last
   * child with that tag in any letter case, or `None` when there is no such child.
   */
  function GetText(text: Element): (r: TextFields)
    ensures r.title == LastText(text.children, "title", true)
    ensures r.dateline == LastText(text.children, "dateline", true)
    ensures r.body == LastText(text.children, "body", true)
  {
    TextFieldsOf(text.children)
  }

  /** The topic list of the last `TOPICS` child, `None` when there is none. */
  function LastTopics(cs: seq<Element>): Option<seq<Topic>> {
    match LastTagged(cs, "TOPICS", false)
    case None => None
    case Some(i) => Some(GetTopics(cs[i]))
  }

  /** The text fields of the last `TEXT` child, all `None` when there is none. */
  function LastTextFields(cs: seq<Element>): TextFields {
    match LastTagged(cs, "TEXT", false)
    case None => TextFields(None, None, None)
    case Some(i) => GetText(cs[i])
  }

  /** The loop of `parse_doc` over the children `cs`, in order. */
  function ParseChildren(attrs: map<string, string>, cs: seq<Element>): (d: RawDocument)
    ensures d.attrs == attrs
    ensures d.topics == LastTopics(cs)
    ensures d.date == LastText(cs, "DATE", false)
    ensures TextFields(d.title, d.dateline, d.body) == LastTextFields(cs)
  {
    if |cs| == 0 then RawDocument(attrs, None, None, None, None, None)
    else
      var d := ParseChildren(attrs, cs[..|cs| - 1]);
      var item := cs[|cs| - 1];
      LastTopicsSnoc(cs);
      LastTextSnoc(cs, "DATE", false);
      LastTextFieldsSnoc(cs);
      if item.tag == "TOPICS" then d.(topics := Some(GetTopics(item)))
      else if item.tag == "DATE" then d.(date := item.text)
      else if item.tag == "TEXT" then
        var f := GetText(item);
        d.(title := f.title, dateline := f.dateline, body := f.body)
      else d
  }

  /** The last `TOPICS` child is the final child when it is one, else the last one before it. */
  lemma LastTopicsSnoc(cs: seq<Element>)
    requires |cs| > 0
    ensures LastTopics(cs) == if cs[|cs| - 1].tag == "TOPICS" then Some(GetTopics(cs[|cs| - 1]))
                              else LastTopics(cs[..|cs| - 1])
  {
    var init := cs[..|cs| - 1];
    match LastTagged(init, "TOPICS", false)
    case None =>
    case Some(i) => assert init[i] == cs[i];
  }

  /** The same for the text of the last child tagged `tag`. */
  lemma LastTextSnoc(cs: seq<Element>, tag: string, folded: bool)
    requires |cs| > 0
    ensures LastText(cs, tag, folded) == if TagIs(cs[|cs| - 1], tag, folded) then cs[|cs| - 1].text
                                         else LastText(cs[..|cs| - 1], tag, folded)
  {
    var init := cs[..|cs| - 1];
    match LastTagged(init, tag, folded)
    case None =>
    case Some(i) => assert init[i] == cs[i];
  }

  /** The same for the text fields of the last `TEXT` child. */
  lemma LastTextFieldsSnoc(cs: seq<Element>)
    requires |cs| > 0
    ensures LastTextFields(cs) == if cs[|cs| - 1].tag == "TEXT" then GetText(cs[|cs| - 1])
                                  else LastTextFields(cs[..|cs| - 1])
  {
    var init := cs[..|cs| - 1];
    match LastTagged(init, "TEXT", false)
    case None =>
    case Some(i) => assert init[i] == cs[i];
  }

  /**
   * `parse_doc`: the attributes of the article, plus topics, date and the
   * text fields taken from its last `TOPICS`, `DATE` and `TEXT` children
   * (tags compared exactly).
   */
  function ParseDoc(elem: Element): (d: RawDocument)
    ensures d.attrs == elem.attrs
    ensures d.topics == LastTopics(elem.children)
    ensures d.date == LastText(elem.children, "DATE", false)
    ensures TextFields(d.title, d.dateline, d.body) == LastTextFields(elem.children)
  {
    ParseChildren(elem.attrs, elem.children)
  }

  /** An article has a topic list exactly when it has a `TOPICS` child. */
  lemma ParseDocTopicsPresent(elem: Element)
    ensures ParseDoc(elem).topics.Some?
            <==> exists i :: 0 <= i < |elem.children| && elem.children[i].tag == "TOPICS"
  {
    if LastTagged(elem.children, "TOPICS", false).None? {
      assert forall j :: 0 <= j < |elem.children| ==> elem.children[j].tag != "TOPICS";
    }
  }
}
