# Reuters-21578 corpus normalisation, modelled in Dafny

This project models the core of `ds_tutorial/datasets.py`, the part that turns
the Reuters-21578 news corpus into a labelled train/test dataset.

- **`ReutersParser`** repairs the raw SGML bytes (`cleanup_sgml`). It then reads
  one `REUTERS` element at a time into a record: attributes, topics, date,
  title, dateline and body (`get_topics`, `get_text`, `parse_doc`).
- **`ReutersCorpus`** annotates every record. It adds a `text` field, a ModApte
  split (`train`, `test` or `unused`) and provisional topic ids. It keeps the
  train and test documents and, with `multiclass`, only the single-label ones.
  It then removes every category id that is not seen in both a train and a
  test document, and drops documents left without categories. Finally it
  renumbers the topics of the surviving documents from 1 with no gaps.

Modules (one file each):

| module | file | models |
|---|---|---|
| `Wrappers` | wrappers.dfy | `Option`, for a value Python stores as `None` or leaves out of the dictionary |
| `Seqs` | seqs.dfy | order-preserving filter, map, flatten, subsequence and first-seen de-duplication (`Dedup`), the reference for "first-seen order" |
| `Sgml` | sgml.dfy | `cleanup_sgml` on byte sequences, with Python's `bytes.replace` written out |
| `Parser` | parser.dfy | `get_topics`, `get_text`, `parse_doc` over an element tree |
| `Topics` | topics.dfy | the `topics` dictionary and `target_names` list grown by `_add_topics` |
| `Corpus` | corpus.dfy | `_add_text`, `_add_modapte`, `get_docs`, `filter_multi_label`, `filter_empty_cats`, `_renumber_topics`, `__init__` |
| `Survivors` | survivors.dfy | which articles survive `__init__`, stated in terms of the input articles |
| `Intended` | intended.dfy | the corrected cross-split filter (see Findings) |
| `Scenarios` | scenarios.dfy | small corpora worked through the whole pipeline |

The Python code updates one dictionary per document in place. Here every stage
is a pure function that takes documents and returns new ones, and the corpus
object becomes the datatype `ReutersCorpus` of documents, topic dictionary and
`target_names`. Each loop that accumulates state (`get_text`, `parse_doc`,
`get_docs`, `_add_topics`, `_renumber_topics`) becomes a recursion over the
prefix of its input, so the last element is processed last, as in the loop.
The list comprehensions that only filter (`filter_multi_label`, the document
filter of `filter_empty_cats`) are `Seqs.Filter`, which recurses on the tail;
filtering keeps the input order either way. `Dedup` keeps the first copy of each element
and strikes later ones. It is defined independently of the topic table, so
"first-seen order" is a statement about the table, not a restatement of it.

Two behaviours of the code a reader may not expect:

- `get_text` keeps the **last** `title`, `dateline` or `body` sub-element, because
  each later one overwrites the dictionary entry. The text is not trimmed.
  `text` is `title + " " + dateline + " " + body`, with a missing field read as
  the empty string.
- `_renumber_topics` rebuilds categories from each surviving document's
  **full** topic list, not from its filtered categories. A topic removed by
  `filter_empty_cats` therefore comes back whenever a surviving document still
  lists it. See Findings.

## Model

| member | source | states |
|---|---|---|
| Sgml.Replace | ds_tutorial/datasets.py:21 | one left-to-right pass of `bytes.replace`: input without the pattern is returned unchanged, every output byte comes from the input or the replacement, and deleting a one-byte pattern leaves none of it |
| Sgml.ReplaceFirstMatch | ds_tutorial/datasets.py:21 | the leftmost occurrence of the pattern is replaced, the bytes before it are kept, and the scan resumes right after it |
| Sgml.DeleteByteIsWithout | ds_tutorial/datasets.py:20-21 | deleting a single byte value is the same as striking every copy of it from the sequence |
| Sgml.DeleteAll | ds_tutorial/datasets.py:20-21 | deleting the patterns in order adds no byte, leaves no deleted one-byte pattern, and is the identity on input that contains none of the patterns |
| Sgml.SinglePassCanReassemble | ds_tutorial/datasets.py:20-21 | a single deletion pass is not a full clean-up: deleting `&#1;` from `&#&#1;1;` leaves `&#1;` |
| Sgml.CleanupSgml | ds_tutorial/datasets.py:6-23 | the repaired file always ends with `</document>`, never contains byte 0xFC, and adds only ASCII bytes; on a file with no broken pattern it only swaps the doctype line for `<document>` and appends the close tag |
| Parser.GetTopics | ds_tutorial/datasets.py:25-26 | one topic per child of `TOPICS`, in order, each the child's text (absent text kept as `None`) |
| Parser.LastTagged | ds_tutorial/datasets.py:30-33 | finds the last child with a given tag, optionally lower-cased, and reports none when no child has it |
| Parser.GetText | ds_tutorial/datasets.py:28-34 | title, dateline and body are each the text of the last child whose lower-cased tag names them, or `None` when there is no such child |
| Parser.ParseChildren | ds_tutorial/datasets.py:39-45 | a later `TOPICS`, `DATE` or `TEXT` child overrides an earlier one; the result reads each field from the last child with that exact tag |
| Parser.ParseDoc | ds_tutorial/datasets.py:36-46 | the record's attributes are the element's attributes, and topics, date and text fields come from the element's last matching child |
| Parser.ParseDocTopicsPresent | ds_tutorial/datasets.py:40-41 | the record has a topics entry exactly when some child is tagged `TOPICS` |
| Topics.ValidIsBijection | ds_tutorial/datasets.py:94-97 | a valid table lists each topic once, and each id names its own position in the list |
| Topics.AddTopic | ds_tutorial/datasets.py:94-98 | a new topic is appended with id one past the list; a known one leaves the table unchanged; old ids never change |
| Topics.AddTopics | ds_tutorial/datasets.py:91-99 | after a document's topics are added, every topic has an id, and the categories are exactly the ids of the topics at the same positions |
| Topics.AddTopicsFirstSeen | ds_tutorial/datasets.py:93-97 | the list grown by the loop is the distinct topics seen so far, in first-seen order |
| Corpus.JoinText | ds_tutorial/datasets.py:76-81 | `text` is the title, a space, the dateline, a space, then the body, with missing fields empty |
| Corpus.Modapte | ds_tutorial/datasets.py:83-89 | train exactly when the split is TRAIN and TOPICS is YES; test exactly when the split is TEST and TOPICS is YES; unused otherwise; the TOPICS attribute is needed only for a TRAIN or TEST split, since `and` stops at the first false operand |
| Corpus.Annotate | ds_tutorial/datasets.py:102-105 | the annotated document keeps the article's fields, derives `text` and `modapte` from them, and numbers every topic with the grown table |
| Corpus.AnnotateAll | ds_tutorial/datasets.py:103-105 | every article is annotated in order, and every document's categories stay valid in the final table |
| Corpus.GetDocs | ds_tutorial/datasets.py:101-107 | the documents yielded are the annotations of exactly the train and test articles, in input order |
| Corpus.FilterMultiLabel | ds_tutorial/datasets.py:127-132 | keeps, in order, exactly the documents with one category |
| Corpus.CatsIn | ds_tutorial/datasets.py:111-118 | a category is collected for a split exactly when some document of that split has it |
| Corpus.RestrictCats | ds_tutorial/datasets.py:122 | keeps, in order, exactly the categories in the valid set; a document whose categories are all valid is unchanged |
| Corpus.FilterEmptyCats | ds_tutorial/datasets.py:109-125 | every kept document has a category, and every kept category appears in a train and in a test document; every document with a valid category is kept |
| Corpus.FilterEmptyCatsKeepsValid | ds_tutorial/datasets.py:109-125 | a category that survives the filter is still seen in both splits of the filtered documents |
| Corpus.FilterEmptyCatsIdempotent | ds_tutorial/datasets.py:109-125 | filtering a second time changes nothing |
| Corpus.Renumber | ds_tutorial/datasets.py:70-74 | renumbering changes only categories, keeps the articles, and leaves every document's categories valid in a gap-free table |
| Corpus.RenumberFirstSeen | ds_tutorial/datasets.py:70-74 | the new `target_names` are the distinct topics of the documents, in first-seen order |
| Corpus.RenumberIgnoresCats | ds_tutorial/datasets.py:92-99 | the result does not depend on the categories the documents had before |
| Corpus.RenumberedTable | ds_tutorial/datasets.py:70-74 | the new table names exactly the topics the documents list |
| Corpus.Build | ds_tutorial/datasets.py:58-68 | the corpus keeps a subsequence of the articles, all train or test, each with a category; the table is gap-free and lists the survivors' topics in first-seen order; with `multiclass` every document has one category |
| Survivors.CatsInByName | ds_tutorial/datasets.py:111-118 | a provisional id is collected for a split exactly when an article of that split lists the topic |
| Survivors.SurvivorsCarryBoth | ds_tutorial/datasets.py:119-124 | every surviving document lists a topic seen in both a train and a test candidate |
| Survivors.CarriersSurvive | ds_tutorial/datasets.py:119-124 | every candidate listing a topic seen in both splits survives |
| Survivors.KeptExactlyCarriers | ds_tutorial/datasets.py:119-124 | a document keeps a category after the cross-split filter exactly when its article lists a topic seen in both splits |
| Survivors.FilterKeepsCarriers | ds_tutorial/datasets.py:119-124 | the articles behind the filtered documents are exactly the carriers of a both-split topic, in order and with repeats |
| Survivors.BuildSurvivors | ds_tutorial/datasets.py:58-68 | the survivors are, in order and with repeats, exactly the candidate articles that list a topic seen in both splits |
| Scenarios.TwoSplitsShareGrain | ds_tutorial/datasets.py:58-68 | a train and a test article about grain both survive, and grain is topic 1 |
| Scenarios.TrainOnlyTopicDropped | ds_tutorial/datasets.py:109-125 | an article whose only topic is never seen in a test article is dropped, and its topic leaves the table |
| Scenarios.MultiLabelDropped | ds_tutorial/datasets.py:63-64 | with `multiclass`, articles with two topics are all dropped |
| Scenarios.FilteredTopicReturns | ds_tutorial/datasets.py:70-74 | a topic removed by the cross-split filter is back in the final table with its own id |
| Intended.KeepValidTopics | ds_tutorial/datasets.py:122 | keeps, in order, exactly the topic names whose provisional id is valid |
| Intended.FilterEmptyCatsIntended | ds_tutorial/datasets.py:109-125 | keeps the same documents as the filter as written, each with its topic names cut to those with a valid id, so every topic a kept document still lists has an id seen in both splits |
| Intended.BuildIntended | ds_tutorial/datasets.py:58-68 | the same articles as `Build`, numbered gap-free in first-seen order, with a topic in the final table exactly when a train candidate and a test candidate carry it |
| Scenarios.IntendedDropsFilteredTopic | ds_tutorial/datasets.py:110 | with the corrected filter, both articles of the Findings input survive and the final table is grain alone |
| Scenarios.UnusedWithoutTopicsAttribute | ds_tutorial/datasets.py:83-89 | an article with split NOT-USED and no TOPICS attribute is read without error, marked unused and left out of the corpus |

## Left out

- `parse_sgml` (datasets.py:48-54) reads a file, decodes UTF-8 and streams elements from an XML parser. It is not modelled. `ParseDoc` takes the element tree as an input.
- The rest of the repository (the dataframe assembly, the column transformers, the downloader and `ds_tutorial_old`) is not part of this model.
- A `KeyError` in annotation is not modelled as an error path: a missing `LEWISSPLIT` attribute, a missing `TOPICS` attribute on a TRAIN or TEST article, or a record without a `topics` entry. `Corpus.WellFormed` (built on `Corpus.SplitReadable`) rules out exactly these and is a precondition of `Annotate`, `GetDocs` and `Build`. A NOT-USED article without `TOPICS` is accepted, as in the code.
- In Python, the dropped documents are still mutated: `get_docs` annotates every input dictionary, and `filter_empty_cats` rewrites `cats` on every document it sees. The pure functions here return new documents, so those side effects on the caller's dictionaries are not modelled.
- `get_docs` is a generator that `__init__` consumes at once with `list(...)`. It is modelled as the resulting list.
- Parser.Lower: lower-cases ASCII letters only, while Python's `str.lower` is Unicode-aware. No non-ASCII character lowers to a string equal to `title`, `dateline` or `body`, so `GetText` agrees with the source.
- Sgml.CleanupSgml: the contract pins the output down exactly only for input with no broken pattern. For other input it states the closing tag, the absence of byte 0xFC and that no new non-ASCII byte appears, but not the exact bytes.
- Intended.BuildIntended: it is a corrected variant, not a model of the code. `Corpus.Build` is the model of `__init__` as written.

## Findings

| source | as written | input that shows it | evidently intended | confidence | as-written member | corrected member |
|---|---|---|---|---|---|---|
| ds_tutorial/datasets.py:70-74 | `_renumber_topics` rebuilds the table and categories from each surviving document's full `topics` list, so a topic that `filter_empty_cats` removed comes back | a train article with topics grain and oilseed, plus a test article with topic grain: both survive, the final table is [grain, oilseed], and the train document's categories are [1, 2] although oilseed is in no test article | the comment at line 110 and the renumbering that follows it: every final category has at least one train and one test document | medium; not executed | Scenarios.FilteredTopicReturns | Intended.BuildIntended |

`Corpus.Build` stays faithful to the code and is what the `Survivors` and
`Scenarios` modules reason about. `Intended.BuildIntended` drops the removed
topic names along with their ids before renumbering. It proves that every
topic in its final table is carried by a train and a test candidate, that
every such topic is in the table, and that it keeps the same articles as
`Corpus.Build`. `Scenarios.IntendedDropsFilteredTopic` shows that for the
input above both articles survive and the table is grain alone.
