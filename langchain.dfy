/** The LangChain backend: an in-memory vector store whose entries are kept
    in insertion order (the order a Python dict iterates in), its ingestion,
    deletion and introspection operations, and question answering. The
    embedding vectors, the PDF loader, the text splitter, similarity search
    and the chat model are parameters. */
module LangChainRag {
  import opened Common
  import opened Prompts

  type Id = nat

  /** A point in time, as the number the clock gives. */
  type Date = int

  /** A stored chunk: its text and the metadata ingestion gives it. */
  datatype Record = Record(text: string, documentName: string, insertDate: Date)

  /** One `(id, document)` item of the store's dictionary. */
  datatype Entry = Entry(id: Id, record: Record)

  /** One row of the inspection listing. */
  datatype InspectedDoc = InspectedDoc(id: Id, documentName: string, insertDate: Date, text: string)

  datatype StoreInfo = StoreInfo(nbChunks: nat, minInsertDate: Option<Date>, maxInsertDate: Option<Date>, nbDocuments: nat)

  /** Dictionary keys are unique. */
  predicate DistinctIds(es: seq<Entry>)
  {
    forall i, j :: 0 <= i < j < |es| ==> es[i].id != es[j].id
  }

  /** How many entries carry the document name `name`. */
  function CountName(es: seq<Entry>, name: string): nat
  {
    if es == [] then 0
    else (if es[0].record.documentName == name then 1 else 0) + CountName(es[1..], name)
  }

  /** The store after removing every chunk of document `name`. */
  function WithoutName(es: seq<Entry>, name: string): (r: seq<Entry>)
    ensures forall e :: e in r <==> e in es && e.record.documentName != name
    ensures |r| == |es| - CountName(es, name)
  {
    if es == [] then []
    else if es[0].record.documentName == name then WithoutName(es[1..], name)
    else [es[0]] + WithoutName(es[1..], name)
  }

  /** Removal keeps the surviving entries in their relative order: it works
      piecewise on any split of the store. */
  lemma {:induction false} WithoutNameAppend(a: seq<Entry>, b: seq<Entry>, name: string)
    ensures WithoutName(a + b, name) == WithoutName(a, name) + WithoutName(b, name)
  {
    if a != [] {
      var ab := a + b;
      assert ab[0] == a[0] && ab[1..] == a[1..] + b;
      WithoutNameAppend(a[1..], b, name);
      if a[0].record.documentName != name {
        assert WithoutName(ab, name) == [a[0]] + (WithoutName(a[1..], name) + WithoutName(b, name));
      }
    } else {
      assert a + b == b;
    }
  }

  /** Removal keeps ids distinct. */
  lemma {:induction false} WithoutNameDistinct(es: seq<Entry>, name: string)
    requires DistinctIds(es)
    ensures DistinctIds(WithoutName(es, name))
  {
    if es != [] {
      var rest := es[1..];
      assert DistinctIds(rest);
      WithoutNameDistinct(rest, name);
      var w := WithoutName(rest, name);
      forall x | x in w ensures x.id != es[0].id {
        var k :| 0 <= k < |rest| && rest[k] == x;
        assert es[k + 1] == x;
      }
    }
  }

  /** When no entry carries the name, removal leaves the store as it was. */
  lemma {:induction false} WithoutAbsentName(es: seq<Entry>, name: string)
    requires CountName(es, name) == 0
    ensures WithoutName(es, name) == es
  {
    if es != [] {
      WithoutAbsentName(es[1..], name);
    }
  }

  /** The ids of the entries of document `name`, in store order. */
  function IdsNamed(es: seq<Entry>, name: string): (r: seq<Id>)
    ensures forall id :: id in r ==> exists e :: e in es && e.id == id && e.record.documentName == name
    ensures |r| == CountName(es, name)
  {
    if es == [] then []
    else if es[0].record.documentName == name then [es[0].id] + IdsNamed(es[1..], name)
    else IdsNamed(es[1..], name)
  }

  /** The store after popping each of `ids` from the dictionary. */
  function RemoveIds(es: seq<Entry>, ids: seq<Id>): (r: seq<Entry>)
    ensures forall e :: e in r <==> e in es && e.id !in ids
  {
    if es == [] then []
    else if es[0].id in ids then RemoveIds(es[1..], ids)
    else [es[0]] + RemoveIds(es[1..], ids)
  }

  lemma {:induction false} RemoveIdsIgnoresAbsent(es: seq<Entry>, extra: Id, ids: seq<Id>)
    requires forall e :: e in es ==> e.id != extra
    ensures RemoveIds(es, [extra] + ids) == RemoveIds(es, ids)
  {
    if es != [] {
      assert es[0] in es;
      RemoveIdsIgnoresAbsent(es[1..], extra, ids);
    }
  }

  /** Deleting by the collected ids is deleting by name, because no id is
      shared by two entries. */
  lemma {:induction false} RemoveNamedIds(es: seq<Entry>, name: string)
    requires DistinctIds(es)
    ensures RemoveIds(es, IdsNamed(es, name)) == WithoutName(es, name)
  {
    if es != [] {
      var e, rest := es[0], es[1..];
      assert DistinctIds(rest);
      RemoveNamedIds(rest, name);
      assert forall x :: x in rest ==> x.id != e.id by {
        forall x | x in rest ensures x.id != e.id {
          var k :| 0 <= k < |rest| && rest[k] == x;
          assert es[k + 1] == x;
        }
      }
      if e.record.documentName == name {
        RemoveIdsIgnoresAbsent(rest, e.id, IdsNamed(rest, name));
      } else {
        assert e.id !in IdsNamed(rest, name);
      }
    }
  }

  /** The entries `AddDocuments` creates: consecutive ids from `start`. */
  function Numbered(start: Id, docs: seq<Record>): (r: seq<Entry>)
    ensures |r| == |docs|
    ensures forall i :: 0 <= i < |r| ==> r[i] == Entry(start + i, docs[i])
  {
    seq(|docs|, i requires 0 <= i < |docs| => Entry(start + i, docs[i]))
  }

  /** The first at most ten chunks, blank-line separated: the sample the
      metadata summary is generated from. */
  function MetaExtract(splits: seq<string>): (r: string)
    ensures |splits| <= 10 ==> r == Join(splits, "\n\n")
  {
    assert |splits| <= 10 ==> splits[..Min(10, |splits|)] == splits;
    Join(splits[..Min(10, |splits|)], "\n\n")
  }

  /** The documents one ingestion hands to the store: every split tagged with
      the document name and the clock reading taken for it, then, when a
      summary was made, one more document holding it. */
  function IngestedDocuments(splits: seq<string>, docName: string, summary: Option<string>, clock: nat -> Date)
    : (r: seq<Record>)
    ensures |r| == |splits| + (if summary.Some? then 1 else 0)
    ensures forall i :: 0 <= i < |r| ==> r[i].documentName == docName
    ensures forall i :: 0 <= i < |splits| ==> r[i].text == splits[i] && r[i].insertDate == clock(i)
    ensures summary.Some? ==> r[|splits|].text == summary.value && r[|splits|].insertDate == clock(|splits|)
  {
    seq(|splits|, i requires 0 <= i < |splits| => Record(splits[i], docName, clock(i)))
    + (match summary
       case Some(s) => [Record(s, docName, clock(|splits|))]
       case None => [])
  }

  /** The set of document names present in the store. */
  function DocumentNames(es: seq<Entry>): set<string>
  {
    set e | e in es :: e.record.documentName
  }

  /** Ingesting `n` splits without a summary adds `n` chunks and, unless
      there were none, exactly the one new name. */
  lemma IngestRoundTrip(es: seq<Entry>, start: Id, splits: seq<string>, docName: string, clock: nat -> Date)
    ensures var after := es + Numbered(start, IngestedDocuments(splits, docName, None, clock));
            |after| == |es| + |splits| &&
            DocumentNames(after) == DocumentNames(es) + (if splits == [] then {} else {docName})
  {
    var added := Numbered(start, IngestedDocuments(splits, docName, None, clock));
    var after := es + added;
    if splits != [] {
      assert added[0] in after;
    }
    forall n | n in DocumentNames(after) ensures n in DocumentNames(es) + (if splits == [] then {} else {docName}) {
      var e :| e in after && e.record.documentName == n;
      if e !in es {
        assert e in added;
      }
    }
  }

  /** Whether a date is the insertion date of some entry. */
  predicate DateAttained(es: seq<Entry>, d: Date)
  {
    exists i :: 0 <= i < |es| && es[i].record.insertDate == d
  }

  function Inspect(e: Entry): (d: InspectedDoc)
    ensures d.id == e.id && d.text == e.record.text
    ensures d.documentName == e.record.documentName && d.insertDate == e.record.insertDate
  {
    InspectedDoc(e.id, e.record.documentName, e.record.insertDate, e.record.text)
  }

  /** The in-memory vector store: an insertion-ordered dictionary from chunk
      id to the stored chunk. Fresh ids are drawn from a counter. */
  class VectorStore {
    var entries: seq<Entry>
    var nextId: Id

    ghost predicate Valid()
      reads this
    {
      DistinctIds(entries) && forall i :: 0 <= i < |entries| ==> entries[i].id < nextId
    }

    constructor ()
      ensures Valid() && entries == [] && nextId == 0
    {
      entries, nextId := [], 0;
    }

    /** Appends the documents under fresh ids. */
    method AddDocuments(docs: seq<Record>)
      requires Valid()
      modifies this
      ensures Valid()
      ensures entries == old(entries) + Numbered(old(nextId), docs)
      ensures nextId == old(nextId) + |docs|
    {
      var added := Numbered(nextId, docs);
      entries := entries + added;
      nextId := nextId + |docs|;
    }

    /** Splits the loaded pages, tags every split, optionally appends the
        metadata summary of the first splits, and adds them all at once. A
        summary that raises aborts the ingestion before the store changes. */
    method StorePdfFile(pages: seq<string>, docName: string, useMetaDoc: bool,
                        split: string -> seq<string>, getMetaDoc: string -> Result<string>,
                        clock: nat -> Date)
      returns (r: Result<()>)
      requires Valid()
      modifies this
      ensures Valid()
      ensures var splits := SplitAll(pages, split);
              var summary := getMetaDoc(MetaExtract(splits));
              if useMetaDoc && summary.Raised? then
                r == Raised(summary.error) && entries == old(entries) && nextId == old(nextId)
              else
                r == Ok(()) &&
                entries == old(entries) + Numbered(old(nextId),
                  IngestedDocuments(splits, docName, if useMetaDoc then Some(summary.value) else None, clock))
    {
      var allSplits := SplitAll(pages, split);
      var docs: seq<Record> := [];
      for i := 0 to |allSplits|
        invariant |docs| == i
        invariant forall j :: 0 <= j < i ==> docs[j] == Record(allSplits[j], docName, clock(j))
      {
        docs := docs + [Record(allSplits[i], docName, clock(i))];
      }
      var summary: Option<string> := None;
      if useMetaDoc {
        var extract := Join(allSplits[..Min(10, |allSplits|)], "\n\n");
        var metaDoc := getMetaDoc(extract);
        if metaDoc.Raised? {
          return Raised(metaDoc.error);
        }
        docs := docs + [Record(metaDoc.value, docName, clock(|allSplits|))];
        summary := Some(metaDoc.value);
      }
      assert docs == IngestedDocuments(allSplits, docName, summary, clock);
      AddDocuments(docs);
      r := Ok(());
    }

    /** Collects the ids of the named document's chunks, deletes them and
        returns how many there were. */
    method DeleteFileFromStore(name: string) returns (count: nat)
      requires Valid()
      modifies this
      ensures Valid() && nextId == old(nextId)
      ensures entries == WithoutName(old(entries), name)
      ensures count == CountName(old(entries), name)
    {
      var idsToRemove: seq<Id> := [];
      for i := 0 to |entries|
        invariant idsToRemove + IdsNamed(entries[i..], name) == IdsNamed(entries, name)
      {
        assert entries[i..][1..] == entries[i + 1..];
        if name == entries[i].record.documentName {
          idsToRemove := idsToRemove + [entries[i].id];
        }
      }
      assert entries[|entries|..] == [];
      assert idsToRemove + [] == idsToRemove;
      assert idsToRemove == IdsNamed(entries, name);
      RemoveNamedIds(entries, name);
      WithoutNameDistinct(entries, name);
      ghost var before := entries;
      entries := RemoveIds(entries, idsToRemove);
      assert forall i :: 0 <= i < |entries| ==> entries[i] in before;
      count := |idsToRemove|;
    }

    /** The first `topN` entries in store order (none for a negative `topN`). */
    method InspectVectorStore(topN: int) returns (docs: seq<InspectedDoc>)
      ensures |docs| == Min(Max(topN, 0), |entries|)
      ensures forall i :: 0 <= i < |docs| ==> docs[i] == Inspect(entries[i])
    {
      docs := [];
      var index := 0;
      while index < |entries|
        invariant index <= |entries| && index <= Max(topN, 0)
        invariant |docs| == index
        invariant forall i :: 0 <= i < index ==> docs[i] == Inspect(entries[i])
      {
        if index < topN {
          docs := docs + [Inspect(entries[index])];
        } else {
          break;
        }
        index := index + 1;
      }
    }

    /** Number of chunks, of distinct document names, and the earliest and
        latest insertion dates (none for an empty store). */
    method GetVectorStoreInfo() returns (info: StoreInfo)
      ensures info.nbChunks == |entries|
      ensures info.nbDocuments == |DocumentNames(entries)|
      ensures info.minInsertDate.None? <==> entries == []
      ensures info.maxInsertDate.None? <==> entries == []
      ensures info.minInsertDate.Some? ==>
                DateAttained(entries, info.minInsertDate.value) &&
                forall i :: 0 <= i < |entries| ==> info.minInsertDate.value <= entries[i].record.insertDate
      ensures info.maxInsertDate.Some? ==>
                DateAttained(entries, info.maxInsertDate.value) &&
                forall i :: 0 <= i < |entries| ==> entries[i].record.insertDate <= info.maxInsertDate.value
    {
      var nbDocs := 0;
      var maxDate: Option<Date> := None;
      var minDate: Option<Date> := None;
      var documents: set<string> := {};
      for i := 0 to |entries|
        invariant nbDocs == i
        invariant documents == DocumentNames(entries[..i])
        invariant maxDate.None? <==> i == 0
        invariant minDate.None? <==> i == 0
        invariant maxDate.Some? ==>
                    DateAttained(entries[..i], maxDate.value) &&
                    forall k :: 0 <= k < i ==> entries[k].record.insertDate <= maxDate.value
        invariant minDate.Some? ==>
                    DateAttained(entries[..i], minDate.value) &&
                    forall k :: 0 <= k < i ==> minDate.value <= entries[k].record.insertDate
      {
        var date := entries[i].record.insertDate;
        assert entries[..i + 1] == entries[..i] + [entries[i]];
        if maxDate.None? || maxDate.value < date {
          maxDate := Some(date);
        }
        if minDate.None? || minDate.value > date {
          minDate := Some(date);
        }
        documents := documents + {entries[i].record.documentName};
        nbDocs := nbDocs + 1;
      }
      assert entries[..|entries|] == entries;
      info := StoreInfo(nbDocs, minDate, maxDate, |documents|);
    }
  }

  /** Three messages: the language instruction, the task instruction ending
      with the context, and the question. Unknown languages get French. */
  function BuildQaMessages(question: string, context: string, langue: string): (msgs: seq<Message>)
    ensures |msgs| == 3
    ensures msgs[0] == Message(System, LanguePrompt(LanguageOf(langue)))
    ensures msgs[1].role == System
    ensures |context| <= |msgs[1].content|
    ensures msgs[1].content[|msgs[1].content| - |context|..] == context
    ensures msgs[1].content[..|msgs[1].content| - |context|] == TaskInstructions(LanguageOf(langue))
    ensures msgs[2] == Message(User, question)
  {
    var l := LanguageOf(langue);
    [Message(System, LanguePrompt(l)), Message(System, TaskPrompt(l, context)), Message(User, question)]
  }

  /** A language name outside the table yields exactly the French messages. */
  lemma UnknownLanguageIsFrench(question: string, context: string, langue: string)
    requires forall k: Language :: Key(k) != langue
    ensures BuildQaMessages(question, context, langue) == BuildQaMessages(question, context, "Français")
  {
  }

  /** The context: retrieved chunk texts joined by a blank line, in
      retrieval order. */
  function Context(texts: seq<string>): string
  {
    Join(texts, "\n\n")
  }

  /** Retrieves the `topK` chunk texts most similar to the question (a
      search that may raise), builds the context and the messages, and
      invokes the chat model; nothing special happens when nothing was
      retrieved. Exceptions propagate. */
  function AnswerQuestion(question: string, langue: string, topK: int,
                          search: (string, int) -> Result<seq<string>>,
                          invoke: seq<Message> -> Result<string>): (r: Result<string>)
    ensures search(question, topK).Raised? ==> r == Raised(search(question, topK).error)
    ensures search(question, topK).Ok? ==>
              r == invoke(BuildQaMessages(question, Context(search(question, topK).value), langue))
  {
    match search(question, topK)
    case Raised(e) => Raised(e)
    case Ok(texts) => invoke(BuildQaMessages(question, Context(texts), langue))
  }

  /** An empty retrieval is not special-cased: the model is still asked,
      with an empty context. */
  lemma EmptyRetrievalStillInvokes(question: string, langue: string, topK: int,
                                   search: (string, int) -> Result<seq<string>>,
                                   invoke: seq<Message> -> Result<string>)
    requires search(question, topK) == Ok([])
    ensures AnswerQuestion(question, langue, topK, search, invoke) == invoke(BuildQaMessages(question, "", langue))
  {
  }

  /** The context lists the retrieved texts in retrieval order: the texts of
      a first batch, a blank line, then those of the rest. */
  lemma ContextInRetrievalOrder(question: string, langue: string, first: seq<string>, rest: seq<string>)
    requires first != [] && rest != []
    ensures BuildQaMessages(question, Context(first + rest), langue)[1]
            == BuildQaMessages(question, Context(first) + "\n\n" + Context(rest), langue)[1]
  {
    JoinAppend(first, rest, "\n\n");
  }
}
