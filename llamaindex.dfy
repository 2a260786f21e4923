/** The LlamaIndex backend: ingestion that keeps, beside the list of chunks,
    the index of the page each chunk came from, builds one node per chunk,
    embeds every node and then adds them all to the store; retrieval that
    turns every kind of empty or failed query into an empty list; prompt
    building and question answering. Deletion and introspection are not
    offered. The reader, splitter, embedder, store query and chat model are
    parameters. */
module LlamaIndexRag {
  import opened Common
  import opened Prompts

  type Metadata = map<string, string>

  type Embedding = seq<real>

  /** A page as the PDF reader returns it. */
  datatype LoadedDocument = LoadedDocument(text: string, metadata: Metadata)

  /** The value of a node: what the store keeps of it and a query returns. */
  datatype NodeRecord = NodeRecord(text: string, metadata: Metadata, embedding: Option<Embedding>)

  /** What one store query produced: it raised, it returned `None`, or it
      returned a result whose node list may itself be `None`. */
  datatype QueryOutcome = QueryRaised | NoResult | QueryResult(nodes: Option<seq<NodeRecord>>)

  const Apology: string := "Désolé, je n'ai trouvé aucun document pertinent pour répondre à la question."

  function Texts(documents: seq<LoadedDocument>): (r: seq<string>)
    ensures |r| == |documents|
    ensures forall i :: 0 <= i < |r| ==> r[i] == documents[i].text
  {
    seq(|documents|, i requires 0 <= i < |documents| => documents[i].text)
  }

  /** For each chunk of `SplitAll(texts, split)`, the index of its page. */
  function DocIndexes(texts: seq<string>, split: string -> seq<string>): (r: seq<nat>)
    ensures |r| == |SplitAll(texts, split)|
    ensures forall i :: 0 <= i < |r| ==> r[i] < |texts|
  {
    if texts == [] then []
    else
      var last := |texts| - 1;
      DocIndexes(texts[..last], split) + seq(|split(texts[last])|, _ => last)
  }

  predicate NonDecreasing(s: seq<nat>)
  {
    forall i, j :: 0 <= i <= j < |s| ==> s[i] <= s[j]
  }

  /** The page indexes never decrease. */
  lemma {:induction false} DocIndexesSorted(texts: seq<string>, split: string -> seq<string>)
    ensures NonDecreasing(DocIndexes(texts, split))
  {
    if texts != [] {
      var n := |texts|;
      DocIndexesSorted(texts[..n - 1], split);
      var before := DocIndexes(texts[..n - 1], split);
      var block := seq(|split(texts[n - 1])|, _ => n - 1);
      var r := DocIndexes(texts, split);
      assert r == before + block;
      forall i, j | 0 <= i <= j < |r| ensures r[i] <= r[j] {
        if j >= |before| {
          assert r[j] == block[j - |before|] == n - 1;
          if i < |before| {
            assert r[i] == before[i] && before[i] < |texts[..n - 1]|;
          } else {
            assert r[i] == block[i - |before|];
          }
        } else {
          assert r[i] == before[i] && r[j] == before[j];
        }
      }
    }
  }

  /** Chunk `i` lies in the block of its page and is the matching piece of
      that page's split. */
  lemma {:induction false} DocIndexLocate(texts: seq<string>, split: string -> seq<string>, i: nat)
    requires i < |DocIndexes(texts, split)|
    ensures var d := DocIndexes(texts, split)[i];
            d < |texts| &&
            var start := Offset(texts, split, d);
            start <= i < start + |split(texts[d])| &&
            SplitAll(texts, split)[i] == split(texts[d])[i - start]
  {
    var n := |texts|;
    var prefix := texts[..n - 1];
    var before := DocIndexes(prefix, split);
    var r := DocIndexes(texts, split);
    assert r == before + seq(|split(texts[n - 1])|, _ => n - 1);
    assert SplitAll(texts, split) == SplitAll(prefix, split) + split(texts[n - 1]);
    if i < |before| {
      DocIndexLocate(prefix, split, i);
      var d := before[i];
      assert r[i] == d;
      assert texts[..d] == prefix[..d];
      assert texts[d] == prefix[d];
    } else {
      assert r[i] == n - 1;
      assert texts[..n - 1] == prefix;
    }
  }

  /** The loop that splits each page and records, per chunk, its page. */
  method ChunkDocuments(documents: seq<LoadedDocument>, split: string -> seq<string>)
    returns (textChunks: seq<string>, docIdxs: seq<nat>)
    ensures textChunks == SplitAll(Texts(documents), split)
    ensures docIdxs == DocIndexes(Texts(documents), split)
    ensures |docIdxs| == |textChunks|
    ensures NonDecreasing(docIdxs)
    ensures forall i :: 0 <= i < |docIdxs| ==>
              docIdxs[i] < |documents| &&
              var d := docIdxs[i];
              var start := Offset(Texts(documents), split, d);
              start <= i < start + |split(documents[d].text)| &&
              textChunks[i] == split(documents[d].text)[i - start]
  {
    ghost var texts := Texts(documents);
    textChunks, docIdxs := [], [];
    for docIdx := 0 to |documents|
      invariant textChunks == SplitAll(texts[..docIdx], split)
      invariant docIdxs == DocIndexes(texts[..docIdx], split)
    {
      assert texts[..docIdx + 1][..docIdx] == texts[..docIdx];
      var curTextChunks := split(documents[docIdx].text);
      textChunks := textChunks + curTextChunks;
      docIdxs := docIdxs + seq(|curTextChunks|, _ => docIdx);
    }
    assert texts[..|documents|] == texts;
    DocIndexesSorted(texts, split);
    forall i | 0 <= i < |docIdxs|
      ensures docIdxs[i] < |documents|
      ensures var d := docIdxs[i];
              var start := Offset(texts, split, d);
              start <= i < start + |split(documents[d].text)| &&
              textChunks[i] == split(documents[d].text)[i - start]
    {
      DocIndexLocate(texts, split, i);
    }
  }

  /** The embedding a node gets, `None` when the embedder raises for it. */
  function EmbeddingOf(embed: (string, Metadata) -> Result<Embedding>, text: string, m: Metadata): (e: Option<Embedding>)
    ensures e.Some? <==> embed(text, m).Ok?
    ensures e.Some? ==> e.value == embed(text, m).value
  {
    match embed(text, m)
    case Ok(v) => Some(v)
    case Raised(_) => None
  }

  /** The nodes one ingestion adds: one per chunk, in chunk order, carrying
      the chunk, its page's metadata and the embedding of both. */
  function ExpectedNodes(documents: seq<LoadedDocument>, split: string -> seq<string>,
                         embed: (string, Metadata) -> Result<Embedding>): (r: seq<NodeRecord>)
    ensures |r| == |SplitAll(Texts(documents), split)|
  {
    var chunks := SplitAll(Texts(documents), split);
    var idxs := DocIndexes(Texts(documents), split);
    seq(|chunks|, i requires 0 <= i < |chunks| =>
      var m := documents[idxs[i]].metadata;
      NodeRecord(chunks[i], m, EmbeddingOf(embed, chunks[i], m)))
  }

  /** Whether the embedder succeeds on every chunk of an ingestion. */
  predicate AllEmbedded(documents: seq<LoadedDocument>, split: string -> seq<string>,
                        embed: (string, Metadata) -> Result<Embedding>)
  {
    forall i :: 0 <= i < |ExpectedNodes(documents, split, embed)| ==>
      ExpectedNodes(documents, split, embed)[i].embedding.Some?
  }

  /** Node `i` holds chunk `i`, which is a piece of its source page's split,
      and exactly that page's metadata: no document name is added. */
  lemma ExpectedNodesCarryPageMetadata(documents: seq<LoadedDocument>, split: string -> seq<string>,
                                       embed: (string, Metadata) -> Result<Embedding>, i: nat)
    requires i < |SplitAll(Texts(documents), split)|
    ensures var d := DocIndexes(Texts(documents), split)[i];
            d < |documents| &&
            ExpectedNodes(documents, split, embed)[i].metadata == documents[d].metadata &&
            ExpectedNodes(documents, split, embed)[i].text == SplitAll(Texts(documents), split)[i] &&
            Offset(Texts(documents), split, d) <= i < Offset(Texts(documents), split, d) + |split(documents[d].text)| &&
            ExpectedNodes(documents, split, embed)[i].text
              == split(documents[d].text)[i - Offset(Texts(documents), split, d)]
  {
    DocIndexLocate(Texts(documents), split, i);
  }

  /** A text node under construction; its embedding is set in place. */
  class TextNode {
    var text: string
    var metadata: Metadata
    var embedding: Option<Embedding>

    constructor (text: string)
      ensures this.text == text && metadata == map[] && embedding == None
    {
      this.text, metadata, embedding := text, map[], None;
    }
  }

  /** One fresh node per chunk, carrying the chunk and its page's metadata. */
  method BuildNodes(documents: seq<LoadedDocument>, textChunks: seq<string>, docIdxs: seq<nat>)
    returns (batch: seq<TextNode>)
    requires |docIdxs| == |textChunks|
    requires forall i :: 0 <= i < |docIdxs| ==> docIdxs[i] < |documents|
    ensures |batch| == |textChunks|
    ensures forall j :: 0 <= j < |batch| ==> fresh(batch[j])
    ensures forall j, k :: 0 <= j < k < |batch| ==> batch[j] != batch[k]
    ensures forall j :: 0 <= j < |batch| ==>
              batch[j].text == textChunks[j] &&
              batch[j].metadata == documents[docIdxs[j]].metadata &&
              batch[j].embedding == None
  {
    batch := [];
    for idx := 0 to |textChunks|
      invariant |batch| == idx
      invariant forall j :: 0 <= j < idx ==> fresh(batch[j])
      invariant forall j, k :: 0 <= j < k < idx ==> batch[j] != batch[k]
      invariant forall j :: 0 <= j < idx ==>
                  batch[j].text == textChunks[j] &&
                  batch[j].metadata == documents[docIdxs[j]].metadata &&
                  batch[j].embedding == None
    {
      var node := new TextNode(textChunks[idx]);
      node.metadata := documents[docIdxs[idx]].metadata;
      batch := batch + [node];
    }
  }

  /** Node `f` is the first of the batch the embedder raises on, and `r`
      carries that exception. */
  ghost predicate FailsFirstAt(batch: seq<TextNode>, embed: (string, Metadata) -> Result<Embedding>,
                               f: nat, r: Result<()>)
    reads set n | n in batch
  {
    f < |batch| &&
    (forall j :: 0 <= j < f ==> embed(batch[j].text, batch[j].metadata).Ok?) &&
    embed(batch[f].text, batch[f].metadata).Raised? &&
    r == Raised(embed(batch[f].text, batch[f].metadata).error)
  }

  /** Sets every node's embedding, computed from its text and metadata, in
      batch order. An exception from the embedder ends the loop: the nodes
      before it have their embedding, the others keep theirs. */
  method EmbedNodes(batch: seq<TextNode>, embed: (string, Metadata) -> Result<Embedding>)
    returns (r: Result<()>)
    requires forall j, k :: 0 <= j < k < |batch| ==> batch[j] != batch[k]
    modifies set n | n in batch
    ensures forall j :: 0 <= j < |batch| ==>
              batch[j].text == old(batch[j].text) && batch[j].metadata == old(batch[j].metadata)
    ensures r.Ok? <==> forall j :: 0 <= j < |batch| ==> embed(batch[j].text, batch[j].metadata).Ok?
    ensures r.Ok? ==> forall j :: 0 <= j < |batch| ==>
              batch[j].embedding == EmbeddingOf(embed, batch[j].text, batch[j].metadata)
    ensures r.Raised? ==> exists f: nat :: (FailsFirstAt(batch, embed, f, r) &&
              (forall j :: 0 <= j < f ==>
                 batch[j].embedding == EmbeddingOf(embed, batch[j].text, batch[j].metadata)) &&
              (forall j :: f <= j < |batch| ==> batch[j].embedding == old(batch[j].embedding)))
  {
    for i := 0 to |batch|
      invariant forall j :: 0 <= j < |batch| ==>
                  batch[j].text == old(batch[j].text) && batch[j].metadata == old(batch[j].metadata)
      invariant forall j :: 0 <= j < i ==>
                  batch[j].embedding == EmbeddingOf(embed, batch[j].text, batch[j].metadata) &&
                  embed(batch[j].text, batch[j].metadata).Ok?
      invariant forall j :: i <= j < |batch| ==> batch[j].embedding == old(batch[j].embedding)
    {
      var nodeEmbedding := embed(batch[i].text, batch[i].metadata);
      if nodeEmbedding.Raised? {
        r := Raised(nodeEmbedding.error);
        assert FailsFirstAt(batch, embed, i, r);
        return;
      }
      batch[i].embedding := Some(nodeEmbedding.value);
    }
    r := Ok(());
  }

  /** The current values of a list of nodes. */
  function Snapshot(nodes: seq<TextNode>): (r: seq<NodeRecord>)
    reads set n | n in nodes
    ensures |r| == |nodes|
    ensures forall i :: 0 <= i < |r| ==> r[i] == NodeRecord(nodes[i].text, nodes[i].metadata, nodes[i].embedding)
  {
    seq(|nodes|, i reads set n | n in nodes requires 0 <= i < |nodes| =>
      NodeRecord(nodes[i].text, nodes[i].metadata, nodes[i].embedding))
  }

  /** The simple in-memory vector store: the nodes added to it, in order. */
  class SimpleVectorStore {
    var nodes: seq<NodeRecord>

    constructor ()
      ensures nodes == []
    {
      nodes := [];
    }

    /** Adds a batch of nodes; each must already carry its embedding. */
    method Add(batch: seq<TextNode>)
      requires forall i :: 0 <= i < |batch| ==> batch[i].embedding.Some?
      modifies this
      ensures nodes == old(nodes) + Snapshot(batch)
    {
      nodes := nodes + Snapshot(batch);
    }

    /** Loads the pages, chunks them keeping each chunk's page, builds one
        node per chunk with its page's metadata, embeds every node, then
        adds all nodes in one call. The document name is not used. An
        exception from the embedder propagates before anything is added. */
    method StorePdfFile(documents: seq<LoadedDocument>, docName: string, split: string -> seq<string>,
                        embed: (string, Metadata) -> Result<Embedding>) returns (r: Result<()>)
      modifies this
      ensures r.Ok? <==> AllEmbedded(documents, split, embed)
      ensures r.Ok? ==> nodes == old(nodes) + ExpectedNodes(documents, split, embed)
      ensures r.Raised? ==> nodes == old(nodes)
    {
      var textChunks, docIdxs := ChunkDocuments(documents, split);
      var batch := BuildNodes(documents, textChunks, docIdxs);
      r := EmbedNodes(batch, embed);
      var expected := ExpectedNodes(documents, split, embed);
      assert forall j :: 0 <= j < |batch| ==>
               expected[j].text == batch[j].text && expected[j].metadata == batch[j].metadata;
      if r.Raised? {
        ghost var f: nat :| FailsFirstAt(batch, embed, f, r);
        assert expected[f].embedding.None?;
        return;
      }
      assert Snapshot(batch) == expected;
      Add(batch);
    }

    /** Deletion is not offered by this backend. */
    method DeleteFileFromStore(name: string) returns (r: Result<nat>)
      ensures r == Raised(NotImplemented)
    {
      r := Raised(NotImplemented);
    }

    /** Inspection is not offered by this backend. */
    method InspectVectorStore(topN: int) returns (r: Result<seq<NodeRecord>>)
      ensures r == Raised(NotImplemented)
    {
      r := Raised(NotImplemented);
    }

    /** Statistics are not offered by this backend. */
    method GetVectorStoreInfo() returns (r: Result<()>)
      ensures r == Raised(NotImplemented)
    {
      r := Raised(NotImplemented);
    }
  }

  /** Whether a query outcome carries at least one node. */
  predicate Found(outcome: QueryOutcome)
  {
    outcome.QueryResult? && outcome.nodes.Some? && outcome.nodes.value != []
  }

  /** Embeds the question (an exception here propagates), queries the store
      for the `topK` nearest nodes, and normalises a raised query, a `None`
      result and an empty or missing node list to `[]`. */
  function Retrieve(question: string, topK: int, embedQuery: string -> Result<Embedding>,
                    query: (Embedding, int) -> QueryOutcome): (r: Result<seq<NodeRecord>>)
    ensures embedQuery(question).Raised? ==> r == Raised(embedQuery(question).error)
    ensures embedQuery(question).Ok? ==>
              var outcome := query(embedQuery(question).value, topK);
              r.Ok? &&
              (r.value == [] <==> !Found(outcome)) &&
              (Found(outcome) ==> r.value == outcome.nodes.value)
  {
    match embedQuery(question)
    case Raised(e) => Raised(e)
    case Ok(queryEmbedding) =>
      match query(queryEmbedding, topK)
      case QueryRaised => Ok([])
      case NoResult => Ok([])
      case QueryResult(nodes) =>
        if nodes.None? || nodes.value == [] then Ok([]) else Ok(nodes.value)
  }

  /** Two messages: the language instruction (French for an unknown language)
      and the question. The task prompt with the context is built and then
      not used. */
  function BuildQaMessages(question: string, context: string, langue: string): (msgs: seq<Message>)
    ensures |msgs| == 2
    ensures msgs[0] == Message(System, LanguePrompt(LanguageOf(langue)))
    ensures msgs[1] == Message(User, question)
  {
    var l := LanguageOf(langue);
    var taskPrompt := TaskPrompt(l, context);
    [Message(System, LanguePrompt(l)), Message(User, question)]
  }

  /** The messages do not depend on the context. */
  lemma MessagesIgnoreContext(question: string, c1: string, c2: string, langue: string)
    ensures BuildQaMessages(question, c1, langue) == BuildQaMessages(question, c2, langue)
  {
  }

  function Contents(docs: seq<NodeRecord>): (r: seq<string>)
    ensures |r| == |docs|
    ensures forall i :: 0 <= i < |r| ==> r[i] == docs[i].text
  {
    seq(|docs|, i requires 0 <= i < |docs| => docs[i].text)
  }

  /** Retrieves; with nothing retrieved answers with the fixed apology,
      otherwise joins the node contents in retrieval order and invokes the
      chat model. Exceptions from embedding the question or from the model
      propagate. */
  function AnswerQuestion(question: string, langue: string, topK: int,
                          embedQuery: string -> Result<Embedding>, query: (Embedding, int) -> QueryOutcome,
                          invoke: seq<Message> -> Result<string>): (r: Result<string>)
    ensures Retrieve(question, topK, embedQuery, query).Raised? ==>
              r == Raised(Retrieve(question, topK, embedQuery, query).error)
    ensures Retrieve(question, topK, embedQuery, query) == Ok([]) ==> r == Ok(Apology)
  {
    match Retrieve(question, topK, embedQuery, query)
    case Raised(e) => Raised(e)
    case Ok(docs) =>
      if docs == [] then Ok(Apology)
      else
        var docsContent := Join(Contents(docs), "\n\n");
        invoke(BuildQaMessages(question, docsContent, langue))
  }

  /** With nothing retrieved the chat model is not consulted: any two models
      give the same answer. With something retrieved the answer is the
      model's reply to the messages built for the question. */
  lemma ApologyExactlyWhenNothingRetrieved(question: string, langue: string, topK: int,
                                           embedQuery: string -> Result<Embedding>,
                                           query: (Embedding, int) -> QueryOutcome,
                                           invoke1: seq<Message> -> Result<string>,
                                           invoke2: seq<Message> -> Result<string>)
    requires embedQuery(question).Ok?
    ensures var outcome := query(embedQuery(question).value, topK);
            (!Found(outcome) ==>
               AnswerQuestion(question, langue, topK, embedQuery, query, invoke1) == Ok(Apology) ==
               AnswerQuestion(question, langue, topK, embedQuery, query, invoke2)) &&
            (Found(outcome) ==>
               AnswerQuestion(question, langue, topK, embedQuery, query, invoke1)
               == invoke1(BuildQaMessages(question, Join(Contents(outcome.nodes.value), "\n\n"), langue)))
  {
  }

  /** Because the context is dropped, the answer depends on the retrieved
      nodes only through whether there are any. */
  lemma AnswerIgnoresRetrievedTexts(question: string, langue: string, topK: int,
                                    embedQuery: string -> Result<Embedding>,
                                    query1: (Embedding, int) -> QueryOutcome,
                                    query2: (Embedding, int) -> QueryOutcome,
                                    invoke: seq<Message> -> Result<string>)
    requires embedQuery(question).Ok?
    requires Found(query1(embedQuery(question).value, topK)) && Found(query2(embedQuery(question).value, topK))
    ensures AnswerQuestion(question, langue, topK, embedQuery, query1, invoke)
            == AnswerQuestion(question, langue, topK, embedQuery, query2, invoke)
  {
    var docs1 := Retrieve(question, topK, embedQuery, query1).value;
    var docs2 := Retrieve(question, topK, embedQuery, query2).value;
    MessagesIgnoreContext(question, Join(Contents(docs1), "\n\n"), Join(Contents(docs2), "\n\n"), langue);
  }
}
