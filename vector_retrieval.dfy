/**
 * The vector retrieval tool: fetch the documents nearest to the rephrased
 * question, serialise them as context, generate the answer and record the
 * turn in the conversation history, citing the documents' ids.
 *
 * The vector store, the answer chain and `JSON.stringify` are passed in as
 * functions.
 */
module VectorRetrieval {
  import opened Outcomes
  import opened JsonValues
  import opened History
  import opened CypherRetrieval

  /** How many documents the retriever is asked for (`asRetriever(5)`). */
  const RetrievedDocuments: nat := 5

  /** A document's metadata: its `_id` and whatever else the store keeps. */
  datatype Metadata = Metadata(id: ElementId, extra: map<string, Value>)

  /** A retrieved document. */
  datatype Document = Document(pageContent: string, metadata: Metadata)

  /** The fields of the tool's input (`AgentToolInput`). */
  datatype AgentToolInput = AgentToolInput(input: string, rephrasedQuestion: string)

  /** `extractDocumentIds`: the `metadata._id` of every document, in order. */
  function ExtractDocumentIds(documents: seq<Document>): (ids: seq<ElementId>)
    ensures |ids| == |documents|
    ensures forall i | 0 <= i < |documents| :: ids[i] == documents[i].metadata.id
  {
    if |documents| == 0 then []
    else ExtractDocumentIds(documents[..|documents| - 1]) + [documents[|documents| - 1].metadata.id]
  }

  /** Extracting ids commutes with concatenating document lists. */
  lemma ExtractAppend(a: seq<Document>, b: seq<Document>)
    ensures ExtractDocumentIds(a + b) == ExtractDocumentIds(a) + ExtractDocumentIds(b)
  {
    var ids := ExtractDocumentIds(a + b);
    assert ids[..|a|] == ExtractDocumentIds(a);
    assert ids[|a|..] == ExtractDocumentIds(b);
  }

  /** A document as a JavaScript value. */
  function DocumentValue(d: Document): Value
  {
    Record(map["pageContent" := Str(d.pageContent), "metadata" := Record(d.metadata.extra["_id" := Str(d.metadata.id)])])
  }

  /** The document list as a JavaScript array. */
  function DocumentsValue(documents: seq<Document>): (v: Value)
    ensures v.Array? && |v.items| == |documents|
    ensures forall i | 0 <= i < |documents| :: v.items[i] == DocumentValue(documents[i])
  {
    Array(seq(|documents|, i requires 0 <= i < |documents| => DocumentValue(documents[i])))
  }

  /** `docsToJson`: the whole list is serialised. */
  function DocsToJson(documents: seq<Document>, stringify: Serializer): string
  {
    stringify(DocumentsValue(documents))
  }

  /**
   * Unlike the Cypher tool's context, a single document is not unwrapped: it
   * is serialised as a one-element array. For any other number of documents
   * the two rules agree.
   */
  lemma NoSingletonUnwrap(documents: seq<Document>, stringify: Serializer)
    ensures DocsToJson(documents, stringify) == stringify(DocumentsValue(documents))
    ensures |documents| == 1 ==> CypherContext(DocumentsValue(documents), stringify) == stringify(DocumentValue(documents[0]))
    ensures |documents| != 1 ==> DocsToJson(documents, stringify) == CypherContext(DocumentsValue(documents), stringify)
  {
  }

  /** The vector store, the answer chain and the serialiser. */
  datatype VectorComponents = VectorComponents(
    retrieve: (string, nat) -> Outcome<seq<Document>>,
    answer: (string, string) -> Outcome<string>,
    stringify: Serializer)

  /** What one pass of the pipeline computes before it saves the turn. */
  datatype VectorTurn = VectorTurn(documents: seq<Document>, ids: seq<ElementId>, context: string, output: string)

  /**
   * The pipeline's steps: retrieve five documents for the rephrased question,
   * extract their ids, serialise them, answer from the rephrased question and
   * the context.
   */
  function VectorSteps(k: VectorComponents, input: AgentToolInput): Outcome<VectorTurn>
  {
    match k.retrieve(input.rephrasedQuestion, RetrievedDocuments)
    case Thrown(m) => Thrown(m)
    case Ok(documents) =>
      var ids := ExtractDocumentIds(documents);
      var context := DocsToJson(documents, k.stringify);
      match k.answer(input.rephrasedQuestion, context)
      case Thrown(m) => Thrown(m)
      case Ok(output) => Ok(VectorTurn(documents, ids, context, output))
  }

  /**
   * The turn is built from what the retriever returned for the rephrased
   * question: the saved ids are the documents' ids, one per document, and the
   * answer is generated from the rephrased question and their serialisation.
   */
  lemma VectorTurnFromDocuments(k: VectorComponents, input: AgentToolInput)
    requires VectorSteps(k, input).Ok?
    ensures var t := VectorSteps(k, input).value;
      && k.retrieve(input.rephrasedQuestion, RetrievedDocuments) == Ok(t.documents)
      && |t.ids| == |t.documents|
      && (forall i | 0 <= i < |t.ids| :: t.ids[i] == t.documents[i].metadata.id)
      && k.answer(input.rephrasedQuestion, k.stringify(DocumentsValue(t.documents))) == Ok(t.output)
  {
  }

  /**
   * `initVectorRetrievalChain`: runs the steps, then waits for the turn to be
   * saved with source "vector" and no Cypher statement, and returns only the
   * answer. `saveFailure` is the error the database raises for the save, if
   * any: because the save is awaited, it rejects the pipeline. A failing step
   * rejects the pipeline too, and nothing is saved.
   */
  method VectorRetrievalChain(store: HistoryStore, k: VectorComponents, sessionId: SessionId, input: AgentToolInput,
                              saveFailure: Option<string>)
    returns (output: Outcome<string>)
    requires store.Valid()
    modifies store
    ensures store.Valid()
    ensures var t := VectorSteps(k, input);
      && (t.Ok? && saveFailure.None? ==>
            && output == Ok(t.value.output)
            && store.graph == Saved(old(store.graph), sessionId, "vector", input.input, input.rephrasedQuestion,
                                    t.value.output, t.value.ids, None)
            && store.chains == SavedChains(old(store.chains), sessionId, old(store.graph.nextUuid)))
      && (t.Ok? && saveFailure.Some? ==>
            output == Thrown(saveFailure.value) && store.graph == old(store.graph) && store.chains == old(store.chains))
      && (t.Thrown? ==> output == Thrown(t.message) && store.graph == old(store.graph) && store.chains == old(store.chains))
  {
    var documents := k.retrieve(input.rephrasedQuestion, RetrievedDocuments);
    if documents.Thrown? {
      return Thrown(documents.message);
    }
    var ids := ExtractDocumentIds(documents.value);
    var context := DocsToJson(documents.value, k.stringify);
    var answer := k.answer(input.rephrasedQuestion, context);
    if answer.Thrown? {
      return Thrown(answer.message);
    }
    var saved := store.SaveHistory(sessionId, "vector", input.input, input.rephrasedQuestion, answer.value, ids, None, saveFailure);
    if saved.Thrown? {
      return Thrown(saved.message);
    }
    output := Ok(answer.value);
  }
}
