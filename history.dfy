/**
 * Conversation memory: the part of the graph database that `saveHistory`,
 * `getHistory` and `clearHistory` maintain with Cypher.
 *
 * Per session the graph holds an append-only chain of (:Response) nodes:
 *   (:Session)-[:HAS_RESPONSE]->(:Response)   membership
 *   (:Response)-[:NEXT]->(:Response)          chronological chain
 *   (:Session)-[:LAST_RESPONSE]->(:Response)  the tail, moved on every append
 *   (:Response)-[:CONTEXT]->(n)               provenance, n any existing node
 *
 * `Graph` is the content of the database; `Saved`, `Cleared` and
 * `ReadHistory` are what the three queries do to it.  HistoryStore holds the
 * database and updates it in place; its ghost field `chains` (each session's
 * responses, oldest first) is the abstract view that `Wf` ties the edges to.
 */
module History {
  import opened Outcomes

  type SessionId = string
  type ElementId = string
  /** The `id` property of a response (`randomUuid()`), drawn from a supply of fresh values. */
  type TurnId = nat

  /** The properties of a (:Response) node. */
  datatype Response = Response(
    id: TurnId,
    createdAt: nat,
    source: string,
    input: string,
    output: string,
    rephrasedQuestion: string,
    cypher: Option<string>,
    ids: seq<ElementId>)

  /** One row of the history read query: a `ChatbotResponse` plus `createdAt` and `context`. */
  datatype ChatbotResponse = ChatbotResponse(
    id: TurnId,
    input: string,
    rephrasedQuestion: string,
    output: string,
    cypher: Option<string>,
    createdAt: nat,
    context: seq<ElementId>)

  /**
   * The database.  Edges are stored by the node that has at most one of them:
   * `owner[r]` is the session with a HAS_RESPONSE edge to r, `lastResponse[s]`
   * the target of s's LAST_RESPONSE edge, `nextInto[b] == a` the edge
   * (a)-[:NEXT]->(b), and `contextOf[r]` the targets of r's CONTEXT edges.
   * `nodes` are the elementIds of the rest of the graph; `nextUuid` and
   * `clock` stand for `randomUuid()` and `datetime()`.
   */
  datatype Graph = Graph(
    sessions: set<SessionId>,
    responses: map<TurnId, Response>,
    owner: map<TurnId, SessionId>,
    lastResponse: map<SessionId, TurnId>,
    nextInto: map<TurnId, TurnId>,
    contextOf: map<TurnId, seq<ElementId>>,
    nodes: set<ElementId>,
    nextUuid: nat,
    clock: nat)

  /** The default `limit` of getHistory. */
  const DefaultLimit: nat := 5
  /** The path length the read query hard-codes as its exact-length condition. */
  const WindowHops: nat := 5

  function Min(a: int, b: int): int { if a < b then a else b }

  /** The last min(|c|, n) elements of c, in their order. */
  function Recent<T>(c: seq<T>, n: nat): (r: seq<T>)
    ensures |r| == Min(|c|, n)
    ensures forall i | 0 <= i < |r| :: r[i] == c[|c| - |r| + i]
  {
    c[|c| - Min(|c|, n)..]
  }

  function ChainOf(chains: map<SessionId, seq<TurnId>>, s: SessionId): seq<TurnId>
  {
    if s in chains then chains[s] else []
  }

  /**
   * The ids that name an existing node, each of which gets one CONTEXT edge
   * from the new response, in the order of the list: an id listed twice gets
   * two edges, an id naming no node gets none.
   */
  function ContextTargets(ids: seq<ElementId>, nodes: set<ElementId>): (c: seq<ElementId>)
    ensures |c| <= |ids|
    ensures forall x :: x in c <==> x in ids && x in nodes
    ensures forall x {:trigger multiset(c)[x]} :: multiset(c)[x] == if x in nodes then multiset(ids)[x] else 0
  {
    if |ids| == 0 then []
    else
      var last := ids[|ids| - 1];
      assert ids == ids[..|ids| - 1] + [last];
      ContextTargets(ids[..|ids| - 1], nodes) + (if last in nodes then [last] else [])
  }

  /** Concatenation is associative (stated apart, where no other fact is in scope). */
  lemma AppendAssoc<T>(a: seq<T>, b: seq<T>, c: seq<T>)
    ensures (a + b) + c == a + (b + c)
  {
  }

  /** Appending one id appends its target, if it names a node. */
  lemma ContextTargetsSnoc(ids: seq<ElementId>, x: ElementId, nodes: set<ElementId>)
    ensures ContextTargets(ids + [x], nodes) == ContextTargets(ids, nodes) + (if x in nodes then [x] else [])
  {
    assert (ids + [x])[..|ids|] == ids;
  }

  /** One more id of the list adds its target, if it names a node. */
  lemma ContextTargetsStep(ids: seq<ElementId>, k: nat, nodes: set<ElementId>)
    requires k < |ids|
    ensures ContextTargets(ids[..k + 1], nodes) == ContextTargets(ids[..k], nodes) + (if ids[k] in nodes then [ids[k]] else [])
  {
    assert ids[..k + 1][..k] == ids[..k];
  }

  /**
   * The targets keep the order of `ids`: the targets of two lists one after
   * the other are the targets of the first followed by those of the second.
   */
  lemma {:induction false} ContextTargetsAppend(a: seq<ElementId>, b: seq<ElementId>, nodes: set<ElementId>)
    ensures ContextTargets(a + b, nodes) == ContextTargets(a, nodes) + ContextTargets(b, nodes)
    decreases |b|
  {
    if |b| == 0 {
      assert a + b == a;
    } else {
      var init, x := b[..|b| - 1], b[|b| - 1];
      assert b == init + [x];
      assert a + b == (a + init) + [x];
      ContextTargetsAppend(a, init, nodes);
      ContextTargetsSnoc(a + init, x, nodes);
      ContextTargetsSnoc(init, x, nodes);
      var ca, ci, t := ContextTargets(a, nodes), ContextTargets(init, nodes), if x in nodes then [x] else [];
      assert ContextTargets(a + b, nodes) == (ca + ci) + t;
      assert ContextTargets(b, nodes) == ci + t;
      AppendAssoc(ca, ci, t);
    }
  }

  // ---------------------------------------------------------------------
  // Invariant
  // ---------------------------------------------------------------------

  /** Every response has its own id, drawn from the uuid supply, and predates the clock. */
  ghost predicate NodesOk(g: Graph)
  {
    && g.owner.Keys == g.responses.Keys
    && g.contextOf.Keys == g.responses.Keys
    && (forall t | t in g.responses :: g.responses[t].id == t && t < g.nextUuid && g.responses[t].createdAt < g.clock)
  }

  /** A NEXT edge joins two responses of the same session. */
  ghost predicate NextClosed(g: Graph)
  {
    && g.nextInto.Keys <= g.responses.Keys
    && (forall t | t in g.nextInto ::
          g.nextInto[t] in g.responses && t in g.owner && g.nextInto[t] in g.owner && g.owner[g.nextInto[t]] == g.owner[t])
  }

  /** A LAST_RESPONSE edge leads from a session to one of its own responses. */
  ghost predicate LastClosed(g: Graph)
  {
    && g.lastResponse.Keys <= g.sessions
    && (forall s | s in g.lastResponse ::
          g.lastResponse[s] in g.responses && g.lastResponse[s] in g.owner && g.owner[g.lastResponse[s]] == s)
  }

  /** What the read query needs: every edge it follows ends at a response. */
  ghost predicate Readable(g: Graph)
  {
    NodesOk(g) && NextClosed(g) && LastClosed(g)
  }

  /** No response occurs twice in c. */
  ghost predicate Distinct(c: seq<TurnId>)
  {
    forall i, j | 0 <= i < j < |c| :: c[i] != c[j]
  }

  /** Response a was created before response b. */
  ghost predicate CreatedBefore(g: Graph, a: TurnId, b: TurnId)
  {
    a in g.responses && b in g.responses && g.responses[a].createdAt < g.responses[b].createdAt
  }

  /** createdAt increases along c. */
  ghost predicate Ascending(g: Graph, c: seq<TurnId>)
  {
    forall i, j {:trigger CreatedBefore(g, c[i], c[j])} | 0 <= i < j < |c| :: CreatedBefore(g, c[i], c[j])
  }

  /** Every element of c is a response of session s. */
  ghost predicate ChainOwned(g: Graph, s: SessionId, c: seq<TurnId>)
  {
    forall i | 0 <= i < |c| :: c[i] in g.responses && c[i] in g.owner && g.owner[c[i]] == s
  }

  /** Each session's chain lists responses of that session, each once. */
  ghost predicate ChainsOk(g: Graph, chains: map<SessionId, seq<TurnId>>)
  {
    && chains.Keys == g.sessions
    && (forall s {:trigger ChainOwned(g, s, chains[s])} | s in chains :: ChainOwned(g, s, chains[s]))
    && (forall s {:trigger Distinct(chains[s])} | s in chains :: Distinct(chains[s]))
  }

  /** LAST_RESPONSE marks the tail of every non-empty chain, and only of those. */
  ghost predicate TailsOk(g: Graph, chains: map<SessionId, seq<TurnId>>)
  {
    && (forall s | s in chains :: s in g.lastResponse <==> |chains[s]| > 0)
    && (forall s | s in g.lastResponse && s in chains && |chains[s]| > 0 :: g.lastResponse[s] == chains[s][|chains[s]| - 1])
  }

  /** The response at position j of chain c has a NEXT edge from the one before it. */
  ghost predicate LinkedAt(g: Graph, c: seq<TurnId>, j: int)
    requires 0 < j < |c|
  {
    c[j] in g.nextInto && g.nextInto[c[j]] == c[j - 1]
  }

  /** NEXT leads from each response of a chain to the one after it. */
  ghost predicate NextOk(g: Graph, chains: map<SessionId, seq<TurnId>>)
  {
    forall s, j | s in chains && 0 < j < |chains[s]| :: LinkedAt(g, chains[s], j)
  }

  /** The first response of a chain has no incoming NEXT edge. */
  ghost predicate HeadsOk(g: Graph, chains: map<SessionId, seq<TurnId>>)
  {
    forall s | s in chains && |chains[s]| > 0 :: chains[s][0] !in g.nextInto
  }

  ghost predicate Links(g: Graph, chains: map<SessionId, seq<TurnId>>)
  {
    TailsOk(g, chains) && NextOk(g, chains) && HeadsOk(g, chains)
  }

  /** createdAt increases along every chain. */
  ghost predicate Chronological(g: Graph, chains: map<SessionId, seq<TurnId>>)
  {
    forall s {:trigger Ascending(g, chains[s])} | s in chains :: Ascending(g, chains[s])
  }

  /** Response t lies on the chain of the session that owns it. */
  ghost predicate OnOwnChain(g: Graph, chains: map<SessionId, seq<TurnId>>, t: TurnId)
    requires t in g.owner
  {
    g.owner[t] in chains && t in chains[g.owner[t]]
  }

  /** Every response lies on the chain of the session that owns it, so every owner is a session. */
  ghost predicate OwnedOnChain(g: Graph, chains: map<SessionId, seq<TurnId>>)
  {
    forall t {:trigger OnOwnChain(g, chains, t)} | t in g.owner :: OnOwnChain(g, chains, t)
  }

  /** The database holds one well-formed chain per session, described by `chains`. */
  ghost predicate Wf(g: Graph, chains: map<SessionId, seq<TurnId>>)
  {
    Readable(g) && ChainsOk(g, chains) && OwnedOnChain(g, chains) && Links(g, chains) && Chronological(g, chains)
  }

  // ---------------------------------------------------------------------
  // saveHistory
  // ---------------------------------------------------------------------

  /**
   * The database after saveHistory: the session is merged, a new response
   * hangs off it, the old tail (if any) gains a NEXT edge to it, the
   * LAST_RESPONSE edge is moved to it, and it gets CONTEXT edges to the
   * existing nodes among `ids`.
   */
  function Saved(g: Graph, sessionId: SessionId, source: string, input: string, rephrasedQuestion: string,
                 output: string, ids: seq<ElementId>, cypher: Option<string>): Graph
  {
    var id := g.nextUuid;
    g.(sessions := g.sessions + {sessionId},
       responses := g.responses[id := Response(id, g.clock, source, input, output, rephrasedQuestion, cypher, ids)],
       owner := g.owner[id := sessionId],
       lastResponse := g.lastResponse[sessionId := id],
       nextInto := if sessionId in g.lastResponse then g.nextInto[id := g.lastResponse[sessionId]] else g.nextInto,
       contextOf := g.contextOf[id := ContextTargets(ids, g.nodes)],
       nextUuid := id + 1,
       clock := g.clock + 1)
  }

  /** The chains after saveHistory: the new response ends the session's chain. */
  function SavedChains(chains: map<SessionId, seq<TurnId>>, sessionId: SessionId, id: TurnId): map<SessionId, seq<TurnId>>
  {
    chains[sessionId := ChainOf(chains, sessionId) + [id]]
  }

  lemma SavedNodes(g: Graph, sessionId: SessionId, source: string, input: string,
                   rephrasedQuestion: string, output: string, ids: seq<ElementId>, cypher: Option<string>)
    requires NodesOk(g)
    ensures NodesOk(Saved(g, sessionId, source, input, rephrasedQuestion, output, ids, cypher))
  {
    assert g.nextUuid !in g.responses;
  }

  lemma SavedReadable(g: Graph, sessionId: SessionId, source: string, input: string,
                      rephrasedQuestion: string, output: string, ids: seq<ElementId>, cypher: Option<string>)
    requires Readable(g)
    ensures Readable(Saved(g, sessionId, source, input, rephrasedQuestion, output, ids, cypher))
  {
    var g' := Saved(g, sessionId, source, input, rephrasedQuestion, output, ids, cypher);
    SavedNodes(g, sessionId, source, input, rephrasedQuestion, output, ids, cypher);
    assert g.nextUuid !in g.responses;
    assert NextClosed(g') by {
      forall t | t in g'.nextInto
        ensures g'.nextInto[t] in g'.responses && t in g'.owner && g'.nextInto[t] in g'.owner
        ensures g'.owner[g'.nextInto[t]] == g'.owner[t]
      {
        if t != g.nextUuid {
          assert t in g.nextInto && g'.nextInto[t] == g.nextInto[t];
        }
      }
    }
  }

  /** The chain of session s before and after a save that appends id to sessionId's chain. */
  lemma SavedChain(g: Graph, sessionId: SessionId, source: string, input: string, rephrasedQuestion: string,
                   output: string, ids: seq<ElementId>, cypher: Option<string>, s: SessionId, before: seq<TurnId>)
    requires NodesOk(g) && ChainOwned(g, s, before) && Distinct(before) && Ascending(g, before)
    ensures var g' := Saved(g, sessionId, source, input, rephrasedQuestion, output, ids, cypher);
      var after := if s == sessionId then before + [g.nextUuid] else before;
      ChainOwned(g', s, after) && Distinct(after) && Ascending(g', after)
  {
    var g' := Saved(g, sessionId, source, input, rephrasedQuestion, output, ids, cypher);
    var after := if s == sessionId then before + [g.nextUuid] else before;
    assert g.nextUuid !in g.responses;
    forall i | 0 <= i < |after|
      ensures after[i] in g'.responses && after[i] in g'.owner && g'.owner[after[i]] == s
    {
      if i < |before| {
        assert after[i] == before[i];
      }
    }
    forall i, j | 0 <= i < j < |after|
      ensures after[i] != after[j] && CreatedBefore(g', after[i], after[j])
    {
      assert after[i] == before[i] && before[i] in g.responses;
      if j < |before| {
        assert after[j] == before[j];
        assert CreatedBefore(g, before[i], before[j]);
      }
    }
  }

  lemma SavedChainsOk(g: Graph, chains: map<SessionId, seq<TurnId>>, sessionId: SessionId, source: string, input: string,
                      rephrasedQuestion: string, output: string, ids: seq<ElementId>, cypher: Option<string>)
    requires NodesOk(g) && ChainsOk(g, chains) && Chronological(g, chains)
    ensures var g' := Saved(g, sessionId, source, input, rephrasedQuestion, output, ids, cypher);
      var chains' := SavedChains(chains, sessionId, g.nextUuid);
      ChainsOk(g', chains') && Chronological(g', chains')
  {
    var g' := Saved(g, sessionId, source, input, rephrasedQuestion, output, ids, cypher);
    var chains' := SavedChains(chains, sessionId, g.nextUuid);
    forall s | s in chains'
      ensures ChainOwned(g', s, chains'[s]) && Distinct(chains'[s]) && Ascending(g', chains'[s])
    {
      var before := ChainOf(chains, s);
      if s in chains {
        assert ChainOwned(g, s, chains[s]) && Distinct(chains[s]) && Ascending(g, chains[s]);
      }
      SavedChain(g, sessionId, source, input, rephrasedQuestion, output, ids, cypher, s, before);
    }
  }

  lemma SavedTails(g: Graph, chains: map<SessionId, seq<TurnId>>, sessionId: SessionId, source: string, input: string,
                   rephrasedQuestion: string, output: string, ids: seq<ElementId>, cypher: Option<string>)
    requires Readable(g) && ChainsOk(g, chains) && TailsOk(g, chains)
    ensures TailsOk(Saved(g, sessionId, source, input, rephrasedQuestion, output, ids, cypher), SavedChains(chains, sessionId, g.nextUuid))
  {
    var g' := Saved(g, sessionId, source, input, rephrasedQuestion, output, ids, cypher);
    var chains' := SavedChains(chains, sessionId, g.nextUuid);
    forall s | s in chains'
      ensures s in g'.lastResponse <==> |chains'[s]| > 0
      ensures s in g'.lastResponse ==> g'.lastResponse[s] == chains'[s][|chains'[s]| - 1]
    {
      if s != sessionId {
        assert chains'[s] == chains[s];
      }
    }
  }

  /** NEXT still links a chain after a save; the saved session's chain gains the edge from its old tail. */
  lemma SavedChainLinked(g: Graph, sessionId: SessionId, source: string, input: string, rephrasedQuestion: string,
                         output: string, ids: seq<ElementId>, cypher: Option<string>, s: SessionId, c: seq<TurnId>)
    requires NodesOk(g) && ChainOwned(g, s, c)
    requires forall j | 0 < j < |c| :: LinkedAt(g, c, j)
    requires s == sessionId ==> (sessionId in g.lastResponse <==> |c| > 0)
    requires s == sessionId && |c| > 0 ==> g.lastResponse[sessionId] == c[|c| - 1]
    ensures var g' := Saved(g, sessionId, source, input, rephrasedQuestion, output, ids, cypher);
      var after := if s == sessionId then c + [g.nextUuid] else c;
      forall j | 0 < j < |after| :: LinkedAt(g', after, j)
  {
    var g' := Saved(g, sessionId, source, input, rephrasedQuestion, output, ids, cypher);
    var after := if s == sessionId then c + [g.nextUuid] else c;
    assert g.nextUuid !in g.responses;
    forall j | 0 < j < |after|
      ensures LinkedAt(g', after, j)
    {
      if j < |c| {
        assert after[j] == c[j] && after[j - 1] == c[j - 1];
        assert LinkedAt(g, c, j);
        assert c[j] in g.responses;
      }
    }
  }

  lemma SavedNext(g: Graph, chains: map<SessionId, seq<TurnId>>, sessionId: SessionId, source: string, input: string,
                   rephrasedQuestion: string, output: string, ids: seq<ElementId>, cypher: Option<string>)
    requires Readable(g) && ChainsOk(g, chains) && TailsOk(g, chains) && NextOk(g, chains)
    ensures NextOk(Saved(g, sessionId, source, input, rephrasedQuestion, output, ids, cypher), SavedChains(chains, sessionId, g.nextUuid))
  {
    var g' := Saved(g, sessionId, source, input, rephrasedQuestion, output, ids, cypher);
    var chains' := SavedChains(chains, sessionId, g.nextUuid);
    forall s | s in chains'
      ensures forall j | 0 < j < |chains'[s]| :: LinkedAt(g', chains'[s], j)
    {
      var c := ChainOf(chains, s);
      if s in chains {
        assert ChainOwned(g, s, chains[s]);
      }
      SavedChainLinked(g, sessionId, source, input, rephrasedQuestion, output, ids, cypher, s, c);
    }
  }

  lemma SavedHeads(g: Graph, chains: map<SessionId, seq<TurnId>>, sessionId: SessionId, source: string, input: string,
                   rephrasedQuestion: string, output: string, ids: seq<ElementId>, cypher: Option<string>)
    requires Readable(g) && ChainsOk(g, chains) && TailsOk(g, chains) && HeadsOk(g, chains)
    ensures HeadsOk(Saved(g, sessionId, source, input, rephrasedQuestion, output, ids, cypher), SavedChains(chains, sessionId, g.nextUuid))
  {
    var g' := Saved(g, sessionId, source, input, rephrasedQuestion, output, ids, cypher);
    var chains' := SavedChains(chains, sessionId, g.nextUuid);
    var c := ChainOf(chains, sessionId);
    assert g.nextUuid !in g.responses && g.nextUuid !in g.nextInto;
    assert sessionId in g.lastResponse <==> |c| > 0;
    forall s | s in chains' && |chains'[s]| > 0
      ensures chains'[s][0] !in g'.nextInto
    {
      if s != sessionId || |c| > 0 {
        assert chains'[s][0] == chains[s][0];
        assert ChainOwned(g, s, chains[s]) && chains[s][0] in g.responses;
      }
    }
  }

  /** After a save every response, the new one included, lies on its owner's chain. */
  lemma SavedOwnedOnChain(g: Graph, chains: map<SessionId, seq<TurnId>>, sessionId: SessionId, source: string, input: string,
                          rephrasedQuestion: string, output: string, ids: seq<ElementId>, cypher: Option<string>)
    requires OwnedOnChain(g, chains)
    ensures OwnedOnChain(Saved(g, sessionId, source, input, rephrasedQuestion, output, ids, cypher), SavedChains(chains, sessionId, g.nextUuid))
  {
    var g' := Saved(g, sessionId, source, input, rephrasedQuestion, output, ids, cypher);
    var chains' := SavedChains(chains, sessionId, g.nextUuid);
    forall t | t in g'.owner
      ensures OnOwnChain(g', chains', t)
    {
      if t != g.nextUuid {
        var s := g.owner[t];
        assert OnOwnChain(g, chains, t);
        if s == sessionId {
          assert chains'[s] == chains[s] + [g.nextUuid];
        }
      }
    }
  }

  /** saveHistory keeps the database well formed. */
  lemma SavedWf(g: Graph, chains: map<SessionId, seq<TurnId>>, sessionId: SessionId, source: string, input: string,
                rephrasedQuestion: string, output: string, ids: seq<ElementId>, cypher: Option<string>)
    requires Wf(g, chains)
    ensures Wf(Saved(g, sessionId, source, input, rephrasedQuestion, output, ids, cypher), SavedChains(chains, sessionId, g.nextUuid))
  {
    SavedReadable(g, sessionId, source, input, rephrasedQuestion, output, ids, cypher);
    SavedChainsOk(g, chains, sessionId, source, input, rephrasedQuestion, output, ids, cypher);
    SavedOwnedOnChain(g, chains, sessionId, source, input, rephrasedQuestion, output, ids, cypher);
    SavedTails(g, chains, sessionId, source, input, rephrasedQuestion, output, ids, cypher);
    SavedNext(g, chains, sessionId, source, input, rephrasedQuestion, output, ids, cypher);
    SavedHeads(g, chains, sessionId, source, input, rephrasedQuestion, output, ids, cypher);
  }

  /**
   * The edges a save adds, in terms of the session's chain: the session is
   * merged (created once, then reused), exactly one fresh response is added
   * with the given properties and the full `ids` list, the old tail (if any)
   * gains the single NEXT edge into it, and the session's one LAST_RESPONSE
   * edge now targets it.
   */
  lemma SaveEffects(g: Graph, chains: map<SessionId, seq<TurnId>>, sessionId: SessionId, source: string, input: string,
                    rephrasedQuestion: string, output: string, ids: seq<ElementId>, cypher: Option<string>)
    requires Readable(g) && chains.Keys == g.sessions && TailsOk(g, chains)
    ensures var g' := Saved(g, sessionId, source, input, rephrasedQuestion, output, ids, cypher);
      var id := g.nextUuid;
      var c := ChainOf(chains, sessionId);
      && g'.sessions == g.sessions + {sessionId}
      && id !in g.responses && g'.responses.Keys == g.responses.Keys + {id}
      && g'.responses[id] == Response(id, g.clock, source, input, output, rephrasedQuestion, cypher, ids)
      && g'.owner[id] == sessionId
      && g'.lastResponse[sessionId] == id
      && (|c| == 0 ==> id !in g'.nextInto && g'.nextInto == g.nextInto)
      && (|c| > 0 ==> g'.nextInto == g.nextInto[id := c[|c| - 1]])
  {
    assert g.nextUuid !in g.responses;
    var c := ChainOf(chains, sessionId);
    assert sessionId in g.lastResponse <==> |c| > 0;
    if |c| > 0 {
      assert g.lastResponse[sessionId] == c[|c| - 1];
    }
  }

  // ---------------------------------------------------------------------
  // clearHistory
  // ---------------------------------------------------------------------

  /** The responses the session reaches by a HAS_RESPONSE edge. */
  function Owned(g: Graph, sessionId: SessionId): set<TurnId>
  {
    set t | t in g.owner && g.owner[t] == sessionId
  }

  /** The database after the session's responses are detach-deleted: they go, and so does every edge that touches one. */
  function Cleared(g: Graph, sessionId: SessionId): Graph
  {
    var gone := Owned(g, sessionId);
    g.(responses := g.responses - gone,
       owner := g.owner - gone,
       contextOf := g.contextOf - gone,
       nextInto := map t | t in g.nextInto && t !in gone && g.nextInto[t] !in gone :: g.nextInto[t],
       lastResponse := map s | s in g.lastResponse && g.lastResponse[s] !in gone :: g.lastResponse[s])
  }

  function ClearedChains(chains: map<SessionId, seq<TurnId>>, sessionId: SessionId): map<SessionId, seq<TurnId>>
  {
    if sessionId in chains then chains[sessionId := []] else chains
  }

  lemma ClearedReadable(g: Graph, sessionId: SessionId)
    requires Readable(g)
    ensures Readable(Cleared(g, sessionId))
    ensures sessionId !in Cleared(g, sessionId).lastResponse
  {
    var g' := Cleared(g, sessionId);
    var gone := Owned(g, sessionId);
    assert NodesOk(g');
    forall t | t in g'.nextInto
      ensures g'.nextInto[t] in g'.responses && t in g'.owner && g'.nextInto[t] in g'.owner && g'.owner[g'.nextInto[t]] == g'.owner[t]
    {
      assert t in g.nextInto && t !in gone && g.nextInto[t] !in gone;
    }
    assert NextClosed(g');
    forall s | s in g'.lastResponse
      ensures g'.lastResponse[s] in g'.responses && g'.lastResponse[s] in g'.owner && g'.owner[g'.lastResponse[s]] == s
    {
      assert s in g.lastResponse && g.lastResponse[s] !in gone;
    }
    if sessionId in g.lastResponse {
      assert g.lastResponse[sessionId] in gone;
    }
  }

  lemma ClearedChainsOk(g: Graph, chains: map<SessionId, seq<TurnId>>, sessionId: SessionId)
    requires Readable(g) && ChainsOk(g, chains) && Chronological(g, chains)
    ensures ChainsOk(Cleared(g, sessionId), ClearedChains(chains, sessionId))
    ensures Chronological(Cleared(g, sessionId), ClearedChains(chains, sessionId))
  {
    var g' := Cleared(g, sessionId);
    var chains' := ClearedChains(chains, sessionId);
    forall s | s in chains'
      ensures ChainOwned(g', s, chains'[s]) && Distinct(chains'[s]) && Ascending(g', chains'[s])
    {
      if s == sessionId {
        assert chains'[s] == [];
      } else {
        assert chains'[s] == chains[s];
        assert ChainOwned(g, s, chains[s]) && Distinct(chains[s]) && Ascending(g, chains[s]);
        forall i, j | 0 <= i < j < |chains'[s]|
          ensures CreatedBefore(g', chains'[s][i], chains'[s][j])
        {
          assert CreatedBefore(g, chains[s][i], chains[s][j]);
        }
      }
    }
  }

  lemma ClearedTails(g: Graph, chains: map<SessionId, seq<TurnId>>, sessionId: SessionId)
    requires Readable(g) && ChainsOk(g, chains) && TailsOk(g, chains)
    ensures TailsOk(Cleared(g, sessionId), ClearedChains(chains, sessionId))
  {
    var g' := Cleared(g, sessionId);
    var chains' := ClearedChains(chains, sessionId);
    ClearedReadable(g, sessionId);
    forall s | s in chains'
      ensures s in g'.lastResponse <==> |chains'[s]| > 0
      ensures s in g'.lastResponse ==> g'.lastResponse[s] == chains'[s][|chains'[s]| - 1]
    {
      if s != sessionId {
        assert chains'[s] == chains[s];
        if s in g.lastResponse {
          assert g.owner[g.lastResponse[s]] == s;
          assert s in g'.lastResponse;
        }
      }
    }
  }

  lemma ClearedNext(g: Graph, chains: map<SessionId, seq<TurnId>>, sessionId: SessionId)
    requires ChainsOk(g, chains) && NextOk(g, chains)
    ensures NextOk(Cleared(g, sessionId), ClearedChains(chains, sessionId))
  {
    var g' := Cleared(g, sessionId);
    var chains' := ClearedChains(chains, sessionId);
    forall s, j | s in chains' && 0 < j < |chains'[s]|
      ensures LinkedAt(g', chains'[s], j)
    {
      assert s != sessionId && chains'[s] == chains[s];
      assert LinkedAt(g, chains[s], j);
      assert ChainOwned(g, s, chains[s]);
      assert g.owner[chains[s][j]] == s && g.owner[chains[s][j - 1]] == s;
    }
  }

  lemma ClearedHeads(g: Graph, chains: map<SessionId, seq<TurnId>>, sessionId: SessionId)
    requires HeadsOk(g, chains)
    ensures HeadsOk(Cleared(g, sessionId), ClearedChains(chains, sessionId))
  {
    var g' := Cleared(g, sessionId);
    var chains' := ClearedChains(chains, sessionId);
    forall s | s in chains' && |chains'[s]| > 0
      ensures chains'[s][0] !in g'.nextInto
    {
      assert s != sessionId && chains'[s] == chains[s];
    }
  }

  /** After a clear the remaining responses still lie on their owners' chains. */
  lemma ClearedOwnedOnChain(g: Graph, chains: map<SessionId, seq<TurnId>>, sessionId: SessionId)
    requires OwnedOnChain(g, chains)
    ensures OwnedOnChain(Cleared(g, sessionId), ClearedChains(chains, sessionId))
  {
    var g' := Cleared(g, sessionId);
    var chains' := ClearedChains(chains, sessionId);
    forall t | t in g'.owner
      ensures OnOwnChain(g', chains', t)
    {
      assert OnOwnChain(g, chains, t);
      assert g.owner[t] != sessionId && chains'[g.owner[t]] == chains[g.owner[t]];
    }
  }

  /** clearHistory keeps the database well formed, empties the session's chain and removes its tail pointer. */
  lemma ClearedWf(g: Graph, chains: map<SessionId, seq<TurnId>>, sessionId: SessionId)
    requires Wf(g, chains)
    ensures Wf(Cleared(g, sessionId), ClearedChains(chains, sessionId))
    ensures sessionId !in Cleared(g, sessionId).lastResponse
  {
    ClearedReadable(g, sessionId);
    ClearedChainsOk(g, chains, sessionId);
    ClearedOwnedOnChain(g, chains, sessionId);
    ClearedTails(g, chains, sessionId);
    ClearedNext(g, chains, sessionId);
    ClearedHeads(g, chains, sessionId);
  }

  // ---------------------------------------------------------------------
  // getHistory
  // ---------------------------------------------------------------------

  /** The response reached from t by walking k NEXT edges backwards, if there is one. */
  function Back(g: Graph, t: TurnId, k: nat): Option<TurnId>
    decreases k
  {
    if k == 0 then Some(t)
    else if t in g.nextInto then Back(g, g.nextInto[t], k - 1)
    else None
  }

  /** The nodes of the NEXT path of length k that ends at t, from its start to t. */
  function PathTo(g: Graph, t: TurnId, k: nat): seq<TurnId>
    requires Back(g, t, k).Some?
    decreases k
  {
    if k == 0 then [t] else PathTo(g, g.nextInto[t], k - 1) + [t]
  }

  /**
   * The nodes of every backward NEXT path from `last` whose length lies in
   * L..limit and which is either exactly `hops` long or starts at a response
   * with no incoming NEXT edge; shortest path first, each path oldest first.
   */
  function MatchingPaths(g: Graph, last: TurnId, hops: nat, L: nat, limit: nat): seq<TurnId>
    decreases limit + 1 - L
  {
    if L > limit then []
    else
      (match Back(g, last, L)
       case Some(start) => if L == hops || start !in g.nextInto then PathTo(g, last, L) else []
       case None => [])
      + MatchingPaths(g, last, hops, L + 1, limit)
  }

  /** The responses getHistory(sessionId, limit) returns, in order, as the query is written. */
  function WindowIds(g: Graph, sessionId: SessionId, limit: nat): seq<TurnId>
  {
    if sessionId in g.lastResponse then MatchingPaths(g, g.lastResponse[sessionId], WindowHops, 0, limit) else []
  }

  /** The same query with the exact-length condition set to `limit` instead of the hard-coded 5. */
  function IntendedWindowIds(g: Graph, sessionId: SessionId, limit: nat): seq<TurnId>
  {
    if sessionId in g.lastResponse then MatchingPaths(g, g.lastResponse[sessionId], limit, 0, limit) else []
  }

  /**
   * Closed form of the read query on a chain c: the path of `hops` hops back
   * from the tail (if the chain is that long and `hops <= limit`), followed by
   * the whole chain (if it fits within `limit` hops and is not that same path).
   */
  function QueryWindow(c: seq<TurnId>, hops: nat, limit: nat): seq<TurnId>
  {
    if |c| == 0 then []
    else
      var h := |c| - 1;
      (if hops <= limit && hops <= h then c[h - hops..] else [])
      + (if h <= limit && h != hops then c else [])
  }

  /** One row of the read query for response t; `context` lists its CONTEXT targets. */
  function Row(g: Graph, t: TurnId): ChatbotResponse
    requires t in g.responses && t in g.contextOf
  {
    var r := g.responses[t];
    ChatbotResponse(r.id, r.input, r.rephrasedQuestion, r.output, r.cypher, r.createdAt, g.contextOf[t])
  }

  function Rows(g: Graph, ts: seq<TurnId>): (rows: seq<ChatbotResponse>)
    requires forall i | 0 <= i < |ts| :: ts[i] in g.responses && ts[i] in g.contextOf
    ensures |rows| == |ts|
    ensures forall i | 0 <= i < |ts| :: rows[i] == Row(g, ts[i])
  {
    if |ts| == 0 then [] else [Row(g, ts[0])] + Rows(g, ts[1..])
  }

  /** `getHistory(sessionId, limit)`: the rows the read query returns. */
  function ReadHistory(g: Graph, sessionId: SessionId, limit: nat): seq<ChatbotResponse>
    requires Readable(g)
  {
    WindowIdsAreResponses(g, sessionId, limit);
    Rows(g, WindowIds(g, sessionId, limit))
  }

  lemma {:induction false} PathToInResponses(g: Graph, t: TurnId, k: nat)
    requires NextClosed(g) && t in g.responses && t in g.owner && Back(g, t, k).Some?
    ensures forall u | u in PathTo(g, t, k) :: u in g.responses && u in g.owner && g.owner[u] == g.owner[t]
    decreases k
  {
    if k > 0 {
      PathToInResponses(g, g.nextInto[t], k - 1);
    }
  }

  lemma {:induction false} MatchingPathsInResponses(g: Graph, last: TurnId, hops: nat, L: nat, limit: nat)
    requires NextClosed(g) && last in g.responses && last in g.owner
    ensures forall u | u in MatchingPaths(g, last, hops, L, limit) :: u in g.responses && u in g.owner && g.owner[u] == g.owner[last]
    decreases limit + 1 - L
  {
    if L <= limit {
      if Back(g, last, L).Some? {
        PathToInResponses(g, last, L);
      }
      MatchingPathsInResponses(g, last, hops, L + 1, limit);
    }
  }

  lemma WindowIdsAreResponses(g: Graph, sessionId: SessionId, limit: nat)
    requires Readable(g)
    ensures forall u | u in WindowIds(g, sessionId, limit) :: u in g.responses && u in g.contextOf && g.owner[u] == sessionId
    ensures forall u | u in IntendedWindowIds(g, sessionId, limit) :: u in g.responses && u in g.contextOf && g.owner[u] == sessionId
  {
    if sessionId in g.lastResponse {
      MatchingPathsInResponses(g, g.lastResponse[sessionId], WindowHops, 0, limit);
      MatchingPathsInResponses(g, g.lastResponse[sessionId], limit, 0, limit);
    }
  }

  // ---------------------------------------------------------------------
  // The read query on a well-formed chain
  // ---------------------------------------------------------------------

  /** c is linked by NEXT edges from its first response, which has none coming in, to its last. */
  ghost predicate ChainLinked(g: Graph, c: seq<TurnId>)
  {
    && (forall j | 0 < j < |c| :: LinkedAt(g, c, j))
    && (|c| > 0 ==> c[0] !in g.nextInto)
  }

  lemma ChainOfWf(g: Graph, chains: map<SessionId, seq<TurnId>>, s: SessionId)
    requires Links(g, chains) && s in chains
    ensures ChainLinked(g, chains[s])
  {
  }

  /** Every NEXT edge links two neighbouring responses of its session's chain. */
  lemma NextIsChainLink(g: Graph, chains: map<SessionId, seq<TurnId>>, t: TurnId)
    requires Wf(g, chains) && t in g.nextInto
    ensures t in g.owner && g.owner[t] in chains
    ensures var c := chains[g.owner[t]]; exists j | 0 < j < |c| :: c[j] == t && c[j - 1] == g.nextInto[t]
  {
    assert OnOwnChain(g, chains, t);
    var c := chains[g.owner[t]];
    var j :| 0 <= j < |c| && c[j] == t;
    assert j != 0;
    assert LinkedAt(g, c, j);
  }

  /** No response has two outgoing NEXT edges: two edges from the same response are the same edge. */
  lemma AtMostOneNext(g: Graph, chains: map<SessionId, seq<TurnId>>, a: TurnId, b: TurnId)
    requires Wf(g, chains) && a in g.nextInto && b in g.nextInto && g.nextInto[a] == g.nextInto[b]
    ensures a == b
  {
    NextIsChainLink(g, chains, a);
    NextIsChainLink(g, chains, b);
    var s := g.owner[a];
    assert g.owner[b] == g.owner[g.nextInto[b]] == s;
    var c := chains[s];
    var i :| 0 < i < |c| && c[i] == a && c[i - 1] == g.nextInto[a];
    var j :| 0 < j < |c| && c[j] == b && c[j - 1] == g.nextInto[b];
    assert Distinct(c);
    assert i - 1 == j - 1;
  }

  /** Walking k NEXT edges back from position p of a chain reaches position p - k, or falls off the start. */
  lemma {:induction false} BackAlongChain(g: Graph, c: seq<TurnId>, p: nat, k: nat)
    requires ChainLinked(g, c) && p < |c|
    ensures Back(g, c[p], k) == if k <= p then Some(c[p - k]) else None
    decreases k
  {
    if k > 0 && p > 0 {
      assert LinkedAt(g, c, p);
      BackAlongChain(g, c, p - 1, k - 1);
    }
  }

  /** The NEXT path of length k ending at position p is the chain slice from p - k to p. */
  lemma {:induction false} PathAlongChain(g: Graph, c: seq<TurnId>, p: nat, k: nat)
    requires ChainLinked(g, c) && k <= p < |c|
    ensures Back(g, c[p], k).Some?
    ensures PathTo(g, c[p], k) == c[p - k..p + 1]
    decreases k
  {
    BackAlongChain(g, c, p, k);
    if k > 0 {
      assert LinkedAt(g, c, p);
      PathAlongChain(g, c, p - 1, k - 1);
      assert c[p - k..p + 1] == c[p - k..p] + [c[p]];
    }
  }

  /** The path lengths L..limit of the read query, in closed form. */
  lemma {:induction false} MatchingPathsOnChain(g: Graph, c: seq<TurnId>, hops: nat, L: nat, limit: nat)
    requires ChainLinked(g, c) && |c| > 0
    ensures var h := |c| - 1;
      MatchingPaths(g, c[h], hops, L, limit)
        == (if L <= hops <= limit && hops <= h then c[h - hops..] else [])
           + (if L <= h <= limit && h != hops then c else [])
    decreases limit + 1 - L
  {
    var h := |c| - 1;
    if L <= limit {
      MatchingPathsOnChain(g, c, hops, L + 1, limit);
      BackAlongChain(g, c, h, L);
      if L <= h {
        PathAlongChain(g, c, h, L);
        assert c[h - L..h + 1] == c[h - L..];
        if h - L > 0 {
          assert LinkedAt(g, c, h - L);
        }
      }
    }
  }

  /** On a linked chain whose last response is the session's tail, the read query returns `QueryWindow` of the chain. */
  lemma WindowOnLinkedChain(g: Graph, c: seq<TurnId>, s: SessionId, limit: nat)
    requires ChainLinked(g, c) && |c| > 0 && s in g.lastResponse && g.lastResponse[s] == c[|c| - 1]
    ensures WindowIds(g, s, limit) == QueryWindow(c, WindowHops, limit)
    ensures IntendedWindowIds(g, s, limit) == QueryWindow(c, limit, limit)
  {
    MatchingPathsOnChain(g, c, WindowHops, 0, limit);
    MatchingPathsOnChain(g, c, limit, 0, limit);
  }

  /** The read query returns `QueryWindow` of the session's chain, as written and as intended. */
  lemma WindowOnChain(g: Graph, chains: map<SessionId, seq<TurnId>>, s: SessionId, limit: nat)
    requires Wf(g, chains)
    ensures WindowIds(g, s, limit) == QueryWindow(ChainOf(chains, s), WindowHops, limit)
    ensures IntendedWindowIds(g, s, limit) == QueryWindow(ChainOf(chains, s), limit, limit)
  {
    if s in g.lastResponse {
      ChainOfWf(g, chains, s);
      WindowOnLinkedChain(g, chains[s], s, limit);
    }
  }

  /** With the default limit the query returns the most recent min(n, 6) responses, oldest first. */
  lemma DefaultWindowIsRecent(c: seq<TurnId>)
    ensures QueryWindow(c, WindowHops, DefaultLimit) == Recent(c, DefaultLimit + 1)
  {
  }

  /** With the exact length set to `limit` the query returns the most recent min(n, limit + 1) responses, for every limit. */
  lemma IntendedWindowIsRecent(c: seq<TurnId>, limit: nat)
    ensures QueryWindow(c, limit, limit) == Recent(c, limit + 1)
  {
  }

  /** As written, a limit below 5 on a chain longer than limit + 1 matches no path at all. */
  lemma ShortLimitReadsNothing(c: seq<TurnId>, limit: nat)
    requires limit < WindowHops && |c| > limit + 1
    ensures QueryWindow(c, WindowHops, limit) == []
    ensures |Recent(c, limit + 1)| == limit + 1
  {
  }

  /** As written, a limit above 5 on a chain of 7 to limit + 1 responses returns the last 6 and then the whole chain again. */
  lemma LongLimitRepeatsRows(c: seq<TurnId>, limit: nat)
    requires WindowHops < limit && WindowHops + 1 < |c| <= limit + 1
    ensures QueryWindow(c, WindowHops, limit) == c[|c| - 6..] + c
  {
  }

  /** Every response of c is stored, and createdAt increases along c. */
  ghost predicate ChainStored(g: Graph, c: seq<TurnId>)
  {
    && (forall i | 0 <= i < |c| :: c[i] in g.responses && c[i] in g.contextOf)
    && Ascending(g, c)
  }

  lemma ChainOfStored(g: Graph, chains: map<SessionId, seq<TurnId>>, s: SessionId)
    requires Wf(g, chains)
    ensures ChainStored(g, ChainOf(chains, s))
  {
    if s in chains {
      assert ChainOwned(g, s, chains[s]) && Ascending(g, chains[s]);
    }
  }

  /** A suffix of a stored chain is a stored chain. */
  lemma StoredSuffix(g: Graph, c: seq<TurnId>, k: nat)
    requires ChainStored(g, c) && k <= |c|
    ensures ChainStored(g, c[k..])
  {
    var d := c[k..];
    forall i, j | 0 <= i < j < |d|
      ensures CreatedBefore(g, d[i], d[j])
    {
      assert d[i] == c[k + i] && d[j] == c[k + j];
      assert CreatedBefore(g, c[k + i], c[k + j]);
    }
  }

  /** The rows of a stored chain come out oldest first. */
  lemma StoredRowsAscending(g: Graph, c: seq<TurnId>)
    requires ChainStored(g, c)
    ensures var rows := Rows(g, c); forall i, j | 0 <= i < j < |rows| :: rows[i].createdAt < rows[j].createdAt
  {
    var rows := Rows(g, c);
    forall i, j | 0 <= i < j < |rows|
      ensures rows[i].createdAt < rows[j].createdAt
    {
      assert CreatedBefore(g, c[i], c[j]);
    }
  }

  /** The rows of the last n responses of a stored chain: those responses, oldest first. */
  lemma RecentRows(g: Graph, c: seq<TurnId>, n: nat)
    requires ChainStored(g, c)
    ensures var ts := Recent(c, n); var rows := Rows(g, ts);
      && |rows| == Min(|c|, n)
      && (forall i | 0 <= i < |rows| :: c[|c| - |rows| + i] in g.responses && rows[i] == Row(g, c[|c| - |rows| + i]))
      && (forall i, j | 0 <= i < j < |rows| :: rows[i].createdAt < rows[j].createdAt)
  {
    StoredSuffix(g, c, |c| - Min(|c|, n));
    StoredRowsAscending(g, Recent(c, n));
  }

  /**
   * The default-limit read returns the rows of the session's most recent
   * min(n, 6) responses, oldest first (see Recent and RecentRows).
   */
  lemma ReadDefaultWindow(g: Graph, chains: map<SessionId, seq<TurnId>>, s: SessionId)
    requires Wf(g, chains)
    ensures ChainStored(g, ChainOf(chains, s))
    ensures ReadHistory(g, s, DefaultLimit) == Rows(g, Recent(ChainOf(chains, s), DefaultLimit + 1))
  {
    var c := ChainOf(chains, s);
    WindowOnChain(g, chains, s, DefaultLimit);
    DefaultWindowIsRecent(c);
    ChainOfStored(g, chains, s);
  }

  /** Every row the read query returns is a response of the session asked for. */
  lemma ReadOwned(g: Graph, s: SessionId, limit: nat)
    requires Readable(g)
    ensures var rows := ReadHistory(g, s, limit);
      forall i | 0 <= i < |rows| :: rows[i].id in g.owner && g.owner[rows[i].id] == s
  {
    WindowIdsAreResponses(g, s, limit);
  }

  /** The read query returns only responses of the session's own chain, and nothing for a session with an empty chain. */
  lemma ReadOwnChain(g: Graph, chains: map<SessionId, seq<TurnId>>, s: SessionId, limit: nat)
    requires Wf(g, chains)
    ensures var rows := ReadHistory(g, s, limit);
      && (forall i | 0 <= i < |rows| :: rows[i].id in ChainOf(chains, s))
      && (ChainOf(chains, s) == [] ==> rows == [])
  {
    var rows := ReadHistory(g, s, limit);
    ReadOwned(g, s, limit);
    forall i | 0 <= i < |rows|
      ensures rows[i].id in ChainOf(chains, s)
    {
      assert OnOwnChain(g, chains, rows[i].id);
    }
  }

  /** A session without a tail pointer (never saved to, or cleared) reads as empty, whatever the limit. */
  lemma ReadWithoutTail(g: Graph, s: SessionId, limit: nat)
    requires Readable(g) && s !in g.lastResponse
    ensures ReadHistory(g, s, limit) == []
  {
  }

  /** Rows of the same responses are the same in two databases that agree on those responses. */
  lemma RowsAgree(g: Graph, g': Graph, ts: seq<TurnId>)
    requires forall i | 0 <= i < |ts| :: ts[i] in g.responses && ts[i] in g.contextOf
    requires forall i | 0 <= i < |ts| ::
      ts[i] in g'.responses && ts[i] in g'.contextOf && g'.responses[ts[i]] == g.responses[ts[i]] && g'.contextOf[ts[i]] == g.contextOf[ts[i]]
    ensures Rows(g, ts) == Rows(g', ts)
  {
  }

  // ---------------------------------------------------------------------
  // Save and clear, as seen by the read query
  // ---------------------------------------------------------------------

  /** The row of the response a save creates carries the saved turn and the CONTEXT targets among its ids. */
  lemma SavedRow(g: Graph, sessionId: SessionId, source: string, input: string,
                 rephrasedQuestion: string, output: string, ids: seq<ElementId>, cypher: Option<string>)
    ensures var g' := Saved(g, sessionId, source, input, rephrasedQuestion, output, ids, cypher);
      && g.nextUuid in g'.responses && g.nextUuid in g'.contextOf
      && Row(g', g.nextUuid) == ChatbotResponse(g.nextUuid, input, rephrasedQuestion, output, cypher, g.clock, ContextTargets(ids, g.nodes))
  {
  }

  /**
   * After a save, the default read returns the rows of the last min(n + 1, 6)
   * responses of the extended chain, oldest first, and the newest row is the
   * turn just saved.
   */
  lemma SaveThenRead(g: Graph, chains: map<SessionId, seq<TurnId>>, sessionId: SessionId, source: string, input: string,
                     rephrasedQuestion: string, output: string, ids: seq<ElementId>, cypher: Option<string>)
    requires Wf(g, chains)
    ensures var g' := Saved(g, sessionId, source, input, rephrasedQuestion, output, ids, cypher);
      var c' := ChainOf(chains, sessionId) + [g.nextUuid];
      && Readable(g')
      && ChainStored(g', c')
      && ReadHistory(g', sessionId, DefaultLimit) == Rows(g', Recent(c', DefaultLimit + 1))
      && |ReadHistory(g', sessionId, DefaultLimit)| == Min(|c'|, DefaultLimit + 1)
      && ReadHistory(g', sessionId, DefaultLimit)[|ReadHistory(g', sessionId, DefaultLimit)| - 1]
         == ChatbotResponse(g.nextUuid, input, rephrasedQuestion, output, cypher, g.clock, ContextTargets(ids, g.nodes))
  {
    var g' := Saved(g, sessionId, source, input, rephrasedQuestion, output, ids, cypher);
    var chains' := SavedChains(chains, sessionId, g.nextUuid);
    var c' := ChainOf(chains, sessionId) + [g.nextUuid];
    SavedWf(g, chains, sessionId, source, input, rephrasedQuestion, output, ids, cypher);
    ReadDefaultWindow(g', chains', sessionId);
    NewestRow(g', c', DefaultLimit + 1);
    SavedRow(g, sessionId, source, input, rephrasedQuestion, output, ids, cypher);
  }

  /** The last of the rows of a stored chain's recent window is the row of the chain's last response. */
  lemma NewestRow(g: Graph, c: seq<TurnId>, n: nat)
    requires ChainStored(g, c) && |c| > 0 && n > 0
    ensures var rows := Rows(g, Recent(c, n));
      |rows| == Min(|c|, n) && rows[|rows| - 1] == Row(g, c[|c| - 1])
  {
    RecentRows(g, c, n);
  }

  /**
   * Two databases whose read query picks the same responses for a session,
   * and which agree on every response of that session, give the same rows.
   */
  lemma ReadAgrees(g: Graph, g': Graph, s: SessionId, limit: nat)
    requires Readable(g) && Readable(g')
    requires WindowIds(g', s, limit) == WindowIds(g, s, limit)
    requires forall t | t in g.owner && g.owner[t] == s ::
      t in g'.responses && t in g'.contextOf && g'.responses[t] == g.responses[t] && g'.contextOf[t] == g.contextOf[t]
    ensures ReadHistory(g', s, limit) == ReadHistory(g, s, limit)
  {
    WindowIdsAreResponses(g, s, limit);
    RowsAgree(g, g', WindowIds(g, s, limit));
  }

  /** A save leaves every other session's history as it was. */
  lemma SaveKeepsOtherSessions(g: Graph, chains: map<SessionId, seq<TurnId>>, sessionId: SessionId, source: string, input: string,
                               rephrasedQuestion: string, output: string, ids: seq<ElementId>, cypher: Option<string>,
                               other: SessionId, limit: nat)
    requires Wf(g, chains) && other != sessionId
    ensures Readable(Saved(g, sessionId, source, input, rephrasedQuestion, output, ids, cypher))
    ensures ReadHistory(Saved(g, sessionId, source, input, rephrasedQuestion, output, ids, cypher), other, limit)
         == ReadHistory(g, other, limit)
  {
    var g' := Saved(g, sessionId, source, input, rephrasedQuestion, output, ids, cypher);
    var chains' := SavedChains(chains, sessionId, g.nextUuid);
    SavedWf(g, chains, sessionId, source, input, rephrasedQuestion, output, ids, cypher);
    WindowOnChain(g, chains, other, limit);
    WindowOnChain(g', chains', other, limit);
    ReadAgrees(g, g', other, limit);
  }

  /** After clearHistory the session reads as empty. */
  lemma ClearThenRead(g: Graph, sessionId: SessionId, limit: nat)
    requires Readable(g)
    ensures Readable(Cleared(g, sessionId))
    ensures Cleared(g, sessionId).sessions == g.sessions
    ensures forall t | t in g.responses :: t in Cleared(g, sessionId).responses <==> g.owner[t] != sessionId
    ensures ReadHistory(Cleared(g, sessionId), sessionId, limit) == []
  {
    ClearedReadable(g, sessionId);
  }

  /** clearHistory leaves every other session's history as it was. */
  lemma ClearKeepsOtherSessions(g: Graph, chains: map<SessionId, seq<TurnId>>, sessionId: SessionId, other: SessionId, limit: nat)
    requires Wf(g, chains) && other != sessionId
    ensures Readable(Cleared(g, sessionId))
    ensures ReadHistory(Cleared(g, sessionId), other, limit) == ReadHistory(g, other, limit)
  {
    var g' := Cleared(g, sessionId);
    var chains' := ClearedChains(chains, sessionId);
    ClearedWf(g, chains, sessionId);
    WindowOnChain(g, chains, other, limit);
    WindowOnChain(g', chains', other, limit);
    ReadAgrees(g, g', other, limit);
  }

  // ---------------------------------------------------------------------
  // The store
  // ---------------------------------------------------------------------

  /**
   * The CONTEXT step of saveHistory: walks the ids in order and keeps
   * those naming an existing node, the targets of the new CONTEXT edges.
   */
  method ExistingTargets(ids: seq<ElementId>, nodes: set<ElementId>) returns (context: seq<ElementId>)
    ensures context == ContextTargets(ids, nodes)
  {
    context := [];
    var k := 0;
    while k < |ids|
      invariant 0 <= k <= |ids|
      invariant context == ContextTargets(ids[..k], nodes)
    {
      ContextTargetsStep(ids, k, nodes);
      if ids[k] in nodes {
        context := context + [ids[k]];
      }
      k := k + 1;
    }
    assert ids[..k] == ids;
  }

  /**
   * The write query of saveHistory, step by step, on the database content:
   * the steps together produce exactly `Saved`.
   */
  method WriteTurn(g0: Graph, sessionId: SessionId, source: string, input: string, rephrasedQuestion: string,
                   output: string, ids: seq<ElementId>, cypher: Option<string>) returns (g: Graph)
    ensures g == Saved(g0, sessionId, source, input, rephrasedQuestion, output, ids, cypher)
  {
    // Merge the session node: created on the first save, reused afterwards.
    g := g0.(sessions := g0.sessions + {sessionId});
    // Create the response with a fresh id and the current time, and its HAS_RESPONSE edge.
    var id := g.nextUuid;
    var response := Response(id, g.clock, source, input, output, rephrasedQuestion, cypher, ids);
    g := g.(responses := g.responses[id := response], owner := g.owner[id := sessionId],
            nextUuid := id + 1, clock := g.clock + 1);
    // If the session has a tail, drop its tail pointer and link the old tail to the new response.
    if sessionId in g.lastResponse {
      g := g.(nextInto := g.nextInto[id := g.lastResponse[sessionId]]);
    }
    // Point the session's tail pointer at the new response.
    g := g.(lastResponse := g.lastResponse[sessionId := id]);
    // Link the new response to every existing node named in `ids`.
    var context := ExistingTargets(ids, g.nodes);
    g := g.(contextOf := g.contextOf[id := context]);
  }

  class HistoryStore {
    /** The database content. */
    var graph: Graph
    /** Each session's responses in NEXT order, oldest first. */
    ghost var chains: map<SessionId, seq<TurnId>>

    ghost predicate Valid()
      reads this
    {
      Wf(graph, chains)
    }

    /** A database holding the given nodes and no conversation history. */
    constructor (nodes: set<ElementId>)
      ensures Valid()
      ensures graph == Graph({}, map[], map[], map[], map[], map[], nodes, 0, 0) && chains == map[]
    {
      graph := Graph({}, map[], map[], map[], map[], map[], nodes, 0, 0);
      chains := map[];
    }

    /**
     * `saveHistory`: appends one turn to the session's chain and returns the
     * new response's id. `failure` is the error the database raises for this
     * write, if any: the write is a single transaction, so a failed write
     * changes nothing and the call rejects with that error.
     */
    method SaveHistory(sessionId: SessionId, source: string, input: string, rephrasedQuestion: string,
                       output: string, ids: seq<ElementId>, cypher: Option<string>, failure: Option<string>)
      returns (result: Outcome<TurnId>)
      requires Valid()
      modifies this
      ensures Valid()
      ensures failure.Some? ==> result == Thrown(failure.value) && graph == old(graph) && chains == old(chains)
      ensures failure.None? ==>
        && result == Ok(old(graph.nextUuid)) && old(graph.nextUuid) !in old(graph.responses)
        && graph == Saved(old(graph), sessionId, source, input, rephrasedQuestion, output, ids, cypher)
        && chains == SavedChains(old(chains), sessionId, old(graph.nextUuid))
    {
      if failure.Some? {
        return Thrown(failure.value);
      }
      var id := graph.nextUuid;
      assert id !in graph.responses;
      SavedWf(graph, chains, sessionId, source, input, rephrasedQuestion, output, ids, cypher);
      var g := WriteTurn(graph, sessionId, source, input, rephrasedQuestion, output, ids, cypher);
      graph, chains := g, SavedChains(chains, sessionId, id);
      result := Ok(id);
    }

    /**
     * `clearHistory`: detach-deletes every response of the session; the
     * session node stays. `failure` is the error the database raises for this
     * write, if any: a failed write changes nothing and the call rejects.
     */
    method ClearHistory(sessionId: SessionId, failure: Option<string>) returns (result: Outcome<()>)
      requires Valid()
      modifies this
      ensures Valid()
      ensures failure.Some? ==> result == Thrown(failure.value) && graph == old(graph) && chains == old(chains)
      ensures failure.None? ==>
        && result == Ok(())
        && graph == Cleared(old(graph), sessionId)
        && chains == ClearedChains(old(chains), sessionId)
        && forall limit: nat :: GetHistory(sessionId, limit, None) == Ok([])
    {
      if failure.Some? {
        return Thrown(failure.value);
      }
      ClearedWf(graph, chains, sessionId);
      graph := Cleared(graph, sessionId);
      chains := ClearedChains(chains, sessionId);
      result := Ok(());
    }

    /**
     * `getHistory(sessionId, limit)`: `failure` is the error the database
     * raises for the read, if any, and rejects the call. Otherwise only
     * responses of the session's own chain are returned, none for a session
     * with no responses, and with the default limit exactly the rows of its
     * last min(n, 6) responses, oldest first.
     */
    function GetHistory(sessionId: SessionId, limit: nat, failure: Option<string>): (rows: Outcome<seq<ChatbotResponse>>)
      reads this
      requires Valid()
      ensures failure.Some? ==> rows == Thrown(failure.value)
      ensures failure.None? ==> rows.Ok?
      ensures rows.Ok? ==> forall i | 0 <= i < |rows.value| :: rows.value[i].id in ChainOf(chains, sessionId)
      ensures rows.Ok? && ChainOf(chains, sessionId) == [] ==> rows.value == []
      ensures ChainStored(graph, ChainOf(chains, sessionId))
      ensures rows.Ok? && limit == DefaultLimit ==> rows.value == Rows(graph, Recent(ChainOf(chains, sessionId), DefaultLimit + 1))
    {
      ReadDefaultWindow(graph, chains, sessionId);
      ReadOwnChain(graph, chains, sessionId, limit);
      if failure.Some? then Thrown(failure.value) else Ok(ReadHistory(graph, sessionId, limit))
    }
  }
}
