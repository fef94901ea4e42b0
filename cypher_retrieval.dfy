/**
 * The Cypher retrieval tool: synthesize a Cypher statement for the rephrased
 * question (a generate-then-validate loop of at most five rounds), run it
 * against the database (a correct-and-retry loop of at most five attempts),
 * turn the rows into a context string, generate the answer and record the
 * turn in the conversation history.
 *
 * The language-model chains and the database are oracles passed in as
 * functions. An oracle that is called several times is indexed by the call's
 * round (or attempt) number, so that different calls may answer differently.
 */
module CypherRetrieval {
  import opened Outcomes
  import opened JsonValues
  import opened IdRewrite
  import opened History

  /** Bound on the validation rounds of recursivelyEvaluate. */
  const MaxTries: nat := 5
  /** Bound on the query attempts of getResults. */
  const MaxRetries: nat := 5
  /** The error list the validation loop starts from, so that it always runs once. */
  const Sentinel: seq<string> := ["N/A"]

  /** What the evaluation chain is asked: a question, the schema, a statement and its known errors. */
  datatype EvalRequest = EvalRequest(question: Option<string>, schema: string, cypher: string, errors: seq<string>)

  /** What the evaluation chain answers: a (possibly corrected) statement and the errors it still finds. */
  datatype Evaluation = Evaluation(cypher: string, errors: seq<string>)

  /** The evaluation chain; its first argument is the round (or attempt) of the call. */
  type Evaluator = (nat, EvalRequest) -> Outcome<Evaluation>

  /** `graph.query`; its first argument is the attempt of the call. */
  type Query = (nat, string) -> Outcome<Value>

  // ---------------------------------------------------------------------
  // recursivelyEvaluate
  // ---------------------------------------------------------------------

  /** The variables of the validation loop: `cypher`, `errors` and `tries`. */
  datatype Round = Round(cypher: string, errors: seq<string>, tries: nat)

  /** The state before the first round, for the generated statement c. */
  function Initial(c: string): Round
  {
    Round(c, Sentinel, 0)
  }

  /** The loop condition `tries < 5 && errors.length > 0`. */
  predicate Continues(r: Round)
  {
    r.tries < MaxTries && |r.errors| > 0
  }

  /** The request a round sends to the evaluation chain. */
  function Request(schema: string, question: string, r: Round): EvalRequest
  {
    EvalRequest(Some(question), schema, r.cypher, r.errors)
  }

  /**
   * One round: `tries` goes up, then the evaluation chain is asked about the
   * current statement; its answer replaces statement and errors, and an
   * exception is swallowed, leaving both as they were.
   */
  function Step(validate: Evaluator, schema: string, question: string, r: Round): (r': Round)
    ensures r'.tries == r.tries + 1
  {
    match validate(r.tries + 1, Request(schema, question, r))
    case Ok(e) => Round(e.cypher, e.errors, r.tries + 1)
    case Thrown(_) => Round(r.cypher, r.errors, r.tries + 1)
  }

  /** The state after n rounds, whatever the loop condition says. */
  function Iterate(validate: Evaluator, schema: string, question: string, r: Round, n: nat): (r': Round)
    ensures r'.tries == r.tries + n
    decreases n
  {
    if n == 0 then r else Iterate(validate, schema, question, Step(validate, schema, question, r), n - 1)
  }

  /** The state in which the loop stops: the condition rejects it, and no round past the fifth has run. */
  function Settle(validate: Evaluator, schema: string, question: string, r: Round): (f: Round)
    ensures !Continues(f)
    ensures r.tries <= f.tries
    ensures r.tries <= MaxTries ==> f.tries <= MaxTries
    ensures f.tries == r.tries <==> !Continues(r)
    decreases MaxTries - r.tries
  {
    if Continues(r) then Settle(validate, schema, question, Step(validate, schema, question, r)) else r
  }

  /**
   * What recursivelyEvaluate resolves to: a failure of the generation chain
   * propagates; otherwise the statement the loop stops with, after the
   * `id(` to `elementId(` rewrite.
   */
  function Synthesize(generate: string -> Outcome<string>, validate: Evaluator, schema: string, question: string): Outcome<string>
  {
    match generate(question)
    case Thrown(m) => Thrown(m)
    case Ok(c) => Ok(RewriteIdCalls(Settle(validate, schema, question, Initial(c)).cypher))
  }

  /** `recursivelyEvaluate(graph, llm, question)`. */
  method RecursivelyEvaluate(generate: string -> Outcome<string>, validate: Evaluator, schema: string, question: string)
    returns (result: Outcome<string>)
    ensures result == Synthesize(generate, validate, schema, question)
  {
    var generated := generate(question);
    if generated.Thrown? {
      return Thrown(generated.message);
    }
    var cypher := generated.value;
    var errors := Sentinel;
    var tries := 0;
    while tries < MaxTries && |errors| > 0
      invariant tries <= MaxTries
      invariant Settle(validate, schema, question, Round(cypher, errors, tries))
             == Settle(validate, schema, question, Initial(generated.value))
      decreases MaxTries - tries
    {
      tries := tries + 1;
      var evaluation := validate(tries, EvalRequest(Some(question), schema, cypher, errors));
      if evaluation.Ok? {
        errors := evaluation.value.errors;
        cypher := evaluation.value.cypher;
      }
    }
    result := Ok(RewriteIdCalls(cypher));
  }

  /**
   * The loop stops in the first state the condition rejects: it is the state
   * after the number of rounds it counts, every earlier state carried errors
   * (or had rounds left), and at most five rounds run in all.
   */
  lemma {:induction false} SettleIsFirstStop(validate: Evaluator, schema: string, question: string, r: Round)
    requires r.tries <= MaxTries
    ensures var f := Settle(validate, schema, question, r);
      && r.tries <= f.tries <= MaxTries
      && !Continues(f)
      && f == Iterate(validate, schema, question, r, f.tries - r.tries)
      && forall j: nat | j < f.tries - r.tries :: Continues(Iterate(validate, schema, question, r, j))
    decreases MaxTries - r.tries
  {
    if Continues(r) {
      var r1 := Step(validate, schema, question, r);
      SettleIsFirstStop(validate, schema, question, r1);
      var f := Settle(validate, schema, question, r);
      forall j: nat | j < f.tries - r.tries
        ensures Continues(Iterate(validate, schema, question, r, j))
      {
        if j > 0 {
          assert Iterate(validate, schema, question, r, j) == Iterate(validate, schema, question, r1, j - 1);
        }
      }
    }
  }

  /** The validation loop runs at least one round and at most five. */
  lemma RoundsBounded(validate: Evaluator, schema: string, question: string, c: string)
    ensures 1 <= Settle(validate, schema, question, Initial(c)).tries <= MaxTries
  {
    var r1 := Step(validate, schema, question, Initial(c));
    SettleIsFirstStop(validate, schema, question, r1);
  }

  /**
   * The loop stops after the first round whose evaluation reports no errors,
   * and returns that round's statement: the last round's evaluation was
   * exactly `{cypher, errors: []}` and no earlier state was error-free.
   */
  lemma StopsAtFirstClean(validate: Evaluator, schema: string, question: string, c: string)
    ensures var init := Initial(c);
      var f := Settle(validate, schema, question, init);
      && 1 <= f.tries
      && (f.tries < MaxTries ==> f.errors == [])
      && (f.errors == [] ==>
            validate(f.tries, Request(schema, question, Iterate(validate, schema, question, init, f.tries - 1)))
              == Ok(Evaluation(f.cypher, [])))
      && forall j: nat | j < f.tries :: |Iterate(validate, schema, question, init, j).errors| > 0
  {
    var init := Initial(c);
    SettleIsFirstStop(validate, schema, question, init);
    RoundsBounded(validate, schema, question, c);
    var f := Settle(validate, schema, question, init);
    var p := Iterate(validate, schema, question, init, f.tries - 1);
    assert Continues(p);
    IterateLast(validate, schema, question, init, f.tries - 1);
  }

  /** The state after n + 1 rounds is one round after the state after n rounds. */
  lemma {:induction false} IterateLast(validate: Evaluator, schema: string, question: string, r: Round, n: nat)
    ensures Iterate(validate, schema, question, r, n + 1)
         == Step(validate, schema, question, Iterate(validate, schema, question, r, n))
    decreases n
  {
    if n > 0 {
      IterateLast(validate, schema, question, Step(validate, schema, question, r), n - 1);
    }
  }

  /** A round whose evaluation throws counts as a try and keeps the statement and the errors. */
  lemma ThrownRoundKeepsState(validate: Evaluator, schema: string, question: string, r: Round)
    requires validate(r.tries + 1, Request(schema, question, r)).Thrown?
    ensures Step(validate, schema, question, r) == Round(r.cypher, r.errors, r.tries + 1)
  {
  }

  /** From a state with errors, an evaluator that always throws leaves the loop running to five tries. */
  lemma {:induction false} ThrowingRunsOut(validate: Evaluator, schema: string, question: string, r: Round)
    requires forall k: nat, req: EvalRequest :: validate(k, req).Thrown?
    requires r.tries <= MaxTries && |r.errors| > 0
    ensures Settle(validate, schema, question, r) == Round(r.cypher, r.errors, MaxTries)
    decreases MaxTries - r.tries
  {
    if r.tries < MaxTries {
      ThrowingRunsOut(validate, schema, question, Step(validate, schema, question, r));
    }
  }

  /** If every evaluation throws, the generated statement is returned (rewritten) after exactly five rounds. */
  lemma AlwaysThrowingEvaluator(generate: string -> Outcome<string>, validate: Evaluator, schema: string, question: string)
    requires forall k: nat, req: EvalRequest :: validate(k, req).Thrown?
    requires generate(question).Ok?
    ensures Settle(validate, schema, question, Initial(generate(question).value)).tries == MaxTries
    ensures Synthesize(generate, validate, schema, question) == Ok(RewriteIdCalls(generate(question).value))
  {
    ThrowingRunsOut(validate, schema, question, Initial(generate(question).value));
  }

  // ---------------------------------------------------------------------
  // getResults
  // ---------------------------------------------------------------------

  /** The statements getResults executed, in order, and what it resolved to. */
  datatype Run = Run(attempts: seq<string>, outcome: Outcome<Value>)

  /** The request getResults sends after attempt k of statement a failed with message m. */
  function Correction(question: Option<string>, schema: string, a: string, m: string): EvalRequest
  {
    EvalRequest(question, schema, a, [m])
  }

  /**
   * getResults from attempt `retries` on, with statement `cypher`: a query
   * that succeeds is returned at once; a failure is sent to the evaluation
   * chain with `[e.message]`, whose exception propagates and whose statement
   * is run next; after five failures the result is `undefined`.
   */
  function ExecRun(query: Query, correct: Evaluator, question: Option<string>, schema: string, cypher: string, retries: nat): (run: Run)
    ensures retries < MaxRetries ==> 1 <= |run.attempts| <= MaxRetries - retries && run.attempts[0] == cypher
    decreases MaxRetries - retries
  {
    if retries >= MaxRetries then Run([], Ok(Undefined))
    else
      match query(retries, cypher)
      case Ok(v) => Run([cypher], Ok(v))
      case Thrown(m) =>
        match correct(retries, Correction(question, schema, cypher, m))
        case Thrown(m') => Run([cypher], Thrown(m'))
        case Ok(e) =>
          var rest := ExecRun(query, correct, question, schema, e.cypher, retries + 1);
          Run([cypher] + rest.attempts, rest.outcome)
  }

  /** Attempt k ran statement a, it failed, and the evaluation chain corrected it to b. */
  predicate CorrectedTo(query: Query, correct: Evaluator, question: Option<string>, schema: string, k: nat, a: string, b: string)
  {
    && query(k, a).Thrown?
    && var fix := correct(k, Correction(question, schema, a, query(k, a).message));
       fix.Ok? && fix.value.cypher == b
  }

  /** Each attempt of a run but the last failed, and its correction is the statement run next. */
  lemma {:induction false} ExecRunCorrections(query: Query, correct: Evaluator, question: Option<string>, schema: string, cypher: string, retries: nat)
    ensures var run := ExecRun(query, correct, question, schema, cypher, retries);
      forall i | 0 <= i < |run.attempts| - 1 ::
        CorrectedTo(query, correct, question, schema, retries + i, run.attempts[i], run.attempts[i + 1])
    decreases MaxRetries - retries
  {
    var run := ExecRun(query, correct, question, schema, cypher, retries);
    if retries < MaxRetries && query(retries, cypher).Thrown? {
      var fix := correct(retries, Correction(question, schema, cypher, query(retries, cypher).message));
      if fix.Ok? {
        var rest := ExecRun(query, correct, question, schema, fix.value.cypher, retries + 1);
        ExecRunCorrections(query, correct, question, schema, fix.value.cypher, retries + 1);
        forall i | 0 <= i < |run.attempts| - 1
          ensures CorrectedTo(query, correct, question, schema, retries + i, run.attempts[i], run.attempts[i + 1])
        {
          if i > 0 {
            assert run.attempts[i] == rest.attempts[i - 1] && run.attempts[i + 1] == rest.attempts[i];
          }
        }
      }
    }
  }

  /**
   * How a run ends: its last attempt either succeeded (its rows are the
   * result), or failed and its correction threw (that exception is the
   * result), or was the fifth failure (the result is `undefined`, and the
   * fifth correction is never run).
   */
  lemma {:induction false} ExecRunLast(query: Query, correct: Evaluator, question: Option<string>, schema: string, cypher: string, retries: nat)
    requires retries < MaxRetries
    ensures var run := ExecRun(query, correct, question, schema, cypher, retries);
      var k := retries + |run.attempts| - 1;
      var a := run.attempts[|run.attempts| - 1];
      && (query(k, a).Ok? ==> run.outcome == query(k, a))
      && (query(k, a).Thrown? ==>
            var fix := correct(k, Correction(question, schema, a, query(k, a).message));
            && (fix.Thrown? ==> run.outcome == Thrown(fix.message))
            && (fix.Ok? ==> k == MaxRetries - 1 && run.outcome == Ok(Undefined)))
    decreases MaxRetries - retries
  {
    var run := ExecRun(query, correct, question, schema, cypher, retries);
    var q := query(retries, cypher);
    if q.Ok? {
      assert run == Run([cypher], q);
    } else {
      var fix := correct(retries, Correction(question, schema, cypher, q.message));
      if fix.Thrown? {
        assert run == Run([cypher], Thrown(fix.message));
      } else if retries + 1 < MaxRetries {
        var rest := ExecRun(query, correct, question, schema, fix.value.cypher, retries + 1);
        ExecRunLast(query, correct, question, schema, fix.value.cypher, retries + 1);
        assert run == Run([cypher] + rest.attempts, rest.outcome);
        assert run.attempts[|run.attempts| - 1] == rest.attempts[|rest.attempts| - 1];
      } else {
        assert run == Run([cypher], Ok(Undefined));
      }
    }
  }

  /** A first attempt that succeeds is returned at once: no correction is asked for. */
  lemma FirstSuccessReturned(query: Query, correct: Evaluator, question: Option<string>, schema: string, cypher: string)
    requires query(0, cypher).Ok?
    ensures ExecRun(query, correct, question, schema, cypher, 0) == Run([cypher], query(0, cypher))
  {
  }

  /** `getResults(graph, llm, {question, cypher})`. */
  method GetResults(query: Query, correct: Evaluator, question: Option<string>, schema: string, cypher0: string)
    returns (results: Outcome<Value>)
    ensures results == ExecRun(query, correct, question, schema, cypher0, 0).outcome
  {
    var found: Value := Undefined;
    var retries: nat := 0;
    var cypher := cypher0;
    while found == Undefined && retries < MaxRetries
      invariant found == Undefined && retries <= MaxRetries
      invariant ExecRun(query, correct, question, schema, cypher, retries).outcome
             == ExecRun(query, correct, question, schema, cypher0, 0).outcome
      decreases MaxRetries - retries
    {
      var attempt := query(retries, cypher);
      if attempt.Ok? {
        return attempt;
      }
      var evaluation := correct(retries, Correction(question, schema, cypher, attempt.message));
      retries := retries + 1;
      if evaluation.Thrown? {
        return Thrown(evaluation.message);
      }
      cypher := evaluation.value.cypher;
    }
    results := Ok(found);
  }

  // ---------------------------------------------------------------------
  // The pipeline
  // ---------------------------------------------------------------------

  /**
   * The context string: a result array holding exactly one row serialises
   * that row alone; anything else serialises whole.
   */
  function CypherContext(results: Value, stringify: Serializer): string
  {
    if results.Array? && |results.items| == 1 then stringify(results.items[0]) else stringify(results)
  }

  /** A single-row result is unwrapped before serialisation. */
  lemma SingleRowUnwrapped(row: Value, stringify: Serializer)
    ensures CypherContext(Array([row]), stringify) == stringify(row)
  {
  }

  /** Every other result (no rows, several rows, not an array) is serialised as it is. */
  lemma OtherResultsWhole(results: Value, stringify: Serializer)
    requires !(results.Array? && |results.items| == 1)
    ensures CypherContext(results, stringify) == stringify(results)
  {
  }

  /** The fields of the tool's input that the pipeline reads. */
  datatype ToolInput = ToolInput(input: string, rephrasedQuestion: string, question: Option<string>)

  /** The chains, the database and the library helpers the pipeline is built from. */
  datatype Components = Components(
    generate: string -> Outcome<string>,
    validate: Evaluator,
    correct: Evaluator,
    query: Query,
    answer: (string, string) -> Outcome<string>,
    extractIds: Value -> seq<ElementId>,
    stringify: Serializer,
    schema: string)

  /** What one pass of the pipeline computes before it saves the turn. */
  datatype Turn = Turn(cypher: string, results: Value, ids: seq<ElementId>, context: string, output: string)

  /** The pipeline's steps: synthesize, execute, extract ids and context, generate the answer. */
  function CypherTurn(k: Components, input: ToolInput): Outcome<Turn>
  {
    match Synthesize(k.generate, k.validate, k.schema, input.rephrasedQuestion)
    case Thrown(m) => Thrown(m)
    case Ok(cypher) =>
      match ExecRun(k.query, k.correct, input.question, k.schema, cypher, 0).outcome
      case Thrown(m) => Thrown(m)
      case Ok(results) =>
        var ids := k.extractIds(results);
        var context := CypherContext(results, k.stringify);
        match k.answer(input.rephrasedQuestion, context)
        case Thrown(m) => Thrown(m)
        case Ok(output) => Ok(Turn(cypher, results, ids, context, output))
  }

  /**
   * The turn recorded in history carries the synthesized statement, which is
   * the first one getResults executed, not any correction made while
   * executing it; the answer is generated from the rephrased question and
   * the context of the rows.
   */
  lemma SavedCypherIsSynthesized(k: Components, input: ToolInput)
    requires CypherTurn(k, input).Ok?
    ensures var t := CypherTurn(k, input).value;
      && Synthesize(k.generate, k.validate, k.schema, input.rephrasedQuestion) == Ok(t.cypher)
      && ExecRun(k.query, k.correct, input.question, k.schema, t.cypher, 0).attempts[0] == t.cypher
      && ExecRun(k.query, k.correct, input.question, k.schema, t.cypher, 0).outcome == Ok(t.results)
      && t.context == CypherContext(t.results, k.stringify)
      && k.answer(input.rephrasedQuestion, t.context) == Ok(t.output)
  {
  }

  /**
   * `initCypherRetrievalChain`: runs the steps, starts saving the turn with
   * source "cypher" and returns only the answer. The save is not awaited:
   * `saveFailure` is the error the database raises for it, if any, and the
   * answer is returned either way; the store then holds the turn or is left
   * as it was. A failing step rejects the whole pipeline and nothing is saved.
   */
  method CypherRetrievalChain(store: HistoryStore, k: Components, sessionId: SessionId, input: ToolInput,
                              saveFailure: Option<string>)
    returns (output: Outcome<string>)
    requires store.Valid()
    modifies store
    ensures store.Valid()
    ensures var t := CypherTurn(k, input);
      && (t.Ok? ==> output == Ok(t.value.output))
      && (t.Ok? && saveFailure.None? ==>
            && store.graph == Saved(old(store.graph), sessionId, "cypher", input.input, input.rephrasedQuestion,
                                    t.value.output, t.value.ids, Some(t.value.cypher))
            && store.chains == SavedChains(old(store.chains), sessionId, old(store.graph.nextUuid)))
      && (t.Ok? && saveFailure.Some? ==> store.graph == old(store.graph) && store.chains == old(store.chains))
      && (t.Thrown? ==> output == Thrown(t.message) && store.graph == old(store.graph) && store.chains == old(store.chains))
  {
    var cypher := RecursivelyEvaluate(k.generate, k.validate, k.schema, input.rephrasedQuestion);
    if cypher.Thrown? {
      return Thrown(cypher.message);
    }
    var results := GetResults(k.query, k.correct, input.question, k.schema, cypher.value);
    if results.Thrown? {
      return Thrown(results.message);
    }
    var ids := k.extractIds(results.value);
    var context := CypherContext(results.value, k.stringify);
    var answer := k.answer(input.rephrasedQuestion, context);
    if answer.Thrown? {
      return Thrown(answer.message);
    }
    // The outcome of the save is dropped: it neither delays nor changes the answer.
    var _ := store.SaveHistory(sessionId, "cypher", input.input, input.rephrasedQuestion, answer.value, ids,
                               Some(cypher.value), saveFailure);
    output := Ok(answer.value);
  }
}
