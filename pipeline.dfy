/**
 * `retrieve_and_generate_answer`: turn a question into a context of documents (direct retrieval, with a
 * multi-query fallback), fill the answer prompt, ask the model, remember the turn and list the sources.
 */
module Pipeline {
  import opened Outcome
  import opened Text
  import opened Documents
  import opened Memory

  /** The three slots of the answer prompt. */
  datatype PromptInput = PromptInput(context: string, history: string, question: string)

  /** What the assistant returns: the answer text and the source of every context document. */
  datatype Reply = Reply(answer: string, sources: seq<string>)

  /**
   * The collaborators the core calls but does not define: the vector-store retriever; the query-generating
   * chain up to its text output; the memory's rendering of its turns as history text; and the answering
   * model applied to the prompt formatted from the three slots. The retriever, the query generator and the
   * answering model may raise instead of answering; the history rendering always returns text.
   */
  datatype Oracles = Oracles(
    retrieve: string -> Result<seq<Doc>>,
    generateQueries: string -> Result<string>,
    renderHistory: seq<Turn> -> string,
    answer: PromptInput -> Result<string>)

  /** A logged call to a collaborator that may raise: a retrieval, a query generation or an answer. */
  datatype Call = Retrieve(query: string) | GenerateQueries(question: string) | Answer(input: PromptInput)

  /** The history used before anything has been said. */
  const EmptyHistory: string := "This is the beginning of our conversation. There is no prior history."

  /** The history slot: the rendered history, unless it is blank, in which case the fixed opening sentence. */
  function HistorySlot(rendered: string): (history: string)
    ensures !IsBlank(history)
    ensures !IsBlank(rendered) ==> history == rendered
    ensures IsBlank(rendered) ==> history == EmptyHistory
  {
    assert EmptyHistory[|EmptyHistory| - 1] == '.';
    if IsBlank(rendered) then EmptyHistory else rendered
  }

  /** The retrieval of `queries[i]` raises `e`, and every retrieval before it succeeds. */
  predicate FirstFailure(retrieve: string -> Result<seq<Doc>>, queries: seq<string>, i: int, e: Failure) {
    0 <= i < |queries| && retrieve(queries[i]) == Err(e) && forall j :: 0 <= j < i ==> retrieve(queries[j]).Ok?
  }

  /**
   * `[retriever.get_relevant_documents(q) for q in queries]`: one retrieval per query, in order; the first
   * retrieval that raises ends the whole step with its exception.
   */
  function RetrieveEach(retrieve: string -> Result<seq<Doc>>, queries: seq<string>): Result<seq<seq<Doc>>>
  {
    if queries == [] then Ok([])
    else
      match retrieve(queries[0])
      case Err(e) => Err(e)
      case Ok(docs) =>
        match RetrieveEach(retrieve, queries[1..])
        case Err(e) => Err(e)
        case Ok(rest) => Ok([docs] + rest)
  }

  /**
   * What the comprehension yields: one list per query, in order, when every retrieval succeeds; otherwise the
   * exception of the first retrieval that raised.
   */
  lemma {:induction false} RetrieveEachMeaning(retrieve: string -> Result<seq<Doc>>, queries: seq<string>)
    ensures RetrieveEach(retrieve, queries).Ok? <==> forall i :: 0 <= i < |queries| ==> retrieve(queries[i]).Ok?
    ensures RetrieveEach(retrieve, queries).Ok? ==> |RetrieveEach(retrieve, queries).value| == |queries|
    ensures RetrieveEach(retrieve, queries).Ok? ==>
      forall i :: 0 <= i < |queries| ==> RetrieveEach(retrieve, queries).value[i] == retrieve(queries[i]).value
    ensures RetrieveEach(retrieve, queries).Err? ==>
      exists i :: FirstFailure(retrieve, queries, i, RetrieveEach(retrieve, queries).failure)
  {
    if queries != [] {
      RetrieveEachMeaning(retrieve, queries[1..]);
      match retrieve(queries[0])
      case Err(e) =>
        assert FirstFailure(retrieve, queries, 0, e);
      case Ok(docs) =>
        var rest := RetrieveEach(retrieve, queries[1..]);
        if rest.Err? {
          FirstFailureShift(retrieve, queries, rest.failure);
        } else {
          forall i | 1 <= i < |queries| ensures retrieve(queries[i]).Ok? {
            assert queries[1..][i - 1] == queries[i];
          }
        }
    }
  }

  /** A first failure among the later queries is the first failure of all when the first query succeeds. */
  lemma FirstFailureShift(retrieve: string -> Result<seq<Doc>>, queries: seq<string>, e: Failure)
    requires queries != [] && retrieve(queries[0]).Ok?
    requires exists i :: FirstFailure(retrieve, queries[1..], i, e)
    ensures exists i :: FirstFailure(retrieve, queries, i, e)
  {
    var i :| FirstFailure(retrieve, queries[1..], i, e);
    assert FirstFailure(retrieve, queries, i + 1, e);
  }

  /** The retrievals that step issues: every query up to and including the first one that raises. */
  function FallbackCalls(retrieve: string -> Result<seq<Doc>>, queries: seq<string>): seq<Call> {
    if queries == [] then []
    else if retrieve(queries[0]).Err? then [Retrieve(queries[0])]
    else [Retrieve(queries[0])] + FallbackCalls(retrieve, queries[1..])
  }

  /** The collaborator calls made while choosing the context, in order. */
  function RetrievalLog(o: Oracles, question: string): seq<Call> {
    [Retrieve(question)] +
    match o.retrieve(question)
    case Err(_) => []
    case Ok(direct) =>
      if direct != [] then []
      else
        [GenerateQueries(question)] +
        match o.generateQueries(question)
        case Err(_) => []
        case Ok(raw) => FallbackCalls(o.retrieve, Split(raw, '\n'))
  }

  /**
   * What the context for a question may be. Direct retrieval wins whenever it finds anything, in its own
   * order; otherwise the generated text is split on newlines, every piece is a retrieval query, and the
   * context is a unique union of their results, in no particular order. Any exception is the outcome.
   */
  ghost predicate IsContextFor(o: Oracles, question: string, context: Result<seq<Doc>>) {
    match o.retrieve(question)
    case Err(e) => context == Err(e)
    case Ok(direct) =>
      if direct != [] then context == Ok(direct)
      else
        match o.generateQueries(question)
        case Err(e) => context == Err(e)
        case Ok(raw) =>
          match RetrieveEach(o.retrieve, Split(raw, '\n'))
          case Err(e) => context == Err(e)
          case Ok(lists) => context.Ok? && IsUniqueUnion(context.value, lists)
  }

  /** The whole step's result, given the lists already gathered and the result of the queries still to go. */
  function Resumed(gathered: seq<seq<Doc>>, remaining: Result<seq<seq<Doc>>>): Result<seq<seq<Doc>>> {
    if remaining.Ok? then Ok(gathered + remaining.value) else remaining
  }

  /** One query that succeeds moves its list from the remaining result to the gathered lists. */
  lemma RetrieveAllStep(retrieve: string -> Result<seq<Doc>>, queries: seq<string>, i: nat, gathered: seq<seq<Doc>>)
    requires i < |queries| && retrieve(queries[i]).Ok?
    ensures Resumed(gathered, RetrieveEach(retrieve, queries[i..]))
      == Resumed(gathered + [retrieve(queries[i]).value], RetrieveEach(retrieve, queries[i + 1..]))
    ensures FallbackCalls(retrieve, queries[i..]) == [Retrieve(queries[i])] + FallbackCalls(retrieve, queries[i + 1..])
  {
    assert queries[i..][1..] == queries[i + 1..];
    var later := RetrieveEach(retrieve, queries[i + 1..]);
    if later.Ok? {
      assert (gathered + [retrieve(queries[i]).value]) + later.value == gathered + ([retrieve(queries[i]).value] + later.value);
    }
  }

  /** A query that raises ends the step with its exception, and is the last retrieval made. */
  lemma RetrieveAllStop(retrieve: string -> Result<seq<Doc>>, queries: seq<string>, i: nat, gathered: seq<seq<Doc>>)
    requires i < |queries| && retrieve(queries[i]).Err?
    ensures Resumed(gathered, RetrieveEach(retrieve, queries[i..])) == Err(retrieve(queries[i]).failure)
    ensures FallbackCalls(retrieve, queries[i..]) == [Retrieve(queries[i])]
  {
    assert queries[i..][0] == queries[i];
  }

  /**
   * The comprehension over the generated queries: retrieve each query in turn, logging the call just before it
   * is made, and stop at the first retrieval that raises.
   */
  method RetrieveAll(retrieve: string -> Result<seq<Doc>>, queries: seq<string>)
    returns (perQuery: Result<seq<seq<Doc>>>, ghost calls: seq<Call>)
    ensures perQuery == RetrieveEach(retrieve, queries)
    ensures calls == FallbackCalls(retrieve, queries)
  {
    calls := [];
    var lists: seq<seq<Doc>> := [];
    var i := 0;
    assert queries[i..] == queries;
    ghost var all := RetrieveEach(retrieve, queries);
    if all.Ok? {
      assert lists + all.value == all.value;
    }
    while i < |queries|
      invariant 0 <= i <= |queries|
      invariant calls + FallbackCalls(retrieve, queries[i..]) == FallbackCalls(retrieve, queries)
      invariant Resumed(lists, RetrieveEach(retrieve, queries[i..])) == all
    {
      calls := calls + [Retrieve(queries[i])];
      var docs := retrieve(queries[i]);
      if docs.Err? {
        RetrieveAllStop(retrieve, queries, i, lists);
        perQuery := Err(docs.failure);
        return;
      }
      RetrieveAllStep(retrieve, queries, i, lists);
      ghost var next := Resumed(lists + [docs.value], RetrieveEach(retrieve, queries[i + 1..]));
      assert next == all;
      lists := lists + [docs.value];
      i := i + 1;
    }
    assert lists + [] == lists;
    perQuery := Ok(lists);
  }

  /** Steps 1 to 3 of `retrieve_and_generate_answer`, with the fallback handing the per-query lists to the union. */
  method RetrieveContext(o: Oracles, question: string) returns (context: Result<seq<Doc>>, ghost calls: seq<Call>)
    ensures IsContextFor(o, question, context)
    ensures calls == RetrievalLog(o, question)
  {
    calls := [Retrieve(question)];
    var docsSimple := o.retrieve(question);
    if docsSimple.Err? {
      context := Err(docsSimple.failure);
    } else if docsSimple.value != [] {
      context := docsSimple;
    } else {
      calls := calls + [GenerateQueries(question)];
      var generated := o.generateQueries(question);
      if generated.Err? {
        context := Err(generated.failure);
      } else {
        var queries := Split(generated.value, '\n');
        var perQuery, fallbackCalls := RetrieveAll(o.retrieve, queries);
        calls := calls + fallbackCalls;
        if perQuery.Err? {
          context := Err(perQuery.failure);
        } else {
          var unique := GetUniqueUnion(perQuery.value);
          context := Ok(unique);
        }
      }
    }
  }

  /**
   * `retrieve_and_generate_answer` over the session's memory. The turn is saved only once the model has
   * answered; the sources are read after that, so a document without a source fails the call with the
   * turn already saved.
   */
  method RetrieveAndGenerateAnswer(o: Oracles, memory: WindowMemory, question: string)
    returns (reply: Result<Reply>, ghost context: Result<seq<Doc>>, ghost calls: seq<Call>)
    requires memory.Valid()
    modifies memory
    ensures memory.Valid()
    ensures IsContextFor(o, question, context)
    ensures context.Err? ==> reply == Err(context.failure) && calls == RetrievalLog(o, question) && unchanged(memory)
    ensures context.Ok? ==>
      var input := PromptInput(ContextText(context.value), HistorySlot(o.renderHistory(old(memory.turns))), question);
      calls == RetrievalLog(o, question) + [Answer(input)] &&
      match o.answer(input)
      case Err(e) => reply == Err(e) && unchanged(memory)
      case Ok(text) =>
        memory.saved == old(memory.saved) + [Turn(question, text)] &&
        memory.turns == Window(old(memory.turns) + [Turn(question, text)], memory.k) &&
        reply == match Sources(context.value)
                 case Err(e) => Err(e)
                 case Ok(sources) => Ok(Reply(text, sources))
    ensures reply.Ok? ==> memory.saved == old(memory.saved) + [Turn(question, reply.value.answer)]
  {
    var retrieved;
    retrieved, calls := RetrieveContext(o, question);
    context := retrieved;
    if retrieved.Err? {
      reply := Err(retrieved.failure);
      return;
    }
    var contextText := ContextText(retrieved.value);
    var history := o.renderHistory(memory.turns);
    if IsBlank(history) {
      history := EmptyHistory;
    }
    var finalInput := PromptInput(contextText, history, question);
    calls := calls + [Answer(finalInput)];
    var result := o.answer(finalInput);
    if result.Err? {
      reply := Err(result.failure);
      return;
    }
    var responseText := result.value;
    memory.SaveContext(question, responseText);
    var documentSources := Sources(retrieved.value);
    if documentSources.Err? {
      reply := Err(documentSources.failure);
    } else {
      reply := Ok(Reply(responseText, documentSources.value));
    }
  }

  /** When every query is answered, the fallback issues exactly one retrieval per query, in order. */
  lemma {:induction false} FallbackCallsOnePerQuery(retrieve: string -> Result<seq<Doc>>, queries: seq<string>)
    requires RetrieveEach(retrieve, queries).Ok?
    ensures |FallbackCalls(retrieve, queries)| == |queries|
    ensures forall i :: 0 <= i < |queries| ==> FallbackCalls(retrieve, queries)[i] == Retrieve(queries[i])
  {
    if queries != [] {
      FallbackCallsOnePerQuery(retrieve, queries[1..]);
    }
  }

  /** When a query raises, the fallback stops there: it has retrieved that query and every one before it, in order, and no other. */
  lemma {:induction false} FallbackCallsStopAtFirstFailure(retrieve: string -> Result<seq<Doc>>, queries: seq<string>, i: int, e: Failure)
    requires FirstFailure(retrieve, queries, i, e)
    ensures |FallbackCalls(retrieve, queries)| == i + 1
    ensures forall j :: 0 <= j <= i ==> FallbackCalls(retrieve, queries)[j] == Retrieve(queries[j])
  {
    if i > 0 {
      assert FirstFailure(retrieve, queries[1..], i - 1, e);
      FallbackCallsStopAtFirstFailure(retrieve, queries[1..], i - 1, e);
    }
  }

  /** Direct retrieval that finds anything is the context, in its own order, and the query generator is never called. */
  lemma DirectRetrievalWins(o: Oracles, question: string)
    requires o.retrieve(question).Ok? && o.retrieve(question).value != []
    ensures RetrievalLog(o, question) == [Retrieve(question)]
    ensures GenerateQueries(question) !in RetrievalLog(o, question)
    ensures forall context :: IsContextFor(o, question, context) <==> context == o.retrieve(question)
  {
  }

  /**
   * When direct retrieval finds nothing, every newline-separated piece of the generated text, empty pieces
   * included, is retrieved once and in order: one retrieval more than there are newlines, however many
   * that is.
   */
  lemma FallbackRetrievesEveryPiece(o: Oracles, question: string, raw: string)
    requires o.retrieve(question) == Ok([]) && o.generateQueries(question) == Ok(raw)
    requires RetrieveEach(o.retrieve, Split(raw, '\n')).Ok?
    ensures var pieces, log := Split(raw, '\n'), RetrievalLog(o, question);
      |pieces| == multiset(raw)['\n'] + 1 && |log| == |pieces| + 2 &&
      log[0] == Retrieve(question) && log[1] == GenerateQueries(question) &&
      forall i :: 0 <= i < |pieces| ==> log[i + 2] == Retrieve(pieces[i])
  {
    var pieces := Split(raw, '\n');
    FallbackCallsOnePerQuery(o.retrieve, pieces);
    SplitCount(raw, '\n');
    assert RetrievalLog(o, question) == [Retrieve(question), GenerateQueries(question)] + FallbackCalls(o.retrieve, pieces);
  }

  /**
   * The fallback context holds every document any piece retrieved and nothing else, each once; so it is no
   * longer than all the results together.
   */
  lemma FallbackContextIsUnion(o: Oracles, question: string, raw: string, context: seq<Doc>)
    requires o.retrieve(question) == Ok([]) && o.generateQueries(question) == Ok(raw)
    requires forall i :: 0 <= i < |Split(raw, '\n')| ==> o.retrieve(Split(raw, '\n')[i]).Ok?
    requires IsContextFor(o, question, Ok(context))
    ensures var pieces := Split(raw, '\n');
      RetrieveEach(o.retrieve, pieces).Ok? && NoDuplicates(context) &&
      (forall i, d :: 0 <= i < |pieces| && d in o.retrieve(pieces[i]).value ==> d in context) &&
      (forall d :: d in context ==> exists i :: 0 <= i < |pieces| && d in o.retrieve(pieces[i]).value) &&
      |context| <= |Flatten(RetrieveEach(o.retrieve, pieces).value)|
  {
    var pieces := Split(raw, '\n');
    RetrieveEachMeaning(o.retrieve, pieces);
    var lists := RetrieveEach(o.retrieve, pieces).value;
    UniqueUnionBounds(context, lists);
    forall i, d | 0 <= i < |pieces| && d in o.retrieve(pieces[i]).value ensures d in context {
      assert d in lists[i];
      assert d in Elements(Flatten(lists));
    }
    forall d | d in context ensures exists i :: 0 <= i < |pieces| && d in o.retrieve(pieces[i]).value {
      assert d in Elements(Flatten(lists));
      var i :| 0 <= i < |lists| && d in lists[i];
      assert d in o.retrieve(pieces[i]).value;
    }
  }

  /**
   * With nothing indexed, both retrievals find nothing and the context is empty: the prompt's context slot
   * is empty and no source is cited.
   */
  lemma EmptyIndexGivesEmptyContext(o: Oracles, question: string)
    requires forall q :: o.retrieve(q) == Ok([])
    requires o.generateQueries(question).Ok?
    ensures forall context :: IsContextFor(o, question, context) ==>
      context == Ok([]) && ContextText(context.value) == "" && Sources(context.value) == Ok([])
  {
    var pieces := Split(o.generateQueries(question).value, '\n');
    RetrieveEachMeaning(o.retrieve, pieces);
    var lists := RetrieveEach(o.retrieve, pieces).value;
    forall context | IsContextFor(o, question, context) ensures context == Ok([]) {
      UniqueUnionBounds(context.value, lists);
    }
  }

  /**
   * The fallback as written: the generated queries' results are flattened into one list of documents before
   * `get_unique_union` sees them, and that function's body calls `dumps`, which the module never imports.
   * Iterating a document yields its fields, so as soon as the list holds a document the comprehension reaches
   * `dumps` and raises; only an empty list comes back, as an empty context.
   */
  function FallbackAsWritten(retrievedDocsMulti: seq<Doc>): (r: Result<seq<Doc>>)
    ensures r.Ok? ==> r.value == []
  {
    if retrievedDocsMulti == [] then Ok([]) else Err(NameError("dumps"))
  }

  /** As written, the fallback fails exactly when some generated query retrieves something, which is when the intended union is not empty. */
  lemma FallbackAsWrittenFails(o: Oracles, question: string, raw: string)
    requires o.retrieve(question) == Ok([]) && o.generateQueries(question) == Ok(raw)
    requires RetrieveEach(o.retrieve, Split(raw, '\n')).Ok?
    ensures var lists := RetrieveEach(o.retrieve, Split(raw, '\n')).value;
      (FallbackAsWritten(Flatten(lists)).Err? <==> exists i :: 0 <= i < |lists| && lists[i] != []) &&
      forall context :: IsContextFor(o, question, context) ==>
        context.Ok? && (context.value != [] <==> FallbackAsWritten(Flatten(lists)).Err?)
  {
    var lists := RetrieveEach(o.retrieve, Split(raw, '\n')).value;
    if exists i :: 0 <= i < |lists| && lists[i] != [] {
      var i :| 0 <= i < |lists| && lists[i] != [];
      assert lists[i][0] in Flatten(lists);
    }
    if Flatten(lists) != [] {
      assert Flatten(lists)[0] in Flatten(lists);
    }
    assert Flatten(lists) != [] <==> exists i :: 0 <= i < |lists| && lists[i] != [];
    forall context | IsContextFor(o, question, context)
      ensures context.Ok? && (context.value != [] <==> FallbackAsWritten(Flatten(lists)).Err?)
    {
      UniqueUnionBounds(context.value, lists);
    }
  }

  /** The retriever of the concrete case below: the question finds nothing, any other query finds the swap document. */
  function ExampleRetrieve(query: string): Result<seq<Doc>> {
    if query == "What is a swap?" then Ok([]) else Ok([Doc("A swap.", map[SourceKey := "rates.docx"])])
  }

  /**
   * A concrete case: the question itself retrieves nothing, the generator returns one query, and that query
   * finds a swap document. As written the call raises `NameError`; the intended context is that document.
   */
  lemma FallbackAsWrittenCounterexample()
    ensures var o := Oracles(ExampleRetrieve, _ => Ok("swap"), _ => "", _ => Ok("A swap is ..."));
      FallbackAsWritten(Flatten(RetrieveEach(o.retrieve, Split("swap", '\n')).value))
        == Err(NameError("dumps")) &&
      forall context :: IsContextFor(o, "What is a swap?", context) ==>
        context == Ok([Doc("A swap.", map[SourceKey := "rates.docx"])])
  {
    var swap := Doc("A swap.", map[SourceKey := "rates.docx"]);
    var o := Oracles(ExampleRetrieve, _ => Ok("swap"), _ => "", _ => Ok("A swap is ..."));
    var raw := "swap";
    SplitWhole(raw, '\n');
    assert ExampleRetrieve(raw) == Ok([swap]);
    assert o.retrieve(raw) == Ok([swap]);
    var each := RetrieveEach(o.retrieve, [raw]);
    RetrieveEachMeaning(o.retrieve, [raw]);
    assert each.Ok? && |each.value| == 1 && each.value[0] == [swap];
    assert each.value == [[swap]];
    assert each == Ok([[swap]]);
    assert Flatten([[swap]]) == [swap];
    assert o.retrieve("What is a swap?") == Ok([]);
    assert o.generateQueries("What is a swap?") == Ok(raw);
    forall context | IsContextFor(o, "What is a swap?", context) ensures context == Ok([swap]) {
      assert context.Ok? && IsUniqueUnion(context.value, [[swap]]);
      var c := context.value;
      assert Elements([swap]) == {swap};
      assert Elements(c) == {swap};
      NoDuplicatesCardinality(c);
      assert |c| == 1;
      assert c[0] in Elements(c);
      assert c == [swap];
    }
  }
}
