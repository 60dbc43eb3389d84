/**
 * The four stages of the retrieval workflow: supervisor, answer and
 * translate (llm_node.py) and retriever (retriever_node.py). Each reads the
 * state and returns a fresh partial update. The language model and the
 * document retrieval are parameters; the prompt text is opaque, and a
 * Prompt records only the values the prompt is built from.
 */
module Nodes {
  import opened Wrappers
  import opened Documents
  import opened AgentState

  /** The values the `Router` literal admits for `next`. */
  datatype Route = Retrieval | Answer | Translate {
    function Name(): string {
      match this
      case Retrieval => "RETRIEVAL"
      case Answer => "ANSWER"
      case Translate => "TRANSLATE"
    }
  }

  /** The workers the supervisor is told about, in the order it is told. */
  const Members: seq<string> := ["RETRIEVAL", "ANSWER", "TRANSLATE"]

  /** The terminal marker the router's docstring and prompt mention. */
  const Finish: string := "FINISH"

  /**
   * The values of the `Router` literal: a name is one of them exactly when it
   * is a member, and then it names that route.
   */
  function ParseRoute(name: string): (r: Option<Route>)
    ensures r.Some? <==> name in Members
    ensures r.Some? ==> r.value.Name() == name
  {
    if name == "RETRIEVAL" then Some(Retrieval)
    else if name == "ANSWER" then Some(Answer)
    else if name == "TRANSLATE" then Some(Translate)
    else None
  }

  /** Every route is a member name, parses back to itself, and none is FINISH. */
  lemma RouteNames(r: Route)
    ensures r.Name() in Members
    ensures ParseRoute(r.Name()) == Some(r)
    ensures r.Name() != Finish
  {
  }

  /** The Router literal rejects FINISH, and every member name is some route's name. */
  lemma {:induction false} RouterAdmitsExactlyMembers(name: string)
    ensures ParseRoute(Finish).None?
    ensures name in Members ==> exists r: Route :: r.Name() == name
  {
    if name in Members {
      var r := ParseRoute(name).value;
      assert r.Name() == name;
    }
  }

  /** The variable parts of each prompt the stages build. */
  datatype Prompt =
    | SupervisorPrompt(members: seq<string>, request: string)
    | AnswerPrompt(member: string, context: seq<Document>, request: string)
    | TranslatePrompt(request: string)

  /**
   * The language model: `route` gives the `next` value of the
   * structured-output call used by the supervisor, as the model produced it
   * (a TypedDict schema is not validated); `complete` is the plain call whose
   * reply content the other stages use.
   */
  datatype Llm = Llm(route: Prompt -> string, complete: Prompt -> string)

  /** Why a stage fails: `state["messages"][-1]` on an empty list, or a call with the wrong arguments. */
  datatype NodeError = IndexError | TypeError

  /** The content of the last message (`state["messages"][-1].content`). */
  function LastContent(s: State): (r: Result<string, NodeError>)
    ensures r.Success? <==> |s.messages| > 0
    ensures r.Success? ==> r.value == s.messages[|s.messages| - 1].content
    ensures r.Failure? ==> r.error == IndexError
  {
    if |s.messages| == 0 then Failure(IndexError) else Success(s.messages[|s.messages| - 1].content)
  }

  /**
   * The supervisor: ask the model which worker runs next and write its
   * reply, unchecked, into `next`, and nothing else.
   */
  function Supervisor(s: State, llm: Llm): (r: Result<Update, NodeError>)
    ensures r.Success? <==> |s.messages| > 0
    ensures r.Failure? ==> r.error == IndexError
    ensures r.Success? ==> Written(r.value) == {Next}
    ensures r.Success? ==>
      r.value.next == Some(llm.route(SupervisorPrompt(Members, s.messages[|s.messages| - 1].content)))
  {
    var request :- LastContent(s);
    Success(NoUpdate.(next := Some(llm.route(SupervisorPrompt(Members, request)))))
  }

  /**
   * `next` names a route, and is not FINISH, exactly when the model's reply
   * is one of the `Router` literal's values.
   */
  lemma SupervisorRoutesMember(s: State, llm: Llm)
    requires |s.messages| > 0
    ensures var next := Supervisor(s, llm).value.next.value;
      (ParseRoute(next).Some? <==> llm.route(SupervisorPrompt(Members, s.messages[|s.messages| - 1].content)) in Members)
      && (ParseRoute(next).Some? ==> next != Finish)
  {
  }

  /**
   * A FINISH reply, which the prompt asks for when the work is done, is
   * written into `next` as it is, although it names no route.
   */
  lemma SupervisorPassesFinish(s: State, llm: Llm)
    requires |s.messages| > 0
    requires llm.route(SupervisorPrompt(Members, s.messages[|s.messages| - 1].content)) == Finish
    ensures Supervisor(s, llm) == Success(NoUpdate.(next := Some(Finish)))
    ensures ParseRoute(Supervisor(s, llm).value.next.value).None?
  {
  }

  /**
   * The supervisor as written: the prompt builder is called with the member
   * list and the last message, but takes the member list only, so the call
   * raises TypeError once the last message has been read.
   */
  function SupervisorAsWritten(s: State, llm: Llm): (r: Result<Update, NodeError>)
    ensures r.Failure?
    ensures r.error == TypeError <==> |s.messages| > 0
    ensures |s.messages| == 0 ==> r.error == IndexError
  {
    var _ :- LastContent(s);
    Failure(TypeError)
  }

  /** The retrieval context passed to the answer prompt: the stored one when present and non-empty, else `[]`. */
  function AnswerContext(s: State): (ctx: seq<Document>)
    ensures ctx == s.retrievalContext.GetOr([])
    ensures |ctx| > 0 ==> s.retrievalContext == Some(ctx)
  {
    if s.retrievalContext.Some? && |s.retrievalContext.value| > 0 then s.retrievalContext.value else []
  }

  /** The answer stage: one assistant message holding the model's reply, and nothing else. */
  function AnswerNode(s: State, llm: Llm): (r: Result<Update, NodeError>)
    ensures r.Success? <==> |s.messages| > 0
    ensures r.Failure? ==> r.error == IndexError
    ensures r.Success? ==> Written(r.value) == {Messages}
    ensures r.Success? ==> r.value.messages == Some([Message(Assistant,
      llm.complete(AnswerPrompt("ANSWER", AnswerContext(s), s.messages[|s.messages| - 1].content)))])
  {
    var request :- LastContent(s);
    var reply := llm.complete(AnswerPrompt("ANSWER", AnswerContext(s), request));
    Success(NoUpdate.(messages := Some([Message(Assistant, reply)])))
  }

  /** The translate stage: the model's translation of the last message becomes `translated_context`, and nothing else. */
  function TranslateNode(s: State, llm: Llm): (r: Result<Update, NodeError>)
    ensures r.Success? <==> |s.messages| > 0
    ensures r.Failure? ==> r.error == IndexError
    ensures r.Success? ==> Written(r.value) == {TranslatedContext}
    ensures r.Success? ==>
      r.value.translatedContext == Some(llm.complete(TranslatePrompt(s.messages[|s.messages| - 1].content)))
  {
    var request :- LastContent(s);
    Success(NoUpdate.(translatedContext := Some(llm.complete(TranslatePrompt(request)))))
  }

  /**
   * The retrieval query: the translated text when present and non-empty,
   * otherwise the last message, which then has to exist.
   */
  function RetrievalQuery(s: State): (r: Result<string, NodeError>)
    ensures s.translatedContext.Some? && s.translatedContext.value != "" ==>
      r == Success(s.translatedContext.value)
    ensures s.translatedContext.None? || s.translatedContext.value == "" ==>
      r == LastContent(s)
    ensures r.Failure? <==> (s.translatedContext.None? || s.translatedContext.value == "") && |s.messages| == 0
  {
    if s.translatedContext.Some? && s.translatedContext.value != "" then Success(s.translatedContext.value)
    else LastContent(s)
  }

  /** The retriever stage: the documents found for the query become `retrieval_context`, and nothing else. */
  function RetrieverNode(s: State, retrieve: string -> seq<Document>): (r: Result<Update, NodeError>)
    ensures r.Success? <==> RetrievalQuery(s).Success?
    ensures r.Failure? ==> r.error == IndexError
    ensures r.Success? ==> Written(r.value) == {RetrievalContext}
    ensures r.Success? ==> r.value.retrievalContext == Some(retrieve(RetrievalQuery(s).value))
  {
    var query :- RetrievalQuery(s);
    Success(NoUpdate.(retrievalContext := Some(retrieve(query))))
  }

  /**
   * The retriever as written: the query is chosen, then the retrieval
   * service is called with a keyword argument `k` it does not accept, which
   * raises TypeError.
   */
  function RetrieverAsWritten(s: State, retrieve: string -> seq<Document>): (r: Result<Update, NodeError>)
    ensures r.Failure?
    ensures r.error == TypeError <==> RetrievalQuery(s).Success?
    ensures RetrievalQuery(s).Failure? ==> r.error == IndexError
  {
    var _ :- RetrievalQuery(s);
    Failure(TypeError)
  }

  /** After merging, the supervisor's update changes `next` only, to the model's reply. */
  lemma SupervisorMerge(s: State, llm: Llm)
    requires |s.messages| > 0
    ensures var t := Merge(s, Supervisor(s, llm).value);
      t.messages == s.messages && t.retrievalContext == s.retrievalContext
      && t.translatedContext == s.translatedContext
      && t.next == Some(llm.route(SupervisorPrompt(Members, s.messages[|s.messages| - 1].content)))
  {
  }

  /** After merging, the answer grows `messages` by exactly one assistant message and leaves the rest alone. */
  lemma AnswerMerge(s: State, llm: Llm)
    requires |s.messages| > 0
    ensures var t := Merge(s, AnswerNode(s, llm).value);
      |t.messages| == |s.messages| + 1 && t.messages[..|s.messages|] == s.messages
      && t.messages[|s.messages|].role == Assistant
      && t.next == s.next && t.retrievalContext == s.retrievalContext
      && t.translatedContext == s.translatedContext
  {
  }

  /** After merging, the translation replaces `translated_context` only. */
  lemma TranslateMerge(s: State, llm: Llm)
    requires |s.messages| > 0
    ensures var t := Merge(s, TranslateNode(s, llm).value);
      t.messages == s.messages && t.next == s.next && t.retrievalContext == s.retrievalContext
      && t.translatedContext == Some(llm.complete(TranslatePrompt(s.messages[|s.messages| - 1].content)))
  {
  }

  /** After merging, the retrieved documents replace any earlier context, and nothing else changes. */
  lemma RetrieverMerge(s: State, retrieve: string -> seq<Document>)
    requires RetrievalQuery(s).Success?
    ensures var t := Merge(s, RetrieverNode(s, retrieve).value);
      t.messages == s.messages && t.next == s.next && t.translatedContext == s.translatedContext
      && t.retrievalContext == Some(retrieve(RetrievalQuery(s).value))
  {
  }

  /**
   * Translate then retrieve: a non-empty translation is what the retriever
   * searches for; an empty one makes it fall back to the last message.
   */
  lemma TranslateThenRetrieve(s: State, llm: Llm, retrieve: string -> seq<Document>)
    requires |s.messages| > 0
    ensures var request := s.messages[|s.messages| - 1].content;
      var translation := llm.complete(TranslatePrompt(request));
      var t := Merge(s, TranslateNode(s, llm).value);
      RetrieverNode(t, retrieve).Success? &&
      RetrieverNode(t, retrieve).value.retrievalContext ==
        Some(retrieve(if translation != "" then translation else request))
  {
    var t := Merge(s, TranslateNode(s, llm).value);
    assert t.messages == s.messages;
  }

  /**
   * Retrieve then answer: the documents the retriever stored are the context
   * of the answer prompt.
   */
  lemma RetrieveThenAnswer(s: State, llm: Llm, retrieve: string -> seq<Document>)
    requires RetrievalQuery(s).Success?
    ensures var t := Merge(s, RetrieverNode(s, retrieve).value);
      AnswerContext(t) == retrieve(RetrievalQuery(s).value)
  {
  }

  /**
   * One turn from the user's request through the retriever and the answer
   * stage: the question is the query, and the state ends with the request
   * followed by the model's answer built on the retrieved documents.
   */
  lemma RetrieveAnswerTurn(request: string, llm: Llm, retrieve: string -> seq<Document>)
    ensures var s0 := Initial(request);
      var s1 := Merge(s0, RetrieverNode(s0, retrieve).value);
      var s2 := Merge(s1, AnswerNode(s1, llm).value);
      s2.messages == [Message(User, request),
                      Message(Assistant, llm.complete(AnswerPrompt("ANSWER", retrieve(request), request)))]
      && s2.retrievalContext == Some(retrieve(request)) && s2.next.None? && s2.translatedContext.None?
  {
    var s0 := Initial(request);
    var s1 := Merge(s0, RetrieverNode(s0, retrieve).value);
    assert s1.messages == s0.messages;
  }

  /**
   * The supervisor as written never routes: on the opening state it raises
   * TypeError, where the intended one writes the model's reply for the
   * request into `next`.
   */
  lemma SupervisorArityFinding(request: string, llm: Llm)
    ensures SupervisorAsWritten(Initial(request), llm) == Failure(TypeError)
    ensures Supervisor(Initial(request), llm) ==
      Success(NoUpdate.(next := Some(llm.route(SupervisorPrompt(Members, request)))))
  {
  }

  /** The retriever as written never retrieves: on the opening state it raises TypeError where the intended one stores documents. */
  lemma RetrieverKeywordFinding(request: string, retrieve: string -> seq<Document>)
    ensures RetrieverAsWritten(Initial(request), retrieve) == Failure(TypeError)
    ensures RetrieverNode(Initial(request), retrieve) ==
      Success(NoUpdate.(retrievalContext := Some(retrieve(request))))
  {
  }
}
