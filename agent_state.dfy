/**
 * The workflow state shared by the stages (AgentState, SupervisorState and
 * RetrievalAgentState) and the rule by which a stage's partial update is
 * merged into it: `messages` is appended to, every other field is replaced.
 */
module AgentState {
  import opened Wrappers
  import opened Documents

  datatype Role = User | Assistant | System

  datatype Message = Message(role: Role, content: string)

  /**
   * The state. `messages` always exists (possibly empty); the other keys are
   * absent until a stage writes them, hence the Options.
   */
  datatype State = State(
    messages: seq<Message>,
    next: Option<string>,
    retrievalContext: Option<seq<Document>>,
    translatedContext: Option<string>)

  /** A partial update returned by a stage: each key may be left out. */
  datatype Update = Update(
    messages: Option<seq<Message>>,
    next: Option<string>,
    retrievalContext: Option<seq<Document>>,
    translatedContext: Option<string>)

  datatype Field = Messages | Next | RetrievalContext | TranslatedContext

  const NoUpdate: Update := Update(None, None, None, None)

  /** Whether an update carries key `f`. */
  predicate Writes(u: Update, f: Field) {
    match f
    case Messages => u.messages.Some?
    case Next => u.next.Some?
    case RetrievalContext => u.retrievalContext.Some?
    case TranslatedContext => u.translatedContext.Some?
  }

  /** The keys an update carries. */
  function Written(u: Update): (keys: set<Field>)
    ensures forall f :: f in keys <==> Writes(u, f)
  {
    (if u.messages.Some? then {Messages} else {})
    + (if u.next.Some? then {Next} else {})
    + (if u.retrievalContext.Some? then {RetrievalContext} else {})
    + (if u.translatedContext.Some? then {TranslatedContext} else {})
  }

  /** The state a conversation turn starts from: the user's request as the only message. */
  function Initial(request: string): (s: State)
    ensures s.messages == [Message(User, request)]
    ensures s.next.None? && s.retrievalContext.None? && s.translatedContext.None?
  {
    State([Message(User, request)], None, None, None)
  }

  /** The default reducer: a written value replaces the old one, an omitted one keeps it. */
  function Replace<T>(current: Option<T>, written: Option<T>): Option<T> {
    if written.Some? then written else current
  }

  /**
   * Merge a partial update into the state. The messages it carries go after
   * the existing ones (the add_messages reducer); the other keys it carries
   * replace the stored values; keys it omits are left as they were.
   */
  function Merge(s: State, u: Update): (r: State)
    ensures s.messages <= r.messages
    ensures r.messages[|s.messages|..] == u.messages.GetOr([])
  {
    State(
      s.messages + u.messages.GetOr([]),
      Replace(s.next, u.next),
      Replace(s.retrievalContext, u.retrievalContext),
      Replace(s.translatedContext, u.translatedContext))
  }

  /** A replace field equals the update's value when written and keeps its old value when omitted. */
  lemma MergeReplaceFields(s: State, u: Update)
    ensures u.next.Some? ==> Merge(s, u).next == u.next
    ensures u.retrievalContext.Some? ==> Merge(s, u).retrievalContext == u.retrievalContext
    ensures u.translatedContext.Some? ==> Merge(s, u).translatedContext == u.translatedContext
    ensures !Writes(u, Next) ==> Merge(s, u).next == s.next
    ensures !Writes(u, RetrievalContext) ==> Merge(s, u).retrievalContext == s.retrievalContext
    ensures !Writes(u, TranslatedContext) ==> Merge(s, u).translatedContext == s.translatedContext
    ensures !Writes(u, Messages) ==> Merge(s, u).messages == s.messages
  {
  }

  /** Of two successive writes to a replace field, the later one stays. */
  lemma MergeLaterWriteWins(s: State, u1: Update, u2: Update)
    ensures u2.next.Some? ==> Merge(Merge(s, u1), u2).next == u2.next
    ensures u2.retrievalContext.Some? ==> Merge(Merge(s, u1), u2).retrievalContext == u2.retrievalContext
    ensures u2.translatedContext.Some? ==> Merge(Merge(s, u1), u2).translatedContext == u2.translatedContext
  {
  }

  /** Two updates applied one after the other, as one update. */
  function Combine(u1: Update, u2: Update): Update {
    Update(
      if u1.messages.Some? || u2.messages.Some? then Some(u1.messages.GetOr([]) + u2.messages.GetOr([])) else None,
      Replace(u1.next, u2.next),
      Replace(u1.retrievalContext, u2.retrievalContext),
      Replace(u1.translatedContext, u2.translatedContext))
  }

  /** Merging two updates in turn is merging their combination once. */
  lemma MergeCombine(s: State, u1: Update, u2: Update)
    ensures Merge(Merge(s, u1), u2) == Merge(s, Combine(u1, u2))
  {
    var m1, m2 := u1.messages.GetOr([]), u2.messages.GetOr([]);
    assert Combine(u1, u2).messages.GetOr([]) == m1 + m2;
    assert s.messages + m1 + m2 == s.messages + (m1 + m2);
  }

  /** The state after a list of updates has been merged in order. */
  function MergeAll(s: State, us: seq<Update>): State
    decreases |us|
  {
    if us == [] then s else Merge(MergeAll(s, us[..|us| - 1]), us[|us| - 1])
  }

  /** All messages carried by a list of updates, in order. */
  function AllMessages(us: seq<Update>): seq<Message>
    decreases |us|
  {
    if us == [] then [] else AllMessages(us[..|us| - 1]) + us[|us| - 1].messages.GetOr([])
  }

  /**
   * Across any number of merges the message list only grows: the original
   * messages stay an unchanged prefix, followed by every message the updates
   * carried, in order.
   */
  lemma {:induction false} MessagesOnlyGrow(s: State, us: seq<Update>)
    ensures MergeAll(s, us).messages == s.messages + AllMessages(us)
    ensures s.messages <= MergeAll(s, us).messages
    ensures |MergeAll(s, us).messages| >= |s.messages|
    decreases |us|
  {
    if us != [] {
      var init := us[..|us| - 1];
      var last := us[|us| - 1].messages.GetOr([]);
      MessagesOnlyGrow(s, init);
      assert s.messages + AllMessages(init) + last == s.messages + (AllMessages(init) + last);
    }
  }

  /** The index of the most recent update that writes field `f`, if any writes it. */
  function LastWriter(us: seq<Update>, f: Field): (r: Option<nat>)
    ensures r.Some? ==> r.value < |us| && Writes(us[r.value], f)
    ensures r.Some? ==> forall j :: r.value < j < |us| ==> !Writes(us[j], f)
    ensures r.None? <==> forall j :: 0 <= j < |us| ==> !Writes(us[j], f)
    decreases |us|
  {
    if us == [] then None
    else if Writes(us[|us| - 1], f) then Some(|us| - 1)
    else
      assert forall j :: 0 <= j < |us| - 1 ==> us[..|us| - 1][j] == us[j];
      LastWriter(us[..|us| - 1], f)
  }

  /**
   * A replace field holds the value written by the most recent update that
   * wrote it, and keeps its initial value when no update wrote it.
   */
  lemma {:induction false} ReplaceFieldsHoldLatest(s: State, us: seq<Update>)
    ensures MergeAll(s, us).next ==
      match LastWriter(us, Next) case Some(i) => us[i].next case None => s.next
    ensures MergeAll(s, us).retrievalContext ==
      match LastWriter(us, RetrievalContext) case Some(i) => us[i].retrievalContext case None => s.retrievalContext
    ensures MergeAll(s, us).translatedContext ==
      match LastWriter(us, TranslatedContext) case Some(i) => us[i].translatedContext case None => s.translatedContext
    decreases |us|
  {
    if us != [] {
      var n := |us| - 1;
      var init := us[..n];
      ReplaceFieldsHoldLatest(s, init);
      assert MergeAll(s, us) == Merge(MergeAll(s, init), us[n]);
      forall i | 0 <= i < n ensures init[i] == us[i] {
      }
    }
  }
}
