/** The `ask` pipeline: vault sync gate, intent classification, the casual
    short cut, retrieval with pronoun rewriting, grounding, answer synthesis and
    the context update. Every language-model, classifier and file-system
    result is an input (`Oracles`); everything else is computed here. */
module Pipeline {
  import opened Wrappers
  import opened PyStr
  import opened ContextStore
  import opened Ingest
  import opened Router

  /** The fixed answer for a turn without evidence. */
  const NoInfoAnswer: string := "I don't have that information in my vault yet."
  /** The fixed answer for any exception raised while answering. */
  const ApologyAnswer: string := "My brain just lagged. Say that again?"

  /** The `sync_info` record reported after a sync. */
  datatype SyncInfo = SyncInfo(vaultPath: string, fileCount: nat, emptyFiles: nat,
                               indexedFiles: nat, lastIndexed: int)

  /** What one run of `_internal_sync` does: the scan raises before anything is
      recorded; or the snapshot is recorded and reading the modification time
      then raises; or the snapshot and watermark are recorded and building the
      report then raises; or the snapshot, watermark and report all succeed. */
  datatype SyncOutcome =
    | ScanRaised
    | MtimeRaised(data: VaultData)
    | InfoRaised(data: VaultData, mtime: Option<int>)
    | Synced(data: VaultData, mtime: Option<int>, info: SyncInfo)

  /** The results of the calls the pipeline cannot see into: the newest
      modification time in the vault as `vault_has_changed` reads it (the
      scan of the folder may raise), the sync, the classifier's predicted id,
      and the replies of the rewrite, grounding, chat and answer models. */
  datatype Oracles = Oracles(
    latestMtime: Outcome<Option<int>>,
    sync: SyncOutcome,
    prediction: Outcome<int>,
    rewrite: Outcome<string>,
    grounding: Outcome<string>,
    chat: Outcome<string>,
    synthesis: Outcome<string>)

  datatype Metadata = Metadata(chunksRetrieved: nat, sentencesGrounded: nat, intent: Intent)

  /** The response dictionary: `metadata` and `sync_performed` are optional keys. */
  datatype Response = Response(answer: string, metadata: Option<Metadata>, syncPerformed: Option<SyncInfo>)

  /** Everything `ask` reads and writes: the context store's fields and the
      vault snapshot with its modification-time watermark. */
  datatype State = State(history: seq<Turn>, activeSubject: Option<string>,
                         vault: Option<VaultData>, watermark: Option<int>)

  function Apology(): Response
  {
    Response(ApologyAnswer, None, None)
  }

  function NoInfo(sync: Option<SyncInfo>): Response
  {
    Response(NoInfoAnswer, None, sync)
  }

  // ---------------------------------------------------------------------------
  // The steps of `ask`
  // ---------------------------------------------------------------------------

  /** With a snapshot present, `vault_has_changed` is asked, and reading the
      modification time first may raise. */
  predicate GateRaises(st: State, o: Oracles)
  {
    st.vault.Some? && o.latestMtime.Raised?
  }

  /** A sync runs when there is no snapshot yet or the vault has changed. */
  predicate SyncDue(st: State, o: Oracles)
  {
    st.vault.None? || (o.latestMtime.Returned? && VaultHasChanged(st.watermark, o.latestMtime.value))
  }

  /** `_internal_sync`: the new state and the report, or the exception. */
  function SyncEffect(st: State, outcome: SyncOutcome): (State, Outcome<SyncInfo>)
  {
    match outcome
    case ScanRaised => (st, Raised)
    case MtimeRaised(d) => (st.(vault := Some(d)), Raised)
    case InfoRaised(d, m) => (st.(vault := Some(d), watermark := m), Raised)
    case Synced(d, m, info) => (st.(vault := Some(d), watermark := m), Returned(info))
  }

  /** A sync was due and raised. */
  predicate SyncRaises(st: State, o: Oracles)
  {
    SyncDue(st, o) && SyncEffect(st, o.sync).1.Raised?
  }

  /** Neither the staleness test nor a due sync raised. */
  predicate GatePasses(st: State, o: Oracles)
  {
    !GateRaises(st, o) && !SyncRaises(st, o)
  }

  /** The state once the sync gate has been passed. */
  function AfterSync(st: State, o: Oracles): State
  {
    if SyncDue(st, o) then SyncEffect(st, o.sync).0 else st
  }

  /** The `sync_performed` value the response carries, if the gate passes. */
  function SyncReport(st: State, o: Oracles): Option<SyncInfo>
  {
    if SyncDue(st, o) && o.sync.Synced? then Some(o.sync.info) else None
  }

  /** `clear_session` for a factual question. */
  function Cleared(st: State, intent: Intent): State
  {
    if intent == Factual then st.(history := [], activeSubject := None) else st
  }

  /** The retrieval results in the shape `normalize_chunks` receives. */
  function AsSearchItems(ms: seq<Match>): (r: seq<SearchItem>)
    ensures |r| == |ms|
  {
    seq(|ms|, i requires 0 <= i < |ms| => DictItem(Some(ms[i].chunk)))
  }

  /** `retrieve_for_question`: the rewrite model is consulted for a
      continuation with a previous question, then keyword retrieval runs with
      at most `RetrievalLimit` results. Either may raise; retrieval raises on a
      missing snapshot. */
  function Retrieval(history: seq<Turn>, question: string, intent: Intent,
                     vault: Option<VaultData>, rewrite: Outcome<string>): Outcome<seq<string>>
  {
    var previous := LastQuestion(history);
    var called := RewriteCalled(intent, previous);
    if called && rewrite.Raised? then Raised
    else if vault.None? then Raised
    else
      var query := RetrievalQuery(question, intent, previous, if called then rewrite.value else "");
      Returned(KeptChunks(AsSearchItems(Ranked(query, vault.value, RetrievalLimit))))
  }

  /** `llm_ground_sentences` with the grounding model's reply, which may
      have raised; without chunks the model is not consulted. */
  function Grounding(retrieved: Outcome<seq<string>>, grounding: Outcome<string>): Outcome<seq<string>>
  {
    if retrieved.Raised? then Raised
    else if retrieved.value == [] then Returned([])
    else if grounding.Raised? then Raised
    else Returned(GroundSentences(retrieved.value, grounding.value))
  }

  /** Steps 4 to 7 of `ask`, given the outcomes of retrieval and grounding:
      synthesis, the history update and the response with its metadata. */
  function Answer(st: State, question: string, intent: Intent, sync: Option<SyncInfo>,
                  retrieved: Outcome<seq<string>>, grounded: Outcome<seq<string>>,
                  synthesis: Outcome<string>): (Response, State)
  {
    if retrieved.Raised? then (Apology(), st)
    else if retrieved.value == [] then (NoInfo(sync), st)
    else if grounded.Raised? then (Apology(), st)
    else if grounded.value == [] then (NoInfo(sync), st)
    else if synthesis.Raised? then (Apology(), st)
    else
      var answer := Strip(synthesis.value);
      var next := if answer != NoInfoAnswer && intent == Factual
        then st.(history := AppendTrimmed(st.history, Turn(question, Some(answer))))
        else st;
      (Response(answer, Some(Metadata(|retrieved.value|, |grounded.value|, intent)), sync), next)
  }

  /** The retrieval `ask` performs for a turn of the given intent, in the
      state after the sync gate: after the factual reset, which leaves the
      vault alone. */
  function Retrieved(st: State, question: string, intent: Intent, rewrite: Outcome<string>): Outcome<seq<string>>
  {
    Retrieval(Cleared(st, intent).history, question, intent, st.vault, rewrite)
  }

  /** Everything after the classifier: the continuation guard, the factual
      reset, the casual short cut, and `Answer`, given the outcomes retrieval
      and grounding have on the answering path (the other paths ignore them). */
  function Dispatch(st: State, question: string, intent: Intent, sync: Option<SyncInfo>,
                    retrieved: Outcome<seq<string>>, grounded: Outcome<seq<string>>,
                    chat: Outcome<string>, synthesis: Outcome<string>): (Response, State)
  {
    if intent == Continuation && !Truthy(LastQuestion(st.history)) then (NoInfo(None), st)
    else
      var st2 := Cleared(st, intent);
      if intent == Casual then
        if chat.Raised? then (Apology(), st2)
        else (Response(Strip(chat.value), None, sync), st2)
      else Answer(st2, question, intent, sync, retrieved, grounded, synthesis)
  }

  /** One call of `ask`: the response and the state it leaves behind. */
  function AskStep(st: State, rawQuestion: string, o: Oracles): (Response, State)
  {
    if GateRaises(st, o) then (Apology(), st)
    else if SyncRaises(st, o) then (Apology(), AfterSync(st, o))
    else if o.prediction.Raised? then (Apology(), AfterSync(st, o))
    else
      var st1 := AfterSync(st, o);
      var question := Strip(rawQuestion);
      var intent := IntentOfPrediction(o.prediction.value);
      var retrieved := Retrieved(st1, question, intent, o.rewrite);
      Dispatch(st1, question, intent, SyncReport(st, o), retrieved, Grounding(retrieved, o.grounding),
               o.chat, o.synthesis)
  }

  /** The classified intent, when the classifier returned. */
  predicate Classified(o: Oracles, intent: Intent)
  {
    o.prediction.Returned? && IntentOfPrediction(o.prediction.value) == intent
  }

  // ---------------------------------------------------------------------------
  // Properties of the answering steps
  // ---------------------------------------------------------------------------

  /** Answering changes at most the history: a factual turn that produced
      metadata and an answer other than the fixed one appends that turn, and
      every other turn leaves the state as it was. A response with metadata
      retrieved at least one chunk and grounded at least one sentence. */
  lemma {:induction false} AnswerEffect(st: State, question: string, intent: Intent, sync: Option<SyncInfo>,
                     retrieved: Outcome<seq<string>>, grounded: Outcome<seq<string>>,
                     synthesis: Outcome<string>)
    ensures var (resp, next) := Answer(st, question, intent, sync, retrieved, grounded, synthesis);
      (intent == Factual && resp.metadata.Some? && resp.answer != NoInfoAnswer ==>
         next == st.(history := AppendTrimmed(st.history, Turn(question, Some(resp.answer)))))
      && (!(intent == Factual && resp.metadata.Some? && resp.answer != NoInfoAnswer) ==> next == st)
      && (resp.metadata.Some? ==>
            retrieved.Returned? && resp.metadata.value.chunksRetrieved == |retrieved.value| >= 1
            && grounded.Returned? && resp.metadata.value.sentencesGrounded == |grounded.value| >= 1
            && resp.metadata.value.intent == intent && resp.syncPerformed == sync
            && synthesis.Returned? && resp.answer == Strip(synthesis.value))
      && (resp.metadata.None? ==> resp == Apology() || resp == NoInfo(sync))
      && (retrieved.Returned? && grounded == Returned([]) ==> (resp, next) == (NoInfo(sync), st))
  {
  }

  /** Retrieval never yields more than `RetrievalLimit` chunks. */
  lemma {:induction false} RetrievalBounded(history: seq<Turn>, question: string, intent: Intent,
                         vault: Option<VaultData>, rewrite: Outcome<string>)
    ensures var r := Retrieval(history, question, intent, vault, rewrite);
      r.Returned? ==> |r.value| <= RetrievalLimit
  {
    var previous := LastQuestion(history);
    var called := RewriteCalled(intent, previous);
    if !(called && rewrite.Raised?) && vault.Some? {
      var query := RetrievalQuery(question, intent, previous, if called then rewrite.value else "");
      var ranked := Ranked(query, vault.value, RetrievalLimit);
      assert |AsSearchItems(ranked)| == |ranked| <= RetrievalLimit;
    }
  }

  /** Once the classifier has answered, a continuation or casual turn leaves
      the state exactly as it found it. */
  lemma {:induction false} DispatchKeepsNonFactual(st: State, question: string, intent: Intent, sync: Option<SyncInfo>,
                                retrieved: Outcome<seq<string>>, grounded: Outcome<seq<string>>,
                                chat: Outcome<string>, synthesis: Outcome<string>)
    requires intent != Factual
    ensures Dispatch(st, question, intent, sync, retrieved, grounded, chat, synthesis).1 == st
  {
    AnswerEffect(st, question, intent, sync, retrieved, grounded, synthesis);
  }

  /** A factual turn clears the subject and leaves at most the turn it
      answered in the history: exactly that turn when it produced metadata and
      an answer other than the fixed one, and nothing otherwise. */
  lemma {:induction false} DispatchFactual(st: State, question: string, sync: Option<SyncInfo>,
                        retrieved: Outcome<seq<string>>, grounded: Outcome<seq<string>>,
                        chat: Outcome<string>, synthesis: Outcome<string>)
    ensures var (resp, next) := Dispatch(st, question, Factual, sync, retrieved, grounded, chat, synthesis);
      next.activeSubject == None && next.vault == st.vault && next.watermark == st.watermark
      && (resp.metadata.Some? && resp.answer != NoInfoAnswer ==> next.history == [Turn(question, Some(resp.answer))])
      && (!(resp.metadata.Some? && resp.answer != NoInfoAnswer) ==> next.history == [])
  {
    var st2 := Cleared(st, Factual);
    AnswerEffect(st2, question, Factual, sync, retrieved, grounded, synthesis);
    var (resp, next) := Answer(st2, question, Factual, sync, retrieved, grounded, synthesis);
    if resp.metadata.Some? && resp.answer != NoInfoAnswer {
      assert next.history == AppendTrimmed([], Turn(question, Some(resp.answer)));
    }
  }

  /** Metadata is only reported by a factual or continuation turn that
      retrieved at least one chunk and grounded at least one sentence, with
      the stripped reply of the answer model and the sync report it was given. */
  lemma {:induction false} DispatchMetadata(st: State, question: string, intent: Intent, sync: Option<SyncInfo>,
                         retrieved: Outcome<seq<string>>, grounded: Outcome<seq<string>>,
                         chat: Outcome<string>, synthesis: Outcome<string>)
    ensures var resp := Dispatch(st, question, intent, sync, retrieved, grounded, chat, synthesis).0;
      (resp.metadata.Some? ==>
        retrieved.Returned? && 1 <= resp.metadata.value.chunksRetrieved == |retrieved.value|
        && resp.metadata.value.sentencesGrounded >= 1
        && resp.metadata.value.intent == intent && intent != Casual
        && synthesis.Returned? && resp.answer == Strip(synthesis.value))
      && (resp.syncPerformed.Some? ==> resp.syncPerformed == sync)
  {
    AnswerEffect(Cleared(st, intent), question, intent, sync, retrieved, grounded, synthesis);
  }

  // ---------------------------------------------------------------------------
  // Properties of `ask`
  // ---------------------------------------------------------------------------

  /** The sync gate passes exactly when no sync was due or it succeeded, and
      then the response's `sync_performed` is the report of that sync. When
      the staleness test itself raises, the turn apologises and changes nothing. */
  lemma {:induction false} SyncGate(st: State, q: string, o: Oracles)
    ensures !SyncRaises(st, o) <==> !SyncDue(st, o) || o.sync.Synced?
    ensures SyncRaises(st, o) ==> AskStep(st, q, o) == (Apology(), AfterSync(st, o))
    ensures AskStep(st, q, o).0.syncPerformed.Some? ==>
              SyncDue(st, o) && o.sync.Synced? && AskStep(st, q, o).0.syncPerformed == Some(o.sync.info)
    ensures !SyncRaises(st, o) ==> AfterSync(st, o).vault.Some?
    ensures GateRaises(st, o) ==> !SyncDue(st, o) && AskStep(st, q, o) == (Apology(), st)
  {
    if GatePasses(st, o) && o.prediction.Returned? {
      var st1 := AfterSync(st, o);
      var intent := IntentOfPrediction(o.prediction.value);
      var r := Retrieved(st1, Strip(q), intent, o.rewrite);
      DispatchMetadata(st1, Strip(q), intent, SyncReport(st, o), r, Grounding(r, o.grounding), o.chat, o.synthesis);
    }
  }

  /** With a snapshot and a watermark at least as new as every file, no sync
      runs: the snapshot and watermark stay and no sync is reported, whatever
      the sync would have produced. */
  lemma {:induction false} NoResyncWhenUnchanged(st: State, q: string, o: Oracles, other: SyncOutcome)
    requires st.vault.Some? && st.watermark.Some?
    requires o.latestMtime.Returned? && o.latestMtime.value.Some? ==>
      o.latestMtime.value.value <= st.watermark.value
    ensures var (resp, next) := AskStep(st, q, o);
      next.vault == st.vault && next.watermark == st.watermark && resp.syncPerformed == None
    ensures AskStep(st, q, o) == AskStep(st, q, o.(sync := other))
  {
    var o' := o.(sync := other);
    assert !SyncDue(st, o) && !SyncDue(st, o');
    assert AfterSync(st, o) == AfterSync(st, o') == st;
    assert SyncReport(st, o) == SyncReport(st, o') == None;
    SyncGate(st, q, o);
    if o.prediction.Returned? {
      var intent := IntentOfPrediction(o.prediction.value);
      var r := Retrieved(st, Strip(q), intent, o.rewrite);
      if intent == Factual {
        DispatchFactual(st, Strip(q), None, r, Grounding(r, o.grounding), o.chat, o.synthesis);
      } else {
        DispatchKeepsNonFactual(st, Strip(q), intent, None, r, Grounding(r, o.grounding), o.chat, o.synthesis);
      }
    }
  }

  /** A report that cannot be built still leaves the new snapshot and
      watermark behind: the turn apologises, and the next turn, with the vault
      unchanged since, uses that snapshot without syncing again; without a
      watermark (an empty vault) the next turn syncs again. */
  lemma {:induction false} InfoFailureRecovers(st: State, q1: string, o1: Oracles, q2: string, o2: Oracles)
    requires SyncDue(st, o1) && o1.sync.InfoRaised?
    ensures var (resp, next) := AskStep(st, q1, o1);
      resp == Apology() && next.vault == Some(o1.sync.data) && next.watermark == o1.sync.mtime
      && next.history == st.history && next.activeSubject == st.activeSubject
    ensures var next := AskStep(st, q1, o1).1;
      (o1.sync.mtime.Some? && o2.latestMtime == Returned(o1.sync.mtime) ==> !SyncDue(next, o2))
      && (o1.sync.mtime.None? && o2.latestMtime.Returned? ==> SyncDue(next, o2))
      && (o2.latestMtime.Raised? ==> AskStep(next, q2, o2) == (Apology(), next))
  {
  }

  /** A failing classifier gives the apology and changes nothing but the sync
      state. */
  lemma {:induction false} ClassifierFailureApologises(st: State, q: string, o: Oracles)
    requires o.prediction.Raised?
    ensures AskStep(st, q, o) == (Apology(), AfterSync(st, o))
  {
  }

  /** Any exception after classification gives the apology: a raising chat
      model on a casual turn; on any other turn that passes the continuation
      guard, a raising rewrite or retrieval, a raising grounding model, or,
      once there is evidence, a raising answer model. */
  lemma {:induction false} ModelFailureApologises(st: State, q: string, o: Oracles)
    requires GatePasses(st, o) && o.prediction.Returned?
    ensures var st1 := AfterSync(st, o);
      var intent := IntentOfPrediction(o.prediction.value);
      var r := Retrieved(st1, Strip(q), intent, o.rewrite);
      var g := Grounding(r, o.grounding);
      !(intent == Continuation && !Truthy(LastQuestion(st1.history)))
      && ((intent == Casual && o.chat.Raised?)
          || (intent != Casual && (r.Raised? || g.Raised? || (g.Returned? && g.value != [] && o.synthesis.Raised?))))
      ==> AskStep(st, q, o).0 == Apology()
  {
  }

  /** A continuation without a previous question gets the fixed answer, with
      no metadata and no sync report, before any change to the context and
      without consulting the chat, rewrite, grounding or answer models. */
  lemma {:induction false} ContinuationNeedsAntecedent(st: State, q: string, o: Oracles,
                                    rewrite: Outcome<string>, grounding: Outcome<string>,
                                    chat: Outcome<string>, synthesis: Outcome<string>)
    requires GatePasses(st, o) && Classified(o, Continuation) && !Truthy(LastQuestion(st.history))
    ensures AskStep(st, q, o) == (NoInfo(None), AfterSync(st, o))
    ensures AskStep(st, q, o) ==
            AskStep(st, q, o.(rewrite := rewrite, grounding := grounding, chat := chat, synthesis := synthesis))
  {
    assert AfterSync(st, o).history == st.history;
  }

  /** A casual turn answers with the stripped chat reply, never touches the
      context, carries no metadata, and does not depend on the rewrite,
      grounding or answer models (no retrieval, no grounding). */
  lemma {:induction false} CasualShortCut(st: State, q: string, o: Oracles,
                       rewrite: Outcome<string>, grounding: Outcome<string>, synthesis: Outcome<string>)
    requires Classified(o, Casual)
    ensures var (resp, next) := AskStep(st, q, o);
      next == AfterSync(st, o) && resp.metadata.None?
      && (GatePasses(st, o) && o.chat.Returned? ==>
            resp == Response(Strip(o.chat.value), None, SyncReport(st, o)))
    ensures AskStep(st, q, o) ==
            AskStep(st, q, o.(rewrite := rewrite, grounding := grounding, synthesis := synthesis))
  {
  }

  /** Only a factual turn changes the context; continuation and casual turns,
      and turns whose classifier failed, leave history and subject as they were. */
  lemma {:induction false} OnlyFactualChangesContext(st: State, q: string, o: Oracles)
    requires !Classified(o, Factual)
    ensures AskStep(st, q, o).1.history == st.history
    ensures AskStep(st, q, o).1.activeSubject == st.activeSubject
  {
    var st1 := AfterSync(st, o);
    assert st1.history == st.history && st1.activeSubject == st.activeSubject;
    if GatePasses(st, o) && o.prediction.Returned? {
      var intent := IntentOfPrediction(o.prediction.value);
      var r := Retrieved(st1, Strip(q), intent, o.rewrite);
      DispatchKeepsNonFactual(st1, Strip(q), intent, SyncReport(st, o), r, Grounding(r, o.grounding), o.chat, o.synthesis);
    }
  }

  /** A factual turn starts a fresh session: the subject is cleared, and the
      history is either empty or exactly the one turn just answered, the latter
      precisely when an answer other than the fixed one came back with metadata. */
  lemma {:induction false} FactualStartsFresh(st: State, q: string, o: Oracles)
    requires GatePasses(st, o) && Classified(o, Factual)
    ensures var (resp, next) := AskStep(st, q, o);
      next.activeSubject == None
      && (resp.metadata.Some? && resp.answer != NoInfoAnswer ==> next.history == [Turn(Strip(q), Some(resp.answer))])
      && (!(resp.metadata.Some? && resp.answer != NoInfoAnswer) ==> next.history == [])
  {
    var st1 := AfterSync(st, o);
    var r := Retrieved(st1, Strip(q), Factual, o.rewrite);
    DispatchFactual(st1, Strip(q), SyncReport(st, o), r, Grounding(r, o.grounding), o.chat, o.synthesis);
  }

  /** Because every factual turn clears the history first, `ask` never lets
      the history grow beyond one turn. */
  lemma {:induction false} HistoryStaysShort(st: State, q: string, o: Oracles)
    requires |st.history| <= 1
    ensures |AskStep(st, q, o).1.history| <= 1
  {
    if GatePasses(st, o) && Classified(o, Factual) {
      FactualStartsFresh(st, q, o);
    } else if !Classified(o, Factual) {
      OnlyFactualChangesContext(st, q, o);
    }
  }

  /** A response with metadata comes from a factual or continuation turn that
      retrieved between one and five chunks and grounded at least one sentence;
      its intent is the classified one. */
  lemma {:induction false} MetadataMeansEvidence(st: State, q: string, o: Oracles)
    ensures var resp := AskStep(st, q, o).0;
      resp.metadata.Some? ==>
        1 <= resp.metadata.value.chunksRetrieved <= RetrievalLimit
        && resp.metadata.value.sentencesGrounded >= 1
        && resp.metadata.value.intent != Casual
        && Classified(o, resp.metadata.value.intent)
  {
    if GatePasses(st, o) && o.prediction.Returned? {
      var st1 := AfterSync(st, o);
      var intent := IntentOfPrediction(o.prediction.value);
      var r := Retrieved(st1, Strip(q), intent, o.rewrite);
      RetrievalBounded(Cleared(st1, intent).history, Strip(q), intent, st1.vault, o.rewrite);
      DispatchMetadata(st1, Strip(q), intent, SyncReport(st, o), r, Grounding(r, o.grounding), o.chat, o.synthesis);
    }
  }

  /** Without evidence (no chunk retrieved, or none grounded) the turn gets
      the fixed answer with no metadata, keeps the context as the gate and the
      factual reset left it, and reports the sync exactly when one ran. */
  lemma {:induction false} NoEvidenceAnswer(st: State, q: string, o: Oracles, intent: Intent)
    requires GatePasses(st, o) && Classified(o, intent) && intent != Casual
    requires intent == Continuation ==> Truthy(LastQuestion(st.history))
    requires var r := Retrieved(AfterSync(st, o), Strip(q), intent, o.rewrite);
      r.Returned? && Grounding(r, o.grounding) == Returned([])
    ensures AskStep(st, q, o) == (NoInfo(SyncReport(st, o)), Cleared(AfterSync(st, o), intent))
    ensures AskStep(st, q, o).0.syncPerformed.Some? <==> SyncDue(st, o)
  {
    var st1 := AfterSync(st, o);
    assert st1.history == st.history;
    var r := Retrieved(st1, Strip(q), intent, o.rewrite);
    AnswerEffect(Cleared(st1, intent), Strip(q), intent, SyncReport(st, o), r, Grounding(r, o.grounding), o.synthesis);
  }

  /** The fixed answer, even when the answer model produces it, is never
      stored in the history. */
  lemma {:induction false} FixedAnswerNeverStored(st: State, q: string, o: Oracles)
    requires GatePasses(st, o) && Classified(o, Factual)
    requires o.synthesis.Returned? && Strip(o.synthesis.value) == NoInfoAnswer
    ensures AskStep(st, q, o).1.history == []
  {
    FactualStartsFresh(st, q, o);
    var st1 := AfterSync(st, o);
    var r := Retrieved(st1, Strip(q), Factual, o.rewrite);
    DispatchMetadata(st1, Strip(q), Factual, SyncReport(st, o), r, Grounding(r, o.grounding), o.chat, o.synthesis);
  }

  // ---------------------------------------------------------------------------
  // The assistant object
  // ---------------------------------------------------------------------------

  /** The router's process state: the shared context store, the current vault
      snapshot and the modification time recorded at the last sync. */
  class Assistant {
    const context: ContextManager
    var currentVaultData: Option<VaultData>
    var lastVaultMtime: Option<int>

    constructor (context: ContextManager)
      ensures this.context == context
      ensures currentVaultData == None && lastVaultMtime == None
    {
      this.context := context;
      currentVaultData := None;
      lastVaultMtime := None;
    }

    function Snapshot(): State
      reads this, context
    {
      State(context.history, context.activeSubject, currentVaultData, lastVaultMtime)
    }

    /** `_internal_sync` */
    method InternalSync(outcome: SyncOutcome) returns (info: Outcome<SyncInfo>)
      modifies this
      ensures (Snapshot(), info) == SyncEffect(old(Snapshot()), outcome)
    {
      match outcome {
        case ScanRaised =>
          return Raised;
        case MtimeRaised(d) =>
          currentVaultData := Some(d);
          return Raised;
        case InfoRaised(d, m) =>
          currentVaultData := Some(d);
          lastVaultMtime := m;
          return Raised;
        case Synced(d, m, report) =>
          currentVaultData := Some(d);
          lastVaultMtime := m;
          return Returned(report);
      }
    }

    /** `retrieve_for_question` */
    method RetrieveForQuestion(question: string, intent: Intent, vaultData: Option<VaultData>,
                               rewrite: Outcome<string>) returns (chunks: Outcome<seq<string>>)
      ensures chunks == Retrieval(context.history, question, intent, vaultData, rewrite)
      ensures chunks.Returned? ==> |chunks.value| <= RetrievalLimit
    {
      var query := question;
      var previous := context.GetPreviousQuestion();
      if RewriteCalled(intent, previous) {
        if rewrite.Raised? {
          return Raised;
        }
        query := RetrievalQuery(question, intent, previous, rewrite.value);
      }
      if vaultData.None? {
        return Raised;
      }
      var results := RetrieveRelevantChunks(query, vaultData.value, RetrievalLimit);
      var kept := NormalizeChunks(AsSearchItems(results));
      return Returned(kept);
    }

    /** Steps 4 to 7 of `ask`, once chunks have been retrieved. */
    method GroundAndAnswer(question: string, intent: Intent, sync: Option<SyncInfo>,
                           retrieved: Outcome<seq<string>>, grounding: Outcome<string>,
                           synthesis: Outcome<string>) returns (resp: Response)
      modifies context
      ensures (resp, Snapshot()) ==
              Answer(old(Snapshot()), question, intent, sync, retrieved, Grounding(retrieved, grounding), synthesis)
    {
      ghost var expected :=
        Answer(Snapshot(), question, intent, sync, retrieved, Grounding(retrieved, grounding), synthesis);
      if retrieved.Raised? {
        resp := Apology();
        assert (resp, Snapshot()) == expected;
        return;
      }
      var chunks := retrieved.value;
      if chunks == [] {
        resp := NoInfo(sync);
        assert (resp, Snapshot()) == expected;
        return;
      }
      if grounding.Raised? {
        resp := Apology();
        assert (resp, Snapshot()) == expected;
        return;
      }
      var allowed := GroundSentences(chunks, grounding.value);
      if allowed == [] {
        resp := NoInfo(sync);
        assert (resp, Snapshot()) == expected;
        return;
      }
      if synthesis.Raised? {
        resp := Apology();
        assert (resp, Snapshot()) == expected;
        return;
      }
      var answer := Strip(synthesis.value);
      if answer != NoInfoAnswer && intent == Factual {
        context.AddTurn(question, answer);
      }
      resp := Response(answer, Some(Metadata(|chunks|, |allowed|, intent)), sync);
      assert (resp, Snapshot()) == expected;
    }

    /** The part of `ask` after classification. */
    method Respond(question: string, intent: Intent, sync: Option<SyncInfo>, o: Oracles)
      returns (resp: Response)
      modifies context
      ensures var r := Retrieved(old(Snapshot()), question, intent, o.rewrite);
        (resp, Snapshot()) ==
        Dispatch(old(Snapshot()), question, intent, sync, r, Grounding(r, o.grounding), o.chat, o.synthesis)
    {
      ghost var r := Retrieved(Snapshot(), question, intent, o.rewrite);
      ghost var expected :=
        Dispatch(Snapshot(), question, intent, sync, r, Grounding(r, o.grounding), o.chat, o.synthesis);
      if intent == Continuation {
        var previous := context.GetPreviousQuestion();
        if !Truthy(previous) {
          resp := NoInfo(None);
          assert (resp, Snapshot()) == expected;
          return;
        }
      }
      if intent == Factual {
        context.ClearSession();
      }
      if intent == Casual {
        if o.chat.Raised? {
          resp := Apology();
          assert (resp, Snapshot()) == expected;
          return;
        }
        resp := Response(Strip(o.chat.value), None, sync);
        assert (resp, Snapshot()) == expected;
        return;
      }
      var retrieved := RetrieveForQuestion(question, intent, currentVaultData, o.rewrite);
      assert retrieved == r;
      resp := GroundAndAnswer(question, intent, sync, retrieved, o.grounding, o.synthesis);
      assert (resp, Snapshot()) == expected;
    }

    /** `ask` */
    method Ask(rawQuestion: string, o: Oracles) returns (resp: Response)
      modifies this, context
      ensures (resp, Snapshot()) == AskStep(old(Snapshot()), rawQuestion, o)
    {
      ghost var expected := AskStep(Snapshot(), rawQuestion, o);
      var sync: Option<SyncInfo> := None;
      var due := currentVaultData.None?;
      if !due {
        if o.latestMtime.Raised? {
          resp := Apology();
          assert (resp, Snapshot()) == expected;
          return;
        }
        due := VaultHasChanged(lastVaultMtime, o.latestMtime.value);
      }
      if due {
        var report := InternalSync(o.sync);
        if report.Raised? {
          resp := Apology();
          assert (resp, Snapshot()) == expected;
          return;
        }
        sync := Some(report.value);
      }
      assert Snapshot() == AfterSync(old(Snapshot()), o);
      assert sync == SyncReport(old(Snapshot()), o);
      var question := Strip(rawQuestion);
      if o.prediction.Raised? {
        resp := Apology();
        assert (resp, Snapshot()) == expected;
        return;
      }
      var intent := IntentOfPrediction(o.prediction.value);
      resp := Respond(question, intent, sync, o);
      assert (resp, Snapshot()) == expected;
    }
  }
}
