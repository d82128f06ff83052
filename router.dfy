/** The deterministic helpers of the assistant's router: intent labels, search
    result normalisation, acceptance of a pronoun rewrite, parsing of the
    grounding model's reply, the vault staleness test and the continuation
    directive. The model calls themselves are outside; their replies are inputs. */
module Router {
  import opened Wrappers
  import opened PyStr
  import opened ContextStore

  // ---------------------------------------------------------------------------
  // Intents
  // ---------------------------------------------------------------------------

  /** The classifier's labels `factual`, `continuation` and `casual`. */
  datatype Intent = Factual | Continuation | Casual

  /** `INTENT_LABEL_MAP` */
  const IntentLabelMap: map<string, Intent> :=
    map["LABEL_0" := Factual, "LABEL_1" := Continuation, "LABEL_2" := Casual]

  /** `INTENT_LABEL_MAP.get(f"LABEL_{pred_id}", "factual")` */
  function IntentOfPrediction(predId: int): Intent
  {
    var key := "LABEL_" + IntToString(predId);
    if key in IntentLabelMap then IntentLabelMap[key] else Factual
  }

  /** Prediction 1 is a continuation, 2 is casual, and every other id,
      including 0 and any id the map does not know, is factual. */
  lemma {:induction false} IntentOfPredictionTable(predId: int)
    ensures IntentOfPrediction(predId) == Continuation <==> predId == 1
    ensures IntentOfPrediction(predId) == Casual <==> predId == 2
    ensures IntentOfPrediction(predId) == Factual <==> predId != 1 && predId != 2
  {
    var digits := IntToString(predId);
    var key := "LABEL_" + digits;
    assert key[6..] == digits;
    assert "LABEL_1"[6..] == [DigitChar(1)];
    assert "LABEL_2"[6..] == [DigitChar(2)];
    IntToStringSingleDigit(predId, 1);
    IntToStringSingleDigit(predId, 2);
    if predId == 1 {
      assert key == "LABEL_1";
    } else if predId == 2 {
      assert key == "LABEL_2";
    }
  }

  // ---------------------------------------------------------------------------
  // normalize_chunks
  // ---------------------------------------------------------------------------

  /** One item of a search result list: a dict (with or without a `"chunk"`
      key), a plain string, or anything else. */
  datatype SearchItem = DictItem(chunk: Option<string>) | TextItem(text: string) | OtherItem

  /** The chunk text an item contributes, if any. */
  function ItemChunk(r: SearchItem): Option<string>
  {
    match r
    case DictItem(c) => c
    case TextItem(t) => Some(t)
    case OtherItem => None
  }

  /** The chunk texts of the items, in order. */
  function KeptChunks(results: seq<SearchItem>): (chunks: seq<string>)
    ensures |chunks| <= |results|
  {
    if results == [] then []
    else
      var c := ItemChunk(results[|results| - 1]);
      KeptChunks(results[..|results| - 1]) + (if c.Some? then [c.value] else [])
  }

  /** No item is dropped exactly when every item is a dict with a chunk or
      a string. */
  lemma {:induction false} KeptChunksKeepsAll(results: seq<SearchItem>)
    ensures |KeptChunks(results)| == |results| <==> forall i :: 0 <= i < |results| ==> ItemChunk(results[i]).Some?
  {
    if results != [] {
      var init := results[..|results| - 1];
      KeptChunksKeepsAll(init);
      assert forall i :: 0 <= i < |init| ==> init[i] == results[i];
    }
  }

  /** Keeping chunks distributes over concatenation, so every item is
      handled on its own and the order of the items is kept. */
  lemma {:induction false} KeptChunksOfConcat(a: seq<SearchItem>, b: seq<SearchItem>)
    ensures KeptChunks(a + b) == KeptChunks(a) + KeptChunks(b)
    decreases |b|
  {
    if b == [] {
      assert a + b == a;
    } else {
      var bi := b[..|b| - 1];
      KeptChunksOfConcat(a, bi);
      assert (a + b)[..|a + b| - 1] == a + bi;
    }
  }

  /** `normalize_chunks` */
  method NormalizeChunks(results: seq<SearchItem>) returns (chunks: seq<string>)
    ensures chunks == KeptChunks(results)
    ensures |chunks| <= |results|
  {
    chunks := [];
    var i := 0;
    while i < |results|
      invariant 0 <= i <= |results|
      invariant chunks == KeptChunks(results[..i])
    {
      match results[i] {
        case DictItem(c) =>
          if c.Some? {
            chunks := chunks + [c.value];
          }
        case TextItem(t) =>
          chunks := chunks + [t];
        case OtherItem =>
      }
      assert results[..i + 1][..i] == results[..i];
      i := i + 1;
    }
    assert results[..i] == results;
  }

  // ---------------------------------------------------------------------------
  // The retrieval query
  // ---------------------------------------------------------------------------

  /** The number of chunks `retrieve_for_question` asks for. */
  const RetrievalLimit: int := 5

  /** The rewrite model is consulted only for a continuation that has a
      (truthy) previous question. */
  predicate RewriteCalled(intent: Intent, previousQuestion: Option<string>)
  {
    intent == Continuation && Truthy(previousQuestion)
  }

  /** The query `retrieve_for_question` searches with: the question itself,
      unless the rewrite model was consulted and its stripped reply is longer
      than three characters. */
  function RetrievalQuery(question: string, intent: Intent, previousQuestion: Option<string>,
                          rewriteReply: string): string
  {
    if RewriteCalled(intent, previousQuestion) then
      var resolved := Strip(rewriteReply);
      if resolved != "" && |resolved| > 3 then resolved else question
    else question
  }

  /** A query other than the question is the stripped rewrite: longer than
      three characters and with no surrounding whitespace; and the rewrite is
      accepted whenever the model was consulted and it is that long. */
  lemma {:induction false} RetrievalQueryChoice(question: string, intent: Intent, previousQuestion: Option<string>,
                             rewriteReply: string)
    ensures var q := RetrievalQuery(question, intent, previousQuestion, rewriteReply);
      (!RewriteCalled(intent, previousQuestion) ==> q == question)
      && (q != question ==> q == Strip(rewriteReply) && |q| > 3 && Strip(q) == q)
      && (RewriteCalled(intent, previousQuestion) && |Strip(rewriteReply)| > 3 ==> q == Strip(rewriteReply))
  {
    StripIdempotent(rewriteReply);
  }

  // ---------------------------------------------------------------------------
  // Grounding output
  // ---------------------------------------------------------------------------

  /** The sentinel the grounding model answers with when nothing is relevant. */
  const NoneSentinel: string := "NONE"

  /** A sentence must be longer than this to count as evidence. */
  const MinSentenceLength: nat := 10

  /** The enumeration characters `[\d\-\*\.]`. */
  predicate IsMarker(c: char)
  {
    IsDigit(c) || c == '-' || c == '*' || c == '.'
  }

  /** The length of the run of enumeration characters that starts `s`. */
  function MarkerEnd(s: string): (k: nat)
    ensures k <= |s|
    ensures forall i :: 0 <= i < k ==> IsMarker(s[i])
    ensures k < |s| ==> !IsMarker(s[k])
  {
    if s == [] || !IsMarker(s[0]) then 0 else 1 + MarkerEnd(s[1..])
  }

  /** `re.sub(r'^[\d\-\*\.]+\s*', '', s)`: drop a leading enumeration marker
      and the whitespace after it. A line that does not start with a marker
      character is left as it is; from any other line exactly the maximal
      run of marker characters and then the maximal run of whitespace after
      it are removed. */
  function StripMarker(s: string): (r: string)
    ensures |r| <= |s| && r == s[|s| - |r|..]
    ensures s == [] || !IsMarker(s[0]) ==> r == s
    ensures s != [] && IsMarker(s[0]) ==> |r| < |s|
    ensures var k := MarkerEnd(s);
      k > 0 ==> k <= |s| - |r| && AllSpace(s[k..|s| - |r|]) && (r != [] ==> !IsSpace(r[0]))
  {
    var k := MarkerEnd(s);
    if k == 0 then s
    else
      LStripShape(s[k..]);
      assert s[k..][..|s[k..]| - |LStrip(s[k..])|] == s[k..|s| - |LStrip(s[k..])|];
      LStrip(s[k..])
  }

  /** `[s.strip() for s in lines if s.strip()]` */
  function NonBlankStripped(lines: seq<string>): (r: seq<string>)
    ensures |r| <= |lines|
  {
    if lines == [] then []
    else (if Strip(lines[0]) != "" then [Strip(lines[0])] else []) + NonBlankStripped(lines[1..])
  }

  /** `[re.sub(...) for s in lines]` */
  function StripMarkers(lines: seq<string>): (r: seq<string>)
    ensures |r| == |lines|
  {
    seq(|lines|, i requires 0 <= i < |lines| => StripMarker(lines[i]))
  }

  /** `[s for s in lines if len(s) > 10]` */
  function LongOnly(lines: seq<string>): seq<string>
  {
    if lines == [] then []
    else (if |lines[0]| > MinSentenceLength then [lines[0]] else []) + LongOnly(lines[1..])
  }

  /** The kept lines are exactly the long ones. */
  lemma {:induction false} LongOnlyKeepsLong(lines: seq<string>)
    ensures forall x :: x in LongOnly(lines) <==> x in lines && |x| > MinSentenceLength
  {
    if lines != [] {
      LongOnlyKeepsLong(lines[1..]);
      assert lines == [lines[0]] + lines[1..];
    }
  }

  /** The length filter keeps the lines in their order: filtering two runs of
      lines one after the other is filtering their concatenation. */
  lemma {:induction false} LongOnlyOfConcat(a: seq<string>, b: seq<string>)
    ensures LongOnly(a + b) == LongOnly(a) + LongOnly(b)
    decreases |a|
  {
    if a != [] {
      assert (a + b)[1..] == a[1..] + b;
      LongOnlyOfConcat(a[1..], b);
    } else {
      assert a + b == b;
    }
  }

  /** Stripping and dropping blank lines keeps the lines in their order. */
  lemma {:induction false} NonBlankStrippedOfConcat(a: seq<string>, b: seq<string>)
    ensures NonBlankStripped(a + b) == NonBlankStripped(a) + NonBlankStripped(b)
    decreases |a|
  {
    if a != [] {
      assert (a + b)[1..] == a[1..] + b;
      NonBlankStrippedOfConcat(a[1..], b);
    } else {
      assert a + b == b;
    }
  }

  predicate NoDuplicates<T(==)>(s: seq<T>)
  {
    forall i, j :: 0 <= i < j < |s| ==> s[i] != s[j]
  }

  /** The index of the first occurrence of `x` in `s`, or `|s|` when there
      is none. */
  function FirstIndex<T(==)>(s: seq<T>, x: T): (k: nat)
    ensures k <= |s|
    ensures k < |s| ==> s[k] == x
    ensures forall t :: 0 <= t < k ==> s[t] != x
  {
    if s == [] then 0 else if s[0] == x then 0 else 1 + FirstIndex(s[1..], x)
  }

  lemma {:induction false} FirstIndexInPrefix<T>(s: seq<T>, t: seq<T>, x: T)
    requires x in s
    ensures FirstIndex(s + t, x) == FirstIndex(s, x)
  {
    var k := FirstIndex(s, x);
    assert k < |s|;
    assert forall j :: 0 <= j < k ==> (s + t)[j] == s[j] != x;
    assert (s + t)[k] == x;
  }

  /** `list(dict.fromkeys(s))`: each distinct element once, at the position
      of its first occurrence. */
  function Dedup(s: seq<string>): seq<string>
  {
    if s == [] then []
    else
      var d := Dedup(s[..|s| - 1]);
      if s[|s| - 1] in d then d else d + [s[|s| - 1]]
  }

  /** Deduplication keeps exactly the elements of `s`. */
  lemma {:induction false} DedupMembers(s: seq<string>)
    ensures forall x :: x in Dedup(s) <==> x in s
  {
    if s != [] {
      DedupMembers(s[..|s| - 1]);
      assert s == s[..|s| - 1] + [s[|s| - 1]];
    }
  }

  /** Deduplication keeps each element once. */
  lemma {:induction false} DedupNoDuplicates(s: seq<string>)
    ensures NoDuplicates(Dedup(s))
  {
    if s != [] {
      DedupNoDuplicates(s[..|s| - 1]);
    }
  }

  /** Of two kept elements, the earlier one occurs first in `s`. */
  lemma {:induction false} DedupOrderAt(s: seq<string>, i: nat, j: nat)
    requires i < j < |Dedup(s)|
    ensures FirstIndex(s, Dedup(s)[i]) < FirstIndex(s, Dedup(s)[j])
    decreases |s|
  {
    var init := s[..|s| - 1];
    var last := s[|s| - 1];
    var d := Dedup(init);
    DedupMembers(s);
    DedupMembers(init);
    assert s == init + [last];
    assert Dedup(s)[i] == d[i] && d[i] in init;
    FirstIndexInPrefix(init, [last], d[i]);
    if j < |d| {
      DedupOrderAt(init, i, j);
      assert Dedup(s)[j] == d[j];
      FirstIndexInPrefix(init, [last], d[j]);
    } else {
      assert Dedup(s)[j] == last && last !in init;
      assert forall t :: 0 <= t < |init| ==> s[t] == init[t] != last;
      assert FirstIndex(s, last) == |init|;
    }
  }

  /** Deduplication lists the elements in the order of their first occurrences. */
  lemma {:induction false} DedupFirstOccurrenceOrder(s: seq<string>)
    ensures forall i, j :: 0 <= i < j < |Dedup(s)| ==> FirstIndex(s, Dedup(s)[i]) < FirstIndex(s, Dedup(s)[j])
  {
    var r := Dedup(s);
    forall i, j | 0 <= i < j < |r| ensures FirstIndex(s, r[i]) < FirstIndex(s, r[j]) {
      DedupOrderAt(s, i, j);
    }
  }

  /** The post-processing of `llm_ground_sentences` applied to the grounding
      model's reply. */
  function ParseGrounding(reply: string): seq<string>
  {
    var output := Strip(reply);
    if output == NoneSentinel || output == "" then []
    else Dedup(LongOnly(StripMarkers(NonBlankStripped(SplitOn(output, '\n')))))
  }

  /** `llm_ground_sentences`: without chunks there is no model call and no
      evidence; otherwise the model's reply is parsed. */
  function GroundSentences(chunks: seq<string>, reply: string): seq<string>
  {
    if chunks == [] then [] else ParseGrounding(reply)
  }

  /** The processed lines of a reply, before deduplication. */
  function Processed(reply: string): seq<string>
  {
    LongOnly(StripMarkers(NonBlankStripped(SplitOn(Strip(reply), '\n'))))
  }

  /** Evidence is empty for the sentinel and for a blank reply; otherwise it
      holds every processed line once, each longer than ten characters, in
      the order in which the lines first occur. */
  lemma {:induction false} GroundingShape(chunks: seq<string>, reply: string)
    ensures var r := GroundSentences(chunks, reply);
      (chunks == [] || Strip(reply) == NoneSentinel || Strip(reply) == "" ==> r == [])
      && (forall i :: 0 <= i < |r| ==> |r[i]| > MinSentenceLength)
      && NoDuplicates(r)
      && (chunks != [] && Strip(reply) != NoneSentinel ==>
            (forall x :: x in r <==> x in Processed(reply))
            && (forall i, j :: 0 <= i < j < |r| ==>
                  FirstIndex(Processed(reply), r[i]) < FirstIndex(Processed(reply), r[j])))
  {
    var r := GroundSentences(chunks, reply);
    if chunks != [] && Strip(reply) != NoneSentinel && Strip(reply) != "" {
      var p := Processed(reply);
      assert r == Dedup(p);
      DedupMembers(p);
      DedupNoDuplicates(p);
      DedupFirstOccurrenceOrder(p);
      LongOnlyKeepsLong(StripMarkers(NonBlankStripped(SplitOn(Strip(reply), '\n'))));
      forall i | 0 <= i < |r| ensures |r[i]| > MinSentenceLength {
        assert r[i] in p;
      }
    }
    if chunks != [] && Strip(reply) == "" {
      assert NonBlankStripped([""]) == [];
      assert Processed(reply) == [];
    }
  }

  // ---------------------------------------------------------------------------
  // Vault staleness
  // ---------------------------------------------------------------------------

  /** `vault_has_changed`: with no recorded watermark the vault counts as
      changed; with no current modification time it does not; otherwise it
      has changed when the newest file is newer than the watermark. */
  function VaultHasChanged(lastSync: Option<int>, latest: Option<int>): (changed: bool)
    ensures lastSync.None? ==> changed
    ensures lastSync.Some? && latest.None? ==> !changed
    ensures lastSync.Some? && latest.Some? ==> (changed <==> latest.value > lastSync.value)
  {
    if lastSync.None? then true
    else if latest.None? then false
    else latest.value > lastSync.value
  }

  // ---------------------------------------------------------------------------
  // The continuation directive
  // ---------------------------------------------------------------------------

  /** The context line given to the answer model for a turn. */
  datatype Directive = AskedWhy | AskedHow | FollowUp(previousQuestion: string) | NoDirective

  /** The text of each directive. */
  function DirectiveText(d: Directive): string
  {
    match d
    case AskedWhy =>
      "CONTEXT: The original question asked WHY. Focus on explaining the REASON or CAUSE.\n"
    case AskedHow =>
      "CONTEXT: The original question asked HOW. Focus on explaining the PROCESS or MECHANISM.\n"
    case FollowUp(p) => "CONTEXT: This is a follow-up to: " + p + "\n"
    case NoDirective => ""
  }

  /** The directive for a turn: chosen by how the lower-cased previous
      question starts, and none when the turn is not a continuation with a
      previous question. */
  function ContinuationDirective(intent: Intent, previousQuestion: Option<string>): Directive
  {
    if intent == Continuation && Truthy(previousQuestion) then
      var lower := Lower(previousQuestion.value);
      if StartsWith(lower, "why") then AskedWhy
      else if StartsWith(lower, "how") then AskedHow
      else FollowUp(previousQuestion.value)
    else NoDirective
  }

  /** WHY exactly for a continuation whose previous question starts with
      "why" in any letter case, HOW exactly when it starts with "how"
      instead, the follow-up line naming the previous question for any other
      continuation, and nothing for every other turn. */
  lemma {:induction false} DirectiveChoice(intent: Intent, previousQuestion: Option<string>)
    ensures var d := ContinuationDirective(intent, previousQuestion);
      var asked := intent == Continuation && Truthy(previousQuestion);
      (d == AskedWhy <==> asked && StartsWith(Lower(previousQuestion.value), "why"))
      && (d == AskedHow <==> asked && !StartsWith(Lower(previousQuestion.value), "why")
                                    && StartsWith(Lower(previousQuestion.value), "how"))
      && (d.FollowUp? <==> asked && !StartsWith(Lower(previousQuestion.value), "why")
                                  && !StartsWith(Lower(previousQuestion.value), "how"))
      && (d.FollowUp? ==> d.previousQuestion == previousQuestion.value)
      && (d == NoDirective <==> !asked)
  {
  }

  /** The letter case of the previous question's opening word does not
      matter: "Why", "WHY" and "why" select the same directive. */
  lemma {:induction false} DirectiveIgnoresCase(intent: Intent, p: string, q: string)
    requires p != [] && q != [] && Lower(p) == Lower(q)
    ensures ContinuationDirective(intent, Some(p)).FollowUp?
            || ContinuationDirective(intent, Some(p)) == ContinuationDirective(intent, Some(q))
  {
  }
}
