/** The conversation context store: a short history of question/answer turns
    and an active subject, kept in one object that the pipeline mutates. */
module ContextStore {
  import opened Wrappers
  import opened PyStr

  /** `max_history`: how many turns are kept. */
  const MaxHistory: nat := 3

  /** One question/answer turn; `answer` is `None` while the answer is pending. */
  datatype Turn = Turn(question: string, answer: Option<string>)

  /** Python truthiness of an optional string: present and non-empty. */
  predicate Truthy(s: Option<string>)
  {
    s.Some? && s.value != ""
  }

  // ---------------------------------------------------------------------------
  // The history transformations performed by the mutating methods
  // ---------------------------------------------------------------------------

  /** The question of the newest turn, if there is one. */
  function LastQuestion(h: seq<Turn>): (r: Option<string>)
    ensures r.None? <==> h == []
    ensures r.Some? ==> r.value == h[|h| - 1].question
  {
    if h != [] then Some(h[|h| - 1].question) else None
  }

  /** Append `t`, then keep only the last `MaxHistory` turns. The result is
      bounded, ends with `t`, and before `t` holds the newest turns of `h` in
      their original order, as many of them as fit. */
  function AppendTrimmed(h: seq<Turn>, t: Turn): (r: seq<Turn>)
    ensures 1 <= |r| <= MaxHistory
    ensures r[|r| - 1] == t
    ensures r[..|r| - 1] == h[|h| - Min(|h|, MaxHistory - 1)..]
  {
    var grown := h + [t];
    var r := if |grown| > MaxHistory then SliceFrom(grown, -(MaxHistory as int)) else grown;
    assert r[..|r| - 1] == h[|h| - Min(|h|, MaxHistory - 1)..];
    r
  }

  /** The legacy "remember this question" step: nothing happens when the last
      turn already asks `q`; otherwise an unanswered turn for `q` is appended. */
  function WithPreviousQuestion(h: seq<Turn>, q: string): (r: seq<Turn>)
    ensures r != [] && r[|r| - 1].question == q
    ensures h != [] && h[|h| - 1].question == q ==> r == h
    ensures !(h != [] && h[|h| - 1].question == q) ==>
      r[|r| - 1].answer == None && r[..|r| - 1] == h[|h| - Min(|h|, MaxHistory - 1)..]
  {
    if h != [] && h[|h| - 1].question == q then h
    else AppendTrimmed(h, Turn(q, None))
  }

  /** Remembering the same question twice is the same as remembering it once. */
  lemma {:induction false} SetPreviousQuestionIdempotent(h: seq<Turn>, q: string)
    ensures WithPreviousQuestion(WithPreviousQuestion(h, q), q) == WithPreviousQuestion(h, q)
  {
  }

  /** Filling in the last answer: only a pending answer of the last turn is
      set; the length, every earlier turn and the last question never change. */
  function WithLastAnswer(h: seq<Turn>, a: string): (r: seq<Turn>)
    ensures |r| == |h|
    ensures h != [] ==> r[..|r| - 1] == h[..|h| - 1]
    ensures h != [] ==> r[|r| - 1].question == h[|h| - 1].question
    ensures h != [] ==>
      r[|r| - 1].answer == (if h[|h| - 1].answer == None then Some(a) else h[|h| - 1].answer)
  {
    if h != [] && h[|h| - 1].answer == None then
      h[|h| - 1 := Turn(h[|h| - 1].question, Some(a))]
    else h
  }

  /** Once the last answer is filled in, filling it in again changes nothing. */
  lemma {:induction false} UpdateLastAnswerOnce(h: seq<Turn>, a: string, b: string)
    ensures WithLastAnswer(WithLastAnswer(h, a), b) == WithLastAnswer(h, a)
  {
  }

  // ---------------------------------------------------------------------------
  // The summary text
  // ---------------------------------------------------------------------------

  /** `Q{position}: {question}` */
  function QuestionLine(position: nat, t: Turn): string
  {
    "Q" + NatToString(position) + ": " + t.question
  }

  /** `A{position}: {answer[:100]}...`, for a turn whose answer is truthy. */
  function AnswerLine(position: nat, t: Turn): string
    requires t.answer.Some?
  {
    "A" + NatToString(position) + ": " + SliceTo(t.answer.value, 100) + "..."
  }

  /** The lines one turn contributes at the given position. */
  function TurnLines(position: nat, t: Turn): (r: seq<string>)
  {
    if Truthy(t.answer) then [QuestionLine(position, t), AnswerLine(position, t)]
    else [QuestionLine(position, t)]
  }

  /** How many of the turns have a truthy answer. */
  function AnsweredCount(ts: seq<Turn>): (n: nat)
    ensures n <= |ts|
  {
    if ts == [] then 0
    else AnsweredCount(ts[..|ts| - 1]) + (if Truthy(ts[|ts| - 1].answer) then 1 else 0)
  }

  /** The summary lines for turns listed most recent first: the turn at index
      `k` is numbered `k + 1`. One line per turn, plus one per truthy answer. */
  function SummaryLines(ts: seq<Turn>): (r: seq<string>)
    ensures |r| == |ts| + AnsweredCount(ts)
  {
    if ts == [] then []
    else SummaryLines(ts[..|ts| - 1]) + TurnLines(|ts|, ts[|ts| - 1])
  }

  /** One more turn adds its own lines at the end. */
  lemma {:induction false} SummaryLinesStep(ts: seq<Turn>, i: nat)
    requires i < |ts|
    ensures SummaryLines(ts[..i + 1]) == SummaryLines(ts[..i]) + TurnLines(i + 1, ts[i])
  {
    assert ts[..i + 1][..i] == ts[..i];
  }

  /** Where the lines of each turn sit in the summary: the turn at index `k`
      starts at line `k + AnsweredCount(ts[..k])` with `Q{k+1}: question`, and
      a truthy answer follows it as `A{k+1}: ...` on the next line. */
  lemma {:induction false} SummaryLinesAt(ts: seq<Turn>, k: nat)
    requires k < |ts|
    ensures var j := k + AnsweredCount(ts[..k]);
      var lines := SummaryLines(ts);
      j < |lines| && lines[j] == QuestionLine(k + 1, ts[k])
      && (Truthy(ts[k].answer) ==> j + 1 < |lines| && lines[j + 1] == AnswerLine(k + 1, ts[k]))
    decreases |ts|
  {
    var init := ts[..|ts| - 1];
    assert ts[..k] == init[..k];
    if k < |ts| - 1 {
      SummaryLinesAt(init, k);
    } else {
      assert init == ts[..k];
    }
  }

  /** No question or answer of the turns contains a line break. */
  predicate LineFree(ts: seq<Turn>)
  {
    forall i :: 0 <= i < |ts| ==>
      '\n' !in ts[i].question && (ts[i].answer.Some? ==> '\n' !in ts[i].answer.value)
  }

  /** Turns free of line breaks give summary lines free of line breaks, so the
      joined summary splits back into exactly its lines. */
  lemma {:induction false} SummaryLinesLineFree(ts: seq<Turn>)
    requires LineFree(ts)
    ensures LineFree(Reverse(ts))
    ensures forall j :: 0 <= j < |SummaryLines(ts)| ==> '\n' !in SummaryLines(ts)[j]
    decreases |ts|
  {
    if ts != [] {
      var init := ts[..|ts| - 1];
      var t := ts[|ts| - 1];
      SummaryLinesLineFree(init);
      NatToStringHasNoNewline(|ts|);
      assert '\n' !in QuestionLine(|ts|, t);
      if Truthy(t.answer) {
        var a := SliceTo(t.answer.value, 100);
        assert forall c :: c in a ==> c in t.answer.value;
        assert '\n' !in AnswerLine(|ts|, t);
      }
    }
  }

  /** The most recent turn is numbered 1 and comes first. */
  lemma {:induction false} SummaryStartsWithMostRecent(ts: seq<Turn>)
    requires ts != []
    ensures SummaryLines(ts)[0] == "Q1: " + ts[0].question
  {
    SummaryLinesAt(ts, 0);
    assert ts[..0] == [];
  }

  // ---------------------------------------------------------------------------
  // The object
  // ---------------------------------------------------------------------------

  class ContextManager {
    /** Oldest turn first, as the source's list is kept. */
    var history: seq<Turn>
    var activeSubject: Option<string>

    /** The bound the trimming in `add_turn` and `set_previous_question` keeps. */
    predicate Valid()
      reads this
    {
      |history| <= MaxHistory
    }

    constructor ()
      ensures history == [] && activeSubject == None
      ensures Valid()
    {
      history := [];
      activeSubject := None;
    }

    /** `add_turn` */
    method AddTurn(question: string, answer: string)
      modifies this
      ensures history == AppendTrimmed(old(history), Turn(question, Some(answer)))
      ensures activeSubject == old(activeSubject)
      ensures Valid()
    {
      history := history + [Turn(question, Some(answer))];
      if |history| > MaxHistory {
        history := SliceFrom(history, -(MaxHistory as int));
      }
    }

    /** `get_history`: the most recent `limit` turns, newest first. `None` and,
        because the source tests `if limit:`, also `0` mean the whole history;
        a negative limit drops that many of the oldest turns. The limit
        defaults to `None`. */
    function GetHistory(limit: Option<int> := None): (r: seq<Turn>)
      reads this
      ensures |r| <= |history|
      ensures forall i :: 0 <= i < |r| ==> r[i] == history[|history| - 1 - i]
      ensures limit.None? || limit == Some(0) ==> |r| == |history|
      ensures limit.Some? && limit.value > 0 ==> |r| == Min(limit.value, |history|)
      ensures limit.Some? && limit.value < 0 ==> |r| == |history| - Min(-limit.value, |history|)
    {
      if limit.Some? && limit.value != 0 then Reverse(SliceFrom(history, -limit.value))
      else Reverse(history)
    }

    /** `get_previous_question`: the question of the newest turn, if any. */
    function GetPreviousQuestion(): (r: Option<string>)
      reads this
      ensures r.None? <==> history == []
      ensures r.Some? ==> r.value == history[|history| - 1].question
    {
      LastQuestion(history)
    }

    /** `get_last_n_questions`: the questions of the last `n` turns, newest
        first; `history[-0:]` is the whole list, so `n == 0` yields them all.
        `n` defaults to 3. */
    function GetLastNQuestions(n: int := 3): (r: seq<string>)
      reads this
      ensures |r| <= |history|
      ensures forall i :: 0 <= i < |r| ==> r[i] == history[|history| - 1 - i].question
      ensures n == 0 ==> |r| == |history|
      ensures n > 0 ==> |r| == Min(n, |history|)
      ensures n < 0 ==> |r| == |history| - Min(-n, |history|)
    {
      var recent := Reverse(SliceFrom(history, -n));
      seq(|recent|, i requires 0 <= i < |recent| => recent[i].question)
    }

    /** `set_previous_question` */
    method SetPreviousQuestion(question: string)
      requires Valid()
      modifies this
      ensures Valid()
      ensures history == WithPreviousQuestion(old(history), question)
      ensures activeSubject == old(activeSubject)
    {
      if history != [] && history[|history| - 1].question == question {
        return;
      }
      history := history + [Turn(question, None)];
      if |history| > MaxHistory {
        history := SliceFrom(history, -(MaxHistory as int));
      }
    }

    /** `update_last_answer` */
    method UpdateLastAnswer(answer: string)
      requires Valid()
      modifies this
      ensures Valid()
      ensures history == WithLastAnswer(old(history), answer)
      ensures activeSubject == old(activeSubject)
    {
      if history != [] && history[|history| - 1].answer == None {
        var last := history[|history| - 1];
        history := history[|history| - 1 := Turn(last.question, Some(answer))];
      }
    }

    /** `set_active_subject` */
    method SetActiveSubject(subject: string)
      requires Valid()
      modifies this
      ensures Valid()
      ensures GetActiveSubject() == Some(subject)
      ensures history == old(history)
    {
      activeSubject := Some(subject);
    }

    /** `get_active_subject`: the subject last set, absent initially and
        after `clear_session`. */
    function GetActiveSubject(): (r: Option<string>)
      reads this
      ensures r == activeSubject
    {
      activeSubject
    }

    /** `clear_session` */
    method ClearSession()
      modifies this
      ensures Valid()
      ensures history == [] && GetActiveSubject() == None
      ensures GetPreviousQuestion() == None
    {
      history := [];
      activeSubject := None;
    }

    /** `get_context_summary`: the summary lines of the turns, newest first,
        joined by line breaks; empty for an empty history. */
    method GetContextSummary() returns (s: string)
      ensures s == Join(SummaryLines(Reverse(history)), "\n")
      ensures history == [] ==> s == ""
      ensures history != [] && LineFree(history) ==>
        SplitOn(s, '\n') == SummaryLines(Reverse(history))
    {
      if history == [] {
        return "";
      }
      var turns := Reverse(history);
      var lines: seq<string> := [];
      var i := 0;
      while i < |turns|
        invariant 0 <= i <= |turns|
        invariant lines == SummaryLines(turns[..i])
      {
        var t := turns[i];
        var position := i + 1;
        if Truthy(t.answer) {
          lines := lines + [QuestionLine(position, t)];
          lines := lines + [AnswerLine(position, t)];
        } else {
          lines := lines + [QuestionLine(position, t)];
        }
        SummaryLinesStep(turns, i);
        i := i + 1;
      }
      assert turns[..i] == turns;
      s := Join(lines, "\n");
      if LineFree(history) {
        SummaryLinesLineFree(turns);
        SplitOfJoin(lines, '\n');
      }
    }
  }
}
