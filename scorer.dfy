/** The evidence serialiser of the sufficiency scorer: the text the scorer's
    model reads is a fixed three-line header followed by the grounded
    sentences, numbered from 1 in their original order. */
module Sufficiency {
  import opened PyStr

  /** `Question: {question}`, `Intent: {intent}` and `Evidence:`. */
  function Header(question: string, intent: string): seq<string>
  {
    ["Question: " + question, "Intent: " + intent, "Evidence:"]
  }

  /** `{i}. {s}` */
  function EvidenceLine(i: nat, s: string): string
  {
    NatToString(i) + ". " + s
  }

  /** The numbered evidence lines, the first sentence numbered 1. */
  function EvidenceLines(sentences: seq<string>): seq<string>
  {
    seq(|sentences|, k requires 0 <= k < |sentences| => EvidenceLine(k + 1, sentences[k]))
  }

  /** The lines `_format_input` joins. */
  function InputLines(question: string, sentences: seq<string>, intent: string): seq<string>
  {
    Header(question, intent) + EvidenceLines(sentences)
  }

  /** `_format_input`: the header, then one numbered line per sentence,
      joined by line breaks. */
  method FormatInput(question: string, sentences: seq<string>, intent: string) returns (text: string)
    ensures text == Join(InputLines(question, sentences, intent), "\n")
  {
    var lines := ["Question: " + question, "Intent: " + intent, "Evidence:"];
    var i := 1;
    while i <= |sentences|
      invariant 1 <= i <= |sentences| + 1
      invariant lines == Header(question, intent) + EvidenceLines(sentences[..i - 1])
    {
      assert EvidenceLines(sentences[..i]) == EvidenceLines(sentences[..i - 1]) + [EvidenceLine(i, sentences[i - 1])];
      lines := lines + [EvidenceLine(i, sentences[i - 1])];
      i := i + 1;
    }
    assert sentences[..i - 1] == sentences;
    text := Join(lines, "\n");
  }

  /** The text starts with the three header lines; with no sentences it is
      exactly those lines, and otherwise a line break and the numbered
      evidence follow them. */
  lemma {:induction false} FormatInputHeader(question: string, sentences: seq<string>, intent: string)
    ensures var text := Join(InputLines(question, sentences, intent), "\n");
      var header := "Question: " + question + "\n" + "Intent: " + intent + "\n" + "Evidence:";
      (sentences == [] ==> text == header)
      && (sentences != [] ==> text == header + "\n" + Join(EvidenceLines(sentences), "\n"))
  {
    var h := Header(question, intent);
    assert Join(h, "\n") == "Question: " + question + "\n" + "Intent: " + intent + "\n" + "Evidence:" by {
      var tail := ["Intent: " + intent, "Evidence:"];
      assert h[1..] == tail;
      assert tail[1..] == ["Evidence:"];
      assert Join(tail, "\n") == "Intent: " + intent + "\n" + "Evidence:";
    }
    if sentences == [] {
      assert InputLines(question, sentences, intent) == h;
    } else {
      JoinConcat(h, EvidenceLines(sentences), "\n");
    }
  }

  /** No question, intent or sentence contains a line break. */
  predicate LineFree(question: string, sentences: seq<string>, intent: string)
  {
    '\n' !in question && '\n' !in intent && forall k :: 0 <= k < |sentences| ==> '\n' !in sentences[k]
  }

  /** Without line breaks in the inputs the text has exactly three lines more
      than there are sentences: the header lines first, and line `3 + i`
      (counting from 1) is sentence `i` numbered `i`. */
  lemma {:induction false} FormatInputLines(question: string, sentences: seq<string>, intent: string)
    requires LineFree(question, sentences, intent)
    ensures var lines := SplitOn(Join(InputLines(question, sentences, intent), "\n"), '\n');
      |lines| == 3 + |sentences|
      && lines[0] == "Question: " + question
      && lines[1] == "Intent: " + intent
      && lines[2] == "Evidence:"
      && forall i :: 1 <= i <= |sentences| ==> lines[2 + i] == NatToString(i) + ". " + sentences[i - 1]
  {
    var lines := InputLines(question, sentences, intent);
    forall k | 0 <= k < |lines| ensures '\n' !in lines[k] {
      if k >= 3 {
        NatToStringHasNoNewline(k - 2);
        assert lines[k] == NatToString(k - 2) + ". " + sentences[k - 3];
      }
    }
    SplitOfJoin(lines, '\n');
  }
}
