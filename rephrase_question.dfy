/**
 * The history formatter of the rephrase chain: before the prompt is filled,
 * the conversation history (rows of getHistory) is replaced by a plain-text
 * transcript, `Human: <input>` and `AI: <output>` per turn.
 */
module RephraseQuestion {
  import opened History

  /** What the rephrase chain is invoked with. */
  datatype RephraseInput = RephraseInput(input: string, history: seq<ChatbotResponse>)

  /** The variables the prompt template is filled with. */
  datatype PromptVariables = PromptVariables(input: string, history: string)

  /** What an empty history renders as. */
  const NoHistory: string := "No history"

  /** One turn of the transcript. */
  function RenderTurn(response: ChatbotResponse): string
  {
    "Human: " + response.input + "\nAI: " + response.output
  }

  /** `Array.prototype.join(sep)`: the parts with sep between neighbours, "" for no parts. */
  function Join(parts: seq<string>, sep: string): string
  {
    if |parts| == 0 then ""
    else if |parts| == 1 then parts[0]
    else Join(parts[..|parts| - 1], sep) + sep + parts[|parts| - 1]
  }

  /** The rendered turns, in history order (`history.map(...)`). */
  function RenderAll(history: seq<ChatbotResponse>): (lines: seq<string>)
    ensures |lines| == |history|
    ensures forall i | 0 <= i < |history| :: lines[i] == RenderTurn(history[i])
  {
    if |history| == 0 then [] else RenderAll(history[..|history| - 1]) + [RenderTurn(history[|history| - 1])]
  }

  /**
   * The `history` value the prompt receives: for a non-empty history, the
   * rendered turns and one separator between each two, nothing more.
   */
  function Transcript(history: seq<ChatbotResponse>): (t: string)
    ensures |history| > 0 ==> |t| == TotalLength(RenderAll(history)) + |history| - 1
  {
    if |history| == 0 then NoHistory
    else
      var lines := RenderAll(history);
      JoinLength(lines, "\n");
      Join(lines, "\n")
  }

  /** The passthrough step: only `history` is replaced; `input` reaches the prompt unchanged. */
  function PrepareInputs(x: RephraseInput): (p: PromptVariables)
    ensures p.input == x.input
    ensures p.history == Transcript(x.history)
  {
    PromptVariables(x.input, Transcript(x.history))
  }

  /** An empty history renders as "No history". */
  lemma EmptyHistory()
    ensures Transcript([]) == "No history"
  {
  }

  /** A single turn renders as `Human: <input>\nAI: <output>`, with nothing around it. */
  lemma SingleTurn(response: ChatbotResponse)
    ensures Transcript([response]) == "Human: " + response.input + "\nAI: " + response.output
  {
  }

  /** Appending a turn to a non-empty history appends one "\n" and that turn's rendering. */
  lemma TranscriptSnoc(history: seq<ChatbotResponse>, response: ChatbotResponse)
    requires |history| > 0
    ensures Transcript(history + [response]) == Transcript(history) + "\n" + RenderTurn(response)
  {
    var h := history + [response];
    assert RenderAll(h)[..|h| - 1] == RenderAll(history);
  }

  /** A non-empty transcript starts with the first turn's rendering and ends with the last turn's. */
  lemma {:induction false} TranscriptEnds(history: seq<ChatbotResponse>)
    requires |history| > 0
    ensures var t := Transcript(history); var first := RenderTurn(history[0]); var last := RenderTurn(history[|history| - 1]);
      && |first| <= |t| && t[..|first|] == first
      && |last| <= |t| && t[|t| - |last|..] == last
  {
    var t := Transcript(history);
    var first := RenderTurn(history[0]);
    if |history| > 1 {
      var init := history[..|history| - 1];
      TranscriptEnds(init);
      TranscriptSnoc(init, history[|history| - 1]);
      assert history == init + [history[|history| - 1]];
      var t0 := Transcript(init);
      assert t == t0 + "\n" + RenderTurn(history[|history| - 1]);
      assert init[0] == history[0];
      assert t[..|first|] == t0[..|first|];
    }
  }

  /** Only a turn's input and output are read: histories that agree on them render alike. */
  lemma {:induction false} OnlyInputAndOutputRead(h1: seq<ChatbotResponse>, h2: seq<ChatbotResponse>)
    requires |h1| == |h2|
    requires forall i | 0 <= i < |h1| :: h1[i].input == h2[i].input && h1[i].output == h2[i].output
    ensures Transcript(h1) == Transcript(h2)
  {
    assert RenderAll(h1) == RenderAll(h2);
  }

  /**
   * Turns are separated by exactly one separator and nothing else is added:
   * a join of n > 0 parts is as long as the parts together plus n - 1 separators.
   */
  lemma {:induction false} JoinLength(parts: seq<string>, sep: string)
    requires |parts| > 0
    ensures |Join(parts, sep)| == TotalLength(parts) + |sep| * (|parts| - 1)
  {
    var n := |parts|;
    if n > 1 {
      var init := parts[..n - 1];
      JoinLength(init, sep);
      assert Join(parts, sep) == Join(init, sep) + sep + parts[n - 1];
      assert TotalLength(parts) == TotalLength(init) + |parts[n - 1]|;
      assert |sep| * (n - 1) == |sep| * (n - 2) + |sep|;
    }
  }

  /** Where the i-th part starts in a join: after the parts before it and one separator per part. */
  function Offset(parts: seq<string>, sep: string, i: nat): nat
    requires i <= |parts|
  {
    TotalLength(parts[..i]) + |sep| * i
  }

  /** Each part starts one part and one separator after the one before it. */
  lemma OffsetStep(parts: seq<string>, sep: string, i: nat)
    requires i < |parts|
    ensures Offset(parts, sep, i + 1) == Offset(parts, sep, i) + |parts[i]| + |sep|
  {
    assert parts[..i + 1][..i] == parts[..i];
  }

  /** Offsets depend only on the parts before them. */
  lemma OffsetPrefix(parts: seq<string>, sep: string, k: nat, i: nat)
    requires i <= k <= |parts|
    ensures Offset(parts[..k], sep, i) == Offset(parts, sep, i)
  {
    assert parts[..k][..i] == parts[..i];
  }

  /** Slicing a concatenation inside its left operand slices the left operand. */
  lemma SliceLeft(x: string, y: string, lo: nat, hi: nat)
    requires lo <= hi <= |x|
    ensures (x + y)[lo..hi] == x[lo..hi]
  {
  }

  /** A join of several parts: the join of all but the last, a separator, the last part. */
  lemma JoinSnoc(parts: seq<string>, sep: string)
    requires |parts| > 1
    ensures Join(parts, sep) == Join(parts[..|parts| - 1], sep) + (sep + parts[|parts| - 1])
  {
    var n := |parts|;
    AppendAssoc(Join(parts[..n - 1], sep), sep, parts[n - 1]);
  }

  /** The last part of a join of several starts one separator after the join of the others. */
  lemma OffsetLast(parts: seq<string>, sep: string)
    requires |parts| > 1
    ensures Offset(parts, sep, |parts| - 1) == |Join(parts[..|parts| - 1], sep)| + |sep|
  {
    var n := |parts|;
    JoinLength(parts[..n - 1], sep);
    assert |sep| * (n - 1) == |sep| * (n - 2) + |sep|;
  }

  /** The i-th part of a join sits at `Offset(parts, sep, i)`. */
  lemma {:induction false} JoinPart(parts: seq<string>, sep: string, i: nat)
    requires i < |parts|
    ensures Offset(parts, sep, i) + |parts[i]| <= |Join(parts, sep)|
    ensures Join(parts, sep)[Offset(parts, sep, i)..Offset(parts, sep, i) + |parts[i]|] == parts[i]
  {
    var n := |parts|;
    if n > 1 {
      var init, j0 := parts[..n - 1], Join(parts[..n - 1], sep);
      JoinSnoc(parts, sep);
      OffsetLast(parts, sep);
      if i < n - 1 {
        JoinPart(init, sep, i);
        OffsetPrefix(parts, sep, n - 1, i);
        SliceLeft(j0, sep + parts[n - 1], Offset(parts, sep, i), Offset(parts, sep, i) + |parts[i]|);
      }
    }
  }

  /** Each part after the first is preceded by exactly one separator, right after the part before it. */
  lemma {:induction false} JoinSeparator(parts: seq<string>, sep: string, i: nat)
    requires 0 < i < |parts|
    ensures Offset(parts, sep, i) == Offset(parts, sep, i - 1) + |parts[i - 1]| + |sep|
    ensures Offset(parts, sep, i) <= |Join(parts, sep)|
    ensures Join(parts, sep)[Offset(parts, sep, i) - |sep|..Offset(parts, sep, i)] == sep
  {
    var n := |parts|;
    var init, j0 := parts[..n - 1], Join(parts[..n - 1], sep);
    OffsetStep(parts, sep, i - 1);
    JoinPart(parts, sep, i);
    JoinSnoc(parts, sep);
    OffsetLast(parts, sep);
    if i < n - 1 {
      JoinSeparator(init, sep, i);
      JoinPart(init, sep, i);
      OffsetPrefix(parts, sep, n - 1, i);
      SliceLeft(j0, sep + parts[n - 1], Offset(parts, sep, i) - |sep|, Offset(parts, sep, i));
    } else {
      assert (j0 + (sep + parts[n - 1]))[|j0|..|j0| + |sep|] == sep;
    }
  }

  /**
   * The layout of a join: every part at its offset, in order, and exactly
   * one separator before each part but the first. With `JoinLength` this
   * fixes every character of the result.
   */
  lemma JoinLayout(parts: seq<string>, sep: string)
    requires |parts| > 0
    ensures forall i | 0 <= i < |parts| ::
      Offset(parts, sep, i) + |parts[i]| <= |Join(parts, sep)|
      && Join(parts, sep)[Offset(parts, sep, i)..Offset(parts, sep, i) + |parts[i]|] == parts[i]
    ensures forall i | 0 < i < |parts| ::
      Offset(parts, sep, i) == Offset(parts, sep, i - 1) + |parts[i - 1]| + |sep|
      && Join(parts, sep)[Offset(parts, sep, i) - |sep|..Offset(parts, sep, i)] == sep
  {
    forall i | 0 <= i < |parts| {
      JoinPart(parts, sep, i);
    }
    forall i | 0 < i < |parts| {
      JoinSeparator(parts, sep, i);
    }
  }

  /** The summed lengths of some strings. */
  function TotalLength(parts: seq<string>): nat
  {
    if |parts| == 0 then 0 else TotalLength(parts[..|parts| - 1]) + |parts[|parts| - 1]|
  }

  /** The transcript is "No history" exactly when the history is empty. */
  lemma NoHistoryOnlyWhenEmpty(history: seq<ChatbotResponse>)
    ensures Transcript(history) == NoHistory <==> |history| == 0
  {
    if |history| > 0 {
      TranscriptEnds(history);
      var t := Transcript(history);
      assert t[0] == 'H' && NoHistory[0] == 'N';
    }
  }
}
