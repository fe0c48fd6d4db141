/**
 * The views of the transcript that are rendered for the facilitator and for
 * the summariser: a bounded window of recent records, and the full transcript
 * as one document. Both are pure.
 */
module Prompts {
  import opened Wrappers
  import opened Text
  import opened Transcript

  /** Records rendered one after the other by `line`. */
  function RenderEach(line: Record -> string, rs: seq<Record>): string {
    if rs == [] then "" else RenderEach(line, rs[..|rs| - 1]) + line(rs[|rs| - 1])
  }

  /** Rendering distributes over concatenation: every record keeps its place. */
  lemma {:induction false} RenderEachAppend(line: Record -> string, a: seq<Record>, b: seq<Record>)
    ensures RenderEach(line, a + b) == RenderEach(line, a) + RenderEach(line, b)
    decreases |b|
  {
    if b == [] {
      assert a + b == a;
    } else {
      assert (a + b)[..|a + b| - 1] == a + b[..|b| - 1];
      RenderEachAppend(line, a, b[..|b| - 1]);
    }
  }

  /** The line of each record, position by position. */
  function Lines(line: Record -> string, rs: seq<Record>): seq<string> {
    seq(|rs|, i requires 0 <= i < |rs| => line(rs[i]))
  }

  /** Rendering record by record is the concatenation of the records' lines, in order. */
  lemma {:induction false} RenderEachConcat(line: Record -> string, rs: seq<Record>)
    ensures RenderEach(line, rs) == Concat(Lines(line, rs))
    decreases |rs|
  {
    if rs != [] {
      var n := |rs| - 1;
      RenderEachConcat(line, rs[..n]);
      assert Lines(line, rs)[..n] == Lines(line, rs[..n]);
    }
  }

  // ---------- facilitator view ----------

  /** How many recent records the facilitator is shown. */
  const WindowSize: nat := 20

  /** The most recent records, at most `WindowSize` of them, in their original order. */
  function RecentWindow(t: seq<Record>): (w: seq<Record>)
    ensures |w| == if |t| < WindowSize then |t| else WindowSize
    ensures w == t[|t| - |w|..]
  {
    if |t| > WindowSize then t[|t| - WindowSize..] else t
  }

  /** How one record reads in the facilitator's "Recent conversation". */
  function FacilitatorLine(r: Record): string {
    match r.role
    case User => "\nFacilitator: " + Content(r) + "\n"
    case Assistant => Speaker(r) + ": " + Content(r) + "\n"
    case OtherRole => ""
  }

  /** A Python list of strings as `str(list)` shows it (quotes only; escapes are not modelled). */
  function ListText(xs: seq<string>): string {
    "[" + Join(", ", seq(|xs|, i requires 0 <= i < |xs| => "'" + xs[i] + "'")) + "]"
  }

  function FacilitatorHeader(topic: string, coreQuestions: seq<string>, asked: seq<string>): string {
    "You are facilitating an interview about the following idea:\n" + topic + "\n\n"
    + "Questions to ask:\n- Core questions: " + ListText(coreQuestions) + "\n- Already asked: " + ListText(asked) + "\n\n"
    + "Recent conversation:\n"
  }

  const FacilitatorFooter := "\nDecide on the next question to ask or if the interview should end."

  /**
   * `transcript_to_facilitator_prompt`: the facilitator sees the header, then
   * one line for each of the last min(20, |t|) records in order, then the footer.
   */
  function FacilitatorMessages(topic: string, t: seq<Record>, coreQuestions: seq<string>, asked: seq<string>): (msgs: seq<ChatMessage>)
    ensures |msgs| == 2 && msgs[0].role == "system" && msgs[1].role == "user"
    ensures var k := if |t| < WindowSize then |t| else WindowSize;
            msgs[1].content
            == FacilitatorHeader(topic, coreQuestions, asked)
               + Concat(Lines(FacilitatorLine, t[|t| - k..]))
               + FacilitatorFooter
  {
    var w := RecentWindow(t);
    assert w == t[|t| - |w|..];
    RenderEachConcat(FacilitatorLine, w);
    [ ChatMessage("system", "You are a facilitator conducting an interview."),
      ChatMessage("user", FacilitatorHeader(topic, coreQuestions, asked)
                          + RenderEach(FacilitatorLine, w) + FacilitatorFooter) ]
  }

  /** Records older than the window do not reach the facilitator. */
  lemma {:induction false} OlderRecordsHidden(topic: string, older: seq<Record>, recent: seq<Record>, coreQuestions: seq<string>, asked: seq<string>)
    requires |recent| >= WindowSize
    ensures FacilitatorMessages(topic, older + recent, coreQuestions, asked)
            == FacilitatorMessages(topic, recent, coreQuestions, asked)
  {
    var t := older + recent;
    assert RecentWindow(t) == RecentWindow(recent) by {
      assert t[|t| - WindowSize..] == recent[|recent| - WindowSize..];
    }
  }

  /** Once the window is full, one more record pushes the oldest shown one out. */
  lemma {:induction false} WindowSlides(t: seq<Record>, r: Record)
    requires |t| >= WindowSize
    ensures RecentWindow(t + [r]) == RecentWindow(t)[1..] + [r]
  {
    var u := t + [r];
    assert u[|u| - WindowSize..] == t[|t| - WindowSize + 1..] + [r];
  }

  // ---------- full transcript for the summariser ----------

  /** How one record reads in the document given to the summariser. */
  function DocumentLine(r: Record): string {
    match r.role
    case User => "Facilitator: " + Content(r) + "\n\n"
    case Assistant => Speaker(r) + ": " + Content(r) + "\n\n"
    case OtherRole => ""
  }

  function TranscriptDocument(t: seq<Record>): string {
    "Interview Transcript:\n\n" + RenderEach(DocumentLine, t)
  }

  /** `transcript_to_string_message`: the header, then one paragraph per record, in order. */
  function StringMessages(topic: string, t: seq<Record>): (msgs: seq<ChatMessage>)
    ensures |msgs| == 2 && msgs[0].role == "system" && msgs[1].role == "user"
    ensures msgs[1].content == "Interview Transcript:\n\n" + Concat(Lines(DocumentLine, t))
  {
    RenderEachConcat(DocumentLine, t);
    [ ChatMessage("system", "Analyze this interview transcript about: " + topic),
      ChatMessage("user", TranscriptDocument(t)) ]
  }

  /** The document grows by exactly one line per appended record, at the end: chronological order is kept. */
  lemma DocumentExtends(t: seq<Record>, r: Record)
    ensures TranscriptDocument(t + [r]) == TranscriptDocument(t) + DocumentLine(r)
  {
    RenderEachAppend(DocumentLine, t, [r]);
    assert [r][..0] == [];
  }

  /** A question followed by its answers reads as the facilitator's line and then one named line per answer. */
  lemma DocumentOfRound(q: string, names: seq<string>, answers: seq<string>)
    requires |names| == |answers|
    requires forall i :: 0 <= i < |names| ==> names[i] != ""
    ensures RenderEach(DocumentLine, [Question(q)] + AnswerRecords(names, answers))
            == "Facilitator: " + q + "\n\n" + Concat(seq(|names|, i requires 0 <= i < |names| => names[i] + ": " + answers[i] + "\n\n"))
  {
    RenderEachAppend(DocumentLine, [Question(q)], AnswerRecords(names, answers));
    assert [Question(q)][..0] == [];
    AnswerLines(names, answers);
  }

  /** The answers of a round read as one "name: answer" paragraph each, in order. */
  lemma {:induction false} AnswerLines(names: seq<string>, answers: seq<string>)
    requires |names| == |answers|
    requires forall i :: 0 <= i < |names| ==> names[i] != ""
    ensures RenderEach(DocumentLine, AnswerRecords(names, answers))
            == Concat(seq(|names|, i requires 0 <= i < |names| => names[i] + ": " + answers[i] + "\n\n"))
    decreases |names|
  {
    if names != [] {
      var n := |names| - 1;
      var lines := seq(|names|, i requires 0 <= i < |names| => names[i] + ": " + answers[i] + "\n\n");
      var rs := AnswerRecords(names, answers);
      AnswerLines(names[..n], answers[..n]);
      assert rs[..n] == AnswerRecords(names[..n], answers[..n]);
      assert lines[..n] == seq(n, i requires 0 <= i < n => names[..n][i] + ": " + answers[..n][i] + "\n\n");
      assert DocumentLine(rs[n]) == lines[n];
    }
  }

  /** The answer records of one round, as the interview loop appends them. */
  function AnswerRecords(names: seq<string>, answers: seq<string>): seq<Record>
    requires |names| == |answers|
  {
    seq(|names|, i requires 0 <= i < |names| => Answer(names[i], answers[i]))
  }
}
