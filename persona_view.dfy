/**
 * The persona's view of the transcript (`transcript_to_persona_prompt`): a
 * forward scan that starts collecting after the first record asking the
 * current question and stops at the next record asking anything else,
 * keeping the other personas' answers.
 *
 * The scan is specified by the window it reads (from the first matching
 * question to the round's end) and the filter it applies within it.
 */
module PersonaView {
  import opened Wrappers
  import opened Text
  import opened Transcript

  /** A "user" record whose content is the current question. */
  predicate Asks(r: Record, q: string) {
    r.role == User && r.content == Some(q)
  }

  /** A "user" record asking something other than the current question: the scan stops here. */
  predicate EndsRound(r: Record, q: string) {
    r.role == User && r.content != Some(q)
  }

  /** A named "assistant" record by someone other than `persona`. */
  predicate IsPeerAnswer(r: Record, persona: string) {
    r.role == Assistant && r.name.Some? && r.name.value != persona
  }

  /** The position of the first record asking `q`, if any. */
  function FirstAsk(t: seq<Record>, q: string): (a: Option<nat>)
    ensures a.Some? ==> a.value < |t| && Asks(t[a.value], q) && forall j :: 0 <= j < a.value ==> !Asks(t[j], q)
    ensures a.None? ==> forall j :: 0 <= j < |t| ==> !Asks(t[j], q)
  {
    if t == [] then None
    else if Asks(t[0], q) then Some(0)
    else match FirstAsk(t[1..], q)
      case None => None
      case Some(k) => Some(k + 1)
  }

  /** The first position at or after `from` where the round ends, or the transcript's end. */
  function RoundEnd(t: seq<Record>, q: string, from: nat): (e: nat)
    requires from <= |t|
    ensures from <= e <= |t|
    ensures forall j :: from <= j < e ==> !EndsRound(t[j], q)
    ensures e < |t| ==> EndsRound(t[e], q)
    decreases |t| - from
  {
    if from == |t| then from
    else if EndsRound(t[from], q) then from
    else RoundEnd(t, q, from + 1)
  }

  /** The records of `s` that are answers by someone other than `persona`, in order. */
  function PeerAnswers(s: seq<Record>, persona: string): (r: seq<Record>)
    ensures |r| <= |s|
    ensures forall i :: 0 <= i < |r| ==> IsPeerAnswer(r[i], persona)
  {
    if s == [] then []
    else PeerAnswers(s[..|s| - 1], persona) + (if IsPeerAnswer(s[|s| - 1], persona) then [s[|s| - 1]] else [])
  }

  /** Filtering only drops records. */
  lemma {:induction false} PeerAnswersFromSource(s: seq<Record>, persona: string)
    ensures forall x :: x in PeerAnswers(s, persona) ==> x in s
  {
    if s != [] {
      PeerAnswersFromSource(s[..|s| - 1], persona);
      forall x | x in s[..|s| - 1] ensures x in s {
        var k :| 0 <= k < |s| - 1 && s[..|s| - 1][k] == x;
        assert s[k] == x;
      }
    }
  }

  /** The records the persona is shown: peer answers strictly between the first ask and the round's end. */
  function Shown(t: seq<Record>, q: string, persona: string): (shown: seq<Record>)
    ensures |shown| <= |t|
    ensures forall i :: 0 <= i < |shown| ==> IsPeerAnswer(shown[i], persona)
    ensures FirstAsk(t, q).None? ==> shown == []
  {
    match FirstAsk(t, q)
    case None => []
    case Some(a) => PeerAnswers(t[a + 1..RoundEnd(t, q, a + 1)], persona)
  }

  /** `f"{name}: {content}"` for a shown answer. */
  function PeerLine(r: Record): string {
    (if r.name.Some? then r.name.value else "Unknown") + ": " + Content(r)
  }

  function PeerLines(rs: seq<Record>): (ls: seq<string>)
    ensures |ls| == |rs|
    ensures forall i :: 0 <= i < |rs| ==> ls[i] == PeerLine(rs[i])
  {
    if rs == [] then [] else PeerLines(rs[..|rs| - 1]) + [PeerLine(rs[|rs| - 1])]
  }

  /** Each collected line followed by a blank line, in order. */
  function Paragraphs(lines: seq<string>): string {
    if lines == [] then [] else Paragraphs(lines[..|lines| - 1]) + lines[|lines| - 1] + "\n\n"
  }

  const FirstToAnswer := "You are the first to answer this question. Please provide your perspective.\n"

  const ReactToOthers := "Please provide your answer, and feel free to react to what others have said after giving your own perspective.\n"

  predicate EndsWith(s: string, suffix: string) {
    |suffix| <= |s| && s[|s| - |suffix|..] == suffix
  }

  /** `s` followed by `suffix` ends with `suffix`. */
  lemma EndsWithAppend(s: string, suffix: string)
    ensures EndsWith(s + suffix, suffix)
  {
    assert (s + suffix)[|s|..] == suffix;
  }

  /** The user prompt, given the peer lines the scan collected. */
  function PersonaPromptText(name: string, description: string, topic: string, q: string, responses: seq<string>): (text: string)
    ensures responses == [] ==> EndsWith(text, FirstToAnswer)
    ensures responses != [] ==> EndsWith(text, ReactToOthers)
  {
    var opening := "You are " + name + ".\n" + "Persona details: " + description + "\n\n"
                   + "Interview topic: " + topic + "\n\n" + "Current question: " + q + "\n\n";
    if responses != [] then
      var shown := opening + "Other participants have already responded to this question:\n\n" + Paragraphs(responses);
      EndsWithAppend(shown, ReactToOthers);
      shown + ReactToOthers
    else
      EndsWithAppend(opening, FirstToAnswer);
      opening + FirstToAnswer
  }

  /**
   * The messages `transcript_to_persona_prompt` returns: the prompt closes with
   * the invitation to react when anything is shown, and with the "first to
   * answer" sentence otherwise.
   */
  function PersonaMessages(name: string, description: string, q: string, t: seq<Record>, topic: string): (msgs: seq<ChatMessage>)
    ensures |msgs| == 2 && msgs[0].role == "system" && msgs[1].role == "user"
    ensures Shown(t, q, name) == [] ==> EndsWith(msgs[1].content, FirstToAnswer)
    ensures Shown(t, q, name) != [] ==> EndsWith(msgs[1].content, ReactToOthers)
  {
    [ ChatMessage("system", "You are in a group interview."),
      ChatMessage("user", PersonaPromptText(name, description, topic, q, PeerLines(Shown(t, q, name)))) ]
  }

  /** `transcript_to_persona_prompt`: the collecting scan, then the prompt. */
  method TranscriptToPersonaPrompt(name: string, description: string, q: string, t: seq<Record>, topic: string)
    returns (messages: seq<ChatMessage>)
    ensures messages == PersonaMessages(name, description, q, t, topic)
  {
    var responses := CollectResponses(name, q, t);
    messages := [ ChatMessage("system", "You are in a group interview."),
                  ChatMessage("user", PersonaPromptText(name, description, topic, q, responses)) ];
  }

  /** The lines collected from the records strictly after `anchor` and before `i`. */
  function CollectedLines(t: seq<Record>, anchor: nat, i: nat, name: string): seq<string>
    requires anchor < i <= |t|
  {
    PeerLines(PeerAnswers(t[anchor + 1..i], name))
  }

  /** One more record scanned inside the window adds its line exactly when it is a peer answer. */
  lemma ScanStep(t: seq<Record>, anchor: nat, i: nat, name: string)
    requires anchor < i < |t|
    ensures CollectedLines(t, anchor, i + 1, name)
            == CollectedLines(t, anchor, i, name) + (if IsPeerAnswer(t[i], name) then [PeerLine(t[i])] else [])
  {
    var s := t[anchor + 1..i + 1];
    assert s[..|s| - 1] == t[anchor + 1..i];
    assert s[|s| - 1] == t[i];
    var before := PeerAnswers(t[anchor + 1..i], name);
    if IsPeerAnswer(t[i], name) {
      var after := before + [t[i]];
      assert PeerAnswers(s, name) == after;
      assert after[..|after| - 1] == before;
      assert PeerLines(after) == PeerLines(before) + [PeerLine(t[i])];
    } else {
      assert PeerAnswers(s, name) == before;
    }
  }

  /**
   * Where the scan stands after the first `i` records: before the first ask of
   * `q` it has collected nothing; after it (at `anchor`) and while the round
   * lasts, it holds the lines of the peer answers since the ask.
   */
  ghost predicate Scanned(t: seq<Record>, q: string, name: string, i: nat, collecting: bool, anchor: nat, responses: seq<string>) {
    i <= |t| &&
    if collecting then
      anchor < i && FirstAsk(t, q) == Some(anchor)
      && (forall j :: anchor < j < i ==> !EndsRound(t[j], q))
      && responses == CollectedLines(t, anchor, i, name)
    else
      responses == [] && forall j :: 0 <= j < i ==> !Asks(t[j], q)
  }

  /** A record asking `q` starts collecting at the first one, and is skipped afterwards. */
  lemma ScanAsk(t: seq<Record>, q: string, name: string, i: nat, collecting: bool, anchor: nat, responses: seq<string>)
    requires i < |t| && Asks(t[i], q)
    requires Scanned(t, q, name, i, collecting, anchor, responses)
    ensures Scanned(t, q, name, i + 1, true, if collecting then anchor else i, responses)
  {
    if collecting {
      ScanStep(t, anchor, i, name);
    } else {
      assert t[i + 1..i + 1] == [];
    }
  }

  /** Any other record inside the round is collected exactly when it is a peer answer. */
  lemma ScanOther(t: seq<Record>, q: string, name: string, i: nat, collecting: bool, anchor: nat, responses: seq<string>)
    requires i < |t| && !Asks(t[i], q)
    requires !(collecting && EndsRound(t[i], q))
    requires Scanned(t, q, name, i, collecting, anchor, responses)
    ensures Scanned(t, q, name, i + 1, collecting, anchor,
                    responses + if collecting && IsPeerAnswer(t[i], name) then [PeerLine(t[i])] else [])
  {
    if collecting {
      ScanStep(t, anchor, i, name);
    }
  }

  /** A scan that stops at the round's end, or runs off the transcript, has collected what is shown. */
  lemma ScanFinished(t: seq<Record>, q: string, name: string, i: nat, collecting: bool, anchor: nat, responses: seq<string>)
    requires Scanned(t, q, name, i, collecting, anchor, responses)
    requires i == |t| || (collecting && EndsRound(t[i], q))
    ensures responses == PeerLines(Shown(t, q, name))
  {
    if collecting {
      ShownWindow(t, q, name, anchor, i);
    }
  }

  /**
   * One pass of the scan's loop body over `t[i]`: a record asking `q` turns
   * collecting on (the `continue`), a peer answer is collected while
   * collecting, and a record asking anything else while collecting is the
   * `break`, reported as `stop`.
   */
  method ScanRecord(name: string, q: string, t: seq<Record>, i: nat, collecting: bool, ghost anchor: nat, responses: seq<string>)
    returns (collecting': bool, ghost anchor': nat, responses': seq<string>, stop: bool)
    requires i < |t|
    requires Scanned(t, q, name, i, collecting, anchor, responses)
    ensures stop ==> responses' == PeerLines(Shown(t, q, name))
    ensures !stop ==> Scanned(t, q, name, i + 1, collecting', anchor', responses')
  {
    var msg := t[i];
    collecting', anchor', responses', stop := collecting, anchor, responses, false;
    if msg.role == User && msg.content == Some(q) {
      ScanAsk(t, q, name, i, collecting, anchor, responses);
      if !collecting {
        anchor' := i;
      }
      collecting' := true;
      return;
    }
    if collecting && msg.role == User && msg.content != Some(q) {
      ScanFinished(t, q, name, i, collecting, anchor, responses);
      stop := true;
      return;
    }
    ScanOther(t, q, name, i, collecting, anchor, responses);
    if collecting && msg.role == Assistant && msg.name.Some? {
      if msg.name.value != name {
        responses' := responses + [PeerLine(msg)];
      }
    }
  }

  /** The scan with its `collecting` flag; the loop stops early at the end of the round. */
  method CollectResponses(name: string, q: string, t: seq<Record>) returns (responses: seq<string>)
    ensures responses == PeerLines(Shown(t, q, name))
  {
    responses := [];
    var collecting := false;
    ghost var anchor: nat := 0;
    var i := 0;
    while i < |t|
      invariant Scanned(t, q, name, i, collecting, anchor, responses)
      decreases |t| - i
    {
      var stop;
      collecting, anchor, responses, stop := ScanRecord(name, q, t, i, collecting, anchor, responses);
      if stop {
        return;
      }
      i := i + 1;
    }
    ScanFinished(t, q, name, i, collecting, anchor, responses);
  }

  // ---------- what the persona is shown ----------

  /** Own answers are never shown; everything shown is a named answer by another persona. */
  lemma OwnAnswersExcluded(t: seq<Record>, q: string, persona: string)
    ensures forall r :: r in Shown(t, q, persona) ==>
              r.role == Assistant && r.name.Some? && r.name.value != persona && r in t
  {
    match FirstAsk(t, q)
    case None =>
    case Some(a) =>
      var window := t[a + 1..RoundEnd(t, q, a + 1)];
      PeerAnswersFromSource(window, persona);
      forall r | r in Shown(t, q, persona) ensures r in t {
        var k :| 0 <= k < |window| && window[k] == r;
        assert t[a + 1 + k] == r;
      }
  }

  /**
   * Exactly the peer answers after the first record asking `q` and before the
   * next record asking anything else are shown, in order.
   */
  lemma ShownWindow(t: seq<Record>, q: string, persona: string, a: nat, e: nat)
    requires a < e <= |t| && Asks(t[a], q)
    requires forall j :: 0 <= j < a ==> !Asks(t[j], q)
    requires forall j :: a < j < e ==> !EndsRound(t[j], q)
    requires e < |t| ==> EndsRound(t[e], q)
    ensures Shown(t, q, persona) == PeerAnswers(t[a + 1..e], persona)
  {
    FirstAskAt(t, q, a);
    RoundEndAt(t, q, a + 1, e);
  }

  /** The first ask is the ask that no earlier record matches. */
  lemma {:induction false} FirstAskAt(t: seq<Record>, q: string, a: nat)
    requires a < |t| && Asks(t[a], q)
    requires forall j :: 0 <= j < a ==> !Asks(t[j], q)
    ensures FirstAsk(t, q) == Some(a)
  {
    if a > 0 {
      assert !Asks(t[0], q);
      forall j | 0 <= j < a - 1 ensures !Asks(t[1..][j], q) {
        assert t[1..][j] == t[j + 1];
      }
      FirstAskAt(t[1..], q, a - 1);
    }
  }

  /** The round's end is the first position at or after `from` where a round-ending record (or the end) is. */
  lemma {:induction false} RoundEndAt(t: seq<Record>, q: string, from: nat, e: nat)
    requires from <= e <= |t|
    requires forall j :: from <= j < e ==> !EndsRound(t[j], q)
    requires e < |t| ==> EndsRound(t[e], q)
    ensures RoundEnd(t, q, from) == e
    decreases e - from
  {
    if from < e {
      RoundEndAt(t, q, from + 1, e);
    }
  }

  /** Without a record asking `q`, nothing is shown and the persona is told it answers first. */
  lemma NoQuestionNoPeers(name: string, description: string, q: string, t: seq<Record>, topic: string)
    requires forall j :: 0 <= j < |t| ==> !Asks(t[j], q)
    ensures Shown(t, q, name) == []
    ensures var text := PersonaMessages(name, description, q, t, topic)[1].content;
            |FirstToAnswer| <= |text| && text[|text| - |FirstToAnswer|..] == FirstToAnswer
  {
  }

  /** The "first to answer" wording is used exactly when nothing is shown. */
  lemma FirstToAnswerIff(name: string, description: string, q: string, t: seq<Record>, topic: string)
    ensures (PersonaMessages(name, description, q, t, topic)[1].content
             == PersonaPromptText(name, description, topic, q, [])) <==> Shown(t, q, name) == []
  {
  }

  /**
   * The scan anchors on the first record asking `q`: once that round has been
   * closed by a different question, later records, including a later round
   * re-asking `q`, never change what is shown.
   */
  lemma ClosedRoundIsFinal(t: seq<Record>, more: seq<Record>, q: string, persona: string, a: nat, c: nat)
    requires a < c < |t| && Asks(t[a], q) && EndsRound(t[c], q)
    ensures Shown(t + more, q, persona) == Shown(t, q, persona)
  {
    var u := t + more;
    assert FirstAsk(t, q).Some?;
    var f := FirstAsk(t, q).value;
    var e := RoundEnd(t, q, f + 1);
    assert e <= c;
    ShownWindow(t, q, persona, f, e);
    assert u[f + 1..e] == t[f + 1..e];
    ShownWindow(u, q, persona, f, e);
  }

  /** Every record of `s` is a peer answer: the filter keeps them all. */
  lemma {:induction false} AllPeerAnswers(s: seq<Record>, persona: string)
    requires forall i :: 0 <= i < |s| ==> IsPeerAnswer(s[i], persona)
    ensures PeerAnswers(s, persona) == s
  {
    if s != [] {
      AllPeerAnswers(s[..|s| - 1], persona);
      assert s[..|s| - 1] + [s[|s| - 1]] == s;
    }
  }

  /**
   * A question never asked before, followed by answers: the persona is shown
   * exactly the answers by others given since the question.
   */
  lemma FreshQuestionView(t: seq<Record>, q: string, rs: seq<Record>, persona: string)
    requires forall j :: 0 <= j < |t| ==> !Asks(t[j], q)
    requires forall j :: 0 <= j < |rs| ==> rs[j].role == Assistant
    ensures Shown(t + [Question(q)] + rs, q, persona) == PeerAnswers(rs, persona)
  {
    var u := t + [Question(q)] + rs;
    AppendedQuestion(t, q, rs);
    ShownWindow(u, q, persona, |t|, |u|);
  }

  /** Right after a fresh question, a persona is shown every answer given since, when all of them are by its peers. */
  lemma FreshRoundShown(t: seq<Record>, q: string, rs: seq<Record>, persona: string)
    requires forall j :: 0 <= j < |t| ==> !Asks(t[j], q)
    requires forall j :: 0 <= j < |rs| ==> IsPeerAnswer(rs[j], persona)
    ensures Shown(t + [Question(q)] + rs, q, persona) == rs
  {
    FreshQuestionView(t, q, rs, persona);
    AllPeerAnswers(rs, persona);
  }

  /** In `t + [Question(q)] + rs`, the appended question is the first ask of `q` and no answer after it ends the round. */
  lemma AppendedQuestion(t: seq<Record>, q: string, rs: seq<Record>)
    requires forall j :: 0 <= j < |t| ==> !Asks(t[j], q)
    requires forall j :: 0 <= j < |rs| ==> rs[j].role == Assistant
    ensures var u := t + [Question(q)] + rs;
            Asks(u[|t|], q)
            && (forall j :: 0 <= j < |t| ==> !Asks(u[j], q))
            && (forall j :: |t| < j < |u| ==> !EndsRound(u[j], q))
            && u[|t| + 1..|u|] == rs
  {
    var u := t + [Question(q)] + rs;
    forall j | 0 <= j < |t| ensures !Asks(u[j], q) {
      assert u[j] == t[j];
    }
    forall j | |t| < j < |u| ensures !EndsRound(u[j], q) {
      assert u[j] == rs[j - |t| - 1];
    }
    assert u[|t| + 1..|u|] == rs;
  }


  /** Filtering distributes over concatenation. */
  lemma {:induction false} PeerAnswersAppend(s1: seq<Record>, s2: seq<Record>, persona: string)
    ensures PeerAnswers(s1 + s2, persona) == PeerAnswers(s1, persona) + PeerAnswers(s2, persona)
    decreases |s2|
  {
    if s2 != [] {
      var n := |s2| - 1;
      PeerAnswersAppend(s1, s2[..n], persona);
      assert (s1 + s2)[..|s1 + s2| - 1] == s1 + s2[..n];
    } else {
      assert s1 + s2 == s1;
    }
  }

  /** A question record is never collected: the filter skips it. */
  lemma SkipQuestion(rs1: seq<Record>, q: string, rs2: seq<Record>, persona: string)
    ensures PeerAnswers(rs1 + [Question(q)] + rs2, persona) == PeerAnswers(rs1 + rs2, persona)
  {
    var s := rs1 + [Question(q)];
    assert s[..|s| - 1] == rs1;
    assert PeerAnswers(s, persona) == PeerAnswers(rs1, persona);
    PeerAnswersAppend(s, rs2, persona);
    PeerAnswersAppend(rs1, rs2, persona);
  }

  /** A first ask of `q` followed by records none of which ends the round: all of them are scanned. */
  lemma OpenRoundView(pre: seq<Record>, q: string, w: seq<Record>, persona: string)
    requires forall j :: 0 <= j < |pre| ==> !Asks(pre[j], q)
    requires forall j :: 0 <= j < |w| ==> !EndsRound(w[j], q)
    ensures Shown(pre + [Question(q)] + w, q, persona) == PeerAnswers(w, persona)
  {
    var u := pre + [Question(q)] + w;
    forall j | 0 <= j < |pre| ensures !Asks(u[j], q) {
      assert u[j] == pre[j];
    }
    forall j | |pre| < j < |u| ensures !EndsRound(u[j], q) {
      assert u[j] == w[j - |pre| - 1];
    }
    assert u[|pre| + 1..|u|] == w;
    ShownWindow(u, q, persona, |pre|, |u|);
  }

  /**
   * A record asking the current question again, inside the round, does not
   * stop the scan: the persona is shown the peer answers given after both asks.
   */
  lemma RepeatedQuestionKeepsCollecting(pre: seq<Record>, q: string, rs1: seq<Record>, rs2: seq<Record>, persona: string)
    requires forall j :: 0 <= j < |pre| ==> !Asks(pre[j], q)
    requires forall j :: 0 <= j < |rs1| ==> rs1[j].role == Assistant
    requires forall j :: 0 <= j < |rs2| ==> rs2[j].role == Assistant
    ensures Shown(pre + [Question(q)] + rs1 + [Question(q)] + rs2, q, persona) == PeerAnswers(rs1 + rs2, persona)
  {
    var w := rs1 + [Question(q)] + rs2;
    forall j | 0 <= j < |w| ensures !EndsRound(w[j], q) {
      if j < |rs1| { assert w[j] == rs1[j]; }
      else if j > |rs1| { assert w[j] == rs2[j - |rs1| - 1]; }
    }
    OpenRoundView(pre, q, w, persona);
    assert pre + [Question(q)] + rs1 + [Question(q)] + rs2 == pre + [Question(q)] + w;
    SkipQuestion(rs1, q, rs2, persona);
  }
}
