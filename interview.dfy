/**
 * The interview loop (`run_interview`). The facilitator and the personas are
 * oracles: a facilitator decision is a function of the facilitator agent and
 * the messages it is sent, a persona's answer a function of the persona agent
 * and its messages, and likewise for the two analysis agents.
 *
 * The loop is proved equal to `Conduct`, a tail-recursive definition of the
 * same state machine; the shape of the transcript, the follow-up count and the
 * stop rule are proved about `Conduct`.
 */
module Interview {
  import opened Wrappers
  import opened Text
  import opened Transcript
  import opened Personas
  import opened Prompts
  import opened PersonaView
  import opened Sentiment

  // ---------- participants ----------

  /** The facilitator's structured output. */
  datatype FacilitatorOutput = FacilitatorOutput(nextQuestion: string, shouldEnd: bool)

  datatype SummaryReport = SummaryReport(marketPerspective: string, goOrNoGo: string, rationale: seq<string>)

  datatype PersonaSentiment = PersonaSentiment(name: string, sentiment: string, keyPoints: seq<string>, summary: string)

  datatype SentimentAnalysis = SentimentAnalysis(personas: seq<PersonaSentiment>)

  /** What the facilitator agent is built from. */
  datatype FacilitatorAgent = FacilitatorAgent(topic: string, coreQuestions: seq<string>, maxFollowups: int)

  /** What a persona agent is built from: its name, description and the list of the other panelists. */
  datatype PersonaAgent = PersonaAgent(name: string, description: string, panelContext: string)

  /** The generation backend: one answer per agent and request. */
  datatype Backend = Backend(
    facilitator: (FacilitatorAgent, seq<ChatMessage>) -> FacilitatorOutput,
    persona: (PersonaAgent, seq<ChatMessage>) -> string,
    sentiment: seq<ChatMessage> -> SentimentAnalysis,
    summarizer: seq<ChatMessage> -> SummaryReport)

  /** The inputs of one interview. */
  datatype Panel = Panel(topic: string, roster: seq<Persona>, coreQuestions: seq<string>, maxFollowups: int)

  /** The loop's state: the transcript, the questions asked and the follow-ups used. */
  datatype Session = Session(transcript: seq<Record>, asked: seq<string>, followupsUsed: int)

  /** What `run_interview` returns, without the path of the saved transcript file. */
  datatype InterviewResult = InterviewResult(topic: string, report: SummaryReport, sentiment: SentimentAnalysis)

  // ---------- panel context and styles ----------

  /** The bullet line that introduces a panelist. */
  function PanelistLine(q: Persona): string {
    "\U{2022} " + q.name + ": " + q.description
  }

  /** One bullet per other panelist, in roster order. */
  function OtherPanelists(roster: seq<Persona>, name: string): (lines: seq<string>)
    ensures |lines| <= |roster|
    ensures lines == [] <==> forall k :: 0 <= k < |roster| ==> roster[k].name == name
    ensures forall i :: 0 <= i < |lines| ==> |lines[i]| >= 4 && lines[i][..2] == "\U{2022} "
    ensures forall k :: 0 <= k < |roster| && roster[k].name != name ==> PanelistLine(roster[k]) in lines
    ensures forall l :: l in lines ==> exists k :: 0 <= k < |roster| && roster[k].name != name && l == PanelistLine(roster[k])
  {
    if roster == [] then []
    else
      var q := roster[|roster| - 1];
      var init := OtherPanelists(roster[..|roster| - 1], name);
      assert forall k :: 0 <= k < |roster| - 1 ==> roster[..|roster| - 1][k] == roster[k];
      if q.name != name then init + [PanelistLine(q)] else init
  }

  const NoOtherPanelists := "\U{2022} (none)"

  /** The panel context given to a persona agent. */
  function PanelContext(roster: seq<Persona>, persona: Persona): (ctx: string)
    ensures |ctx| >= 2 && ctx[..2] == "\U{2022} "
    ensures var others := OtherPanelists(roster, persona.name);
            others != [] ==> |others[0]| <= |ctx| && ctx[..|others[0]|] == others[0]
  {
    var others := OtherPanelists(roster, persona.name);
    if others != [] then
      JoinStartsWithFirst("\n", others);
      assert Join("\n", others)[..2] == others[0][..2];
      Join("\n", others)
    else NoOtherPanelists
  }

  /** A persona is told "(none)" exactly when nobody else on the roster has a different name. */
  lemma PanelContextNone(roster: seq<Persona>, persona: Persona)
    ensures PanelContext(roster, persona) == NoOtherPanelists <==> forall k :: 0 <= k < |roster| ==> roster[k].name == persona.name
  {
    var others := OtherPanelists(roster, persona.name);
    if others != [] {
      var ctx := PanelContext(roster, persona);
      var first := others[0];
      OtherPanelistHasColon(roster, persona.name);
      var c :| 0 <= c < |first| && first[c] == ':';
      assert ctx[..|first|] == first;
      assert ctx[c] == ':';
      if c < |NoOtherPanelists| {
        NoneHasNoColon(c);
      }
    }
  }

  lemma NoneHasNoColon(c: nat)
    requires c < |NoOtherPanelists|
    ensures NoOtherPanelists[c] != ':'
  {
  }

  lemma {:induction false} OtherPanelistHasColon(roster: seq<Persona>, name: string)
    ensures forall i :: 0 <= i < |OtherPanelists(roster, name)| ==> ':' in OtherPanelists(roster, name)[i]
  {
    if roster != [] {
      var q := roster[|roster| - 1];
      OtherPanelistHasColon(roster[..|roster| - 1], name);
      if q.name != name {
        var line := PanelistLine(q);
        assert line[2 + |q.name|] == ':';
      }
    }
  }

  /** A display style. */
  datatype Style = Style(color: string, emoji: string)

  const BaseColors: seq<string> := ["blue", "green", "magenta", "cyan", "yellow", "red",
                                     "bright_blue", "bright_green", "bright_magenta", "bright_cyan"]

  const DefaultEmojiCycle: seq<string> := ["\U{1F4AC}", "\U{1F5E3}\U{FE0F}", "\U{1F465}", "\U{1F464}", "\U{1F914}",
                                            "\U{1F9D0}", "\U{1F603}", "\U{1F642}", "\U{1F609}", "\U{1F913}"]

  const FacilitatorStyle := Style("yellow", "\U{1F3AF}")

  const DefaultStyle := Style("white", "\U{1F4AC}")

  /** `p.get(key) or ...`: an absent or empty value falls back. */
  function OrElse(o: Option<string>, fallback: string): string {
    if o.Some? && o.value != "" then o.value else fallback
  }

  /** The style of the persona at roster position `idx`: its own columns, else the palettes cycled by position. */
  function PersonaStyle(p: Persona, idx: nat): Style {
    Style(OrElse(p.color, BaseColors[idx % |BaseColors|]), OrElse(p.emoji, DefaultEmojiCycle[idx % |DefaultEmojiCycle|]))
  }

  /** No later roster entry has the same name as the one at `idx`. */
  predicate LastWithName(roster: seq<Persona>, idx: nat)
    requires idx < |roster|
  {
    forall k :: idx < k < |roster| ==> roster[k].name != roster[idx].name
  }

  /** `_generate_styles`: later entries overwrite earlier ones, and the two fixed keys are written last. */
  method GenerateStyles(roster: seq<Persona>) returns (styles: map<string, Style>)
    ensures styles.Keys == (set k | 0 <= k < |roster| :: roster[k].name) + {"Facilitator", "default"}
    ensures styles["Facilitator"] == FacilitatorStyle && styles["default"] == DefaultStyle
    ensures forall idx :: 0 <= idx < |roster| && LastWithName(roster, idx) && roster[idx].name != "Facilitator" && roster[idx].name != "default"
              ==> styles[roster[idx].name] == PersonaStyle(roster[idx], idx)
  {
    styles := map[];
    for i := 0 to |roster|
      invariant styles.Keys == set k | 0 <= k < i :: roster[k].name
      invariant forall idx :: 0 <= idx < i && (forall k :: idx < k < i ==> roster[k].name != roster[idx].name)
                  ==> styles[roster[idx].name] == PersonaStyle(roster[idx], idx)
    {
      var p := roster[i];
      var color := OrElse(p.color, BaseColors[i % |BaseColors|]);
      var emoji := OrElse(p.emoji, DefaultEmojiCycle[i % |DefaultEmojiCycle|]);
      styles := styles[p.name := Style(color, emoji)];
    }
    styles := styles["Facilitator" := FacilitatorStyle];
    styles := styles["default" := DefaultStyle];
  }

  /** Without its own columns, the persona ten places further down the roster gets the same style. */
  lemma PaletteCycles(p: Persona, idx: nat)
    ensures PersonaStyle(p, idx + |BaseColors|) == PersonaStyle(p, idx)
  {
    assert |BaseColors| == |DefaultEmojiCycle| == 10;
    assert (idx + 10) % 10 == idx % 10;
  }

  // ---------- the loop's rules ----------

  /**
   * The control of the interview loop, with the facilitator's decision (a
   * function of the state) and a persona's answer (a function of the
   * question, the persona and the transcript so far) as parameters.
   */
  datatype Rules = Rules(
    roster: seq<Persona>,
    coreQuestions: seq<string>,
    maxFollowups: int,
    decide: Session -> FacilitatorOutput,
    reply: (string, Persona, seq<Record>) -> string)

  /** The transcript after personas `i..` have answered `q` in turn, each seeing everything recorded before it. */
  function CollectAnswers(m: Rules, q: string, t: seq<Record>, i: nat): (u: seq<Record>)
    requires i <= |m.roster|
    ensures |u| == |t| + (|m.roster| - i) && u[..|t|] == t
    decreases |m.roster| - i
  {
    if i == |m.roster| then t
    else
      var t' := t + [Answer(m.roster[i].name, m.reply(q, m.roster[i], t))];
      var u := CollectAnswers(m, q, t', i + 1);
      assert u[..|t|] == u[..|t'|][..|t|];
      u
  }

  /** One round: record the question, then every persona answers in roster order; a non-core question is a follow-up. */
  function PlayRound(m: Rules, s: Session, q: string): (n: Session)
    ensures |n.transcript| == |s.transcript| + 1 + |m.roster|
    ensures n.transcript[..|s.transcript| + 1] == s.transcript + [Question(q)]
  {
    Session(CollectAnswers(m, q, s.transcript + [Question(q)], 0),
            s.asked + [q],
            if q in m.coreQuestions then s.followupsUsed else s.followupsUsed + 1)
  }

  /** The check made after each round. */
  predicate StopAfterRound(m: Rules, s: Session) {
    s.followupsUsed >= m.maxFollowups || |s.asked| >= |m.coreQuestions| + m.maxFollowups
  }

  /** The most rounds an interview can have: max(1, core questions + follow-ups). */
  function Bound(m: Rules): nat {
    if |m.coreQuestions| + m.maxFollowups >= 1 then |m.coreQuestions| + m.maxFollowups else 1
  }

  /** The loop from state `s` on. Every round asks one more question, so it ends within `Bound` rounds. */
  function RunFrom(m: Rules, s: Session): (r: Session)
    requires |s.asked| < Bound(m)
    ensures |s.asked| <= |r.asked| <= Bound(m)
    ensures r.asked[..|s.asked|] == s.asked
    ensures m.decide(s).shouldEnd ==> r == s
    ensures !m.decide(s).shouldEnd ==> |r.asked| > |s.asked|
    decreases Bound(m) - |s.asked|
  {
    var out := m.decide(s);
    if out.shouldEnd then s
    else
      var next := PlayRound(m, s, out.nextQuestion);
      if StopAfterRound(m, next) then next
      else
        var r := RunFrom(m, next);
        assert r.asked[..|s.asked|] == r.asked[..|next.asked|][..|s.asked|];
        r
  }

  const Start := Session([], [], 0)

  // ---------- the rules of a panel ----------

  function FacilitatorAgentOf(p: Panel): FacilitatorAgent {
    FacilitatorAgent(p.topic, p.coreQuestions, p.maxFollowups)
  }

  function PersonaAgentOf(p: Panel, persona: Persona): PersonaAgent {
    PersonaAgent(persona.name, persona.description, PanelContext(p.roster, persona))
  }

  /** The facilitator's decision in state `s`: its answer to the facilitator prompt of that state. */
  function Decision(p: Panel, b: Backend, s: Session): FacilitatorOutput {
    b.facilitator(FacilitatorAgentOf(p), FacilitatorMessages(p.topic, s.transcript, p.coreQuestions, s.asked))
  }

  /** A persona's answer to `q`: its answer to the persona prompt built from the transcript so far. */
  function Reply(p: Panel, b: Backend, q: string, persona: Persona, t: seq<Record>): string {
    b.persona(PersonaAgentOf(p, persona), PersonaMessages(persona.name, persona.description, q, t, p.topic))
  }

  function RulesOf(p: Panel, b: Backend): Rules {
    Rules(p.roster, p.coreQuestions, p.maxFollowups,
          (s: Session) => Decision(p, b, s),
          (q: string, persona: Persona, t: seq<Record>) => Reply(p, b, q, persona, t))
  }

  /** The whole interview loop of a panel. */
  function Conduct(p: Panel, b: Backend): (r: Session)
    ensures |r.transcript| == |r.asked| * (|p.roster| + 1)
    ensures r.asked == [] <==> Decision(p, b, Start).shouldEnd
  {
    ConductFacts(RulesOf(p, b));
    RunFrom(RulesOf(p, b), Start)
  }

  /** The two analysis requests, both over the final transcript. */
  function Analyse(p: Panel, b: Backend, t: seq<Record>): InterviewResult {
    InterviewResult(p.topic, b.summarizer(StringMessages(p.topic, t)), b.sentiment(SentimentMessages(t, p.roster)))
  }

  /** Everything one interview produces. */
  function Outcome(p: Panel, b: Backend): InterviewResult {
    Analyse(p, b, Conduct(p, b).transcript)
  }

  // ---------- the loop as the source runs it ----------

  /** The persona agents, one per roster entry, in roster order. */
  method BuildPersonaAgents(p: Panel) returns (agents: seq<PersonaAgent>)
    ensures |agents| == |p.roster|
    ensures forall i {:trigger agents[i]} :: 0 <= i < |p.roster| ==> agents[i] == PersonaAgentOf(p, p.roster[i])
  {
    agents := [];
    for i := 0 to |p.roster|
      invariant |agents| == i
      invariant forall k :: 0 <= k < i ==> agents[k] == PersonaAgentOf(p, p.roster[k])
    {
      var others := OtherPanelists(p.roster, p.roster[i].name);
      var panelContext := if others != [] then Join("\n", others) else NoOtherPanelists;
      agents := agents + [PersonaAgent(p.roster[i].name, p.roster[i].description, panelContext)];
    }
  }

  /** `m` decides as the facilitator agent of panel `p` does with backend `b` (the trigger keeps the prompt folded until a call site asks for it). */
  ghost predicate DecidesAsFacilitator(p: Panel, b: Backend, m: Rules) {
    forall s {:trigger Decision(p, b, s)} :: m.decide(s) == Decision(p, b, s)
  }

  /** `m` answers as the persona agents of panel `p` do with backend `b`. */
  ghost predicate RepliesAsPersonas(p: Panel, b: Backend, m: Rules) {
    && m.roster == p.roster
    && forall q, persona, t {:trigger Reply(p, b, q, persona, t)} :: m.reply(q, persona, t) == Reply(p, b, q, persona, t)
  }

  /** `m` are the rules panel `p` follows with backend `b`. */
  ghost predicate Follows(p: Panel, b: Backend, m: Rules) {
    && m.coreQuestions == p.coreQuestions
    && m.maxFollowups == p.maxFollowups
    && DecidesAsFacilitator(p, b, m)
    && RepliesAsPersonas(p, b, m)
  }

  lemma RulesOfFollows(p: Panel, b: Backend)
    ensures Follows(p, b, RulesOf(p, b))
  {
  }

  /** The facilitator's turn: its prompt over the state so far, then its agent's decision. */
  method AskFacilitator(p: Panel, b: Backend, ghost m: Rules, transcript: seq<Record>, asked: seq<string>, ghost followupsUsed: int)
    returns (out: FacilitatorOutput)
    requires DecidesAsFacilitator(p, b, m)
    ensures out == m.decide(Session(transcript, asked, followupsUsed))
  {
    var messages := FacilitatorMessages(p.topic, transcript, p.coreQuestions, asked);
    out := b.facilitator(FacilitatorAgentOf(p), messages);
    assert out == Decision(p, b, Session(transcript, asked, followupsUsed));
  }

  /** Persona `i`'s turn: its prompt over the transcript so far, then its agent's answer appended to the transcript. */
  method PersonaTurn(p: Panel, b: Backend, ghost m: Rules, agents: seq<PersonaAgent>, q: string, t: seq<Record>, i: nat)
    returns (next: seq<Record>)
    requires RepliesAsPersonas(p, b, m)
    requires i < |agents| == |p.roster|
    requires agents[i] == PersonaAgentOf(p, p.roster[i])
    ensures CollectAnswers(m, q, next, i + 1) == CollectAnswers(m, q, t, i)
  {
    var persona := p.roster[i];
    var messages := TranscriptToPersonaPrompt(persona.name, persona.description, q, t, p.topic);
    var reply := b.persona(agents[i], messages);
    next := t + [Answer(persona.name, reply)];
    assert reply == Reply(p, b, q, persona, t);
  }

  /** The inner loop: the personas answer `q` one after the other, each prompted with the transcript so far. */
  method AskPanel(p: Panel, b: Backend, ghost m: Rules, agents: seq<PersonaAgent>, q: string, t: seq<Record>)
    returns (transcript: seq<Record>)
    requires RepliesAsPersonas(p, b, m)
    requires |agents| == |p.roster|
    requires forall i {:trigger agents[i]} :: 0 <= i < |p.roster| ==> agents[i] == PersonaAgentOf(p, p.roster[i])
    ensures transcript == CollectAnswers(m, q, t, 0)
  {
    transcript := t;
    for i := 0 to |p.roster|
      invariant CollectAnswers(m, q, transcript, i) == CollectAnswers(m, q, t, 0)
    {
      transcript := PersonaTurn(p, b, m, agents, q, transcript, i);
    }
  }

  /** The `while True` loop of `run_interview`, run under the rules `m` of the panel. */
  method RunRounds(p: Panel, b: Backend, ghost m: Rules) returns (transcript: seq<Record>, asked: seq<string>, followupsUsed: int)
    requires Follows(p, b, m)
    ensures Session(transcript, asked, followupsUsed) == RunFrom(m, Start)
  {
    var agents := BuildPersonaAgents(p);
    transcript, asked, followupsUsed := [], [], 0;
    while true
      invariant |asked| < Bound(m)
      invariant RunFrom(m, Session(transcript, asked, followupsUsed)) == RunFrom(m, Start)
      decreases Bound(m) - |asked|
    {
      var out := AskFacilitator(p, b, m, transcript, asked, followupsUsed);
      if out.shouldEnd {
        break;
      }
      ghost var before := Session(transcript, asked, followupsUsed);
      transcript := AskPanel(p, b, m, agents, out.nextQuestion, transcript + [Question(out.nextQuestion)]);
      asked := asked + [out.nextQuestion];
      if out.nextQuestion !in p.coreQuestions {
        followupsUsed := followupsUsed + 1;
      }
      assert Session(transcript, asked, followupsUsed) == PlayRound(m, before, out.nextQuestion);
      if followupsUsed >= p.maxFollowups || |asked| >= |p.coreQuestions| + p.maxFollowups {
        break;
      }
    }
  }

  /** The interview loop of a panel, with what it guarantees about the transcript and the counters. */
  method InterviewLoop(p: Panel, b: Backend) returns (transcript: seq<Record>, asked: seq<string>, followupsUsed: int)
    ensures Session(transcript, asked, followupsUsed) == Conduct(p, b)
    ensures |transcript| == |asked| * (|p.roster| + 1)
    ensures followupsUsed == FollowupCount(asked, p.coreQuestions) <= |asked| <= Bound(RulesOf(p, b))
  {
    RulesOfFollows(p, b);
    transcript, asked, followupsUsed := RunRounds(p, b, RulesOf(p, b));
    ConductFacts(RulesOf(p, b));
  }

  /** `run_interview`: the loop, then the sentiment and summary requests over the final transcript. */
  method RunInterview(p: Panel, b: Backend) returns (result: InterviewResult, transcript: seq<Record>)
    ensures transcript == Conduct(p, b).transcript
    ensures result == Outcome(p, b)
  {
    var asked, followupsUsed;
    transcript, asked, followupsUsed := InterviewLoop(p, b);
    var sentimentMessages := CreateSentimentPrompt(transcript, p.roster);
    var sentiment := b.sentiment(sentimentMessages);
    var report := b.summarizer(StringMessages(p.topic, transcript));
    result := InterviewResult(p.topic, report, sentiment);
  }

  // ---------- what the loop guarantees ----------

  /** How many asked questions are follow-ups (not among the core questions). */
  function FollowupCount(asked: seq<string>, core: seq<string>): (n: nat)
    ensures n <= |asked|
  {
    if asked == [] then 0
    else FollowupCount(asked[..|asked| - 1], core) + (if asked[|asked| - 1] in core then 0 else 1)
  }

  /** The stop check, in terms of the questions asked so far. */
  predicate ShouldStop(m: Rules, asked: seq<string>) {
    FollowupCount(asked, m.coreQuestions) >= m.maxFollowups || |asked| >= |m.coreQuestions| + m.maxFollowups
  }

  /** The answers of one round: one per roster persona, in roster order. */
  predicate InRosterOrder(rs: seq<Record>, roster: seq<Persona>) {
    |rs| == |roster| && forall j :: 0 <= j < |rs| ==> rs[j].role == Assistant && rs[j].name == Some(roster[j].name)
  }

  /** `t` is one round per asked question: the question's record, then the roster's answers in order. */
  predicate IsRounds(roster: seq<Persona>, t: seq<Record>, asked: seq<string>)
    decreases |asked|
  {
    if asked == [] then t == []
    else
      var m := |t| - (|roster| + 1);
      && m >= 0
      && IsRounds(roster, t[..m], asked[..|asked| - 1])
      && t[m] == Question(asked[|asked| - 1])
      && InRosterOrder(t[m + 1..], roster)
  }

  /** Rounds have a fixed length: one question record plus one answer per persona. */
  lemma {:induction false} RoundsLength(roster: seq<Persona>, t: seq<Record>, asked: seq<string>)
    requires IsRounds(roster, t, asked)
    ensures |t| == |asked| * (|roster| + 1)
    decreases |asked|
  {
    if asked != [] {
      var m := |t| - (|roster| + 1);
      RoundsLength(roster, t[..m], asked[..|asked| - 1]);
      assert |t| == (|asked| - 1) * (|roster| + 1) + (|roster| + 1);
    }
  }

  /**
   * Each persona answers in turn: the answer at roster position `j` is that
   * persona's reply given everything recorded before it, including the
   * answers of the personas before it in this round.
   */
  lemma {:induction false} CollectAnswersSpec(m: Rules, q: string, t: seq<Record>, i: nat)
    requires i <= |m.roster|
    ensures var u := CollectAnswers(m, q, t, i);
            && |u| == |t| + (|m.roster| - i)
            && u[..|t|] == t
            && forall j :: i <= j < |m.roster| ==>
                 u[|t| + (j - i)] == Answer(m.roster[j].name, m.reply(q, m.roster[j], u[..|t| + (j - i)]))
    decreases |m.roster| - i
  {
    if i < |m.roster| {
      var t' := t + [Answer(m.roster[i].name, m.reply(q, m.roster[i], t))];
      CollectAnswersSpec(m, q, t', i + 1);
      var u := CollectAnswers(m, q, t, i);
      assert u == CollectAnswers(m, q, t', i + 1);
      assert u[..|t|] == u[..|t'|][..|t|];
      forall j | i <= j < |m.roster|
        ensures u[|t| + (j - i)] == Answer(m.roster[j].name, m.reply(q, m.roster[j], u[..|t| + (j - i)]))
      {
        if j > i {
          assert |t| + (j - i) == |t'| + (j - (i + 1));
        }
      }
    }
  }

  /**
   * Within a round on a question never asked before, and with unique roster
   * names, persona `j` answers a prompt built from a transcript whose shown
   * part is exactly the answers the personas before it gave in this round.
   */
  lemma PersonaSeesEarlierAnswers(m: Rules, t: seq<Record>, q: string, j: nat)
    requires forall x, y :: 0 <= x < y < |m.roster| ==> m.roster[x].name != m.roster[y].name
    requires forall i :: 0 <= i < |t| ==> !Asks(t[i], q)
    requires j < |m.roster|
    ensures var u := CollectAnswers(m, q, t + [Question(q)], 0);
            var k := |t| + 1 + j;
            && k < |u|
            && u[k] == Answer(m.roster[j].name, m.reply(q, m.roster[j], u[..k]))
            && Shown(u[..k], q, m.roster[j].name) == u[|t| + 1..k]
  {
    var t0 := t + [Question(q)];
    var u := CollectAnswers(m, q, t0, 0);
    var k := |t0| + j;
    AnswerAt(m, q, t0, j);
    RoundPrefix(m, q, t0, j);
    EarlierAnswersArePeers(m, q, t0, j);
    FreshRoundShown(t, q, u[|t0|..k], m.roster[j].name);
  }

  /** The answer of roster entry `j` sits at offset `j` after the round's start, given everything before it. */
  lemma AnswerAt(m: Rules, q: string, t: seq<Record>, j: nat)
    requires j < |m.roster|
    ensures var u := CollectAnswers(m, q, t, 0);
            && |t| + j < |u|
            && u[|t| + j] == Answer(m.roster[j].name, m.reply(q, m.roster[j], u[..|t| + j]))
  {
    CollectAnswersSpec(m, q, t, 0);
    assert |t| + (j - 0) == |t| + j;
  }

  /** What precedes the answer at offset `j`: the transcript the round started from and the earlier answers. */
  lemma RoundPrefix(m: Rules, q: string, t: seq<Record>, j: nat)
    requires j < |m.roster|
    ensures var u := CollectAnswers(m, q, t, 0);
            && |t| + j <= |u|
            && u[..|t| + j] == t + u[|t|..|t| + j]
  {
    RoundAnswers(m, q, t);
    var u := CollectAnswers(m, q, t, 0);
    assert u[..|t| + j] == u[..|t|] + u[|t|..|t| + j];
  }

  /** With unique names, the answers before persona `j`'s in a round are all by other personas. */
  lemma EarlierAnswersArePeers(m: Rules, q: string, t: seq<Record>, j: nat)
    requires forall x, y :: 0 <= x < y < |m.roster| ==> m.roster[x].name != m.roster[y].name
    requires j < |m.roster|
    ensures var u := CollectAnswers(m, q, t, 0);
            && |t| + j <= |u|
            && var rs := u[|t|..|t| + j];
               forall i :: 0 <= i < |rs| ==> rs[i].role == Assistant && IsPeerAnswer(rs[i], m.roster[j].name)
  {
    RoundAnswers(m, q, t);
    var u := CollectAnswers(m, q, t, 0);
    var rs := u[|t|..|t| + j];
    forall i | 0 <= i < |rs| ensures rs[i].role == Assistant && IsPeerAnswer(rs[i], m.roster[j].name) {
      assert rs[i] == u[|t|..][i];
    }
  }

  /** The answers a round appends are one per persona, in roster order. */
  lemma RoundAnswers(m: Rules, q: string, t: seq<Record>)
    ensures var u := CollectAnswers(m, q, t, 0);
            |u| == |t| + |m.roster| && u[..|t|] == t && InRosterOrder(u[|t|..], m.roster)
  {
    CollectAnswersSpec(m, q, t, 0);
    var u := CollectAnswers(m, q, t, 0);
    var rs := u[|t|..];
    forall j | 0 <= j < |rs| ensures rs[j].role == Assistant && rs[j].name == Some(m.roster[j].name) {
      assert rs[j] == u[|t| + (j - 0)] == Answer(m.roster[j].name, m.reply(q, m.roster[j], u[..|t| + (j - 0)]));
    }
  }

  /** A round appends exactly one question record and then the roster's answers in roster order. */
  lemma PlayRoundShape(m: Rules, s: Session, q: string)
    requires IsRounds(m.roster, s.transcript, s.asked)
    ensures var n := PlayRound(m, s, q);
            && IsRounds(m.roster, n.transcript, n.asked)
            && |n.transcript| == |s.transcript| + 1 + |m.roster|
            && n.transcript[..|s.transcript|] == s.transcript
            && n.asked == s.asked + [q]
  {
    var t := s.transcript + [Question(q)];
    RoundAnswers(m, q, t);
    var n := PlayRound(m, s, q);
    var k := |s.transcript|;
    assert n.transcript[..k] == t[..k] == s.transcript;
    assert n.transcript[k] == t[k];
    assert n.asked[..|n.asked| - 1] == s.asked;
  }

  /** The questions asked from any reachable state `s` to the loop's end, and why the loop ends. */
  lemma {:induction false} RunFromAsked(m: Rules, s: Session)
    requires |s.asked| < Bound(m)
    requires s.followupsUsed == FollowupCount(s.asked, m.coreQuestions)
    ensures var r := RunFrom(m, s);
            && r.followupsUsed == FollowupCount(r.asked, m.coreQuestions)
            && |s.asked| <= |r.asked| <= Bound(m)
            && r.asked[..|s.asked|] == s.asked
            && (m.decide(s).shouldEnd ==> r == s)
            && (!m.decide(s).shouldEnd ==> |r.asked| > |s.asked|)
            && (m.decide(r).shouldEnd || ShouldStop(m, r.asked))
            && forall k :: |s.asked| < k < |r.asked| ==> !ShouldStop(m, r.asked[..k])
    decreases Bound(m) - |s.asked|
  {
    var out := m.decide(s);
    if !out.shouldEnd {
      var next := PlayRound(m, s, out.nextQuestion);
      assert next.asked[..|next.asked| - 1] == s.asked;
      assert next.followupsUsed == FollowupCount(next.asked, m.coreQuestions);
      if !StopAfterRound(m, next) {
        assert !ShouldStop(m, next.asked);
        RunFromAsked(m, next);
        var r := RunFrom(m, next);
        assert r.asked[..|s.asked|] == r.asked[..|next.asked|][..|s.asked|];
        forall k | |s.asked| < k < |r.asked| ensures !ShouldStop(m, r.asked[..k]) {
          if k == |next.asked| {
            assert r.asked[..k] == next.asked;
          }
        }
      }
    }
  }

  /** From any reachable state, the loop only appends whole rounds to the transcript. */
  lemma {:induction false} RunFromRounds(m: Rules, s: Session)
    requires |s.asked| < Bound(m)
    requires IsRounds(m.roster, s.transcript, s.asked)
    ensures var r := RunFrom(m, s);
            && IsRounds(m.roster, r.transcript, r.asked)
            && |s.transcript| <= |r.transcript|
            && r.transcript[..|s.transcript|] == s.transcript
    decreases Bound(m) - |s.asked|
  {
    var out := m.decide(s);
    if !out.shouldEnd {
      var next := PlayRound(m, s, out.nextQuestion);
      PlayRoundShape(m, s, out.nextQuestion);
      if !StopAfterRound(m, next) {
        RunFromRounds(m, next);
        var r := RunFrom(m, next);
        assert r.transcript[..|s.transcript|] == r.transcript[..|next.transcript|][..|s.transcript|];
      }
    }
  }

  /**
   * The interview's guarantees: the transcript is `rounds` rounds of one
   * question and one answer per persona; the follow-up counter counts the
   * non-core questions; there are at most max(1, core + follow-ups) rounds;
   * no round is played only if the facilitator ends at once; the loop ends
   * either on the facilitator's word or on the stop check, and every round
   * but the last passed the stop check.
   */
  lemma ConductFacts(m: Rules)
    ensures var r := RunFrom(m, Start);
            && IsRounds(m.roster, r.transcript, r.asked)
            && |r.transcript| == |r.asked| * (|m.roster| + 1)
            && r.followupsUsed == FollowupCount(r.asked, m.coreQuestions) <= |r.asked| <= Bound(m)
            && (r.asked == [] <==> m.decide(Start).shouldEnd)
            && (m.decide(r).shouldEnd || ShouldStop(m, r.asked))
            && forall k :: 0 < k < |r.asked| ==> !ShouldStop(m, r.asked[..k])
  {
    RunFromAsked(m, Start);
    RunFromRounds(m, Start);
    var r := RunFrom(m, Start);
    RoundsLength(m.roster, r.transcript, r.asked);
    if r.asked == [] {
      assert r.transcript == [];
    }
  }

  /** With no follow-up budget (max_followups <= 0) there is exactly one round, unless the facilitator ends at once. */
  lemma NoBudgetOneRound(m: Rules)
    requires m.maxFollowups <= 0
    ensures |RunFrom(m, Start).asked| == (if m.decide(Start).shouldEnd then 0 else 1)
  {
    ConductFacts(m);
    var r := RunFrom(m, Start);
  }

  /** The follow-ups used never exceed max(1, max_followups): the round that reaches the budget is the last. */
  lemma FollowupBudget(m: Rules)
    ensures RunFrom(m, Start).followupsUsed <= (if m.maxFollowups >= 1 then m.maxFollowups else 1)
  {
    ConductFacts(m);
    var r := RunFrom(m, Start);
    var n := |r.asked|;
    if n >= 2 {
      assert !ShouldStop(m, r.asked[..n - 1]);
      assert r.asked[..n - 1] == r.asked[..n][..n - 1];
      assert r.asked[..n] == r.asked;
    }
  }

  /** The facilitator ending at once leaves the transcript empty. */
  lemma ImmediateEnd(m: Rules)
    requires m.decide(Start).shouldEnd
    ensures RunFrom(m, Start) == Start
  {
  }

  /**
   * With unique roster names, the sentiment request gets, for every persona,
   * one entry per round, paired with that round's question.
   */
  lemma EntriesPerRound(m: Rules, j: nat)
    requires forall x, y :: 0 <= x < y < |m.roster| ==> m.roster[x].name != m.roster[y].name
    requires j < |m.roster|
    ensures var r := RunFrom(m, Start);
            var e := AnswersOf(r.transcript, m.roster[j].name);
            |e| == |r.asked| && forall k :: 0 <= k < |e| ==> e[k].question == Some(r.asked[k])
  {
    ConductFacts(m);
    var r := RunFrom(m, Start);
    RoundsEntries(m.roster, r.transcript, r.asked, j);
  }

  lemma {:induction false} RoundsEntries(roster: seq<Persona>, t: seq<Record>, asked: seq<string>, j: nat)
    requires forall x, y :: 0 <= x < y < |roster| ==> roster[x].name != roster[y].name
    requires j < |roster|
    requires IsRounds(roster, t, asked)
    ensures var e := AnswersOf(t, roster[j].name);
            |e| == |asked| && forall k :: 0 <= k < |e| ==> e[k].question == Some(asked[k])
    decreases |asked|
  {
    if asked != [] {
      var m := |t| - (|roster| + 1);
      var q := asked[|asked| - 1];
      var rs := t[m + 1..];
      var name := roster[j].name;
      var prev := AnswersOf(t[..m], name);
      RoundsEntries(roster, t[..m], asked[..|asked| - 1], j);
      LastRound(t, m, q);
      RosterRoundEntry(roster, rs, q, j);
      AnswersOfRound(t[..m], q, rs, name);
      assert AnswersOf(t, name) == prev + [Entry(Some(q), Content(rs[j]))];
      EntriesOfNextRound(prev, Entry(Some(q), Content(rs[j])), asked);
    }
  }

  lemma EntriesOfNextRound(prev: seq<Entry>, x: Entry, asked: seq<string>)
    requires |asked| == |prev| + 1
    requires forall k :: 0 <= k < |prev| ==> prev[k].question == Some(asked[..|asked| - 1][k])
    requires x.question == Some(asked[|asked| - 1])
    ensures forall k :: 0 <= k < |prev + [x]| ==> (prev + [x])[k].question == Some(asked[k])
  {
    forall k | 0 <= k < |prev| ensures (prev + [x])[k].question == Some(asked[k]) {
      assert asked[..|asked| - 1][k] == asked[k];
    }
  }

  /** A transcript whose record `m` is a question splits into the part before, that question and the rest. */
  lemma LastRound(t: seq<Record>, m: nat, q: string)
    requires m < |t| && t[m] == Question(q)
    ensures t == t[..m] + [Question(q)] + t[m + 1..]
  {
    assert t == t[..m] + t[m..];
    assert t[m..] == [t[m]] + t[m + 1..];
  }

  /** In a round answered in roster order by unique names, persona `j` has exactly its own answer. */
  lemma RosterRoundEntry(roster: seq<Persona>, rs: seq<Record>, q: string, j: nat)
    requires forall x, y :: 0 <= x < y < |roster| ==> roster[x].name != roster[y].name
    requires j < |roster|
    requires InRosterOrder(rs, roster)
    ensures forall x, y :: 0 <= x < y < |rs| ==> rs[x].name != rs[y].name
    ensures AnswersIn(rs, q, roster[j].name) == [Entry(Some(q), Content(rs[j]))]
  {
    AnswersInAt(rs, q, roster[j].name, j);
  }

  lemma {:induction false} AnswersInAt(rs: seq<Record>, q: string, name: string, j: nat)
    requires j < |rs| && AnsweredBy(rs[j], name)
    requires forall k :: 0 <= k < |rs| && k != j ==> !AnsweredBy(rs[k], name)
    ensures AnswersIn(rs, q, name) == [Entry(Some(q), Content(rs[j]))]
    decreases |rs|
  {
    if j < |rs| - 1 {
      AnswersInAt(rs[..|rs| - 1], q, name, j);
    }
  }
}
