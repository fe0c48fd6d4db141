/**
 * The sentiment-analysis request (`create_sentiment_prompt`): answers grouped
 * by roster name, each paired with the question most recently asked before it.
 */
module Sentiment {
  import opened Wrappers
  import opened Text
  import opened Transcript
  import opened Personas

  /** `{"question": ..., "response": ...}`; the question is `None` before any question was asked. */
  datatype Entry = Entry(question: Option<string>, response: string)

  /** The content of the last "user" record of `s`, or `None` if there is none. */
  function LastQuestion(s: seq<Record>): (q: Option<string>)
    ensures q.None? <==> forall j :: 0 <= j < |s| ==> s[j].role != User
  {
    if s == [] then None
    else if s[|s| - 1].role == User then Some(Content(s[|s| - 1]))
    else LastQuestion(s[..|s| - 1])
  }

  /** An "assistant" record carrying the name `name`. */
  predicate AnsweredBy(r: Record, name: string) {
    r.role == Assistant && r.name == Some(name)
  }

  /** The entries collected for `name`: its answers in transcript order, each with the latest question before it. */
  function AnswersOf(t: seq<Record>, name: string): (e: seq<Entry>)
    ensures |e| <= |t|
    ensures e == [] <==> forall j :: 0 <= j < |t| ==> !AnsweredBy(t[j], name)
  {
    if t == [] then []
    else
      var init := t[..|t| - 1];
      var r := t[|t| - 1];
      AnswersOf(init, name) + (if AnsweredBy(r, name) then [Entry(LastQuestion(init), Content(r))] else [])
  }

  function Names(roster: seq<Persona>): seq<string> {
    seq(|roster|, i requires 0 <= i < |roster| => roster[i].name)
  }

  /** The keys of a dict filled from `names` in order: each name once, at its first occurrence. */
  function FirstOccurrences(names: seq<string>): (d: seq<string>)
    ensures forall n :: n in d <==> n in names
    ensures forall i, j :: 0 <= i < j < |d| ==> d[i] != d[j]
  {
    if names == [] then []
    else
      var d := FirstOccurrences(names[..|names| - 1]);
      var n := names[|names| - 1];
      if n in d then d else d + [n]
  }

  /** With unique roster names the keys are exactly the roster's names in roster order. */
  lemma {:induction false} FirstOccurrencesOfUnique(names: seq<string>)
    requires forall i, j :: 0 <= i < j < |names| ==> names[i] != names[j]
    ensures FirstOccurrences(names) == names
  {
    if names != [] {
      var init := names[..|names| - 1];
      FirstOccurrencesOfUnique(init);
      assert names[|names| - 1] !in init;
      assert init + [names[|names| - 1]] == names;
    }
  }

  // ---------- grouping ----------

  /** The first loop: an empty entry list under each roster name, keys in first-occurrence order. */
  method EmptyGroups(roster: seq<Persona>) returns (keys: seq<string>, groups: map<string, seq<Entry>>)
    ensures keys == FirstOccurrences(Names(roster))
    ensures forall n :: n in groups <==> n in keys
    ensures forall n :: n in groups ==> groups[n] == []
  {
    keys, groups := [], map[];
    for k := 0 to |roster|
      invariant keys == FirstOccurrences(Names(roster)[..k])
      invariant forall n :: n in groups <==> n in keys
      invariant forall n :: n in groups ==> groups[n] == []
    {
      KeysStep(Names(roster), k);
      var name := roster[k].name;
      if name !in groups {
        keys := keys + [name];
      }
      groups := groups[name := []];
    }
    assert Names(roster)[..|roster|] == Names(roster);
  }

  /** Adding one more name adds it as a key exactly when it is new. */
  lemma KeysStep(names: seq<string>, k: nat)
    requires k < |names|
    ensures FirstOccurrences(names[..k + 1])
            == if names[k] in FirstOccurrences(names[..k]) then FirstOccurrences(names[..k])
               else FirstOccurrences(names[..k]) + [names[k]]
  {
    assert names[..k + 1][..k] == names[..k];
  }

  /** The dict `persona_responses`, as its keys in insertion order and its contents. */
  method GroupResponses(t: seq<Record>, roster: seq<Persona>) returns (keys: seq<string>, groups: map<string, seq<Entry>>)
    ensures keys == FirstOccurrences(Names(roster))
    ensures forall n :: n in groups <==> n in keys
    ensures forall n :: n in groups ==> groups[n] == AnswersOf(t, n)
  {
    keys, groups := EmptyGroups(roster);
    var current: Option<string> := None;
    for i := 0 to |t|
      invariant current == LastQuestion(t[..i])
      invariant forall n :: n in groups <==> n in keys
      invariant forall n :: n in groups ==> groups[n] == AnswersOf(t[..i], n)
    {
      current, groups := GroupRecord(t, i, current, keys, groups);
    }
    assert t[..|t|] == t;
  }

  /** One pass of the grouping loop: record `t[i]` updates the current question or its author's group. */
  method GroupRecord(t: seq<Record>, i: nat, current: Option<string>, ghost keys: seq<string>, groups: map<string, seq<Entry>>)
    returns (current': Option<string>, groups': map<string, seq<Entry>>)
    requires i < |t|
    requires current == LastQuestion(t[..i])
    requires forall n :: n in groups <==> n in keys
    requires forall n :: n in groups ==> groups[n] == AnswersOf(t[..i], n)
    ensures current' == LastQuestion(t[..i + 1])
    ensures forall n :: n in groups' <==> n in keys
    ensures forall n :: n in groups' ==> groups'[n] == AnswersOf(t[..i + 1], n)
  {
    GroupingStep(t, i);
    current', groups' := current, groups;
    var msg := t[i];
    if msg.role == User {
      current' := Some(Content(msg));
    } else if msg.role == Assistant && msg.name.Some? && msg.name.value in groups {
      var name := msg.name.value;
      groups' := groups[name := groups[name] + [Entry(current, Content(msg))]];
    }
  }

  /** Scanning one more record: the latest question and every name's entries, extended by that record alone. */
  lemma GroupingStep(t: seq<Record>, i: nat)
    requires i < |t|
    ensures LastQuestion(t[..i + 1]) == if t[i].role == User then Some(Content(t[i])) else LastQuestion(t[..i])
    ensures forall n :: AnswersOf(t[..i + 1], n)
                        == AnswersOf(t[..i], n) + if AnsweredBy(t[i], n) then [Entry(LastQuestion(t[..i]), Content(t[i]))] else []
  {
    assert t[..i + 1] == t[..i] + [t[i]];
    forall n {
      AnswersOfExtend(t[..i], t[i], n);
    }
  }

  // ---------- the request ----------

  /** `f"{resp['question']}"`: a missing question prints as `None`. */
  function QuestionText(q: Option<string>): string {
    if q.Some? then q.value else "None"
  }

  function EntriesText(entries: seq<Entry>): string {
    if entries == [] then ""
    else
      var e := entries[|entries| - 1];
      EntriesText(entries[..|entries| - 1]) + "Question: " + QuestionText(e.question) + "\n" + "Response: " + e.response + "\n\n"
  }

  /** One "## name" section per key, in key order. */
  function Sections(keys: seq<string>, groups: map<string, seq<Entry>>): string
    requires forall n :: n in keys ==> n in groups
  {
    if keys == [] then ""
    else
      var n := keys[|keys| - 1];
      Sections(keys[..|keys| - 1], groups) + "## " + n + "\n" + EntriesText(groups[n])
  }

  const SentimentHeader := "Analyze the sentiment and key points from each persona in this interview:\n\n"

  /** The grouping, built as a value. */
  function Grouping(t: seq<Record>, roster: seq<Persona>): (groups: map<string, seq<Entry>>)
    ensures forall n :: n in groups <==> n in Names(roster)
  {
    map n | n in FirstOccurrences(Names(roster)) :: AnswersOf(t, n)
  }

  /** The messages `create_sentiment_prompt` returns: the instruction, then the per-persona sections. */
  function SentimentMessages(t: seq<Record>, roster: seq<Persona>): (msgs: seq<ChatMessage>)
    ensures |msgs| == 2 && msgs[0].role == "system" && msgs[1].role == "user"
    ensures |SentimentHeader| <= |msgs[1].content| && msgs[1].content[..|SentimentHeader|] == SentimentHeader
  {
    [ ChatMessage("system", "You are a sentiment analysis expert."),
      ChatMessage("user", SentimentHeader + Sections(FirstOccurrences(Names(roster)), Grouping(t, roster))) ]
  }

  /** The dict the grouping loop fills is the grouping value. */
  lemma DictIsGrouping(t: seq<Record>, roster: seq<Persona>, keys: seq<string>, groups: map<string, seq<Entry>>)
    requires keys == FirstOccurrences(Names(roster))
    requires forall n :: n in groups <==> n in keys
    requires forall n :: n in groups ==> groups[n] == AnswersOf(t, n)
    ensures groups == Grouping(t, roster)
  {
    var g := Grouping(t, roster);
    assert groups.Keys == g.Keys;
    forall n | n in groups ensures groups[n] == g[n] {}
  }

  /** `create_sentiment_prompt`: the grouping, then one section per key. */
  method CreateSentimentPrompt(t: seq<Record>, roster: seq<Persona>) returns (messages: seq<ChatMessage>)
    ensures messages == SentimentMessages(t, roster)
  {
    var keys, groups := GroupResponses(t, roster);
    DictIsGrouping(t, roster, keys, groups);
    var sections := RenderSections(keys, groups);
    messages := [ ChatMessage("system", "You are a sentiment analysis expert."), ChatMessage("user", SentimentHeader + sections) ];
  }

  /** The prompt-building loop over the dict's items. */
  method RenderSections(keys: seq<string>, groups: map<string, seq<Entry>>) returns (text: string)
    requires forall n :: n in keys ==> n in groups
    ensures text == Sections(keys, groups)
  {
    text := "";
    for k := 0 to |keys|
      invariant text == Sections(keys[..k], groups)
    {
      assert keys[..k + 1][..k] == keys[..k];
      var name := keys[k];
      text := text + "## " + name + "\n";
      text := text + EntriesText(groups[name]);
    }
    assert keys[..|keys|] == keys;
  }

  // ---------- what the grouping says ----------

  /** Answers under names outside the roster never reach the request. */
  lemma UnknownNamesDropped(t: seq<Record>, roster: seq<Persona>, name: string)
    requires name !in Names(roster)
    ensures name !in Grouping(t, roster)
  {
  }

  /** Records other than answers by `name` add nothing to its entries; a question only changes the pairing. */
  lemma {:induction false} AnswersOfExtend(t: seq<Record>, r: Record, name: string)
    ensures AnswersOf(t + [r], name)
            == AnswersOf(t, name) + (if AnsweredBy(r, name) then [Entry(LastQuestion(t), Content(r))] else [])
  {
    assert (t + [r])[..|t|] == t;
  }

  /** After a question and some answers, the latest question is that question. */
  lemma {:induction false} LatestQuestionInRound(t: seq<Record>, q: string, rs: seq<Record>)
    requires forall j :: 0 <= j < |rs| ==> rs[j].role == Assistant
    ensures LastQuestion(t + [Question(q)] + rs) == Some(q)
    decreases |rs|
  {
    var u := t + [Question(q)] + rs;
    if rs == [] {
      assert u[|u| - 1] == Question(q);
    } else {
      assert u[..|u| - 1] == t + [Question(q)] + rs[..|rs| - 1];
      LatestQuestionInRound(t, q, rs[..|rs| - 1]);
    }
  }

  /**
   * One round (a question, then one answer per name) adds exactly one entry
   * for each name that answered it, paired with that question, and nothing
   * for any other name.
   */
  lemma {:induction false} AnswersOfRound(t: seq<Record>, q: string, rs: seq<Record>, name: string)
    requires forall j :: 0 <= j < |rs| ==> rs[j].role == Assistant && rs[j].name.Some?
    requires forall i, j :: 0 <= i < j < |rs| ==> rs[i].name != rs[j].name
    ensures AnswersOf(t + [Question(q)] + rs, name)
            == AnswersOf(t, name) + AnswersIn(rs, q, name)
    decreases |rs|
  {
    if rs == [] {
      assert t + [Question(q)] + rs == t + [Question(q)];
      AnswersOfExtend(t, Question(q), name);
    } else {
      var init := rs[..|rs| - 1];
      var r := rs[|rs| - 1];
      assert t + [Question(q)] + rs == (t + [Question(q)] + init) + [r];
      AnswersOfRound(t, q, init, name);
      AnswersOfExtend(t + [Question(q)] + init, r, name);
      LatestQuestionInRound(t, q, init);
      if AnsweredBy(r, name) {
        forall j | 0 <= j < |init| ensures !AnsweredBy(init[j], name) {
          assert init[j] == rs[j];
        }
        AnswersInNone(init, q, name);
      }
      AnswersInLast(rs, q, name);
    }
  }

  /** The entry a round's answers give `name`: one entry if some answer carries that name. */
  function AnswersIn(rs: seq<Record>, q: string, name: string): seq<Entry> {
    if rs == [] then []
    else if AnsweredBy(rs[|rs| - 1], name) then [Entry(Some(q), Content(rs[|rs| - 1]))]
    else AnswersIn(rs[..|rs| - 1], q, name)
  }

  lemma {:induction false} AnswersInNone(rs: seq<Record>, q: string, name: string)
    requires forall j :: 0 <= j < |rs| ==> !AnsweredBy(rs[j], name)
    ensures AnswersIn(rs, q, name) == []
  {
    if rs != [] {
      AnswersInNone(rs[..|rs| - 1], q, name);
    }
  }

  lemma AnswersInLast(rs: seq<Record>, q: string, name: string)
    requires rs != []
    requires forall i, j :: 0 <= i < j < |rs| ==> rs[i].name != rs[j].name
    ensures AnswersIn(rs, q, name)
            == AnswersIn(rs[..|rs| - 1], q, name) + (if AnsweredBy(rs[|rs| - 1], name) then [Entry(Some(q), Content(rs[|rs| - 1]))] else [])
  {
    var init := rs[..|rs| - 1];
    if AnsweredBy(rs[|rs| - 1], name) {
      forall j | 0 <= j < |init| ensures !AnsweredBy(init[j], name) {
        assert init[j] == rs[j];
      }
      AnswersInNone(init, q, name);
    }
  }

  /** An answer recorded before any question is paired with `None` (printed "Question: None"). */
  lemma AnswerBeforeAnyQuestion(name: string, text: string)
    ensures AnswersOf([Answer(name, text)], name) == [Entry(None, text)]
  {
    assert [Answer(name, text)][..0] == [];
  }
}
