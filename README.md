# Userboard panel interview — a Dafny model

Userboard runs a simulated product-research interview. A facilitator agent
and a panel of persona agents discuss a product idea. The facilitator picks
each next question, or decides to end. Every persona then answers in roster
order and sees the answers already given. After the interview, a summariser
and a sentiment analyser read the transcript. Batch mode runs one interview
per feature with the same panel and tabulates the go/no-go decisions.

This project models the core of that orchestrator:

- Loading personas from CSV rows, including the composed description.
- Validating the interview configuration, in both its legacy and batch forms.
- The three transcript views given to the agents:
  - the facilitator's 20-record window;
  - the persona's view of earlier answers to the current question;
  - the summariser's full document.
- The per-persona grouping behind the sentiment prompt.
- The interview loop itself: rounds, follow-up counting and the stop rule.
- The batch loop and its summary table.

The language-model agents are total functions supplied by a `Backend` value. The
interview loop is written as the source writes it, as a method with a
`while` loop that breaks. It is proved equal to a recursive specification,
`Interview.RunFrom`. The properties of a conducted interview are proved as
lemmas about that specification:

- the transcript is made of whole rounds;
- each persona answers once per round, in roster order;
- the follow-up budget and the stop rule hold;
- on a question asked for the first time, and with distinct names, each
  persona is shown exactly the earlier answers of its round; when a question
  is asked again after its round closed, the persona is shown the first
  round's answers (`PersonaView.ClosedRoundIsFinal`).

Modules:

- `Wrappers`: Option and Result.
- `Text`: `str.strip` and `str.join`.
- `Transcript`: the records of a transcript.
- `Personas`: the CSV rows and `_build_description`.
- `Config`: `load_interview_config`, over an abstract JSON value.
- `Prompts`: the facilitator and summariser views.
- `PersonaView`: `transcript_to_persona_prompt`.
- `Sentiment`: `create_sentiment_prompt`.
- `Interview`: `run_interview`.
- `Batch`: `run_batch_interviews`.

All source paths below are in `Gaiar_Baimuratov/lesson2/userboard/userboard4-baimuratov.py`.

## Model

| member | source | states |
|---|---|---|
| Text.Strip | Gaiar_Baimuratov/lesson2/userboard/userboard4-baimuratov.py:27-51 | A stripped cell neither starts nor ends with whitespace. |
| Text.StripKeepsMiddle | Gaiar_Baimuratov/lesson2/userboard/userboard4-baimuratov.py:27-51 | Only whitespace is cut: the stripped cell is the middle of the cell, with an all-whitespace run before and after it. |
| Text.StripIdempotent | Gaiar_Baimuratov/lesson2/userboard/userboard4-baimuratov.py:27-28 | Stripping an already stripped cell changes nothing. |
| Text.StripEmptyIff | Gaiar_Baimuratov/lesson2/userboard/userboard4-baimuratov.py:69-70 | A stripped cell is empty exactly when the cell is all whitespace. This is the test that drops a nameless row. |
| Text.JoinEmptyIff | Gaiar_Baimuratov/lesson2/userboard/userboard4-baimuratov.py:55 | When no part is empty, joining gives "" exactly when there are no parts. |
| Text.Join | Gaiar_Baimuratov/lesson2/userboard/userboard4-baimuratov.py:55 | Joining n >= 1 parts gives the parts' total length plus n - 1 separators; one part is returned as is, no parts give "". |
| Text.JoinStartsWithFirst | Gaiar_Baimuratov/lesson2/userboard/userboard4-baimuratov.py:55 | A join starts with its first part. |
| Personas.Describe | Gaiar_Baimuratov/lesson2/userboard/userboard4-baimuratov.py:23-55 | The description is empty exactly when role, context, goals, pain points, tech-savvy and description are all blank. The age alone adds nothing. |
| Personas.AgeNeedsRole | Gaiar_Baimuratov/lesson2/userboard/userboard4-baimuratov.py:29-32 | Without a role, the age never changes the description. |
| Personas.AgeLeadsWithRole | Gaiar_Baimuratov/lesson2/userboard/userboard4-baimuratov.py:29-30 | With both an age and a role, the description starts with "<age>-year‑old <role>". |
| Personas.ExplicitDescriptionLast | Gaiar_Baimuratov/lesson2/userboard/userboard4-baimuratov.py:50-55 | A non-blank explicit description column ends the composed description. |
| Personas.RowPersona | Gaiar_Baimuratov/lesson2/userboard/userboard4-baimuratov.py:68-82 | A row yields a persona exactly when its stripped name is non-empty. The persona's name is that stripped name. |
| Personas.Somes | Gaiar_Baimuratov/lesson2/userboard/userboard4-baimuratov.py:71-72 | Dropping the skipped rows keeps only present personas and never adds any. |
| Personas.SomesAppend | Gaiar_Baimuratov/lesson2/userboard/userboard4-baimuratov.py:68-82 | Filtering distributes over concatenation. |
| Personas.SomesCount | Gaiar_Baimuratov/lesson2/userboard/userboard4-baimuratov.py:68-82 | The filtered list is as long as the number of present entries. |
| Personas.SomesPrefixCount | Gaiar_Baimuratov/lesson2/userboard/userboard4-baimuratov.py:68-82 | Over any prefix, the filtered list is as long as the set of positions holding a present entry. |
| Personas.RowResultsAppend | Gaiar_Baimuratov/lesson2/userboard/userboard4-baimuratov.py:68 | Per-row results distribute over concatenation. |
| Personas.RowsToPersonasAppend | Gaiar_Baimuratov/lesson2/userboard/userboard4-baimuratov.py:68-84 | Loading two files of rows back to back equals loading each and concatenating: order is kept. |
| Personas.RowsToPersonasCount | Gaiar_Baimuratov/lesson2/userboard/userboard4-baimuratov.py:68-72 | One persona per row with a non-blank name, and no more. |
| Personas.SingleRow | Gaiar_Baimuratov/lesson2/userboard/userboard4-baimuratov.py:68-84 | One row gives its persona, or nothing when it has no name. |
| Personas.LoadPersonas | Gaiar_Baimuratov/lesson2/userboard/userboard4-baimuratov.py:58-84 | The row loop returns the personas of the named rows, in order. Every loaded name is non-empty and already stripped. |
| Config.ValidateConfig | Gaiar_Baimuratov/lesson2/userboard/userboard4-baimuratov.py:133-170 | A document that is not an object is rejected as such; a "features" value that is not an array is rejected as such; every accepted config is an object holding "max_followups". |
| Config.FeatureError | Gaiar_Baimuratov/lesson2/userboard/userboard4-baimuratov.py:142-148 | A feature passes exactly when it is an object with "topic" and an array "core_questions". A non-object gives the not-an-object error, a missing topic or core_questions the missing-fields error, and a non-array core_questions its own error, each naming the feature's index. |
| Config.FirstFeatureError | Gaiar_Baimuratov/lesson2/userboard/userboard4-baimuratov.py:142-148 | There is no error exactly when every feature passes. An error comes from the first feature that fails. |
| Config.BatchAccepted | Gaiar_Baimuratov/lesson2/userboard/userboard4-baimuratov.py:137-154 | A batch config is accepted exactly when every feature passes. The accepted config keeps every field and adds "max_followups" = 2 only when it is absent. |
| Config.BatchRejectedAtFirstBadFeature | Gaiar_Baimuratov/lesson2/userboard/userboard4-baimuratov.py:142-148 | A rejected batch config reports the error of the first failing feature. |
| Config.LegacyAccepted | Gaiar_Baimuratov/lesson2/userboard/userboard4-baimuratov.py:156-170 | A legacy config is accepted exactly when its topic is truthy and its core questions are an array. The result holds exactly topic, core_questions and max_followups (default 2). Otherwise the error is the missing-fields error. |
| Config.ValidateIdempotent | Gaiar_Baimuratov/lesson2/userboard/userboard4-baimuratov.py:90-170 | An accepted config, validated again, is accepted unchanged. |
| Config.LoadInterviewConfig | Gaiar_Baimuratov/lesson2/userboard/userboard4-baimuratov.py:132-170 | The validation loop agrees with the validation function. On success the config always holds "max_followups". |
| Prompts.RenderEachAppend | Gaiar_Baimuratov/lesson2/userboard/userboard4-baimuratov.py:360-371 | Rendering records one by one distributes over concatenation: each record keeps its place. |
| Prompts.RenderEachConcat | Gaiar_Baimuratov/lesson2/userboard/userboard4-baimuratov.py:360-371 | Rendering record by record is the concatenation of the records' lines, in order. |
| Prompts.RecentWindow | Gaiar_Baimuratov/lesson2/userboard/userboard4-baimuratov.py:358 | The facilitator's window is the last min(20, n) records, in order. |
| Prompts.FacilitatorMessages | Gaiar_Baimuratov/lesson2/userboard/userboard4-baimuratov.py:334-378 | Two messages, system then user. The user prompt is the header, then the line of each of the last min(20, n) records in order, then the closing instruction. |
| Prompts.OlderRecordsHidden | Gaiar_Baimuratov/lesson2/userboard/userboard4-baimuratov.py:358 | Once 20 recent records exist, older records do not affect the facilitator prompt at all. |
| Prompts.WindowSlides | Gaiar_Baimuratov/lesson2/userboard/userboard4-baimuratov.py:358 | When the window is full, a new record pushes out exactly the oldest shown record. |
| Prompts.DocumentExtends | Gaiar_Baimuratov/lesson2/userboard/userboard4-baimuratov.py:479-492 | Appending a record appends exactly its line to the summariser's document. |
| Prompts.StringMessages | Gaiar_Baimuratov/lesson2/userboard/userboard4-baimuratov.py:471-501 | Two messages, system then user. The user message is "Interview Transcript:" followed by one paragraph per record, in transcript order. |
| Prompts.DocumentOfRound | Gaiar_Baimuratov/lesson2/userboard/userboard4-baimuratov.py:486-490 | A round reads as a "Facilitator: q" paragraph followed by one "name: answer" paragraph per persona, in order. |
| Prompts.AnswerLines | Gaiar_Baimuratov/lesson2/userboard/userboard4-baimuratov.py:488-490 | A round's answers read as one "name: answer" paragraph each, in order. |
| PersonaView.FirstAsk | Gaiar_Baimuratov/lesson2/userboard/userboard4-baimuratov.py:432-435 | Collecting starts at the first record asking the current question. |
| PersonaView.RoundEnd | Gaiar_Baimuratov/lesson2/userboard/userboard4-baimuratov.py:448-453 | The scan stops at the first later record that asks a different question, or at the end. |
| PersonaView.PeerAnswers | Gaiar_Baimuratov/lesson2/userboard/userboard4-baimuratov.py:437-446 | The kept records are exactly the named assistant records not written by the persona, in order. |
| PersonaView.PeerAnswersFromSource | Gaiar_Baimuratov/lesson2/userboard/userboard4-baimuratov.py:437-446 | Every kept record is a named answer by someone else and comes from the scanned records. |
| PersonaView.PeerLines | Gaiar_Baimuratov/lesson2/userboard/userboard4-baimuratov.py:444-446 | One "name: content" line per kept record. |
| PersonaView.Shown | Gaiar_Baimuratov/lesson2/userboard/userboard4-baimuratov.py:432-453 | Everything shown is another persona's named answer, no more records than the transcript has, and nothing when no record asks the question. |
| PersonaView.PersonaPromptText | Gaiar_Baimuratov/lesson2/userboard/userboard4-baimuratov.py:421-462 | The prompt ends with the "first to answer" sentence when no line was collected, and with the invitation to react to others otherwise. |
| PersonaView.PersonaMessages | Gaiar_Baimuratov/lesson2/userboard/userboard4-baimuratov.py:455-467 | Two messages, system then user. The user prompt ends with the invitation to react exactly when something is shown, and with the "first to answer" sentence otherwise. |
| PersonaView.ScanStep | Gaiar_Baimuratov/lesson2/userboard/userboard4-baimuratov.py:437-446 | One more scanned record adds its line exactly when it is another persona's named answer. |
| PersonaView.ScanAsk | Gaiar_Baimuratov/lesson2/userboard/userboard4-baimuratov.py:433-435 | A record asking the question starts collecting. It keeps the anchor when collecting was already on. |
| PersonaView.ScanOther | Gaiar_Baimuratov/lesson2/userboard/userboard4-baimuratov.py:437-446 | Any other record that does not end the round adds at most its own line. |
| PersonaView.ScanFinished | Gaiar_Baimuratov/lesson2/userboard/userboard4-baimuratov.py:448-453 | When the scan stops, at a different question or at the end, the lines collected are those of the shown records. |
| PersonaView.ScanRecord | Gaiar_Baimuratov/lesson2/userboard/userboard4-baimuratov.py:432-453 | One pass of the scan body either stops with the final lines, or keeps the scan invariant one record further. |
| PersonaView.CollectResponses | Gaiar_Baimuratov/lesson2/userboard/userboard4-baimuratov.py:428-453 | The scan loop returns the lines of exactly the records the view shows. |
| PersonaView.TranscriptToPersonaPrompt | Gaiar_Baimuratov/lesson2/userboard/userboard4-baimuratov.py:381-467 | The scan-then-build method produces exactly `PersonaMessages`: the peers' paragraph when any line was collected, the "first to answer" sentence otherwise. |
| PersonaView.OwnAnswersExcluded | Gaiar_Baimuratov/lesson2/userboard/userboard4-baimuratov.py:441-443 | A persona is never shown its own answers. Everything shown is a named answer by another persona, taken from the transcript. |
| PersonaView.ShownWindow | Gaiar_Baimuratov/lesson2/userboard/userboard4-baimuratov.py:432-453 | Shown are exactly the peer answers between the first ask and the next different question. |
| PersonaView.FirstAskAt | Gaiar_Baimuratov/lesson2/userboard/userboard4-baimuratov.py:432-435 | The first ask is the ask that no earlier record matches. |
| PersonaView.RoundEndAt | Gaiar_Baimuratov/lesson2/userboard/userboard4-baimuratov.py:448-453 | The end of the round is the first different question after the anchor. |
| PersonaView.NoQuestionNoPeers | Gaiar_Baimuratov/lesson2/userboard/userboard4-baimuratov.py:455-462 | Without a record asking the question, nothing is shown. The prompt then ends with the "first to answer" sentence. |
| PersonaView.FirstToAnswerIff | Gaiar_Baimuratov/lesson2/userboard/userboard4-baimuratov.py:456-462 | The "first to answer" wording is used exactly when nothing is shown. |
| PersonaView.ClosedRoundIsFinal | Gaiar_Baimuratov/lesson2/userboard/userboard4-baimuratov.py:448-453 | Once the first round of the question has been closed by another question, no later record changes what is shown. That includes a later round that asks the same question again. |
| PersonaView.AllPeerAnswers | Gaiar_Baimuratov/lesson2/userboard/userboard4-baimuratov.py:437-446 | When every record is another persona's answer, the filter keeps them all. |
| PersonaView.FreshQuestionView | Gaiar_Baimuratov/lesson2/userboard/userboard4-baimuratov.py:432-453 | After a question never asked before, the persona is shown the peer answers that follow it. |
| PersonaView.FreshRoundShown | Gaiar_Baimuratov/lesson2/userboard/userboard4-baimuratov.py:432-453 | After a fresh question followed only by other personas' answers, those answers are shown in full, in order. |
| PersonaView.AppendedQuestion | Gaiar_Baimuratov/lesson2/userboard/userboard4-baimuratov.py:964-965 | A question appended to a transcript without it is the first ask, and nothing after it ends the round. |
| PersonaView.PeerAnswersAppend | Gaiar_Baimuratov/lesson2/userboard/userboard4-baimuratov.py:437-446 | Filtering distributes over concatenation. |
| PersonaView.SkipQuestion | Gaiar_Baimuratov/lesson2/userboard/userboard4-baimuratov.py:437-446 | A question record inside the scanned records is never collected. |
| PersonaView.OpenRoundView | Gaiar_Baimuratov/lesson2/userboard/userboard4-baimuratov.py:432-453 | After the first ask of the question, when nothing later asks a different question, the persona is shown every peer answer after the ask. |
| PersonaView.RepeatedQuestionKeepsCollecting | Gaiar_Baimuratov/lesson2/userboard/userboard4-baimuratov.py:433-435 | Asking the same question again inside the round does not stop the scan: the peer answers after both asks are shown, in order. |
| Sentiment.LastQuestion | Gaiar_Baimuratov/lesson2/userboard/userboard4-baimuratov.py:510-514 | The current question is None exactly when no facilitator record has been seen yet. |
| Sentiment.AnswersOf | Gaiar_Baimuratov/lesson2/userboard/userboard4-baimuratov.py:512-524 | A persona's entries are no more than the records, and there are none exactly when no record is that persona's named answer. |
| Sentiment.FirstOccurrences | Gaiar_Baimuratov/lesson2/userboard/userboard4-baimuratov.py:506-508 | The dictionary's keys are the roster's names without repeats, each in the place of its first insertion. |
| Sentiment.FirstOccurrencesOfUnique | Gaiar_Baimuratov/lesson2/userboard/userboard4-baimuratov.py:506-508 | With distinct names, the keys are the names in roster order. |
| Sentiment.EmptyGroups | Gaiar_Baimuratov/lesson2/userboard/userboard4-baimuratov.py:506-508 | The first loop creates one empty group per distinct roster name, in insertion order. |
| Sentiment.KeysStep | Gaiar_Baimuratov/lesson2/userboard/userboard4-baimuratov.py:507-508 | Inserting a name adds a key only when it is new. |
| Sentiment.GroupResponses | Gaiar_Baimuratov/lesson2/userboard/userboard4-baimuratov.py:506-524 | The grouping loops give each roster name the list of its answers, each paired with the latest question before it. |
| Sentiment.GroupingStep | Gaiar_Baimuratov/lesson2/userboard/userboard4-baimuratov.py:512-524 | One more record either updates the current question or appends one entry to its author's group. |
| Sentiment.GroupRecord | Gaiar_Baimuratov/lesson2/userboard/userboard4-baimuratov.py:512-524 | One pass of the grouping loop body keeps the loop invariant one record further. |
| Sentiment.Grouping | Gaiar_Baimuratov/lesson2/userboard/userboard4-baimuratov.py:506-524 | The groups are keyed by exactly the roster's names. |
| Sentiment.DictIsGrouping | Gaiar_Baimuratov/lesson2/userboard/userboard4-baimuratov.py:506-524 | Any dictionary with those keys and those answer lists is the grouping. |
| Sentiment.CreateSentimentPrompt | Gaiar_Baimuratov/lesson2/userboard/userboard4-baimuratov.py:505-541 | The imperative prompt builder produces exactly `SentimentMessages`. |
| Sentiment.SentimentMessages | Gaiar_Baimuratov/lesson2/userboard/userboard4-baimuratov.py:527-540 | Two messages, system then user. The user prompt starts with the sentiment instruction. |
| Sentiment.RenderSections | Gaiar_Baimuratov/lesson2/userboard/userboard4-baimuratov.py:531-535 | The rendering loop writes one section per key, in insertion order. |
| Sentiment.UnknownNamesDropped | Gaiar_Baimuratov/lesson2/userboard/userboard4-baimuratov.py:515-519 | An answer by a name outside the roster gets no group. |
| Sentiment.AnswersOfExtend | Gaiar_Baimuratov/lesson2/userboard/userboard4-baimuratov.py:512-524 | Appending a record appends at most one entry, paired with the latest question so far. |
| Sentiment.LatestQuestionInRound | Gaiar_Baimuratov/lesson2/userboard/userboard4-baimuratov.py:513-514 | Inside a round, the current question is the round's question. |
| Sentiment.AnswersOfRound | Gaiar_Baimuratov/lesson2/userboard/userboard4-baimuratov.py:512-524 | A round adds to each persona's group exactly that persona's answers, paired with the round's question. |
| Sentiment.AnswersInNone | Gaiar_Baimuratov/lesson2/userboard/userboard4-baimuratov.py:515-524 | A persona that did not answer in a round gets no entry from it. |
| Sentiment.AnswersInLast | Gaiar_Baimuratov/lesson2/userboard/userboard4-baimuratov.py:515-524 | The entries of a round grow by at most the last answer. |
| Sentiment.AnswerBeforeAnyQuestion | Gaiar_Baimuratov/lesson2/userboard/userboard4-baimuratov.py:510-524 | An answer before any question is grouped with the question None. |
| Interview.OtherPanelists | Gaiar_Baimuratov/lesson2/userboard/userboard4-baimuratov.py:885-892 | Exactly the other panelists are listed: every roster member whose name differs from the persona's has its "• name: description" line, and every line is such a member's. There is at most one line per roster member, and the list is empty exactly when every roster name is the persona's own. |
| Interview.PanelContext | Gaiar_Baimuratov/lesson2/userboard/userboard4-baimuratov.py:888-893 | The panel context starts with the first other panelist's line when there is one. It always starts with a "• " bullet. |
| Interview.PanelContextNone | Gaiar_Baimuratov/lesson2/userboard/userboard4-baimuratov.py:893 | The panel context is "• (none)" exactly when no one else, by name, is on the panel. |
| Interview.OtherPanelistHasColon | Gaiar_Baimuratov/lesson2/userboard/userboard4-baimuratov.py:889 | Every other-panelist line holds a "name: description" colon. |
| Interview.GenerateStyles | Gaiar_Baimuratov/lesson2/userboard/userboard4-baimuratov.py:835-876 | The style map has exactly the roster's names plus "Facilitator" and "default", and those two have their fixed styles. A name's style comes from its last roster position: the explicit colour or emoji when present, otherwise the palette entry at that position. |
| Interview.PaletteCycles | Gaiar_Baimuratov/lesson2/userboard/userboard4-baimuratov.py:864-866 | Default colours and emojis repeat every ten personas. |
| Interview.BuildPersonaAgents | Gaiar_Baimuratov/lesson2/userboard/userboard4-baimuratov.py:883-901 | One agent per persona, in roster order, each with its own name, description and panel context. |
| Interview.RulesOfFollows | Gaiar_Baimuratov/lesson2/userboard/userboard4-baimuratov.py:946-1004 | The rules built from a panel and a backend decide and reply as that backend's agents do. |
| Interview.CollectAnswers | Gaiar_Baimuratov/lesson2/userboard/userboard4-baimuratov.py:972-992 | The persona loop appends exactly one record per remaining persona and keeps the earlier transcript unchanged. |
| Interview.PlayRound | Gaiar_Baimuratov/lesson2/userboard/userboard4-baimuratov.py:963-999 | A round adds 1 + roster-size records, the first of them the question, and keeps the earlier transcript unchanged. |
| Interview.RunFrom | Gaiar_Baimuratov/lesson2/userboard/userboard4-baimuratov.py:946-1004 | The run only extends the asked list and asks at most max(1, core + max_followups) questions. It stops at once, unchanged, when the facilitator ends, and asks at least one more question otherwise. |
| Interview.Conduct | Gaiar_Baimuratov/lesson2/userboard/userboard4-baimuratov.py:905-1004 | A whole interview has (roster size + 1) records per asked question, and asks nothing exactly when the facilitator ends at once. |
| Interview.AskFacilitator | Gaiar_Baimuratov/lesson2/userboard/userboard4-baimuratov.py:948-954 | The facilitator's decision is the backend's answer to the facilitator prompt for the current state. |
| Interview.PersonaTurn | Gaiar_Baimuratov/lesson2/userboard/userboard4-baimuratov.py:973-992 | One persona's turn appends its named reply to the live transcript, as `CollectAnswers` does for that persona. |
| Interview.AskPanel | Gaiar_Baimuratov/lesson2/userboard/userboard4-baimuratov.py:972-994 | The persona loop produces exactly `CollectAnswers` of the round. |
| Interview.RunRounds | Gaiar_Baimuratov/lesson2/userboard/userboard4-baimuratov.py:946-1004 | The `while True` loop with its two breaks ends in the state `RunFrom` reaches. |
| Interview.InterviewLoop | Gaiar_Baimuratov/lesson2/userboard/userboard4-baimuratov.py:905-1004 | Each asked question contributes one question record and one answer per persona. The follow-up counter equals the number of asked questions outside the core list. At most max(1, core + max_followups) questions are asked. |
| Interview.RunInterview | Gaiar_Baimuratov/lesson2/userboard/userboard4-baimuratov.py:810-1034 | The result holds the topic, the summary of the full transcript and the sentiment analysis of its grouping. |
| Interview.FollowupCount | Gaiar_Baimuratov/lesson2/userboard/userboard4-baimuratov.py:998-999 | The number of follow-ups never exceeds the number of asked questions. |
| Interview.RoundsLength | Gaiar_Baimuratov/lesson2/userboard/userboard4-baimuratov.py:963-992 | A transcript of whole rounds has (roster size + 1) records per question. |
| Interview.CollectAnswersSpec | Gaiar_Baimuratov/lesson2/userboard/userboard4-baimuratov.py:972-992 | A round keeps the earlier transcript and appends one answer per persona, in roster order. Each answer is computed on the transcript as it stood at that persona's turn. |
| Interview.PersonaSeesEarlierAnswers | Gaiar_Baimuratov/lesson2/userboard/userboard4-baimuratov.py:972-992 | On a question not asked before, and with distinct names, each persona is shown exactly the answers given before its turn in that round. |
| Interview.AnswerAt | Gaiar_Baimuratov/lesson2/userboard/userboard4-baimuratov.py:978-992 | The j-th answer of a round is persona j's reply to the transcript before it. |
| Interview.RoundPrefix | Gaiar_Baimuratov/lesson2/userboard/userboard4-baimuratov.py:983-992 | What persona j sees is the old transcript plus the answers of the first j personas. |
| Interview.EarlierAnswersArePeers | Gaiar_Baimuratov/lesson2/userboard/userboard4-baimuratov.py:987-992 | With distinct names, every answer before persona j's turn is a named answer by someone else. |
| Interview.RoundAnswers | Gaiar_Baimuratov/lesson2/userboard/userboard4-baimuratov.py:972-992 | A round appends exactly one named answer per persona, in roster order. |
| Interview.PlayRoundShape | Gaiar_Baimuratov/lesson2/userboard/userboard4-baimuratov.py:963-999 | A round keeps the transcript a sequence of whole rounds, adds 1 + roster-size records and records the question as asked. |
| Interview.RunFromAsked | Gaiar_Baimuratov/lesson2/userboard/userboard4-baimuratov.py:946-1004 | From any reachable state, the run only extends the asked list. It stops at once when the facilitator ends, or asks at least one more question otherwise. It ends only on the facilitator's decision or on the stop rule, and no earlier prefix met the stop rule. |
| Interview.RunFromRounds | Gaiar_Baimuratov/lesson2/userboard/userboard4-baimuratov.py:946-1004 | The run only extends the transcript and keeps it a sequence of whole rounds. |
| Interview.ConductFacts | Gaiar_Baimuratov/lesson2/userboard/userboard4-baimuratov.py:905-1004 | A whole interview is made of whole rounds, and its follow-up count is exact. Nothing is asked exactly when the facilitator ends at once. It ended by the facilitator or by the stop rule, and never passed a point where the stop rule held. |
| Interview.NoBudgetOneRound | Gaiar_Baimuratov/lesson2/userboard/userboard4-baimuratov.py:1000-1004 | With max_followups <= 0, at most one question is asked. |
| Interview.FollowupBudget | Gaiar_Baimuratov/lesson2/userboard/userboard4-baimuratov.py:998-1004 | At most max(1, max_followups) follow-ups are used. |
| Interview.ImmediateEnd | Gaiar_Baimuratov/lesson2/userboard/userboard4-baimuratov.py:957-961 | When the facilitator ends at once, the transcript is empty. |
| Interview.EntriesPerRound | Gaiar_Baimuratov/lesson2/userboard/userboard4-baimuratov.py:505-524 | With distinct names, the sentiment grouping gives every persona exactly one entry per asked question, paired with that question, in order. |
| Interview.RoundsEntries | Gaiar_Baimuratov/lesson2/userboard/userboard4-baimuratov.py:512-524 | Over a transcript of whole rounds, persona j has one entry per asked question, with that question. |
| Interview.RosterRoundEntry | Gaiar_Baimuratov/lesson2/userboard/userboard4-baimuratov.py:972-992 | In a round with distinct names, persona j's only entry is its own answer, paired with the round's question. |
| Interview.AnswersInAt | Gaiar_Baimuratov/lesson2/userboard/userboard4-baimuratov.py:515-524 | A round in which only record j is by that persona gives exactly that one entry. |
| Batch.MapSeq | Gaiar_Baimuratov/lesson2/userboard/userboard4-baimuratov.py:1061-1079 | Applying a function elementwise keeps length and order. |
| Batch.MapSeqStep | Gaiar_Baimuratov/lesson2/userboard/userboard4-baimuratov.py:1061-1079 | One more feature appends one more result. |
| Batch.RunBatchInterviews | Gaiar_Baimuratov/lesson2/userboard/userboard4-baimuratov.py:1038-1079 | One result per feature, in order. Each result is that of an interview of the feature alone, with the shared roster and budget. |
| Batch.TopRationale | Gaiar_Baimuratov/lesson2/userboard/userboard4-baimuratov.py:1093 | The key points are the first min(2, n) rationale items, unchanged. |
| Batch.Bullets | Gaiar_Baimuratov/lesson2/userboard/userboard4-baimuratov.py:1093 | Each point becomes one "• " line, in order. |
| Batch.KeyPointsEmptyIff | Gaiar_Baimuratov/lesson2/userboard/userboard4-baimuratov.py:1093 | The key-points cell is blank exactly when the report gives no rationale. |
| Batch.SummaryTable | Gaiar_Baimuratov/lesson2/userboard/userboard4-baimuratov.py:1089-1102 | One row per result, in order. A row shows "approved" exactly when the decision reads "GO". |

## Left out

- Language-model calls are total functions of a `Backend` value. A failing call, an exception and `Runner.run` itself are not modelled. The same goes for trace spans and asynchrony.
- Agent factories: the instructions text, the model names and the settings. Each agent is modelled by the data it is built from.
- Console output: Rich tables, panels, colours and `print_persona_response`. The style map is modelled, but its only use is for printing.
- File input and output: reading and parsing the CSV and JSON files, and the missing-file error. Rows are maps from column to text, and the configuration is an abstract JSON value.
- `transcript_to_markdown`, `save_transcript_to_file`, `print_executive_summary` and the "transcript_file" field and table column. An interview returns its transcript instead of a file path.
- The `__main__` entry point and command-line handling.
- Prompts.ListText: the Python list rendering in the facilitator prompt puts single quotes around each item. Python's `repr` quoting and escaping is not modelled: its switch to double quotes for an item holding `'`, and its escaping of backslashes, newlines and other non-printable characters.
- Config: JSON numbers are integers only. A float "max_followups" is not modelled.
- Personas.LoadPersonas: a CSV line with fewer cells than the header gives `None` cells, and the source's `.strip()` then raises `AttributeError`. The model's rows hold text cells only, and an absent column reads as "", so that error is not modelled.
- The output schemas (summary report, sentiment analysis) are records with the fields the core reads. Their validation by the agent framework is not modelled.
- Interview: the panel inputs are typed values, so a persona without "name" or "description" cannot occur.
- Interview.InterviewLoop: the source loop has no explicit bound. Its stop rule ends it after at most max(1, core + max_followups) questions, even when max_followups <= 0, and `RunFrom` uses that bound as its termination measure.
- Batch: progress printing between interviews is not modelled.
