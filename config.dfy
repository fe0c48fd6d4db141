/**
 * Validation and defaulting of the interview configuration, after the JSON
 * file has been parsed. Two shapes are accepted: the legacy single-topic
 * object and the batch object with a "features" array.
 */
module Config {
  import opened Wrappers

  /** A parsed JSON value (numbers are integers here). */
  datatype Json =
    | JNull
    | JBool(b: bool)
    | JInt(i: int)
    | JStr(s: string)
    | JArr(items: seq<Json>)
    | JObj(fields: map<string, Json>)

  /** Python truthiness of a parsed JSON value. */
  predicate Truthy(j: Json) {
    match j
    case JNull => false
    case JBool(b) => b
    case JInt(i) => i != 0
    case JStr(s) => s != ""
    case JArr(items) => items != []
    case JObj(fields) => fields != map[]
  }

  /** The `ValueError`s the loader raises, with the feature index where the message has one. */
  datatype ConfigError =
    | NotAnObject
    | FeaturesNotArray
    | FeatureNotObject(index: nat)
    | FeatureMissingFields(index: nat)
    | FeatureQuestionsNotArray(index: nat)
    | MissingTopicOrQuestions

  const DefaultMaxFollowups: int := 2

  /** The check made on feature `i` of a batch, in the order the loader makes them. */
  function FeatureError(f: Json, i: nat): (e: Option<ConfigError>)
    ensures e.None? <==> f.JObj? && "topic" in f.fields && "core_questions" in f.fields && f.fields["core_questions"].JArr?
    ensures e.Some? ==> e.value in {FeatureNotObject(i), FeatureMissingFields(i), FeatureQuestionsNotArray(i)}
    ensures !f.JObj? ==> e == Some(FeatureNotObject(i))
    ensures f.JObj? && ("topic" !in f.fields || "core_questions" !in f.fields) ==> e == Some(FeatureMissingFields(i))
    ensures f.JObj? && "topic" in f.fields && "core_questions" in f.fields && !f.fields["core_questions"].JArr?
            ==> e == Some(FeatureQuestionsNotArray(i))
  {
    if !f.JObj? then Some(FeatureNotObject(i))
    else if "topic" !in f.fields || "core_questions" !in f.fields then Some(FeatureMissingFields(i))
    else if !f.fields["core_questions"].JArr? then Some(FeatureQuestionsNotArray(i))
    else None
  }

  /** The error of the first feature at or after `from` that fails its check. */
  function FirstFeatureError(fs: seq<Json>, from: nat): (e: Option<ConfigError>)
    requires from <= |fs|
    ensures e.None? <==> forall i :: from <= i < |fs| ==> FeatureError(fs[i], i).None?
    ensures e.Some? ==> exists i :: from <= i < |fs| && e == FeatureError(fs[i], i)
                                 && forall k :: from <= k < i ==> FeatureError(fs[k], k).None?
    decreases |fs| - from
  {
    if from == |fs| then None
    else if FeatureError(fs[from], from).Some? then FeatureError(fs[from], from)
    else FirstFeatureError(fs, from + 1)
  }

  /** What `load_interview_config` returns or raises for a parsed document. */
  function ValidateConfig(data: Json): (r: Result<Json, ConfigError>)
    ensures !data.JObj? ==> r == Failure(NotAnObject)
    ensures data.JObj? && "features" in data.fields && !data.fields["features"].JArr? ==> r == Failure(FeaturesNotArray)
    ensures r.Success? ==> r.value.JObj? && "max_followups" in r.value.fields
  {
    if !data.JObj? then Failure(NotAnObject)
    else if "features" in data.fields then
      var features := data.fields["features"];
      if !features.JArr? then Failure(FeaturesNotArray)
      else match FirstFeatureError(features.items, 0)
        case Some(e) => Failure(e)
        case None =>
          if "max_followups" in data.fields then Success(data)
          else Success(JObj(data.fields["max_followups" := JInt(DefaultMaxFollowups)]))
    else
      var topic := if "topic" in data.fields then data.fields["topic"] else JNull;
      var coreQuestions := if "core_questions" in data.fields then data.fields["core_questions"] else JNull;
      var maxFollowups := if "max_followups" in data.fields then data.fields["max_followups"] else JInt(DefaultMaxFollowups);
      if !Truthy(topic) || !coreQuestions.JArr? then Failure(MissingTopicOrQuestions)
      else Success(JObj(map["topic" := topic, "core_questions" := coreQuestions, "max_followups" := maxFollowups]))
  }

  /** The batch form is accepted exactly when every feature passes its check, and then only gains a default. */
  lemma BatchAccepted(data: Json)
    requires data.JObj? && "features" in data.fields && data.fields["features"].JArr?
    ensures var fs := data.fields["features"].items;
            ValidateConfig(data).Success? <==> forall i :: 0 <= i < |fs| ==> FeatureError(fs[i], i).None?
    ensures ValidateConfig(data).Success? ==>
              var out := ValidateConfig(data).value;
              && out.JObj?
              && out.fields.Keys == data.fields.Keys + {"max_followups"}
              && (forall k :: k in data.fields && k != "max_followups" ==> out.fields[k] == data.fields[k])
              && out.fields["max_followups"] == if "max_followups" in data.fields then data.fields["max_followups"] else JInt(DefaultMaxFollowups)
  {
  }

  /** A rejected batch names the first failing feature; every earlier feature passed. */
  lemma BatchRejectedAtFirstBadFeature(data: Json)
    requires data.JObj? && "features" in data.fields && data.fields["features"].JArr?
    requires ValidateConfig(data).Failure?
    ensures var fs := data.fields["features"].items;
            exists i :: 0 <= i < |fs| && Some(ValidateConfig(data).error) == FeatureError(fs[i], i)
                      && forall k :: 0 <= k < i ==> FeatureError(fs[k], k).None?
  {
  }

  /** The legacy form is accepted exactly with a truthy topic and an array of questions, and keeps only three keys. */
  lemma LegacyAccepted(data: Json)
    requires data.JObj? && "features" !in data.fields
    ensures ValidateConfig(data).Success? <==>
              "topic" in data.fields && Truthy(data.fields["topic"])
              && "core_questions" in data.fields && data.fields["core_questions"].JArr?
    ensures ValidateConfig(data).Failure? ==> ValidateConfig(data).error == MissingTopicOrQuestions
    ensures ValidateConfig(data).Success? ==>
              var out := ValidateConfig(data).value;
              && out.JObj?
              && out.fields.Keys == {"topic", "core_questions", "max_followups"}
              && out.fields["topic"] == data.fields["topic"]
              && out.fields["core_questions"] == data.fields["core_questions"]
              && out.fields["max_followups"] == if "max_followups" in data.fields then data.fields["max_followups"] else JInt(DefaultMaxFollowups)
  {
  }

  /** Loading an accepted configuration again changes nothing: the output is its own normal form. */
  lemma ValidateIdempotent(data: Json)
    requires ValidateConfig(data).Success?
    ensures ValidateConfig(ValidateConfig(data).value) == ValidateConfig(data)
  {
    var out := ValidateConfig(data).value;
    if "features" in data.fields {
      var fs := data.fields["features"].items;
      assert out.fields["features"] == data.fields["features"];
      assert FirstFeatureError(fs, 0).None?;
    } else {
      assert "features" !in out.fields;
    }
  }

  /** `load_interview_config` after `json.load`: the checks, the feature loop and the default. */
  method LoadInterviewConfig(data: Json) returns (r: Result<Json, ConfigError>)
    ensures r == ValidateConfig(data)
    ensures r.Success? ==> r.value.JObj? && "max_followups" in r.value.fields
  {
    if !data.JObj? {
      return Failure(NotAnObject);
    }
    var fields := data.fields;
    if "features" in fields {
      if !fields["features"].JArr? {
        return Failure(FeaturesNotArray);
      }
      var features := fields["features"].items;
      for i := 0 to |features|
        invariant forall k :: 0 <= k < i ==> FeatureError(features[k], k).None?
      {
        var feature := features[i];
        if !feature.JObj? {
          return Failure(FeatureNotObject(i));
        }
        if "topic" !in feature.fields || "core_questions" !in feature.fields {
          return Failure(FeatureMissingFields(i));
        }
        if !feature.fields["core_questions"].JArr? {
          return Failure(FeatureQuestionsNotArray(i));
        }
      }
      if "max_followups" !in fields {
        fields := fields["max_followups" := JInt(DefaultMaxFollowups)];
      }
      return Success(JObj(fields));
    }
    var topic := if "topic" in fields then fields["topic"] else JNull;
    var coreQuestions := if "core_questions" in fields then fields["core_questions"] else JNull;
    var maxFollowups := if "max_followups" in fields then fields["max_followups"] else JInt(DefaultMaxFollowups);
    if !Truthy(topic) || !coreQuestions.JArr? {
      return Failure(MissingTopicOrQuestions);
    }
    return Success(JObj(map["topic" := topic, "core_questions" := coreQuestions, "max_followups" := maxFollowups]));
  }
}
