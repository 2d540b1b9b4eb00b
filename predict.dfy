/**
 * The `/predict` handler of backend/app.py: the features check, then the
 * prompt, the completion call, and the shaping of the parsed reply into a
 * prediction and a report.
 */
module Predict {
  import opened Wrappers
  import opened Text
  import opened Prompt
  import opened Completion

  const FeatureCount := 12
  const FeaturesError := "Exactly 12 features required"

  /**
   * `features = body.get("features") or []` and the length check: `None`
   * stands for a missing, `null` or otherwise false-valued `features`.
   */
  function CheckFeatures(features: Option<seq<real>>): (r: Result<seq<real>, string>)
    ensures r.Ok? <==> features.Some? && |features.value| == FeatureCount
    ensures r.Ok? ==> r.value == features.value
    ensures r.Err? ==> r.error == FeaturesError
  {
    var fs := if features.Some? then features.value else [];
    if |fs| != FeatureCount then Err(FeaturesError) else Ok(fs)
  }

  /**
   * The prediction: `diagnosis_result` (a missing, `None` or empty value read
   * as "NORMAL"), trimmed and upper-cased, kept when it is "NORMAL" or
   * "ABNORMAL" and replaced by "NORMAL" otherwise.
   */
  function NormalizeDiagnosis(d: Option<string>): (r: string)
    ensures r == "NORMAL" || r == "ABNORMAL"
    ensures r == "ABNORMAL" <==> d.Some? && UpperAscii(Strip(d.value)) == "ABNORMAL"
  {
    var raw := if d.Some? && d.value != "" then d.value else "NORMAL";
    var u := UpperAscii(Strip(raw));
    if u == "NORMAL" || u == "ABNORMAL" then u else "NORMAL"
  }

  /** A literal fact, kept in a lemma of its own so that the solver meets it in a small context. */
  lemma StripNormal()
    ensures Strip("NORMAL") == "NORMAL"
  {
    assert [] + "NORMAL" + [] == "NORMAL";
    StripPadded([], "NORMAL", []);
  }

  /** A literal fact, kept in a lemma of its own so that the solver meets it in a small context. */
  lemma StripAbnormal()
    ensures Strip("ABNORMAL") == "ABNORMAL"
  {
    assert [] + "ABNORMAL" + [] == "ABNORMAL";
    StripPadded([], "ABNORMAL", []);
  }

  /** A literal fact, kept in a lemma of its own so that the solver meets it in a small context. */
  lemma UpperOfNormal()
    ensures UpperAscii("NORMAL") == "NORMAL" && "NORMAL" != "ABNORMAL"
  {
  }

  /** A literal fact, kept in a lemma of its own so that the solver meets it in a small context. */
  lemma UpperOfAbnormal()
    ensures UpperAscii("ABNORMAL") == "ABNORMAL"
  {
  }

  /** "NORMAL" is left as it is. */
  lemma NormalizeNormal()
    ensures NormalizeDiagnosis(Some("NORMAL")) == "NORMAL"
  {
    StripNormal();
    UpperOfNormal();
  }

  /** "ABNORMAL" is left as it is. */
  lemma NormalizeAbnormal()
    ensures NormalizeDiagnosis(Some("ABNORMAL")) == "ABNORMAL"
  {
    StripAbnormal();
    UpperOfAbnormal();
  }

  /** Normalising an already normalised prediction leaves it as it is. */
  lemma NormalizeIdempotent(d: Option<string>)
    ensures NormalizeDiagnosis(Some(NormalizeDiagnosis(d))) == NormalizeDiagnosis(d)
  {
    if NormalizeDiagnosis(d) == "NORMAL" {
      NormalizeNormal();
    } else {
      NormalizeAbnormal();
    }
  }

  /** The prediction depends only on the value once trimmed and upper-cased. */
  lemma NormalizeByKey(x: string, y: string)
    requires UpperAscii(Strip(x)) == UpperAscii(Strip(y))
    ensures NormalizeDiagnosis(Some(x)) == NormalizeDiagnosis(Some(y))
  {
  }

  /** Surrounding whitespace does not matter: a padded value gives the same prediction. */
  lemma NormalizeIgnoresSpace(w1: string, s: string, w2: string)
    requires AllSpace(w1) && AllSpace(w2) && IsTrimmed(s)
    ensures NormalizeDiagnosis(Some(w1 + s + w2)) == NormalizeDiagnosis(Some(s))
  {
    StripPadded(w1, s, w2);
    StripPadded([], s, []);
    assert [] + s + [] == s;
    NormalizeByKey(w1 + s + w2, s);
  }

  /** Case does not matter: an upper-cased value gives the same prediction. */
  lemma NormalizeIgnoresCase(s: string)
    ensures NormalizeDiagnosis(Some(UpperAscii(s))) == NormalizeDiagnosis(Some(s))
  {
    StripUpper(s);
    UpperIdempotent(Strip(s));
    NormalizeByKey(UpperAscii(s), s);
  }

  /** A literal fact, kept in a lemma of its own so that the solver meets it in a small context. */
  lemma SpacedAbnormal()
    ensures " " + "abnormal" + " " == " abnormal "
    ensures AllSpace(" ") && IsTrimmed("abnormal")
  {
  }

  /** A literal fact, kept in a lemma of its own so that the solver meets it in a small context. */
  lemma UpperAbnormal()
    ensures UpperAscii("abnormal") == "ABNORMAL"
  {
  }

  /** A literal fact, kept in a lemma of its own so that the solver meets it in a small context. */
  lemma UpperNormal()
    ensures UpperAscii("normal") == "NORMAL"
  {
  }

  /** A padded lower-case "abnormal" is recognised. */
  lemma NormalizeSpacedAbnormal()
    ensures NormalizeDiagnosis(Some(" abnormal ")) == "ABNORMAL"
  {
    SpacedAbnormal();
    NormalizeIgnoresSpace(" ", "abnormal", " ");
    UpperAbnormal();
    NormalizeIgnoresCase("abnormal");
    NormalizeAbnormal();
  }

  /** A lower-case "normal" is recognised. */
  lemma NormalizeLowerNormal()
    ensures NormalizeDiagnosis(Some("normal")) == "NORMAL"
  {
    UpperNormal();
    NormalizeIgnoresCase("normal");
    NormalizeNormal();
  }

  /** A literal fact, kept in a lemma of its own so that the solver meets it in a small context. */
  lemma StripMaybe()
    ensures Strip("maybe") == "maybe"
  {
    assert "maybe" == [] + "maybe" + [];
    StripPadded([], "maybe", []);
  }

  /** A literal fact, kept in a lemma of its own so that the solver meets it in a small context. */
  lemma UpperMaybe()
    ensures UpperAscii("maybe") == "MAYBE"
    ensures "MAYBE" != "ABNORMAL"
  {
  }

  /** An unknown value reads as "NORMAL". */
  lemma NormalizeUnknown()
    ensures NormalizeDiagnosis(Some("maybe")) == "NORMAL"
  {
    StripMaybe();
    UpperMaybe();
  }

  /** Concrete cases: " abnormal " and "normal" are recognised, anything else reads as normal. */
  lemma NormalizeExamples()
    ensures NormalizeDiagnosis(Some(" abnormal ")) == "ABNORMAL"
    ensures NormalizeDiagnosis(Some("normal")) == "NORMAL"
    ensures NormalizeDiagnosis(Some("maybe")) == "NORMAL"
    ensures NormalizeDiagnosis(None) == "NORMAL"
  {
    NormalizeSpacedAbnormal();
    NormalizeLowerNormal();
    NormalizeUnknown();
  }

  /** The narrative fields that make up the report, in report order. */
  const ReportKeys := ["reason_summary", "plan_actions", "nutritional_advice", "avoid_list", "doctor_visit_trigger", "consult_recommendation"]

  const Paragraph := "\n\n"

  /** The trimmed values of the usable keys among `keys`, in key order. */
  function Kept(reply: Json, keys: seq<string>): (parts: seq<string>)
    ensures |parts| <= |keys|
    ensures forall i :: 0 <= i < |parts| ==> parts[i] != "" && IsTrimmed(parts[i])
  {
    if keys == [] then []
    else
      var k := keys[|keys| - 1];
      var front := Kept(reply, keys[..|keys| - 1]);
      if Usable(reply, k) then front + [Strip(Get(reply, k).value)] else front
  }

  /** The report `predict` returns: the kept parts joined by blank lines, or the fallback. */
  function ReportOf(reply: Json): Option<string> {
    var parts := Kept(reply, ReportKeys);
    var text := if parts != [] then Join(parts, Paragraph)
                else if Get(reply, "reason_summary").Some? then Get(reply, "reason_summary").value
                else "";
    if text == "" then None else Some(text)
  }

  /**
   * The loop over the narrative fields in `predict`, which appends each
   * usable value, trimmed, to `parts`, followed by the join and the
   * fallback.
   */
  method AssembleReport(reply: Json) returns (report: Option<string>)
    ensures report == ReportOf(reply)
  {
    var parts: seq<string> := [];
    var i := 0;
    while i < |ReportKeys|
      invariant 0 <= i <= |ReportKeys|
      invariant parts == Kept(reply, ReportKeys[..i])
    {
      var key := ReportKeys[i];
      var val := Get(reply, key);
      assert ReportKeys[..i + 1][..i] == ReportKeys[..i];
      if val.Some? && val.value != "" && Strip(val.value) != "" {
        parts := parts + [Strip(val.value)];
      }
      i := i + 1;
    }
    assert ReportKeys[..i] == ReportKeys;
    var text: string;
    if parts != [] {
      text := Join(parts, Paragraph);
    } else {
      var summary := Get(reply, "reason_summary");
      text := if summary.Some? then summary.value else "";
    }
    report := if text == "" then None else Some(text);
  }

  /** Keeping is done key by key, in order: the parts for `a + b` are those for `a`, then those for `b`. */
  lemma {:induction false} KeptAppend(reply: Json, a: seq<string>, b: seq<string>)
    ensures Kept(reply, a + b) == Kept(reply, a) + Kept(reply, b)
    decreases |b|
  {
    if b == [] {
      assert a + b == a;
    } else {
      var n := |b| - 1;
      assert (a + b)[..|a + b| - 1] == a + b[..n];
      assert (a + b)[|a + b| - 1] == b[n];
      KeptAppend(reply, a, b[..n]);
    }
  }

  /** Nothing is kept exactly when no key is usable. */
  lemma {:induction false} KeptEmpty(reply: Json, keys: seq<string>)
    ensures Kept(reply, keys) == [] <==> forall i :: 0 <= i < |keys| ==> !Usable(reply, keys[i])
    decreases |keys|
  {
    if keys != [] {
      var n := |keys| - 1;
      KeptEmpty(reply, keys[..n]);
      assert forall i :: 0 <= i < n ==> keys[..n][i] == keys[i];
    }
  }

  /** A key outside `keys` has no effect on what is kept. */
  lemma {:induction false} KeptIgnores(reply: Json, keys: seq<string>, k: string, v: Option<string>)
    requires k !in keys
    ensures Kept(reply[k := v], keys) == Kept(reply, keys)
    decreases |keys|
  {
    if keys != [] {
      var n := |keys| - 1;
      assert k !in keys[..n];
      KeptIgnores(reply, keys[..n], k, v);
    }
  }

  /** `detailed_abnormal_note` never reaches the report, whatever it holds. */
  lemma DetailedNoteIgnored(reply: Json, v: Option<string>)
    ensures ReportOf(reply["detailed_abnormal_note" := v]) == ReportOf(reply)
  {
    KeptIgnores(reply, ReportKeys, "detailed_abnormal_note", v);
  }

  /**
   * When some narrative field is usable, the report is the usable values,
   * trimmed, joined by blank lines; it is then itself trimmed and not empty.
   */
  lemma ReportFromParts(reply: Json)
    requires exists i :: 0 <= i < |ReportKeys| && Usable(reply, ReportKeys[i])
    ensures ReportOf(reply) == Some(Join(Kept(reply, ReportKeys), Paragraph))
    ensures IsTrimmed(ReportOf(reply).value)
  {
    KeptEmpty(reply, ReportKeys);
    JoinTrimmed(Kept(reply, ReportKeys), Paragraph);
  }

  /**
   * When no narrative field is usable, the report falls back to
   * `reason_summary` as it is (even whitespace only) if that is a non-empty
   * text, and to `None` otherwise.
   */
  lemma ReportFallback(reply: Json)
    requires forall i :: 0 <= i < |ReportKeys| ==> !Usable(reply, ReportKeys[i])
    ensures ReportOf(reply) == (if Get(reply, "reason_summary").Some? && Get(reply, "reason_summary").value != ""
                                then Some(Get(reply, "reason_summary").value) else None)
  {
    KeptEmpty(reply, ReportKeys);
  }

  /** The response of `/predict`: a 400, a 500, or the 200 body's prediction and report. */
  datatype Response =
    | BadRequest(error: string)
    | ServerError(error: string)
    | Prediction(prediction: string, report: Option<string>)

  /**
   * `predict()`. `sent` is the prompt sent to the completion service, if a
   * call was made; `input_data` is `None` when missing or empty.
   */
  method HandlePredict(features: Option<seq<real>>, inputData: Option<Json>,
                       upstream: string -> Reply, parse: string -> Result<Json, string>)
    returns (response: Response, sent: Option<string>)
    ensures CheckFeatures(features).Err? ==> response == BadRequest(FeaturesError) && sent == None
    ensures CheckFeatures(features).Ok? ==>
              sent == Some(BuildPrompt(if inputData.Some? then inputData.value else map[], NoPdfUploaded))
    ensures sent.Some? ==>
              match CallAndParse(sent.value, upstream, parse)
              case Err(Upstream(m)) => response == ServerError(m)
              case Err(NotJson(e)) => response == ServerError(NotJsonPrefix + e)
              case Ok(reply) => response == Prediction(NormalizeDiagnosis(Get(reply, "diagnosis_result")), ReportOf(reply))
    ensures response.Prediction? ==> response.prediction == "NORMAL" || response.prediction == "ABNORMAL"
  {
    if CheckFeatures(features).Err? {
      return BadRequest(FeaturesError), None;
    }
    var data := if inputData.Some? then inputData.value else map[];
    var prompt := BuildPrompt(data, NoPdfUploaded);
    sent := Some(prompt);
    match CallAndParse(prompt, upstream, parse)
    case Err(Upstream(m)) =>
      response := ServerError(m);
    case Err(NotJson(e)) =>
      response := ServerError(NotJsonPrefix + e);
    case Ok(reply) =>
      var prediction := NormalizeDiagnosis(Get(reply, "diagnosis_result"));
      var report := AssembleReport(reply);
      response := Prediction(prediction, report);
  }
}
