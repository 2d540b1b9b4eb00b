/**
 * The analysis prompt of backend/app.py: the alias lookup `get` nested in
 * `_build_prompt`, and the fixed template the looked-up values are written
 * into.
 */
module Prompt {
  import opened Wrappers
  import opened Text

  /**
   * A request's fields as `data.get(k)` sees them. A key that is absent and a
   * key whose value is `None` both read as `None`.
   */
  type Fields = map<string, Option<string>>

  /** `data.get(k)`. */
  function Get(data: Fields, k: string): Option<string> {
    if k in data then data[k] else None
  }

  /** The value under `k` would be taken: it is present, not `None`, and not blank. */
  predicate Usable(data: Fields, k: string) {
    Get(data, k).Some? && NonBlank(Get(data, k).value)
  }

  /**
   * The nested `get(key, *alt_keys, default=...)`: the keys are tried in
   * order and the first usable value is returned trimmed; when none is
   * usable, the default is returned.
   */
  function Lookup(data: Fields, keys: seq<string>, default: string): (r: string)
    ensures (forall i :: 0 <= i < |keys| ==> !Usable(data, keys[i])) ==> r == default
    ensures forall i :: 0 <= i < |keys| && Usable(data, keys[i]) && (forall j :: 0 <= j < i ==> !Usable(data, keys[j]))
                        ==> r == Strip(Get(data, keys[i]).value)
    ensures IsTrimmed(default) ==> IsTrimmed(r)
  {
    if keys == [] then default
    else if Usable(data, keys[0]) then Strip(Get(data, keys[0]).value)
    else Lookup(data, keys[1..], default)
  }

  /** The patient fields the prompt shows. */
  datatype Field =
    | Name | CurrentAge | FirstPeriodAge
    | CycleLength | PeriodLength | PeriodRegularity | MissedPeriod
    | FlowRate | PadsUsed | Clots | Pain | Weakness
    | Diet | HemoglobinManual | Description

  /** The keys tried for a field: the form name first, then the app's alternate, if it has one. */
  function Keys(f: Field): (ks: seq<string>)
    ensures 1 <= |ks| <= 2
  {
    match f
    case Name => ["name"]
    case CurrentAge => ["current_age", "currentAge"]
    case FirstPeriodAge => ["first_period_age", "ageAtFirstPeriod"]
    case CycleLength => ["cycle_length", "cycleLength"]
    case PeriodLength => ["period_length", "periodDuration"]
    case PeriodRegularity => ["period_regularity", "regularity"]
    case MissedPeriod => ["missed_period", "missedPeriod"]
    case FlowRate => ["flow_rate", "flowRate"]
    case PadsUsed => ["pads_used", "padsPerDay"]
    case Clots => ["clots", "bloodClots"]
    case Pain => ["pain", "painLevel"]
    case Weakness => ["weakness", "weaknessDizziness"]
    case Diet => ["diet"]
    case HemoglobinManual => ["hemoglobin_manual", "hemoglobin"]
    case Description => ["description", "otherSymptoms"]
  }

  /** The key the form uses for a field. */
  function Canonical(f: Field): string {
    Keys(f)[0]
  }

  function Default(f: Field): string {
    if f == Name then "User" else ""
  }

  /**
   * The value a field takes in the prompt. It is always trimmed, and the
   * name is never empty.
   */
  function Resolve(data: Fields, f: Field): (r: string)
    ensures IsTrimmed(r)
    ensures f == Name ==> r != ""
    ensures Usable(data, Canonical(f)) ==> r == Strip(Get(data, Canonical(f)).value)
    ensures !Usable(data, Canonical(f)) && |Keys(f)| == 2 && Usable(data, Keys(f)[1]) ==> r == Strip(Get(data, Keys(f)[1]).value)
    ensures (forall k :: k in Keys(f) ==> !Usable(data, k)) ==> r == Default(f)
  {
    Lookup(data, Keys(f), Default(f))
  }

  /** The sentinel the prompt carries when no lab report came with the request. */
  const NoPdfUploaded := "No PDF report uploaded."

  /** A hole of the template: a patient field or the lab-report text. */
  datatype Slot = FieldSlot(field: Field) | LabSlot

  /** A hole followed by the fixed text that comes after it. */
  datatype Segment = Segment(slot: Slot, after: string)

  /** The template's text before its first hole. */
  const Lead := "\n    Act as a highly experienced senior gynecologist. Analyze the following patient data.\n\n    PATIENT DETAILS:\n    - Name: "

  /** The template, hole by hole, in the order the prompt shows them. */
  const Segments: seq<Segment> := [
    Segment(FieldSlot(Name), "\n    - Age: "),
    Segment(FieldSlot(CurrentAge), "\n    - Age of First Period: "),
    Segment(FieldSlot(FirstPeriodAge), "\n\n    MENSTRUAL CYCLE HISTORY:\n    - Cycle Length: "),
    Segment(FieldSlot(CycleLength), " days\n    - Period Duration: "),
    Segment(FieldSlot(PeriodLength), " days\n    - Regularity: "),
    Segment(FieldSlot(PeriodRegularity), "\n    - Missed Periods recently: "),
    Segment(FieldSlot(MissedPeriod), "\n\n    CURRENT SYMPTOMS:\n    - Flow Rate: "),
    Segment(FieldSlot(FlowRate), "\n    - Pads used per day: "),
    Segment(FieldSlot(PadsUsed), "\n    - Blood Clots: "),
    Segment(FieldSlot(Clots), "\n    - Pain/Cramps: "),
    Segment(FieldSlot(Pain), "\n    - Weakness: "),
    Segment(FieldSlot(Weakness), "\n\n    LIFESTYLE:\n    - Diet: "),
    Segment(FieldSlot(Diet), "\n\n    LAB REPORTS (OCR EXTRACTED):\n    - Hemoglobin/CBC Input: "),
    Segment(FieldSlot(HemoglobinManual), "\n    - PDF Text Content: "),
    Segment(LabSlot, "\n\n    USER COMPLAINT:\n    - "),
    Segment(FieldSlot(Description), OutputFormat)
  ]

  /** The closing instructions: the JSON shape the model must answer with. */
  const OutputFormat := "\n\n    OUTPUT FORMAT:\n    You must strictly respond with a valid JSON object ONLY. No markdown, no introductory text.\n    JSON structure:\n    {\n        \"diagnosis_result\": \"NORMAL\" or \"ABNORMAL\",\n        \"reason_summary\": \"A friendly, empathetic summary starting with 'Dear [Name]'. Explain findings.\",\n        \"plan_actions\": \"Steps to follow immediately.\",\n        \"nutritional_advice\": \"What to eat.\",\n        \"avoid_list\": \"What to avoid.\",\n        \"doctor_visit_trigger\": \"When to visit a doctor urgently.\",\n        \"detailed_abnormal_note\": \"Clinical reasoning.\",\n        \"consult_recommendation\": \"Recommendation text.\"\n    }\n\n    Rules: \"ABNORMAL\" if Hemoglobin < 11, pads > 8, severe pain, or missed periods.\n    "

  /** What a hole is filled with. */
  function Fill(data: Fields, labText: string, slot: Slot): string {
    match slot
    case FieldSlot(f) => Resolve(data, f)
    case LabSlot => labText
  }

  function Render(segs: seq<Segment>, data: Fields, labText: string): string {
    if segs == [] then ""
    else Fill(data, labText, segs[0].slot) + segs[0].after + Render(segs[1..], data, labText)
  }

  /** `_build_prompt(data, lab_report_text)`. */
  function BuildPrompt(data: Fields, labText: string): string {
    Lead + Render(Segments, data, labText)
  }

  /** The fixed text right before hole `k`. */
  function Before(k: nat): string
    requires k < |Segments|
  {
    if k == 0 then Lead else Segments[k - 1].after
  }

  /** Where a field's hole sits in the template. */
  function SlotOf(f: Field): (k: nat)
    ensures k < |Segments| && Segments[k].slot == FieldSlot(f)
  {
    match f
    case Name => 0
    case CurrentAge => 1
    case FirstPeriodAge => 2
    case CycleLength => 3
    case PeriodLength => 4
    case PeriodRegularity => 5
    case MissedPeriod => 6
    case FlowRate => 7
    case PadsUsed => 8
    case Clots => 9
    case Pain => 10
    case Weakness => 11
    case Diet => 12
    case HemoglobinManual => 13
    case Description => 15
  }

  /** The lab-report hole's place in the template. */
  const LabIndex: nat := 14

  lemma {:induction false} RenderSplit(segs: seq<Segment>, k: nat, data: Fields, labText: string)
    requires k <= |segs|
    ensures Render(segs, data, labText) == Render(segs[..k], data, labText) + Render(segs[k..], data, labText)
  {
    if k > 0 {
      RenderSplit(segs[1..], k - 1, data, labText);
      assert segs[1..][..k - 1] == segs[..k][1..];
      assert segs[1..][k - 1..] == segs[k..];
    } else {
      assert segs[..0] == [];
      assert segs[0..] == segs;
    }
  }

  /** The fixed text right before hole `k` of a template with leading text `lead`. */
  function TextBefore(lead: string, segs: seq<Segment>, k: nat): string
    requires k < |segs|
  {
    if k == 0 then lead else segs[k - 1].after
  }

  lemma RenderSnoc(segs: seq<Segment>, data: Fields, labText: string)
    requires segs != []
    ensures Render(segs, data, labText)
         == Render(segs[..|segs| - 1], data, labText) + Fill(data, labText, segs[|segs| - 1].slot) + segs[|segs| - 1].after
  {
    var n := |segs| - 1;
    RenderSplit(segs, n, data, labText);
    assert segs[n..] == [segs[n]];
    assert segs[n..][1..] == [];
  }

  lemma HoleInRender(lead: string, segs: seq<Segment>, data: Fields, labText: string, k: nat)
    requires k < |segs|
    ensures IsInfix(TextBefore(lead, segs, k) + Fill(data, labText, segs[k].slot) + segs[k].after,
                    lead + Render(segs, data, labText))
  {
    var fill := Fill(data, labText, segs[k].slot);
    var piece := TextBefore(lead, segs, k) + fill + segs[k].after;
    RenderSplit(segs, k, data, labText);
    var tail := Render(segs[k + 1..], data, labText);
    assert segs[k..][1..] == segs[k + 1..];
    var rest := Render(segs[k..], data, labText);
    assert rest == fill + segs[k].after + tail;
    var front := Render(segs[..k], data, labText);
    if k == 0 {
      assert front == [];
      assert Render(segs, data, labText) == rest;
      Regroup4(lead, fill, segs[k].after, tail);
      InfixOfConcat([], piece, tail);
    } else {
      RenderSnoc(segs[..k], data, labText);
      assert segs[..k][..k - 1] == segs[..k - 1];
      var r' := Render(segs[..k - 1], data, labText);
      var f' := Fill(data, labText, segs[k - 1].slot);
      Regroup7(lead, r', f', segs[k - 1].after, fill, segs[k].after, tail);
      InfixOfConcat(lead + r' + f', piece, tail);
    }
  }

  /** Regrouping of a concatenation, stated over plain strings so that the texts it is used on are not unfolded. */
  lemma Regroup4(a: string, b: string, c: string, d: string)
    ensures a + (b + c + d) == [] + (a + b + c) + d
  {
  }

  /** Regrouping of a concatenation, stated over plain strings so that the texts it is used on are not unfolded. */
  lemma Regroup7(a: string, b: string, c: string, d: string, e: string, f: string, g: string)
    ensures a + ((b + c + d) + (e + f + g)) == (a + b + c) + (d + e + f) + g
  {
  }

  /**
   * Every hole of the template appears in the prompt filled in, between the
   * fixed text before it and the fixed text after it.
   */
  lemma HoleInPrompt(data: Fields, labText: string, k: nat)
    requires k < |Segments|
    ensures IsInfix(Before(k) + Fill(data, labText, Segments[k].slot) + Segments[k].after, BuildPrompt(data, labText))
  {
    HoleInRender(Lead, Segments, data, labText, k);
  }

  /**
   * Each patient field appears in the prompt as its resolved value, framed by
   * the template's text around that field.
   */
  lemma FieldInPrompt(data: Fields, labText: string, f: Field)
    ensures IsInfix(Before(SlotOf(f)) + Resolve(data, f) + Segments[SlotOf(f)].after, BuildPrompt(data, labText))
  {
    HoleInPrompt(data, labText, SlotOf(f));
  }

  /** The lab-report text appears in the prompt right after its label. */
  lemma LabTextInPrompt(data: Fields, labText: string)
    ensures IsInfix("\n    - PDF Text Content: " + labText + "\n\n    USER COMPLAINT:\n    - ", BuildPrompt(data, labText))
  {
    HoleInPrompt(data, labText, LabIndex);
  }

  /**
   * A usable value under the form's key wins over anything under the
   * alternate key, and it is what the prompt shows for the field.
   */
  lemma CanonicalWinsInPrompt(data: Fields, labText: string, f: Field)
    requires Usable(data, Canonical(f))
    ensures IsInfix(Before(SlotOf(f)) + Strip(Get(data, Canonical(f)).value) + Segments[SlotOf(f)].after,
                    BuildPrompt(data, labText))
  {
    FieldInPrompt(data, labText, f);
  }

  /** When no key of a field is usable, the prompt shows the field's default. */
  lemma DefaultInPrompt(data: Fields, labText: string, f: Field)
    requires forall k :: k in Keys(f) ==> !Usable(data, k)
    ensures IsInfix(Before(SlotOf(f)) + Default(f) + Segments[SlotOf(f)].after, BuildPrompt(data, labText))
  {
    FieldInPrompt(data, labText, f);
  }
}
