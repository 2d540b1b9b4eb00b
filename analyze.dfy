/**
 * The `/analyze_diagnosis` handler of backend/app.py: the form fields, the
 * text of an uploaded lab report, the prompt built from both, and the
 * always-200 answer.
 */
module Analyze {
  import opened Wrappers
  import opened Text
  import opened Prompt
  import opened Completion

  /** The form fields the handler reads, in the order it reads them. */
  const FormKeys: seq<string> := [
    "name", "current_age", "first_period_age", "cycle_length", "period_length",
    "period_regularity", "missed_period", "flow_rate", "pads_used", "clots",
    "pain", "weakness", "diet", "hemoglobin_manual", "description"
  ]

  /** The form of a multipart request: the text fields that were sent. */
  type Form = map<string, string>

  /**
   * The `data` dictionary the handler builds: every field it reads, with
   * `request.form.get(key)`, which is `None` for a field that was not sent.
   */
  function FormData(form: Form): Fields {
    map k | k in FormKeys :: if k in form then Some(form[k]) else None
  }

  /** Each field's form key is one the handler reads, and its alternate key is not. */
  lemma FormKeysAreCanonical(f: Field)
    ensures Canonical(f) in FormKeys
    ensures forall i :: 1 <= i < |Keys(f)| ==> Keys(f)[i] !in FormKeys
  {
  }

  /**
   * A form request never reaches an alternate key: each field in the prompt
   * is the form value under the field's own key, trimmed, when it is not
   * blank, and the field's default otherwise.
   */
  lemma FormResolve(form: Form, f: Field)
    ensures Resolve(FormData(form), f)
         == (if Canonical(f) in form && NonBlank(form[Canonical(f)]) then Strip(form[Canonical(f)]) else Default(f))
  {
    var data := FormData(form);
    FormKeysAreCanonical(f);
    var ks := Keys(f);
    assert forall i :: 1 <= i < |ks| ==> !Usable(data, ks[i]);
    if !Usable(data, Canonical(f)) {
      assert forall k :: k in ks ==> !Usable(data, k);
    }
  }

  /** The text of one page, or the error text of the exception its extraction raised. */
  datatype PageText = Extracted(text: string) | ExtractFailed(error: string)

  /** A PDF reader over the upload: its pages, or the error text of the exception opening it raised. */
  datatype Pdf = Unopenable(error: string) | Pages(pages: seq<PageText>)

  /** The file sent as `hemoglobin_file`: its file name (possibly `None`) and what the PDF reader makes of it. */
  datatype Upload = Upload(filename: Option<string>, pdf: Pdf)

  const ErrorReadingPrefix := "Error reading PDF: "
  const NoTextRead := "Could not read text from PDF."

  /**
   * The pages' texts concatenated in page order, or the error of the
   * first page whose extraction fails.
   */
  function ReadPages(pages: seq<PageText>): (r: Result<string, string>)
    ensures r.Ok? <==> forall i :: 0 <= i < |pages| ==> pages[i].Extracted?
  {
    if pages == [] then Ok("")
    else
      var n := |pages| - 1;
      match ReadPages(pages[..n])
      case Err(e) => Err(e)
      case Ok(t) =>
        match pages[n]
        case Extracted(p) => Ok(t + p)
        case ExtractFailed(e) => Err(e)
  }

  /** Reading is page by page: the pages of `a + b` read as `a`'s, then `b`'s, and the first failure stops it. */
  lemma {:induction false} ReadPagesAppend(a: seq<PageText>, b: seq<PageText>)
    ensures ReadPages(a + b)
         == match ReadPages(a)
            case Err(e) => Err(e)
            case Ok(t) =>
              match ReadPages(b)
              case Err(e) => Err(e)
              case Ok(u) => Ok(t + u)
    decreases |b|
  {
    if b == [] {
      assert a + b == a;
      assert ReadPages(a) == ReadPages(a + b);
      if ReadPages(a).Ok? {
        assert ReadPages(a).value + "" == ReadPages(a).value;
      }
    } else {
      var n := |b| - 1;
      assert (a + b)[..|a + b| - 1] == a + b[..n];
      assert (a + b)[|a + b| - 1] == b[n];
      ReadPagesAppend(a, b[..n]);
      if ReadPages(a).Ok? && ReadPages(b[..n]).Ok? && b[n].Extracted? {
        var t := ReadPages(a).value;
        var u := ReadPages(b[..n]).value;
        assert t + u + b[n].text == t + (u + b[n].text);
      }
    }
  }

  /** The error reported is that of the first page that fails. */
  lemma FirstFailureReported(pages: seq<PageText>, i: nat)
    requires i < |pages| && pages[i].ExtractFailed?
    requires forall j :: 0 <= j < i ==> pages[j].Extracted?
    ensures ReadPages(pages) == Err(pages[i].error)
  {
    var front := pages[..i];
    var back := pages[i..];
    assert pages == front + back;
    assert forall j :: 0 <= j < |front| ==> front[j].Extracted?;
    ReadPagesAppend(front, back);
    assert back == [pages[i]] + back[1..];
    ReadPagesAppend([pages[i]], back[1..]);
    assert [pages[i]][..0] == [];
  }

  /**
   * `lab_report_text`: the sentinel when no file or a file with an empty
   * name came; the concatenated page texts, or a fixed message when they are
   * empty; the exception's text after "Error reading PDF: " when opening or
   * reading failed. The prompt never gets an empty lab text.
   */
  function LabText(upload: Option<Upload>): (r: string)
    ensures r != ""
    ensures upload.None? ==> r == NoPdfUploaded
    ensures upload.Some? && upload.value.filename == Some("") ==> r == NoPdfUploaded
    ensures upload.Some? && upload.value.filename != Some("") && upload.value.pdf.Unopenable? ==>
              r == ErrorReadingPrefix + upload.value.pdf.error
    ensures upload.Some? && upload.value.filename != Some("") && upload.value.pdf.Pages? ==>
              match ReadPages(upload.value.pdf.pages)
              case Err(e) => r == ErrorReadingPrefix + e
              case Ok(t) => r == (if t != "" then t else NoTextRead)
  {
    if upload.None? || upload.value.filename == Some("") then NoPdfUploaded
    else
      match upload.value.pdf
      case Unopenable(e) => ErrorReadingPrefix + e
      case Pages(ps) =>
        match ReadPages(ps)
        case Err(e) => ErrorReadingPrefix + e
        case Ok(t) => if t != "" then t else NoTextRead
  }

  /**
   * The upload handling in `analyze_diagnosis`: the page loop accumulates
   * `extracted_text` and an exception from any page ends it.
   */
  method ExtractLabText(upload: Option<Upload>) returns (labText: string)
    ensures labText == LabText(upload)
  {
    labText := NoPdfUploaded;
    if upload.None? || upload.value.filename == Some("") {
      return;
    }
    match upload.value.pdf
    case Unopenable(e) =>
      labText := ErrorReadingPrefix + e;
    case Pages(ps) =>
      var extracted := "";
      var i := 0;
      while i < |ps|
        invariant 0 <= i <= |ps|
        invariant ReadPages(ps[..i]) == Ok(extracted)
      {
        assert ps[..i + 1][..i] == ps[..i];
        match ps[i]
        case ExtractFailed(e) =>
          assert ReadPages(ps[..i + 1]) == Err(e);
          ReadPagesAppend(ps[..i + 1], ps[i + 1..]);
          assert ps[..i + 1] + ps[i + 1..] == ps;
          labText := ErrorReadingPrefix + e;
          return;
        case Extracted(t) =>
          extracted := extracted + t;
        i := i + 1;
      }
      assert ps[..i] == ps;
      labText := if extracted != "" then extracted else NoTextRead;
  }

  /** The body of the handler's answer, always sent with status 200. */
  datatype AnalyzeResponse = Success(data: Json) | Failure(message: string)

  /**
   * `analyze_diagnosis()`. `sent` is the prompt sent to the completion
   * service: the request always reaches it, built from the form and the lab
   * text, which it shows after its label.
   */
  method HandleAnalyze(form: Form, upload: Option<Upload>,
                       upstream: string -> Reply, parse: string -> Result<Json, string>)
    returns (response: AnalyzeResponse, sent: string)
    ensures sent == BuildPrompt(FormData(form), LabText(upload))
    ensures IsInfix("\n    - PDF Text Content: " + LabText(upload) + "\n\n    USER COMPLAINT:\n    - ", sent)
    ensures match CallAndParse(sent, upstream, parse)
            case Ok(reply) => response == Success(reply)
            case Err(NotJson(e)) => response == Failure(NotJsonPrefix + e)
            case Err(Upstream(m)) => response == Failure(m)
  {
    var data := FormData(form);
    var labText := ExtractLabText(upload);
    sent := BuildPrompt(data, labText);
    LabTextInPrompt(data, labText);
    match CallAndParse(sent, upstream, parse)
    case Ok(reply) =>
      response := Success(reply);
    case Err(NotJson(e)) =>
      response := Failure(NotJsonPrefix + e);
    case Err(Upstream(m)) =>
      response := Failure(m);
  }
}
