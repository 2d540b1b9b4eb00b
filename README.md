# Masika wellness relay — a Dafny model of its text-handling core

The backend of the Masika menstrual-health app is a thin relay in front of a
hosted language model. Between the HTTP layer and the model call it does a
few small, deterministic things with text. This project models them and
proves what they guarantee:

- the analysis prompt of `backend/app.py`: the alias lookup `get`, which
  takes the first non-blank value among a field's keys, and the fixed
  template the values and the lab-report text are written into (module
  `Prompt`);
- the cleaning of the model's reply before it is parsed: every "```json" is
  removed, then every "```", then the surrounding whitespace; the service
  call and the JSON parser are parameters (module `Completion`);
- the `/predict` handler: the check for exactly twelve features, the
  normalisation of the diagnosis to `NORMAL` or `ABNORMAL`, and the loop that
  assembles the report from six narrative fields (module `Predict`);
- the `/analyze_diagnosis` handler: the form fields, the loop that
  concatenates the text of the uploaded PDF's pages, the sentinels used when
  no text can be had, and the always-200 answer (module `Analyze`);
- `backend/nvidia_report.py`: the loop that builds the user message one line
  per non-blank input, the chat request, the not-configured short cut and the
  cleanup of the reply into an optional report (module `Wellness`).

`Text` gives the Python string operations these rely on, with the laws the
proofs need. `str.strip()` removes exactly the characters `str.isspace`
accepts. `sep.join`, `str.split` on one character and `str.replace` are
modelled as Python defines them. `Wrappers` holds `Option` and `Result`.

Dictionaries whose keys are looked up are `map<string, Option<string>>`. An
absent key and a `None` value both read as `None`. The dictionary whose
insertion order matters (`input_data` in `nvidia_report.py`) is a sequence
of key/value pairs. Everything outside the process is a parameter of the
model:

- the completion service is a function from the prompt to its reply or the
  text of the exception it raised;
- `json.loads` is a function from the text to a parsed object or the
  decoder's error text;
- the PDF reader is the list of page texts, or the error its opening or a
  page's extraction raised;
- whether the report service is configured is a boolean.

Where a handler makes a call, the model returns what was sent (`sent`), so a
contract can say that no call was made.

## Model

| member | source | states |
|---|---|---|
| Text.Strip | backend/app.py:42-43 | `str.strip()`: the result has no whitespace at either end, occurs in the input, and is empty exactly when the input is all whitespace |
| Text.StripPadded | backend/app.py:43 | any trimmed text surrounded by whitespace strips back to exactly itself |
| Text.StripIdempotent | backend/app.py:43 | stripping twice is stripping once |
| Text.JoinTrimmed | backend/app.py:146 | joining non-empty trimmed parts gives a non-empty text whose prefix is exactly the first part and whose suffix is exactly the last, and which is trimmed |
| Text.SplitJoin | backend/nvidia_report.py:48 | splitting on a character undoes joining on it when no part contains that character |
| Text.ReplaceAbsent | backend/app.py:107 | `replace` changes nothing when the pattern's first character does not occur |
| Prompt.Lookup | backend/app.py:39-44 | keys are tried in order; the first key whose value is present and non-blank gives its trimmed value; when no key qualifies the default is returned; the result is trimmed whenever the default is |
| Prompt.Keys | backend/app.py:46-76 | each field has its form key and at most one alternate key |
| Prompt.Resolve | backend/app.py:46-76 | a field's prompt value is always trimmed; the name is never empty; a usable value under the form key wins over the alternate; when the form key is not usable and the alternate is, the alternate's trimmed value is taken; with no usable key the value is "User" for the name and "" otherwise |
| Prompt.SlotOf | backend/app.py:47-93 | every field has a hole of its own in the template |
| Prompt.HoleInPrompt | backend/app.py:47-93 | every hole of the template appears in the prompt filled in, between the fixed text before it and the fixed text after it |
| Prompt.FieldInPrompt | backend/app.py:51-76 | each field appears in the prompt as its resolved value, framed by the template's labels around it |
| Prompt.LabTextInPrompt | backend/app.py:73-76 | the lab-report text appears in the prompt right after "- PDF Text Content: " and before the complaint heading |
| Prompt.CanonicalWinsInPrompt | backend/app.py:40-43 | a non-blank value under the form key is what the prompt shows, whatever the alternate key holds |
| Prompt.DefaultInPrompt | backend/app.py:44-46 | when every key of a field is missing, `None` or blank, the prompt shows the field's default |
| Completion.StripFences | backend/app.py:107 | the text handed to the parser contains no "```" anywhere and has no surrounding whitespace |
| Completion.NoFenceAfterRemoval | backend/app.py:107 | removing every "```" from left to right never leaves a new "```" behind |
| Completion.NoBackticksOnlyTrimmed | backend/app.py:107 | a reply without backticks is only trimmed |
| Completion.FenceRoundTrip | backend/app.py:107 | a backtick-free trimmed JSON text wrapped in a "```json" fence, with any whitespace inside it, comes back unchanged |
| Completion.CallAndParse | backend/app.py:96-108 | an exception from the service gives an upstream error with its text; otherwise the cleaned reply (`None` read as "") is parsed, and a decoder error gives a not-JSON error with its text |
| Predict.CheckFeatures | backend/app.py:118-122 | the features pass exactly when present with exactly 12 entries; otherwise the error is "Exactly 12 features required" |
| Predict.NormalizeDiagnosis | backend/app.py:136-138 | the prediction is "NORMAL" or "ABNORMAL", and it is "ABNORMAL" exactly when the reply's value, trimmed and upper-cased, is "ABNORMAL" |
| Predict.NormalizeIdempotent | backend/app.py:136-138 | normalising an already normalised prediction leaves it unchanged |
| Text.StripUpper | backend/app.py:136 | trimming and upper-casing commute |
| Predict.NormalizeByKey | backend/app.py:136-138 | two values that trim and upper-case to the same text give the same prediction |
| Predict.NormalizeIgnoresSpace | backend/app.py:136 | whitespace around the value does not change the prediction |
| Predict.NormalizeIgnoresCase | backend/app.py:136 | upper-casing the value does not change the prediction |
| Predict.NormalizeExamples | backend/app.py:136-138 | " abnormal " gives ABNORMAL; "normal", "maybe" and a missing value give NORMAL |
| Predict.Kept | backend/app.py:141-145 | at most one part per key, each non-empty and trimmed |
| Predict.AssembleReport | backend/app.py:141-151 | the loop over the six narrative keys, the join and the fallback compute exactly the report `ReportOf` defines |
| Predict.KeptAppend | backend/app.py:142-145 | the keys are handled one by one in order: the parts for two key lists are those of the first followed by those of the second |
| Predict.KeptEmpty | backend/app.py:142-146 | no part is kept exactly when no narrative value is present and non-blank |
| Predict.DetailedNoteIgnored | backend/app.py:142 | `detailed_abnormal_note` never affects the report, whatever it holds |
| Predict.ReportFromParts | backend/app.py:146 | when any narrative field is non-blank, the report is the trimmed non-blank values joined by blank lines, and it is trimmed |
| Predict.ReportFallback | backend/app.py:146-151 | when no narrative field is non-blank, the report is `reason_summary` as it is if that is a non-empty text (even whitespace only), and `None` otherwise |
| Predict.HandlePredict | backend/app.py:111-152 | bad features give 400 and no call; otherwise the prompt built from `input_data` and the no-PDF sentinel is sent; a service error or a decoder error gives 500 with its text; a parsed reply gives the normalised prediction and the report |
| Analyze.FormKeysAreCanonical | backend/app.py:157-174 | each field's form key is read from the form and no alternate key is |
| Analyze.FormResolve | backend/app.py:157-174 | for a form request each field in the prompt is the trimmed form value when it is non-blank and the default otherwise |
| Analyze.ReadPages | backend/app.py:182-185 | reading succeeds exactly when every page's extraction succeeds |
| Analyze.ReadPagesAppend | backend/app.py:184-185 | pages are read in order: two page lists read as the first's text followed by the second's, and the first failure stops the reading |
| Analyze.FirstFailureReported | backend/app.py:183-188 | the error reported is that of the first page whose extraction fails |
| Analyze.LabText | backend/app.py:177-188 | no file or an empty file name gives "No PDF report uploaded."; a failure to open or read gives "Error reading PDF: " and the error; otherwise the concatenated text, or "Could not read text from PDF." when it is empty; never empty |
| Analyze.ExtractLabText | backend/app.py:177-188 | the page loop computes exactly `LabText` |
| Analyze.HandleAnalyze | backend/app.py:155-199 | the prompt built from the form and the lab text is always sent, and it shows the lab text after its label; the answer is the parsed object or the error text, prefixed for a decoder error |
| Wellness.LineOf | backend/nvidia_report.py:41 | an input's line starts with "- " and is single-line when its key and value are |
| Wellness.EntryLines | backend/nvidia_report.py:39-41 | at most one line per input, each starting with "- " |
| Wellness.BuildUserMessage | backend/nvidia_report.py:30-48 | the loop and the join give exactly the header lines, one line per listed input and the closing lines, joined by newlines |
| Wellness.EntryLinesAppend | backend/nvidia_report.py:39-41 | inputs are listed in dictionary order |
| Wellness.EntryShownOrSkipped | backend/nvidia_report.py:39-41 | an input with a present, non-blank value gets exactly its "- key: value" line with the value untrimmed; one whose value is `None` or blank gets no line |
| Wellness.NoEntryLines | backend/nvidia_report.py:40 | no input is listed exactly when every value is `None` or blank |
| Wellness.HeaderJoin | backend/nvidia_report.py:32-38 | the message opens with the instruction, a blank line, "Screening result: " and the prediction, a blank line and "User inputs:" |
| Wellness.UserMessageNoEntries | backend/nvidia_report.py:32-48 | with nothing listed, the heading is followed by a blank line and the closing request |
| Wellness.UserMessageWithEntries | backend/nvidia_report.py:32-48 | with inputs listed, the heading is followed by their lines, then a blank line and the closing request |
| Wellness.FixedLinesSingle | backend/nvidia_report.py:32-46 | the instruction, the labels and the closing request hold no newline |
| Wellness.MessageLineCount | backend/nvidia_report.py:42-48 | when no prediction, key or value holds a newline, the message splits back into exactly its lines, seven plus one per listed input |
| Wellness.CleanContent | backend/nvidia_report.py:76 | the report is `None` exactly when the content is missing or all whitespace; otherwise it is non-empty, trimmed and taken from the content |
| Wellness.CleanContentIdempotent | backend/nvidia_report.py:76 | cleaning a report again changes nothing |
| Wellness.CleanPadded | backend/nvidia_report.py:76 | a trimmed non-empty text surrounded by whitespace comes back as itself |
| Wellness.RequestShowsInputs | backend/nvidia_report.py:35-41 | the user message of the request sent holds "Screening result: " and the prediction on a line of its own, and every input with a non-blank value as its own "- key: value" line |
| Wellness.ResultLineInMessage | backend/nvidia_report.py:35 | the screening result is a line of its own in the message |
| Wellness.InputLineInMessage | backend/nvidia_report.py:39-41 | an input with a non-blank value is a line of its own in the message, between newlines |
| Wellness.GenerateReport | backend/nvidia_report.py:51-79 | not configured gives `None` with no request made; otherwise the request is sent, and an exception or an empty choice list gives `None`; any report is non-empty and trimmed |

## Left out

- Flask routing, `render_template`, `/health`, `request.get_json` and the parsing of form and file parts: the handlers are modelled on the values these produce.
- The OpenAI client, the model name and the sampling settings of `backend/app.py`, which come from environment variables parsed with `float`/`int`: the service is a parameter, and the prompt sent is what the model records.
- PyPDF2: the reader is modelled as its outcome, either an error or a list of pages, each with its text or its error.
- `json.loads`: it is a parameter from text to a parsed object or an error text.
- Values that are not strings: the model takes string or `None` values. `str(v)` of a number or a list and `.strip()` on a non-string `diagnosis_result` are left out.
- A reply that parses to something other than an object: in `predict` its `.get` raises outside any `try`; in `analyze_diagnosis` it is returned as `data` with status "success". The model's parsed reply is always an object.
- A request body of `predict` that is not an object: a false-valued one (`0`, `""`, `[]`) becomes `{}` through `or {}` and gives the 400 "Exactly 12 features required"; a true-valued one raises on `.get` inside the first `try` and gives a 400 with the exception's text. The model takes the body as an object.
- An `input_data` of `predict` that is true-valued but not an object raises `AttributeError` in `get` inside `_build_prompt`, outside any `try`. The model takes `input_data` as an object.
- Predict.CheckFeatures: `features` is modelled as a list of numbers or nothing. A true-valued `features` that is not a list is left out: `len` accepts a string or an object, so twelve characters or twelve keys pass the check and the prompt is sent; a number or `True` makes `len` raise, which gives a 400 with the exception's text.
- Text.UpperAscii: `str.upper()` is modelled on ASCII letters only; other characters are kept as they are. Outside ASCII, no character upper-cases to letters drawn only from "ABNORMAL", so whether the prediction is "ABNORMAL" does not depend on this. Upper-casing that changes length, as for "ß", is not modelled.
- The `config` module is not part of this model, so `nvidia_configured()` is a boolean parameter, and the client's base URL, key and model name are left out.
- Duplicate keys cannot occur in a Python dict. The model's list of inputs may repeat a key; no property relies on the keys being distinct.
- The rule in the prompt that makes low hemoglobin, many pads, severe pain or missed periods abnormal is text sent to the model, not a decision the backend makes. It is part of the template constant only.
- `print` logging, the `__main__` server start-up and `frontend/android/build.gradle.kts` (build configuration).
