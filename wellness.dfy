/**
 * backend/nvidia_report.py: the user message describing the inputs and the
 * screening result, the chat request that carries it, and the cleanup of
 * the reply into an optional wellness report. The chat service is a
 * parameter of the model.
 */
module Wellness {
  import opened Wrappers
  import opened Text

  /** The system message restricting the model to wellness answers in plain text. */
  const SystemPrompt := "You are a wellness assistant for Masika, a menstrual and reproductive health app.\nYour role is to provide clear, supportive, and medically-grounded wellness information only.\n- Base your response strictly on the user's provided health inputs and any lab/cycle data they share.\n- Use plain language. Do not diagnose diseases or replace a doctor.\n- Recommend consulting a healthcare provider when appropriate.\n- Keep the tone professional, empathetic, and non-judgmental.\n- Structure your response as a short wellness report: a brief summary, key observations, and simple next steps or suggestions.\n- Do not answer questions unrelated to health, wellness, or the data provided.\n\nFormatting rules (important): Write in PLAIN TEXT ONLY. Do not use any markdown or symbols:\n- No asterisks (** or *) for bold. Write section headings as a short line on their own (e.g. \"Summary\" then a blank line then the summary text).\n- No hash symbols (#) for headings.\n- No hyphens (-) or asterisks (*) as bullet points. Use simple numbered lines (1. 2. 3.) or short paragraphs instead.\n- No underscores for emphasis. Just use normal sentences.\nOutput only clean, readable text with section headings on their own line and normal paragraphs below."

  /** The instruction line; the literal is cut into short pieces only so that each can be inspected cheaply. */
  const Instruction :=
    "Based on the following user inputs and "
    + "screening result, write a short "
    + "wellness report."
  const ResultLabel := "Screening result: "
  const InputsHeading := "User inputs:"
  /** The closing request for plain text, cut into short pieces like the instruction. */
  const Closing :=
    "Provide a concise wellness-oriented report "
    + "in PLAIN TEXT ONLY: no markdown, no ** for "
    + "bold, no # or - or * for lists. Use short "
    + "section headings on their own line (e.g. "
    + "Summary, Key observations, Next steps) "
    + "followed by normal sentences. No asterisks "
    + "or bullet symbols."

  /** The request's inputs in dictionary order: each key with its value, `None` for `null`. */
  type Entries = seq<(string, Option<string>)>

  /** An input is listed when its value is present and not blank. */
  predicate Shown(value: Option<string>) {
    value.Some? && NonBlank(value.value)
  }

  /** The line listing one input: its key and its value as given, untrimmed. */
  function LineOf(key: string, value: string): (line: string)
    ensures |line| == |key| + |value| + 4 && line[..2] == "- "
    ensures '\n' !in key && '\n' !in value ==> '\n' !in line
  {
    "- " + key + ": " + value
  }

  /** The opening lines of the message. */
  function Header(prediction: string): seq<string> {
    [Instruction, "", ResultLabel + prediction, "", InputsHeading]
  }

  /** The listed inputs, one line each, in dictionary order. */
  function EntryLines(entries: Entries): (lines: seq<string>)
    ensures |lines| <= |entries|
    ensures forall i :: 0 <= i < |lines| ==> |lines[i]| >= 2 && lines[i][..2] == "- "
  {
    if entries == [] then []
    else
      var n := |entries| - 1;
      var (key, value) := entries[n];
      var front := EntryLines(entries[..n]);
      if Shown(value) then front + [LineOf(key, value.value)] else front
  }

  /** All lines of the message: the header, the listed inputs, a blank line and the closing request. */
  function MessageLines(entries: Entries, prediction: string): seq<string> {
    Header(prediction) + EntryLines(entries) + ["", Closing]
  }

  /**
   * `_build_user_message(input_data, prediction)`: the loop appends a line
   * for each listed input; the lines are joined by newlines.
   */
  method BuildUserMessage(entries: Entries, prediction: string) returns (message: string)
    ensures message == Join(MessageLines(entries, prediction), "\n")
  {
    var lines := Header(prediction);
    var i := 0;
    while i < |entries|
      invariant 0 <= i <= |entries|
      invariant lines == Header(prediction) + EntryLines(entries[..i])
    {
      var (key, value) := entries[i];
      assert entries[..i + 1][..i] == entries[..i];
      if value.Some? && NonBlank(value.value) {
        lines := lines + [LineOf(key, value.value)];
      }
      i := i + 1;
    }
    assert entries[..i] == entries;
    lines := lines + [""];
    lines := lines + [Closing];
    assert lines == MessageLines(entries, prediction);
    message := Join(lines, "\n");
  }

  /** Listing is done entry by entry: the lines for `a + b` are those for `a`, then those for `b`. */
  lemma {:induction false} EntryLinesAppend(a: Entries, b: Entries)
    ensures EntryLines(a + b) == EntryLines(a) + EntryLines(b)
    decreases |b|
  {
    if b == [] {
      assert a + b == a;
    } else {
      var n := |b| - 1;
      assert (a + b)[..|a + b| - 1] == a + b[..n];
      assert (a + b)[|a + b| - 1] == b[n];
      EntryLinesAppend(a, b[..n]);
    }
  }

  /** An input with a non-blank value is listed with its key and value; one with a blank or `None` value is left out. */
  lemma EntryShownOrSkipped(a: Entries, key: string, value: Option<string>, b: Entries)
    ensures Shown(value) ==> EntryLines(a + [(key, value)] + b) == EntryLines(a) + [LineOf(key, value.value)] + EntryLines(b)
    ensures !Shown(value) ==> EntryLines(a + [(key, value)] + b) == EntryLines(a + b)
  {
    EntryLinesAppend(a + [(key, value)], b);
    EntryLinesAppend(a, [(key, value)]);
    EntryLinesAppend(a, b);
    assert [(key, value)][..0] == [];
  }

  /** No input listed exactly when no value is shown. */
  lemma {:induction false} NoEntryLines(entries: Entries)
    ensures EntryLines(entries) == [] <==> forall i :: 0 <= i < |entries| ==> !Shown(entries[i].1)
    decreases |entries|
  {
    if entries != [] {
      var n := |entries| - 1;
      NoEntryLines(entries[..n]);
      assert forall i :: 0 <= i < n ==> entries[..n][i] == entries[i];
    }
  }

  /** Joining a list with at least two elements puts the separator after the first. */
  lemma JoinCons(x: string, rest: seq<string>, sep: string)
    requires rest != []
    ensures Join([x] + rest, sep) == x + sep + Join(rest, sep)
  {
    assert ([x] + rest)[1..] == rest;
  }

  /** The five header lines joined by newlines. */
  lemma HeaderJoin(prediction: string)
    ensures Join(Header(prediction), "\n") == HeaderText(prediction)
  {
    var r := ResultLabel + prediction;
    assert Header(prediction) == [Instruction] + ([""] + ([r] + ([""] + [InputsHeading])));
    JoinCons("", [InputsHeading], "\n");
    JoinCons(r, [""] + [InputsHeading], "\n");
    JoinCons("", [r] + ([""] + [InputsHeading]), "\n");
    JoinCons(Instruction, [""] + ([r] + ([""] + [InputsHeading])), "\n");
  }

  /** The text of the message's first five lines. */
  function HeaderText(prediction: string): string {
    Instruction + "\n\n" + ResultLabel + prediction + "\n\n" + InputsHeading
  }

  /** With no input listed, the heading is followed by a blank line and the closing request. */
  lemma UserMessageNoEntries(entries: Entries, prediction: string)
    requires EntryLines(entries) == []
    ensures Join(MessageLines(entries, prediction), "\n") == HeaderText(prediction) + "\n\n" + Closing
  {
    var h := Header(prediction);
    HeaderJoin(prediction);
    TailJoin(Closing);
    assert MessageLines(entries, prediction) == h + ["", Closing];
    JoinAppend(h, ["", Closing], "\n");
    RegroupBlank(HeaderText(prediction), Closing);
  }

  /** Regrouping of a concatenation, stated over plain strings so that the texts it is used on are not unfolded. */
  lemma RegroupBlank(h: string, c: string)
    ensures h + "\n" + ("\n" + c) == h + "\n\n" + c
  {
  }

  /**
   * With inputs listed, the heading is followed by their lines, one each,
   * then a blank line and the closing request.
   */
  lemma UserMessageWithEntries(entries: Entries, prediction: string)
    requires EntryLines(entries) != []
    ensures Join(MessageLines(entries, prediction), "\n")
         == HeaderText(prediction) + "\n" + Join(EntryLines(entries), "\n") + "\n\n" + Closing
  {
    var h := Header(prediction);
    var e := EntryLines(entries);
    var t := ["", Closing];
    HeaderJoin(prediction);
    TailJoin(Closing);
    assert MessageLines(entries, prediction) == h + (e + t);
    JoinAppend(h, e + t, "\n");
    JoinAppend(e, t, "\n");
    Regroup(HeaderText(prediction), Join(e, "\n"), Closing);
  }

  /** The last two lines, a blank one and the closing request, joined. */
  lemma TailJoin(c: string)
    ensures Join(["", c], "\n") == "\n" + c
  {
    JoinCons("", [c], "\n");
  }

  /** Regrouping of a concatenation, stated over plain strings so that the texts it is used on are not unfolded. */
  lemma Regroup(h: string, e: string, c: string)
    ensures h + "\n" + (e + "\n" + ("\n" + c)) == h + "\n" + e + "\n\n" + c
  {
  }

  /** The pieces of the instruction hold no newline (one literal fact per lemma keeps each check small). */
  lemma InstructionSingleLine()
    ensures '\n' !in "Based on the following user inputs and " && '\n' !in "screening result, write a short "
    ensures '\n' !in "wellness report."
  {
  }

  /** The pieces of the closing request hold no newline, a few at a time. */
  lemma ClosingSingleLine1()
    ensures '\n' !in "Provide a concise wellness-oriented report " && '\n' !in "in PLAIN TEXT ONLY: no markdown, no ** for "
  {
  }

  /** The pieces of the closing request hold no newline, a few at a time. */
  lemma ClosingSingleLine2()
    ensures '\n' !in "bold, no # or - or * for lists. Use short " && '\n' !in "section headings on their own line (e.g. "
  {
  }

  /** The pieces of the closing request hold no newline, a few at a time. */
  lemma ClosingSingleLine3()
    ensures '\n' !in "Summary, Key observations, Next steps) " && '\n' !in "followed by normal sentences. No asterisks "
    ensures '\n' !in "or bullet symbols."
  {
  }

  /** Each fixed line of the message is a single line. */
  lemma FixedLinesSingle()
    ensures '\n' !in Instruction && '\n' !in ResultLabel && '\n' !in InputsHeading && '\n' !in Closing
  {
    InstructionSingleLine();
    ClosingSingleLine1();
    ClosingSingleLine2();
    ClosingSingleLine3();
  }

  /**
   * When neither the prediction nor any listed key or value holds a newline,
   * the message has exactly its lines: seven fixed ones and one per listed input.
   */
  lemma MessageLineCount(entries: Entries, prediction: string)
    requires '\n' !in prediction
    requires forall i :: 0 <= i < |entries| ==> '\n' !in entries[i].0
    requires forall i :: 0 <= i < |entries| && entries[i].1.Some? ==> '\n' !in entries[i].1.value
    ensures Split(Join(MessageLines(entries, prediction), "\n"), '\n') == MessageLines(entries, prediction)
    ensures |MessageLines(entries, prediction)| == 7 + |EntryLines(entries)|
  {
    FixedLinesSingle();
    EntryLinesSingle(entries);
    var ls := MessageLines(entries, prediction);
    var e := EntryLines(entries);
    forall i | 0 <= i < |ls| ensures '\n' !in ls[i] {
      if 5 <= i < 5 + |e| {
        assert ls[i] == e[i - 5];
      } else if i == 2 {
        assert ls[i] == ResultLabel + prediction;
      }
    }
    SplitJoin(ls, '\n');
  }

  lemma {:induction false} EntryLinesSingle(entries: Entries)
    requires forall i :: 0 <= i < |entries| ==> '\n' !in entries[i].0
    requires forall i :: 0 <= i < |entries| && entries[i].1.Some? ==> '\n' !in entries[i].1.value
    ensures forall i :: 0 <= i < |EntryLines(entries)| ==> '\n' !in EntryLines(entries)[i]
    decreases |entries|
  {
    if entries != [] {
      var n := |entries| - 1;
      assert forall i :: 0 <= i < n ==> entries[..n][i] == entries[i];
      EntryLinesSingle(entries[..n]);
    }
  }

  /**
   * `(content or "").strip() or None`: the reply trimmed, or `None` when it
   * is missing or all whitespace. A report is never empty and never padded.
   */
  function CleanContent(content: Option<string>): (r: Option<string>)
    ensures r.None? <==> content.None? || AllSpace(content.value)
    ensures r.Some? ==> r.value != "" && IsTrimmed(r.value) && IsInfix(r.value, content.value)
  {
    var text := Strip(if content.Some? then content.value else "");
    if text == "" then None else Some(text)
  }

  /** Cleaning a report again changes nothing. */
  lemma CleanContentIdempotent(content: Option<string>)
    ensures CleanContent(CleanContent(content)) == CleanContent(content)
  {
    if content.Some? {
      StripIdempotent(content.value);
    }
  }

  /** A trimmed, non-empty report surrounded by whitespace comes back as itself. */
  lemma CleanPadded(w1: string, body: string, w2: string)
    requires AllSpace(w1) && AllSpace(w2) && IsTrimmed(body) && body != ""
    ensures CleanContent(Some(w1 + body + w2)) == Some(body)
  {
    StripPadded(w1, body, w2);
  }

  /** What the chat call gives back: an exception, an empty choice list, or the first choice's content. */
  datatype ChatOutcome = ChatRaised | NoChoices | FirstChoice(content: Option<string>)

  /** The chat request: the system and user messages and the sampling settings. */
  datatype ChatRequest = ChatRequest(system: string, user: string, temperature: real, topP: real, maxTokens: nat)

  /** The request `generate_report` sends for these inputs. */
  function RequestFor(entries: Entries, prediction: string): ChatRequest {
    ChatRequest(SystemPrompt, Join(MessageLines(entries, prediction), "\n"), 0.5, 0.9, 2048)
  }

  /**
   * The user message of the request states the screening result on a line of
   * its own, and lists every input whose value is non-blank on a line of its
   * own, as "- key: value".
   */
  lemma RequestShowsInputs(entries: Entries, prediction: string)
    ensures IsInfix("\n" + (ResultLabel + prediction) + "\n", RequestFor(entries, prediction).user)
    ensures forall i :: 0 <= i < |entries| && Shown(entries[i].1) ==>
              IsInfix("\n" + LineOf(entries[i].0, entries[i].1.value) + "\n", RequestFor(entries, prediction).user)
  {
    ResultLineInMessage(entries, prediction);
    forall i | 0 <= i < |entries| && Shown(entries[i].1)
      ensures IsInfix("\n" + LineOf(entries[i].0, entries[i].1.value) + "\n", RequestFor(entries, prediction).user)
    {
      InputLineInMessage(entries, prediction, i);
    }
  }

  /** The screening result is the third line of the message. */
  lemma ResultLineInMessage(entries: Entries, prediction: string)
    ensures IsInfix("\n" + (ResultLabel + prediction) + "\n", Join(MessageLines(entries, prediction), "\n"))
  {
    var rest := ["", InputsHeading] + EntryLines(entries) + ["", Closing];
    assert MessageLines(entries, prediction) == [Instruction, ""] + [ResultLabel + prediction] + rest;
    JoinInner([Instruction, ""], ResultLabel + prediction, rest, "\n");
  }

  /** A shown input's line sits between the header and the closing lines. */
  lemma InputLineInMessage(entries: Entries, prediction: string, i: nat)
    requires i < |entries| && Shown(entries[i].1)
    ensures IsInfix("\n" + LineOf(entries[i].0, entries[i].1.value) + "\n", Join(MessageLines(entries, prediction), "\n"))
  {
    var (key, value) := entries[i];
    var a, b := entries[..i], entries[i + 1..];
    assert entries == a + [(key, value)] + b;
    EntryShownOrSkipped(a, key, value, b);
    var line := LineOf(key, value.value);
    var pre, post := Header(prediction) + EntryLines(a), EntryLines(b) + ["", Closing];
    assert MessageLines(entries, prediction) == pre + [line] + post;
    JoinInner(pre, line, post, "\n");
  }

  /**
   * `generate_report(input_data, prediction)`. `sent` is the request made, if
   * any: none when the service is not configured; an exception or an empty
   * choice list gives no report.
   */
  method GenerateReport(configured: bool, entries: Entries, prediction: string, chat: ChatRequest -> ChatOutcome)
    returns (report: Option<string>, sent: Option<ChatRequest>)
    ensures !configured ==> report == None && sent == None
    ensures configured ==> sent == Some(RequestFor(entries, prediction))
    ensures configured ==>
              report == (match chat(sent.value)
                         case FirstChoice(c) => CleanContent(c)
                         case _ => None)
    ensures report.Some? ==> report.value != "" && IsTrimmed(report.value)
  {
    if !configured {
      return None, None;
    }
    var user := BuildUserMessage(entries, prediction);
    var request := ChatRequest(SystemPrompt, user, 0.5, 0.9, 2048);
    sent := Some(request);
    match chat(request)
    case ChatRaised =>
      report := None;
    case NoChoices =>
      report := None;
    case FirstChoice(c) =>
      report := CleanContent(c);
  }
}
