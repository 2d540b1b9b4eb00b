/**
 * `_call_nvidia_and_parse` in backend/app.py: one call to the completion
 * service, code-fence stripping of its reply, and the parse of what is left.
 * The service and the JSON parser are parameters of the model.
 */
module Completion {
  import opened Wrappers
  import opened Text

  /** A parsed reply object: its keys with their string values, or `None` for JSON `null`. */
  type Json = map<string, Option<string>>

  /** What the completion call gives back: the first choice's content, or the text of the exception it raised. */
  datatype Reply = Content(content: Option<string>) | Raised(message: string)

  /** The two ways the call can fail. */
  datatype CallError = NotJson(decodeError: string) | Upstream(message: string)

  /** What both handlers put before the decoder's error text. */
  const NotJsonPrefix := "Model did not return valid JSON: "

  const Fence := "```"
  const JsonFence := "```json"

  /** Three backticks start at index `i` of `s`. */
  predicate FenceAt(s: string, i: int) {
    0 <= i && i + 3 <= |s| && s[i] == '`' && s[i + 1] == '`' && s[i + 2] == '`'
  }

  predicate NoFence(s: string) {
    forall i :: 0 <= i < |s| ==> !FenceAt(s, i)
  }

  /** `s.replace("```", "")`. */
  function RemoveFences(s: string): string {
    ReplaceAll(s, Fence, "")
  }

  /**
   * `result_text.replace("```json", "").replace("```", "").strip()`: the text
   * handed to the JSON parser. It has no fence left anywhere and no
   * surrounding whitespace.
   */
  function StripFences(raw: string): (r: string)
    ensures IsTrimmed(r)
    ensures !IsInfix(Fence, r)
  {
    var noFences := RemoveFences(ReplaceAll(raw, JsonFence, ""));
    NoFenceAfterRemoval(ReplaceAll(raw, JsonFence, ""));
    var r := Strip(noFences);
    NoFenceInfix(r, noFences);
    r
  }

  lemma FirstCharKept(s: string)
    requires |s| >= 1 && s[0] != '`'
    ensures |RemoveFences(s)| >= 1 && RemoveFences(s)[0] == s[0]
  {
    if |s| >= 3 {
      assert s[..3][0] == s[0];
    }
  }

  lemma SecondCharKept(s: string)
    requires |s| >= 2 && s[0] == '`' && s[1] != '`'
    ensures |RemoveFences(s)| >= 2 && RemoveFences(s)[1] == s[1]
  {
    if |s| >= 3 {
      assert s[..3][1] == s[1];
      FirstCharKept(s[1..]);
    }
  }

  /**
   * Removing every fence, left to right, cannot create a new one: a run of
   * backticks keeps fewer than three of them.
   */
  lemma {:induction false} NoFenceAfterRemoval(s: string)
    ensures NoFence(RemoveFences(s))
    decreases |s|
  {
    var r := RemoveFences(s);
    if |s| < 3 {
    } else if s[..3] == Fence {
      NoFenceAfterRemoval(s[3..]);
      assert r == RemoveFences(s[3..]);
    } else {
      var t := s[1..];
      NoFenceAfterRemoval(t);
      var rt := RemoveFences(t);
      assert r == [s[0]] + rt;
      forall i | 0 <= i < |r| ensures !FenceAt(r, i) {
        if i == 0 {
          if s[0] == '`' {
            if s[1] != '`' {
              FirstCharKept(t);
            } else {
              assert s[..3] == [s[0], s[1], s[2]];
              SecondCharKept(t);
            }
          }
        } else {
          assert !FenceAt(rt, i - 1);
        }
      }
    }
  }

  /** A piece of a fence-free text is fence-free, so it does not contain "```". */
  lemma NoFenceInfix(r: string, s: string)
    requires NoFence(s) && IsInfix(r, s)
    ensures !IsInfix(Fence, r)
  {
    var k :| 0 <= k <= |s| && OccursAt(r, s, k);
    forall i | 0 <= i <= |r| ensures !OccursAt(Fence, r, i) {
      if i + 3 <= |r| {
        assert !FenceAt(s, k + i);
        assert s[k + i] == r[i] && s[k + i + 1] == r[i + 1] && s[k + i + 2] == r[i + 2];
        assert !FenceAt(r, i);
      }
    }
  }

  /** A reply with no backtick at all is only trimmed. */
  lemma NoBackticksOnlyTrimmed(raw: string)
    requires '`' !in raw
    ensures StripFences(raw) == Strip(raw)
  {
    ReplaceAbsent(raw, JsonFence, "");
    ReplaceAbsent(raw, Fence, "");
  }

  /**
   * Wrapping a backtick-free, trimmed JSON text in a "```json" fence, with any
   * whitespace inside the fence, and stripping the fences gives the text back.
   */
  lemma FenceRoundTrip(w1: string, body: string, w2: string)
    requires AllSpace(w1) && AllSpace(w2) && IsTrimmed(body)
    requires '`' !in body
    ensures StripFences(JsonFence + w1 + body + w2 + Fence) == body
  {
    var inner := w1 + body + w2;
    assert '`' !in inner by {
      forall i | 0 <= i < |inner| ensures inner[i] != '`' {
        if i < |w1| { assert inner[i] == w1[i]; }
        else if i < |w1| + |body| { assert inner[i] == body[i - |w1|]; }
        else { assert inner[i] == w2[i - |w1| - |body|]; }
      }
    }
    var raw := JsonFence + w1 + body + w2 + Fence;
    assert raw == JsonFence + (inner + Fence);
    assert raw[..|JsonFence|] == JsonFence;
    assert raw[|JsonFence|..] == inner + Fence;
    ReplaceSkip(inner, Fence, JsonFence, "");
    assert ReplaceAll(Fence, JsonFence, "") == Fence;
    assert ReplaceAll(raw, JsonFence, "") == inner + Fence;
    ReplaceSkip(inner, Fence, Fence, "");
    assert Fence[..|Fence|] == Fence && Fence[|Fence|..] == [];
    assert ReplaceAll(Fence, Fence, "") == "";
    assert RemoveFences(inner + Fence) == inner;
    StripPadded(w1, body, w2);
  }

  /** The text `json.loads` is given: the reply content (`None` read as ""), fences stripped. */
  function ParsedText(content: Option<string>): string {
    StripFences(if content.Some? then content.value else "")
  }

  /**
   * `_call_nvidia_and_parse(prompt)`: an exception from the service becomes
   * an upstream error carrying its text; otherwise the cleaned reply is parsed,
   * and a parse failure becomes a not-JSON error carrying the decoder's text.
   */
  function CallAndParse(prompt: string, upstream: string -> Reply, parse: string -> Result<Json, string>): (r: Result<Json, CallError>)
    ensures (r.Err? && r.error.Upstream?) <==> upstream(prompt).Raised?
    ensures upstream(prompt).Raised? ==> r.error.message == upstream(prompt).message
    ensures r.Ok? ==> upstream(prompt).Content? && parse(ParsedText(upstream(prompt).content)) == Ok(r.value)
    ensures r.Err? && r.error.NotJson? ==>
              upstream(prompt).Content? && parse(ParsedText(upstream(prompt).content)) == Err(r.error.decodeError)
  {
    match upstream(prompt)
    case Raised(m) => Err(Upstream(m))
    case Content(c) =>
      match parse(ParsedText(c))
      case Ok(v) => Ok(v)
      case Err(e) => Err(NotJson(e))
  }
}
