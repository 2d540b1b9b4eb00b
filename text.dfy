/**
 * The Python string operations the relay relies on, with the laws the rest of
 * the model needs: `str.strip()`, `sep.join(parts)`, `str.split(sep)` on one
 * character, `str.replace(old, new)` and `str.upper()`.
 */
module Text {

  /** The characters Python's `str.isspace` accepts, which `str.strip()` removes. */
  predicate IsSpace(c: char) {
    || ('\t' <= c <= '\r')
    || ('\U{1C}' <= c <= ' ')
    || c == '\U{85}' || c == '\U{A0}' || c == '\U{1680}'
    || ('\U{2000}' <= c <= '\U{200A}')
    || c == '\U{2028}' || c == '\U{2029}' || c == '\U{202F}' || c == '\U{205F}' || c == '\U{3000}'
  }

  /** Every character of `s` is whitespace (the empty string included). */
  predicate AllSpace(s: string) {
    forall i :: 0 <= i < |s| ==> IsSpace(s[i])
  }

  /** Neither end of `s` is whitespace. */
  predicate IsTrimmed(s: string) {
    s == [] || (!IsSpace(s[0]) && !IsSpace(s[|s| - 1]))
  }

  /** `t` occurs in `s` starting at index `i`. */
  predicate OccursAt(t: string, s: string, i: int) {
    0 <= i && i + |t| <= |s| && s[i..i + |t|] == t
  }

  /** `t` occurs in `s` as a contiguous substring (Python's `t in s`). */
  predicate IsInfix(t: string, s: string) {
    exists i :: 0 <= i <= |s| && OccursAt(t, s, i)
  }

  /** Whatever sits between two texts occurs in their concatenation. */
  lemma InfixOfConcat(head: string, piece: string, tail: string)
    ensures IsInfix(piece, head + piece + tail)
  {
    var s := head + piece + tail;
    assert s[|head|..|head| + |piece|] == piece;
    assert OccursAt(piece, s, |head|);
  }

  /** `s.lstrip()`: the text after its leading whitespace. */
  function TrimLeft(s: string): (r: string)
    ensures |r| <= |s|
    ensures r == [] || !IsSpace(r[0])
  {
    if s != [] && IsSpace(s[0]) then TrimLeft(s[1..]) else s
  }

  /** `s.rstrip()`: the text before its trailing whitespace. */
  function TrimRight(s: string): (r: string)
    ensures |r| <= |s|
    ensures r == [] || !IsSpace(r[|r| - 1])
  {
    if s != [] && IsSpace(s[|s| - 1]) then TrimRight(s[..|s| - 1]) else s
  }

  /** What `TrimLeft` drops is whitespace, and what it keeps is the rest of the text. */
  lemma {:induction false} TrimLeftSuffix(s: string)
    ensures s[|s| - |TrimLeft(s)|..] == TrimLeft(s)
    ensures AllSpace(s[..|s| - |TrimLeft(s)|])
  {
    if s != [] && IsSpace(s[0]) {
      TrimLeftSuffix(s[1..]);
      var n := |s| - |TrimLeft(s)|;
      assert s[1..][n - 1..] == s[n..];
      assert forall i :: 1 <= i < n ==> s[..n][i] == s[1..][..n - 1][i - 1];
    }
  }

  /** What `TrimRight` drops is whitespace, and what it keeps is the start of the text. */
  lemma {:induction false} TrimRightPrefix(s: string)
    ensures s[..|TrimRight(s)|] == TrimRight(s)
    ensures AllSpace(s[|TrimRight(s)|..])
  {
    if s != [] && IsSpace(s[|s| - 1]) {
      var t := s[..|s| - 1];
      TrimRightPrefix(t);
      var n := |TrimRight(s)|;
      assert t[..n] == s[..n];
      assert forall i :: 0 <= i < |s| - 1 - n ==> s[n..][i] == t[n..][i];
    }
  }

  /**
   * Python's `str.strip()` with no argument: the text between the leading and
   * the trailing whitespace, which is empty exactly when the input is all
   * whitespace.
   */
  function Strip(s: string): (r: string)
    ensures IsTrimmed(r)
    ensures IsInfix(r, s)
    ensures r == [] <==> AllSpace(s)
  {
    var l := TrimLeft(s);
    TrimLeftSuffix(s);
    TrimRightPrefix(l);
    var r := TrimRight(l);
    var a := |s| - |l|;
    assert r != [] ==> r[0] == l[0];
    assert s[a..a + |r|] == r;
    assert OccursAt(r, s, a);
    if r == [] then
      assert l[|r|..] == l;
      assert s[..a] == s;
      r
    else
      r
  }

  /** Python's truth test on `s.strip()`: the text has a non-whitespace character. */
  predicate NonBlank(s: string) {
    Strip(s) != []
  }

  /** Leading whitespace in front of a text that does not start with whitespace is dropped, and nothing else. */
  lemma {:induction false} TrimLeftPadded(w: string, t: string)
    requires AllSpace(w) && (t == [] || !IsSpace(t[0]))
    ensures TrimLeft(w + t) == t
  {
    if w == [] {
      assert w + t == t;
    } else {
      assert (w + t)[0] == w[0];
      assert (w + t)[1..] == w[1..] + t;
      TrimLeftPadded(w[1..], t);
    }
  }

  /** Trailing whitespace after a text that does not end with whitespace is dropped, and nothing else. */
  lemma {:induction false} TrimRightPadded(t: string, w: string)
    requires AllSpace(w) && (t == [] || !IsSpace(t[|t| - 1]))
    ensures TrimRight(t + w) == t
  {
    if w == [] {
      assert t + w == t;
    } else {
      var n := |w| - 1;
      assert (t + w)[|t + w| - 1] == w[n];
      assert (t + w)[..|t + w| - 1] == t + w[..n];
      TrimRightPadded(t, w[..n]);
    }
  }

  /**
   * Stripping undoes padding: any trimmed text surrounded by whitespace
   * strips back to itself. With empty padding this is idempotence.
   */
  lemma StripPadded(w1: string, body: string, w2: string)
    requires AllSpace(w1) && AllSpace(w2) && IsTrimmed(body)
    ensures Strip(w1 + body + w2) == body
  {
    var s := w1 + body + w2;
    if body == [] {
      assert AllSpace(s) by {
        forall i | 0 <= i < |s| ensures IsSpace(s[i]) {
          if i < |w1| { assert s[i] == w1[i]; }
          else { assert s[i] == w2[i - |w1|]; }
        }
      }
    } else {
      assert s == w1 + (body + w2);
      assert (body + w2)[0] == body[0];
      TrimLeftPadded(w1, body + w2);
      TrimRightPadded(body, w2);
    }
  }

  /** Stripping is idempotent. */
  lemma StripIdempotent(s: string)
    ensures Strip(Strip(s)) == Strip(s)
  {
    var r := Strip(s);
    assert [] + r + [] == r;
    StripPadded([], r, []);
  }

  /** `sep.join(parts)`. */
  function Join(parts: seq<string>, sep: string): string
  {
    if |parts| == 0 then ""
    else if |parts| == 1 then parts[0]
    else parts[0] + sep + Join(parts[1..], sep)
  }

  /**
   * Joining non-empty trimmed parts gives a trimmed text: it starts with the
   * first part and ends with the last.
   */
  lemma {:induction false} JoinTrimmed(parts: seq<string>, sep: string)
    requires |parts| >= 1
    requires forall i :: 0 <= i < |parts| ==> parts[i] != "" && IsTrimmed(parts[i])
    ensures Join(parts, sep) != ""
    ensures |parts[0]| <= |Join(parts, sep)| && Join(parts, sep)[..|parts[0]|] == parts[0]
    ensures |parts[|parts| - 1]| <= |Join(parts, sep)|
    ensures Join(parts, sep)[|Join(parts, sep)| - |parts[|parts| - 1]|..] == parts[|parts| - 1]
    ensures Join(parts, sep)[0] == parts[0][0]
    ensures Join(parts, sep)[|Join(parts, sep)| - 1] == parts[|parts| - 1][|parts[|parts| - 1]| - 1]
    ensures IsTrimmed(Join(parts, sep))
  {
    if |parts| > 1 {
      JoinTrimmed(parts[1..], sep);
      var rest := Join(parts[1..], sep);
      assert Join(parts, sep) == parts[0] + sep + rest;
      assert (parts[0] + sep + rest)[|parts[0] + sep + rest| - 1] == rest[|rest| - 1];
      assert (parts[0] + sep + rest)[..|parts[0]|] == parts[0];
      var last := parts[|parts| - 1];
      assert last == parts[1..][|parts[1..]| - 1];
      assert (parts[0] + sep + rest)[|parts[0] + sep + rest| - |last|..] == rest[|rest| - |last|..];
    }
  }

  /** Joining two non-empty lists is joining each and putting one separator between them. */
  lemma {:induction false} JoinAppend(a: seq<string>, b: seq<string>, sep: string)
    requires a != [] && b != []
    ensures Join(a + b, sep) == Join(a, sep) + sep + Join(b, sep)
  {
    if |a| == 1 {
      assert (a + b)[1..] == b;
    } else {
      assert (a + b)[1..] == a[1..] + b;
      JoinAppend(a[1..], b, sep);
      var x, y := Join(a[1..], sep), Join(b, sep);
      assert a[0] + sep + (x + sep + y) == (a[0] + sep + x) + sep + y;
    }
  }

  /** A part with parts on both sides of it appears in the join between two separators. */
  lemma JoinInner(pre: seq<string>, x: string, post: seq<string>, sep: string)
    requires pre != [] && post != []
    ensures IsInfix(sep + x + sep, Join(pre + [x] + post, sep))
  {
    assert pre + [x] + post == pre + ([x] + post);
    JoinAppend(pre, [x] + post, sep);
    assert ([x] + post)[1..] == post;
    var a, b := Join(pre, sep), Join(post, sep);
    assert a + sep + (x + sep + b) == a + (sep + x + sep) + b;
    InfixOfConcat(a, sep + x + sep, b);
  }

  /** `s.split(c)` for a one-character separator `c`. */
  function Split(s: string, c: char): (r: seq<string>)
    ensures |r| >= 1
  {
    if s == [] then [""]
    else if s[0] == c then [""] + Split(s[1..], c)
    else
      var rest := Split(s[1..], c);
      [[s[0]] + rest[0]] + rest[1..]
  }

  lemma {:induction false} SplitNoSeparator(a: string, c: char)
    requires c !in a
    ensures Split(a, c) == [a]
  {
    if a != [] {
      SplitNoSeparator(a[1..], c);
      assert [a[0]] + a[1..] == a;
    }
  }

  lemma {:induction false} SplitAfterPiece(a: string, c: char, b: string)
    requires c !in a
    ensures Split(a + [c] + b, c) == [a] + Split(b, c)
  {
    if a == [] {
      assert a + [c] + b == [c] + b;
      assert ([c] + b)[1..] == b;
    } else {
      assert (a + [c] + b)[1..] == a[1..] + [c] + b;
      SplitAfterPiece(a[1..], c, b);
      assert [a[0]] + a[1..] == a;
    }
  }

  /**
   * Splitting on a character undoes joining on it, as long as no part
   * contains the character: the joined text has exactly `|parts|` pieces.
   */
  lemma {:induction false} SplitJoin(parts: seq<string>, c: char)
    requires |parts| >= 1
    requires forall i :: 0 <= i < |parts| ==> c !in parts[i]
    ensures Split(Join(parts, [c]), c) == parts
  {
    if |parts| == 1 {
      SplitNoSeparator(parts[0], c);
    } else {
      SplitJoin(parts[1..], c);
      SplitAfterPiece(parts[0], c, Join(parts[1..], [c]));
      assert [parts[0]] + parts[1..] == parts;
    }
  }

  /** `s.replace(pat, repl)`: every occurrence of `pat`, scanned left to right without overlap, becomes `repl`. */
  function ReplaceAll(s: string, pat: string, repl: string): string
    requires pat != []
    decreases |s|
  {
    if |s| < |pat| then s
    else if s[..|pat|] == pat then repl + ReplaceAll(s[|pat|..], pat, repl)
    else [s[0]] + ReplaceAll(s[1..], pat, repl)
  }

  /**
   * A prefix in which the pattern's first character never occurs is copied
   * through unchanged; the replacing starts after it.
   */
  lemma {:induction false} ReplaceSkip(y: string, z: string, pat: string, repl: string)
    requires pat != [] && pat[0] !in y
    ensures ReplaceAll(y + z, pat, repl) == y + ReplaceAll(z, pat, repl)
    decreases |y|
  {
    if y != [] {
      var s := y + z;
      if |s| >= |pat| {
        assert s[..|pat|][0] == s[0] == y[0];
        assert s[1..] == y[1..] + z;
        ReplaceSkip(y[1..], z, pat, repl);
        assert [y[0]] + (y[1..] + ReplaceAll(z, pat, repl)) == y + ReplaceAll(z, pat, repl);
      } else {
        assert |z| < |pat|;
      }
    } else {
      assert y + z == z;
    }
  }

  /** Replacing a pattern whose first character does not occur in `s` changes nothing. */
  lemma ReplaceAbsent(s: string, pat: string, repl: string)
    requires pat != [] && pat[0] !in s
    ensures ReplaceAll(s, pat, repl) == s
  {
    ReplaceSkip(s, "", pat, repl);
    assert s + "" == s;
  }

  /** `str.upper()` on ASCII letters; every other character is kept. */
  function UpperAscii(s: string): (r: string)
    ensures |r| == |s|
    ensures forall i :: 0 <= i < |s| ==> r[i] == UpperChar(s[i])
  {
    seq(|s|, i requires 0 <= i < |s| => UpperChar(s[i]))
  }

  function UpperChar(c: char): char {
    if 'a' <= c <= 'z' then (c as int - 32) as char else c
  }

  /** Upper-casing turns no character into whitespace and no whitespace into anything else. */
  lemma UpperCharSpace(c: char)
    ensures IsSpace(UpperChar(c)) <==> IsSpace(c)
  {
  }

  /** Upper-casing twice is upper-casing once. */
  lemma UpperIdempotent(s: string)
    ensures UpperAscii(UpperAscii(s)) == UpperAscii(s)
  {
  }

  lemma {:induction false} TrimLeftUpper(s: string)
    ensures TrimLeft(UpperAscii(s)) == UpperAscii(TrimLeft(s))
  {
    if s != [] {
      UpperCharSpace(s[0]);
      if IsSpace(s[0]) {
        TrimLeftUpper(s[1..]);
        assert UpperAscii(s)[1..] == UpperAscii(s[1..]);
      }
    }
  }

  lemma UpperSnoc(s: string)
    requires s != []
    ensures UpperAscii(s) == UpperAscii(s[..|s| - 1]) + [UpperChar(s[|s| - 1])]
  {
    var n := |s| - 1;
    var v := UpperAscii(s[..n]) + [UpperChar(s[n])];
    forall i | 0 <= i < |s| ensures UpperAscii(s)[i] == v[i] {
      if i < n { assert s[..n][i] == s[i]; }
    }
  }

  lemma TrimRightSnoc(x: string, c: char)
    ensures TrimRight(x + [c]) == if IsSpace(c) then TrimRight(x) else x + [c]
  {
    var s := x + [c];
    assert s[|s| - 1] == c;
    assert s[..|s| - 1] == x;
  }

  lemma {:induction false} TrimRightUpper(s: string)
    ensures TrimRight(UpperAscii(s)) == UpperAscii(TrimRight(s))
  {
    if s != [] {
      var n := |s| - 1;
      UpperSnoc(s);
      UpperCharSpace(s[n]);
      TrimRightSnoc(UpperAscii(s[..n]), UpperChar(s[n]));
      TrimRightSnoc(s[..n], s[n]);
      assert s == s[..n] + [s[n]];
      if IsSpace(s[n]) {
        TrimRightUpper(s[..n]);
      }
    }
  }

  /** Upper-casing and stripping commute. */
  lemma StripUpper(s: string)
    ensures Strip(UpperAscii(s)) == UpperAscii(Strip(s))
  {
    TrimLeftUpper(s);
    TrimRightUpper(TrimLeft(s));
  }
}
