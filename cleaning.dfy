/** Cleaning of the completion text: the text segments of the reply are
    concatenated, every "```json" or "```" marker is deleted (a global regular
    expression replace, scanning left to right and trying "```json" first),
    and surrounding white space is trimmed. */
module Cleaning {

  /** Concatenation of the reply's text segments; a segment without text
      contributes "". */
  function Join(parts: seq<string>): (r: string)
  {
    if parts == [] then [] else parts[0] + Join(parts[1..])
  }

  lemma {:induction false} JoinAppend(a: seq<string>, b: seq<string>)
    ensures Join(a + b) == Join(a) + Join(b)
  {
    if a == [] {
      assert a + b == b;
    } else {
      assert (a + b)[1..] == a[1..] + b;
      JoinAppend(a[1..], b);
    }
  }

  /** The text of a reply: the joined segments, or "" when the reply has no
      content list. */
  function ReplyText(content: seq<string>, hasContent: bool): (r: string)
  {
    if hasContent then Join(content) else []
  }

  const JsonFence: string := "```json"
  const Fence: string := "```"

  /** `text.replace(/```json|```/g, '')`. */
  function StripFences(s: string): (r: string)
    ensures |r| <= |s|
  {
    if |s| >= 7 && s[..7] == JsonFence then
      assert s == s[..7] + s[7..];
      StripFences(s[7..])
    else if |s| >= 3 && s[..3] == Fence then
      assert s == s[..3] + s[3..];
      StripFences(s[3..])
    else if s == [] then []
    else
      assert s == [s[0]] + s[1..];
      [s[0]] + StripFences(s[1..])
  }

  /** Scanning keeps the first character when no marker starts there. */
  lemma StripKeep(s: string)
    requires s != []
    requires !(|s| >= 3 && s[..3] == Fence)
    requires !(|s| >= 7 && s[..7] == JsonFence)
    ensures StripFences(s) == [s[0]] + StripFences(s[1..])
  {
  }

  /** A character other than a backtick is always kept. */
  lemma StripHead(s: string)
    requires s != [] && s[0] != '`'
    ensures StripFences(s) == [s[0]] + StripFences(s[1..])
  {
    if |s| >= 7 { assert s[..7][0] == s[0]; }
    if |s| >= 3 { assert s[..3][0] == s[0]; }
    StripKeep(s);
  }

  /** Text without a backtick is left as it is. */
  lemma {:induction false} StripPlain(s: string)
    requires '`' !in s
    ensures StripFences(s) == s
  {
    if s != [] {
      StripHead(s);
      assert s == [s[0]] + s[1..];
      StripPlain(s[1..]);
    }
  }

  /** Deleting markers distributes over a backtick-free prefix. */
  lemma {:induction false} StripPlainPrefix(a: string, b: string)
    requires '`' !in a
    ensures StripFences(a + b) == a + StripFences(b)
  {
    if a == [] {
      assert a + b == b;
    } else {
      var s := a + b;
      assert s[0] == a[0] && a[0] in a;
      assert s[1..] == a[1..] + b;
      assert '`' !in a[1..] by {
        assert forall c :: c in a[1..] ==> c in a;
      }
      StripPlainPrefix(a[1..], b);
      StripHead(s);
      calc {
        StripFences(s);
        [a[0]] + StripFences(a[1..] + b);
        [a[0]] + (a[1..] + StripFences(b));
        { assert a == [a[0]] + a[1..]; }
        a + StripFences(b);
      }
    }
  }

  /** A payload wrapped in a "```json" ... "```" fence comes out unwrapped. */
  lemma StripWrapped(m: string)
    requires '`' !in m
    ensures StripFences(JsonFence + m + Fence) == m
  {
    var s := JsonFence + m + Fence;
    assert s[..7] == JsonFence;
    assert s[7..] == m + Fence;
    StripPlainPrefix(m, Fence);
    assert StripFences(Fence) == [];
  }

  /** Three backticks in a row starting at index i. */
  predicate FenceAt(r: string, i: int)
    requires 0 <= i && i + 3 <= |r|
  {
    r[i] == '`' && r[i + 1] == '`' && r[i + 2] == '`'
  }

  predicate NoFence(r: string)
  {
    forall i :: 0 <= i && i + 3 <= |r| ==> !FenceAt(r, i)
  }

  /** A kept backtick at the head is not followed by two kept backticks:
      either the next character is not a backtick, or it is and the one after
      it is not (otherwise a marker would have started at the head). */
  lemma KeptBacktickStartsNoFence(s: string)
    requires s != [] && s[0] == '`'
    requires !(|s| >= 3 && s[..3] == Fence)
    requires |StripFences(s[1..])| >= 2
    ensures !FenceAt([s[0]] + StripFences(s[1..]), 0)
  {
    assert |s| >= 2;
    if s[1] != '`' {
      StripHead(s[1..]);
    } else {
      assert |s| >= 3 && s[2] != '`' by { assert s[..3] != Fence; }
      var t := s[1..];
      assert t[1] == s[2];
      if |t| >= 3 { assert t[..3][1] == s[2]; }
      if |t| >= 7 { assert t[..7][1] == s[2]; }
      StripKeep(t);
      StripHead(t[1..]);
    }
  }

  /** One pass of the replace leaves no "```" behind: a backtick that is kept
      was not the start of a marker, so it is never followed by a deleted one,
      and kept backticks are only adjacent when they were adjacent before. */
  lemma {:induction false} StripLeavesNoFence(s: string)
    ensures NoFence(StripFences(s))
    decreases |s|
  {
    if |s| >= 7 && s[..7] == JsonFence {
      StripLeavesNoFence(s[7..]);
    } else if |s| >= 3 && s[..3] == Fence {
      StripLeavesNoFence(s[3..]);
    } else if s != [] {
      StripKeep(s);
      var r1 := StripFences(s[1..]);
      var r := [s[0]] + r1;
      StripLeavesNoFence(s[1..]);
      if |r| >= 3 && s[0] == '`' {
        KeptBacktickStartsNoFence(s);
      }
      forall i | 1 <= i && i + 3 <= |r|
        ensures !FenceAt(r, i)
      {
        assert FenceAt(r, i) == FenceAt(r1, i - 1);
      }
    }
  }

  /** The characters String.prototype.trim removes: ECMAScript WhiteSpace and
      LineTerminator code points. */
  predicate IsJsSpace(c: char)
  {
    c == '\t' || c == '\n' || c == '\U{000B}' || c == '\U{000C}' || c == '\r' ||
    c == ' ' || c == '\U{00A0}' || c == '\U{1680}' ||
    ('\U{2000}' <= c <= '\U{200A}') ||
    c == '\U{2028}' || c == '\U{2029}' || c == '\U{202F}' || c == '\U{205F}' ||
    c == '\U{3000}' || c == '\U{FEFF}'
  }

  predicate AllSpace(s: string)
  {
    forall i :: 0 <= i < |s| ==> IsJsSpace(s[i])
  }

  function TrimStart(s: string): (r: string)
    ensures |r| <= |s| && r == s[|s| - |r|..]
    ensures forall i :: 0 <= i < |s| - |r| ==> IsJsSpace(s[i])
    ensures r != [] ==> !IsJsSpace(r[0])
  {
    if s != [] && IsJsSpace(s[0]) then
      var r := TrimStart(s[1..]);
      assert s[1..][|s| - 1 - |r|..] == s[|s| - |r|..];
      r
    else s
  }

  function TrimEnd(s: string): (r: string)
    ensures |r| <= |s| && r == s[..|r|]
    ensures forall i :: |r| <= i < |s| ==> IsJsSpace(s[i])
    ensures r != [] ==> !IsJsSpace(r[|r| - 1])
  {
    if s != [] && IsJsSpace(s[|s| - 1]) then
      var r := TrimEnd(s[..|s| - 1]);
      assert s[..|s| - 1][..|r|] == s[..|r|];
      r
    else s
  }

  /** `s.trim()`: the result neither begins nor ends with white space, and
      it is empty only for all-white-space input (TrimPadded pins down which
      slice of s it is). */
  function Trim(s: string): (r: string)
    ensures r != [] ==> !IsJsSpace(r[0]) && !IsJsSpace(r[|r| - 1])
    ensures r == [] <==> AllSpace(s)
  {
    var t := TrimStart(s);
    var r := TrimEnd(t);
    assert t != [] ==> t[0] == s[|s| - |t|];
    r
  }

  lemma {:induction false} TrimStartPadded(a: string, m: string)
    requires AllSpace(a)
    requires m == [] || !IsJsSpace(m[0])
    ensures TrimStart(a + m) == m
  {
    if a == [] {
      assert a + m == m;
    } else {
      assert (a + m)[0] == a[0];
      assert (a + m)[1..] == a[1..] + m;
      TrimStartPadded(a[1..], m);
    }
  }

  lemma {:induction false} TrimEndPadded(m: string, b: string)
    requires AllSpace(b)
    requires m == [] || !IsJsSpace(m[|m| - 1])
    ensures TrimEnd(m + b) == m
  {
    if b == [] {
      assert m + b == m;
    } else {
      var s := m + b;
      assert s[|s| - 1] == b[|b| - 1];
      assert s[..|s| - 1] == m + b[..|b| - 1];
      TrimEndPadded(m, b[..|b| - 1]);
    }
  }

  /** Trimming removes exactly the white-space padding around a payload. */
  lemma TrimPadded(a: string, m: string, b: string)
    requires AllSpace(a) && AllSpace(b)
    requires m != [] && !IsJsSpace(m[0]) && !IsJsSpace(m[|m| - 1])
    ensures Trim(a + m + b) == m
  {
    assert a + m + b == a + (m + b);
    TrimStartPadded(a, m + b);
    TrimEndPadded(m, b);
  }

  /** The cleaned completion text that is handed to the JSON parser. */
  function Clean(content: seq<string>, hasContent: bool): (r: string)
    ensures r != [] ==> !IsJsSpace(r[0]) && !IsJsSpace(r[|r| - 1])
    ensures |r| <= |ReplyText(content, hasContent)|
  {
    Trim(StripFences(ReplyText(content, hasContent)))
  }

  /** A single segment holding a fenced, padded payload cleans to the payload. */
  lemma CleanFencedReply(a: string, m: string, b: string)
    requires AllSpace(a) && AllSpace(b)
    requires m != [] && !IsJsSpace(m[0]) && !IsJsSpace(m[|m| - 1])
    requires '`' !in a + m + b
    ensures Clean([JsonFence + a + m + b + Fence], true) == m
  {
    assert Join([JsonFence + a + m + b + Fence]) == JsonFence + a + m + b + Fence;
    assert JsonFence + a + m + b + Fence == JsonFence + (a + m + b) + Fence;
    StripWrapped(a + m + b);
    TrimPadded(a, m, b);
  }

  /** The reply text "```json\n{"a":1}\n```" cleans to {"a":1}. */
  lemma CleanExample()
    ensures Clean(["```json\n{\"a\":1}\n```"], true) == "{\"a\":1}"
  {
    var m := "{\"a\":1}";
    assert "```json\n{\"a\":1}\n```" == JsonFence + "\n" + m + "\n" + Fence;
    assert '`' !in "\n" + m + "\n";
    CleanFencedReply("\n", m, "\n");
  }
}
