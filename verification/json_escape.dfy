/** The hand-written JSON string escaping that the requester and the TTS
    handler each carry a copy of (`EscapeJsonString`), together with the
    single-pass character map it amounts to, a matching unescape, and the
    string grammar of section 7 of RFC 8259 that it only partly meets. */
module JsonEscape {
  import opened Wrappers

  /** `StringBuilder.Replace(target, replacement)` for a one-character
      `target`: every occurrence is replaced in one left-to-right scan, and
      text inserted by the replacement is not scanned again. */
  function ReplaceChar(s: string, target: char, replacement: string): (r: string)
    ensures target !in s ==> r == s
    ensures target !in replacement ==> target !in r
    ensures |replacement| >= 1 ==> |r| >= |s|
  {
    if s == [] then []
    else (if s[0] == target then replacement else [s[0]]) + ReplaceChar(s[1..], target, replacement)
  }

  /** The C# `EscapeJsonString`: five replace passes, backslash first.
      Text without any of the five special characters passes through, no
      raw TAB survives, and nothing gets shorter. */
  function EscapeJsonString(s: string): (r: string)
    ensures '\\' !in s && '"' !in s && '\n' !in s && '\r' !in s && '\t' !in s ==> r == s
    ensures '\t' !in r
    ensures |r| >= |s|
  {
    var s1 := ReplaceChar(s, '\\', "\\\\");
    var s2 := ReplaceChar(s1, '"', "\\\"");
    var s3 := ReplaceChar(s2, '\n', "\\n");
    var s4 := ReplaceChar(s3, '\r', "\\r");
    ReplaceChar(s4, '\t', "\\t")
  }

  /** The escape of one character: the five characters the C#
      `EscapeJsonString` handles become a backslash pair, every other
      character stands for itself. */
  function EscapeChar(c: char): string
  {
    match c
    case '\\' => "\\\\"
    case '"' => "\\\""
    case '\n' => "\\n"
    case '\r' => "\\r"
    case '\t' => "\\t"
    case _ => [c]
  }

  /** Single-pass reference definition: map every character through `EscapeChar`. */
  function Escape(s: string): (r: string)
    ensures |r| >= |s|
    ensures forall i :: 0 <= i < |r| ==> r[i] != '\n' && r[i] != '\r' && r[i] != '\t'
  {
    if s == [] then [] else EscapeChar(s[0]) + Escape(s[1..])
  }

  /** The character a backslash pair stands for, for the five pairs `Escape` writes. */
  function UnescapeCode(c: char): Option<char>
  {
    match c
    case '\\' => Some('\\')
    case '"' => Some('"')
    case 'n' => Some('\n')
    case 'r' => Some('\r')
    case 't' => Some('\t')
    case _ => None
  }

  /** Undo `Escape`: decode the five backslash pairs; refuse a dangling or
      unknown backslash pair and any raw character `Escape` never writes. */
  function Unescape(s: string): (r: Option<string>)
    ensures r.Some? ==> |r.value| <= |s|
    decreases |s|
  {
    if s == [] then Some([])
    else if s[0] == '\\' then
      if |s| == 1 then None
      else match UnescapeCode(s[1])
        case None => None
        case Some(c) =>
          match Unescape(s[2..])
          case None => None
          case Some(t) => Some([c] + t)
    else if s[0] in "\"\n\r\t" then None
    else match Unescape(s[1..])
      case None => None
      case Some(t) => Some([s[0]] + t)
  }

  lemma {:induction false} ReplaceCharAppend(a: string, b: string, target: char, replacement: string)
    ensures ReplaceChar(a + b, target, replacement)
         == ReplaceChar(a, target, replacement) + ReplaceChar(b, target, replacement)
  {
    if a == [] {
      assert a + b == b;
    } else {
      var head := if a[0] == target then replacement else [a[0]];
      assert (a + b)[0] == a[0];
      assert (a + b)[1..] == a[1..] + b;
      ReplaceCharAppend(a[1..], b, target, replacement);
      calc {
        ReplaceChar(a + b, target, replacement);
        head + ReplaceChar(a[1..] + b, target, replacement);
        head + (ReplaceChar(a[1..], target, replacement) + ReplaceChar(b, target, replacement));
        (head + ReplaceChar(a[1..], target, replacement)) + ReplaceChar(b, target, replacement);
      }
    }
  }

  lemma EscapeJsonStringAppend(a: string, b: string)
    ensures EscapeJsonString(a + b) == EscapeJsonString(a) + EscapeJsonString(b)
  {
    var s1a, s1b := ReplaceChar(a, '\\', "\\\\"), ReplaceChar(b, '\\', "\\\\");
    ReplaceCharAppend(a, b, '\\', "\\\\");
    var s2a, s2b := ReplaceChar(s1a, '"', "\\\""), ReplaceChar(s1b, '"', "\\\"");
    ReplaceCharAppend(s1a, s1b, '"', "\\\"");
    var s3a, s3b := ReplaceChar(s2a, '\n', "\\n"), ReplaceChar(s2b, '\n', "\\n");
    ReplaceCharAppend(s2a, s2b, '\n', "\\n");
    var s4a, s4b := ReplaceChar(s3a, '\r', "\\r"), ReplaceChar(s3b, '\r', "\\r");
    ReplaceCharAppend(s3a, s3b, '\r', "\\r");
    ReplaceCharAppend(s4a, s4b, '\t', "\\t");
  }

  lemma ReplaceCharOne(c: char, target: char, replacement: string)
    ensures ReplaceChar([c], target, replacement) == if c == target then replacement else [c]
  {
    assert [c][1..] == [];
  }

  /** On one character the five passes leave its escape: each pass either
      misses the character or writes a pair no later pass looks for. */
  lemma EscapeJsonStringChar(c: char)
    ensures EscapeJsonString([c]) == EscapeChar(c)
  {
    var s1 := ReplaceChar([c], '\\', "\\\\");
    var s2 := ReplaceChar(s1, '"', "\\\"");
    var s3 := ReplaceChar(s2, '\n', "\\n");
    var s4 := ReplaceChar(s3, '\r', "\\r");
    var s5 := ReplaceChar(s4, '\t', "\\t");
    ReplaceCharOne(c, '\\', "\\\\");
    if c == '\\' {
      assert s1 == s2 == s3 == s4 == s5;
    } else {
      ReplaceCharOne(c, '"', "\\\"");
      if c == '"' {
        assert s2 == s3 == s4 == s5;
      } else {
        ReplaceCharOne(c, '\n', "\\n");
        if c == '\n' {
          assert s3 == s4 == s5;
        } else {
          ReplaceCharOne(c, '\r', "\\r");
          if c == '\r' {
            assert s4 == s5;
          } else {
            ReplaceCharOne(c, '\t', "\\t");
          }
        }
      }
    }
  }


  /** The five sequential passes equal the single-pass map: because the
      backslash pass runs first, no later pass can re-escape its output. */
  lemma {:induction false} EscapeJsonStringIsSinglePass(s: string)
    ensures EscapeJsonString(s) == Escape(s)
  {
    if s != [] {
      assert s == [s[0]] + s[1..];
      EscapeJsonStringAppend([s[0]], s[1..]);
      EscapeJsonStringChar(s[0]);
      EscapeJsonStringIsSinglePass(s[1..]);
    }
  }

  /** The pair `EscapeChar` writes for a special character decodes back to it. */
  lemma CodeOfEscapeChar(c: char)
    requires c in "\\\"\n\r\t"
    ensures var p := EscapeChar(c); |p| == 2 && p[0] == '\\' && UnescapeCode(p[1]) == Some(c)
  {
  }

  /** `Unescape` is a left inverse of `Escape`. */
  lemma {:induction false} UnescapeEscape(s: string)
    ensures Unescape(Escape(s)) == Some(s)
  {
    if s != [] {
      var e := Escape(s);
      var rest := Escape(s[1..]);
      UnescapeEscape(s[1..]);
      assert e == EscapeChar(s[0]) + rest;
      if s[0] in "\\\"\n\r\t" {
        CodeOfEscapeChar(s[0]);
        assert e[2..] == rest;
      } else {
        assert e[1..] == rest;
      }
      assert s == [s[0]] + s[1..];
    }
  }

  /** ... and a right inverse wherever it succeeds, so `Unescape(t) == Some(s)`
      holds exactly when `t == Escape(s)`. */
  lemma EscapeCons(c: char, rest: string)
    ensures Escape([c] + rest) == EscapeChar(c) + Escape(rest)
  {
  }

  /** Each pair `UnescapeCode` accepts is the one `EscapeChar` writes. */
  lemma EscapeCharOfCode(d: char)
    requires UnescapeCode(d).Some?
    ensures EscapeChar(UnescapeCode(d).value) == ['\\', d]
  {
  }

  lemma {:induction false} EscapeUnescape(t: string)
    requires Unescape(t).Some?
    ensures Escape(Unescape(t).value) == t
    decreases |t|
  {
    if t == [] {
    } else if t[0] == '\\' {
      var c := UnescapeCode(t[1]).value;
      var rest := Unescape(t[2..]).value;
      assert Unescape(t).value == [c] + rest;
      EscapeUnescape(t[2..]);
      EscapeCons(c, rest);
      EscapeCharOfCode(t[1]);
      assert t[..2] == ['\\', t[1]];
      assert t == t[..2] + t[2..];
    } else {
      var rest := Unescape(t[1..]).value;
      assert Unescape(t).value == [t[0]] + rest;
      EscapeUnescape(t[1..]);
      EscapeCons(t[0], rest);
      assert t == [t[0]] + t[1..];
    }
  }

  /** Text free of the five special characters passes through unchanged. */
  lemma {:induction false} EscapeFixesPlainText(s: string)
    requires forall i :: 0 <= i < |s| ==> s[i] !in "\\\"\n\r\t"
    ensures Escape(s) == s
  {
    if s != [] {
      EscapeFixesPlainText(s[1..]);
      assert s == [s[0]] + s[1..];
    }
  }

  /** Characters below U+0020 other than LF, CR and TAB: section 7 of
      RFC 8259 requires them escaped, and the C# `EscapeJsonString` leaves
      them alone. */
  predicate IsOtherControl(c: char)
  {
    c < ' ' && c != '\n' && c != '\r' && c != '\t'
  }

  /** `unescaped` of the RFC 8259 string grammar. */
  predicate IsUnescaped(c: char)
  {
    (' ' <= c <= '!') || ('#' <= c <= '[') || (']' <= c)
  }

  predicate IsHexDigit(c: char)
  {
    ('0' <= c <= '9') || ('a' <= c <= 'f') || ('A' <= c <= 'F')
  }

  /** The characters between the quotation marks of a JSON string, as
      section 7 of RFC 8259 defines them. */
  predicate IsJsonStringBody(s: string)
    decreases |s|
  {
    if s == [] then true
    else if IsUnescaped(s[0]) then IsJsonStringBody(s[1..])
    else if s[0] == '\\' && |s| >= 2 && s[1] in "\"\\/bfnrt" then IsJsonStringBody(s[2..])
    else if s[0] == '\\' && |s| >= 6 && s[1] == 'u'
         && IsHexDigit(s[2]) && IsHexDigit(s[3]) && IsHexDigit(s[4]) && IsHexDigit(s[5])
    then IsJsonStringBody(s[6..])
    else false
  }

  lemma EscapeCharThenBody(c: char, t: string)
    ensures IsJsonStringBody(EscapeChar(c) + t) <==> !IsOtherControl(c) && IsJsonStringBody(t)
  {
  }

  /** Escaping yields a valid JSON string body exactly when the input holds
      no control character other than LF, CR and TAB. */
  lemma {:induction false} EscapeIsJsonIff(s: string)
    ensures IsJsonStringBody(Escape(s)) <==> forall i :: 0 <= i < |s| ==> !IsOtherControl(s[i])
  {
    if s != [] {
      EscapeCharThenBody(s[0], Escape(s[1..]));
      EscapeIsJsonIff(s[1..]);
      assert forall i :: 1 <= i < |s| ==> s[i] == s[1..][i - 1];
    }
  }

  /** The value a hand-built JSON text carries between a known `head` and a
      known `tail`: the unescaped middle, or `None` when the text does not
      have that shape. */
  function ExtractField(head: string, tail: string, payload: string): (r: Option<string>)
    ensures r.Some? ==> |head| + |tail| <= |payload|
  {
    if |head| + |tail| <= |payload| && payload[..|head|] == head && payload[|payload| - |tail|..] == tail
    then Unescape(payload[|head|..|payload| - |tail|])
    else None
  }

  /** A payload assembled as `head + EscapeJsonString(value) + tail` gives
      back exactly `value`. */
  lemma ExtractFieldOfPayload(head: string, value: string, tail: string)
    ensures ExtractField(head, tail, head + EscapeJsonString(value) + tail) == Some(value)
  {
    var e := EscapeJsonString(value);
    var payload := head + e + tail;
    EscapeJsonStringIsSinglePass(value);
    UnescapeEscape(value);
    assert payload[..|head|] == head;
    assert payload[|payload| - |tail|..] == tail;
    assert payload[|head|..|payload| - |tail|] == e;
  }
}
