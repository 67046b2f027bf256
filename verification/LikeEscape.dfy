/**
 Literal text inside a SQL LIKE pattern. The matcher is SQLite's default one
 with `ESCAPE '\'`: `%` is any text, `_` any character, ASCII letters match
 regardless of case, and a pattern that ends in the escape character matches
 nothing.
 */
module LikeEscape {

  const ESC: char := '\\'

  predicate IsSpecial(c: char) {
    c == '\\' || c == '%' || c == '_'
  }

  // ---- escape_like_value

  /** `out.replace(c, "\\" + c)`. */
  function Replace(text: string, c: char): string {
    if text == "" then "" else (if text[0] == c then [ESC, c] else [text[0]]) + Replace(text[1..], c)
  }

  /** What one character becomes. */
  function EscapeChar(c: char): string {
    if IsSpecial(c) then [ESC, c] else [c]
  }

  /** Each character escaped on its own. */
  function Escape(value: string): string {
    if value == "" then "" else EscapeChar(value[0]) + Escape(value[1..])
  }

  /** One pass of the loop, written as the source writes it. */
  method ReplaceAll(text: string, c: char) returns (out: string)
    ensures out == Replace(text, c)
  {
    out := "";
    for i := 0 to |text|
      invariant out + Replace(text[i..], c) == Replace(text, c)
    {
      var piece := if text[i] == c then [ESC, c] else [text[i]];
      assert text[i..][1..] == text[i + 1..];
      assert out + (piece + Replace(text[i + 1..], c)) == (out + piece) + Replace(text[i + 1..], c);
      out := out + piece;
    }
    assert out + Replace(text[|text|..], c) == out;
  }

  /** The three replaces, backslash first. */
  method EscapeLikeValue(value: string) returns (out: string)
    ensures out == Escape(value)
  {
    ReplacesAreEscape(value);
    out := value;
    out := ReplaceAll(out, '\\');
    out := ReplaceAll(out, '%');
    out := ReplaceAll(out, '_');
  }

  lemma {:induction false} ReplaceConcat(a: string, b: string, c: char)
    ensures Replace(a + b, c) == Replace(a, c) + Replace(b, c)
  {
    if a == "" {
      assert a + b == b;
    } else {
      assert (a + b)[1..] == a[1..] + b;
      ReplaceConcat(a[1..], b, c);
    }
  }

  function ThreeReplaces(value: string): string {
    Replace(Replace(Replace(value, '\\'), '%'), '_')
  }

  lemma {:induction false} ReplaceAbsent(text: string, c: char)
    requires c !in text
    ensures Replace(text, c) == text
  {
    if text != "" {
      ReplaceAbsent(text[1..], c);
      assert text == [text[0]] + text[1..];
    }
  }

  lemma {:induction false} ReplaceOne(c: char)
    ensures Replace([c], c) == [ESC, c]
  {
    assert [c][1..] == "";
  }

  lemma {:induction false} ThreeReplacesOfChar(c: char)
    ensures ThreeReplaces([c]) == EscapeChar(c)
  {
    hide Replace;
    ReplaceOne(c);
    if c == '\\' {
      ReplaceAbsent([ESC, c], '%');
      ReplaceAbsent([ESC, c], '_');
    } else {
      ReplaceAbsent([c], '\\');
      if c == '%' {
        ReplaceAbsent([ESC, c], '_');
      } else {
        ReplaceAbsent([c], '%');
        if c != '_' {
          ReplaceAbsent([c], '_');
        }
      }
    }
  }

  /** The order of the passes matters: backslash first, so that no inserted backslash is escaped again. */
  lemma {:induction false} ReplacesAreEscape(value: string)
    ensures ThreeReplaces(value) == Escape(value)
  {
    if value != "" {
      var head, tail := [value[0]], value[1..];
      assert value == head + tail;
      ReplaceConcat(head, tail, '\\');
      ReplaceConcat(Replace(head, '\\'), Replace(tail, '\\'), '%');
      ReplaceConcat(Replace(Replace(head, '\\'), '%'), Replace(Replace(tail, '\\'), '%'), '_');
      ThreeReplacesOfChar(value[0]);
      ReplacesAreEscape(tail);
    }
  }

  // ---- the matcher

  /** SQLite's case folding, which knows ASCII only. */
  function Fold(c: char): char {
    if 'A' <= c <= 'Z' then c - 'A' + 'a' else c
  }

  predicate SameFolded(a: string, b: string) {
    |a| == |b| && forall i :: 0 <= i < |a| ==> Fold(a[i]) == Fold(b[i])
  }

  /** `text LIKE pattern ESCAPE '\'`. */
  predicate Like(pattern: string, text: string)
    decreases |pattern|, |text|
  {
    if pattern == "" then text == ""
    else if pattern[0] == '%' then Like(pattern[1..], text) || (text != "" && Like(pattern, text[1..]))
    else if pattern[0] == ESC then
      |pattern| > 1 && text != "" && Fold(pattern[1]) == Fold(text[0]) && Like(pattern[2..], text[1..])
    else text != "" && (pattern[0] == '_' || Fold(pattern[0]) == Fold(text[0])) && Like(pattern[1..], text[1..])
  }

  /** A literal in front of a pattern consumes exactly its own text, up to ASCII case. */
  lemma {:induction false} LiteralThenPattern(value: string, pattern: string, text: string)
    ensures Like(Escape(value) + pattern, text)
       <==> |value| <= |text| && SameFolded(value, text[..|value|]) && Like(pattern, text[|value|..])
    decreases |value|
  {
    var whole := Escape(value) + pattern;
    if value == "" {
      assert whole == pattern && text[0..] == text;
    } else {
      var head := EscapeChar(value[0]);
      var rest := Escape(value[1..]) + pattern;
      assert whole == head + rest;
      assert whole[|head|..] == rest;
      if text != "" {
        LiteralThenPattern(value[1..], pattern, text[1..]);
        HeadAndTail(value, text);
      }
    }
  }

  lemma {:induction false} HeadAndTail(value: string, text: string)
    requires value != "" && text != ""
    ensures |value| <= |text| ==>
              && (SameFolded(value, text[..|value|])
                  <==> Fold(value[0]) == Fold(text[0]) && SameFolded(value[1..], text[1..][..|value| - 1]))
              && text[|value|..] == text[1..][|value| - 1..]
  {
    if |value| <= |text| {
      var a, b := value, text[..|value|];
      assert forall i :: 0 <= i < |value| - 1 ==> value[1..][i] == a[i + 1] && text[1..][..|value| - 1][i] == b[i + 1];
      if Fold(value[0]) == Fold(text[0]) && SameFolded(value[1..], text[1..][..|value| - 1]) {
        forall i | 0 <= i < |value| ensures Fold(a[i]) == Fold(b[i]) {
          if i > 0 {
            assert Fold(value[1..][i - 1]) == Fold(text[1..][..|value| - 1][i - 1]);
          }
        }
      }
    }
  }

  /** As a whole pattern, an escaped value matches that value and nothing else, up to ASCII case. */
  lemma {:induction false} EscapedMatchesItself(value: string, text: string)
    ensures Like(Escape(value), text) <==> SameFolded(value, text)
  {
    assert Escape(value) + "" == Escape(value);
    LiteralThenPattern(value, "", text);
    if |value| == |text| {
      assert text[..|value|] == text;
    }
  }

  /** Where the value occurs in the text. */
  predicate OccursAt(value: string, text: string, i: nat) {
    i + |value| <= |text| && SameFolded(value, text[i..i + |value|])
  }

  predicate Occurs(value: string, text: string) {
    exists i: nat | i <= |text| :: OccursAt(value, text, i)
  }

  lemma {:induction false} TailMatchesAll(text: string)
    ensures Like("%", text)
    decreases |text|
  {
    if text != "" {
      TailMatchesAll(text[1..]);
    } else {
      assert "%"[1..] == "";
    }
  }

  lemma {:induction false} OccursStep(value: string, text: string)
    ensures Occurs(value, text) <==> OccursAt(value, text, 0) || (text != "" && Occurs(value, text[1..]))
  {
    if Occurs(value, text) && !OccursAt(value, text, 0) {
      var i: nat :| i <= |text| && OccursAt(value, text, i);
      assert text[1..][i - 1..i - 1 + |value|] == text[i..i + |value|];
      assert OccursAt(value, text[1..], i - 1);
    }
    if text != "" && Occurs(value, text[1..]) {
      var i: nat :| i <= |text[1..]| && OccursAt(value, text[1..], i);
      assert text[1..][i..i + |value|] == text[i + 1..i + 1 + |value|];
      assert OccursAt(value, text, i + 1);
    }
  }

  /** Between two `%`, an escaped value matches exactly the texts it occurs in, up to ASCII case. */
  lemma {:induction false} EscapedMatchesSubstring(value: string, text: string)
    ensures Like("%" + Escape(value) + "%", text) <==> Occurs(value, text)
    decreases |text|
  {
    var pattern := "%" + Escape(value) + "%";
    assert pattern[0] == '%' && pattern[1..] == Escape(value) + "%";
    LiteralThenPattern(value, "%", text);
    if |value| <= |text| {
      TailMatchesAll(text[|value|..]);
      assert text[0..0 + |value|] == text[..|value|];
    }
    OccursStep(value, text);
    if text != "" {
      EscapedMatchesSubstring(value, text[1..]);
    }
  }

  /** Different values have different patterns. */
  lemma {:induction false} EscapeInjective(a: string, b: string)
    requires Escape(a) == Escape(b)
    ensures a == b
  {
    if a != "" && b != "" {
      assert Escape(a)[|EscapeChar(a[0])|..] == Escape(a[1..]);
      assert Escape(b)[|EscapeChar(b[0])|..] == Escape(b[1..]);
      EscapeInjective(a[1..], b[1..]);
      assert a == [a[0]] + a[1..] && b == [b[0]] + b[1..];
    }
  }

  // ---- the verifier's query

  /** A literal, one arbitrary character, and another literal. */
  predicate SplitAt(a: string, b: string, text: string, i: nat) {
    OccursAt(a, text, i) && i + |a| < |text| && OccursAt(b, text, i + |a| + 1)
  }

  predicate OccursSplit(a: string, b: string, text: string) {
    exists i: nat | i <= |text| :: SplitAt(a, b, text, i)
  }

  lemma {:induction false} ShiftedOccurs(value: string, text: string, k: nat, i: nat)
    requires k <= |text|
    ensures OccursAt(value, text[k..], i) <==> OccursAt(value, text, k + i)
  {
    if i + |value| <= |text| - k {
      assert text[k..][i..i + |value|] == text[k + i..k + i + |value|];
    }
  }

  lemma {:induction false} SplitStep(a: string, b: string, text: string)
    ensures OccursSplit(a, b, text) <==> SplitAt(a, b, text, 0) || (text != "" && OccursSplit(a, b, text[1..]))
  {
    hide OccursAt;
    if OccursSplit(a, b, text) && !SplitAt(a, b, text, 0) {
      var i: nat :| i <= |text| && SplitAt(a, b, text, i);
      ShiftedOccurs(a, text, 1, i - 1);
      ShiftedOccurs(b, text, 1, i + |a|);
      assert SplitAt(a, b, text[1..], i - 1);
    }
    if text != "" && OccursSplit(a, b, text[1..]) {
      var i: nat :| i <= |text[1..]| && SplitAt(a, b, text[1..], i);
      ShiftedOccurs(a, text, 1, i);
      ShiftedOccurs(b, text, 1, i + |a| + 1);
      assert SplitAt(a, b, text, i + 1);
    }
  }

  /** The pattern behind the leading `%` of a query with a wildcard in it. */
  lemma {:induction false} SplitHere(a: string, b: string, text: string)
    ensures Like(Escape(a) + ("_" + (Escape(b) + "%")), text) <==> SplitAt(a, b, text, 0)
  {
    hide Like;
    var rest := "_" + (Escape(b) + "%");
    LiteralThenPattern(a, rest, text);
    if |a| <= |text| {
      assert text[0..0 + |a|] == text[..|a|];
      AnyThenLiteral(b, text[|a|..]);
      ShiftedOccurs(b, text, |a|, 1);
    }
  }

  lemma {:induction false} AnyThenLiteral(b: string, text: string)
    ensures Like("_" + (Escape(b) + "%"), text) <==> text != "" && OccursAt(b, text, 1)
  {
    var pattern := "_" + (Escape(b) + "%");
    assert pattern[0] == '_' && pattern[1..] == Escape(b) + "%";
    if text != "" {
      LiteralThenPattern(b, "%", text[1..]);
      if |b| <= |text| - 1 {
        TailMatchesAll(text[1..][|b|..]);
        assert text[1..][..|b|] == text[1..1 + |b|];
      }
    }
  }

  lemma {:induction false} SplitAnywhere(a: string, b: string, text: string)
    ensures Like("%" + (Escape(a) + ("_" + (Escape(b) + "%"))), text) <==> OccursSplit(a, b, text)
    decreases |text|
  {
    hide SplitAt;
    var tail := Escape(a) + ("_" + (Escape(b) + "%"));
    assert ("%" + tail)[0] == '%' && ("%" + tail)[1..] == tail;
    SplitHere(a, b, text);
    SplitStep(a, b, text);
    if text != "" {
      SplitAnywhere(a, b, text[1..]);
    }
  }

  lemma {:induction false} EscapeConcat(a: string, b: string)
    ensures Escape(a + b) == Escape(a) + Escape(b)
  {
    if a == "" {
      assert a + b == b;
    } else {
      assert (a + b)[1..] == a[1..] + b;
      EscapeConcat(a[1..], b);
    }
  }

  lemma {:induction false} EscapePlain(text: string)
    requires forall i :: 0 <= i < |text| ==> !IsSpecial(text[i])
    ensures Escape(text) == text
  {
    if text != "" {
      EscapePlain(text[1..]);
      assert text == [text[0]] + text[1..];
    }
  }

  const BEFORE := "\"title"
  const AFTER := "no\": \""
  const QUOTE := "\""

  /** The pattern of the title lookup: the value is escaped, the field name around it is not. */
  function TitlePattern(titleNo: string): string {
    "%" + (BEFORE + ("_" + (AFTER + (Escape(titleNo) + (QUOTE + "%")))))
  }

  /**
   The lookup finds exactly the payloads with the title number quoted after
   the field name, up to ASCII case, where the underscore of the unescaped
   field name stands for any character.
   */
  lemma {:induction false} TitleLookupFinds(titleNo: string, payload: string)
    ensures Like(TitlePattern(titleNo), payload) <==> OccursSplit(BEFORE, AFTER + titleNo + QUOTE, payload)
  {
    hide Like, OccursSplit, Escape;
    PlainParts();
    EscapePlain(BEFORE);
    EscapePlain(AFTER);
    EscapePlain(QUOTE);
    EscapeConcat(AFTER + titleNo, QUOTE);
    EscapeConcat(AFTER, titleNo);
    assert AFTER + (Escape(titleNo) + (QUOTE + "%")) == Escape(AFTER + titleNo + QUOTE) + "%";
    SplitAnywhere(BEFORE, AFTER + titleNo + QUOTE, payload);
  }

  lemma {:induction false} PlainParts()
    ensures forall i :: 0 <= i < |BEFORE| ==> !IsSpecial(BEFORE[i])
    ensures forall i :: 0 <= i < |AFTER| ==> !IsSpecial(AFTER[i])
    ensures forall i :: 0 <= i < |QUOTE| ==> !IsSpecial(QUOTE[i])
  {
  }
}
