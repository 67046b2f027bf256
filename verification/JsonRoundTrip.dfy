/** What `json.loads` makes of a text that `json.dumps` printed, and when dumping that again repeats the text. */
module JsonRoundTrip {
  import opened Hashing
  import opened CanonicalJson

  // ---- strings

  lemma {:induction false} FourNibbles(u: int)
    requires 0 <= u < 0x1_0000
    ensures u == 0x1000 * (u / 0x1000) + 0x100 * (u / 0x100 % 16) + 16 * (u / 16 % 16) + u % 16
  {
    var a, b := u / 16, u / 0x100;
    assert a / 16 == b && b / 16 == u / 0x1000;
  }

  lemma {:induction false} HexDigitReads(n: int)
    requires 0 <= n < 16
    ensures HexOf(HexDigit(n)) == n
  {
  }

  lemma {:induction false} UValueOfEscape(u: int, rest: string)
    requires 0 <= u < 0x1_0000
    ensures UValue(UEscape(u, rest)) == u && UEscape(u, rest)[6..] == rest
  {
    hide HexOf, HexDigit;
    FourNibbles(u);
    HexDigitReads(u / 0x1000);
    HexDigitReads(u / 0x100 % 16);
    HexDigitReads(u / 16 % 16);
    HexDigitReads(u % 16);
  }

  lemma {:induction false} ParseOneChar(c: CodePoint, rest: string)
    requires !(IsHigh(c) && IsLow(UValue(rest)))
    ensures
      var s := EmitChar(c, rest);
      s != "" && s[0] != '\"' && ParseChar(s) == Some((c, rest))
  {
    var s := EmitChar(c, rest);
    if c >= 0x1_0000 {
      var hi, lo := 0xD800 + (c - 0x1_0000) / 0x400, 0xDC00 + (c - 0x1_0000) % 0x400;
      UValueOfEscape(lo, rest);
      UValueOfEscape(hi, UEscape(lo, rest));
      assert s[12..] == UEscape(lo, rest)[6..];
      assert Combine(hi, lo) == c;
    } else if s == UEscape(c, rest) {
      UValueOfEscape(c, rest);
    } else if 0x20 <= c < 0x7F && c != '\"' as int && c != '\\' as int {
      assert s == [c as char] + rest;
    } else {
      assert s[2..] == rest;
    }
  }

  /** A printed string starts with an escaped low surrogate exactly when the string itself starts with one. */
  lemma {:induction false} StartsLow(s: Text, rest: string)
    ensures IsLow(UValue(EmitText(s, rest))) <==> s != [] && IsLow(s[0])
  {
    if s != [] {
      var after := EmitText(s[1..], rest);
      if s[0] >= 0x1_0000 {
        UValueOfEscape(0xD800 + (s[0] - 0x1_0000) / 0x400, UEscape(0xDC00 + (s[0] - 0x1_0000) % 0x400, after));
      } else if EmitChar(s[0], after) == UEscape(s[0], after) {
        UValueOfEscape(s[0], after);
      }
    }
  }

  lemma {:induction false} ParseEmittedText(s: Text, rest: string)
    ensures ParseText(EmitText(s, rest)) == Some((Join(s), rest))
    decreases |s|
  {
    hide ParseChar, EmitChar, UValue, IsHigh, IsLow;
    if s != [] {
      var after := EmitText(s[1..], rest);
      StartsLow(s[1..], rest);
      if |s| > 1 && IsHigh(s[0]) && IsLow(s[1]) {
        assert s[1..][1..] == s[2..];
        ParseSplitPair(s[0], s[1], EmitText(s[2..], rest));
        ParseEmittedText(s[2..], rest);
      } else {
        ParseOneChar(s[0], after);
        ParseEmittedText(s[1..], rest);
        JoinFirst(s);
      }
    }
  }

  lemma {:induction false} JoinFirst(s: Text)
    requires s != [] && !(|s| > 1 && IsHigh(s[0]) && IsLow(s[1]))
    ensures Join(s) == [s[0]] + Join(s[1..])
  {
    if |s| == 1 {
      assert s == [s[0]] + s[1..];
    }
  }

  lemma {:induction false} ParseSplitPair(hi: CodePoint, lo: CodePoint, rest: string)
    requires IsHigh(hi) && IsLow(lo)
    ensures
      var s := EmitChar(hi, EmitChar(lo, rest));
      s != "" && s[0] != '\"' && ParseChar(s) == Some((Combine(hi, lo), rest))
  {
    hide UValue;
    UValueOfEscape(lo, rest);
    UValueOfEscape(hi, UEscape(lo, rest));
    assert UEscape(hi, UEscape(lo, rest))[12..] == UEscape(lo, rest)[6..];
  }

  // ---- numbers

  lemma {:induction false} DigitsOf(n: nat)
    ensures Digits(n) != "" && (n > 0 ==> Digits(n)[0] != '0') && (n == 0 ==> Digits(n) == "0")
    ensures NatOf(Digits(n)) == n
    ensures forall i :: 0 <= i < |Digits(n)| ==> IsDigit(Digits(n)[i])
  {
    if n >= 10 {
      DigitsOf(n / 10);
      assert Digits(n)[..|Digits(n)| - 1] == Digits(n / 10);
    } else {
      assert Digits(n)[..0] == "";
    }
  }

  lemma {:induction false} SkipAllDigits(s: string)
    requires forall i :: 0 <= i < |s| ==> IsDigit(s[i])
    ensures SkipDigits(s) == ""
  {
    if s != "" {
      SkipAllDigits(s[1..]);
    }
  }

  lemma {:induction false} SpanOfAll(t: string, rest: string)
    requires forall i :: 0 <= i < |t| ==> IsNumChar(t[i])
    requires EndsNumber(rest)
    ensures NumSpan(t) == |t| && NumSpan(t + rest) == |t|
  {
    if t == "" {
      assert t + rest == rest;
    } else {
      assert (t + rest)[1..] == t[1..] + rest;
      SpanOfAll(t[1..], rest);
    }
  }

  lemma {:induction false} AllNumChars(t: string)
    requires NumSpan(t) == |t|
    ensures forall i :: 0 <= i < |t| ==> IsNumChar(t[i])
  {
    if t != "" {
      AllNumChars(t[1..]);
    }
  }

  lemma {:induction false} IntTextReads(n: int)
    ensures IsIntText(IntText(n)) && IntOf(IntText(n)) == n
    ensures IntText(n) != "" && (IntText(n)[0] == '-' || IsDigit(IntText(n)[0]))
    ensures forall i :: 0 <= i < |IntText(n)| ==> IsNumChar(IntText(n)[i])
  {
    var m := if n < 0 then -n else n;
    DigitsOf(m);
    SkipAllDigits(Digits(m)[1..]);
    if n < 0 {
      assert IntText(n)[1..] == Digits(m);
    }
  }

  /** The text that follows cannot continue a number. */
  predicate EndsNumber(rest: string) {
    rest == "" || !IsNumChar(rest[0])
  }

  lemma {:induction false} ParseNumber(t: string, rest: string)
    requires t != "" && (t[0] == '-' || IsDigit(t[0])) && EndsNumber(rest)
    requires forall i :: 0 <= i < |t| ==> IsNumChar(t[i])
    ensures IsIntText(t) ==> ParseValue(t + rest) == Some((Int(IntOf(t)), rest))
    ensures !IsIntText(t) && IsFloatText(t) ==> ParseValue(t + rest) == Some((Float(t), rest))
  {
    hide IsIntText, IsFloatText, IntOf, NumSpan;
    SpanOfAll(t, rest);
    assert (t + rest)[..|t|] == t && (t + rest)[|t|..] == rest;
    assert (t + rest)[0] == t[0] && "null"[0] == 'n' && "true"[0] == 't' && "false"[0] == 'f';
  }

  // ---- values

  lemma {:induction false} EmitStarts(compact: bool, v: Json, rest: string)
    requires Printable(v)
    ensures
      var s := Emit(compact, v, rest);
      s != "" && !IsWs(s[0]) && s[0] != ']'
  {
    match v
    case Int(n) => IntTextReads(n);
    case Float(repr) =>
      assert repr != "";
      assert Emit(compact, v, rest)[0] == repr[0];
    case _ =>
  }

  lemma {:induction false} SepThenText(compact: bool, c: char, text: string)
    requires text != "" && !IsWs(text[0]) && !IsWs(c)
    ensures
      var s := Sep(compact, c, text);
      s != "" && s[0] == c && SkipWs(s) == s && SkipWs(s[1..]) == text
  {
    if compact {
      assert Sep(compact, c, text)[1..] == text;
    } else {
      assert Sep(compact, c, text)[1..][1..] == text;
    }
  }

  lemma {:induction false} ParseLiterals(rest: string)
    ensures ParseValue("null" + rest) == Some((Null, rest))
    ensures ParseValue("true" + rest) == Some((Bool(true), rest))
    ensures ParseValue("false" + rest) == Some((Bool(false), rest))
  {
    assert "null" <= "null" + rest && ("null" + rest)[4..] == rest;
    assert "true" <= "true" + rest && ("true" + rest)[4..] == rest && ("true" + rest)[0] == 't';
    assert "false" <= "false" + rest && ("false" + rest)[5..] == rest && ("false" + rest)[0] == 'f';
  }

  lemma {:induction false} FloatTextStarts(t: string)
    requires IsFloatText(t)
    ensures t != "" && (t[0] == '-' || IsDigit(t[0])) && !IsIntText(t)
    ensures forall i :: 0 <= i < |t| ==> IsNumChar(t[i])
  {
    AllNumChars(t);
  }

  lemma {:induction false} ParseEmitted(compact: bool, v: Json, rest: string)
    requires Printable(v) && EndsNumber(rest)
    ensures ParseValue(Emit(compact, v, rest)) == Some((Joined(v), rest))
    decreases v, 0
  {
    hide ParseText, EmitText, NumSpan, IsIntText, IsFloatText, IntText, IntOf, Join;
    var s := Emit(compact, v, rest);
    match v
    case Null => ParseLiterals(rest);
    case Bool(b) => ParseLiterals(rest);
    case Int(n) =>
      IntTextReads(n);
      ParseNumber(IntText(n), rest);
    case Float(repr) =>
      FloatTextStarts(repr);
      ParseNumber(repr, rest);
    case Str(t) =>
      assert s[1..] == EmitText(t, rest);
      ParseEmittedText(t, rest);
    case Other(t) =>
      assert s[1..] == EmitText(t, rest);
      ParseEmittedText(t, rest);
    case Arr(items) =>
      if items.NoItems? {
        assert s[1..] == [']'] + rest && s[1..][1..] == rest;
      } else {
        var inner := EmitItems(compact, items, rest);
        ParseEmittedItems(compact, items, rest);
        assert s[1..] == inner && SkipWs(inner) == inner;
      }
    case Obj(members) =>
      if members.NoMembers? {
        assert s[1..] == ['}'] + rest && s[1..][1..] == rest;
      } else {
        var inner := EmitMembers(compact, members, rest);
        ParseEmittedMembers(compact, members, rest);
        assert s[1..] == inner && SkipWs(inner) == inner;
      }
  }

  lemma {:induction false} ParseEmittedItems(compact: bool, items: Items, rest: string)
    requires items.Item? && PrintableItems(items)
    ensures ParseItems(EmitItems(compact, items, rest)) == Some((JoinedItems(items), rest))
    ensures
      var s := EmitItems(compact, items, rest);
      s != "" && !IsWs(s[0]) && s[0] != ']'
    decreases items, 1
  {
    if items.rest.NoItems? {
      var next := [']'] + rest;
      EmitStarts(compact, items.head, next);
      ParseEmitted(compact, items.head, next);
      assert SkipWs(next) == next && next[1..] == rest;
    } else {
      var following := EmitItems(compact, items.rest, rest);
      ParseEmittedItems(compact, items.rest, rest);
      SepThenText(compact, ',', following);
      EmitStarts(compact, items.head, Sep(compact, ',', following));
      ParseEmitted(compact, items.head, Sep(compact, ',', following));
    }
  }

  lemma {:induction false} ParseEmittedMembers(compact: bool, m: Members, rest: string)
    requires m.Member? && PrintableMembers(m)
    ensures ParseMembers(EmitMembers(compact, m, rest)) == Some((JoinedMembers(m), rest))
    ensures EmitMembers(compact, m, rest)[0] == '\"'
    decreases m, 1
  {
    hide ParseText, EmitText, ParseValue, Emit, Join;
    var next := if m.tail.NoMembers? then ['}'] + rest else Sep(compact, ',', EmitMembers(compact, m.tail, rest));
    if m.tail.NoMembers? {
      assert SkipWs(next) == next && next[1..] == rest;
    } else {
      ParseEmittedMembers(compact, m.tail, rest);
      SepThenText(compact, ',', EmitMembers(compact, m.tail, rest));
    }
    var value := Emit(compact, m.value, next);
    ParseEmitted(compact, m.value, next);
    EmitStarts(compact, m.value, next);
    SepThenText(compact, ':', value);
    var s := EmitMembers(compact, m, rest);
    assert s[1..] == EmitText(m.key, Sep(compact, ':', value));
    ParseEmittedText(m.key, Sep(compact, ':', value));
  }
}
