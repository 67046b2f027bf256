/**
 What the printed text looks like, without a parser: its white space, its
 alphabet and escapes, the order of its keys, and the quoted field that the
 title lookup searches for.
 */
module JsonText {
  import opened Hashing
  import opened CanonicalJson
  import opened JsonRoundTrip
  import opened JsonCanonical
  import opened LikeEscape
  import Ledger

  // ---- white space

  /** Where a position of a JSON text lies; `Separated` is right behind a `,` or `:` outside of strings. */
  datatype Place = Between | Separated | InString | InEscape

  function NextPlace(p: Place, c: char): Place {
    match p
    case InString => if c == '\"' then Between else if c == '\\' then InEscape else InString
    case InEscape => InString
    case _ => if c == '\"' then InString else if c == ',' || c == ':' then Separated else Between
  }

  function PlaceFrom(p: Place, s: string, i: nat): Place
    requires i <= |s|
  {
    if i == 0 then p else NextPlace(PlaceFrom(p, s, i - 1), s[i - 1])
  }

  function PlaceAt(s: string, i: nat): Place
    requires i <= |s|
  {
    PlaceFrom(Between, s, i)
  }

  /** Printable ASCII, and outside of strings a space exactly where the separator has one. */
  predicate Fits(compact: bool, p: Place, c: char) {
    && ' ' <= c <= '~'
    && (p.Between? || p.Separated? ==> (c == ' ' <==> !compact && p.Separated?))
  }

  predicate Laid(compact: bool, p: Place, s: string)
    decreases |s|
  {
    if s == "" then p == Between else Fits(compact, p, s[0]) && Laid(compact, NextPlace(p, s[0]), s[1..])
  }

  lemma {:induction false} PlaceShifts(p: Place, s: string, i: nat)
    requires 0 < i <= |s|
    ensures PlaceFrom(p, s, i) == PlaceFrom(NextPlace(p, s[0]), s[1..], i - 1)
  {
    if i > 1 {
      PlaceShifts(p, s, i - 1);
    }
  }

  lemma {:induction false} LaidThroughout(compact: bool, p: Place, s: string)
    requires Laid(compact, p, s)
    ensures PlaceFrom(p, s, |s|) == Between
    ensures forall i :: 0 <= i < |s| ==> Fits(compact, PlaceFrom(p, s, i), s[i])
    decreases |s|
  {
    if s != "" {
      LaidThroughout(compact, NextPlace(p, s[0]), s[1..]);
      PlaceShifts(p, s, |s|);
      forall i | 0 <= i < |s| ensures Fits(compact, PlaceFrom(p, s, i), s[i]) {
        if i > 0 {
          PlaceShifts(p, s, i);
        }
      }
    }
  }

  lemma {:induction false} LaidNothing(compact: bool)
    ensures Laid(compact, Between, "")
  {
  }

  lemma {:induction false} LaidUEscape(compact: bool, u: int, rest: string)
    requires 0 <= u < 0x1_0000 && Laid(compact, InString, rest)
    ensures Laid(compact, InString, UEscape(u, rest))
  {
    LaidInString(compact, HexDigit(u % 16), rest);
    LaidInString(compact, HexDigit(u / 16 % 16), [HexDigit(u % 16)] + rest);
    LaidInString(compact, HexDigit(u / 0x100 % 16), [HexDigit(u / 16 % 16)] + ([HexDigit(u % 16)] + rest));
    var digits := [HexDigit(u / 0x1000)] + ([HexDigit(u / 0x100 % 16)] + ([HexDigit(u / 16 % 16)] + ([HexDigit(u % 16)] + rest)));
    LaidInString(compact, HexDigit(u / 0x1000), digits[1..]);
    LaidBackslash(compact, 'u', digits);
    assert UEscape(u, rest) == ['\\', 'u'] + digits;
  }

  lemma {:induction false} LaidInString(compact: bool, c: char, rest: string)
    requires ' ' <= c <= '~' && c != '\"' && c != '\\' && Laid(compact, InString, rest)
    ensures Laid(compact, InString, [c] + rest)
  {
    assert ([c] + rest)[1..] == rest;
  }

  lemma {:induction false} LaidBackslash(compact: bool, c: char, rest: string)
    requires ' ' <= c <= '~' && Laid(compact, InString, rest)
    ensures Laid(compact, InString, ['\\', c] + rest)
  {
    var s := ['\\', c] + rest;
    assert s[1..][0] == c && s[1..][1..] == rest;
    assert Laid(compact, InEscape, s[1..]);
  }

  lemma {:induction false} LaidChar(compact: bool, c: CodePoint, rest: string)
    requires Laid(compact, InString, rest)
    ensures Laid(compact, InString, EmitChar(c, rest))
  {
    hide Laid, UEscape;
    if c >= 0x1_0000 {
      LaidUEscape(compact, 0xDC00 + (c - 0x1_0000) % 0x400, rest);
      LaidUEscape(compact, 0xD800 + (c - 0x1_0000) / 0x400, UEscape(0xDC00 + (c - 0x1_0000) % 0x400, rest));
    } else if EmitChar(c, rest) == UEscape(c, rest) {
      LaidUEscape(compact, c, rest);
    } else if 0x20 <= c < 0x7F && c != '\"' as int && c != '\\' as int {
      LaidInString(compact, c as char, rest);
    } else {
      LaidBackslash(compact, EmitChar(c, rest)[1], rest);
    }
  }

  lemma {:induction false} LaidText(compact: bool, s: Text, rest: string)
    requires Laid(compact, Between, rest)
    ensures Laid(compact, InString, EmitText(s, rest))
  {
    if s == [] {
      assert (['\"'] + rest)[1..] == rest;
    } else {
      LaidText(compact, s[1..], rest);
      LaidChar(compact, s[0], EmitText(s[1..], rest));
    }
  }

  /** Where a value may start. */
  predicate Ready(compact: bool, p: Place) {
    p == Between || (compact && p == Separated)
  }

  predicate IsBare(c: char) {
    ' ' < c <= '~' && c != '\"' && c != ',' && c != ':'
  }

  lemma {:induction false} LaidBare(compact: bool, p: Place, t: string, rest: string)
    requires Ready(compact, p) && t != "" && forall i :: 0 <= i < |t| ==> IsBare(t[i])
    requires Laid(compact, Between, rest)
    ensures Laid(compact, p, t + rest)
    decreases |t|
  {
    assert (t + rest)[0] == t[0] && (t + rest)[1..] == t[1..] + rest;
    if |t| > 1 {
      LaidBare(compact, Between, t[1..], rest);
    } else {
      assert t[1..] + rest == rest;
    }
  }

  lemma {:induction false} LaidQuote(compact: bool, p: Place, rest: string)
    requires Ready(compact, p) && Laid(compact, InString, rest)
    ensures Laid(compact, p, ['\"'] + rest)
  {
    assert (['\"'] + rest)[1..] == rest;
  }

  lemma {:induction false} LaidSep(compact: bool, c: char, rest: string)
    requires c == ',' || c == ':'
    requires Laid(compact, if compact then Separated else Between, rest)
    ensures Laid(compact, Between, Sep(compact, c, rest))
  {
    var s := Sep(compact, c, rest);
    if compact {
      assert s[1..] == rest;
    } else {
      assert s[1..][0] == ' ' && s[1..][1..] == rest;
      assert Laid(compact, Separated, s[1..]);
    }
  }

  lemma {:induction false} LaidValue(compact: bool, p: Place, v: Json, rest: string)
    requires Printable(v) && Ready(compact, p) && Laid(compact, Between, rest)
    ensures Laid(compact, p, Emit(compact, v, rest))
    decreases v, 0
  {
    hide Laid, EmitText, EmitItems, EmitMembers, IsFloatText;
    match v
    case Null => LaidBare(compact, p, "null", rest);
    case Bool(b) => LaidBare(compact, p, if b then "true" else "false", rest);
    case Int(n) =>
      IntTextReads(n);
      LaidBare(compact, p, IntText(n), rest);
    case Float(repr) =>
      FloatTextStarts(repr);
      LaidBare(compact, p, repr, rest);
    case Str(s) =>
      LaidText(compact, s, rest);
      LaidQuote(compact, p, EmitText(s, rest));
    case Other(s) =>
      LaidText(compact, s, rest);
      LaidQuote(compact, p, EmitText(s, rest));
    case Arr(items) =>
      LaidBare(compact, Between, "]", rest);
      if items.Item? {
        LaidItems(compact, items, rest);
      }
      LaidBare(compact, p, "[", if items.NoItems? then "]" + rest else EmitItems(compact, items, rest));
    case Obj(members) =>
      LaidBare(compact, Between, "}", rest);
      if members.Member? {
        LaidMembers(compact, Between, members, rest);
      }
      LaidBare(compact, p, "{", if members.NoMembers? then "}" + rest else EmitMembers(compact, members, rest));
  }

  lemma {:induction false} LaidItems(compact: bool, items: Items, rest: string)
    requires items.Item? && PrintableItems(items) && Laid(compact, Between, rest)
    ensures Laid(compact, Between, EmitItems(compact, items, rest))
    ensures Laid(compact, if compact then Separated else Between, EmitItems(compact, items, rest))
    decreases items, 1
  {
    hide Laid, Emit;
    LaidBare(compact, Between, "]", rest);
    if items.rest.Item? {
      LaidItems(compact, items.rest, rest);
      LaidSep(compact, ',', EmitItems(compact, items.rest, rest));
    }
    var next := if items.rest.NoItems? then "]" + rest else Sep(compact, ',', EmitItems(compact, items.rest, rest));
    LaidValue(compact, Between, items.head, next);
    LaidValue(compact, if compact then Separated else Between, items.head, next);
  }

  lemma {:induction false} LaidMembers(compact: bool, p: Place, m: Members, rest: string)
    requires m.Member? && PrintableMembers(m) && Ready(compact, p) && Laid(compact, Between, rest)
    ensures Laid(compact, p, EmitMembers(compact, m, rest))
    decreases m, 1
  {
    hide Laid, Emit, EmitText;
    LaidBare(compact, Between, "}", rest);
    var gap := if compact then Separated else Between;
    if m.tail.Member? {
      LaidMembers(compact, gap, m.tail, rest);
      LaidSep(compact, ',', EmitMembers(compact, m.tail, rest));
    }
    var next := if m.tail.NoMembers? then "}" + rest else Sep(compact, ',', EmitMembers(compact, m.tail, rest));
    LaidValue(compact, gap, m.value, next);
    LaidSep(compact, ':', Emit(compact, m.value, next));
    LaidText(compact, m.key, Sep(compact, ':', Emit(compact, m.value, next)));
    LaidQuote(compact, p, EmitText(m.key, Sep(compact, ':', Emit(compact, m.value, next))));
  }

  /**
   The text is printable ASCII. Outside of strings, the ledger's text has one
   space behind every comma and colon and no other white space; the compact
   text has none at all.
   */
  lemma {:induction false} DumpsIsLaidOut(compact: bool, v: Json)
    requires Printable(v)
    ensures
      var s := Dumps(compact, v);
      && PlaceAt(s, |s|) == Between
      && (forall i :: 0 <= i < |s| ==> ' ' <= s[i] <= '~')
      && (forall i :: 0 <= i < |s| && PlaceAt(s, i) in {Between, Separated} ==> (s[i] == ' ' <==> !compact && PlaceAt(s, i) == Separated))
      && (forall i :: 0 <= i < |s| && PlaceAt(s, i) in {Between, Separated} && (s[i] == ',' || s[i] == ':') ==>
            i + 1 < |s| && (s[i + 1] == ' ' <==> !compact))
  {
    hide Laid, Emit, Sort;
    var s := Dumps(compact, v);
    SortJoinPrintable(v);
    LaidNothing(compact);
    LaidValue(compact, Between, Sort(v), "");
    LaidThroughout(compact, Between, s);
    forall i | 0 <= i < |s| && PlaceAt(s, i) in {Between, Separated} && (s[i] == ',' || s[i] == ':')
      ensures i + 1 < |s| && (s[i + 1] == ' ' <==> !compact)
    {
      assert PlaceAt(s, i + 1) == Separated;
    }
  }

  // ---- strings

  predicate IsPlain(c: char) {
    ' ' <= c <= '~' && c != '\"' && c != '\\'
  }

  /** The code points that have an escape of two characters. */
  predicate HasShortEscape(c: CodePoint) {
    c in {'\"' as int, '\\' as int, 8, 9, 10, 12, 13}
  }

  /**
   Within a string: the character itself where that is possible, otherwise a
   two-character escape where there is one, otherwise one `\uXXXX`, or a pair
   of them, in lower case; and each is read back as the code point.
   */
  lemma {:induction false} EscapesAreShortest(c: CodePoint)
    ensures
      var s := EmitChar(c, "");
      && ParseText(s + "\"") == Some(([c], ""))
      && (s == [s[0]] <==> ' ' as int <= c <= '~' as int && !HasShortEscape(c))
      && (|s| == 2 <==> HasShortEscape(c))
      && (|s| == 6 || |s| == 12 <==> !(' ' as int <= c <= '~' as int) && !HasShortEscape(c))
      && (|s| == 12 <==> c >= 0x1_0000)
      && (forall i :: 0 <= i < |s| && |s| >= 6 ==> !('A' <= s[i] <= 'F'))
  {
    hide ParseText, HexDigit;
    EmitCharFollowed(c, "\"");
    ParseEmittedText([c], "");
    assert EmitText([c], "") == EmitChar(c, "\"") by {
      assert [c][1..] == [] && EmitText([], "") == "\"";
    }
    HexDigitsAreLower();
  }

  lemma {:induction false} HexDigitsAreLower()
    ensures forall n :: 0 <= n < 16 ==> !('A' <= HexDigit(n) <= 'F')
  {
  }

  lemma {:induction false} EmitCharFollowed(c: CodePoint, rest: string)
    ensures EmitChar(c, rest) == EmitChar(c, "") + rest
  {
  }

  function AsText(t: string): (s: Text)
    ensures |s| == |t| && forall i :: 0 <= i < |t| ==> s[i] == t[i] as int
  {
    seq(|t|, i requires 0 <= i < |t| => t[i] as int)
  }

  predicate AllPlain(t: string) {
    forall i :: 0 <= i < |t| ==> IsPlain(t[i])
  }

  lemma {:induction false} PrintedPlain(t: string, rest: string)
    requires AllPlain(t)
    ensures EmitText(AsText(t), rest) == t + "\"" + rest
  {
    if t == "" {
      assert AsText(t) == [];
    } else {
      hide EmitChar;
      var s := AsText(t);
      assert s[1..] == AsText(t[1..]);
      PrintedPlain(t[1..], rest);
      EmitCharFollowed(s[0], EmitText(s[1..], rest));
      OneCharIffPlain(t[0]);
      assert t + "\"" + rest == [t[0]] + (t[1..] + "\"" + rest);
    }
  }

  lemma {:induction false} PrintedLonger(t: string, rest: string)
    ensures |EmitText(AsText(t), rest)| >= |t| + 1 + |rest|
    ensures |EmitText(AsText(t), rest)| == |t| + 1 + |rest| ==> AllPlain(t)
  {
    if t != "" {
      hide EmitChar;
      var s := AsText(t);
      assert s[1..] == AsText(t[1..]);
      PrintedLonger(t[1..], rest);
      EmitCharFollowed(s[0], EmitText(s[1..], rest));
      OneCharIffPlain(t[0]);
      assert IsPlain(t[0]) && AllPlain(t[1..]) ==> AllPlain(t) by {
        assert forall i :: 1 <= i < |t| ==> t[i] == t[1..][i - 1];
      }
    }
  }

  /** A string stands unchanged between its quotes exactly when it is printable ASCII without quote and backslash. */
  lemma {:induction false} QuotedAsIsIff(t: string, rest: string)
    ensures EmitText(AsText(t), rest) == t + "\"" + rest <==> AllPlain(t)
  {
    hide AllPlain, EmitText;
    PrintedLonger(t, rest);
    if AllPlain(t) {
      PrintedPlain(t, rest);
    }
  }

  lemma {:induction false} OneCharIffPlain(c: char)
    ensures |EmitChar(c as int, "")| >= 1
    ensures |EmitChar(c as int, "")| == 1 <==> IsPlain(c)
    ensures IsPlain(c) ==> EmitChar(c as int, "") == [c]
  {
  }

  // ---- keys

  /** The order of `sort_keys`: a proper prefix comes first, otherwise the first difference decides. */
  lemma {:induction false} TextLtIsLexicographic(a: Text, b: Text)
    ensures TextLt(a, b) <==> a < b || exists k :: 0 <= k < |a| && k < |b| && a[..k] == b[..k] && a[k] < b[k]
  {
    if a != [] && b != [] {
      var p, q := a[1..], b[1..];
      TextLtIsLexicographic(p, q);
      if a[0] == b[0] {
        assert a < b <==> p < q by {
          assert a == [a[0]] + p && b == [b[0]] + q;
        }
        if k :| 0 <= k < |a| && k < |b| && a[..k] == b[..k] && a[k] < b[k] {
          assert p[..k - 1] == a[1..k] && q[..k - 1] == b[1..k];
          assert p[k - 1] < q[k - 1];
        }
        if k :| 0 <= k < |p| && k < |q| && p[..k] == q[..k] && p[k] < q[k] {
          assert a[..k + 1] == [a[0]] + p[..k] && b[..k + 1] == [b[0]] + q[..k];
          assert a[k + 1] < b[k + 1];
        }
      } else if a[0] < b[0] {
        assert a[..0] == b[..0];
      } else {
        assert a[0] != b[0];
        assert forall k :: 0 < k < |a| && k < |b| ==> a[..k][0] != b[..k][0];
      }
    }
  }

  // ---- a field of an object

  predicate EndsIn(s: string, rest: string) {
    |rest| <= |s| && s[|s| - |rest|..] == rest
  }

  lemma {:induction false} EndsInThrough(t: string, s: string, rest: string)
    requires EndsIn(s, rest)
    ensures EndsIn(t + s, rest)
  {
    assert (t + s)[|t| + |s| - |rest|..] == s[|s| - |rest|..];
  }

  lemma {:induction false} TextEndsIn(s: Text, rest: string)
    ensures EndsIn(['\"'] + EmitText(s, rest), rest) && EndsIn(EmitText(s, rest), rest)
  {
    hide EmitChar;
    if s == [] {
      EndsInThrough("\"", rest, rest);
    } else {
      TextEndsIn(s[1..], rest);
      EmitCharFollowed(s[0], EmitText(s[1..], rest));
      EndsInThrough(EmitChar(s[0], ""), EmitText(s[1..], rest), rest);
    }
    EndsInThrough("\"", EmitText(s, rest), rest);
  }

  lemma {:induction false} EndsInTwice(s: string, middle: string, rest: string)
    requires EndsIn(s, middle) && EndsIn(middle, rest)
    ensures EndsIn(s, rest)
  {
    EndsInThrough(s[..|s| - |middle|], middle, rest);
    assert s == s[..|s| - |middle|] + middle;
  }

  lemma {:induction false} SepEndsIn(compact: bool, c: char, rest: string)
    ensures EndsIn(Sep(compact, c, rest), rest)
  {
    EndsInThrough(if compact then [c] else [c, ' '], rest, rest);
  }

  lemma {:induction false} ValueEndsIn(compact: bool, v: Json, rest: string)
    ensures EndsIn(Emit(compact, v, rest), rest)
    decreases v, 0
  {
    hide EndsIn, EmitText, EmitItems, EmitMembers;
    EndsInItself(rest);
    match v
    case Null => EndsInThrough("null", rest, rest);
    case Bool(b) => EndsInThrough(if b then "true" else "false", rest, rest);
    case Int(n) => EndsInThrough(IntText(n), rest, rest);
    case Float(repr) => EndsInThrough(repr, rest, rest);
    case Str(s) => TextEndsIn(s, rest);
    case Other(s) => TextEndsIn(s, rest);
    case Arr(items) =>
      EndsInThrough("]", rest, rest);
      if items.Item? {
        ItemsEndIn(compact, items, rest);
      }
      EndsInThrough("[", if items.NoItems? then "]" + rest else EmitItems(compact, items, rest), rest);
    case Obj(members) =>
      EndsInThrough("}", rest, rest);
      if members.Member? {
        MembersEndIn(compact, members, rest);
      }
      EndsInThrough("{", if members.NoMembers? then "}" + rest else EmitMembers(compact, members, rest), rest);
  }

  lemma {:induction false} EndsInItself(rest: string)
    ensures EndsIn(rest, rest)
  {
  }

  lemma {:induction false} ItemsEndIn(compact: bool, items: Items, rest: string)
    requires items.Item?
    ensures EndsIn(EmitItems(compact, items, rest), "]" + rest) && EndsIn(EmitItems(compact, items, rest), rest)
    decreases items, 1
  {
    hide EndsIn, Emit, Sep;
    EndsInItself(rest);
    EndsInItself("]" + rest);
    EndsInThrough("]", rest, rest);
    if items.rest.Item? {
      ItemsEndIn(compact, items.rest, rest);
      SepEndsIn(compact, ',', EmitItems(compact, items.rest, rest));
      EndsInTwice(Sep(compact, ',', EmitItems(compact, items.rest, rest)), EmitItems(compact, items.rest, rest), "]" + rest);
    }
    var next := if items.rest.NoItems? then "]" + rest else Sep(compact, ',', EmitItems(compact, items.rest, rest));
    ValueEndsIn(compact, items.head, next);
    EndsInTwice(Emit(compact, items.head, next), next, "]" + rest);
    EndsInTwice(EmitItems(compact, items, rest), "]" + rest, rest);
  }

  /** What a member is followed by ends in the rest, and so does the member. */
  lemma {:induction false} MembersEndIn(compact: bool, m: Members, rest: string)
    requires m.Member?
    ensures EndsIn(EmitMembers(compact, m, rest), "}" + rest) && EndsIn(EmitMembers(compact, m, rest), rest)
    ensures m.tail.Member? ==> EndsIn(EmitMembers(compact, m, rest), EmitMembers(compact, m.tail, rest))
    decreases m, 1
  {
    hide EndsIn, Emit, Sep, EmitText;
    EndsInItself("}" + rest);
    EndsInThrough("}", rest, rest);
    EndsInItself(rest);
    var tail := if m.tail.NoMembers? then "}" + rest else EmitMembers(compact, m.tail, rest);
    var next := if m.tail.NoMembers? then tail else Sep(compact, ',', tail);
    if m.tail.Member? {
      MembersEndIn(compact, m.tail, rest);
      SepEndsIn(compact, ',', tail);
    }
    var value := Emit(compact, m.value, next);
    ValueEndsIn(compact, m.value, next);
    EndsInTwice(value, next, tail);
    SepEndsIn(compact, ':', value);
    EndsInTwice(Sep(compact, ':', value), value, tail);
    TextEndsIn(m.key, Sep(compact, ':', value));
    EndsInTwice(EmitMembers(compact, m, rest), Sep(compact, ':', value), tail);
    EndsInTwice(EmitMembers(compact, m, rest), tail, "}" + rest);
    EndsInTwice(EmitMembers(compact, m, rest), "}" + rest, rest);
  }

  /** A member is printed as its quoted key, the separator and its value, somewhere in the object. */
  lemma {:induction false} MemberIsPrinted(compact: bool, m: Members, k: Text, rest: string) returns (before: string, after: string)
    requires k in Keys(m)
    ensures EmitMembers(compact, m, rest)
         == before + (['\"'] + EmitText(k, Sep(compact, ':', Emit(compact, Lookup(m, k), after))))
  {
    hide Emit, EmitText, Sep;
    var next := if m.tail.NoMembers? then ['}'] + rest else Sep(compact, ',', EmitMembers(compact, m.tail, rest));
    if m.key == k {
      before, after := "", next;
      assert EmitMembers(compact, m, rest) == "" + (['\"'] + EmitText(k, Sep(compact, ':', Emit(compact, m.value, next))));
    } else {
      var inner: string;
      inner, after := MemberIsPrinted(compact, m.tail, k, rest);
      MembersEndIn(compact, m, rest);
      var all, tail := EmitMembers(compact, m, rest), EmitMembers(compact, m.tail, rest);
      var found := ['\"'] + EmitText(k, Sep(compact, ':', Emit(compact, Lookup(m, k), after)));
      before := all[..|all| - |tail|] + inner;
      assert all == all[..|all| - |tail|] + tail;
      assert all[..|all| - |tail|] + (inner + found) == before + found;
    }
  }

  /** A member with a plain name and a plain string stands in the ledger's text as `"name": "value"`. */
  lemma {:induction false} FieldIsQuoted(m: Members, name: string, value: string) returns (before: string, after: string)
    requires IsDictMembers(m) && AsText(name) in Keys(m) && Lookup(m, AsText(name)) == Str(AsText(value))
    requires AllPlain(name) && AllPlain(value)
    ensures Dumps(false, Obj(m)) == before + ("\"" + name + "\": \"" + value + "\"") + after
  {
    hide Emit, EmitText, EmitMembers, SortMembers, Keys, Sep, AllPlain, Lookup, IsDictMembers;
    var k, sorted := AsText(name), SortMembers(m);
    SortMembersIsStrict(m);
    assert Lookup(sorted, k) == Str(AsText(value));
    var inner: string;
    inner, after := MemberIsPrinted(false, sorted, k, "");
    before := "{" + inner;
    QuotedAsIsIff(value, after);
    var printed := ['\"'] + (value + "\"" + after);
    EmitOfString(AsText(value), after);
    QuotedAsIsIff(name, Sep(false, ':', printed));
    SomeMember(sorted, k);
    EmitOfObject(sorted);
    FieldInParts(inner, name, value, after);
  }

  lemma {:induction false} FieldInParts(before: string, name: string, value: string, after: string)
    ensures "{" + (before + (['\"'] + (name + "\"" + Sep(false, ':', ['\"'] + (value + "\"" + after)))))
         == "{" + before + ("\"" + name + "\": \"" + value + "\"") + after
  {
    assert ['\"'] + (name + "\"" + Sep(false, ':', ['\"'] + (value + "\"" + after)))
        == ("\"" + name + "\": \"" + value + "\"") + after;
  }

  lemma {:induction false} EmitOfString(s: Text, rest: string)
    ensures Emit(false, Str(s), rest) == ['\"'] + EmitText(s, rest)
  {
  }

  lemma {:induction false} SomeMember(m: Members, k: Text)
    requires k in Keys(m)
    ensures m.Member?
  {
  }

  lemma {:induction false} EmitOfObject(m: Members)
    requires m.Member?
    ensures Emit(false, Obj(m), "") == "{" + EmitMembers(false, m, "")
  {
  }

  // ---- what the title lookup finds

  /** The lookup of a title number finds the row that `append` made of a payload that names it. */
  lemma {:induction false} RecordedTitleIsFound(h: Hashes, rows: seq<Ledger.Row>, m: Members, titleNo: string, userId: string)
    requires IsDictMembers(m) && AsText("title_no") in Keys(m) && Lookup(m, AsText("title_no")) == Str(AsText(titleNo))
    requires AllPlain(titleNo)
    ensures Like(TitlePattern(titleNo), Ledger.NewRow(Ledger.PythonJson(h), rows, "TITLE_ISSUED", Obj(m), userId).payloadText)
  {
    hide Like, TitlePattern, Dumps, Keys;
    var before, after := FieldIsQuoted(m, "title_no", titleNo);
    var text := Dumps(false, Obj(m));
    TitleLookupFinds(titleNo, text);
    var a, b := BEFORE, AFTER + titleNo + QUOTE;
    assert "\"" + "title_no" + "\": \"" + titleNo + "\"" == a + "_" + b;
    assert text == before + (a + ("_" + (b + after)));
    assert text[|before|..|before| + |a|] == a;
    assert text[|before| + |a| + 1..|before| + |a| + 1 + |b|] == b;
    assert SplitAt(a, b, text, |before|);
  }

  // ---- the outline of a value

  /** Literals as they are, and brackets, braces and quotes around the rest. */
  lemma {:induction false} OutlineOfText(compact: bool, v: Json)
    ensures
      var s := Dumps(compact, v);
      match v
      case Null => s == "null"
      case Bool(b) => s == if b then "true" else "false"
      case Int(n) => IntOf(s) == n && IsIntText(s) && (s[0] == '-' <==> n < 0)
      case Float(repr) => s == repr
      case Arr(_) => |s| >= 2 && s[0] == '[' && s[|s| - 1] == ']'
      case Obj(_) => |s| >= 2 && s[0] == '{' && s[|s| - 1] == '}'
      case _ => |s| >= 2 && s[0] == '\"' && s[|s| - 1] == '\"'
  {
    hide EmitText, EmitItems, EmitMembers, IntOf, IsIntText;
    match v
    case Int(n) =>
      IntTextReads(n);
      DigitsOf(if n < 0 then -n else n);
      assert IntText(n) + "" == IntText(n);
    case Arr(_) =>
      var items := SortItems(v.items);
      if items.Item? {
        ItemsEndIn(compact, items, "");
      }
    case Obj(_) =>
      var members := SortMembers(v.members);
      if members.Member? {
        MembersEndIn(compact, members, "");
      }
    case Str(t) => TextEndsQuoted(t);
    case Other(t) => TextEndsQuoted(t);
    case _ =>
  }

  lemma {:induction false} TextEndsQuoted(s: Text)
    ensures EmitText(s, "") != "" && EmitText(s, "")[|EmitText(s, "")| - 1] == '\"'
  {
    hide EmitChar;
    if s != [] {
      TextEndsQuoted(s[1..]);
      EmitCharFollowed(s[0], EmitText(s[1..], ""));
    }
  }
}
