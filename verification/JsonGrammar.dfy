/**
 `json.loads` accepts exactly the texts of the JSON grammar (sections 2 to 7
 of RFC 8259), and reads the value that the grammar gives them. A derivation
 of the grammar is a tree that records every choice a text leaves open: white
 space, the kind of each escape, the digits of each number.
 */
module JsonGrammar {
  import opened Hashing
  import opened CanonicalJson
  import opened JsonRoundTrip
  import JsonCanonical

  // ---- derivations

  /** A piece of a string: a character, `\` and a letter, or `\u` and four digits. */
  datatype Piece = Raw(c: char) | Short(c: char) | Hex(digits: string)

  datatype Tree =
    | NullText
    | BoolText(b: bool)
    | NumberText(text: string)
    | StringText(pieces: seq<Piece>)
    | ArrayText(open: string, items: TreeItems)
    | ObjectText(open: string, members: TreeMembers)

  /** `before` stands in front of the comma or bracket, `after` behind the comma. */
  datatype TreeItems = NoneLeft | OneItem(head: Tree, before: string, after: string, rest: TreeItems)

  datatype TreeMembers =
    | NoneLeft
    | OneMember(key: seq<Piece>, colonBefore: string, colonAfter: string, value: Tree, before: string, after: string, tail: TreeMembers)

  predicate IsBlank(s: string) {
    forall i :: 0 <= i < |s| ==> IsWs(s[i])
  }

  predicate IsPiece(p: Piece) {
    match p
    case Raw(c) => c >= ' ' && c != '\"' && c != '\\'
    case Short(c) => c in "\"\\/bfnrt"
    case Hex(digits) => |digits| == 4 && forall i :: 0 <= i < 4 ==> HexOf(digits[i]) >= 0
  }

  predicate IsString(pieces: seq<Piece>) {
    forall i :: 0 <= i < |pieces| ==> IsPiece(pieces[i])
  }

  predicate IsNumber(text: string) {
    IsIntText(text) || IsFloatText(text)
  }

  predicate Derives(t: Tree) {
    match t
    case NullText => true
    case BoolText(_) => true
    case NumberText(text) => IsNumber(text)
    case StringText(pieces) => IsString(pieces)
    case ArrayText(open, items) => IsBlank(open) && DerivesItems(items)
    case ObjectText(open, members) => IsBlank(open) && DerivesMembers(members)
  }

  predicate DerivesItems(items: TreeItems) {
    items.NoneLeft? || (Derives(items.head) && IsBlank(items.before) && IsBlank(items.after) && DerivesItems(items.rest))
  }

  predicate DerivesMembers(m: TreeMembers) {
    m.NoneLeft? || (
      && IsString(m.key) && IsBlank(m.colonBefore) && IsBlank(m.colonAfter) && Derives(m.value)
      && IsBlank(m.before) && IsBlank(m.after) && DerivesMembers(m.tail))
  }

  // ---- the text of a derivation

  function WritePiece(p: Piece, rest: string): string {
    match p
    case Raw(c) => [c] + rest
    case Short(c) => ['\\', c] + rest
    case Hex(digits) => ['\\', 'u'] + (digits + rest)
  }

  function WriteString(pieces: seq<Piece>, rest: string): string {
    if pieces == [] then ['\"'] + rest else WritePiece(pieces[0], WriteString(pieces[1..], rest))
  }

  function Write(t: Tree, rest: string): string
    decreases t, 0
  {
    match t
    case NullText => "null" + rest
    case BoolText(b) => (if b then "true" else "false") + rest
    case NumberText(text) => text + rest
    case StringText(pieces) => ['\"'] + WriteString(pieces, rest)
    case ArrayText(open, items) => ['['] + (open + (if items.NoneLeft? then [']'] + rest else WriteItems(items, rest)))
    case ObjectText(open, members) => ['{'] + (open + (if members.NoneLeft? then ['}'] + rest else WriteMembers(members, rest)))
  }

  function WriteItems(items: TreeItems, rest: string): string
    requires items.OneItem?
    decreases items, 1
  {
    Write(items.head, items.before + (if items.rest.NoneLeft? then [']'] + rest else [','] + (items.after + WriteItems(items.rest, rest))))
  }

  function WriteMembers(m: TreeMembers, rest: string): string
    requires m.OneMember?
    decreases m, 1
  {
    ['\"'] + WriteString(m.key, m.colonBefore + ([':'] + (m.colonAfter + Write(m.value,
      m.before + (if m.tail.NoneLeft? then ['}'] + rest else [','] + (m.after + WriteMembers(m.tail, rest)))))))
  }

  // ---- the value of a derivation

  function PointOf(p: Piece): CodePoint
    requires IsPiece(p)
  {
    match p
    case Raw(c) => c as int
    case Short(c) =>
      if c == 'b' then 8 else if c == 'f' then 12 else if c == 'n' then 10 else if c == 'r' then 13 else if c == 't' then 9 else c as int
    case Hex(digits) => 0x1000 * HexOf(digits[0]) + 0x100 * HexOf(digits[1]) + 16 * HexOf(digits[2]) + HexOf(digits[3])
  }

  /** Two neighbouring `\u` escapes that are a high and a low surrogate are one code point. */
  predicate StartsPair(pieces: seq<Piece>)
    requires IsString(pieces)
  {
    |pieces| > 1 && pieces[0].Hex? && pieces[1].Hex? && IsHigh(PointOf(pieces[0])) && IsLow(PointOf(pieces[1]))
  }

  function TextOf(pieces: seq<Piece>): Text
    requires IsString(pieces)
  {
    if pieces == [] then []
    else if StartsPair(pieces) then [Combine(PointOf(pieces[0]), PointOf(pieces[1]))] + TextOf(pieces[2..])
    else [PointOf(pieces[0])] + TextOf(pieces[1..])
  }

  function ValueOf(t: Tree): Json
    requires Derives(t)
  {
    match t
    case NullText => Null
    case BoolText(b) => Bool(b)
    case NumberText(text) => if IsIntText(text) then Int(IntOf(text)) else Float(text)
    case StringText(pieces) => Str(TextOf(pieces))
    case ArrayText(_, items) => Arr(ItemsOf(items))
    case ObjectText(_, members) => Obj(MembersOf(members))
  }

  function ItemsOf(items: TreeItems): Items
    requires DerivesItems(items)
  {
    if items.NoneLeft? then NoItems else Item(ValueOf(items.head), ItemsOf(items.rest))
  }

  function MembersOf(m: TreeMembers): Members
    requires DerivesMembers(m)
  {
    if m.NoneLeft? then NoMembers else Member(TextOf(m.key), ValueOf(m.value), MembersOf(m.tail))
  }

  // ---- every derivation is read

  lemma {:induction false} SkipBlank(blank: string, s: string)
    requires IsBlank(blank) && (s == "" || !IsWs(s[0]))
    ensures SkipWs(blank + s) == s
  {
    if blank == "" {
      assert blank + s == s;
    } else {
      assert (blank + s)[1..] == blank[1..] + s;
      SkipBlank(blank[1..], s);
    }
  }

  lemma {:induction false} HexIsRead(digits: string, rest: string)
    requires IsPiece(Hex(digits))
    ensures
      var s := WritePiece(Hex(digits), rest);
      |s| == 6 + |rest| && UValue(s) == PointOf(Hex(digits)) && s[6..] == rest
  {
    var s := WritePiece(Hex(digits), rest);
    assert forall i :: 0 <= i < 4 ==> s[2 + i] == digits[i];
  }

  /** A string goes on with a `\u` escape exactly when its next piece is one. */
  lemma {:induction false} NextEscape(pieces: seq<Piece>, rest: string)
    requires IsString(pieces)
    ensures UValue(WriteString(pieces, rest))
         == if pieces != [] && pieces[0].Hex? then PointOf(pieces[0]) else -1
  {
    if pieces != [] && pieces[0].Hex? {
      HexIsRead(pieces[0].digits, WriteString(pieces[1..], rest));
    }
  }

  lemma {:induction false} PieceIsRead(pieces: seq<Piece>, rest: string)
    requires pieces != [] && IsString(pieces) && !StartsPair(pieces)
    ensures
      var s := WriteString(pieces, rest);
      s != "" && s[0] != '\"' && ParseChar(s) == Some((PointOf(pieces[0]), WriteString(pieces[1..], rest)))
  {
    hide UValue;
    var s, after := WriteString(pieces, rest), WriteString(pieces[1..], rest);
    match pieces[0]
    case Raw(c) => assert s[1..] == after;
    case Short(c) => assert s[2..] == after;
    case Hex(digits) =>
      HexIsRead(digits, after);
      NextEscape(pieces[1..], rest);
      assert pieces[1..] != [] ==> pieces[1..][0] == pieces[1];
  }

  lemma {:induction false} PairIsRead(pieces: seq<Piece>, rest: string)
    requires IsString(pieces) && StartsPair(pieces)
    ensures
      var s := WriteString(pieces, rest);
      && s != "" && s[0] != '\"'
      && ParseChar(s) == Some((Combine(PointOf(pieces[0]), PointOf(pieces[1])), WriteString(pieces[2..], rest)))
  {
    hide UValue;
    var s, next, after := WriteString(pieces, rest), WriteString(pieces[1..], rest), WriteString(pieces[2..], rest);
    assert pieces[1..][0] == pieces[1] && pieces[1..][1..] == pieces[2..];
    HexIsRead(pieces[0].digits, next);
    HexIsRead(pieces[1].digits, after);
    assert s[12..] == s[6..][6..];
  }

  lemma {:induction false} StringIsRead(pieces: seq<Piece>, rest: string)
    requires IsString(pieces)
    ensures ParseText(WriteString(pieces, rest)) == Some((TextOf(pieces), rest))
    decreases |pieces|
  {
    hide ParseChar, WritePiece, PointOf;
    if pieces == [] {
      assert WriteString(pieces, rest)[1..] == rest;
    } else if StartsPair(pieces) {
      PairIsRead(pieces, rest);
      StringIsRead(pieces[2..], rest);
    } else {
      PieceIsRead(pieces, rest);
      StringIsRead(pieces[1..], rest);
    }
  }

  lemma {:induction false} NumberStarts(text: string)
    requires IsNumber(text)
    ensures text != "" && (text[0] == '-' || IsDigit(text[0])) && forall i :: 0 <= i < |text| ==> IsNumChar(text[i])
    ensures IsFloatText(text) ==> !IsIntText(text)
  {
    if IsFloatText(text) {
      FloatTextStarts(text);
    } else {
      IntTextIsNumeric(text);
    }
  }

  lemma {:induction false} IntTextIsNumeric(text: string)
    requires IsIntText(text)
    ensures text != "" && (text[0] == '-' || IsDigit(text[0])) && forall i :: 0 <= i < |text| ==> IsNumChar(text[i])
  {
    var s := if text[0] == '-' then text[1..] else text;
    if s[0] != '0' {
      OnlyDigits(s[1..]);
    }
    assert forall i :: 0 <= i < |s| ==> s[i] == if i == 0 then s[0] else s[1..][i - 1];
    assert forall i :: 0 <= i < |s| ==> IsDigit(s[i]);
    assert forall i :: 0 <= i < |text| ==> text[i] == '-' || text[i] in s;
  }

  lemma {:induction false} OnlyDigits(s: string)
    requires SkipDigits(s) == ""
    ensures forall i :: 0 <= i < |s| ==> IsDigit(s[i])
  {
    if s != "" {
      OnlyDigits(s[1..]);
    }
  }

  lemma {:induction false} TreeStarts(t: Tree, rest: string)
    requires Derives(t)
    ensures
      var s := Write(t, rest);
      s != "" && !IsWs(s[0]) && s[0] != ']'
  {
    hide IsNumber;
    if t.NumberText? {
      NumberStarts(t.text);
      assert Write(t, rest)[0] == t.text[0];
    }
  }

  lemma {:induction false} TreeIsRead(t: Tree, rest: string)
    requires Derives(t) && EndsNumber(rest)
    ensures ParseValue(Write(t, rest)) == Some((ValueOf(t), rest))
    decreases t, 0
  {
    hide ParseText, WriteString, NumSpan, IsIntText, IsFloatText, IntOf, TextOf;
    var s := Write(t, rest);
    match t
    case NullText => ParseLiterals(rest);
    case BoolText(b) => ParseLiterals(rest);
    case NumberText(text) =>
      NumberStarts(text);
      ParseNumber(text, rest);
    case StringText(pieces) =>
      assert s[1..] == WriteString(pieces, rest);
      StringIsRead(pieces, rest);
    case ArrayText(open, items) =>
      var inner := if items.NoneLeft? then [']'] + rest else WriteItems(items, rest);
      if items.OneItem? {
        ItemsAreRead(items, rest);
      }
      SkipBlank(open, inner);
      assert s[1..] == open + inner && ([']'] + rest)[1..] == rest;
    case ObjectText(open, members) =>
      var inner := if members.NoneLeft? then ['}'] + rest else WriteMembers(members, rest);
      if members.OneMember? {
        MembersAreRead(members, rest);
      }
      SkipBlank(open, inner);
      assert s[1..] == open + inner && (['}'] + rest)[1..] == rest;
  }

  lemma {:induction false} BlankEndsNumber(blank: string, c: char, s: string)
    requires IsBlank(blank) && !IsNumChar(c) && !IsWs(c)
    ensures EndsNumber(blank + ([c] + s)) && SkipWs(blank + ([c] + s)) == [c] + s && ([c] + s)[1..] == s
  {
    SkipBlank(blank, [c] + s);
  }

  lemma {:induction false} ItemsAreRead(items: TreeItems, rest: string)
    requires items.OneItem? && DerivesItems(items)
    ensures ParseItems(WriteItems(items, rest)) == Some((ItemsOf(items), rest))
    ensures
      var s := WriteItems(items, rest);
      s != "" && !IsWs(s[0]) && s[0] != ']'
    decreases items, 1
  {
    hide ParseValue, Write, ValueOf, EndsNumber, IsBlank;
    if items.rest.NoneLeft? {
      BlankEndsNumber(items.before, ']', rest);
      TreeIsRead(items.head, items.before + ([']'] + rest));
      TreeStarts(items.head, items.before + ([']'] + rest));
    } else {
      var following := WriteItems(items.rest, rest);
      ItemsAreRead(items.rest, rest);
      SkipBlank(items.after, following);
      BlankEndsNumber(items.before, ',', items.after + following);
      TreeIsRead(items.head, items.before + ([','] + (items.after + following)));
      TreeStarts(items.head, items.before + ([','] + (items.after + following)));
    }
  }

  /** One turn of the parser over members. */
  lemma {:induction false} MemberStep(s: string, key: Text, colon: string, value: string, v: Json, after: string, next: string)
    requires s != "" && s[0] == '\"' && ParseText(s[1..]).Some? && ParseText(s[1..]).value.0 == key
    requires SkipWs(ParseText(s[1..]).value.1) == [':'] + colon && SkipWs(colon) == value
    requires ParseValue(value) == Some((v, after)) && SkipWs(after) == next && next != ""
    ensures next[0] == '}' ==> ParseMembers(s) == Some((Member(key, v, NoMembers), next[1..]))
    ensures next[0] == ',' && ParseMembers(SkipWs(next[1..])).Some? ==>
              var (tail, end) := ParseMembers(SkipWs(next[1..])).value;
              ParseMembers(s) == Some((Member(key, v, tail), end))
  {
    hide ParseText, ParseValue, SkipWs;
    assert ([':'] + colon)[1..] == colon;
  }

  lemma {:induction false} MembersAreRead(m: TreeMembers, rest: string)
    requires m.OneMember? && DerivesMembers(m)
    ensures ParseMembers(WriteMembers(m, rest)) == Some((MembersOf(m), rest))
    ensures WriteMembers(m, rest) != "" && WriteMembers(m, rest)[0] == '\"'
    decreases m, 1
  {
    hide ParseMembers, ParseValue, Write, ValueOf, EndsNumber, IsBlank, ParseText, WriteString, TextOf, SkipWs;
    var last, following := m.tail.NoneLeft?, if m.tail.NoneLeft? then rest else m.after + WriteMembers(m.tail, rest);
    var c := if last then '}' else ',';
    if !last {
      MembersAreRead(m.tail, rest);
      SkipBlank(m.after, WriteMembers(m.tail, rest));
    }
    var next := m.before + ([c] + following);
    BlankEndsNumber(m.before, c, following);
    var value := Write(m.value, next);
    TreeIsRead(m.value, next);
    TreeStarts(m.value, next);
    SkipBlank(m.colonAfter, value);
    var colon := m.colonBefore + ([':'] + (m.colonAfter + value));
    BlankEndsNumber(m.colonBefore, ':', m.colonAfter + value);
    StringIsRead(m.key, colon);
    var s := WriteMembers(m, rest);
    assert s == ['\"'] + WriteString(m.key, colon);
    assert s[1..] == WriteString(m.key, colon);
    MemberStep(s, TextOf(m.key), m.colonAfter + value, value, ValueOf(m.value), next, [c] + following);
  }

  // ---- whatever is read is a derivation

  lemma {:induction false} SplitBlank(s: string) returns (blank: string)
    ensures IsBlank(blank) && s == blank + SkipWs(s) && (SkipWs(s) == "" || !IsWs(SkipWs(s)[0]))
  {
    if s != "" && IsWs(s[0]) {
      blank := SplitBlank(s[1..]);
      assert s == [s[0]] + s[1..];
      blank := [s[0]] + blank;
    } else {
      blank := "";
    }
  }

  lemma {:induction false} PlainIsPiece(s: string) returns (p: Piece)
    requires s != "" && s[0] != '\"' && ParseChar(s).Some?
    requires s[0] != '\\' || s[1] != 'u'
    ensures IsPiece(p) && !p.Hex? && s == WritePiece(p, ParseChar(s).value.1) && ParseChar(s).value.0 == PointOf(p)
  {
    hide UValue;
    if s[0] != '\\' {
      p := Raw(s[0]);
      assert s == [s[0]] + s[1..];
    } else {
      EscapedByU(s);
      p := Short(s[1]);
      assert s == ['\\', s[1]] + s[2..];
    }
  }

  lemma {:induction false} EscapedByU(s: string)
    ensures UValue(s) >= 0 ==> s[0] == '\\' && s[1] == 'u'
  {
  }

  /** The pieces that `ParseChar` takes off a string: one, or the two of a surrogate pair. */
  lemma {:induction false} CharIsPieces(s: string) returns (pieces: seq<Piece>)
    requires s != "" && s[0] != '\"' && ParseChar(s).Some?
    ensures IsString(pieces) && (|pieces| == 1 || (|pieces| == 2 && StartsPair(pieces)))
    ensures
      var (c, after) := ParseChar(s).value;
      if |pieces| == 1
      then s == WritePiece(pieces[0], after) && c == PointOf(pieces[0])
           && (pieces[0].Hex? && IsHigh(c) ==> !IsLow(UValue(after)))
      else s == WritePiece(pieces[0], WritePiece(pieces[1], after)) && c == Combine(PointOf(pieces[0]), PointOf(pieces[1]))
  {
    if s[0] != '\\' || s[1] != 'u' {
      var p := PlainIsPiece(s);
      pieces := [p];
    } else {
      hide UValue, PointOf, WritePiece, IsPiece;
      HexIsPiece(s);
      if IsHigh(UValue(s)) && IsLow(UValue(s[6..])) {
        HexIsPiece(s[6..]);
        pieces := [Hex(s[2..6]), Hex(s[6..][2..6])];
        assert s[6..][6..] == s[12..];
      } else {
        pieces := [Hex(s[2..6])];
      }
    }
  }

  lemma {:induction false} HexIsPiece(s: string)
    requires UValue(s) >= 0
    ensures IsPiece(Hex(s[2..6])) && PointOf(Hex(s[2..6])) == UValue(s) && s == WritePiece(Hex(s[2..6]), s[6..])
  {
    assert s == ['\\', 'u'] + (s[2..6] + s[6..]);
  }

  lemma {:induction false} StringIsDerived(s: string) returns (pieces: seq<Piece>)
    requires ParseText(s).Some?
    ensures IsString(pieces) && s == WriteString(pieces, ParseText(s).value.1) && ParseText(s).value.0 == TextOf(pieces)
    decreases |s|
  {
    hide ParseChar, WritePiece, PointOf, UValue, IsPiece;
    if s[0] == '\"' {
      pieces := [];
      assert s == ['\"'] + s[1..];
    } else {
      var (c, after) := ParseChar(s).value;
      var first := CharIsPieces(s);
      var more := StringIsDerived(after);
      pieces := first + more;
      NextEscape(more, ParseText(after).value.1);
      if |first| == 1 {
        assert pieces[1..] == more && pieces[0] == first[0];
        assert more != [] ==> pieces[1] == more[0];
        assert !StartsPair(pieces);
      } else {
        assert pieces[2..] == more && pieces[1..] == [first[1]] + more && pieces[1..][1..] == more;
        assert StartsPair(pieces);
      }
    }
  }

  lemma {:induction false} ValueIsDerived(s: string) returns (t: Tree)
    requires ParseValue(s).Some?
    ensures Derives(t) && s == Write(t, ParseValue(s).value.1) && ParseValue(s).value.0 == ValueOf(t)
    decreases |s|, 0, 1
  {
    hide ParseText, WriteString, IsIntText, IsFloatText, IntOf, TextOf, IsString, IsBlank, NumSpan;
    var (v, end) := ParseValue(s).value;
    if s[0] == '\"' {
      var pieces := StringIsDerived(s[1..]);
      t := StringText(pieces);
      assert s == ['\"'] + s[1..];
    } else if s[0] == '[' {
      t := ArrayIsDerived(s);
    } else if s[0] == '{' {
      t := ObjectIsDerived(s);
    } else if "null" <= s {
      t := NullText;
    } else if "true" <= s {
      t := BoolText(true);
    } else if "false" <= s {
      t := BoolText(false);
    } else {
      t := NumberText(s[..NumSpan(s)]);
      assert s == s[..NumSpan(s)] + s[NumSpan(s)..];
    }
  }

  lemma {:induction false} ArrayIsDerived(s: string) returns (t: Tree)
    requires ParseValue(s).Some? && s[0] == '['
    ensures Derives(t) && s == Write(t, ParseValue(s).value.1) && ParseValue(s).value.0 == ValueOf(t)
    decreases |s|, 0, 0
  {
    hide ParseItems, WriteItems, IsBlank, DerivesItems, ItemsOf;
    var inner := SkipWs(s[1..]);
    var open := SplitBlank(s[1..]);
    assert s == ['['] + s[1..];
    if inner != "" && inner[0] == ']' {
      NothingIsDerived();
      t := ArrayText(open, TreeItems.NoneLeft);
      assert inner == [']'] + inner[1..];
    } else {
      var items := ItemsAreDerived(inner);
      t := ArrayText(open, items);
    }
  }

  lemma {:induction false} NothingIsDerived()
    ensures DerivesItems(TreeItems.NoneLeft) && ItemsOf(TreeItems.NoneLeft) == NoItems
    ensures DerivesMembers(TreeMembers.NoneLeft) && MembersOf(TreeMembers.NoneLeft) == NoMembers
  {
  }

  lemma {:induction false} ObjectIsDerived(s: string) returns (t: Tree)
    requires ParseValue(s).Some? && s[0] == '{'
    ensures Derives(t) && s == Write(t, ParseValue(s).value.1) && ParseValue(s).value.0 == ValueOf(t)
    decreases |s|, 0, 0
  {
    hide ParseMembers, WriteMembers, IsBlank, DerivesMembers, MembersOf;
    var inner := SkipWs(s[1..]);
    var open := SplitBlank(s[1..]);
    assert s == ['{'] + s[1..];
    if inner != "" && inner[0] == '}' {
      NothingIsDerived();
      t := ObjectText(open, TreeMembers.NoneLeft);
      assert inner == ['}'] + inner[1..];
    } else {
      var members := MembersAreDerived(inner);
      t := ObjectText(open, members);
    }
  }

  lemma {:induction false} ItemsAreDerived(s: string) returns (items: TreeItems)
    requires ParseItems(s).Some?
    ensures items.OneItem? && DerivesItems(items)
    ensures s == WriteItems(items, ParseItems(s).value.1) && ParseItems(s).value.0 == ItemsOf(items)
    decreases |s|, 1, 0
  {
    hide ParseValue, Write, ValueOf, IsBlank, Derives;
    var (v, after) := ParseValue(s).value;
    var head := ValueIsDerived(s);
    var next := SkipWs(after);
    var before := SplitBlank(after);
    if next[0] == ']' {
      assert next == [']'] + next[1..];
      EmptyIsBlank();
      items := OneItem(head, before, "", TreeItems.NoneLeft);
    } else {
      var gap := SplitBlank(next[1..]);
      var rest := ItemsAreDerived(SkipWs(next[1..]));
      assert next == [','] + next[1..];
      items := OneItem(head, before, gap, rest);
    }
  }

  lemma {:induction false} EmptyIsBlank()
    ensures IsBlank("")
  {
  }

  lemma {:induction false} MembersAreDerived(s: string) returns (members: TreeMembers)
    requires ParseMembers(s).Some?
    ensures members.OneMember? && DerivesMembers(members)
    ensures s == WriteMembers(members, ParseMembers(s).value.1) && ParseMembers(s).value.0 == MembersOf(members)
    decreases |s|, 1, 0
  {
    hide ParseValue, Write, ValueOf, IsBlank, Derives, ParseText, WriteString, TextOf, IsString;
    var (text, afterKey) := ParseText(s[1..]).value;
    var key := StringIsDerived(s[1..]);
    var colon := SkipWs(afterKey);
    var colonBefore := SplitBlank(afterKey);
    var colonAfter := SplitBlank(colon[1..]);
    var (v, after) := ParseValue(SkipWs(colon[1..])).value;
    var value := ValueIsDerived(SkipWs(colon[1..]));
    var next := SkipWs(after);
    var before := SplitBlank(after);
    assert s == ['\"'] + s[1..] && colon == [':'] + colon[1..] && next == [next[0]] + next[1..];
    if next[0] == '}' {
      EmptyIsBlank();
      members := OneMember(key, colonBefore, colonAfter, value, before, "", TreeMembers.NoneLeft);
    } else {
      var gap := SplitBlank(next[1..]);
      var tail := MembersAreDerived(SkipWs(next[1..]));
      members := OneMember(key, colonBefore, colonAfter, value, before, gap, tail);
    }
  }

  // ---- documents

  /** `s` is a derivation with white space around it. */
  ghost predicate IsJsonText(s: string, t: Tree, lead: string, trail: string) {
    Derives(t) && IsBlank(lead) && IsBlank(trail) && s == lead + Write(t, trail)
  }

  /** Every JSON text is read, as the value of its derivation with repeated keys merged. */
  lemma {:induction false} JsonTextIsLoaded(s: string, t: Tree, lead: string, trail: string)
    requires IsJsonText(s, t, lead, trail)
    ensures Loads(s) == Some(ToDict(ValueOf(t)))
  {
    hide ParseValue, Write, Derives, ValueOf, ToDict;
    TreeStarts(t, trail);
    SkipBlank(lead, Write(t, trail));
    BlankIsNoNumber(trail);
    TreeIsRead(t, trail);
    SkipBlank(trail, "");
    assert trail + "" == trail;
  }

  lemma {:induction false} BlankIsNoNumber(blank: string)
    requires IsBlank(blank)
    ensures EndsNumber(blank)
  {
  }

  /** And whatever `json.loads` accepts is a JSON text. */
  lemma {:induction false} LoadedIsJsonText(s: string) returns (t: Tree, lead: string, trail: string)
    requires Loads(s).Some?
    ensures IsJsonText(s, t, lead, trail) && Loads(s) == Some(ToDict(ValueOf(t)))
  {
    hide ParseValue, Write, Derives, ValueOf, ToDict;
    lead := SplitBlank(s);
    t := ValueIsDerived(SkipWs(s));
    var end := ParseValue(SkipWs(s)).value.1;
    trail := SplitBlank(end);
    assert end == trail;
  }

  // ---- numbers

  predicate IsDigits(s: string) {
    s != "" && forall i :: 0 <= i < |s| ==> IsDigit(s[i])
  }

  /** The parts of a number: sign, whole part without leading zeros, fraction, exponent. */
  predicate HasParts(text: string, sign: string, whole: string, fraction: string, exponent: string) {
    && text == sign + (whole + (fraction + exponent))
    && (sign == "" || sign == "-")
    && IsDigits(whole) && (whole[0] == '0' ==> whole == "0")
    && (fraction == "" || (fraction[0] == '.' && IsDigits(fraction[1..])))
    && (exponent == "" || (exponent[0] in "eE" && IsDigits(AfterSign(exponent[1..]))))
  }

  function AfterSign(s: string): string {
    if s != "" && (s[0] == '+' || s[0] == '-') then s[1..] else s
  }

  lemma {:induction false} SkipThese(digits: string, s: string)
    requires forall i :: 0 <= i < |digits| ==> IsDigit(digits[i])
    requires s == "" || !IsDigit(s[0])
    ensures SkipDigits(digits + s) == s
  {
    if digits == "" {
      assert digits + s == s;
    } else {
      assert (digits + s)[1..] == digits[1..] + s;
      SkipThese(digits[1..], s);
    }
  }

  lemma {:induction false} SplitDigits(s: string) returns (digits: string)
    ensures s == digits + SkipDigits(s) && (SkipDigits(s) == "" || !IsDigit(SkipDigits(s)[0]))
    ensures forall i :: 0 <= i < |digits| ==> IsDigit(digits[i])
  {
    if s != "" && IsDigit(s[0]) {
      digits := SplitDigits(s[1..]);
      assert s == [s[0]] + s[1..];
      digits := [s[0]] + digits;
    } else {
      digits := "";
    }
  }

  lemma {:induction false} IntPart(sign: string, whole: string, s: string)
    requires (sign == "" || sign == "-") && IsDigits(whole) && (whole[0] == '0' ==> whole == "0")
    requires s == "" || !IsDigit(s[0])
    ensures AfterInt(sign + (whole + s)) == Some(s)
  {
    var t := sign + (whole + s);
    assert (if t[0] == '-' then t[1..] else t) == whole + s;
    assert (whole + s)[0] == whole[0] && (whole + s)[1..] == whole[1..] + s;
    if whole[0] != '0' {
      SkipThese(whole[1..], s);
    } else {
      assert whole[1..] + s == s;
    }
  }

  lemma {:induction false} ExponentIsNumeric(exponent: string)
    requires exponent != "" && exponent[0] in "eE" && IsDigits(AfterSign(exponent[1..]))
    ensures forall i :: 0 <= i < |exponent| ==> IsNumChar(exponent[i])
  {
    var e := exponent[1..];
    var x := AfterSign(e);
    forall i | 0 <= i < |exponent| ensures IsNumChar(exponent[i]) {
      if i > 0 {
        assert exponent[i] == e[i - 1];
        assert i - 1 >= |e| - |x| ==> e[i - 1] == x[i - 1 - (|e| - |x|)];
      }
    }
  }

  lemma {:induction false} PartsAreNumeric(sign: string, whole: string, fraction: string, exponent: string)
    requires HasParts(sign + (whole + (fraction + exponent)), sign, whole, fraction, exponent)
    ensures NumSpan(sign + (whole + (fraction + exponent))) == |sign + (whole + (fraction + exponent))|
  {
    hide NumSpan, AfterSign;
    if exponent != "" {
      ExponentIsNumeric(exponent);
    }
    forall i | 0 <= i < |fraction| ensures IsNumChar(fraction[i]) {
      if i > 0 {
        assert fraction[i] == fraction[1..][i - 1];
      }
    }
    AllNumeric(fraction, exponent);
    AllNumeric(whole, fraction + exponent);
    AllNumeric(sign, whole + (fraction + exponent));
    SpanOfAll(sign + (whole + (fraction + exponent)), "");
  }

  lemma {:induction false} AllNumeric(a: string, b: string)
    requires forall i :: 0 <= i < |a| ==> IsNumChar(a[i])
    requires forall i :: 0 <= i < |b| ==> IsNumChar(b[i])
    ensures forall i :: 0 <= i < |a + b| ==> IsNumChar((a + b)[i])
  {
  }

  /** Whatever has these parts is a number, an integer exactly when it has no fraction and no exponent. */
  lemma {:induction false} PartsAreNumber(text: string, sign: string, whole: string, fraction: string, exponent: string)
    requires HasParts(text, sign, whole, fraction, exponent)
    ensures IsNumber(text) && (IsIntText(text) <==> fraction == "" && exponent == "")
  {
    hide AfterInt, NumSpan;
    IntPart(sign, whole, fraction + exponent);
    if fraction + exponent != "" {
      PartsAreNumeric(sign, whole, fraction, exponent);
      var s := fraction + exponent;
      if exponent != "" {
        SkipAllDigits(AfterSign(exponent[1..]));
      }
      if fraction != "" {
        assert s[1] == fraction[1] && s[2..] == fraction[2..] + exponent;
        SkipThese(fraction[2..], exponent);
      } else {
        assert s == exponent;
      }
      assert IsFloatText(text);
    }
  }

  lemma {:induction false} SplitWhole(s: string) returns (whole: string)
    requires s != "" && IsDigit(s[0])
    ensures s == whole + if s[0] == '0' then s[1..] else SkipDigits(s[1..])
    ensures IsDigits(whole) && (whole[0] == '0' ==> whole == "0")
  {
    if s[0] == '0' {
      whole := "0";
      assert s == [s[0]] + s[1..];
    } else {
      var digits := SplitDigits(s[1..]);
      whole := [s[0]] + digits;
      var end := SkipDigits(s[1..]);
      assert whole + end == [s[0]] + (digits + end);
      assert forall i :: 0 < i < |whole| ==> whole[i] == digits[i - 1];
    }
  }

  lemma {:induction false} SplitInt(text: string) returns (sign: string, whole: string)
    requires AfterInt(text).Some?
    ensures text == sign + (whole + AfterInt(text).value) && (sign == "" || sign == "-")
    ensures IsDigits(whole) && (whole[0] == '0' ==> whole == "0")
  {
    hide IsDigits, SkipDigits;
    if text[0] == '-' {
      sign := "-";
      whole := SplitWhole(text[1..]);
      assert text == "-" + text[1..];
    } else {
      sign := "";
      whole := SplitWhole(text);
      assert text == "" + text;
    }
  }

  lemma {:induction false} SplitFraction(s: string) returns (fraction: string)
    requires |s| > 1 && s[0] == '.' && IsDigit(s[1])
    ensures s == fraction + SkipDigits(s[2..]) && fraction != "" && fraction[0] == '.' && IsDigits(fraction[1..])
  {
    var digits := SplitDigits(s[2..]);
    var end := SkipDigits(s[2..]);
    fraction := ['.', s[1]] + digits;
    assert s == ['.', s[1]] + s[2..];
    assert fraction + end == ['.', s[1]] + (digits + end);
    assert fraction[1..] == [s[1]] + digits;
  }

  lemma {:induction false} ExponentDigits(e: string)
    requires |e| > 0
    ensures
      var x := if |e| > 1 && (e[1] == '+' || e[1] == '-') then e[2..] else e[1..];
      x == AfterSign(e[1..]) && (x != "" && SkipDigits(x) == "" ==> IsDigits(x))
  {
    var x := AfterSign(e[1..]);
    if SkipDigits(x) == "" {
      OnlyDigits(x);
    }
  }

  /** And every number has them. */
  lemma {:induction false} NumberHasParts(text: string) returns (sign: string, whole: string, fraction: string, exponent: string)
    requires IsNumber(text)
    ensures HasParts(text, sign, whole, fraction, exponent)
  {
    hide AfterInt, NumSpan, IsDigits, SkipDigits, AfterSign;
    sign, whole := SplitInt(text);
    var s := AfterInt(text).value;
    fraction, exponent := "", s;
    if s != "" && s[0] == '.' {
      fraction := SplitFraction(s);
      exponent := SkipDigits(s[2..]);
    }
    assert s == fraction + exponent;
    if exponent != "" {
      ExponentDigits(exponent);
    }
  }

  // ---- repeated keys

  /** The value of the last member with the key. */
  function LastValue(m: Members, k: Text): Json
    requires k in Keys(m)
  {
    if k in Keys(m.tail) then LastValue(m.tail, k) else m.value
  }

  /** A `dict` has the keys that the object names, each once, each with its last value. */
  lemma {:induction false} LastMemberCounts(m: Members, k: Text)
    ensures Keys(ToDictMembers(m)) == Keys(m) && IsDictMembers(ToDictMembers(m))
    ensures k in Keys(m) ==> Lookup(ToDictMembers(m), k) == ToDict(LastValue(m, k))
  {
    JsonCanonical.ToDictMembersAreDict(m);
    if m.Member? {
      LastMemberCounts(m.tail, k);
      var tail := ToDictMembers(m.tail);
      JsonCanonical.WithoutDropsKey(tail, m.key);
      if m.key in Keys(tail) {
        LastMemberCounts(m.tail, m.key);
        if k != m.key && k in Keys(tail) {
          WithoutKeepsOthers(tail, m.key, k);
        }
      }
    }
  }

  lemma {:induction false} WithoutKeepsOthers(m: Members, k: Text, other: Text)
    requires other != k && other in Keys(m)
    ensures other in Keys(Without(m, k)) && Lookup(Without(m, k), other) == Lookup(m, other)
  {
    if m.key != other {
      WithoutKeepsOthers(m.tail, k, other);
    }
  }
}
