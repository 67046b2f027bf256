/**
 JSON as the ledger uses it: `json.dumps(payload, sort_keys=True, default=str)`
 to hash and store a payload, `json.loads` to read it back, and the same dump
 again to check it (objects and strings as in sections 4 and 7 of RFC 8259).
 The chain verifier is sound only if the second dump repeats the first.

 Printing is written with the text that follows as an argument, so that a
 parser can be followed along a printed text without re-associating it.
 */
module CanonicalJson {
  import opened Hashing

  // ---- values

  /** A Python `str`: code points, surrogates included. */
  type CodePoint = n: int | 0 <= n < 0x11_0000

  type Text = seq<CodePoint>

  /** `Other` is any object that only `default=str` can print; `Float` keeps the text that `repr` gives. */
  datatype Json =
    | Null
    | Bool(b: bool)
    | Int(n: int)
    | Float(repr: string)
    | Str(s: Text)
    | Other(str: Text)
    | Arr(items: Items)
    | Obj(members: Members)

  datatype Items = NoItems | Item(head: Json, rest: Items)

  /** A `dict` in insertion order. */
  datatype Members = NoMembers | Member(key: Text, value: Json, tail: Members)

  function Keys(m: Members): set<Text> {
    if m.NoMembers? then {} else {m.key} + Keys(m.tail)
  }

  function Lookup(m: Members, k: Text): Json
    requires k in Keys(m)
  {
    if m.key == k then m.value else Lookup(m.tail, k)
  }

  // ---- the order of `sort_keys`

  /** Python's order on `str`, by code point. */
  predicate TextLt(a: Text, b: Text) {
    b != [] && (a == [] || a[0] < b[0] || (a[0] == b[0] && TextLt(a[1..], b[1..])))
  }

  lemma {:induction false} TextLtTotal(a: Text, b: Text)
    ensures TextLt(a, b) || TextLt(b, a) || a == b
    ensures !(TextLt(a, b) && TextLt(b, a)) && (TextLt(a, b) ==> a != b)
  {
    if a != [] && b != [] {
      TextLtTotal(a[1..], b[1..]);
      assert a == [a[0]] + a[1..] && b == [b[0]] + b[1..];
    }
  }

  lemma {:induction false} TextLtTransitive(a: Text, b: Text, c: Text)
    requires TextLt(a, b) && TextLt(b, c)
    ensures TextLt(a, c)
  {
    if a != [] && a[0] == b[0] == c[0] {
      TextLtTransitive(a[1..], b[1..], c[1..]);
    }
  }

  function Insert(k: Text, v: Json, m: Members): Members {
    if m.NoMembers? || TextLt(k, m.key) then Member(k, v, m)
    else Member(m.key, m.value, Insert(k, v, m.tail))
  }

  /** The value with every object's members in key order. */
  function Sort(v: Json): Json {
    match v
    case Arr(items) => Arr(SortItems(items))
    case Obj(members) => Obj(SortMembers(members))
    case _ => v
  }

  function SortItems(items: Items): Items {
    if items.NoItems? then NoItems else Item(Sort(items.head), SortItems(items.rest))
  }

  function SortMembers(m: Members): Members {
    if m.NoMembers? then NoMembers else Insert(m.key, Sort(m.value), SortMembers(m.tail))
  }

  /** Every object has distinct keys, as a `dict` has. */
  predicate IsDict(v: Json) {
    match v
    case Arr(items) => IsDictItems(items)
    case Obj(members) => IsDictMembers(members)
    case _ => true
  }

  predicate IsDictItems(items: Items) {
    items.NoItems? || (IsDict(items.head) && IsDictItems(items.rest))
  }

  predicate IsDictMembers(m: Members) {
    m.NoMembers? || (m.key !in Keys(m.tail) && IsDict(m.value) && IsDictMembers(m.tail))
  }

  /** Every object has strictly increasing keys. */
  predicate Strict(v: Json) {
    match v
    case Arr(items) => StrictItems(items)
    case Obj(members) => StrictMembers(members)
    case _ => true
  }

  predicate StrictItems(items: Items) {
    items.NoItems? || (Strict(items.head) && StrictItems(items.rest))
  }

  predicate StrictMembers(m: Members) {
    m.NoMembers?
    || (Strict(m.value) && StrictMembers(m.tail) && (m.tail.Member? ==> TextLt(m.key, m.tail.key)))
  }

  // ---- printing

  function HexDigit(n: int): (c: char)
    requires 0 <= n < 16
  {
    if n < 10 then ('0' as int + n) as char else ('a' as int + (n - 10)) as char
  }

  /** `\uXXXX`. */
  function UEscape(u: int, rest: string): string
    requires 0 <= u < 0x1_0000
  {
    ['\\', 'u', HexDigit(u / 0x1000), HexDigit(u / 0x100 % 16), HexDigit(u / 16 % 16), HexDigit(u % 16)] + rest
  }

  /** One code point under `ensure_ascii`, which is json's default. */
  function EmitChar(c: CodePoint, rest: string): string {
    if c == '\"' as int then ['\\', '\"'] + rest
    else if c == '\\' as int then ['\\', '\\'] + rest
    else if c == 10 then ['\\', 'n'] + rest
    else if c == 13 then ['\\', 'r'] + rest
    else if c == 9 then ['\\', 't'] + rest
    else if c == 12 then ['\\', 'f'] + rest
    else if c == 8 then ['\\', 'b'] + rest
    else if 0x20 <= c < 0x7F then [c as char] + rest
    else if c < 0x1_0000 then UEscape(c, rest)
    else UEscape(0xD800 + (c - 0x1_0000) / 0x400, UEscape(0xDC00 + (c - 0x1_0000) % 0x400, rest))
  }

  /** A string from after its opening quote. */
  function EmitText(s: Text, rest: string): string {
    if s == [] then ['\"'] + rest else EmitChar(s[0], EmitText(s[1..], rest))
  }

  function Digits(n: nat): string {
    if n < 10 then [HexDigit(n)] else Digits(n / 10) + [HexDigit(n % 10)]
  }

  function IntText(n: int): string {
    if n < 0 then ['-'] + Digits(-n) else Digits(n)
  }

  /** Separators: `(", ", ": ")`, or `(",", ":")` for `canonical_json`. */
  function Sep(compact: bool, c: char, rest: string): string {
    if compact then [c] + rest else [c, ' '] + rest
  }

  /** The text of `v`, in the member order it has, followed by `rest`. */
  function Emit(compact: bool, v: Json, rest: string): string
    decreases v, 0
  {
    match v
    case Null => "null" + rest
    case Bool(b) => (if b then "true" else "false") + rest
    case Int(n) => IntText(n) + rest
    case Float(repr) => repr + rest
    case Str(s) => ['\"'] + EmitText(s, rest)
    case Other(s) => ['\"'] + EmitText(s, rest)
    case Arr(items) => ['['] + (if items.NoItems? then [']'] + rest else EmitItems(compact, items, rest))
    case Obj(members) => ['{'] + (if members.NoMembers? then ['}'] + rest else EmitMembers(compact, members, rest))
  }

  function EmitItems(compact: bool, items: Items, rest: string): string
    requires items.Item?
    decreases items, 1
  {
    Emit(compact, items.head,
         if items.rest.NoItems? then [']'] + rest else Sep(compact, ',', EmitItems(compact, items.rest, rest)))
  }

  function EmitMembers(compact: bool, m: Members, rest: string): string
    requires m.Member?
    decreases m, 1
  {
    ['\"'] + EmitText(m.key, Sep(compact, ':', Emit(compact, m.value,
      if m.tail.NoMembers? then ['}'] + rest else Sep(compact, ',', EmitMembers(compact, m.tail, rest)))))
  }

  /** `json.dumps(v, sort_keys=True, default=str)`, or `canonical_json` when compact. */
  function Dumps(compact: bool, v: Json): string {
    Emit(compact, Sort(v), "")
  }

  // ---- parsing

  predicate IsWs(c: char) {
    c == ' ' || c == '\t' || c == '\n' || c == '\r'
  }

  function SkipWs(s: string): (r: string)
    ensures |r| <= |s|
  {
    if s != "" && IsWs(s[0]) then SkipWs(s[1..]) else s
  }

  predicate IsDigit(c: char) {
    '0' <= c <= '9'
  }

  /** Value of a hexadecimal digit of either case, or -1. */
  function HexOf(c: char): (n: int)
    ensures -1 <= n < 16
  {
    if '0' <= c <= '9' then c as int - '0' as int
    else if 'a' <= c <= 'f' then c as int - 'a' as int + 10
    else if 'A' <= c <= 'F' then c as int - 'A' as int + 10
    else -1
  }

  /** Value of the `\uXXXX` that `s` starts with, or -1. */
  function UValue(s: string): (u: int)
    ensures -1 <= u < 0x1_0000
    ensures u >= 0 ==> |s| >= 6
  {
    if |s| < 6 || s[0] != '\\' || s[1] != 'u' || HexOf(s[2]) < 0 || HexOf(s[3]) < 0 || HexOf(s[4]) < 0 || HexOf(s[5]) < 0
    then -1
    else 0x1000 * HexOf(s[2]) + 0x100 * HexOf(s[3]) + 16 * HexOf(s[4]) + HexOf(s[5])
  }

  predicate IsHigh(u: int) {
    0xD800 <= u < 0xDC00
  }

  predicate IsLow(u: int) {
    0xDC00 <= u < 0xE000
  }

  function Combine(hi: int, lo: int): CodePoint
    requires IsHigh(hi) && IsLow(lo)
  {
    0x1_0000 + (hi - 0xD800) * 0x400 + (lo - 0xDC00)
  }

  /** One code point of a string literal and what follows it; `None` is JSONDecodeError. */
  function ParseChar(s: string): (r: Option<(CodePoint, string)>)
    requires s != "" && s[0] != '\"'
    ensures r.Some? ==> |r.value.1| < |s|
  {
    if s[0] != '\\' then (if s[0] < ' ' then None else Some((s[0] as int, s[1..])))
    else if |s| < 2 then None
    else
      match s[1]
      case '\"' => Some(('\"' as int, s[2..]))
      case '\\' => Some(('\\' as int, s[2..]))
      case '/' => Some(('/' as int, s[2..]))
      case 'b' => Some((8, s[2..]))
      case 'f' => Some((12, s[2..]))
      case 'n' => Some((10, s[2..]))
      case 'r' => Some((13, s[2..]))
      case 't' => Some((9, s[2..]))
      case _ =>
        var u := UValue(s);
        if u < 0 then None
        else if IsHigh(u) && IsLow(UValue(s[6..])) then Some((Combine(u, UValue(s[6..])), s[12..]))
        else Some((u, s[6..]))
  }

  function ParseText(s: string): (r: Option<(Text, string)>)
    ensures r.Some? ==> |r.value.1| < |s|
    decreases |s|
  {
    if s == "" then None
    else if s[0] == '\"' then Some(([], s[1..]))
    else
      match ParseChar(s)
      case None => None
      case Some((c, after)) =>
        match ParseText(after)
        case None => None
        case Some((t, end)) => Some(([c] + t, end))
  }

  predicate IsNumChar(c: char) {
    IsDigit(c) || c == '-' || c == '+' || c == '.' || c == 'e' || c == 'E'
  }

  /** Length of the longest prefix of number characters. */
  function NumSpan(s: string): (k: nat)
    ensures k <= |s|
  {
    if s == "" || !IsNumChar(s[0]) then 0 else 1 + NumSpan(s[1..])
  }

  function SkipDigits(s: string): string {
    if s != "" && IsDigit(s[0]) then SkipDigits(s[1..]) else s
  }

  /** What follows the optional minus sign and the integer part; `None` when there is no integer part. */
  function AfterInt(t: string): Option<string> {
    var s := if t != "" && t[0] == '-' then t[1..] else t;
    if s == "" || !IsDigit(s[0]) then None
    else if s[0] == '0' then Some(s[1..]) else Some(SkipDigits(s[1..]))
  }

  predicate IsIntText(t: string) {
    AfterInt(t) == Some("")
  }

  /** A number with a fraction or an exponent: what `repr` prints for a finite float. */
  predicate IsFloatText(t: string) {
    && NumSpan(t) == |t|
    && AfterInt(t).Some? && AfterInt(t).value != ""
    && var s := AfterInt(t).value;
       var afterFraction :=
         if s[0] != '.' then Some(s)
         else if |s| > 1 && IsDigit(s[1]) then Some(SkipDigits(s[2..])) else None;
       match afterFraction
       case None => false
       case Some(e) =>
         e == "" || ((e[0] == 'e' || e[0] == 'E')
                     && var x := if |e| > 1 && (e[1] == '+' || e[1] == '-') then e[2..] else e[1..];
                        x != "" && SkipDigits(x) == "")
  }

  function NatOf(s: string): int {
    if s == "" then 0 else 10 * NatOf(s[..|s| - 1]) + HexOf(s[|s| - 1])
  }

  function IntOf(t: string): int {
    if t != "" && t[0] == '-' then -NatOf(t[1..]) else NatOf(t)
  }

  /** The value `s` starts with, objects as the list of their members, and what follows it. */
  function ParseValue(s: string): (r: Option<(Json, string)>)
    ensures r.Some? ==> |r.value.1| < |s|
    decreases |s|, 0
  {
    if s == "" then None
    else if s[0] == '\"' then
      match ParseText(s[1..])
      case None => None
      case Some((t, end)) => Some((Str(t), end))
    else if s[0] == '[' then
      var inner := SkipWs(s[1..]);
      if inner != "" && inner[0] == ']' then Some((Arr(NoItems), inner[1..]))
      else
        match ParseItems(inner)
        case None => None
        case Some((items, end)) => Some((Arr(items), end))
    else if s[0] == '{' then
      var inner := SkipWs(s[1..]);
      if inner != "" && inner[0] == '}' then Some((Obj(NoMembers), inner[1..]))
      else
        match ParseMembers(inner)
        case None => None
        case Some((members, end)) => Some((Obj(members), end))
    else if "null" <= s then Some((Null, s[4..]))
    else if "true" <= s then Some((Bool(true), s[4..]))
    else if "false" <= s then Some((Bool(false), s[5..]))
    else
      var k := NumSpan(s);
      var t, end := s[..k], s[k..];
      if IsIntText(t) then Some((Int(IntOf(t)), end))
      else if IsFloatText(t) then Some((Float(t), end))
      else None
  }

  /** The items from a first one up to the closing bracket. */
  function ParseItems(s: string): (r: Option<(Items, string)>)
    ensures r.Some? ==> |r.value.1| < |s|
    decreases |s|, 1
  {
    match ParseValue(s)
    case None => None
    case Some((v, after)) =>
      var next := SkipWs(after);
      if next != "" && next[0] == ']' then Some((Item(v, NoItems), next[1..]))
      else if next == "" || next[0] != ',' then None
      else
        match ParseItems(SkipWs(next[1..]))
        case None => None
        case Some((items, end)) => Some((Item(v, items), end))
  }

  /** The members from a first one up to the closing brace. */
  function ParseMembers(s: string): (r: Option<(Members, string)>)
    ensures r.Some? ==> |r.value.1| < |s|
    decreases |s|, 1
  {
    if s == "" || s[0] != '\"' then None
    else
      match ParseText(s[1..])
      case None => None
      case Some((key, after)) =>
        var colon := SkipWs(after);
        if colon == "" || colon[0] != ':' then None
        else
          match ParseValue(SkipWs(colon[1..]))
          case None => None
          case Some((v, after)) =>
            var next := SkipWs(after);
            if next != "" && next[0] == '}' then Some((Member(key, v, NoMembers), next[1..]))
            else if next == "" || next[0] != ',' then None
            else
              match ParseMembers(SkipWs(next[1..]))
              case None => None
              case Some((members, end)) => Some((Member(key, v, members), end))
  }

  /** The whole text as one value, before objects become `dict`s. */
  function ParseDocument(s: string): Option<Json> {
    match ParseValue(SkipWs(s))
    case None => None
    case Some((v, end)) => if SkipWs(end) == "" then Some(v) else None
  }

  function Without(m: Members, k: Text): Members {
    if m.NoMembers? then NoMembers
    else if m.key == k then Without(m.tail, k)
    else Member(m.key, m.value, Without(m.tail, k))
  }

  /** `dict(pairs)` at every level: a repeated key keeps its first place and its last value. */
  function ToDict(v: Json): Json {
    match v
    case Arr(items) => Arr(ToDictItems(items))
    case Obj(members) => Obj(ToDictMembers(members))
    case _ => v
  }

  function ToDictItems(items: Items): Items {
    if items.NoItems? then NoItems else Item(ToDict(items.head), ToDictItems(items.rest))
  }

  function ToDictMembers(m: Members): Members {
    if m.NoMembers? then NoMembers
    else
      var tail := ToDictMembers(m.tail);
      if m.key in Keys(tail) then Member(m.key, Lookup(tail, m.key), Without(tail, m.key))
      else Member(m.key, ToDict(m.value), tail)
  }

  /** `json.loads`; `None` is JSONDecodeError. */
  function Loads(s: string): Option<Json> {
    match ParseDocument(s)
    case None => None
    case Some(v) => Some(ToDict(v))
  }

  // ---- what survives the trip

  /** A high surrogate followed by a low one becomes the code point they encode. */
  function Join(s: Text): Text {
    if |s| < 2 then s
    else if IsHigh(s[0]) && IsLow(s[1]) then [Combine(s[0], s[1])] + Join(s[2..])
    else [s[0]] + Join(s[1..])
  }

  /** The value as its printed text describes it. */
  function Joined(v: Json): Json {
    match v
    case Str(s) => Str(Join(s))
    case Other(s) => Str(Join(s))
    case Arr(items) => Arr(JoinedItems(items))
    case Obj(members) => Obj(JoinedMembers(members))
    case _ => v
  }

  function JoinedItems(items: Items): Items {
    if items.NoItems? then NoItems else Item(Joined(items.head), JoinedItems(items.rest))
  }

  function JoinedMembers(m: Members): Members {
    if m.NoMembers? then NoMembers else Member(Join(m.key), Joined(m.value), JoinedMembers(m.tail))
  }

  /** Every float carries the text of a finite float. */
  predicate Printable(v: Json) {
    match v
    case Float(repr) => IsFloatText(repr)
    case Arr(items) => PrintableItems(items)
    case Obj(members) => PrintableMembers(members)
    case _ => true
  }

  predicate PrintableItems(items: Items) {
    items.NoItems? || (Printable(items.head) && PrintableItems(items.rest))
  }

  predicate PrintableMembers(m: Members) {
    m.NoMembers? || (Printable(m.value) && PrintableMembers(m.tail))
  }
}
