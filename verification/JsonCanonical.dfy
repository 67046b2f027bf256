/**
 When the dump of a payload can be trusted as its identity: it repeats after a
 load, it does not depend on insertion order, and different payloads print
 differently. Each statement carries the exact condition under which it holds.
 */
module JsonCanonical {
  import opened Hashing
  import opened CanonicalJson
  import opened JsonRoundTrip

  // ---- joining surrogates changes no text

  lemma {:induction false} EmitCombined(hi: CodePoint, lo: CodePoint, rest: string)
    requires IsHigh(hi) && IsLow(lo)
    ensures EmitChar(Combine(hi, lo), rest) == EmitChar(hi, EmitChar(lo, rest))
  {
    var c := Combine(hi, lo);
    assert (c - 0x1_0000) / 0x400 == hi - 0xD800 && (c - 0x1_0000) % 0x400 == lo - 0xDC00;
  }

  lemma {:induction false} EmitJoinedText(s: Text, rest: string)
    ensures EmitText(Join(s), rest) == EmitText(s, rest)
    decreases |s|
  {
    hide EmitChar;
    if |s| >= 2 {
      if IsHigh(s[0]) && IsLow(s[1]) {
        EmitJoinedText(s[2..], rest);
        EmitCombined(s[0], s[1], EmitText(s[2..], rest));
        assert s[1..][1..] == s[2..];
        assert Join(s)[1..] == Join(s[2..]);
      } else {
        EmitJoinedText(s[1..], rest);
        assert Join(s)[1..] == Join(s[1..]);
      }
    }
  }

  lemma {:induction false} EmitJoined(compact: bool, v: Json, rest: string)
    ensures Emit(compact, Joined(v), rest) == Emit(compact, v, rest)
    decreases v, 0
  {
    hide EmitText, Join;
    match v
    case Str(s) => EmitJoinedText(s, rest);
    case Other(s) => EmitJoinedText(s, rest);
    case Arr(items) => if items.Item? { EmitJoinedItems(compact, items, rest); }
    case Obj(members) => if members.Member? { EmitJoinedMembers(compact, members, rest); }
    case _ =>
  }

  lemma {:induction false} EmitJoinedItems(compact: bool, items: Items, rest: string)
    requires items.Item?
    ensures EmitItems(compact, JoinedItems(items), rest) == EmitItems(compact, items, rest)
    decreases items, 1
  {
    if items.rest.Item? {
      EmitJoinedItems(compact, items.rest, rest);
    }
    EmitJoined(compact, items.head,
               if items.rest.NoItems? then [']'] + rest else Sep(compact, ',', EmitItems(compact, items.rest, rest)));
  }

  lemma {:induction false} EmitJoinedMembers(compact: bool, m: Members, rest: string)
    requires m.Member?
    ensures EmitMembers(compact, JoinedMembers(m), rest) == EmitMembers(compact, m, rest)
    decreases m, 1
  {
    hide EmitText, Join;
    if m.tail.Member? {
      EmitJoinedMembers(compact, m.tail, rest);
    }
    var next := if m.tail.NoMembers? then ['}'] + rest else Sep(compact, ',', EmitMembers(compact, m.tail, rest));
    EmitJoined(compact, m.value, next);
    EmitJoinedText(m.key, Sep(compact, ':', Emit(compact, m.value, next)));
  }

  /** A joined string holds no split pair any more. */
  lemma {:induction false} JoinIdempotent(s: Text)
    ensures Join(Join(s)) == Join(s)
    ensures s != [] ==> Join(s) != [] && (IsLow(Join(s)[0]) <==> IsLow(s[0]))
    decreases |s|
  {
    if |s| >= 2 {
      if IsHigh(s[0]) && IsLow(s[1]) {
        JoinIdempotent(s[2..]);
        JoinFirst(Join(s));
        assert Join(s)[1..] == Join(s[2..]);
      } else {
        JoinIdempotent(s[1..]);
        assert Join(s)[1..] == Join(s[1..]);
        JoinFirst(Join(s));
      }
    }
  }

  lemma {:induction false} JoinedIdempotent(v: Json)
    ensures Joined(Joined(v)) == Joined(v)
    decreases v, 0
  {
    match v
    case Str(s) => JoinIdempotent(s);
    case Other(s) => JoinIdempotent(s);
    case Arr(items) => JoinedItemsIdempotent(items);
    case Obj(members) => JoinedMembersIdempotent(members);
    case _ =>
  }

  lemma {:induction false} JoinedItemsIdempotent(items: Items)
    ensures JoinedItems(JoinedItems(items)) == JoinedItems(items)
    decreases items, 1
  {
    if items.Item? {
      JoinedIdempotent(items.head);
      JoinedItemsIdempotent(items.rest);
    }
  }

  lemma {:induction false} JoinedMembersIdempotent(m: Members)
    ensures JoinedMembers(JoinedMembers(m)) == JoinedMembers(m)
    decreases m, 1
  {
    if m.Member? {
      JoinIdempotent(m.key);
      JoinedIdempotent(m.value);
      JoinedMembersIdempotent(m.tail);
    }
  }

  // ---- sorting

  lemma {:induction false} InsertStrict(k: Text, v: Json, m: Members)
    requires StrictMembers(m) && Strict(v) && k !in Keys(m)
    ensures StrictMembers(Insert(k, v, m))
    ensures Keys(Insert(k, v, m)) == Keys(m) + {k}
    ensures Lookup(Insert(k, v, m), k) == v
    ensures forall j :: j in Keys(m) ==> Lookup(Insert(k, v, m), j) == Lookup(m, j)
  {
    if m.Member? && !TextLt(k, m.key) {
      TextLtTotal(k, m.key);
      InsertStrict(k, v, m.tail);
    }
  }

  /** Sorting makes a `dict` strict at every level and keeps what it maps. */
  lemma {:induction false} SortIsStrict(v: Json)
    requires IsDict(v)
    ensures Strict(Sort(v))
    decreases v, 0
  {
    match v
    case Arr(items) => SortItemsIsStrict(items);
    case Obj(members) => SortMembersIsStrict(members);
    case _ =>
  }

  lemma {:induction false} SortItemsIsStrict(items: Items)
    requires IsDictItems(items)
    ensures StrictItems(SortItems(items))
    decreases items, 1
  {
    if items.Item? {
      SortIsStrict(items.head);
      SortItemsIsStrict(items.rest);
    }
  }

  lemma {:induction false} SortMembersIsStrict(m: Members)
    requires IsDictMembers(m)
    ensures StrictMembers(SortMembers(m)) && Keys(SortMembers(m)) == Keys(m)
    ensures forall k :: k in Keys(m) ==> Lookup(SortMembers(m), k) == Sort(Lookup(m, k))
    decreases m, 1
  {
    if m.Member? {
      SortIsStrict(m.value);
      SortMembersIsStrict(m.tail);
      InsertStrict(m.key, Sort(m.value), SortMembers(m.tail));
    }
  }

  lemma {:induction false} StrictHeadIsLeast(m: Members, k: Text)
    requires StrictMembers(m) && m.Member? && k in Keys(m.tail)
    ensures TextLt(m.key, k) && m.key != k
  {
    if m.tail.key != k {
      StrictHeadIsLeast(m.tail, k);
      TextLtTransitive(m.key, m.tail.key, k);
    }
    TextLtTotal(m.key, k);
  }

  /** Strict values are left alone by sorting and by `dict`. */
  lemma {:induction false} StrictIsFixed(v: Json)
    requires Strict(v)
    ensures Sort(v) == v && ToDict(v) == v
    decreases v, 0
  {
    match v
    case Arr(items) => StrictItemsAreFixed(items);
    case Obj(members) => StrictMembersAreFixed(members);
    case _ =>
  }

  lemma {:induction false} StrictItemsAreFixed(items: Items)
    requires StrictItems(items)
    ensures SortItems(items) == items && ToDictItems(items) == items
    decreases items, 1
  {
    if items.Item? {
      StrictIsFixed(items.head);
      StrictItemsAreFixed(items.rest);
    }
  }

  lemma {:induction false} StrictMembersAreFixed(m: Members)
    requires StrictMembers(m)
    ensures SortMembers(m) == m && ToDictMembers(m) == m
    decreases m, 1
  {
    if m.Member? {
      StrictIsFixed(m.value);
      StrictMembersAreFixed(m.tail);
      if m.key in Keys(m.tail) {
        StrictHeadIsLeast(m, m.key);
      }
    }
  }

  // ---- `dict`

  lemma {:induction false} WithoutDropsKey(m: Members, k: Text)
    requires IsDictMembers(m)
    ensures Keys(Without(m, k)) == Keys(m) - {k} && IsDictMembers(Without(m, k))
  {
    if m.Member? {
      WithoutDropsKey(m.tail, k);
    }
  }

  lemma {:induction false} LookupIsDict(m: Members, k: Text)
    requires IsDictMembers(m) && k in Keys(m)
    ensures IsDict(Lookup(m, k))
  {
    if m.key != k {
      LookupIsDict(m.tail, k);
    }
  }

  lemma {:induction false} ToDictIsDict(v: Json)
    ensures IsDict(ToDict(v))
    decreases v, 0
  {
    match v
    case Arr(items) => ToDictItemsAreDict(items);
    case Obj(members) => ToDictMembersAreDict(members);
    case _ =>
  }

  lemma {:induction false} ToDictItemsAreDict(items: Items)
    ensures IsDictItems(ToDictItems(items))
    decreases items, 1
  {
    if items.Item? {
      ToDictIsDict(items.head);
      ToDictItemsAreDict(items.rest);
    }
  }

  lemma {:induction false} ToDictMembersAreDict(m: Members)
    ensures IsDictMembers(ToDictMembers(m))
    decreases m, 1
  {
    if m.Member? {
      ToDictIsDict(m.value);
      ToDictMembersAreDict(m.tail);
      var tail := ToDictMembers(m.tail);
      if m.key in Keys(tail) {
        WithoutDropsKey(tail, m.key);
        LookupIsDict(tail, m.key);
      }
    }
  }

  // ---- properties of all strings and floats survive sorting and `dict`

  /** Joined and printable, at every level. */
  predicate Settled(v: Json) {
    Joined(v) == v && Printable(v)
  }

  predicate SettledMembers(m: Members) {
    JoinedMembers(m) == m && PrintableMembers(m)
  }

  predicate SettledItems(items: Items) {
    JoinedItems(items) == items && PrintableItems(items)
  }

  lemma {:induction false} InsertSettled(k: Text, v: Json, m: Members)
    requires SettledMembers(m) && Settled(v) && Join(k) == k
    ensures SettledMembers(Insert(k, v, m))
  {
    if m.Member? && !TextLt(k, m.key) {
      InsertSettled(k, v, m.tail);
    }
  }

  lemma {:induction false} SortSettled(v: Json)
    requires Settled(v)
    ensures Settled(Sort(v))
    decreases v, 0
  {
    match v
    case Arr(items) => SortItemsSettled(items);
    case Obj(members) => SortMembersSettled(members);
    case _ =>
  }

  lemma {:induction false} SortItemsSettled(items: Items)
    requires SettledItems(items)
    ensures SettledItems(SortItems(items))
    decreases items, 1
  {
    if items.Item? {
      SortSettled(items.head);
      SortItemsSettled(items.rest);
    }
  }

  lemma {:induction false} SortMembersSettled(m: Members)
    requires SettledMembers(m)
    ensures SettledMembers(SortMembers(m))
    decreases m, 1
  {
    if m.Member? {
      SortSettled(m.value);
      SortMembersSettled(m.tail);
      InsertSettled(m.key, Sort(m.value), SortMembers(m.tail));
    }
  }

  lemma {:induction false} WithoutSettled(m: Members, k: Text)
    requires SettledMembers(m)
    ensures SettledMembers(Without(m, k)) && (k in Keys(m) ==> Settled(Lookup(m, k)))
  {
    if m.Member? {
      WithoutSettled(m.tail, k);
    }
  }

  lemma {:induction false} ToDictSettled(v: Json)
    requires Settled(v)
    ensures Settled(ToDict(v))
    decreases v, 0
  {
    match v
    case Arr(items) => ToDictItemsSettled(items);
    case Obj(members) => ToDictMembersSettled(members);
    case _ =>
  }

  lemma {:induction false} ToDictItemsSettled(items: Items)
    requires SettledItems(items)
    ensures SettledItems(ToDictItems(items))
    decreases items, 1
  {
    if items.Item? {
      ToDictSettled(items.head);
      ToDictItemsSettled(items.rest);
    }
  }

  lemma {:induction false} ToDictMembersSettled(m: Members)
    requires SettledMembers(m)
    ensures SettledMembers(ToDictMembers(m))
    decreases m, 1
  {
    if m.Member? {
      ToDictSettled(m.value);
      ToDictMembersSettled(m.tail);
      WithoutSettled(ToDictMembers(m.tail), m.key);
    }
  }

  /** Sorting and joining keep every float. */
  lemma {:induction false} SortJoinPrintable(v: Json)
    requires Printable(v)
    ensures Printable(Sort(v)) && Printable(Joined(v))
    decreases v, 0
  {
    match v
    case Arr(items) => SortJoinItemsPrintable(items);
    case Obj(members) => SortJoinMembersPrintable(members);
    case _ =>
  }

  lemma {:induction false} SortJoinItemsPrintable(items: Items)
    requires PrintableItems(items)
    ensures PrintableItems(SortItems(items)) && PrintableItems(JoinedItems(items))
    decreases items, 1
  {
    if items.Item? {
      SortJoinPrintable(items.head);
      SortJoinItemsPrintable(items.rest);
    }
  }

  lemma {:induction false} SortJoinMembersPrintable(m: Members)
    requires PrintableMembers(m)
    ensures PrintableMembers(SortMembers(m)) && PrintableMembers(JoinedMembers(m))
    decreases m, 1
  {
    if m.Member? {
      SortJoinPrintable(m.value);
      SortJoinMembersPrintable(m.tail);
      InsertPrintable(m.key, Sort(m.value), SortMembers(m.tail));
    }
  }

  lemma {:induction false} InsertPrintable(k: Text, v: Json, m: Members)
    requires PrintableMembers(m) && Printable(v)
    ensures PrintableMembers(Insert(k, v, m))
  {
    if m.Member? && !TextLt(k, m.key) {
      InsertPrintable(k, v, m.tail);
    }
  }

  /** Whatever parses carries well-formed floats. */
  lemma {:induction false} ParsedIsPrintable(s: string)
    ensures ParseValue(s).Some? ==> Printable(ParseValue(s).value.0)
    decreases |s|, 0
  {
    hide ParseText, NumSpan, IsIntText, IsFloatText;
    if s != "" && s[0] == '[' {
      ParsedItemsArePrintable(SkipWs(s[1..]));
    } else if s != "" && s[0] == '{' {
      ParsedMembersArePrintable(SkipWs(s[1..]));
    }
  }

  lemma {:induction false} ParsedItemsArePrintable(s: string)
    ensures ParseItems(s).Some? ==> PrintableItems(ParseItems(s).value.0)
    decreases |s|, 1
  {
    hide ParseValue;
    ParsedIsPrintable(s);
    if ParseValue(s).Some? {
      var next := SkipWs(ParseValue(s).value.1);
      if next != "" && next[0] == ',' {
        ParsedItemsArePrintable(SkipWs(next[1..]));
      }
    }
  }

  lemma {:induction false} ParsedMembersArePrintable(s: string)
    ensures ParseMembers(s).Some? ==> PrintableMembers(ParseMembers(s).value.0)
    decreases |s|, 1
  {
    hide ParseValue, ParseText;
    if s != "" && s[0] == '\"' && ParseText(s[1..]).Some? {
      var colon := SkipWs(ParseText(s[1..]).value.1);
      if colon != "" && colon[0] == ':' {
        var rest := SkipWs(colon[1..]);
        ParsedIsPrintable(rest);
        if ParseValue(rest).Some? {
          var next := SkipWs(ParseValue(rest).value.1);
          if next != "" && next[0] == ',' {
            ParsedMembersArePrintable(SkipWs(next[1..]));
          }
        }
      }
    }
  }

  lemma {:induction false} WithoutPrintable(m: Members, k: Text)
    requires PrintableMembers(m)
    ensures PrintableMembers(Without(m, k)) && (k in Keys(m) ==> Printable(Lookup(m, k)))
  {
    if m.Member? {
      WithoutPrintable(m.tail, k);
    }
  }

  lemma {:induction false} ToDictPrintable(v: Json)
    requires Printable(v)
    ensures Printable(ToDict(v))
    decreases v, 0
  {
    match v
    case Arr(items) => ToDictItemsPrintable(items);
    case Obj(members) => ToDictMembersPrintable(members);
    case _ =>
  }

  lemma {:induction false} ToDictItemsPrintable(items: Items)
    requires PrintableItems(items)
    ensures PrintableItems(ToDictItems(items))
    decreases items, 1
  {
    if items.Item? {
      ToDictPrintable(items.head);
      ToDictItemsPrintable(items.rest);
    }
  }

  lemma {:induction false} ToDictMembersPrintable(m: Members)
    requires PrintableMembers(m)
    ensures PrintableMembers(ToDictMembers(m))
    decreases m, 1
  {
    if m.Member? {
      ToDictPrintable(m.value);
      ToDictMembersPrintable(m.tail);
      WithoutPrintable(ToDictMembers(m.tail), m.key);
    }
  }

  lemma {:induction false} LoadedIsPrintable(s: string)
    requires Loads(s).Some?
    ensures Printable(Loads(s).value)
  {
    hide ParseValue, ToDict, Printable;
    ParsedIsPrintable(SkipWs(s));
    ToDictPrintable(ParseDocument(s).value);
  }

  // ---- the results

  /** What a reader of the printed text sees. */
  function Seen(v: Json): Json {
    Joined(Sort(v))
  }

  /** The printed text is one document, and its value is `Seen(v)` with repeated keys merged. */
  lemma {:induction false} LoadsOfDumps(compact: bool, v: Json)
    requires Printable(v)
    ensures ParseDocument(Dumps(compact, v)) == Some(Seen(v))
    ensures Loads(Dumps(compact, v)) == Some(ToDict(Seen(v)))
  {
    SortJoinPrintable(v);
    EmitStarts(compact, Sort(v), "");
    ParseEmitted(compact, Sort(v), "");
  }

  /**
   `dumps(loads(dumps(p))) == dumps(p)` holds exactly when the keys of every
   object, with split surrogate pairs joined, are still strictly increasing
   in the order they were printed in. Otherwise `verify_chain` reports an
   honestly appended row as corrupt.
   */
  lemma {:induction false} RedumpRepeatsIffStrict(compact: bool, p: Json)
    requires IsDict(p) && Printable(p)
    ensures Loads(Dumps(compact, p)).Some?
    ensures Dumps(compact, Loads(Dumps(compact, p)).value) == Dumps(compact, p) <==> Strict(Seen(p))
  {
    hide Emit, ParseDocument, Strict, ToDict, Joined, Sort, IsDict, Printable;
    var seen := Seen(p);
    var q := ToDict(seen);
    LoadsOfDumps(compact, p);
    SortJoinPrintable(p);
    SortJoinPrintable(Sort(p));
    JoinedIdempotent(Sort(p));
    ToDictSettled(seen);
    SortSettled(q);
    if Strict(seen) {
      StrictIsFixed(seen);
      EmitJoined(compact, Sort(p), "");
    }
    if Dumps(compact, q) == Dumps(compact, p) {
      LoadsOfDumps(compact, q);
      ToDictIsDict(seen);
      SortIsStrict(q);
    }
  }

  /** Two payloads print alike exactly when a reader sees the same value, so different payloads print differently. */
  lemma {:induction false} SameTextIffSameSeen(compact: bool, p: Json, q: Json)
    requires Printable(p) && Printable(q)
    ensures Dumps(compact, p) == Dumps(compact, q) <==> Seen(p) == Seen(q)
  {
    hide Emit, ParseDocument, Joined, Sort, Printable;
    LoadsOfDumps(compact, p);
    LoadsOfDumps(compact, q);
    EmitJoined(compact, Sort(p), "");
    EmitJoined(compact, Sort(q), "");
  }

  // ---- insertion order

  /** `q` has the members of `p`, inserted in any order, at every level. */
  predicate Reordered(p: Json, q: Json) {
    match p
    case Arr(items) => q.Arr? && ReorderedItems(items, q.items)
    case Obj(members) => q.Obj? && Keys(members) == Keys(q.members) && ReorderedMembers(members, q.members)
    case _ => p == q
  }

  predicate ReorderedItems(p: Items, q: Items) {
    if p.NoItems? then q.NoItems? else q.Item? && Reordered(p.head, q.head) && ReorderedItems(p.rest, q.rest)
  }

  predicate ReorderedMembers(m: Members, n: Members) {
    m.NoMembers? || (m.key in Keys(n) && Reordered(m.value, Lookup(n, m.key)) && ReorderedMembers(m.tail, n))
  }

  /** A strict member list is determined by what it maps. */
  lemma {:induction false} StrictExtensional(m: Members, n: Members)
    requires StrictMembers(m) && StrictMembers(n) && Keys(m) == Keys(n)
    requires forall k :: k in Keys(m) ==> Lookup(m, k) == Lookup(n, k)
    ensures m == n
  {
    if m.Member? {
      assert m.key in Keys(n);
      assert n.Member? && n.key in Keys(m);
      if m.key != n.key {
        StrictHeadIsLeast(m, n.key);
        StrictHeadIsLeast(n, m.key);
        TextLtTotal(m.key, n.key);
      }
      assert m.key !in Keys(m.tail) by {
        if m.key in Keys(m.tail) { StrictHeadIsLeast(m, m.key); }
      }
      assert n.key !in Keys(n.tail) by {
        if n.key in Keys(n.tail) { StrictHeadIsLeast(n, n.key); }
      }
      assert Keys(m.tail) == Keys(m) - {m.key} == Keys(n.tail);
      forall k | k in Keys(m.tail) ensures Lookup(m.tail, k) == Lookup(n.tail, k) {
        assert Lookup(m, k) == Lookup(n, k);
      }
      StrictExtensional(m.tail, n.tail);
      assert Lookup(m, m.key) == Lookup(n, m.key);
    }
  }

  /** Insertion order never reaches the text. */
  lemma {:induction false} InsertionOrderIsInvisible(compact: bool, p: Json, q: Json)
    requires IsDict(p) && IsDict(q) && Reordered(p, q)
    ensures Dumps(compact, p) == Dumps(compact, q)
  {
    ReorderedSortAlike(p, q);
  }

  lemma {:induction false} ReorderedSortAlike(p: Json, q: Json)
    requires IsDict(p) && IsDict(q) && Reordered(p, q)
    ensures Sort(p) == Sort(q)
    decreases p, 0
  {
    match p
    case Arr(items) => ReorderedItemsSortAlike(items, q.items);
    case Obj(m) =>
      var n := q.members;
      SortMembersIsStrict(m);
      SortMembersIsStrict(n);
      forall k | k in Keys(m) ensures Lookup(SortMembers(m), k) == Lookup(SortMembers(n), k) {
        ReorderedMembersSortAlike(m, n, k);
      }
      StrictExtensional(SortMembers(m), SortMembers(n));
    case _ =>
  }

  lemma {:induction false} ReorderedItemsSortAlike(p: Items, q: Items)
    requires IsDictItems(p) && IsDictItems(q) && ReorderedItems(p, q)
    ensures SortItems(p) == SortItems(q)
    decreases p, 1
  {
    if p.Item? {
      ReorderedSortAlike(p.head, q.head);
      ReorderedItemsSortAlike(p.rest, q.rest);
    }
  }

  lemma {:induction false} ReorderedMembersSortAlike(m: Members, n: Members, k: Text)
    requires IsDictMembers(m) && IsDictMembers(n) && ReorderedMembers(m, n)
    requires k in Keys(m) && k in Keys(n)
    ensures Sort(Lookup(m, k)) == Sort(Lookup(n, k))
    decreases m, 1
  {
    if m.key == k {
      LookupIsDict(n, k);
      ReorderedSortAlike(m.value, Lookup(n, k));
    } else {
      ReorderedMembersSortAlike(m.tail, n, k);
    }
  }

  // ---- a condition to check before the call

  /** No key contains a high surrogate directly before a low one. */
  predicate PlainKeys(v: Json) {
    match v
    case Arr(items) => PlainKeysItems(items)
    case Obj(members) => PlainKeysMembers(members)
    case _ => true
  }

  predicate PlainKeysItems(items: Items) {
    items.NoItems? || (PlainKeys(items.head) && PlainKeysItems(items.rest))
  }

  predicate PlainKeysMembers(m: Members) {
    m.NoMembers? || (Join(m.key) == m.key && PlainKeys(m.value) && PlainKeysMembers(m.tail))
  }

  lemma {:induction false} PlainStrictJoins(v: Json)
    requires Strict(v) && PlainKeys(v)
    ensures Strict(Joined(v))
    decreases v, 0
  {
    match v
    case Arr(items) => PlainStrictItemsJoin(items);
    case Obj(members) => PlainStrictMembersJoin(members);
    case _ =>
  }

  lemma {:induction false} PlainStrictItemsJoin(items: Items)
    requires StrictItems(items) && PlainKeysItems(items)
    ensures StrictItems(JoinedItems(items))
    decreases items, 1
  {
    if items.Item? {
      PlainStrictJoins(items.head);
      PlainStrictItemsJoin(items.rest);
    }
  }

  lemma {:induction false} PlainStrictMembersJoin(m: Members)
    requires StrictMembers(m) && PlainKeysMembers(m)
    ensures StrictMembers(JoinedMembers(m))
    decreases m, 1
  {
    if m.Member? {
      PlainStrictJoins(m.value);
      PlainStrictMembersJoin(m.tail);
    }
  }

  lemma {:induction false} SortPlain(v: Json)
    requires PlainKeys(v)
    ensures PlainKeys(Sort(v))
    decreases v, 0
  {
    match v
    case Arr(items) => SortItemsPlain(items);
    case Obj(members) => SortMembersPlain(members);
    case _ =>
  }

  lemma {:induction false} SortItemsPlain(items: Items)
    requires PlainKeysItems(items)
    ensures PlainKeysItems(SortItems(items))
    decreases items, 1
  {
    if items.Item? {
      SortPlain(items.head);
      SortItemsPlain(items.rest);
    }
  }

  lemma {:induction false} SortMembersPlain(m: Members)
    requires PlainKeysMembers(m)
    ensures PlainKeysMembers(SortMembers(m))
    decreases m, 1
  {
    if m.Member? {
      SortPlain(m.value);
      SortMembersPlain(m.tail);
      InsertPlain(m.key, Sort(m.value), SortMembers(m.tail));
    }
  }

  lemma {:induction false} InsertPlain(k: Text, v: Json, m: Members)
    requires PlainKeysMembers(m) && PlainKeys(v) && Join(k) == k
    ensures PlainKeysMembers(Insert(k, v, m))
  {
    if m.Member? && !TextLt(k, m.key) {
      InsertPlain(k, v, m.tail);
    }
  }

  /** Payloads without split pairs in their keys, which is all the payloads of the system, always dump back alike. */
  lemma {:induction false} PlainKeysRedump(compact: bool, p: Json)
    requires IsDict(p) && Printable(p) && PlainKeys(p)
    ensures Loads(Dumps(compact, p)).Some?
    ensures Dumps(compact, Loads(Dumps(compact, p)).value) == Dumps(compact, p)
  {
    SortIsStrict(p);
    SortPlain(p);
    PlainStrictJoins(Sort(p));
    RedumpRepeatsIffStrict(compact, p);
  }

  /** And a payload that does not: its two keys change places when the first is joined. */
  lemma {:induction false} SplitKeyDoesNotRedump(compact: bool, p: Json)
    requires p == Obj(Member([0xD83D, 0xDE00], Null, Member([0xE000], Null, NoMembers)))
    ensures IsDict(p) && Printable(p)
    ensures Loads(Dumps(compact, p)).Some?
    ensures Dumps(compact, Loads(Dumps(compact, p)).value) != Dumps(compact, p)
  {
    hide Dumps, Loads;
    RedumpRepeatsIffStrict(compact, p);
    var first: Text, second: Text := [0xD83D, 0xDE00], [0xE000];
    assert TextLt(first, second);
    assert Sort(p) == p;
    assert Join(first) == [0x1F600];
    assert Join(second) == second;
    assert !TextLt([0x1F600], second);
  }
}
