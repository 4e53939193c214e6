/**
 The canonical print that every hash is taken of: members sorted by key, no
 insignificant whitespace, one spelling per string.  It is a normal form of values
 up to member order, and the strict parser reads it back.
 */
module CanonicalJson {
  import opened JsonText
  import opened JsonParser
  import opened JsonParserProofs
  import opened JsonTree

  // ----- Values up to member order -----

  ghost predicate UniqueKeys(members: seq<Member>) {
    forall i, k :: 0 <= i < k < |members| ==> members[i].key != members[k].key
  }

  // What JSON.parse and JSON.stringify handle: distinct keys in each object, numbers that are JSON numbers.
  ghost predicate Proper(j: Json) {
    match j
    case Num(lexeme) => ValidNumber(lexeme)
    case Arr(items) => forall i :: 0 <= i < |items| ==> Proper(items[i])
    case Obj(members) => UniqueKeys(members) && forall i :: 0 <= i < |members| ==> Proper(members[i].value)
    case _ => true
  }

  ghost function Keys(members: seq<Member>): set<Text> {
    set m | m in members :: m.key
  }

  // Equal up to the order of members, at every depth.
  ghost predicate Equivalent(a: Json, b: Json) {
    match (a, b)
    case (Arr(xs), Arr(ys)) => |xs| == |ys| && forall i :: 0 <= i < |xs| ==> Equivalent(xs[i], ys[i])
    case (Obj(xs), Obj(ys)) =>
      && Keys(xs) == Keys(ys)
      && forall i, k :: 0 <= i < |xs| && 0 <= k < |ys| && xs[i].key == ys[k].key ==> Equivalent(xs[i].value, ys[k].value)
    case (_, _) => a == b
  }

  // ----- Key order and sorting -----

  type Order = (Text, Text) -> bool

  ghost predicate StrictTotal(less: Order) {
    && (forall a, b :: less(a, b) ==> !less(b, a))
    && (forall a, b :: a != b ==> less(a, b) || less(b, a))
    && (forall a, b, c :: less(a, b) && less(b, c) ==> less(a, c))
  }

  ghost predicate Sorted(members: seq<Member>, less: Order) {
    forall i, k :: 0 <= i < k < |members| ==> less(members[i].key, members[k].key)
  }

  function Insert(m: Member, sorted: seq<Member>, less: Order): seq<Member> {
    if sorted == [] || less(m.key, sorted[0].key) then [m] + sorted
    else [sorted[0]] + Insert(m, sorted[1..], less)
  }

  function Sort(members: seq<Member>, less: Order): seq<Member> {
    if members == [] then [] else Insert(members[0], Sort(members[1..], less), less)
  }

  lemma {:induction false} InsertKeeps(m: Member, sorted: seq<Member>, less: Order)
    requires StrictTotal(less) && Sorted(sorted, less) && m.key !in Keys(sorted)
    ensures var r := Insert(m, sorted, less); Sorted(r, less) && (forall x :: x in r <==> x == m || x in sorted)
  {
    hide StrictTotal, Sorted;
    if sorted == [] {
      SortedCons(m, [], less);
    } else if less(m.key, sorted[0].key) {
      AllAfter(m, sorted, less);
      SortedCons(m, sorted, less);
    } else {
      SortedRest(sorted, less);
      assert forall x :: x in sorted <==> x == sorted[0] || x in sorted[1..];
      InsertKeeps(m, sorted[1..], less);
      FirstBefore(m, sorted, less);
      SortedCons(sorted[0], Insert(m, sorted[1..], less), less);
    }
  }

  lemma SortedCons(m: Member, rest: seq<Member>, less: Order)
    requires Sorted(rest, less) && forall k :: 0 <= k < |rest| ==> less(m.key, rest[k].key)
    ensures Sorted([m] + rest, less)
  {
  }

  lemma SortedRest(sorted: seq<Member>, less: Order)
    requires Sorted(sorted, less) && sorted != []
    ensures Sorted(sorted[1..], less) && forall k :: 1 <= k < |sorted| ==> less(sorted[0].key, sorted[k].key)
  {
  }

  lemma AllAfter(m: Member, sorted: seq<Member>, less: Order)
    requires StrictTotal(less) && Sorted(sorted, less) && sorted != [] && less(m.key, sorted[0].key)
    ensures forall k :: 0 <= k < |sorted| ==> less(m.key, sorted[k].key)
  {
    SortedRest(sorted, less);
    hide Sorted;
    forall k | 1 <= k < |sorted| ensures less(m.key, sorted[k].key) {
      assert less(sorted[0].key, sorted[k].key);
    }
  }

  lemma FirstBefore(m: Member, sorted: seq<Member>, less: Order)
    requires StrictTotal(less) && Sorted(sorted, less) && sorted != [] && m.key !in Keys(sorted) && !less(m.key, sorted[0].key)
    requires forall x :: x in Insert(m, sorted[1..], less) <==> x == m || x in sorted[1..]
    ensures var rest := Insert(m, sorted[1..], less); forall k :: 0 <= k < |rest| ==> less(sorted[0].key, rest[k].key)
  {
    hide Sorted, Insert;
    SortedRest(sorted, less);
    assert sorted[0] in sorted && m.key != sorted[0].key;
    var rest := Insert(m, sorted[1..], less);
    forall k | 0 <= k < |rest| ensures less(sorted[0].key, rest[k].key) {
      assert rest[k] in rest;
      if rest[k] != m {
        var i :| 0 <= i < |sorted[1..]| && sorted[1..][i] == rest[k];
        assert sorted[i + 1] == rest[k];
      }
    }
  }

  lemma {:induction false} SortKeeps(members: seq<Member>, less: Order)
    requires StrictTotal(less) && UniqueKeys(members)
    ensures var r := Sort(members, less); Sorted(r, less) && (forall x :: x in r <==> x in members)
  {
    if members != [] {
      SortKeeps(members[1..], less);
      forall x | x in members[1..] ensures x.key != members[0].key {
        var k :| 0 <= k < |members[1..]| && members[1..][k] == x;
        assert members[k + 1] == x;
      }
      InsertKeeps(members[0], Sort(members[1..], less), less);
      assert members == [members[0]] + members[1..];
    }
  }

  lemma HasElement(xs: seq<Member>)
    requires xs != []
    ensures exists x :: x in xs
  {
    assert xs[0] in xs;
  }

  // A strictly sorted sequence is determined by the set of its elements.
  lemma {:induction false} SortedUnique(xs: seq<Member>, ys: seq<Member>, less: Order)
    requires StrictTotal(less) && Sorted(xs, less) && Sorted(ys, less) && forall x :: x in xs <==> x in ys
    ensures xs == ys
  {
    if xs == [] {
      if ys != [] { HasElement(ys); }
    } else {
      assert xs[0] in ys && (ys != [] ==> ys[0] in xs);
      var k :| 0 <= k < |ys| && ys[k] == xs[0];
      var i :| 0 <= i < |xs| && xs[i] == ys[0];
      assert k == 0;
      forall x ensures x in xs[1..] <==> x in ys[1..] {
        RestOf(xs, less, x);
        RestOf(ys, less, x);
      }
      SortedUnique(xs[1..], ys[1..], less);
    }
  }

  lemma RestOf(xs: seq<Member>, less: Order, x: Member)
    requires xs != [] && StrictTotal(less) && Sorted(xs, less)
    ensures x in xs[1..] <==> x in xs && x != xs[0]
  {
    if x in xs && x != xs[0] {
      var k :| 0 <= k < |xs| && xs[k] == x;
      assert xs[1..][k - 1] == x;
    }
    if x in xs[1..] {
      var k :| 0 <= k < |xs[1..]| && xs[1..][k] == x;
      assert xs[k + 1] == x && less(xs[0].key, xs[k + 1].key);
    }
  }

  // ----- stable -----

  function Stable(j: Json, less: Order): Json {
    match j
    case Arr(items) => Arr(seq(|items|, i requires 0 <= i < |items| => Stable(items[i], less)))
    case Obj(members) => Obj(Sort(StableMembers(members, less), less))
    case _ => j
  }

  function StableMembers(members: seq<Member>, less: Order): (r: seq<Member>)
    ensures |r| == |members|
    ensures forall i :: 0 <= i < |r| ==> r[i] == Member(members[i].key, Stable(members[i].value, less))
  {
    seq(|members|, i requires 0 <= i < |members| => Member(members[i].key, Stable(members[i].value, less)))
  }

  lemma StableMembersSorted(members: seq<Member>, less: Order)
    requires StrictTotal(less) && UniqueKeys(members)
    ensures var ss := StableMembers(members, less); UniqueKeys(ss) && Keys(ss) == Keys(members)
    ensures var ss := StableMembers(members, less); Sorted(Sort(ss, less), less) && forall x :: x in Sort(ss, less) <==> x in ss
    ensures UniqueKeys(Sort(StableMembers(members, less), less))
  {
    var ss := StableMembers(members, less);
    SortKeeps(ss, less);
    forall k | k in Keys(members) ensures k in Keys(ss) {
      var m :| m in members && m.key == k;
      var i :| 0 <= i < |members| && members[i] == m;
      assert ss[i] in ss;
    }
    forall k | k in Keys(ss) ensures k in Keys(members) {
      var s :| s in ss && s.key == k;
      var i :| 0 <= i < |ss| && ss[i] == s;
      assert members[i] in members;
    }
  }

  lemma {:induction false} StableProper(j: Json, less: Order)
    requires StrictTotal(less) && Proper(j)
    ensures Proper(Stable(j, less))
  {
    match j
    case Arr(items) =>
      forall i | 0 <= i < |items| ensures Proper(Stable(items[i], less)) {
        StableProper(items[i], less);
      }
    case Obj(members) =>
      StableMembersSorted(members, less);
      var ss := StableMembers(members, less);
      forall i | 0 <= i < |members| ensures Proper(ss[i].value) {
        StableProper(members[i].value, less);
      }
      var sorted := Sort(ss, less);
      forall i | 0 <= i < |sorted| ensures Proper(sorted[i].value) {
        assert sorted[i] in ss;
      }
    case _ =>
  }

  // Sorting the members of a value, at every depth, gives an equivalent value.
  lemma {:induction false} StableEquivalent(j: Json, less: Order)
    requires StrictTotal(less) && Proper(j)
    ensures Equivalent(j, Stable(j, less))
  {
    match j
    case Arr(items) =>
      forall i | 0 <= i < |items| ensures Equivalent(items[i], Stable(items[i], less)) {
        StableEquivalent(items[i], less);
      }
    case Obj(members) =>
      StableMembersSorted(members, less);
      var ss := StableMembers(members, less);
      var sorted := Sort(ss, less);
      assert Keys(sorted) == Keys(ss);
      forall i, k | 0 <= i < |members| && 0 <= k < |sorted| && members[i].key == sorted[k].key
        ensures Equivalent(members[i].value, sorted[k].value)
      {
        assert sorted[k] in ss;
        var p :| 0 <= p < |ss| && ss[p] == sorted[k];
        assert p == i;
        StableEquivalent(members[i].value, less);
      }
    case _ =>
  }

  // Values equal up to member order have the same stable form, and only they do.
  lemma {:induction false} StableDecides(a: Json, b: Json, less: Order)
    requires StrictTotal(less) && Proper(a) && Proper(b)
    ensures Stable(a, less) == Stable(b, less) <==> Equivalent(a, b)
  {
    match (a, b)
    case (Arr(xs), Arr(ys)) =>
      var ps, qs := Stable(a, less).items, Stable(b, less).items;
      if |xs| == |ys| {
        forall i | 0 <= i < |xs| ensures ps[i] == qs[i] <==> Equivalent(xs[i], ys[i]) {
          StableDecides(xs[i], ys[i], less);
        }
        assert ps == qs <==> forall i :: 0 <= i < |xs| ==> ps[i] == qs[i];
      }
    case (Obj(xs), Obj(ys)) =>
      forall i, k | 0 <= i < |xs| && 0 <= k < |ys|
        ensures Stable(xs[i].value, less) == Stable(ys[k].value, less) <==> Equivalent(xs[i].value, ys[k].value)
      {
        StableDecides(xs[i].value, ys[k].value, less);
      }
      StableMembersSorted(xs, less);
      StableMembersSorted(ys, less);
      if Stable(a, less) == Stable(b, less) {
        EqualSorts(xs, ys, less);
      }
      if Equivalent(a, b) {
        SameMembers(xs, ys, less);
        SameMembers(ys, xs, less);
        SortedUnique(Sort(StableMembers(xs, less), less), Sort(StableMembers(ys, less), less), less);
      }
    case (_, _) =>
  }

  lemma EqualSorts(xs: seq<Member>, ys: seq<Member>, less: Order)
    requires StrictTotal(less) && UniqueKeys(xs) && UniqueKeys(ys)
    requires Sort(StableMembers(xs, less), less) == Sort(StableMembers(ys, less), less)
    ensures Keys(xs) == Keys(ys)
    ensures forall i, k :: 0 <= i < |xs| && 0 <= k < |ys| && xs[i].key == ys[k].key ==> Stable(xs[i].value, less) == Stable(ys[k].value, less)
  {
    hide Sort, Stable;
    StableMembersSorted(xs, less);
    StableMembersSorted(ys, less);
    var ps, qs := StableMembers(xs, less), StableMembers(ys, less);
    SameElements(ps, qs);
  }

  lemma SameElements(ps: seq<Member>, qs: seq<Member>)
    requires UniqueKeys(qs) && forall x :: x in ps <==> x in qs
    ensures Keys(ps) == Keys(qs)
    ensures forall i, k :: 0 <= i < |ps| && 0 <= k < |qs| && ps[i].key == qs[k].key ==> ps[i].value == qs[k].value
  {
    forall i, k | 0 <= i < |ps| && 0 <= k < |qs| && ps[i].key == qs[k].key ensures ps[i].value == qs[k].value {
      assert ps[i] in qs;
      var p :| 0 <= p < |qs| && qs[p] == ps[i];
      assert p == k;
    }
  }

  lemma SameMembers(xs: seq<Member>, ys: seq<Member>, less: Order)
    requires Keys(xs) <= Keys(ys)
    requires forall i, k :: 0 <= i < |xs| && 0 <= k < |ys| && xs[i].key == ys[k].key ==> Stable(xs[i].value, less) == Stable(ys[k].value, less)
    ensures forall x :: x in StableMembers(xs, less) ==> x in StableMembers(ys, less)
  {
    var ps, qs := StableMembers(xs, less), StableMembers(ys, less);
    forall x | x in ps ensures x in qs {
      var i :| 0 <= i < |ps| && ps[i] == x;
      assert xs[i] in xs && xs[i].key in Keys(ys);
      var m :| m in ys && m.key == xs[i].key;
      var k :| 0 <= k < |ys| && ys[k] == m;
      assert qs[k] == x;
    }
  }

  // ----- JSON.stringify -----

  predicate IsHigh(u: CodeUnit) {
    0xD800 <= u <= 0xDBFF
  }

  predicate IsLow(u: CodeUnit) {
    0xDC00 <= u <= 0xDFFF
  }

  function HexDigit(v: nat): CodeUnit
    requires v < 16
  {
    if v < 10 then 0x30 + v else 0x57 + v
  }

  function Escape(u: CodeUnit): StrChar {
    Hex(HexDigit(u / 4096), HexDigit(u / 256 % 16), HexDigit(u / 16 % 16), HexDigit(u % 16))
  }

  function EncodeUnit(u: CodeUnit): StrChar {
    if u == QUOTE || u == BACKSLASH then Short(u)
    else if u == 0x08 then Short(0x62)
    else if u == 0x0C then Short(0x66)
    else if u == 0x0A then Short(0x6E)
    else if u == 0x0D then Short(0x72)
    else if u == 0x09 then Short(0x74)
    else if u < 0x20 || IsHigh(u) || IsLow(u) then Escape(u)
    else Plain(u)
  }

  // Paired surrogates are printed as they are; lone ones are escaped.
  function Encode(t: Text): seq<StrChar> {
    if t == [] then []
    else if |t| > 1 && IsHigh(t[0]) && IsLow(t[1]) then [Plain(t[0]), Plain(t[1])] + Encode(t[2..])
    else [EncodeUnit(t[0])] + Encode(t[1..])
  }

  lemma EncodeUnitDecodes(u: CodeUnit)
    ensures ValidChar(EncodeUnit(u)) && DecodeChar(EncodeUnit(u)) == u
  {
    EscapeDecodes(u);
    hide Escape;
  }

  lemma HexDigitDecodes(v: nat)
    requires v < 16
    ensures IsHex(HexDigit(v)) && HexValue(HexDigit(v)) == v
  {
  }

  lemma EscapeDecodes(u: CodeUnit)
    ensures ValidChar(Escape(u)) && DecodeChar(Escape(u)) == u
  {
    hide HexDigit, HexValue, IsHex;
    HexDigitDecodes(u / 4096);
    HexDigitDecodes(u / 256 % 16);
    HexDigitDecodes(u / 16 % 16);
    HexDigitDecodes(u % 16);
    assert u / 256 / 16 == u / 4096 && u / 16 / 16 == u / 256;
  }

  lemma DecodeAppend(cs: seq<StrChar>, ds: seq<StrChar>)
    requires ValidChars(cs) && ValidChars(ds)
    ensures ValidChars(cs + ds) && Decode(cs + ds) == Decode(cs) + Decode(ds)
  {
    if cs == [] {
      assert cs + ds == ds;
    } else {
      DecodeAppend(cs[1..], ds);
      assert (cs + ds)[1..] == cs[1..] + ds;
    }
  }

  lemma {:induction false} EncodeDecodes(t: Text)
    ensures ValidChars(Encode(t)) && Decode(Encode(t)) == t
  {
    if t == [] {
    } else if |t| > 1 && IsHigh(t[0]) && IsLow(t[1]) {
      EncodeDecodes(t[2..]);
      DecodeAppend([Plain(t[0]), Plain(t[1])], Encode(t[2..]));
      assert Decode([Plain(t[0]), Plain(t[1])]) == [t[0], t[1]] by { assert [Plain(t[0]), Plain(t[1])][1..] == [Plain(t[1])]; }
      assert t == [t[0], t[1]] + t[2..];
    } else {
      EncodeDecodes(t[1..]);
      EncodeUnitDecodes(t[0]);
      DecodeAppend([EncodeUnit(t[0])], Encode(t[1..]));
      assert t == [t[0]] + t[1..];
    }
  }

  // The tree JSON.stringify prints a value from.
  function ToValue(j: Json): Value {
    match j
    case Null => NullLit
    case Bool(b) => if b then TrueLit else FalseLit
    case Num(lexeme) => Number(lexeme)
    case Str(text) => String(Encode(text))
    case Arr(items) => if items == [] then EmptyArray([]) else Array(ToItems(items))
    case Obj(members) => if members == [] then EmptyObject([]) else Object(ToMembers(members))
  }

  function ToItems(items: seq<Json>): Items
    requires items != []
  {
    if |items| == 1 then LastItem([], ToValue(items[0]), []) else NextItem([], ToValue(items[0]), [], ToItems(items[1..]))
  }

  function ToMembers(members: seq<Member>): Members
    requires members != []
  {
    var entry := Entry([], Encode(members[0].key), [], [], ToValue(members[0].value));
    if |members| == 1 then LastMember(entry, []) else NextMember(entry, [], ToMembers(members[1..]))
  }

  lemma {:induction false} ToValueDenotes(j: Json)
    requires Proper(j)
    ensures Valid(ToValue(j)) && UniqueNames(ToValue(j)) && Denote(ToValue(j)) == j
  {
    match j
    case Str(text) => EncodeDecodes(text);
    case Arr(items) => if items != [] { ToItemsDenotes(items); }
    case Obj(members) => if members != [] { ToMembersDenotes(members); }
    case _ =>
  }

  lemma {:induction false} ToItemsDenotes(items: seq<Json>)
    requires items != [] && forall i :: 0 <= i < |items| ==> Proper(items[i])
    ensures ValidItems(ToItems(items)) && ItemsUnique(ToItems(items)) && DenoteItems(ToItems(items)) == items
  {
    hide ToValue, Valid, UniqueNames, Denote, Proper;
    ToValueDenotes(items[0]);
    if |items| > 1 {
      ToItemsDenotes(items[1..]);
      assert items == [items[0]] + items[1..];
    }
  }

  ghost predicate Says(ms: Members, members: seq<Member>) {
    && ValidMembers(ms) && MembersUnique(ms) && DenoteMembers(ms) == members
    && |Names(ms)| == |members| && forall i :: 0 <= i < |members| ==> Names(ms)[i] == members[i].key
  }

  lemma EntrySays(m: Member, entry: Entry)
    requires entry == Entry([], Encode(m.key), [], [], ToValue(m.value)) && ValidChars(Encode(m.key)) && Decode(Encode(m.key)) == m.key
    requires Valid(ToValue(m.value)) && UniqueNames(ToValue(m.value)) && Denote(ToValue(m.value)) == m.value
    ensures Says(LastMember(entry, []), [m])
  {
    hide ToValue, Encode, Valid, UniqueNames, Denote, Decode, ValidChars;
    var ms := LastMember(entry, []);
    assert ValidEntry(entry) && ValidMembers(ms);
    assert Names(ms) == [m.key];
    assert DenoteMembers(ms) == [Member(m.key, m.value)];
  }

  lemma MembersSay(m: Member, entry: Entry, rest: Members, members: seq<Member>)
    requires Says(LastMember(entry, []), [m]) && Says(rest, members)
    ensures Says(NextMember(entry, [], rest), [m] + members)
  {
    hide Valid, UniqueNames, Denote, Decode, ValidChars;
    var ms := NextMember(entry, [], rest);
    assert Names(LastMember(entry, []))[0] == m.key;
    assert Names(ms) == [m.key] + Names(rest);
    assert DenoteMembers(LastMember(entry, [])) == [m];
    assert DenoteMembers(ms) == [m] + members;
  }

  lemma {:induction false} ToMembersDenotes(members: seq<Member>)
    requires members != [] && UniqueKeys(members) && forall i :: 0 <= i < |members| ==> Proper(members[i].value)
    ensures Says(ToMembers(members), members) && Distinct(Names(ToMembers(members)))
  {
    hide ToValue, Encode, Valid, UniqueNames, Denote, Proper, Distinct, Decode, ValidChars, Says;
    var ms := ToMembers(members);
    ToValueDenotes(members[0].value);
    EncodeDecodes(members[0].key);
    EntrySays(members[0], ms.entry);
    if |members| > 1 {
      ToMembersDenotes(members[1..]);
      assert members == [members[0]] + members[1..];
      MembersSay(members[0], ms.entry, ms.rest, members[1..]);
    } else {
      assert members == [members[0]];
    }
    SaysNames(ms, members);
    NamesDistinct(members, Names(ms));
  }

  lemma SaysNames(ms: Members, members: seq<Member>)
    requires Says(ms, members)
    ensures ValidMembers(ms) && |Names(ms)| == |members| && forall i :: 0 <= i < |members| ==> Names(ms)[i] == members[i].key
  {
  }

  lemma NamesDistinct(members: seq<Member>, names: seq<Text>)
    requires UniqueKeys(members) && |names| == |members| && forall i :: 0 <= i < |members| ==> names[i] == members[i].key
    ensures Distinct(names)
  {
  }

  // ----- canonicalJson -----

  function CanonicalText(j: Json, less: Order): Text {
    Print(ToValue(Stable(j, less)))
  }

  // Parsing the canonical print gives a value equal to the printed one up to member order.
  lemma CanonicalRoundTrip(j: Json, less: Order, lim: Limits)
    requires StrictTotal(less) && Proper(j)
    requires Size(Stable(j, less)) <= lim.maxNodes && Height(Stable(j, less)) <= lim.maxDepth
    ensures var p := ParseText(CanonicalText(j, less), lim);
      p.Parsed? && Valid(p.value) && Denote(p.value) == Stable(j, less) && Equivalent(j, Denote(p.value))
  {
    hide Stable, ToValue, Print, StrictTotal, Proper, ParseText, UniqueNames, Size, Height, Nodes, Depth, Denote, Equivalent, Valid, TextOf;
    var s := Stable(j, less);
    var v := ToValue(s);
    StableProper(j, less);
    StableEquivalent(j, less);
    ToValueDenotes(s);
    DenoteMeasures(v);
    PrintIsText(v);
    TextComplete(Print(v), lim, v);
  }

  lemma PrintIsText(v: Value)
    requires Valid(v)
    ensures TextOf(Print(v), v)
  {
    hide Print, Valid;
    assert AllWs([]) && Print(v) == [] + Print(v) + [];
  }

  // Two values have the same canonical print exactly when they are equal up to member order.
  lemma CanonicalNormalForm(a: Json, b: Json, less: Order)
    requires StrictTotal(less) && Proper(a) && Proper(b)
    ensures CanonicalText(a, less) == CanonicalText(b, less) <==> Equivalent(a, b)
  {
    StableDecides(a, b, less);
    var s, t := Stable(a, less), Stable(b, less);
    if CanonicalText(a, less) == CanonicalText(b, less) {
      var lim := Limits(Max(Size(s), Size(t)), Max(Height(s), Height(t)));
      CanonicalRoundTrip(a, less, lim);
      CanonicalRoundTrip(b, less, lim);
    }
  }
}
