/**
 The recursive-descent parse is sound and complete for the grammar: what it returns
 prints back to the text it read, and it reads back every print of a well-formed tree.
 */
module JsonParserProofs {
  import opened Common
  import opened JsonText
  import opened JsonParser

  lemma PrintItemsAt(t: Text, i: nat, items: Items)
    ensures var a := i + |items.pre|; var b := a + |Print(items.value)|; var c := b + |items.post|;
      && i + |PrintItems(items)| == c + 1 + (if items.NextItem? then |PrintItems(items.rest)| else 0)
      && (At(t, i, PrintItems(items)) <==>
          && At(t, i, items.pre) && At(t, a, Print(items.value)) && At(t, b, items.post)
          && (if items.NextItem? then At(t, c, [COMMA]) && At(t, c + 1, PrintItems(items.rest)) else At(t, c, [CLOSE_ARRAY])))
  {
    hide At, Print;
    var tail := if items.NextItem? then [COMMA] + PrintItems(items.rest) else [CLOSE_ARRAY];
    var a := i + |items.pre|;
    var b := a + |Print(items.value)|;
    if items.NextItem? {
      AtConcat(t, b + |items.post|, [COMMA], PrintItems(items.rest));
    }
    AtConcat(t, b, items.post, tail);
    AtConcat(t, a, Print(items.value), items.post + tail);
    AtConcat(t, i, items.pre, Print(items.value) + (items.post + tail));
  }

  lemma PrintEntryAt(t: Text, i: nat, e: Entry)
    ensures var a := i + |e.pre|; var b := a + |PrintString(e.name)|; var c := b + |e.mid|; var g := c + 1 + |e.gap|;
      && i + |PrintEntry(e)| == g + |Print(e.value)|
      && (At(t, i, PrintEntry(e)) <==>
          && At(t, i, e.pre) && At(t, a, PrintString(e.name)) && At(t, b, e.mid) && At(t, c, [COLON])
          && At(t, c + 1, e.gap) && At(t, g, Print(e.value)))
  {
    hide At, Print, PrintString;
    var a := i + |e.pre|;
    var b := a + |PrintString(e.name)|;
    var c := b + |e.mid|;
    AtConcat(t, c + 1, e.gap, Print(e.value));
    AtConcat(t, c, [COLON], e.gap + Print(e.value));
    AtConcat(t, b, e.mid, [COLON] + (e.gap + Print(e.value)));
    AtConcat(t, a, PrintString(e.name), e.mid + ([COLON] + (e.gap + Print(e.value))));
    AtConcat(t, i, e.pre, PrintString(e.name) + (e.mid + ([COLON] + (e.gap + Print(e.value)))));
  }

  lemma PrintMembersAt(t: Text, i: nat, ms: Members)
    ensures var e := i + |PrintEntry(ms.entry)|; var p := e + |ms.post|;
      && i + |PrintMembers(ms)| == p + 1 + (if ms.NextMember? then |PrintMembers(ms.rest)| else 0)
      && (At(t, i, PrintMembers(ms)) <==>
          && At(t, i, PrintEntry(ms.entry)) && At(t, e, ms.post)
          && (if ms.NextMember? then At(t, p, [COMMA]) && At(t, p + 1, PrintMembers(ms.rest)) else At(t, p, [CLOSE_OBJECT])))
  {
    hide At, PrintEntry;
    var tail := if ms.NextMember? then [COMMA] + PrintMembers(ms.rest) else [CLOSE_OBJECT];
    var e := i + |PrintEntry(ms.entry)|;
    if ms.NextMember? {
      AtConcat(t, e + |ms.post|, [COMMA], PrintMembers(ms.rest));
    }
    AtConcat(t, e, ms.post, tail);
    AtConcat(t, i, PrintEntry(ms.entry), ms.post + tail);
  }

  lemma UnitAt(t: Text, i: nat, u: CodeUnit)
    ensures At(t, i, [u]) <==> i < |t| && t[i] == u
  {
    if At(t, i, [u]) { assert t[i + 0] == [u][0]; }
  }

  lemma StringSound(t: Text, i: nat)
    requires ParseString(t, i).Some?
    ensures var (cs, e) := ParseString(t, i).value; At(t, i, PrintString(cs)) && e == i + |PrintString(cs)|
  {
    var (cs, e) := ParseString(t, i).value;
    CharsSound(t, i + 1, |t|);
    UnitAt(t, i, QUOTE);
    AtConcat(t, i, [QUOTE], PrintChars(cs) + [QUOTE]);
    assert PrintString(cs) == [QUOTE] + (PrintChars(cs) + [QUOTE]);
  }

  lemma StringComplete(t: Text, i: nat, cs: seq<StrChar>)
    requires ValidChars(cs) && At(t, i, PrintString(cs))
    ensures ParseString(t, i) == Some((cs, i + |PrintString(cs)|)) && t[i] == QUOTE
  {
    assert PrintString(cs) == [QUOTE] + (PrintChars(cs) + [QUOTE]);
    AtConcat(t, i, [QUOTE], PrintChars(cs) + [QUOTE]);
    UnitAt(t, i, QUOTE);
    CharsComplete(t, i + 1, |t|, cs);
  }

  lemma PrimitiveSound(t: Text, i: nat)
    requires i <= |t| && ParsePrimitive(t, i).Some?
    ensures var (v, e) := ParsePrimitive(t, i).value;
      Valid(v) && UniqueNames(v) && At(t, i, Print(v)) && e == i + |Print(v)| && Nodes(v) == 1 && Depth(v) == 0
  {
    hide ParseNumber, PrintNumber;
    if ParseNumber(t, i).Some? {
      NumberSound(t, i);
    }
  }

  // ----- Soundness -----

  lemma {:induction false} ValueSound(t: Text, i: nat, n: nat, d: nat, lim: Limits)
    requires i <= |t| && ParseValue(t, i, n, d, lim).Parsed?
    ensures var r := ParseValue(t, i, n, d, lim); var j := SkipWs(t, i); var v := r.value;
      && Valid(v) && UniqueNames(v) && At(t, j, Print(v)) && r.next == j + |Print(v)|
      && r.nodes == n + Nodes(v) <= lim.maxNodes && d + Depth(v) <= lim.maxDepth
    decreases |t| - i, 0
  {
    hide At, ParseString, ParsePrimitive, PrintString, PrintNumber, PrintItems, PrintMembers, SkipWs;
    var j := SkipWs(t, i);
    if j < |t| && t[j] == OPEN_OBJECT {
      ObjectSound(t, j + 1, n + 1, d, lim);
    } else if j < |t| && t[j] == OPEN_ARRAY {
      ArraySound(t, j + 1, n + 1, d, lim);
    } else if j < |t| && t[j] == QUOTE {
      StringSound(t, j);
    } else {
      PrimitiveSound(t, j);
    }
  }

  lemma EmptySound(t: Text, i: nat, ws: Text, open: CodeUnit, close: CodeUnit)
    requires i < |t| && t[i] == open && At(t, i + 1, ws) && i + 1 + |ws| < |t| && t[i + 1 + |ws|] == close
    ensures At(t, i, [open] + (ws + [close]))
  {
    UnitAt(t, i, open);
    UnitAt(t, i + 1 + |ws|, close);
    AtConcat(t, i + 1, ws, [close]);
    AtConcat(t, i, [open], ws + [close]);
  }

  lemma {:induction false} ArraySound(t: Text, i: nat, n: nat, d: nat, lim: Limits)
    requires 0 < i <= |t| && t[i - 1] == OPEN_ARRAY && n <= lim.maxNodes && d <= lim.maxDepth && n >= 1
    requires ParseArray(t, i, n, d, lim).Parsed?
    ensures var r := ParseArray(t, i, n, d, lim); var v := r.value;
      && Valid(v) && UniqueNames(v) && At(t, i - 1, Print(v)) && r.next == i - 1 + |Print(v)|
      && r.nodes == n - 1 + Nodes(v) <= lim.maxNodes && d + Depth(v) <= lim.maxDepth
    decreases |t| - i, 3
  {
    hide At, PrintItems, ParseItems;
    var j := SkipWs(t, i);
    if j < |t| && t[j] == CLOSE_ARRAY {
      SliceAt(t, i, j);
      EmptySound(t, i - 1, t[i..j], OPEN_ARRAY, CLOSE_ARRAY);
    } else {
      ItemsSound(t, i, n, d, lim);
      UnitAt(t, i - 1, OPEN_ARRAY);
      AtConcat(t, i - 1, [OPEN_ARRAY], PrintItems(ParseItems(t, i, n, d, lim).value));
    }
  }

  lemma {:induction false} ItemsSound(t: Text, i: nat, n: nat, d: nat, lim: Limits)
    requires i <= |t| && ParseItems(t, i, n, d, lim).Parsed?
    ensures var r := ParseItems(t, i, n, d, lim); var v := r.value;
      && ValidItems(v) && ItemsUnique(v) && At(t, i, PrintItems(v)) && r.next == i + |PrintItems(v)|
      && r.nodes == n + ItemNodes(v) <= lim.maxNodes && d + 1 + ItemDepth(v) <= lim.maxDepth
    decreases |t| - i, 1
  {
    hide At, Print, PrintItems, ParseValue, Valid, UniqueNames, Nodes, Depth, SkipWs;
    ValueSound(t, i, n, d + 1, lim);
    var r := ParseValue(t, i, n, d + 1, lim);
    var p := SkipWs(t, r.next);
    SliceAt(t, i, SkipWs(t, i));
    SliceAt(t, r.next, p);
    if t[p] == COMMA {
      UnitAt(t, p, COMMA);
      ItemsSound(t, p + 1, r.nodes, d, lim);
    } else {
      UnitAt(t, p, CLOSE_ARRAY);
    }
    PrintItemsAt(t, i, ParseItems(t, i, n, d, lim).value);
  }

  lemma {:induction false} ObjectSound(t: Text, i: nat, n: nat, d: nat, lim: Limits)
    requires 0 < i <= |t| && t[i - 1] == OPEN_OBJECT && n <= lim.maxNodes && d <= lim.maxDepth && n >= 1
    requires ParseObject(t, i, n, d, lim).Parsed?
    ensures var r := ParseObject(t, i, n, d, lim); var v := r.value;
      && Valid(v) && UniqueNames(v) && At(t, i - 1, Print(v)) && r.next == i - 1 + |Print(v)|
      && r.nodes == n - 1 + Nodes(v) <= lim.maxNodes && d + Depth(v) <= lim.maxDepth
    decreases |t| - i, 3
  {
    hide At, PrintMembers, ParseMembers;
    var j := SkipWs(t, i);
    if j < |t| && t[j] == CLOSE_OBJECT {
      SliceAt(t, i, j);
      EmptySound(t, i - 1, t[i..j], OPEN_OBJECT, CLOSE_OBJECT);
    } else {
      MembersSound(t, i, n, d, {}, lim);
      UnitAt(t, i - 1, OPEN_OBJECT);
      AtConcat(t, i - 1, [OPEN_OBJECT], PrintMembers(ParseMembers(t, i, n, d, {}, lim).value));
    }
  }

  // Names of an object are distinct when each is new to those before it.
  ghost predicate Fresh(names: seq<Text>, seen: set<Text>) {
    Distinct(names) && forall k :: 0 <= k < |names| ==> names[k] !in seen
  }

  lemma FreshCons(name: Text, names: seq<Text>, seen: set<Text>)
    ensures Fresh([name] + names, seen) <==> name !in seen && Fresh(names, seen + {name})
  {
    var all := [name] + names;
    assert forall k :: 0 <= k < |names| ==> names[k] == all[k + 1];
    if Fresh(all, seen) { assert all[0] == name; }
  }

  lemma {:induction false} EntrySound(t: Text, i: nat, n: nat, d: nat, seen: set<Text>, lim: Limits)
    requires i <= |t| && ParseEntry(t, i, n, d, seen, lim).Parsed?
    ensures var r := ParseEntry(t, i, n, d, seen, lim); var e := r.value;
      && ValidEntry(e) && UniqueNames(e.value) && Decode(e.name) !in seen && At(t, i, PrintEntry(e)) && r.next == i + |PrintEntry(e)|
      && r.nodes == n + Nodes(e.value) <= lim.maxNodes && d + 1 + Depth(e.value) <= lim.maxDepth
    decreases |t| - i, 1
  {
    hide At, Print, PrintString, PrintEntry, ParseValue, ParseString, Decode;
    var j := SkipWs(t, i);
    StringSound(t, j);
    var k := ParseString(t, j).value.1;
    var m := SkipWs(t, k);
    ValueSound(t, m + 1, n, d + 1, lim);
    SliceAt(t, i, j);
    SliceAt(t, k, m);
    UnitAt(t, m, COLON);
    SliceAt(t, m + 1, SkipWs(t, m + 1));
    PrintEntryAt(t, i, ParseEntry(t, i, n, d, seen, lim).value);
  }

  lemma {:induction false} MembersSound(t: Text, i: nat, n: nat, d: nat, seen: set<Text>, lim: Limits)
    requires i <= |t| && ParseMembers(t, i, n, d, seen, lim).Parsed?
    ensures var r := ParseMembers(t, i, n, d, seen, lim); var v := r.value;
      && ValidMembers(v) && MembersUnique(v) && Fresh(Names(v), seen) && At(t, i, PrintMembers(v)) && r.next == i + |PrintMembers(v)|
      && r.nodes == n + MemberNodes(v) <= lim.maxNodes && d + 1 + MemberDepth(v) <= lim.maxDepth
    decreases |t| - i, 2
  {
    hide At, PrintMembers, PrintEntry, ParseEntry, Decode, Fresh, Valid, UniqueNames, Nodes, Depth, SkipWs;
    EntrySound(t, i, n, d, seen, lim);
    var r := ParseEntry(t, i, n, d, seen, lim);
    var name := Decode(r.value.name);
    var p := SkipWs(t, r.next);
    SliceAt(t, r.next, p);
    var out := ParseMembers(t, i, n, d, seen, lim).value;
    if t[p] == COMMA {
      UnitAt(t, p, COMMA);
      MembersSound(t, p + 1, r.nodes, d, seen + {name}, lim);
      FreshCons(name, Names(out.rest), seen);
    } else {
      UnitAt(t, p, CLOSE_OBJECT);
      FreshNil(seen + {name});
      FreshCons(name, [], seen);
    }
    PrintMembersAt(t, i, out);
  }

  lemma FreshNil(seen: set<Text>)
    ensures Fresh([], seen)
  {
  }

  // ----- Completeness -----

  // What may follow a value: the end, whitespace, a separator or a closing bracket.
  predicate Follow(t: Text, e: nat) {
    e >= |t| || IsWs(t[e]) || t[e] == COMMA || t[e] == CLOSE_ARRAY || t[e] == CLOSE_OBJECT
  }

  // The unit a value's print starts with tells which kind of value it is.
  lemma ValueStart(t: Text, j: nat, v: Value)
    requires Valid(v) && At(t, j, Print(v))
    ensures |Print(v)| > 0 && j < |t| && !IsWs(t[j]) && t[j] != CLOSE_ARRAY && t[j] != CLOSE_OBJECT
    ensures (v.Object? || v.EmptyObject?) <==> t[j] == OPEN_OBJECT
    ensures (v.Array? || v.EmptyArray?) <==> t[j] == OPEN_ARRAY
    ensures v.String? <==> t[j] == QUOTE
  {
    hide PrintItems, PrintMembers, PrintNumber, PrintString;
    match v
    case Number(n) => NumberStart(t, j, n);
    case String(cs) => StringComplete(t, j, cs);
    case _ => assert t[j + 0] == Print(v)[0];
  }

  lemma NumberStart(t: Text, j: nat, lit: NumberLit)
    requires ValidNumber(lit) && At(t, j, PrintNumber(lit))
    ensures |PrintNumber(lit)| > 0 && j < |t| && (t[j] == MINUS || IsDigit(t[j]))
  {
    hide PrintNumber, PrintFraction, PrintExponent;
    PrintNumberAt(t, j, lit);
    SignAt(t, j, lit);
    if !lit.negative { assert t[j + 0] == lit.whole[0]; }
  }

  lemma PrimitiveComplete(t: Text, j: nat, v: Value)
    requires Valid(v) && At(t, j, Print(v)) && Follow(t, j + |Print(v)|)
    requires v.TrueLit? || v.FalseLit? || v.NullLit? || v.Number?
    ensures ParsePrimitive(t, j) == Some((v, j + |Print(v)|))
  {
    match v
    case Number(lit) =>
      NumberComplete(t, j, lit);
      NotLiteral(t, j);
    case TrueLit =>
    case FalseLit => assert t[j + 0] == FALSE_TEXT[0]; UnlessFirst(t, j, TRUE_TEXT);
    case NullLit => assert t[j + 0] == NULL_TEXT[0]; UnlessFirst(t, j, TRUE_TEXT); UnlessFirst(t, j, FALSE_TEXT);
  }

  lemma UnlessFirst(t: Text, j: nat, p: Text)
    requires j < |t| && p != [] && t[j] != p[0]
    ensures !At(t, j, p)
  {
    assert t[j + 0] != p[0];
  }

  lemma NotLiteral(t: Text, j: nat)
    requires j < |t| && (t[j] == MINUS || IsDigit(t[j]))
    ensures !At(t, j, TRUE_TEXT) && !At(t, j, FALSE_TEXT) && !At(t, j, NULL_TEXT)
  {
    UnlessFirst(t, j, TRUE_TEXT);
    UnlessFirst(t, j, FALSE_TEXT);
    UnlessFirst(t, j, NULL_TEXT);
  }

  lemma {:induction false} ValueComplete(t: Text, i: nat, n: nat, d: nat, lim: Limits, ws: Text, v: Value)
    requires Valid(v) && UniqueNames(v) && AllWs(ws) && At(t, i, ws) && At(t, i + |ws|, Print(v))
    requires Follow(t, i + |ws| + |Print(v)|)
    requires n + Nodes(v) <= lim.maxNodes && d + Depth(v) <= lim.maxDepth
    ensures ParseValue(t, i, n, d, lim) == Parsed(v, i + |ws| + |Print(v)|, n + Nodes(v))
    ensures SkipWs(t, i) == i + |ws|
    decreases v
  {
    hide At, PrintString, PrintNumber, PrintItems, PrintMembers, ParseString, ParsePrimitive, Follow, UniqueNames, ParseItems, ParseMembers, SkipWs, ItemNodes, MemberNodes, ItemDepth, MemberDepth, ValidNumber, ValidChars;
    var j := i + |ws|;
    ValueStart(t, j, v);
    SkipWsAt(t, i, ws);
    match v
    case String(cs) =>
      StringComplete(t, j, cs);
    case EmptyArray(gap) =>
      EmptyComplete(t, i, n, d, lim, ws, v);
    case EmptyObject(gap) =>
      EmptyComplete(t, i, n, d, lim, ws, v);
    case Array(items) =>
      AtConcat(t, j, [OPEN_ARRAY], PrintItems(items));
      ContainerUnique(v);
      ItemsComplete(t, j + 1, n + 1, d, lim, items);
    case Object(members) =>
      AtConcat(t, j, [OPEN_OBJECT], PrintMembers(members));
      ContainerUnique(v);
      assert Fresh(Names(members), {});
      MembersComplete(t, j + 1, n + 1, d, {}, lim, members);
    case _ =>
      PrimitiveComplete(t, j, v);
  }

  lemma EmptyComplete(t: Text, i: nat, n: nat, d: nat, lim: Limits, ws: Text, v: Value)
    requires (v.EmptyArray? || v.EmptyObject?) && Valid(v) && At(t, i, ws) && At(t, i + |ws|, Print(v)) && i <= |t|
    requires n + Nodes(v) <= lim.maxNodes && d <= lim.maxDepth && SkipWs(t, i) == i + |ws|
    ensures ParseValue(t, i, n, d, lim) == Parsed(v, i + |ws| + |Print(v)|, n + Nodes(v))
  {
    hide At, SkipWs, ParseString, ParsePrimitive, ParseItems, ParseMembers, AllWs;
    var j := i + |ws|;
    match v
    case EmptyArray(gap) =>
      EmptyAt(t, j, gap, OPEN_ARRAY, CLOSE_ARRAY);
      AtConcat(t, j, [OPEN_ARRAY], gap + [CLOSE_ARRAY]);
      UnitAt(t, j, OPEN_ARRAY);
      NotSpace();
      SkipWsAt(t, j + 1, gap);
      AtIsSlice(t, j + 1, gap);
    case EmptyObject(gap) =>
      EmptyAt(t, j, gap, OPEN_OBJECT, CLOSE_OBJECT);
      AtConcat(t, j, [OPEN_OBJECT], gap + [CLOSE_OBJECT]);
      UnitAt(t, j, OPEN_OBJECT);
      NotSpace();
      SkipWsAt(t, j + 1, gap);
      AtIsSlice(t, j + 1, gap);
  }

  lemma NotSpace()
    ensures !IsWs(CLOSE_ARRAY) && !IsWs(CLOSE_OBJECT)
  {
  }

  lemma ContainerUnique(v: Value)
    requires Valid(v) && UniqueNames(v)
    ensures v.Array? ==> ItemsUnique(v.items)
    ensures v.Object? ==> Distinct(Names(v.members)) && MembersUnique(v.members)
  {
  }

  lemma EmptyAt(t: Text, i: nat, ws: Text, open: CodeUnit, close: CodeUnit)
    requires At(t, i, [open] + (ws + [close])) && AllWs(ws) && !IsWs(close)
    ensures At(t, i + 1, ws) && i + 1 + |ws| < |t| && t[i + 1 + |ws|] == close
  {
    AtConcat(t, i, [open], ws + [close]);
    AtConcat(t, i + 1, ws, [close]);
    UnitAt(t, i + 1 + |ws|, close);
  }

  lemma {:induction false} ItemsComplete(t: Text, i: nat, n: nat, d: nat, lim: Limits, items: Items)
    requires ValidItems(items) && ItemsUnique(items) && At(t, i, PrintItems(items))
    requires n + ItemNodes(items) <= lim.maxNodes && d + 1 + ItemDepth(items) <= lim.maxDepth
    ensures ParseItems(t, i, n, d, lim) == Parsed(items, i + |PrintItems(items)|, n + ItemNodes(items))
    ensures var j := SkipWs(t, i); j < |t| && t[j] != CLOSE_ARRAY
    decreases items
  {
    hide At, Print, PrintItems, ParseValue, ParseItems, Valid, UniqueNames, SkipWs, ValidItems, ItemsUnique, ItemNodes, ItemDepth, Nodes, Depth, AllWs, Follow;
    ItemParts(items);
    PrintItemsAt(t, i, items);
    var e := i + |items.pre| + |Print(items.value)|;
    var p := e + |items.post|;
    UnitAt(t, p, if items.NextItem? then COMMA else CLOSE_ARRAY);
    EndsFollow(t, p);
    PostFollows(t, e, items.post);
    ValueStart(t, i + |items.pre|, items.value);
    ValueComplete(t, i, n, d + 1, lim, items.pre, items.value);
    SkipWsAt(t, e, items.post);
    AtIsSlice(t, i, items.pre);
    AtIsSlice(t, e, items.post);
    if items.NextItem? {
      ItemsComplete(t, p + 1, n + Nodes(items.value), d, lim, items.rest);
    }
    ItemsRound(t, i, n, d, lim, items, e, p);
  }

  // One round of the item loop.
  lemma ItemsRound(t: Text, i: nat, n: nat, d: nat, lim: Limits, items: Items, e: nat, p: nat)
    requires i <= |t| && ParseValue(t, i, n, d + 1, lim) == Parsed(items.value, e, n + Nodes(items.value)) && t[i..SkipWs(t, i)] == items.pre
    requires e <= |t| && SkipWs(t, e) == p < |t| && t[e..p] == items.post && t[p] == if items.NextItem? then COMMA else CLOSE_ARRAY
    requires var r := ParseItems(t, p + 1, n + Nodes(items.value), d, lim); items.NextItem? ==> r.Parsed? && r.value == items.rest
    ensures var rest := ParseItems(t, p + 1, n + Nodes(items.value), d, lim);
      ParseItems(t, i, n, d, lim) == if items.NextItem? then rest.(value := items) else Parsed(items, p + 1, n + Nodes(items.value))
  {
    hide ParseValue, SkipWs, Nodes;
  }

  lemma ItemParts(items: Items)
    requires ValidItems(items)
    ensures AllWs(items.pre) && Valid(items.value) && AllWs(items.post) && (items.NextItem? ==> ValidItems(items.rest))
    ensures ItemsUnique(items) ==> UniqueNames(items.value) && (items.NextItem? ==> ItemsUnique(items.rest))
    ensures ItemNodes(items) == Nodes(items.value) + if items.NextItem? then ItemNodes(items.rest) else 0
    ensures Depth(items.value) <= ItemDepth(items) && (items.NextItem? ==> ItemDepth(items.rest) <= ItemDepth(items))
  {
    hide Valid, UniqueNames, Nodes, Depth, AllWs;
  }

  lemma MemberParts(ms: Members)
    requires ValidMembers(ms)
    ensures ValidEntry(ms.entry) && Valid(ms.entry.value) && AllWs(ms.post) && (ms.NextMember? ==> ValidMembers(ms.rest))
    ensures MembersUnique(ms) ==> UniqueNames(ms.entry.value) && (ms.NextMember? ==> MembersUnique(ms.rest))
    ensures MemberNodes(ms) == Nodes(ms.entry.value) + if ms.NextMember? then MemberNodes(ms.rest) else 0
    ensures Depth(ms.entry.value) <= MemberDepth(ms) && (ms.NextMember? ==> MemberDepth(ms.rest) <= MemberDepth(ms))
  {
    hide Valid, UniqueNames, Nodes, Depth, AllWs;
  }

  lemma EndsFollow(t: Text, p: nat)
    requires p < |t| && (t[p] == COMMA || t[p] == CLOSE_ARRAY || t[p] == CLOSE_OBJECT)
    ensures Follow(t, p) && !IsWs(t[p])
  {
  }

  lemma PostFollows(t: Text, e: nat, post: Text)
    requires At(t, e, post) && AllWs(post) && Follow(t, e + |post|)
    ensures Follow(t, e)
  {
    if post != [] { assert t[e + 0] == post[0]; }
  }

  lemma {:induction false} EntryComplete(t: Text, i: nat, n: nat, d: nat, seen: set<Text>, lim: Limits, e: Entry)
    requires ValidEntry(e) && UniqueNames(e.value) && Decode(e.name) !in seen && At(t, i, PrintEntry(e)) && Follow(t, i + |PrintEntry(e)|)
    requires n + Nodes(e.value) <= lim.maxNodes && d + 1 + Depth(e.value) <= lim.maxDepth
    ensures ParseEntry(t, i, n, d, seen, lim) == Parsed(e, i + |PrintEntry(e)|, n + Nodes(e.value))
    ensures var j := SkipWs(t, i); j < |t| && t[j] == QUOTE
    decreases e
  {
    hide At, Print, PrintEntry, PrintString, ParseValue, ParseString, Valid, UniqueNames, Decode, Follow, SkipWs;
    PrintEntryAt(t, i, e);
    var a := i + |e.pre|;
    var b := a + |PrintString(e.name)|;
    var c := b + |e.mid|;
    StringComplete(t, a, e.name);
    SkipWsAt(t, i, e.pre);
    UnitAt(t, c, COLON);
    SkipWsAt(t, b, e.mid);
    ValueStart(t, c + 1 + |e.gap|, e.value);
    ValueComplete(t, c + 1, n, d + 1, lim, e.gap, e.value);
    AtIsSlice(t, i, e.pre);
    AtIsSlice(t, b, e.mid);
    AtIsSlice(t, c + 1, e.gap);
  }

  lemma FreshMembers(ms: Members, seen: set<Text>)
    requires ValidMembers(ms) && Fresh(Names(ms), seen)
    ensures ValidEntry(ms.entry) && Decode(ms.entry.name) !in seen
    ensures ms.NextMember? ==> Fresh(Names(ms.rest), seen + {Decode(ms.entry.name)})
  {
    hide Decode, Fresh;
    FreshCons(Decode(ms.entry.name), if ms.NextMember? then Names(ms.rest) else [], seen);
  }

  lemma {:induction false} MembersComplete(t: Text, i: nat, n: nat, d: nat, seen: set<Text>, lim: Limits, ms: Members)
    requires ValidMembers(ms) && MembersUnique(ms) && Fresh(Names(ms), seen) && At(t, i, PrintMembers(ms))
    requires n + MemberNodes(ms) <= lim.maxNodes && d + 1 + MemberDepth(ms) <= lim.maxDepth
    ensures ParseMembers(t, i, n, d, seen, lim) == Parsed(ms, i + |PrintMembers(ms)|, n + MemberNodes(ms))
    ensures var j := SkipWs(t, i); j < |t| && t[j] == QUOTE
    decreases ms
  {
    hide At, PrintEntry, PrintMembers, ParseEntry, UniqueNames, Fresh, Decode, SkipWs, Names, Valid, Nodes, Depth, ValidMembers, ValidEntry, MembersUnique, MemberNodes, MemberDepth, AllWs, Follow;
    MemberParts(ms);
    PrintMembersAt(t, i, ms);
    var e := i + |PrintEntry(ms.entry)|;
    var p := e + |ms.post|;
    UnitAt(t, p, if ms.NextMember? then COMMA else CLOSE_OBJECT);
    EndsFollow(t, p);
    PostFollows(t, e, ms.post);
    FreshMembers(ms, seen);
    EntryComplete(t, i, n, d, seen, lim, ms.entry);
    SkipWsAt(t, e, ms.post);
    AtIsSlice(t, e, ms.post);
    if ms.NextMember? {
      MembersComplete(t, p + 1, n + Nodes(ms.entry.value), d, seen + {Decode(ms.entry.name)}, lim, ms.rest);
    }
  }

  // ----- The whole text -----

  ghost predicate WithinLimits(v: Value, lim: Limits)
    requires Valid(v)
  {
    UniqueNames(v) && Nodes(v) <= lim.maxNodes && Depth(v) <= lim.maxDepth
  }

  lemma TextSound(t: Text, lim: Limits)
    requires ParseText(t, lim).Parsed?
    ensures var v := ParseText(t, lim).value; TextOf(t, v) && WithinLimits(v, lim)
  {
    hide At, Print, ParseValue, Valid, UniqueNames, SkipWs, Nodes, Depth;
    var i := SkipWs(t, 0);
    SkipWsTwice(t, 0);
    ValueSound(t, i, 0, 0, lim);
    var r := ParseValue(t, i, 0, 0, lim);
    AtIsSlice(t, i, Print(r.value));
    assert t == t[0..i] + t[i..r.next] + t[r.next..|t|];
    assert AllWs(t[0..i]) && AllWs(t[r.next..|t|]);
  }

  lemma TextComplete(t: Text, lim: Limits, v: Value)
    requires TextOf(t, v) && WithinLimits(v, lim)
    ensures ParseText(t, lim) == Parsed(v, |t|, Nodes(v))
  {
    hide Print, Valid, UniqueNames, At, ParseValue, SkipWs, Nodes, Depth, AllWs, Follow;
    var before: Text, after: Text :| AllWs(before) && AllWs(after) && t == before + Print(v) + after;
    var i := |before|;
    var e := i + |Print(v)|;
    InThree(t, before, Print(v), after);
    ValueStart(t, i, v);
    SkipWsAt(t, 0, before);
    EndFollows(t);
    PostFollows(t, e, after);
    NothingAt(t, i);
    ValueComplete(t, i, 0, 0, lim, [], v);
    SkipWsAt(t, e, after);
  }

  lemma InThree(t: Text, a: Text, b: Text, c: Text)
    requires t == a + b + c
    ensures At(t, 0, a) && At(t, |a|, b) && At(t, |a| + |b|, c) && |a| + |b| + |c| == |t|
  {
  }

  lemma NothingAt(t: Text, i: nat)
    requires i <= |t|
    ensures At(t, i, []) && AllWs([])
  {
  }

  lemma EndFollows(t: Text)
    ensures Follow(t, |t|)
  {
  }

  // The parse succeeds exactly on the texts of trees with distinct names within the limits.
  lemma ParsesExactly(t: Text, lim: Limits)
    ensures ParseText(t, lim).Parsed? <==> exists v :: TextOf(t, v) && WithinLimits(v, lim)
  {
    if ParseText(t, lim).Parsed? {
      TextSound(t, lim);
    }
    if v :| TextOf(t, v) && WithinLimits(v, lim) {
      TextComplete(t, lim, v);
    }
  }

  // A text is the text of one tree with distinct names at most: among those the grammar is unambiguous.
  lemma Unambiguous(t: Text, v: Value, w: Value)
    requires TextOf(t, v) && UniqueNames(v) && TextOf(t, w) && UniqueNames(w)
    ensures v == w
  {
    var lim := Limits(Max(Nodes(v), Nodes(w)), Max(Depth(v), Depth(w)));
    TextComplete(t, lim, v);
    TextComplete(t, lim, w);
  }
}
