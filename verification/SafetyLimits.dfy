/**
 The worklist that checks a parsed value again: node count, depth and Unicode, with
 an explicit stack instead of recursion.
 */
module SafetyLimits {
  import opened JsonText
  import opened JsonParser
  import opened JsonParserProofs
  import opened JsonTree

  datatype Safety = Safe | OverLimit | IllFormed

  predicate IsHighSurrogate(u: CodeUnit) {
    0xD800 <= u <= 0xDBFF
  }

  predicate IsLowSurrogate(u: CodeUnit) {
    0xDC00 <= u <= 0xDFFF
  }

  // Every surrogate belongs to a pair: a high one with a low one right after it.
  ghost predicate WellFormed(t: Text) {
    && (forall i :: 0 <= i < |t| && IsHighSurrogate(t[i]) ==> i + 1 < |t| && IsLowSurrogate(t[i + 1]))
    && (forall i :: 0 <= i < |t| && IsLowSurrogate(t[i]) ==> i > 0 && IsHighSurrogate(t[i - 1]))
  }

  method IsWellFormedUnicode(value: Text) returns (ok: bool)
    ensures ok == WellFormed(value)
  {
    var index := 0;
    while index < |value|
      invariant 0 <= index <= |value|
      invariant index > 0 ==> !IsHighSurrogate(value[index - 1])
      invariant forall i :: 0 <= i < index && IsHighSurrogate(value[i]) ==> i + 1 < |value| && IsLowSurrogate(value[i + 1])
      invariant forall i :: 0 <= i < index && IsLowSurrogate(value[i]) ==> i > 0 && IsHighSurrogate(value[i - 1])
    {
      var code := value[index];
      if IsHighSurrogate(code) {
        if index + 1 >= |value| || !IsLowSurrogate(value[index + 1]) { return false; }
        index := index + 1;
      } else if IsLowSurrogate(code) {
        return false;
      }
      index := index + 1;
    }
    return true;
  }

  // All text in a value is well formed, member names included.
  ghost predicate UnicodeSafe(j: Json) {
    match j
    case Str(text) => WellFormed(text)
    case Arr(items) => forall i :: 0 <= i < |items| ==> UnicodeSafe(items[i])
    case Obj(members) => forall i :: 0 <= i < |members| ==> WellFormed(members[i].key) && UnicodeSafe(members[i].value)
    case _ => true
  }

  datatype Item = Item(value: Json, depth: nat)

  ghost predicate Fits(item: Item, maxDepth: int) {
    item.depth + Height(item.value) <= maxDepth && UnicodeSafe(item.value)
  }

  ghost predicate AllFit(stack: seq<Item>, maxDepth: int) {
    forall i :: 0 <= i < |stack| ==> Fits(stack[i], maxDepth)
  }

  ghost function Pending(stack: seq<Item>): nat {
    if stack == [] then 0 else Pending(stack[..|stack| - 1]) + Size(stack[|stack| - 1].value)
  }

  lemma PendingPush(stack: seq<Item>, item: Item)
    ensures Pending(stack + [item]) == Pending(stack) + Size(item.value)
  {
    assert (stack + [item])[..|stack|] == stack;
  }

  lemma {:induction false} SizeItemsSnoc(items: seq<Json>, k: nat)
    requires k < |items|
    ensures SizeItems(items[..k + 1]) == SizeItems(items[..k]) + Size(items[k])
  {
    if k == 0 {
      assert items[..1] == [items[0]];
    } else {
      SizeItemsSnoc(items[1..], k - 1);
      assert items[..k + 1][1..] == items[1..][..k] && items[..k][1..] == items[1..][..k - 1];
    }
  }

  lemma {:induction false} SizeMembersSnoc(members: seq<Member>, k: nat)
    requires k < |members|
    ensures SizeMembers(members[..k + 1]) == SizeMembers(members[..k]) + Size(members[k].value)
  {
    if k == 0 {
      assert members[..1] == [members[0]];
    } else {
      SizeMembersSnoc(members[1..], k - 1);
      assert members[..k + 1][1..] == members[1..][..k] && members[..k][1..] == members[1..][..k - 1];
    }
  }

  lemma {:induction false} HeightItemsBound(items: seq<Json>, bound: int)
    requires items != []
    ensures HeightItems(items) <= bound <==> forall i :: 0 <= i < |items| ==> Height(items[i]) <= bound
  {
    if |items| == 1 {
      assert items[1..] == [];
    } else {
      HeightItemsBound(items[1..], bound);
      assert forall i :: 1 <= i < |items| ==> items[i] == items[1..][i - 1];
    }
  }

  lemma {:induction false} HeightMembersBound(members: seq<Member>, bound: int)
    requires members != []
    ensures HeightMembers(members) <= bound <==> forall i :: 0 <= i < |members| ==> Height(members[i].value) <= bound
  {
    if |members| == 1 {
      assert members[1..] == [];
    } else {
      HeightMembersBound(members[1..], bound);
      assert forall i :: 1 <= i < |members| ==> members[i] == members[1..][i - 1];
    }
  }

  // A container at an allowed depth fits exactly when its children fit one level down.
  lemma ItemsFit(items: seq<Json>, depth: nat, maxDepth: int)
    requires depth <= maxDepth
    ensures Fits(Item(Arr(items), depth), maxDepth) <==> forall i :: 0 <= i < |items| ==> Fits(Item(items[i], depth + 1), maxDepth)
  {
    if items != [] { HeightItemsBound(items, maxDepth - depth - 1); }
  }

  lemma MembersFit(members: seq<Member>, depth: nat, maxDepth: int)
    requires depth <= maxDepth
    ensures Fits(Item(Obj(members), depth), maxDepth) <==>
      forall i :: 0 <= i < |members| ==> WellFormed(members[i].key) && Fits(Item(members[i].value, depth + 1), maxDepth)
  {
    if members != [] { HeightMembersBound(members, maxDepth - depth - 1); }
  }

  method PushItems(items: seq<Json>, depth: nat, stack: seq<Item>) returns (pushed: seq<Item>)
    ensures Pending(pushed) == Pending(stack) + SizeItems(items)
    ensures |pushed| == |stack| + |items| && pushed[..|stack|] == stack
    ensures forall i :: 0 <= i < |items| ==> pushed[|stack| + i] == Item(items[i], depth)
  {
    pushed := stack;
    for k := 0 to |items|
      invariant Pending(pushed) == Pending(stack) + SizeItems(items[..k])
      invariant |pushed| == |stack| + k && pushed[..|stack|] == stack
      invariant forall i :: 0 <= i < k ==> pushed[|stack| + i] == Item(items[i], depth)
    {
      PendingPush(pushed, Item(items[k], depth));
      SizeItemsSnoc(items, k);
      pushed := pushed + [Item(items[k], depth)];
    }
    assert items[..|items|] == items;
  }

  method PushMembers(members: seq<Member>, depth: nat, stack: seq<Item>) returns (ok: bool, pushed: seq<Item>)
    ensures ok <==> forall i :: 0 <= i < |members| ==> WellFormed(members[i].key)
    ensures ok ==> Pending(pushed) == Pending(stack) + SizeMembers(members)
    ensures ok ==> |pushed| == |stack| + |members| && pushed[..|stack|] == stack
    ensures ok ==> forall i :: 0 <= i < |members| ==> pushed[|stack| + i] == Item(members[i].value, depth)
  {
    pushed := stack;
    for k := 0 to |members|
      invariant forall i :: 0 <= i < k ==> WellFormed(members[i].key)
      invariant Pending(pushed) == Pending(stack) + SizeMembers(members[..k])
      invariant |pushed| == |stack| + k && pushed[..|stack|] == stack
      invariant forall i :: 0 <= i < k ==> pushed[|stack| + i] == Item(members[i].value, depth)
    {
      ok := IsWellFormedUnicode(members[k].key);
      if !ok { return; }
      PendingPush(pushed, Item(members[k].value, depth));
      SizeMembersSnoc(members, k);
      pushed := pushed + [Item(members[k].value, depth)];
    }
    assert members[..|members|] == members;
    ok := true;
  }

  lemma AllFitSplit(below: seq<Item>, pushed: seq<Item>, maxDepth: int)
    requires |below| <= |pushed| && pushed[..|below|] == below
    ensures AllFit(pushed, maxDepth) <==> AllFit(below, maxDepth) && forall i :: |below| <= i < |pushed| ==> Fits(pushed[i], maxDepth)
  {
    assert forall i :: 0 <= i < |below| ==> below[i] == pushed[..|below|][i] == pushed[i];
  }

  // The worklist accepts exactly the values of at most maxNodes nodes, at most maxDepth deep, with well-formed text.
  method AssertJsonSafety(value: Json, maxNodes: int, maxDepth: int) returns (r: Safety)
    ensures r == Safe <==> Size(value) <= maxNodes && Height(value) <= maxDepth && UnicodeSafe(value)
  {
    var stack := [Item(value, 0)];
    var nodes := 0;
    assert stack == [] + [Item(value, 0)];
    PendingPush([], Item(value, 0));
    while stack != []
      invariant nodes + Pending(stack) == Size(value)
      invariant nodes <= maxNodes || nodes == 0
      invariant AllFit(stack, maxDepth) <==> Height(value) <= maxDepth && UnicodeSafe(value)
      decreases Pending(stack)
    {
      var item := stack[|stack| - 1];
      ghost var before := stack;
      stack := stack[..|stack| - 1];
      AllFitSplit(stack, before, maxDepth);
      nodes := nodes + 1;
      if nodes > maxNodes || item.depth > maxDepth { return OverLimit; }
      match item.value {
        case Str(text) =>
          var ok := IsWellFormedUnicode(text);
          if !ok { return IllFormed; }
        case Arr(items) =>
          ItemsFit(items, item.depth, maxDepth);
          ghost var below := stack;
          stack := PushItems(items, item.depth + 1, stack);
          AllFitSplit(below, stack, maxDepth);
          assert forall i :: |below| <= i < |stack| ==> stack[i] == Item(items[i - |below|], item.depth + 1);
        case Obj(members) =>
          MembersFit(members, item.depth, maxDepth);
          ghost var below := stack;
          var ok;
          ok, stack := PushMembers(members, item.depth + 1, stack);
          if !ok { return IllFormed; }
          AllFitSplit(below, stack, maxDepth);
          assert forall i :: |below| <= i < |stack| ==> stack[i] == Item(members[i - |below|].value, item.depth + 1);
        case _ =>
      }
    }
    assert nodes > 0;
    return Safe;
  }

  // Scanner and worklist set the same limits: for a text with distinct names,
  // the text is within them exactly when the value parsed from it is.
  lemma SameLimits(t: Text, v: Value, lim: Limits)
    requires TextOf(t, v) && UniqueNames(v)
    ensures ParseText(t, lim).Parsed? <==> Size(Denote(v)) <= lim.maxNodes && Height(Denote(v)) <= lim.maxDepth
  {
    DenoteMeasures(v);
    ParsesExactly(t, lim);
    forall w | TextOf(t, w) && WithinLimits(w, lim) ensures w == v {
      Unambiguous(t, v, w);
    }
  }
}
