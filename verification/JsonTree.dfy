/**
 JSON values as JSON.parse builds them: strings are decoded, numbers stay lexemes,
 and object members keep their order.  What a concrete tree denotes, and the limits
 that assertJsonSafety puts on a value.
 */
module JsonTree {
  import opened JsonText

  datatype Json = Null | Bool(b: bool) | Num(lexeme: NumberLit) | Str(text: Text) | Arr(items: seq<Json>) | Obj(members: seq<Member>)
  datatype Member = Member(key: Text, value: Json)

  function Denote(v: Value): Json
    requires Valid(v)
  {
    match v
    case TrueLit => Bool(true)
    case FalseLit => Bool(false)
    case NullLit => Null
    case Number(n) => Num(n)
    case String(cs) => Str(Decode(cs))
    case EmptyArray(_) => Arr([])
    case Array(items) => Arr(DenoteItems(items))
    case EmptyObject(_) => Obj([])
    case Object(members) => Obj(DenoteMembers(members))
  }

  function DenoteItems(items: Items): seq<Json>
    requires ValidItems(items)
  {
    [Denote(items.value)] + if items.NextItem? then DenoteItems(items.rest) else []
  }

  function DenoteMembers(ms: Members): seq<Member>
    requires ValidMembers(ms)
  {
    assert ValidEntry(ms.entry);
    [Member(Decode(ms.entry.name), Denote(ms.entry.value))] + if ms.NextMember? then DenoteMembers(ms.rest) else []
  }

  function Size(j: Json): (n: nat)
    ensures n >= 1
  {
    match j
    case Arr(items) => 1 + SizeItems(items)
    case Obj(members) => 1 + SizeMembers(members)
    case _ => 1
  }

  function SizeItems(items: seq<Json>): nat {
    if items == [] then 0 else Size(items[0]) + SizeItems(items[1..])
  }

  function SizeMembers(members: seq<Member>): nat {
    if members == [] then 0 else Size(members[0].value) + SizeMembers(members[1..])
  }

  function Height(j: Json): nat {
    match j
    case Arr(items) => if items == [] then 0 else 1 + HeightItems(items)
    case Obj(members) => if members == [] then 0 else 1 + HeightMembers(members)
    case _ => 0
  }

  function HeightItems(items: seq<Json>): nat {
    if items == [] then 0 else Max(Height(items[0]), HeightItems(items[1..]))
  }

  function HeightMembers(members: seq<Member>): nat {
    if members == [] then 0 else Max(Height(members[0].value), HeightMembers(members[1..]))
  }

  // The parsed value has as many nodes, nested as deep, as its text.
  lemma {:induction false} DenoteMeasures(v: Value)
    requires Valid(v)
    ensures Size(Denote(v)) == Nodes(v) && Height(Denote(v)) == Depth(v)
  {
    match v
    case Array(items) => ItemsMeasures(items);
    case Object(members) => MembersMeasures(members);
    case _ =>
  }

  lemma {:induction false} ItemsMeasures(items: Items)
    requires ValidItems(items)
    ensures var js := DenoteItems(items); |js| > 0 && SizeItems(js) == ItemNodes(items) && HeightItems(js) == ItemDepth(items)
  {
    DenoteMeasures(items.value);
    var js := DenoteItems(items);
    if items.NextItem? {
      ItemsMeasures(items.rest);
      assert js[1..] == DenoteItems(items.rest);
    } else {
      assert js[1..] == [];
    }
  }

  lemma {:induction false} MembersMeasures(ms: Members)
    requires ValidMembers(ms)
    ensures var js := DenoteMembers(ms); |js| > 0 && SizeMembers(js) == MemberNodes(ms) && HeightMembers(js) == MemberDepth(ms)
  {
    assert ValidEntry(ms.entry);
    DenoteMeasures(ms.entry.value);
    var js := DenoteMembers(ms);
    if ms.NextMember? {
      MembersMeasures(ms.rest);
      assert js[1..] == DenoteMembers(ms.rest);
    } else {
      assert js[1..] == [];
    }
  }
}
