/**
 XOR accumulators: 32 bytes that stand for a set of rows in whatever order they are folded.
 */
module Accumulators {

  type Digest = s: seq<bv8> | |s| == 32 witness ZERO_BYTES

  const ZERO_BYTES: seq<bv8> := [0, 0, 0, 0, 0, 0, 0, 0, 0, 0, 0, 0, 0, 0, 0, 0, 0, 0, 0, 0, 0, 0, 0, 0, 0, 0, 0, 0, 0, 0, 0, 0]
  const ZERO: Digest := ZERO_BYTES

  function Xor(a: Digest, b: Digest): Digest {
    seq(32, i requires 0 <= i < 32 => a[i] ^ b[i])
  }

  // The byte loop of the source.
  method XorBuffers(left: Digest, right: Digest) returns (result: Digest)
    ensures result == Xor(left, right)
  {
    var buffer := new bv8[32];
    for index := 0 to 32
      invariant forall i :: 0 <= i < index ==> buffer[i] == left[i] ^ right[i]
    {
      buffer[index] := left[index] ^ right[index];
    }
    result := buffer[..];
  }

  lemma XorCommutes(a: Digest, b: Digest)
    ensures Xor(a, b) == Xor(b, a)
  {
    assert forall i :: 0 <= i < 32 ==> Xor(a, b)[i] == Xor(b, a)[i];
  }

  lemma XorAssociates(a: Digest, b: Digest, c: Digest)
    ensures Xor(Xor(a, b), c) == Xor(a, Xor(b, c))
  {
    forall i | 0 <= i < 32 ensures Xor(Xor(a, b), c)[i] == Xor(a, Xor(b, c))[i] {
      ByteAssociates(a[i], b[i], c[i]);
    }
  }

  lemma ByteAssociates(a: bv8, b: bv8, c: bv8)
    ensures (a ^ b) ^ c == a ^ (b ^ c)
  {
  }

  lemma XorCancels(a: Digest, b: Digest)
    ensures Xor(Xor(a, b), b) == a
  {
    forall i | 0 <= i < 32 ensures Xor(Xor(a, b), b)[i] == a[i] {
      ByteCancels(a[i], b[i]);
    }
  }

  lemma ByteCancels(a: bv8, b: bv8)
    ensures (a ^ b) ^ b == a
  {
  }

  lemma XorSwaps(a: Digest, b: Digest, c: Digest)
    ensures Xor(a, Xor(b, c)) == Xor(b, Xor(a, c))
  {
    XorAssociates(a, b, c);
    XorCommutes(a, b);
    XorAssociates(b, a, c);
  }

  // ----- The accumulator of a table of members -----

  ghost function Total<K(!new)>(members: map<K, Digest>): Digest
    decreases |members|
  {
    if members == map[] then ZERO
    else
      var k :| k in members;
      assert |members - {k}| < |members| by { Smaller(members, k); }
      Xor(members[k], Total(members - {k}))
  }

  lemma Smaller<K, V>(m: map<K, V>, k: K)
    requires k in m
    ensures |m - {k}| == |m| - 1
  {
    assert (m - {k}).Keys == m.Keys - {k};
    assert |(m - {k}).Keys| == |m.Keys| - 1;
  }

  // Any member can be taken out first.
  lemma {:induction false} TotalTakes<K(!new)>(members: map<K, Digest>, k: K)
    requires k in members
    ensures Total(members) == Xor(members[k], Total(members - {k}))
    decreases |members|
  {
    var p :| p in members && Total(members) == Xor(members[p], Total(members - {p}));
    if p != k {
      Smaller(members, p);
      Smaller(members, k);
      TotalTakes(members - {p}, k);
      TotalTakes(members - {k}, p);
      assert members - {p} - {k} == members - {k} - {p};
      XorSwaps(members[p], members[k], Total(members - {p} - {k}));
    }
  }

  lemma TotalAdds<K(!new)>(members: map<K, Digest>, k: K, d: Digest)
    requires k !in members
    ensures Total(members[k := d]) == Xor(Total(members), d)
  {
    TotalTakes(members[k := d], k);
    assert members[k := d] - {k} == members;
    XorCommutes(d, Total(members));
  }

  lemma TotalRemoves<K(!new)>(members: map<K, Digest>, k: K)
    requires k in members
    ensures Total(members - {k}) == Xor(Total(members), members[k])
  {
    TotalTakes(members, k);
    XorCommutes(members[k], Total(members - {k}));
    XorCancels(Total(members - {k}), members[k]);
  }

  lemma TotalReplaces<K(!new)>(members: map<K, Digest>, k: K, d: Digest)
    requires k in members
    ensures Total(members[k := d]) == Xor(Xor(Total(members), members[k]), d)
  {
    TotalRemoves(members, k);
    assert (members - {k})[k := d] == members[k := d];
    TotalAdds(members - {k}, k, d);
  }

  ghost predicate Enumerates<K(!new)>(order: seq<K>, keys: set<K>) {
    && (forall k :: k in order <==> k in keys)
    && (forall i, j :: 0 <= i < j < |order| ==> order[i] != order[j])
  }

  ghost function Fold<K(!new)>(members: map<K, Digest>, order: seq<K>): Digest
    requires forall k :: k in order ==> k in members
  {
    if order == [] then ZERO else Xor(Fold(members, order[..|order| - 1]), members[order[|order| - 1]])
  }

  lemma HasKey<K, V>(m: map<K, V>)
    requires m != map[]
    ensures exists k :: k in m.Keys
  {
    assert exists k :: k in m;
  }

  // Folding the members in any order gives the same accumulator.
  lemma {:induction false} AnyOrder<K(!new)>(members: map<K, Digest>, order: seq<K>)
    requires Enumerates(order, members.Keys)
    ensures Fold(members, order) == Total(members)
    decreases |order|
  {
    if order == [] {
      if members != map[] { HasKey(members); }
    } else {
      var last, rest := order[|order| - 1], order[..|order| - 1];
      var fewer := members - {last};
      assert last in order;
      forall k ensures k in rest <==> k in fewer {
        if k in fewer {
          var i :| 0 <= i < |order| && order[i] == k;
          assert rest[i] == k;
        }
      }
      AnyOrder(fewer, rest);
      FoldAgrees(members, fewer, rest);
      TotalTakes(members, last);
      XorCommutes(members[last], Total(fewer));
    }
  }

  lemma {:induction false} FoldAgrees<K(!new)>(m: map<K, Digest>, n: map<K, Digest>, order: seq<K>)
    requires forall k :: k in order ==> k in m && k in n && m[k] == n[k]
    ensures Fold(m, order) == Fold(n, order)
  {
    if order != [] {
      FoldAgrees(m, n, order[..|order| - 1]);
      assert order[|order| - 1] in order;
    }
  }
}
