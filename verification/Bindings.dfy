/** Lists of key/value bindings read so that the last binding of a key wins, and removal by
    swapping with the last element. */
module Bindings {

  datatype Binding<K, V> = Binding(key: K, value: V)

  function LastWins<K, V>(bs: seq<Binding<K, V>>): map<K, V> {
    if bs == [] then map[]
    else LastWins(bs[..|bs| - 1])[bs[|bs| - 1].key := bs[|bs| - 1].value]
  }

  ghost predicate DistinctKeys<K, V>(bs: seq<Binding<K, V>>) {
    forall i, j :: 0 <= i < j < |bs| ==> bs[i].key != bs[j].key
  }

  /** Overwrites element i with the last element and drops the last position. */
  function SwapRemove<T>(s: seq<T>, i: nat): (r: seq<T>)
    requires i < |s|
    ensures |r| == |s| - 1
  {
    s[i := s[|s| - 1]][..|s| - 1]
  }

  /** The list around position i, and the same pieces after removal by swap. */
  lemma SwapRemovePieces<T>(s: seq<T>, i: nat)
    requires i < |s| - 1
    ensures s == s[..i] + ([s[i]] + (s[i + 1..|s| - 1] + [s[|s| - 1]]))
    ensures SwapRemove(s, i) == s[..i] + ([s[|s| - 1]] + s[i + 1..|s| - 1])
  {}

  lemma SwapRemoveLast<T>(s: seq<T>, x: T)
    ensures SwapRemove(s + [x], |s|) == s
  {}

  lemma SwapRemoveElements<T>(s: seq<T>, i: nat)
    requires i < |s|
    ensures multiset(SwapRemove(s, i)) == multiset(s) - multiset{s[i]}
  {
    var last := |s| - 1;
    var moved := s[i := s[last]];
    assert moved == moved[..last] + [s[last]];
    assert multiset(moved) == multiset(moved[..last]) + multiset{s[last]};
    var kept, rest, b := multiset(moved[..last]), multiset(s) - multiset{s[i]}, multiset{s[last]};
    assert kept + b == rest + b;
    assert forall x :: kept[x] == (kept + b)[x] - b[x] == (rest + b)[x] - b[x] == rest[x];
  }

  lemma One<K, V>(b: Binding<K, V>)
    ensures LastWins([b]) == map[b.key := b.value]
  {
    assert [b][..0] == [];
  }

  lemma {:induction false} Concat<K, V>(a: seq<Binding<K, V>>, b: seq<Binding<K, V>>)
    ensures LastWins(a + b) == LastWins(a) + LastWins(b)
  {
    if b == [] {
      assert a + b == a;
    } else {
      Concat(a, b[..|b| - 1]);
      assert (a + b)[..|a + b| - 1] == a + b[..|b| - 1];
    }
  }

  lemma {:induction false} Keys<K, V>(bs: seq<Binding<K, V>>, k: K)
    ensures k in LastWins(bs) <==> exists i :: 0 <= i < |bs| && bs[i].key == k
  {
    if bs != [] {
      var last := |bs| - 1;
      Keys(bs[..last], k);
      assert bs[last].key == k || forall i :: 0 <= i < |bs| && bs[i].key == k ==> bs[..last][i] == bs[i];
    }
  }

  /** With distinct keys every binding is visible. */
  lemma {:induction false} Distinct<K, V>(bs: seq<Binding<K, V>>, i: nat)
    requires DistinctKeys(bs) && i < |bs|
    ensures bs[i].key in LastWins(bs) && LastWins(bs)[bs[i].key] == bs[i].value
  {
    if i < |bs| - 1 {
      Distinct(bs[..|bs| - 1], i);
    }
  }

  lemma Insert<K, V>(before: seq<Binding<K, V>>, b: Binding<K, V>, after: seq<Binding<K, V>>)
    ensures LastWins(before + ([b] + after)) == LastWins(before) + (map[b.key := b.value] + LastWins(after))
  {
    Concat(before, [b] + after);
    Concat([b], after);
    One(b);
  }

  lemma Absent<K, V>(bs: seq<Binding<K, V>>, k: K)
    requires forall i :: 0 <= i < |bs| ==> bs[i].key != k
    ensures k !in LastWins(bs)
  {
    Keys(bs, k);
  }

  /** A binding whose key does not occur in a list may stand before or after it. */
  lemma Commute<K, V>(before: seq<Binding<K, V>>, b: Binding<K, V>, after: seq<Binding<K, V>>)
    requires b.key !in LastWins(after)
    ensures LastWins(before + ([b] + after)) == LastWins(before + (after + [b]))
  {
    var x, y := LastWins(before), LastWins(after);
    assert LastWins(before + ([b] + after)) == x + (map[b.key := b.value] + y) by {
      Insert(before, b, after);
    }
    assert LastWins(before + (after + [b])) == x + (y + map[b.key := b.value]) by {
      Concat(before, after + [b]);
      Concat(after, [b]);
      One(b);
    }
    assert map[b.key := b.value] + y == y + map[b.key := b.value];
  }

  /** Removal by swap reads the same as removal that keeps the order. */
  lemma SwapRemoveOrder<K, V>(bs: seq<Binding<K, V>>, i: nat)
    requires DistinctKeys(bs) && i < |bs|
    ensures LastWins(SwapRemove(bs, i)) == LastWins(bs[..i] + bs[i + 1..])
  {
    var last := |bs| - 1;
    if i < last {
      SwapRemovePieces(bs, i);
      Absent(bs[i + 1..last], bs[last].key);
      Commute(bs[..i], bs[last], bs[i + 1..last]);
      assert bs[i + 1..last] + [bs[last]] == bs[i + 1..];
    } else {
      assert SwapRemove(bs, i) == bs[..i] + bs[i + 1..];
    }
  }

  lemma Around<K, V>(bs: seq<Binding<K, V>>, i: nat)
    requires i < |bs|
    ensures LastWins(bs) == LastWins(bs[..i]) + (map[bs[i].key := bs[i].value] + LastWins(bs[i + 1..]))
  {
    assert bs == bs[..i] + ([bs[i]] + bs[i + 1..]);
    Insert(bs[..i], bs[i], bs[i + 1..]);
  }

  lemma WithoutIt<K, V>(bs: seq<Binding<K, V>>, i: nat)
    requires DistinctKeys(bs) && i < |bs|
    ensures LastWins(SwapRemove(bs, i)) == LastWins(bs[..i]) + LastWins(bs[i + 1..])
  {
    SwapRemoveOrder(bs, i);
    Concat(bs[..i], bs[i + 1..]);
  }

  /** Removal by swap takes exactly one key away. */
  lemma SwapRemoveMeaning<K, V>(bs: seq<Binding<K, V>>, i: nat)
    requires DistinctKeys(bs) && i < |bs|
    ensures LastWins(SwapRemove(bs, i)) == LastWins(bs) - {bs[i].key}
  {
    Around(bs, i);
    WithoutIt(bs, i);
    Absent(bs[..i], bs[i].key);
    Absent(bs[i + 1..], bs[i].key);
    Forget(LastWins(bs), LastWins(SwapRemove(bs, i)),
           LastWins(bs[..i]), bs[i].key, bs[i].value, LastWins(bs[i + 1..]));
  }

  lemma Forget<K, V>(whole: map<K, V>, rest: map<K, V>, a: map<K, V>, k: K, v: V, b: map<K, V>)
    requires whole == a + (map[k := v] + b) && rest == a + b
    requires k !in a && k !in b
    ensures rest == whole - {k}
  {
    assert forall x :: x in whole - {k} <==> x in rest;
    assert forall x :: x in rest ==> (whole - {k})[x] == whole[x] == rest[x];
  }
}
