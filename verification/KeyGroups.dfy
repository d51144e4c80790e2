/** The grouping stage of the many-to-one loaders: nodes are collected under the key they carry. */
module KeyGroups {
  import opened Wrappers
  import opened Sequences

  /** The keys that are not nil, in node order. */
  function Somes(keys: seq<Option<int>>): seq<int> {
    if keys == [] then []
    else
      var n := |keys| - 1;
      if keys[n].Some? then Somes(keys[..n]) + [keys[n].value] else Somes(keys[..n])
  }

  /** The nodes that carry a key, in node order. */
  function WithKey<T>(nodes: seq<T>, keys: seq<Option<int>>, k: int): seq<T>
    requires |nodes| == |keys|
  {
    if nodes == [] then []
    else
      var n := |nodes| - 1;
      var r := WithKey(nodes[..n], keys[..n], k);
      if keys[n] == Some(k) then r + [nodes[n]] else r
  }

  /** nodeids holds, under exactly the keys that occur, the nodes that carry each key. */
  ghost predicate Grouped<T>(nodeids: map<int, seq<T>>, nodes: seq<T>, keys: seq<Option<int>>)
    requires |nodes| == |keys|
  {
    && (forall k :: k in nodeids <==> k in Somes(keys))
    && (forall k :: k in nodeids ==> nodeids[k] == WithKey(nodes, keys, k))
  }

  lemma {:induction false} SomesMeaning(keys: seq<Option<int>>)
    ensures forall k :: k in Somes(keys) <==> Some(k) in keys
  {
    if keys != [] {
      var n := |keys| - 1;
      SomesMeaning(keys[..n]);
      assert keys == keys[..n] + [keys[n]];
    }
  }

  lemma {:induction false} WithKeyMeaning<T>(nodes: seq<T>, keys: seq<Option<int>>, k: int)
    requires |nodes| == |keys|
    ensures forall x :: x in WithKey(nodes, keys, k) <==>
              exists i :: 0 <= i < |nodes| && nodes[i] == x && keys[i] == Some(k)
  {
    if nodes != [] {
      var n := |nodes| - 1;
      WithKeyMeaning(nodes[..n], keys[..n], k);
      forall x
        ensures x in WithKey(nodes, keys, k) <==> exists i :: 0 <= i < |nodes| && nodes[i] == x && keys[i] == Some(k)
      {
        if i :| 0 <= i < |nodes| && nodes[i] == x && keys[i] == Some(k) {
          if i < n {
            assert nodes[..n][i] == x && keys[..n][i] == Some(k);
          }
        }
      }
    }
  }

  /** The keys that are not nil are listed in node order. */
  lemma {:induction false} SomesOrder(keys: seq<Option<int>>) returns (positions: seq<nat>)
    ensures |Somes(keys)| == |positions|
    ensures forall k :: 0 <= k < |positions| ==> positions[k] < |keys| && keys[positions[k]] == Some(Somes(keys)[k])
    ensures forall j, k :: 0 <= j < k < |positions| ==> positions[j] < positions[k]
    ensures forall i :: 0 <= i < |keys| ==> (i in positions <==> keys[i].Some?)
  {
    positions := [];
    if keys != [] {
      var n := |keys| - 1;
      positions := SomesOrder(keys[..n]);
      if keys[n].Some? {
        positions := positions + [n];
      }
    }
  }

  /** The nodes under a key are exactly those at the positions that carry it, in node order. */
  lemma {:induction false} WithKeyOrder<T>(nodes: seq<T>, keys: seq<Option<int>>, k: int)
    returns (positions: seq<nat>)
    requires |nodes| == |keys|
    ensures Picked(WithKey(nodes, keys, k), nodes, positions)
    ensures forall i :: 0 <= i < |nodes| ==> (i in positions <==> keys[i] == Some(k))
  {
    positions := [];
    if nodes != [] {
      var n := |nodes| - 1;
      positions := WithKeyOrder(nodes[..n], keys[..n], k);
      positions := PickedStep(WithKey(nodes[..n], keys[..n], k), nodes, positions, keys[n] == Some(k));
    }
  }

  lemma {:induction false} AbsentKey<T>(nodes: seq<T>, keys: seq<Option<int>>, k: int)
    requires |nodes| == |keys|
    ensures WithKey(nodes, keys, k) == [] <==> k !in Somes(keys)
  {
    if nodes != [] {
      var n := |nodes| - 1;
      AbsentKey(nodes[..n], keys[..n], k);
    }
  }

  /** The grouping loop: the distinct keys in first-appearance order, and the nodes under each key. */
  method GroupByKey<T>(nodes: seq<T>, keys: seq<Option<int>>) returns (ids: seq<int>, nodeids: map<int, seq<T>>)
    requires |nodes| == |keys|
    ensures ids == FirstSeen(Somes(keys))
    ensures Grouped(nodeids, nodes, keys)
  {
    ids, nodeids := [], map[];
    for i := 0 to |nodes|
      invariant ids == FirstSeen(Somes(keys[..i]))
      invariant Grouped(nodeids, nodes[..i], keys[..i])
    {
      assert nodes[..i + 1][..i] == nodes[..i] && keys[..i + 1][..i] == keys[..i];
      if keys[i].None? {
        continue;
      }
      var fk := keys[i].value;
      assert Somes(keys[..i + 1])[..|Somes(keys[..i])|] == Somes(keys[..i]);
      AbsentKey(nodes[..i], keys[..i], fk);
      if fk !in nodeids {
        ids := ids + [fk];
      }
      nodeids := nodeids[fk := (if fk in nodeids then nodeids[fk] else []) + [nodes[i]]];
    }
    assert nodes[..|nodes|] == nodes && keys[..|nodes|] == keys;
  }

  function TotalLength<T>(nodes: seq<T>, keys: seq<Option<int>>, ids: seq<int>): nat
    requires |nodes| == |keys|
  {
    if ids == [] then 0 else TotalLength(nodes, keys, ids[..|ids| - 1]) + |WithKey(nodes, keys, ids[|ids| - 1])|
  }

  lemma {:induction false} TotalLengthStep<T>(nodes: seq<T>, keys: seq<Option<int>>, ids: seq<int>)
    requires |nodes| == |keys| && nodes != [] && NoDup(ids)
    ensures var n := |nodes| - 1;
            TotalLength(nodes, keys, ids) ==
            TotalLength(nodes[..n], keys[..n], ids) + if keys[n].Some? && keys[n].value in ids then 1 else 0
  {
    if ids != [] {
      var m := |ids| - 1;
      TotalLengthStep(nodes, keys, ids[..m]);
      assert ids == ids[..m] + [ids[m]];
    }
  }

  /** The groups partition the nodes that have a key: over the distinct keys, the group sizes add up to the number
      of such nodes. */
  lemma {:induction false} GroupsPartition<T>(nodes: seq<T>, keys: seq<Option<int>>, ids: seq<int>)
    requires |nodes| == |keys| && NoDup(ids)
    requires forall k :: k in Somes(keys) ==> k in ids
    ensures TotalLength(nodes, keys, ids) == |Somes(keys)|
  {
    if nodes == [] {
      EmptyTotal(nodes, keys, ids);
    } else {
      var n := |nodes| - 1;
      assert Somes(keys) == if keys[n].Some? then Somes(keys[..n]) + [keys[n].value] else Somes(keys[..n]);
      assert keys[n].Some? ==> Somes(keys)[|Somes(keys)| - 1] == keys[n].value;
      GroupsPartition(nodes[..n], keys[..n], ids);
      TotalLengthStep(nodes, keys, ids);
    }
  }

  lemma {:induction false} EmptyTotal<T>(nodes: seq<T>, keys: seq<Option<int>>, ids: seq<int>)
    requires |nodes| == |keys| == 0
    ensures TotalLength(nodes, keys, ids) == 0
  {
    if ids != [] {
      EmptyTotal(nodes, keys, ids[..|ids| - 1]);
    }
  }

  /** The groups of some keys, one after the other. */
  function AllWithKey<T>(nodes: seq<T>, keys: seq<Option<int>>, ids: seq<int>): seq<T>
    requires |nodes| == |keys|
  {
    if ids == [] then [] else AllWithKey(nodes, keys, ids[..|ids| - 1]) + WithKey(nodes, keys, ids[|ids| - 1])
  }

  lemma AllWithKeySplit<T>(nodes: seq<T>, keys: seq<Option<int>>, ids: seq<int>)
    requires |nodes| == |keys| && ids != []
    ensures multiset(AllWithKey(nodes, keys, ids)) ==
            multiset(AllWithKey(nodes, keys, ids[..|ids| - 1])) + multiset(WithKey(nodes, keys, ids[|ids| - 1]))
  {
  }

  lemma WithKeyStep<T>(nodes: seq<T>, keys: seq<Option<int>>, id: int)
    requires |nodes| == |keys| && nodes != []
    ensures var n := |nodes| - 1;
            multiset(WithKey(nodes, keys, id)) ==
            multiset(WithKey(nodes[..n], keys[..n], id)) + if keys[n] == Some(id)
              then multiset{nodes[n]} else multiset{}
  {
  }

  /** An element of a duplicate-free list is either the last one or among the others. */
  lemma InOnce(ids: seq<int>, k: int)
    requires NoDup(ids) && ids != []
    ensures k in ids <==> k in ids[..|ids| - 1] || k == ids[|ids| - 1]
    ensures k == ids[|ids| - 1] ==> k !in ids[..|ids| - 1]
  {
    assert ids == ids[..|ids| - 1] + [ids[|ids| - 1]];
  }

  lemma {:induction false} AllWithKeyStep<T>(nodes: seq<T>, keys: seq<Option<int>>, ids: seq<int>)
    requires |nodes| == |keys| && nodes != [] && NoDup(ids)
    ensures var n := |nodes| - 1;
            multiset(AllWithKey(nodes, keys, ids)) ==
            multiset(AllWithKey(nodes[..n], keys[..n], ids))
            + if keys[n].Some? && keys[n].value in ids then multiset{nodes[n]} else multiset{}
  {
    if ids != [] {
      var m, n := |ids| - 1, |nodes| - 1;
      AllWithKeyStep(nodes, keys, ids[..m]);
      AllWithKeySplit(nodes, keys, ids);
      AllWithKeySplit(nodes[..n], keys[..n], ids);
      WithKeyStep(nodes, keys, ids[m]);
      if keys[n].Some? {
        InOnce(ids, keys[n].value);
      }
    }
  }

  lemma {:induction false} NothingToGroup<T>(ids: seq<int>)
    ensures AllWithKey<T>([], [], ids) == []
  {
    if ids != [] {
      NothingToGroup<T>(ids[..|ids| - 1]);
    }
  }

  /** Over distinct keys, among which every node's is, the groups together hold every node exactly as often as the
      list does. */
  lemma {:induction false} GroupsHoldAll<T>(nodes: seq<T>, keys: seq<Option<int>>, ids: seq<int>)
    requires |nodes| == |keys| && NoDup(ids)
    requires forall i :: 0 <= i < |keys| ==> keys[i].Some? && keys[i].value in ids
    ensures multiset(AllWithKey(nodes, keys, ids)) == multiset(nodes)
  {
    if nodes == [] {
      NothingToGroup<T>(ids);
      assert keys == [];
    } else {
      var n := |nodes| - 1;
      GroupsHoldAll(nodes[..n], keys[..n], ids);
      AllWithKeyStep(nodes, keys, ids);
      MultisetSplit(nodes);
    }
  }
}
