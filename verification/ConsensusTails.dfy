/** The maps of the consensus layer that are tail maps in the source: slots, and valid values. What
    the protocol says of them as maps is what the tail map does entry by entry. */
module ConsensusTails {
  import opened Options
  import opened ConsensusLog
  import opened ConsensusProtocol
  import opened TailMap

  /** The entries of the tail map, in order, are those of the map. */
  ghost predicate Lists<V>(items: seq<TailMap.Entry<V>>, m: map<nat, V>) {
    && Ordered(items)
    && (forall j :: 0 <= j < |items| ==> items[j].key in m && m[items[j].key] == items[j].value)
    && forall k :: k in m ==> Has(items, k)
  }

  /** What lies less than `tail` behind the key. */
  function Recent<V>(m: map<nat, V>, tail: nat, key: nat): map<nat, V> {
    map k | k in m && key < k + tail :: m[k]
  }

  // ---------- Slots ----------

  lemma KeepFrom<V>(items: seq<TailMap.Entry<V>>, tail: nat, key: nat) returns (n: nat)
    ensures n <= |items| && Keep(items, tail, key) == items[n..]
    ensures (forall i :: 0 <= i < n ==> items[i].key + tail <= key) && (n < |items| ==> key < items[n].key + tail)
  {
    n := |items| - |Keep(items, tail, key)|;
    hide Keep;
  }

  lemma SuffixLists<V>(items: seq<TailMap.Entry<V>>, tail: nat, key: nat, n: nat, m: map<nat, V>)
    requires Lists(items, m) && n <= |items|
    requires (forall i :: 0 <= i < n ==> items[i].key + tail <= key) && (n < |items| ==> key < items[n].key + tail)
    ensures Lists(items[n..], Recent(m, tail, key))
  {
    var kept := items[n..];
    forall j | 0 <= j < |kept| ensures kept[j] == items[n + j] && key < kept[j].key + tail {}
    forall k | k in m && key < k + tail ensures Has(kept, k) {
      var i :| 0 <= i < |items| && items[i].key == k;
      assert kept[i - n].key == k;
    }
  }

  lemma AppendLists<V>(items: seq<TailMap.Entry<V>>, key: nat, value: V, m: map<nat, V>)
    requires Lists(items, m) && (items != [] ==> Last(items) < key)
    ensures Lists(items + [TailMap.Entry(key, value)], m[key := value])
  {
    var all := items + [TailMap.Entry(key, value)];
    forall j | 0 <= j < |items| ensures all[j] == items[j] && items[j].key < key {
      assert items[j].key <= Last(items);
    }
    forall k | k in m[key := value] ensures Has(all, k) {
      if k == key {
        assert all[|items|].key == k;
      } else {
        var i :| 0 <= i < |items| && items[i].key == k;
        assert all[i].key == k;
      }
    }
  }

  lemma InsertLists<V>(items: seq<TailMap.Entry<V>>, tail: nat, key: nat, value: V, m: map<nat, V>)
    requires Lists(items, m) && (items != [] ==> Last(items) < key)
    ensures Lists(TailMap.Insert(items, tail, key, value), Recent(m, tail, key)[key := value])
  {
    var n := KeepFrom(items, tail, key);
    SuffixLists(items, tail, key, n, m);
    assert items[n..] != [] ==> Last(items[n..]) == Last(items);
    hide Keep, Lists, Recent;
    AppendLists(items[n..], key, value, Recent(m, tail, key));
  }

  /** A prepare for the own view that passes its checks is inserted as the tail map inserts: the slot
      comes last and what lies a window behind drops out, and it throws where the tail map does,
      for an instance below the last one inserted. */
  lemma SlotsAreATailMap(c: Config, l: Local, me: Replica, from: Replica, v: View, i: Instance, b: Batch, items: seq<TailMap.Entry<Slot>>)
    requires Shaped(c, l) && me < c.n && from < c.n && c.window > 0
    requires !IsByzantinePrepare(c, l, from, v, i, b) && v == l.peers[me].view && l.certified <= i
    requires Lists(items, l.slots) && (items != [] ==> Last(items) <= l.minKey)
    ensures var r := HandlePrepare(c, l, me, from, v, i, b);
            && (r.None? <==> i < l.minKey)
            && (r.Some? ==> i in r.value.slots && r.value.minKey == i && Lists(TailMap.Insert(items, c.window, i, r.value.slots[i]), r.value.slots))
  {
    assert i !in l.slots;
    if l.minKey <= i {
      var l' := ConsensusProtocol.Insert(c, l, from, v, i, b);
      LastIsNot(items, l.slots, i);
      assert HandlePrepare(c, l, me, from, v, i, b) == Some(l');
      assert l'.slots == Evict(l.slots, c.window, i)[i := l'.slots[i]];
      hide Keep, Has, Lists, HandlePrepare, IsByzantinePrepare, ConsensusProtocol.Insert;
      InsertLists(items, c.window, i, l'.slots[i], l.slots);
      EvictIs(l.slots, c.window, i);
    }
  }

  lemma LastIsNot<V>(items: seq<TailMap.Entry<V>>, m: map<nat, V>, i: nat)
    requires Lists(items, m) && i !in m
    ensures items != [] ==> Last(items) != i
  {
    hide Has, Ordered;
  }

  lemma EvictIs(slots: map<Instance, Slot>, window: nat, i: Instance)
    ensures Evict(slots, window, i) == Recent(slots, window, i)
  {}

  // ---------- Valid values ----------

  /** Inserting one entry after the other. */
  function InsertAll<V>(entries: seq<TailMap.Entry<V>>, tail: nat): seq<TailMap.Entry<V>> {
    if entries == [] then []
    else
      var last := entries[|entries| - 1];
      TailMap.Insert(InsertAll(entries[..|entries| - 1], tail), tail, last.key, last.value)
  }

  lemma InsertsLast<V>(entries: seq<TailMap.Entry<V>>, tail: nat)
    requires entries != []
    ensures var front, last := entries[..|entries| - 1], entries[|entries| - 1];
            InsertAll(entries, tail) == Keep(InsertAll(front, tail), tail, last.key) + [last] && (front == [] ==> InsertAll(entries, tail) == [last])
  {}

  /** What inserting these entries leaves, from the m-th on: those less than `tail` behind the last. */
  ghost predicate LeavesFrom<V>(entries: seq<TailMap.Entry<V>>, tail: nat, m: nat) {
    && m < |entries| && InsertAll(entries, tail) == entries[m..]
    && (forall i :: 0 <= i < m ==> entries[i].key + tail <= Last(entries))
    && Last(entries) < entries[m].key + tail
  }

  lemma {:induction false} InsertsInOrder<V>(entries: seq<TailMap.Entry<V>>, tail: nat) returns (m: nat)
    requires Ordered(entries) && tail > 0 && entries != []
    ensures LeavesFrom(entries, tail, m)
    decreases |entries|
  {
    InsertsLast(entries, tail);
    if |entries| == 1 {
      m := 0;
      assert [entries[0]] == entries[0..];
    } else {
      FrontOrdered(entries);
      hide Ordered, LeavesFrom;
      var m0 := InsertsInOrder(entries[..|entries| - 1], tail);
      m := OneMoreInOrder(entries, tail, m0);
    }
  }

  lemma OneMoreInOrder<V>(entries: seq<TailMap.Entry<V>>, tail: nat, m0: nat) returns (m: nat)
    requires Ordered(entries) && tail > 0 && |entries| > 1 && LeavesFrom(entries[..|entries| - 1], tail, m0)
    ensures LeavesFrom(entries, tail, m)
  {
    var n := |entries| - 1;
    var left := entries[..n][m0..];
    var d := KeepFrom(left, tail, entries[n].key);
    m := m0 + d;
    assert (forall i :: 0 <= i < m ==> entries[i].key + tail <= Last(entries)) && Last(entries) < entries[m].key + tail by {
      hide InsertAll, Keep, Ordered;
      KeptFrom(entries, tail, m0, d);
    }
    assert InsertAll(entries, tail) == entries[m..] by {
      InsertsLast(entries, tail);
      Slices(entries, m0, d);
      hide *;
    }
    hide InsertAll, Keep, Ordered;
  }

  lemma Slices<V>(entries: seq<TailMap.Entry<V>>, m0: nat, d: nat)
    requires entries != [] && m0 + d < |entries|
    ensures var n := |entries| - 1; entries[..n][m0..][d..] + [entries[n]] == entries[m0 + d..]
  {}

  lemma FrontOrdered<V>(entries: seq<TailMap.Entry<V>>)
    requires Ordered(entries) && entries != []
    ensures Ordered(entries[..|entries| - 1])
  {}

  lemma KeptFrom<V>(entries: seq<TailMap.Entry<V>>, tail: nat, m0: nat, d: nat)
    requires Ordered(entries) && tail > 0 && m0 + d < |entries| && |entries| > 1
    requires var front := entries[..|entries| - 1];
             && (forall i :: 0 <= i < m0 ==> front[i].key + tail <= Last(front))
             && (forall i :: 0 <= i < d ==> front[m0..][i].key + tail <= Last(entries))
             && (m0 + d < |front| ==> Last(entries) < front[m0..][d].key + tail)
    ensures forall i :: 0 <= i < m0 + d ==> entries[i].key + tail <= Last(entries)
    ensures Last(entries) < entries[m0 + d].key + tail
  {
    var n := |entries| - 1;
    forall i | 0 <= i < m0 + d ensures entries[i].key + tail <= entries[n].key {
      if i < m0 {
        assert entries[n - 1].key < entries[n].key;
      } else {
        assert entries[..n][m0..][i - m0] == entries[i];
      }
    }
  }

  /** The valid values of a NewView are what is left when its best commits are inserted in order into
      a tail map of one window. */
  lemma ValuesAreATailMap(window: nat, best: map<Instance, ConsensusLog.Entry>, entries: seq<TailMap.Entry<Batch>>)
    requires window > 0 && Lists(entries, map i | i in best :: best[i].batch)
    ensures Lists(InsertAll(entries, window), Batches(window, best))
  {
    var all := map i | i in best :: best[i].batch;
    if entries == [] {
      forall k ensures k !in best {
        assert k in all ==> Has(entries, k);
      }
    } else {
      LastIsHighest(entries, all);
      assert forall k :: k in best ==> k in all;
      BatchesAre(window, best, Last(entries));
      hide InsertAll, Batches, Lists, Recent;
      var m := InsertsInOrder(entries, window) by { ListsOrdered(entries, all); }
      SuffixLists(entries, window, Last(entries), m, all);
    }
  }

  lemma ListsOrdered<V>(items: seq<TailMap.Entry<V>>, m: map<nat, V>)
    requires Lists(items, m)
    ensures Ordered(items)
  {}

  lemma BatchesAre(window: nat, best: map<Instance, ConsensusLog.Entry>, key: Instance)
    requires key in best && forall k :: k in best ==> k <= key
    ensures Batches(window, best) == Recent(map i | i in best :: best[i].batch, window, key)
  {}

  lemma LastIsHighest<V>(entries: seq<TailMap.Entry<V>>, m: map<nat, V>)
    requires Lists(entries, m) && entries != []
    ensures Last(entries) in m && forall k :: k in m ==> k <= Last(entries)
  {
    forall k | k in m ensures k <= Last(entries) {
      assert Has(entries, k);
      var i :| 0 <= i < |entries| && entries[i].key == k;
    }
  }
}
