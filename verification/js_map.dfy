/** The JavaScript `Map` keyed by strings that the store and the app-search merge use:
    entries plus the insertion order that iteration follows. */
module JsMap {
  import opened Wrappers

  /** `order` without `k`. */
  function RemoveKey(order: seq<string>, k: string): (r: seq<string>)
    ensures forall x :: x in r <==> x in order && x != k
    ensures k !in order ==> r == order
    ensures (forall i, j :: 0 <= i < j < |order| ==> order[i] != order[j])
            ==> forall i, j :: 0 <= i < j < |r| ==> r[i] != r[j]
  {
    if |order| == 0 then []
    else if order[0] == k then RemoveKey(order[1..], k)
    else
      var rest := RemoveKey(order[1..], k);
      assert (forall i, j :: 0 <= i < j < |order| ==> order[i] != order[j]) ==> order[0] !in rest by {
        if order[0] in order[1..] {
          var m :| 0 <= m < |order[1..]| && order[1..][m] == order[0];
          assert order[m + 1] == order[0];
        }
      }
      [order[0]] + rest
  }

  /** A JavaScript `Map` keyed by string: its entries and the insertion order that its
      iteration follows. `set` on a present key keeps the key's position; `delete` drops it. */
  datatype Table<V> = Table(order: seq<string>, entries: map<string, V>) {

    ghost predicate Valid() {
      && (forall i, j :: 0 <= i < j < |order| ==> order[i] != order[j])
      && (forall k :: k in entries <==> k in order)
    }

    /** `Array.from(map.values())`. */
    function Values(): (r: seq<V>)
      requires Valid()
      ensures |r| == |order| && forall i :: 0 <= i < |order| ==> r[i] == entries[order[i]]
    {
      seq(|order|, i requires 0 <= i < |order| => entries[order[i]])
    }

    /** `map.get(k)`. */
    function Get(k: string): (r: Option<V>)
      ensures r.Some? <==> k in entries
      ensures r.Some? ==> r.value == entries[k]
    {
      if k in entries then Some(entries[k]) else None
    }

    /** `map.set(k, v)`: a new key goes last; a present key is overwritten in place. */
    function Set(k: string, v: V): (t: Table<V>)
      requires Valid()
      ensures t.Valid()
      ensures t.entries == entries[k := v]
      ensures k !in entries ==> t.Values() == Values() + [v]
      ensures k in entries ==> (|t.Values()| == |Values()|
              && forall i :: 0 <= i < |order| ==> t.Values()[i] == if order[i] == k then v else Values()[i])
    {
      if k in entries then Table(order, entries[k := v])
      else
        var t := Table(order + [k], entries[k := v]);
        assert t.Values() == Values() + [v];
        t
    }

    /** `map.delete(k)`; a missing key is a no-op. */
    function Delete(k: string): (t: Table<V>)
      requires Valid()
      ensures t.Valid()
      ensures t.entries == entries - {k}
      ensures k !in entries ==> t == this
    {
      Table(RemoveKey(order, k), entries - {k})
    }
  }

  function EmptyTable<V>(): (t: Table<V>)
    ensures t.Valid() && t.Values() == []
  {
    Table([], map[])
  }

}
