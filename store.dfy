/** The module-level `Dict[str, T]` that every router keeps: a map from id to
    entity plus the order in which the ids were inserted, since a Python dict
    iterates in insertion order. */
module Stores {
  import opened Outcomes

  predicate Distinct<K(==)>(s: seq<K>)
  {
    forall i, j :: 0 <= i < j < |s| ==> s[i] != s[j]
  }

  /** Every entry is filed under its own id, as `idOf` reads it off. */
  ghost predicate KeyedBy<T>(entries: map<string, T>, idOf: T -> string)
  {
    forall k :: k in entries ==> idOf(entries[k]) == k
  }

  /** `r` holds the stored values, one per key, in insertion order. */
  ghost predicate ListsInOrder<T>(r: seq<T>, entries: map<string, T>, order: seq<string>)
  {
    && |r| == |order| == |entries|
    && (forall i :: 0 <= i < |order| ==> order[i] in entries && r[i] == entries[order[i]])
    && (forall k :: k in entries ==> entries[k] in r)
  }

  function ValuesOf<T>(entries: map<string, T>, order: seq<string>): (values: seq<T>)
    requires forall i :: 0 <= i < |order| ==> order[i] in entries
  {
    seq(|order|, i requires 0 <= i < |order| => entries[order[i]])
  }

  /** Inserting a fresh key appends its value to the listing. */
  lemma ValuesAfterInsert<T>(entries: map<string, T>, order: seq<string>, key: string, item: T)
    requires forall i :: 0 <= i < |order| ==> order[i] in entries
    requires key !in entries
    ensures ValuesOf(entries[key := item], order + [key]) == ValuesOf(entries, order) + [item]
  {
  }

  /** A duplicate-free sequence that enumerates a set has the set's size. */
  lemma {:induction false} DistinctEnumerationSize(order: seq<string>, keys: set<string>)
    requires Distinct(order)
    requires forall k :: k in keys <==> k in order
    ensures |keys| == |order|
  {
    if order != [] {
      var n := |order| - 1;
      var last := order[n];
      forall k | k in keys - {last} ensures k in order[..n] {
        var i :| 0 <= i < |order| && order[i] == k;
        assert i != n;
      }
      forall k | k in order[..n] ensures k in keys - {last} {
        var i :| 0 <= i < n && order[..n][i] == k;
        assert order[i] != order[n];
      }
      DistinctEnumerationSize(order[..n], keys - {last});
    }
  }

  class Store<T> {
    /** The 400 detail for a taken id, e.g. "Course already exists". */
    const duplicateDetail: string
    /** The 404 detail for a missing id, e.g. "Course not found". */
    const missingDetail: string
    var entries: map<string, T>
    var order: seq<string>

    ghost predicate Valid()
      reads this
    {
      && Distinct(order)
      && (forall k :: k in entries <==> k in order)
    }

    /** The empty dict a router declares at module level. */
    constructor (duplicateDetail: string, missingDetail: string)
      ensures Valid()
      ensures this.duplicateDetail == duplicateDetail && this.missingDetail == missingDetail
      ensures entries == map[] && order == []
    {
      this.duplicateDetail := duplicateDetail;
      this.missingDetail := missingDetail;
      entries := map[];
      order := [];
    }

    /** `dict.values()`, in insertion order. */
    function Values(): seq<T>
      reads this
      requires Valid()
    {
      assert forall i :: 0 <= i < |order| ==> order[i] in entries;
      ValuesOf(entries, order)
    }

    /** `if key in d: raise 400; d[key] = item; return item`. */
    method Create(key: string, item: T) returns (r: Result<T>)
      requires Valid()
      modifies this
      ensures Valid()
      ensures key in old(entries) ==>
        && r == Err(HttpError(400, duplicateDetail))
        && entries == old(entries) && order == old(order)
      ensures key !in old(entries) ==>
        && r == Ok(item)
        && entries == old(entries)[key := item] && order == old(order) + [key]
      ensures key !in old(entries) ==> Values() == old(Values()) + [item]
    {
      if key in entries {
        return Err(HttpError(400, duplicateDetail));
      }
      assert forall i :: 0 <= i < |order| ==> order[i] in entries;
      ValuesAfterInsert(entries, order, key, item);
      entries := entries[key := item];
      order := order + [key];
      r := Ok(item);
    }

    /** `d.get(key)`, raising 404 when it is missing; reads only. */
    method Get(key: string) returns (r: Result<T>)
      requires Valid()
      ensures r.Ok? <==> key in entries
      ensures r.Ok? ==> r.value == entries[key]
      ensures r.Err? ==> r.error == HttpError(404, missingDetail)
    {
      if key in entries {
        r := Ok(entries[key]);
      } else {
        r := Err(HttpError(404, missingDetail));
      }
    }

    /** `list(d.values())`; reads only. */
    method List() returns (r: seq<T>)
      requires Valid()
      ensures ListsInOrder(r, entries, order)
    {
      r := Values();
      DistinctEnumerationSize(order, entries.Keys);
      forall k | k in entries ensures entries[k] in r {
        var i :| 0 <= i < |order| && order[i] == k;
        assert r[i] == entries[k];
      }
    }
  }
}
