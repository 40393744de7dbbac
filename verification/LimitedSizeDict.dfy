/** The publisher's cache: a dictionary that forgets its oldest keys beyond a size limit. */
module LimitedSizeDicts {
  datatype Cache<V> = Cache(order: seq<string>, entries: map<string, V>)

  ghost predicate WellFormed<V>(c: Cache<V>) {
    && (forall j: nat, k: nat :: j < k < |c.order| ==> c.order[j] != c.order[k])
    && (forall id :: id in c.entries <==> id in c.order)
  }

  /** Assigning to a known key keeps its place; a fresh key goes last. */
  function Assign<V>(c: Cache<V>, key: string, value: V): Cache<V> {
    Cache(if key in c.entries then c.order else c.order + [key], c.entries[key := value])
  }

  function Trim<V>(c: Cache<V>, limit: nat): Cache<V>
    decreases |c.order|
  {
    if |c.order| <= limit then c
    else Trim(Cache(c.order[1..], c.entries - {c.order[0]}), limit)
  }

  function Insert<V>(c: Cache<V>, limit: nat, key: string, value: V): Cache<V> {
    Trim(Assign(c, key, value), limit)
  }

  function Remove<V>(c: Cache<V>, key: string): Cache<V> {
    Cache(Without(c.order, key), c.entries - {key})
  }

  function Without(order: seq<string>, key: string): seq<string> {
    if order == [] then []
    else Without(order[..|order| - 1], key) + if order[|order| - 1] == key then [] else [order[|order| - 1]]
  }

  lemma {:induction false} TrimKeepsTheNewest<V>(c: Cache<V>, limit: nat)
    requires WellFormed(c)
    ensures var t := Trim(c, limit);
            && WellFormed(t)
            && t.order == c.order[if |c.order| <= limit then 0 else |c.order| - limit..]
            && forall id :: id in t.entries ==> id in c.entries && t.entries[id] == c.entries[id]
    decreases |c.order|
  {
    if |c.order| > limit {
      var smaller := Cache(c.order[1..], c.entries - {c.order[0]});
      forall id ensures id in smaller.entries <==> id in smaller.order {
        assert id in c.order <==> id == c.order[0] || id in c.order[1..];
      }
      TrimKeepsTheNewest(smaller, limit);
    }
  }

  lemma AssignKeepsOrder<V>(c: Cache<V>, key: string, value: V)
    requires WellFormed(c)
    ensures WellFormed(Assign(c, key, value))
  {
  }

  /**
    Inserting leaves the newest keys within the limit, and what they hold. A fresh key goes last, and it stays
    exactly when the limit allows for any key at all.
   */
  lemma InsertForgetsTheOldest<V>(c: Cache<V>, limit: nat, key: string, value: V)
    requires WellFormed(c) && |c.order| <= limit
    ensures var t := Insert(c, limit, key, value);
            && WellFormed(t) && |t.order| <= limit
            && t.order == (if key in c.entries then c.order
                           else if |c.order| < limit then c.order + [key] else (c.order + [key])[1..])
            && (forall id :: id in t.entries ==> if id == key then t.entries[id] == value
                                                 else id in c.entries && t.entries[id] == c.entries[id])
            && (key in t.entries <==> limit >= 1)
  {
    var a, t := Assign(c, key, value), Insert(c, limit, key, value);
    AssignKeepsOrder(c, key, value);
    TrimKeepsTheNewest(a, limit);
    if limit >= 1 {
      assert key in c.entries || t.order[|t.order| - 1] == key;
    }
  }

  lemma {:induction false} WithoutIsOrdered(order: seq<string>, key: string)
    requires forall j: nat, k: nat :: j < k < |order| ==> order[j] != order[k]
    ensures var r := Without(order, key);
            && |r| <= |order|
            && (forall j: nat, k: nat :: j < k < |r| ==> r[j] != r[k])
            && forall id :: id in r <==> id in order && id != key
  {
    if order != [] {
      var front, last := order[..|order| - 1], order[|order| - 1];
      WithoutIsOrdered(front, key);
      assert order == front + [last] && last !in front;
      assert last !in Without(front, key);
    }
  }

  lemma RemoveKeepsTheRest<V>(c: Cache<V>, key: string)
    requires WellFormed(c)
    ensures WellFormed(Remove(c, key)) && |Remove(c, key).order| <= |c.order|
  {
    WithoutIsOrdered(c.order, key);
  }

  class LimitedSizeDict<V> {
    const limit: nat
    var order: seq<string>
    var entries: map<string, V>

    ghost function Contents(): Cache<V>
      reads this
    {
      Cache(order, entries)
    }

    ghost predicate Valid()
      reads this
    {
      WellFormed(Contents()) && |order| <= limit
    }

    constructor (limit: nat)
      ensures Valid() && this.limit == limit && Contents() == Cache([], map[])
    {
      this.limit := limit;
      order, entries := [], map[];
    }

    method Set(key: string, value: V)
      requires Valid()
      modifies this
      ensures Valid() && Contents() == Insert(old(Contents()), limit, key, value)
    {
      InsertForgetsTheOldest(Contents(), limit, key, value);
      ghost var extended := Assign(Contents(), key, value);
      order := if key in entries then order else order + [key];
      entries := entries[key := value];
      while |order| > limit
        invariant Trim(Contents(), limit) == Trim(extended, limit)
        decreases |order|
      {
        entries := entries - {order[0]};
        order := order[1..];
      }
    }

    method Pop(key: string)
      requires Valid()
      modifies this
      ensures Valid() && Contents() == Remove(old(Contents()), key)
    {
      RemoveKeepsTheRest(Contents(), key);
      var kept := [];
      for k := 0 to |order|
        invariant kept == Without(order[..k], key) && order == old(order) && entries == old(entries)
      {
        assert order[..k + 1][..k] == order[..k];
        if order[k] != key {
          kept := kept + [order[k]];
        }
      }
      assert order[..|order|] == order;
      order, entries := kept, entries - {key};
    }
  }
}
