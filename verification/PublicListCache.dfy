/** The short-lived cache for public catalogue lists, over mutable payload objects. */
module PublicListCache {
  import opened Options
  import opened CacheSpec

  /** The value of a payload: a tree of named lists. */
  datatype Json = Json(name: string, kids: seq<Json>)

  /**
   * A mutable payload object, as callers build and later change it. Objects may be shared, not cyclic.
   * While `Valid()` holds, `value` is what the object graph says.
   */
  class Node {
    var name: string
    var kids: seq<Node>
    ghost var value: Json
    ghost var Repr: set<Node>

    ghost predicate Valid()
      reads this, Repr
      decreases Repr
    {
      && this in Repr
      && value.name == name && |value.kids| == |kids|
      && forall i :: 0 <= i < |kids| ==>
           && kids[i] in Repr && kids[i].Repr <= Repr && this !in kids[i].Repr
           && kids[i].Valid() && kids[i].value == value.kids[i]
    }

    constructor (name: string, kids: seq<Node>, ghost value: Json)
      requires value.name == name && |value.kids| == |kids|
      requires forall i :: 0 <= i < |kids| ==> kids[i].Valid() && kids[i].value == value.kids[i]
      ensures Valid() && this.value == value
      ensures Repr == {this} + (set i, n | 0 <= i < |kids| && n in kids[i].Repr :: n)
    {
      this.name := name;
      this.kids := kids;
      this.value := value;
      Repr := {this} + (set i, n | 0 <= i < |kids| && n in kids[i].Repr :: n);
    }

    /** `copy.deepcopy`: an equal payload made of new objects throughout. */
    method DeepCopy() returns (c: Node)
      requires Valid()
      ensures c.Valid() && fresh(c.Repr) && c.value == value
      decreases Repr
    {
      var copies: seq<Node> := [];
      var i := 0;
      while i < |kids|
        invariant 0 <= i <= |kids| && |copies| == i
        invariant forall j :: 0 <= j < i ==> fresh(copies[j].Repr) && copies[j].Valid()
        invariant forall j :: 0 <= j < i ==> copies[j].value == value.kids[j]
      {
        var k := kids[i].DeepCopy();
        copies := copies + [k];
        i := i + 1;
      }
      c := new Node(name, copies, value);
    }
  }

  datatype Entry = Entry(expiry: real, payload: Node)

  class Cache {
    var store: map<string, Entry>
    ghost var Repr: set<Node>

    ghost predicate Valid()
      reads this, Repr
    {
      forall k :: k in store ==> store[k].payload in Repr && store[k].payload.Repr <= Repr && store[k].payload.Valid()
    }

    /** The cache as a map to payload values. */
    ghost function Contents(): Store<Json>
      requires Valid()
      reads this, Repr
    {
      map k | k in store :: Stored(store[k].expiry, store[k].payload.value)
    }

    constructor ()
      ensures Valid() && Contents() == map[] && Repr == {}
    {
      store := map[];
      Repr := {};
    }

    /** The caller gets new objects, never the stored ones. */
    method Get(key: string, now: real) returns (r: Option<Node>)
      requires Valid()
      modifies this`store
      ensures Valid()
      ensures Contents() == AfterGet(old(Contents()), key, now)
      ensures r.Some? <==> Lookup(old(Contents()), key, now).Some?
      ensures r.Some? ==> r.value.Valid() && fresh(r.value.Repr)
                          && r.value.value == Lookup(old(Contents()), key, now).value
    {
      if key !in store {
        return None;
      }
      var entry := store[key];
      if now >= entry.expiry {
        store := store - {key};
        return None;
      }
      var c := entry.payload.DeepCopy();
      return Some(c);
    }

    /** The cache keeps new objects, never the caller's. */
    method Put(key: string, payload: Node, ttl: real, now: real)
      requires Valid() && payload.Valid()
      modifies this
      ensures Valid() && fresh(Repr - old(Repr))
      ensures Contents() == AfterPut(old(Contents()), key, payload.value, ttl, now)
    {
      if ttl <= 0.0 {
        return;
      }
      hide Valid, Contents, Node.Valid;
      EvictIfFull();
      Store(key, now + ttl, payload);
    }

    /** What is stored is a deep copy. */
    method Store(key: string, expiry: real, payload: Node)
      requires Valid() && payload.Valid()
      modifies this
      ensures Valid() && fresh(Repr - old(Repr))
      ensures Contents() == old(Contents())[key := Stored(expiry, payload.value)]
    {
      hide Valid, Contents, Node.Valid;
      var c := payload.DeepCopy();
      Isolated(this);
      Insert(key, expiry, c);
    }

    /** More than 64 entries: all of them go. */
    method EvictIfFull()
      requires Valid()
      modifies this`store
      ensures Valid()
      ensures Contents() == if |old(Contents())| > 64 then map[] else old(Contents())
    {
      assert Contents().Keys == store.Keys;
      if |store| > 64 {
        store := map[];
      }
    }

    method Insert(key: string, expiry: real, payload: Node)
      requires Valid() && payload.Valid()
      modifies this
      ensures Valid() && Repr == old(Repr) + payload.Repr
      ensures Contents() == old(Contents())[key := Stored(expiry, payload.value)]
    {
      store := store[key := Entry(expiry, payload)];
      Repr := Repr + payload.Repr;
    }

    method Clear(prefix: Option<string>)
      requires Valid()
      modifies this`store
      ensures Valid()
      ensures Contents() == AfterClear(old(Contents()), prefix)
      ensures prefix.None? ==> store == map[]
      ensures prefix.Some? ==> forall k :: k in store <==>
                k in old(store) && !(|prefix.value| <= |k| && k[..|prefix.value|] == prefix.value)
      ensures forall k :: k in store ==> store[k] == old(store)[k]
    {
      hide Valid, Contents, Node.Valid;
      if prefix.None? {
        store := map[];
      } else {
        ClearPrefix(prefix.value);
      }
      Shrunk(this);
    }

    method ClearPrefix(prefix: string)
      modifies this`store
      ensures forall k :: k in store <==> k in old(store) && !(|prefix| <= |k| && k[..|prefix|] == prefix)
      ensures forall k :: k in store ==> store[k] == old(store)[k]
    {
      var keys := set k | k in store && prefix <= k;
      while keys != {}
        invariant keys <= store.Keys && forall k :: k in keys ==> prefix <= k
        invariant forall k :: k in store ==> k in old(store) && store[k] == old(store)[k]
        invariant forall k :: k in old(store) ==> k in store || prefix <= k
        invariant forall k :: k in store && prefix <= k ==> k in keys
        decreases keys
      {
        var k :| k in keys;
        store := store - {k};
        keys := keys - {k};
      }
    }
  }

  /** Entries taken out, none put in: the cache stays valid and holds what is left. */
  twostate lemma Shrunk(cache: Cache)
    requires old(cache.Valid()) && cache.Repr == old(cache.Repr) && forall n :: n in cache.Repr ==> unchanged(n)
    requires forall k :: k in cache.store ==> k in old(cache.store) && cache.store[k] == old(cache.store)[k]
    ensures old(cache.Contents()).Keys == old(cache.store).Keys
    ensures cache.Valid() && cache.Contents().Keys == cache.store.Keys
    ensures forall k :: k in cache.Contents() ==> cache.Contents()[k] == old(cache.Contents())[k]
  {
  }

  /**
   * Isolation: as long as the cache and the objects it owns are left alone, it stays valid and holds the
   * same payloads, whatever else in the heap changed.
   */
  twostate lemma Isolated(cache: Cache)
    requires old(cache.Valid()) && unchanged(cache) && forall n :: n in old(cache.Repr) ==> unchanged(n)
    ensures cache.Valid() && cache.Contents() == old(cache.Contents())
  {
  }

  /** Whatever a caller does afterwards to the object it put, or to any others it has, the cache holds what was put. */
  method PutThenModify(cache: Cache, key: string, p: Node, others: set<Node>, ttl: real, now: real)
    requires cache.Valid() && p.Valid() && cache.Repr !! p.Repr + others
    modifies cache, p.Repr, others
    ensures cache.Valid()
    ensures cache.Contents() == AfterPut(old(cache.Contents()), key, old(p.value), ttl, now)
  {
    cache.Put(key, p, ttl, now);
    label Stored:
    modify p.Repr, others;
    Isolated@Stored(cache);
  }

  /** Whatever a caller does to the object it was handed, down to its last part, the cache holds what it held. */
  method GetThenModify(cache: Cache, key: string, others: set<Node>, now: real)
    requires cache.Valid() && cache.Repr !! others
    modifies cache`store, others
    ensures cache.Valid() && cache.Contents() == AfterGet(old(cache.Contents()), key, now)
  {
    var r := cache.Get(key, now);
    label Read:
    if r.Some? {
      modify r.value.Repr, others;
      Isolated@Read(cache);
    }
  }
}
