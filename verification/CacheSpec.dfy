/** What the public list cache means: a map from keys to unexpired payload values, and histories over it. */
module CacheSpec {
  import opened Options

  datatype Stored<+V> = Stored(expiry: real, value: V)

  type Store<V> = map<string, Stored<V>>

  function Lookup<V>(m: Store<V>, k: string, now: real): Option<V> {
    if k in m && now < m[k].expiry then Some(m[k].value) else None
  }

  /** Reading an expired entry removes it. */
  function AfterGet<V>(m: Store<V>, k: string, now: real): Store<V> {
    if k in m && now >= m[k].expiry then m - {k} else m
  }

  function AfterPut<V>(m: Store<V>, k: string, v: V, ttl: real, now: real): Store<V> {
    if ttl <= 0.0 then m else (if |m| > 64 then map[] else m)[k := Stored(now + ttl, v)]
  }

  predicate Covers(prefix: Option<string>, k: string) {
    prefix.None? || prefix.value <= k
  }

  function AfterClear<V>(m: Store<V>, prefix: Option<string>): Store<V> {
    map k | k in m && !Covers(prefix, k) :: m[k]
  }

  /** A read hits what is stored and not expired, and drops the entry of that key alone, when its time has come. */
  lemma GetExactly<V>(m: Store<V>, key: string, now: real)
    ensures forall v :: Lookup(m, key, now) == Some(v) <==> key in m && m[key].value == v && now < m[key].expiry
    ensures forall k :: k in AfterGet(m, key, now) <==> k in m && !(k == key && m[key].expiry <= now)
    ensures forall k :: k in AfterGet(m, key, now) ==> AfterGet(m, key, now)[k] == m[k]
  {
  }

  /** A put with a positive time to live stores the entry; the others stay unless there were more than 64. */
  lemma PutExactly<V>(m: Store<V>, key: string, v: V, ttl: real, now: real)
    ensures ttl <= 0.0 ==> AfterPut(m, key, v, ttl, now) == m
    ensures ttl > 0.0 ==> var u := AfterPut(m, key, v, ttl, now);
      && key in u && u[key].expiry == now + ttl && u[key].value == v
      && forall k :: k != key ==> (k in u <==> k in m && |m| <= 64) && (k in u ==> u[k] == m[k])
  {
  }

  /** A clear removes exactly the keys that begin with the prefix, letter by letter, or all of them, and keeps the rest. */
  lemma ClearExactly<V>(m: Store<V>, p: string)
    ensures forall k :: k in AfterClear(m, Some(p)) <==> k in m && !(|p| <= |k| && k[..|p|] == p)
    ensures forall k :: k in AfterClear(m, Some(p)) ==> AfterClear(m, Some(p))[k] == m[k]
    ensures AfterClear(m, None) == map[]
  {
    forall k: string
      ensures p <= k <==> |p| <= |k| && k[..|p|] == p
    {
    }
  }

  // ----- histories -----

  datatype Op<+V> = Get(key: string, now: real) | Put(key: string, value: V, ttl: real, now: real) | Clear(prefix: Option<string>)

  /** The store after a history of calls, whatever the clock readings. */
  function Run<V>(ops: seq<Op<V>>): Store<V> {
    if ops == [] then map[]
    else
      var m := Run(ops[..|ops| - 1]);
      match ops[|ops| - 1]
      case Get(k, now) => AfterGet(m, k, now)
      case Put(k, v, ttl, now) => AfterPut(m, k, v, ttl, now)
      case Clear(p) => AfterClear(m, p)
  }

  /** Call `i` puts `k` with a positive time to live. */
  predicate Puts<V>(ops: seq<Op<V>>, i: nat, k: string) {
    i < |ops| && ops[i].Put? && ops[i].key == k && ops[i].ttl > 0.0
  }

  /** What call `i` put. */
  function PutEntry<V>(ops: seq<Op<V>>, i: nat, k: string): Stored<V>
    requires Puts(ops, i, k)
  {
    Stored(ops[i].now + ops[i].ttl, ops[i].value)
  }

  /** Call `j` overwrites, clears, expires or evicts an entry of `k` with that expiry. */
  predicate Removes<V>(ops: seq<Op<V>>, j: nat, k: string, expiry: real)
    requires j < |ops|
  {
    match ops[j]
    case Put(key, _, ttl, _) => ttl > 0.0 && (key == k || |Run(ops[..j])| > 64)
    case Clear(prefix) => Covers(prefix, k)
    case Get(key, now) => key == k && now >= expiry
  }

  /** The put of `k` at call `i` is still in force: no later call put, cleared, expired or evicted it. */
  predicate InForce<V>(ops: seq<Op<V>>, i: nat, k: string) {
    Puts(ops, i, k) && forall j :: i < j < |ops| ==> !Removes(ops, j, k, PutEntry(ops, i, k).expiry)
  }

  lemma InForceBefore<V>(ops: seq<Op<V>>, i: nat, k: string)
    requires ops != [] && i < |ops| - 1
    ensures var n := |ops| - 1;
      InForce(ops, i, k) <==> InForce(ops[..n], i, k) && !Removes(ops, n, k, PutEntry(ops[..n], i, k).expiry)
  {
    hide Run;
    var n := |ops| - 1;
    if Puts(ops, i, k) {
      var expiry := PutEntry(ops, i, k).expiry;
      assert Puts(ops[..n], i, k) && PutEntry(ops[..n], i, k) == PutEntry(ops, i, k);
      forall j | i < j < n
        ensures Removes(ops, j, k, expiry) <==> Removes(ops[..n], j, k, expiry)
      {
        assert ops[..n][..j] == ops[..j];
      }
    }
  }

  /** A key is stored exactly when some put of it is in force, and what is stored is that put. */
  lemma {:induction false} StoreIsLatestPut<V>(ops: seq<Op<V>>, k: string)
    ensures k in Run(ops) <==> exists i :: 0 <= i < |ops| && InForce(ops, i, k)
    ensures forall i :: 0 <= i < |ops| && InForce(ops, i, k) ==> k in Run(ops) && Run(ops)[k] == PutEntry(ops, i, k)
  {
    if ops != [] {
      var n := |ops| - 1;
      StoreIsLatestPut(ops[..n], k);
      hide InForce;
      forall i | 0 <= i < |ops|
        ensures InForce(ops, i, k) ==> k in Run(ops) && Run(ops)[k] == PutEntry(ops, i, k)
      {
        if i < n {
          InForceBefore(ops, i, k);
        } else {
          PutNow(ops, k);
        }
      }
      if k in Run(ops) {
        PutNow(ops, k);
        if !Puts(ops, n, k) {
          assert k in Run(ops[..n]);
          var i :| 0 <= i < n && InForce(ops[..n], i, k);
          InForceBefore(ops, i, k);
        }
      }
    }
  }

  lemma PutNow<V>(ops: seq<Op<V>>, k: string)
    requires ops != []
    ensures InForce(ops, |ops| - 1, k) <==> Puts(ops, |ops| - 1, k)
  {
  }

  /**
   * A read hits exactly when a put of the key is in force and has not expired by then, and returns the
   * payload of that put.
   */
  lemma HitIsLatestPut<V>(ops: seq<Op<V>>, k: string, now: real)
    ensures Lookup(Run(ops), k, now).Some?
            <==> exists i :: 0 <= i < |ops| && InForce(ops, i, k) && now < PutEntry(ops, i, k).expiry
    ensures forall i :: 0 <= i < |ops| && InForce(ops, i, k) && now < PutEntry(ops, i, k).expiry
              ==> Lookup(Run(ops), k, now) == Some(ops[i].value)
  {
    hide InForce, Run;
    StoreIsLatestPut(ops, k);
    if k in Run(ops) {
      var i :| 0 <= i < |ops| && InForce(ops, i, k);
    }
  }

  /** The store never holds more than 65 entries. */
  lemma {:induction false} StoreIsBounded<V>(ops: seq<Op<V>>)
    ensures |Run(ops)| <= 65
  {
    if ops != [] {
      var before, last := ops[..|ops| - 1], ops[|ops| - 1];
      StoreIsBounded(before);
      var m, t := Run(before), Run(ops);
      match last {
        case Get(k, _) =>
          KeysShrink(m, t);
        case Clear(_) =>
          KeysShrink(m, t);
        case Put(k, _, ttl, _) =>
          if ttl > 0.0 {
            var base := if |m| > 64 then map[] else m;
            assert t.Keys == base.Keys + {k};
          }
      }
    }
  }

  lemma KeysShrink<V>(m: Store<V>, t: Store<V>)
    requires t.Keys <= m.Keys
    ensures |t| <= |m|
  {
    var rest := m.Keys - t.Keys;
    assert m.Keys == t.Keys + rest;
    assert |t.Keys| == |t| && |m.Keys| == |m|;
  }
}
