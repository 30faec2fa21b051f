/**
 The TTL cache. Its store is a JavaScript Map: a list of slots in insertion order, where deleting leaves
 an empty slot and iterating walks the slots by position (section 24.1 of ECMA-262). What a caller can
 observe is defined by the log of operations alone.
 */
module Cache {
  import opened Wrappers

  type Key = string

  datatype Slot<V> = Empty | Entry(key: Key, value: V, expiresAt: int)

  predicate StartsWith(key: Key, prefix: Key) {
    prefix <= key
  }

  // ----- The abstract log -----

  datatype Op<V> =
    | Put(key: Key, value: V, ttlSeconds: int, now: int)
    | Delete(key: Key)
    | DeletePrefix(prefix: Key)
    | Look(key: Key, now: int)

  /** What one operation makes of the surviving put of a key. */
  function Effect<V>(before: Option<(V, int)>, op: Op<V>, key: Key): Option<(V, int)> {
    if op.Put? && op.key == key then Some((op.value, op.now + op.ttlSeconds * 1000))
    else if op.Delete? && op.key == key then None
    else if op.DeletePrefix? && StartsWith(key, op.prefix) then None
    else before
  }

  /** The last value set for the key that no later deletion removed, with the instant it expires. */
  function LastPut<V>(log: seq<Op<V>>, key: Key): Option<(V, int)> {
    if log == [] then None else Effect(LastPut(log[..|log| - 1], key), log[|log| - 1], key)
  }

  /** What get must answer at `now`: that value, while its time has not run out. */
  function Answer<V>(log: seq<Op<V>>, key: Key, now: int): Option<V> {
    match LastPut(log, key)
    case None => None
    case Some((v, expiresAt)) => if expiresAt <= now then None else Some(v)
  }

  /** Operation i put value v under the key, and no later one replaced or removed it. */
  ghost predicate SurvivingPut<V>(log: seq<Op<V>>, key: Key, i: int, v: V, expiresAt: int) {
    && 0 <= i < |log| && log[i].Put? && log[i].key == key
    && log[i].value == v && log[i].now + log[i].ttlSeconds * 1000 == expiresAt
    && forall j :: i < j < |log| ==> !Touches(log[j], key)
  }

  predicate Touches<V>(op: Op<V>, key: Key) {
    (op.Put? && op.key == key) || (op.Delete? && op.key == key) || (op.DeletePrefix? && StartsWith(key, op.prefix))
  }

  /** LastPut finds exactly the surviving put, so look-ups leave no trace in it. */
  lemma {:induction false} LastPutIs<V>(log: seq<Op<V>>, key: Key, v: V, expiresAt: int)
    ensures LastPut(log, key) == Some((v, expiresAt)) <==> exists i :: SurvivingPut(log, key, i, v, expiresAt)
  {
    if log != [] {
      var n, before := |log| - 1, log[..|log| - 1];
      LastPutIs(before, key, v, expiresAt);
      if Touches(log[n], key) {
        if LastPut(log, key) == Some((v, expiresAt)) {
          assert SurvivingPut(log, key, n, v, expiresAt);
        }
        assert forall i :: SurvivingPut(log, key, i, v, expiresAt) ==> i >= n;
      } else {
        forall i | SurvivingPut(before, key, i, v, expiresAt) ensures SurvivingPut(log, key, i, v, expiresAt) {}
        forall i | SurvivingPut(log, key, i, v, expiresAt) ensures SurvivingPut(before, key, i, v, expiresAt) {
          assert i != n;
        }
      }
    }
  }

  // ----- Slots -----

  function Content<V>(slots: seq<Slot<V>>, key: Key): Option<(V, int)> {
    if slots == [] then None
    else if slots[0].Entry? && slots[0].key == key then Some((slots[0].value, slots[0].expiresAt))
    else Content(slots[1..], key)
  }

  ghost predicate DistinctKeys<V>(slots: seq<Slot<V>>) {
    forall i, j :: 0 <= i < j < |slots| && slots[i].Entry? && slots[j].Entry? ==> slots[i].key != slots[j].key
  }

  ghost predicate HasKeyAt<V>(slots: seq<Slot<V>>, key: Key, i: int) {
    0 <= i < |slots| && slots[i].Entry? && slots[i].key == key
  }

  /** With distinct keys, the content at a key is the one slot that carries it. */
  lemma {:induction false} ContentAt<V>(slots: seq<Slot<V>>, key: Key, i: nat)
    requires DistinctKeys(slots) && HasKeyAt(slots, key, i)
    ensures Content(slots, key) == Some((slots[i].value, slots[i].expiresAt))
  {
    if i > 0 {
      assert HasKeyAt(slots[1..], key, i - 1);
      ContentAt(slots[1..], key, i - 1);
    }
  }

  lemma {:induction false} ContentNone<V>(slots: seq<Slot<V>>, key: Key)
    ensures Content(slots, key).None? <==> forall i :: 0 <= i < |slots| ==> !HasKeyAt(slots, key, i)
  {
    if slots != [] {
      ContentNone(slots[1..], key);
      if HasKeyAt(slots, key, 0) {
      } else {
        forall i | 0 <= i < |slots| ensures HasKeyAt(slots, key, i) <==> i > 0 && HasKeyAt(slots[1..], key, i - 1) {}
        assert (forall i :: 0 <= i < |slots[1..]| ==> !HasKeyAt(slots[1..], key, i)) <==>
               (forall i :: 0 <= i < |slots| ==> !HasKeyAt(slots, key, i)) by {
          if forall i :: 0 <= i < |slots| ==> !HasKeyAt(slots, key, i) {
            forall i | 0 <= i < |slots[1..]| ensures !HasKeyAt(slots[1..], key, i) {
              assert !HasKeyAt(slots, key, i + 1);
            }
          }
        }
      }
    }
  }

  /** Two slot lists agree at a key when the slots carrying it agree. */
  lemma SameContent<V>(a: seq<Slot<V>>, b: seq<Slot<V>>, key: Key)
    requires DistinctKeys(a) && DistinctKeys(b) && |a| == |b|
    requires forall i :: 0 <= i < |a| && (HasKeyAt(a, key, i) || HasKeyAt(b, key, i)) ==> a[i] == b[i]
    ensures Content(a, key) == Content(b, key)
  {
    ContentNone(a, key);
    ContentNone(b, key);
    if i :| 0 <= i < |a| && HasKeyAt(a, key, i) {
      assert HasKeyAt(b, key, i);
      ContentAt(a, key, i);
      ContentAt(b, key, i);
    } else {
      forall i | 0 <= i < |b| ensures !HasKeyAt(b, key, i) {
        assert !HasKeyAt(a, key, i);
      }
    }
  }

  lemma ContentUpdated<V>(a: seq<Slot<V>>, i: nat, slot: Slot<V>, key: Key)
    requires DistinctKeys(a) && i < |a| && a[i].Entry? && (slot.Entry? ==> slot.key == a[i].key)
    ensures DistinctKeys(a[i := slot])
    ensures Content(a[i := slot], key) ==
            if key == a[i].key then (if slot.Entry? then Some((slot.value, slot.expiresAt)) else None)
            else Content(a, key)
  {
    var b := a[i := slot];
    if key == a[i].key {
      if slot.Entry? {
        ContentAt(b, key, i);
      } else {
        forall j | 0 <= j < |b| ensures !HasKeyAt(b, key, j) {
          if j != i {
            assert b[j] == a[j];
          }
        }
        ContentNone(b, key);
      }
    } else {
      SameContent(a, b, key);
    }
  }

  lemma {:induction false} ContentAppended<V>(a: seq<Slot<V>>, slot: Slot<V>, key: Key)
    requires slot.Entry?
    ensures Content(a + [slot], key) ==
            if Content(a, key).Some? then Content(a, key)
            else if key == slot.key then Some((slot.value, slot.expiresAt)) else None
  {
    if a != [] {
      assert (a + [slot])[1..] == a[1..] + [slot];
      ContentAppended(a[1..], slot, key);
    } else {
      assert a + [slot] == [slot];
    }
  }

  /**
   The store and the log agree: a key has the last surviving put of the log, or nothing where that put
   had expired by the latest instant a look-up was made.
   */
  ghost predicate Agrees<V>(slots: seq<Slot<V>>, log: seq<Op<V>>, clock: int) {
    DistinctKeys(slots) && forall key :: AgreesAt(slots, log, clock, key)
  }

  ghost predicate AgreesAt<V>(slots: seq<Slot<V>>, log: seq<Op<V>>, clock: int, key: Key) {
    var held, last := Content(slots, key), LastPut(log, key);
    held == last || (held.None? && last.Some? && last.value.1 <= clock)
  }

  lemma LogStep<V>(log: seq<Op<V>>, op: Op<V>, key: Key)
    ensures LastPut(log + [op], key) == Effect(LastPut(log, key), op, key)
  {
    assert (log + [op])[..|log|] == log;
  }

  /** Where the store agrees with the log, what it holds at `now` answers as the log does. */
  lemma AnswerFromStore<V>(slots: seq<Slot<V>>, log: seq<Op<V>>, clock: int, key: Key, now: int)
    requires Agrees(slots, log, clock) && clock <= now
    ensures Answer(log, key, now) ==
            match Content(slots, key)
            case None => None
            case Some((v, expiresAt)) => if expiresAt <= now then None else Some(v)
  {
    assert AgreesAt(slots, log, clock, key);
  }

  class CacheService<V> {
    var slots: seq<Slot<V>>
    ghost var log: seq<Op<V>>
    ghost var clock: int

    constructor ()
      ensures Valid() && log == [] && clock == 0
    {
      slots, log, clock := [], [], 0;
    }

    ghost predicate Valid()
      reads this
    {
      Agrees(slots, log, clock)
    }

    /** Map.prototype.get and has: the position of a key's slot. */
    method Find(key: Key) returns (found: Option<nat>)
      requires Valid()
      ensures found.Some? ==> HasKeyAt(slots, key, found.value)
                              && Content(slots, key) == Some((slots[found.value].value, slots[found.value].expiresAt))
      ensures found.None? ==> Content(slots, key) == None
    {
      for i := 0 to |slots|
        invariant forall j :: 0 <= j < i ==> !HasKeyAt(slots, key, j)
      {
        if slots[i].Entry? && slots[i].key == key {
          ContentAt(slots, key, i);
          return Some(i);
        }
      }
      ContentNone(slots, key);
      return None;
    }

    /** get: the answer is the log's, and the lazy deletion of an expired entry cannot be observed. */
    method Get(key: Key, now: int) returns (r: Option<V>)
      requires Valid() && clock <= now
      modifies this
      ensures Valid() && clock == now && log == old(log) + [Look(key, now)]
      ensures r == Answer(old(log), key, now)
    {
      AnswerFromStore(slots, log, clock, key, now);
      var found := Find(key);
      log := log + [Look(key, now)];
      clock := now;
      forall k ensures LastPut(log, k) == LastPut(old(log), k) && AgreesAt(old(slots), old(log), old(clock), k) {
        LogStep(old(log), Look(key, now), k);
      }
      if found.None? {
        return None;
      }
      var entry := slots[found.value];
      if entry.expiresAt <= now {
        slots := slots[found.value := Empty];
        forall k ensures AgreesAt(slots, log, clock, k) && DistinctKeys(slots) {
          ContentUpdated(old(slots), found.value, Empty, k);
        }
        return None;
      }
      return Some(entry.value);
    }

    method Set(key: Key, value: V, ttlSeconds: int, now: int)
      requires Valid() && clock <= now
      modifies this
      ensures Valid() && clock == now && log == old(log) + [Put(key, value, ttlSeconds, now)]
    {
      var found := Find(key);
      var entry := Entry(key, value, now + ttlSeconds * 1000);
      log := log + [Put(key, value, ttlSeconds, now)];
      clock := now;
      if found.Some? {
        slots := slots[found.value := entry];
        forall k ensures AgreesAt(slots, log, clock, k) && DistinctKeys(slots) {
          assert AgreesAt(old(slots), old(log), old(clock), k);
          LogStep(old(log), Put(key, value, ttlSeconds, now), k);
          ContentUpdated(old(slots), found.value, entry, k);
        }
      } else {
        slots := slots + [entry];
        ContentNone(old(slots), key);
        forall k ensures AgreesAt(slots, log, clock, k) {
          assert AgreesAt(old(slots), old(log), old(clock), k);
          LogStep(old(log), Put(key, value, ttlSeconds, now), k);
          ContentAppended(old(slots), entry, k);
        }
        AppendedDistinct(old(slots), entry);
      }
    }

    method Del(key: Key)
      requires Valid()
      modifies this
      ensures Valid() && clock == old(clock) && log == old(log) + [Delete(key)]
    {
      var found := Find(key);
      log := log + [Delete(key)];
      if found.Some? {
        slots := slots[found.value := Empty];
      }
      forall k ensures AgreesAt(slots, log, clock, k) && DistinctKeys(slots) {
        assert AgreesAt(old(slots), old(log), old(clock), k);
        LogStep(old(log), Delete(key), k);
        if found.Some? {
          ContentUpdated(old(slots), found.value, Empty, k);
        }
      }
    }

    /** The loop deletes from the Map it iterates over; every matching key is still visited and removed. */
    method DelByPrefix(prefix: Key)
      requires Valid()
      modifies this
      ensures Valid() && clock == old(clock) && log == old(log) + [DeletePrefix(prefix)]
      ensures forall key :: Content(slots, key) == if StartsWith(key, prefix) then None else Content(old(slots), key)
    {
      var i := 0;
      while i < |slots|
        invariant 0 <= i <= |slots| == |old(slots)| && DistinctKeys(slots)
        invariant log == old(log) && clock == old(clock)
        invariant forall j :: 0 <= j < |slots| ==> slots[j] == Swept(old(slots)[j], prefix, j < i)
      {
        if slots[i].Entry? && StartsWith(slots[i].key, prefix) {
          slots := slots[i := Empty];
        }
        i := i + 1;
      }
      log := log + [DeletePrefix(prefix)];
      forall k
        ensures Content(slots, k) == if StartsWith(k, prefix) then None else Content(old(slots), k)
        ensures AgreesAt(slots, log, clock, k)
      {
        assert AgreesAt(old(slots), old(log), old(clock), k);
        LogStep(old(log), DeletePrefix(prefix), k);
        if StartsWith(k, prefix) {
          ContentNone(slots, k);
        } else {
          SameContent(old(slots), slots, k);
        }
      }
    }

    /** getOrSet: the factory is called on a miss only, and when it fails nothing is stored. */
    method GetOrSet<E>(key: Key, ttlSeconds: int, factory: () -> Result<V, E>, now: int) returns (r: Result<V, E>)
      requires Valid() && clock <= now
      modifies this
      ensures Valid() && clock == now
      ensures var cached := Answer(old(log), key, now);
              && r == (if cached.Some? then Ok(cached.value) else factory())
              && log == old(log) + [Look(key, now)]
                        + (if cached.None? && r.Ok? then [Put(key, r.value, ttlSeconds, now)] else [])
    {
      var cached := Get(key, now);
      if cached.Some? {
        return Ok(cached.value);
      }
      var computed := factory();
      if computed.Ok? {
        Set(key, computed.value, ttlSeconds, now);
      }
      return computed;
    }
  }

  /** A slot after the sweep has passed it, or before. */
  function Swept<V>(slot: Slot<V>, prefix: Key, passed: bool): Slot<V> {
    if passed && slot.Entry? && StartsWith(slot.key, prefix) then Empty else slot
  }

  lemma AppendedDistinct<V>(a: seq<Slot<V>>, slot: Slot<V>)
    requires DistinctKeys(a) && slot.Entry? && forall i :: 0 <= i < |a| ==> !HasKeyAt(a, slot.key, i)
    ensures DistinctKeys(a + [slot])
  {
    var b := a + [slot];
    forall i, j | 0 <= i < j < |b| && b[i].Entry? && b[j].Entry? ensures b[i].key != b[j].key {
      assert !HasKeyAt(a, slot.key, i);
    }
  }
}
