/**
 Two generations of cached entries: those of the last refresh that were not seen
 yet, and those seen in the current one. Shared by the process cache
 (src/extract_gpuinfo.c:202-277) and the client caches of the drivers
 (src/extract_gpuinfo_amdgpu.c:1099-1198).
 */
module Generations {

  class Entry<K, V> {
    const key: K
    var value: V

    constructor (key: K, value: V)
      ensures this.key == key && this.value == value
    {
      this.key, this.value := key, value;
    }
  }

  class Cache<K(==), V> {
    var last: map<K, Entry<K, V>>
    var current: map<K, Entry<K, V>>
    ghost var lastValues: map<K, V>
    ghost var currentValues: map<K, V>
    ghost var live: set<Entry<K, V>>    // allocated and not freed
    ghost var freed: set<Entry<K, V>>

    /** The table holds live entries under their keys, with these values. */
    ghost predicate Table(t: map<K, Entry<K, V>>, values: map<K, V>, held: set<Entry<K, V>>)
      reads this`live, live
    {
      && t.Keys == values.Keys
      && (forall k :: k in t ==> t[k] in live && t[k] !in held && t[k].key == k && t[k].value == values[k])
    }

    /** Every allocated entry is in one table, except for those the caller holds; no key is in both tables. */
    ghost predicate Owned(held: set<Entry<K, V>>)
      reads this, live
    {
      && Table(last, lastValues, held) && Table(current, currentValues, held)
      && (forall k :: k in last ==> k !in current)
      && (forall e :: e in live ==>
            e in held || (e.key in last && last[e.key] == e) || (e.key in current && current[e.key] == e))
      && held <= live && live !! freed
    }

    ghost predicate Valid()
      reads this, live
    {
      Owned({})
    }

    constructor ()
      ensures Valid() && last == map[] && current == map[] && freed == {}
    {
      last, current, lastValues, currentValues, live, freed := map[], map[], map[], map[], {}, {};
    }

    /** calloc of an entry. */
    method New(key: K, value: V) returns (e: Entry<K, V>)
      requires Valid()
      modifies this`live
      ensures Owned({e}) && fresh(e) && e.key == key && e.value == value && live == old(live) + {e}
    {
      e := new Entry(key, value);
      live := live + {e};
    }

    /** free of an entry that is in no table. */
    method Free(e: Entry<K, V>)
      requires Owned({e})
      modifies this`live, this`freed
      ensures Valid() && freed == old(freed) + {e}
    {
      live, freed := live - {e}, freed + {e};
    }

    /** HASH_DEL from the last generation. */
    method TakeLast(key: K) returns (e: Entry<K, V>)
      requires Valid() && key in last
      modifies this`last, this`lastValues
      ensures Owned({e}) && e in live && e.key == key && e.value == old(lastValues)[key]
      ensures key !in current && lastValues == old(lastValues) - {key} && last == old(last) - {key}
    {
      e := last[key];
      last := last - {key};
      lastValues := lastValues - {key};
    }

    /** HASH_ADD to the current generation. */
    method AddCurrent(e: Entry<K, V>)
      requires Owned({e}) && e.key !in last && e.key !in current
      modifies this`current, this`currentValues
      ensures Valid() && currentValues == old(currentValues)[e.key := e.value] && current == old(current)[e.key := e]
    {
      current := current[e.key := e];
      currentValues := currentValues[e.key := e.value];
    }

    /** The fields of an entry the caller holds. */
    method SetHeld(e: Entry<K, V>, value: V)
      requires Owned({e})
      modifies e
      ensures Owned({e}) && e.value == value
    {
      e.value := value;
    }

    /** The fields of an entry of the current generation. */
    method SetCurrent(key: K, value: V)
      requires Valid() && key in current
      modifies this`currentValues, current[key]
      ensures Valid() && currentValues == old(currentValues)[key := value]
    {
      current[key].value := value;
      currentValues := currentValues[key := value];
    }

    /** HASH_ITER with HASH_DEL and free: one round. */
    method FreeOne()
      requires Valid() && last != map[]
      modifies this`last, this`lastValues, this`live, this`freed
      ensures Valid() && last.Keys < old(last).Keys && live + freed == old(live + freed)
    {
      var k :| k in last;
      var e := TakeLast(k);
      Free(e);
    }

    /** The entries that were not seen are freed, and the current generation becomes the last one. */
    method Swap()
      requires Valid()
      modifies this
      ensures Valid() && last == old(current) && current == map[]
      ensures lastValues == old(currentValues) && currentValues == map[]
      ensures live + freed == old(live + freed)
      ensures forall k :: k in old(last) ==> old(last)[k] in freed
    {
      while last != map[]
        invariant Valid() && current == old(current) && currentValues == old(currentValues)
        invariant live + freed == old(live + freed)
        decreases last.Keys
      {
        FreeOne();
      }
      SwapTables();
    }

    /** With nothing left in the last generation. */
    method SwapTables()
      requires Valid() && last == map[]
      modifies this`last, this`lastValues, this`current, this`currentValues
      ensures Valid() && last == old(current) && current == map[]
      ensures lastValues == old(currentValues) && currentValues == map[]
    {
      last, current := current, map[];
      lastValues, currentValues := currentValues, map[];
    }
  }
}
