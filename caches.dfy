/** The get-or-create caches of the runner: a map filled on a miss (the static manifest cache
    and the app resource-table cache) and a value built on first use (the compile-time SDK
    resource table). */
module Caches {
  import opened Host

  /** What one get-or-create lookup hands back, and the entries afterwards. */
  datatype Lookup<K, V> = Lookup(value: V, entries: map<K, V>)

  /** A lookup in `entries` that builds the value with `create` only on a miss. */
  function GetOrCreate<K, V>(entries: map<K, V>, key: K, create: K -> V): (r: Lookup<K, V>)
    ensures key in r.entries && r.entries[key] == r.value
    ensures key in entries ==> r.value == entries[key] && r.entries == entries
    ensures key !in entries ==> r.value == create(key) && r.entries.Keys == entries.Keys + {key}
    ensures forall k :: k in entries ==> k in r.entries && r.entries[k] == entries[k]
  {
    if key in entries then Lookup(entries[key], entries)
    else Lookup(create(key), entries[key := create(key)])
  }

  /** A second lookup of the same key, whatever it would create, returns the first
      lookup's value and changes nothing. */
  lemma GetOrCreateIdempotent<K, V>(entries: map<K, V>, key: K, create: K -> V, create': K -> V)
    ensures var first := GetOrCreate(entries, key, create);
            GetOrCreate(first.entries, key, create') == first
  {
  }

  /** A map-backed cache. `created` records, in order, the keys whose value was built;
      the invariant says each key was built at most once and exactly the built keys are cached. */
  class GetOrCreateCache<K(==, !new), V> {
    var entries: map<K, V>
    ghost var created: seq<K>

    ghost predicate Valid()
      reads this
    {
      && (forall i, j :: 0 <= i < j < |created| ==> created[i] != created[j])
      && (forall k :: k in entries <==> k in created)
    }

    constructor ()
      ensures Valid() && entries == map[] && created == []
    {
      entries := map[];
      created := [];
    }

    /** HashMap.get, then on a miss create and put. */
    method Get(key: K, create: K -> V) returns (v: V)
      requires Valid()
      modifies this
      ensures Valid()
      ensures Lookup(v, entries) == GetOrCreate(old(entries), key, create)
      ensures created == if key in old(entries) then old(created) else old(created) + [key]
    {
      if key in entries {
        v := entries[key];
      } else {
        v := create(key);
        entries := entries[key := v];
        created := created + [key];
      }
    }
  }

  /** A field that is null until first use and then keeps the value it was given.
      `builds` counts how often the value was built: never more than once. */
  class LazyValue<V> {
    var value: Option<V>
    ghost var builds: nat

    ghost predicate Valid()
      reads this
    {
      builds == if value.Some? then 1 else 0
    }

    constructor ()
      ensures Valid() && value == None
    {
      value := None;
      builds := 0;
    }

    method Get(build: () -> V) returns (v: V)
      requires Valid()
      modifies this
      ensures Valid() && value == Some(v) && builds <= 1
      ensures old(value).Some? ==> v == old(value).value && builds == old(builds)
      ensures old(value).None? ==> v == build() && builds == 1
    {
      if value.None? {
        value := Some(build());
        builds := builds + 1;
      }
      v := value.value;
    }
  }
}
