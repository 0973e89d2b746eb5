/**
 * Model of the `function<K, V>` template of model/basic_types/function.h: a finite
 * map (the source derives it from `std::map`) with a lookup that is only defined
 * inside the domain, projections onto its keys and its values, and an in-place
 * restriction of its range.
 */
module FiniteFunctions {

  /** The entries of `m` whose value lies in `permitted`: what `range_restrict` leaves behind. */
  function RangeRestricted<K, V>(m: map<K, V>, permitted: set<V>): (r: map<K, V>)
    ensures r.Keys <= m.Keys
    ensures forall k :: k in r ==> r[k] == m[k] && r[k] in permitted
    ensures forall k :: k in m && m[k] in permitted ==> k in r
  {
    map k | k in m && m[k] in permitted :: m[k]
  }

  /** Restricting the range leaves exactly the old range intersected with the permitted set. */
  lemma RangeRestrictedRange<K, V>(m: map<K, V>, permitted: set<V>)
    ensures RangeRestricted(m, permitted).Values == m.Values * permitted
  {
  }

  /** Restricting twice by the same set is the same as restricting once. */
  lemma RangeRestrictedIdempotent<K, V>(m: map<K, V>, permitted: set<V>)
    ensures RangeRestricted(RangeRestricted(m, permitted), permitted) == RangeRestricted(m, permitted)
  {
  }

  class FiniteFunction<K(==), V(==)> {
    /** The mapping itself: keys are unique, as in the underlying `std::map`. */
    var entries: map<K, V>

    /** The default constructor: the empty function. */
    constructor ()
      ensures entries == map[]
    {
      entries := map[];
    }

    /**
     * `operator()`: applying the function outside its domain is a fatal contract
     * violation (the source asserts), inside it yields the value stored for the key.
     */
    function Apply(argument: K): (image: V)
      reads this
      requires argument in entries
      ensures image in entries.Values
      ensures entries[argument] == image
    {
      entries[argument]
    }

    /** `domain()`: collects every key, one mapping at a time. */
    method Domain() returns (domain: set<K>)
      ensures domain == entries.Keys
    {
      domain := {};
      var unvisited := entries.Keys;
      while unvisited != {}
        invariant unvisited <= entries.Keys
        invariant domain == entries.Keys - unvisited
        decreases unvisited
      {
        var key :| key in unvisited;
        domain := domain + {key};
        unvisited := unvisited - {key};
      }
    }

    /** `range()`: collects every value, one mapping at a time. */
    method Range() returns (range: set<V>)
      ensures range == entries.Values
    {
      range := {};
      var unvisited := entries.Keys;
      while unvisited != {}
        invariant unvisited <= entries.Keys
        invariant forall v :: v in range ==> v in entries.Values
        invariant forall k :: k in entries && k !in unvisited ==> entries[k] in range
        decreases unvisited
      {
        var key :| key in unvisited;
        range := range + {entries[key]};
        unvisited := unvisited - {key};
      }
      forall v | v in entries.Values
        ensures v in range
      {
        var k :| k in entries && entries[k] == v;
      }
    }
  }

  /**
   * `range_restrict`: walks the mappings and erases, in place, every one whose value
   * is not in `permitted`.
   */
  method RangeRestrict<K(==), V(==)>(f: FiniteFunction<K, V>, permitted: set<V>)
    modifies f
    ensures f.entries == RangeRestricted(old(f.entries), permitted)
  {
    ghost var original := f.entries;
    var unvisited := f.entries.Keys;
    while unvisited != {}
      invariant unvisited <= f.entries.Keys
      invariant f.entries == map k | k in original && (k in unvisited || original[k] in permitted) :: original[k]
      decreases unvisited
    {
      var key :| key in unvisited;
      if f.entries[key] !in permitted {
        f.entries := f.entries - {key};
      }
      unvisited := unvisited - {key};
    }
  }
}
