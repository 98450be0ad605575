/**
 * The column registry: per column index, a getter (record to cell) used when
 * marshalling and a setter (record and cell to updated record) used when
 * unmarshalling, plus the field name each index was registered under.
 */
module Registry {
  import opened Values

  /**
   * A Go map variable: `NilMap` until `make` allocates it. Reading a nil map sees
   * no entries; assigning an entry of a nil map panics.
   */
  datatype GoMap<K, V> = NilMap | Made(entries: map<K, V>)

  /** What `len`, lookups and `range` see. */
  function Entries<K, V>(m: GoMap<K, V>): map<K, V>
  {
    if m.Made? then m.entries else map[]
  }

  /**
   * `m[k] = v`: inserts `k` or silently replaces its entry; every other entry is
   * kept. Only a made map may be assigned into.
   */
  function Store<K, V>(m: GoMap<K, V>, k: K, v: V): (r: GoMap<K, V>)
    requires m.Made?
    ensures r.Made? && k in r.entries && r.entries[k] == v
    ensures r.entries.Keys == m.entries.Keys + {k}
    ensures forall j :: j != k && j in m.entries ==> r.entries[j] == m.entries[j]
    ensures |r.entries| == if k in m.entries then |m.entries| else |m.entries| + 1
  {
    Made(m.entries[k := v])
  }

  /**
   * One visit of each key of a Go map, in whatever order `range` picks: every
   * element is a key, every key occurs, and none occurs twice.
   */
  ghost predicate IsEnumeration(order: seq<int>, keys: set<int>)
  {
    && (forall j :: 0 <= j < |order| ==> order[j] in keys)
    && (forall k :: k in keys ==> k in order)
    && (forall i, j :: 0 <= i < j < |order| ==> order[i] != order[j])
  }

  /** An enumeration visits as many keys as there are. */
  lemma {:induction false} EnumerationSize(order: seq<int>, keys: set<int>)
    requires IsEnumeration(order, keys)
    ensures |order| == |keys|
    decreases |order|
  {
    if order == [] {
      forall k | k in keys ensures k in order { }
      assert forall k :: k !in keys;
      assert keys == {};
    } else {
      var last := order[|order| - 1];
      var init := order[..|order| - 1];
      assert forall k :: k in keys - {last} ==> k in init by {
        forall k | k in keys - {last} ensures k in init {
          var j :| 0 <= j < |order| && order[j] == k;
          assert j < |order| - 1;
        }
      }
      EnumerationSize(init, keys - {last});
    }
  }

  /** A non-empty key set has a key for `range` to visit next. */
  lemma SomeKey(keys: set<int>) returns (k: int)
    requires keys != {}
    ensures k in keys
  {
    if forall x :: x !in keys {
      assert false;
    }
    k :| k in keys;
  }

  class Mapper<T> {
    var Getters: GoMap<int, T -> Value>
    var Setters: GoMap<int, (T, Value) -> T>
    var Fields: GoMap<string, int>

    /** `&Mapper[T]{}`: every map is nil. */
    constructor ()
      ensures Getters == NilMap && Setters == NilMap && Fields == NilMap
    {
      Getters, Setters, Fields := NilMap, NilMap, NilMap;
    }

    /**
     * Registers `setter` for column `index` under the name `field`, making the
     * maps first if they are nil. A setter already at `index` is replaced; a
     * field name already registered is pointed at `index`, and the setter at its
     * former index stays.
     */
    method AddFieldMapping(field: string, index: int, setter: (T, Value) -> T)
      modifies this
      ensures Setters == Made(Entries(old(Setters))[index := setter])
      ensures Fields == Made(Entries(old(Fields))[field := index])
      ensures |Entries(Setters)| == |Entries(old(Setters))| + (if index in Entries(old(Setters)) then 0 else 1)
      ensures Getters == old(Getters)
    {
      if Setters.NilMap? {
        Setters := Made(map[]);
      }
      if Fields.NilMap? {
        Fields := Made(map[]);
      }
      Setters := Store(Setters, index, setter);
      Fields := Store(Fields, field, index);
    }

    /** The same registration for getters. */
    method AddFieldGetter(field: string, index: int, getter: T -> Value)
      modifies this
      ensures Getters == Made(Entries(old(Getters))[index := getter])
      ensures Fields == Made(Entries(old(Fields))[field := index])
      ensures |Entries(Getters)| == |Entries(old(Getters))| + (if index in Entries(old(Getters)) then 0 else 1)
      ensures Setters == old(Setters)
    {
      if Getters.NilMap? {
        Getters := Made(map[]);
      }
      if Fields.NilMap? {
        Fields := Made(map[]);
      }
      Getters := Store(Getters, index, getter);
      Fields := Store(Fields, field, index);
    }
  }
}
