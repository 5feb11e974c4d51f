/**
 * The insertion-ordered map that documents are stored in.  Two such maps are equal in the
 * program when their entries are equal; the order is seen only by iteration.
 */
module IndexMaps {
  import opened Prelude

  datatype IndexMap<K(==), V> = IndexMap(keys: seq<K>, entries: map<K, V>) {

    ghost predicate Valid() {
      && Distinct(keys)
      && (forall k :: k in keys ==> k in entries)
      && (forall k :: k in entries ==> k in keys)
    }

    predicate Has(k: K) {
      k in entries
    }

    function Get(k: K): Option<V> {
      if k in entries then Some(entries[k]) else None
    }

    /** An existing key keeps its place; a new key goes to the end. */
    function Insert(k: K, v: V): (m: IndexMap<K, V>)
      ensures m.entries == entries[k := v]
      ensures Valid() ==> m.Valid()
    {
      IndexMap(if k in entries then keys else keys + [k], entries[k := v])
    }

    /** Removal, one key at a time or by a test: the remaining keys keep their order. */
    function Select(p: K -> bool): (m: IndexMap<K, V>)
      ensures Valid() ==> m.Valid()
    {
      SelectedKeys(keys, p);
      IndexMap(Filter(keys, p), map k | k in entries && p(k) :: entries[k])
    }

    function ShiftRemove(k: K): (m: IndexMap<K, V>)
      ensures m.entries == entries - {k}
      ensures Valid() ==> m.Valid()
    {
      Select(Except(k))
    }

    static function Except(k: K): K -> bool {
      x => x != k
    }

    function Retain(keep: V -> bool): (m: IndexMap<K, V>)
      ensures m.entries == map k | k in entries && keep(entries[k]) :: entries[k]
      ensures Valid() ==> m.Valid()
    {
      Select(WithValue(keep))
    }

    function WithValue(keep: V -> bool): K -> bool {
      k => k in entries && keep(entries[k])
    }

    static lemma SelectedKeys(s: seq<K>, p: K -> bool)
      ensures Distinct(s) ==> Distinct(Filter(s, p))
      ensures forall x :: x in Filter(s, p) ==> x in s && p(x)
      ensures forall x :: x in s && p(x) ==> x in Filter(s, p)
    {
      FilterMembers(s, p);
      if Distinct(s) {
        FilterDistinct(s, p);
      }
    }
  }

  function Empty<K(==), V>(): (m: IndexMap<K, V>)
    ensures m.Valid()
  {
    IndexMap([], map[])
  }

  lemma SameEntries<K, V>(a: IndexMap<K, V>, b: IndexMap<K, V>)
    requires forall k :: a.Get(k) == b.Get(k)
    ensures a.entries == b.entries
  {
    forall k ensures k in a.entries <==> k in b.entries
             ensures k in a.entries ==> a.entries[k] == b.entries[k]
    {
      assert a.Get(k) == b.Get(k);
    }
  }
}
