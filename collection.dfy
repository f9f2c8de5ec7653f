/** PHP's ordered arrays, as the core uses them for keyed results and eager-load
    requests, and the Collection container over them. */
module Collections {
  import opened Values

  /** An array key: PHP keys are integers or strings. */
  datatype Key = IntKey(i: int) | StrKey(s: string)

  /** The entries of an array, in insertion order. */
  predicate DistinctKeys<V>(es: seq<(Key, V)>) {
    forall i, j :: 0 <= i < j < |es| ==> es[i].0 != es[j].0
  }

  /** Position of key k. */
  function IndexOf<V>(es: seq<(Key, V)>, k: Key): (r: Option<nat>)
    ensures r.Some? ==> r.value < |es| && es[r.value].0 == k
    ensures r.Some? ==> forall i :: 0 <= i < r.value ==> es[i].0 != k
    ensures r.None? <==> forall i :: 0 <= i < |es| ==> es[i].0 != k
  {
    if es == [] then None
    else if es[0].0 == k then Some(0)
    else match IndexOf(es[1..], k)
      case None => None
      case Some(n) => Some(n + 1)
  }

  /** The first position holding key k is the one IndexOf finds. */
  lemma IndexOfIs<V>(es: seq<(Key, V)>, k: Key, n: nat)
    requires n < |es| && es[n].0 == k && forall i :: 0 <= i < n ==> es[i].0 != k
    ensures IndexOf(es, k) == Some(n)
  {
  }

  /** `$a[$k]` for a key that may be missing. */
  function Lookup<V>(es: seq<(Key, V)>, k: Key): (r: Option<V>)
    ensures r.Some? <==> exists i :: 0 <= i < |es| && es[i].0 == k
    ensures r.Some? ==> exists i :: 0 <= i < |es| && es[i] == (k, r.value)
    ensures DistinctKeys(es) ==> forall i :: 0 <= i < |es| && es[i].0 == k ==> r == Some(es[i].1)
  {
    match IndexOf(es, k)
    case None => None
    case Some(n) => Some(es[n].1)
  }

  /** `$a[$k] = $v`: an existing key keeps its position and takes the new
      value; a new key is appended. */
  function Put<V>(es: seq<(Key, V)>, k: Key, v: V): (r: seq<(Key, V)>)
    ensures DistinctKeys(es) ==> DistinctKeys(r)
  {
    match IndexOf(es, k)
    case Some(n) => es[n := (k, v)]
    case None => es + [(k, v)]
  }

  /** `unset($a[$k])`: the entry with key k, if any, leaves; the others keep
      their order. */
  function Remove<V>(es: seq<(Key, V)>, k: Key): (r: seq<(Key, V)>)
    ensures |r| <= |es|
    ensures DistinctKeys(es) ==> DistinctKeys(r)
  {
    match IndexOf(es, k)
    case None => es
    case Some(n) =>
      var r := es[..n] + es[n + 1..];
      assert forall i :: 0 <= i < |r| ==> r[i] == es[if i < n then i else i + 1];
      r
  }

  /** Every entry left by unset was in the array. */
  lemma RemoveKeeps<V>(es: seq<(Key, V)>, k: Key)
    ensures forall i :: 0 <= i < |Remove(es, k)| ==> Remove(es, k)[i] in es
  {
    match IndexOf(es, k)
    case None =>
    case Some(n) =>
      var r := es[..n] + es[n + 1..];
      assert forall i :: 0 <= i < |r| ==> r[i] == es[if i < n then i else i + 1];
  }

  /** After `$a[$k] = $v` the key holds v, and every other key what it held. */
  lemma PutLookup<V>(es: seq<(Key, V)>, k: Key, v: V, j: Key)
    requires DistinctKeys(es)
    ensures Lookup(Put(es, k, v), k) == Some(v)
    ensures j != k ==> Lookup(Put(es, k, v), j) == Lookup(es, j)
  {
    var r := Put(es, k, v);
    match IndexOf(es, k)
    case Some(n) =>
      IndexOfIs(r, k, n);
      if j != k {
        match IndexOf(es, j)
        case None =>
        case Some(m) => IndexOfIs(r, j, m);
      }
    case None =>
      IndexOfIs(r, k, |es|);
      if j != k {
        match IndexOf(es, j)
        case None =>
        case Some(m) => IndexOfIs(r, j, m);
      }
  }

  /** `$a[$k] = $v` on a present key changes nothing else: same length, same
      keys in the same order. */
  lemma PutPresentKeepsOrder<V>(es: seq<(Key, V)>, k: Key, v: V)
    requires Lookup(es, k).Some?
    ensures |Put(es, k, v)| == |es|
    ensures forall i :: 0 <= i < |es| ==> Put(es, k, v)[i].0 == es[i].0
    ensures forall i :: 0 <= i < |es| && es[i].0 != k ==> Put(es, k, v)[i] == es[i]
  {
  }

  /** After `unset($a[$k])` the key is gone and every other key keeps its
      value. */
  lemma RemoveLookup<V>(es: seq<(Key, V)>, k: Key, j: Key)
    requires DistinctKeys(es)
    ensures Lookup(Remove(es, k), k).None?
    ensures j != k ==> Lookup(Remove(es, k), j) == Lookup(es, j)
  {
    match IndexOf(es, k)
    case None =>
    case Some(n) =>
      DropAt(es, n);
      var r := es[..n] + es[n + 1..];
      assert Remove(es, k) == r;
      if j != k {
        match IndexOf(es, j)
        case None =>
        case Some(m) =>
          if m < n { IndexOfIs(r, j, m); } else { IndexOfIs(r, j, m - 1); }
      }
  }

  /** The entries left when the n-th is dropped, in order; with distinct keys
      none of them has the dropped key. */
  lemma DropAt<V>(es: seq<(Key, V)>, n: nat)
    requires n < |es|
    ensures var r := es[..n] + es[n + 1..];
      |r| == |es| - 1 && forall i :: 0 <= i < |r| ==> r[i] == es[if i < n then i else i + 1]
    ensures var r := es[..n] + es[n + 1..];
      DistinctKeys(es) ==> forall i :: 0 <= i < |r| ==> r[i].0 != es[n].0
  {
  }

  /** A list `[v0, v1, ...]`: keys 0, 1, ... in order. */
  function Indexed<V>(vs: seq<V>): (r: seq<(Key, V)>)
    ensures |r| == |vs|
    ensures forall i :: 0 <= i < |vs| ==> r[i] == (IntKey(i), vs[i])
  {
    seq(|vs|, i requires 0 <= i < |vs| => (IntKey(i), vs[i]))
  }

  /** Every integer key is below n. */
  predicate IntKeysBelow<V>(es: seq<(Key, V)>, n: int) {
    forall i :: 0 <= i < |es| && es[i].0.IntKey? ==> es[i].0.i < n
  }

  /** A key at or beyond the next free index is not in use, so `$a[] = $v`
      appends a fresh entry. */
  lemma AppendIsPut<V>(es: seq<(Key, V)>, n: int, v: V)
    requires IntKeysBelow(es, n)
    ensures Lookup(es, IntKey(n)).None?
    ensures Put(es, IntKey(n), v) == es + [(IntKey(n), v)]
  {
    assert IndexOf(es, IntKey(n)).None?;
  }

  /** Collection: an ordered keyed container with array-access semantics. A
      stored `None` is PHP's null. */
  class Collection<V> {
    var items: seq<(Key, Option<V>)>
    /** The key `$items[] = ...` uses next: one past the largest integer key
        the array has held. */
    var nextIndex: int

    ghost predicate Valid()
      reads this
    {
      DistinctKeys(items) && IntKeysBelow(items, nextIndex)
    }

    /** `new Collection($list)`. */
    constructor(values: seq<Option<V>>)
      ensures Valid()
      ensures items == Indexed(values) && nextIndex == |values|
    {
      items := Indexed(values);
      nextIndex := |values|;
    }

    /** all() and toArray(): the entries as stored, in order. */
    function All(): (r: seq<(Key, Option<V>)>)
      reads this
      ensures |r| == |items| && forall i :: 0 <= i < |r| ==> r[i] == items[i]
    {
      items
    }

    function Count(): (n: nat)
      reads this
      ensures n == |items|
    {
      |items|
    }

    function IsEmpty(): (b: bool)
      reads this
      ensures b <==> Count() == 0
    {
      items == []
    }

    /** reset(): the first value, or false (None) when empty. */
    function First(): (r: Option<Option<V>>)
      reads this
      ensures r.None? <==> IsEmpty()
      ensures r.Some? ==> r.value == items[0].1
    {
      if items == [] then None else Some(items[0].1)
    }

    /** end(): the last value, or false (None) when empty. */
    function Last(): (r: Option<Option<V>>)
      reads this
      ensures r.None? <==> IsEmpty()
      ensures r.Some? ==> r.value == items[|items| - 1].1
    {
      if items == [] then None else Some(items[|items| - 1].1)
    }

    /** isset($items[$k]): present and not null. */
    function OffsetExists(k: Key): (b: bool)
      requires Valid()
      reads this
      ensures b <==> exists i :: 0 <= i < |items| && items[i].0 == k && items[i].1.Some?
    {
      match Lookup(items, k)
      case None => false
      case Some(v) => v.Some?
    }

    /** `$items[$k] ?? null`. */
    function OffsetGet(k: Key): (r: Option<V>)
      requires Valid()
      reads this
      ensures r.Some? ==> exists i :: 0 <= i < |items| && items[i] == (k, r)
      ensures r.None? ==> forall i :: 0 <= i < |items| && items[i].0 == k ==> items[i].1.None?
    {
      match Lookup(items, k)
      case None => None
      case Some(v) => v
    }

    /** offsetSet: a null offset appends under the next free index; any other
        offset overwrites that key in place or appends it. */
    method OffsetSet(offset: Option<Key>, v: Option<V>)
      requires Valid()
      modifies this
      ensures Valid()
      ensures offset.None? ==>
        items == old(items) + [(IntKey(old(nextIndex)), v)] && nextIndex == old(nextIndex) + 1
      ensures offset.Some? ==> items == Put(old(items), offset.value, v)
      ensures offset.Some? && offset.value.IntKey? && offset.value.i >= old(nextIndex) ==>
        nextIndex == offset.value.i + 1
      ensures offset.Some? && !(offset.value.IntKey? && offset.value.i >= old(nextIndex)) ==>
        nextIndex == old(nextIndex)
    {
      match offset
      case None =>
        AppendIsPut(items, nextIndex, v);
        items := items + [(IntKey(nextIndex), v)];
        nextIndex := nextIndex + 1;
      case Some(k) =>
        items := Put(items, k, v);
        if k.IntKey? && k.i >= nextIndex {
          nextIndex := k.i + 1;
        }
    }

    /** offsetUnset: removes only key k. */
    method OffsetUnset(k: Key)
      requires Valid()
      modifies this
      ensures Valid()
      ensures items == Remove(old(items), k) && nextIndex == old(nextIndex)
    {
      RemoveKeeps(items, k);
      items := Remove(items, k);
    }
  }

  /** offsetExists agrees with offsetGet: a key is set exactly when reading it
      gives a value other than null. */
  lemma ExistsIffGet<V>(c: Collection<V>, k: Key)
    requires c.Valid()
    ensures c.OffsetExists(k) <==> c.OffsetGet(k).Some?
  {
  }
}
