/**
  The keyed lists that SimpleLruCache keeps: most recently used item first,
  at most one item per key.
 */
module KeyedList {
  datatype Option<+T> = None | Some(value: T)

  datatype Item<+V> = Item(key: int, value: V)

  ghost predicate UniqueKeys<V>(items: seq<Item<V>>) {
    forall i, j :: 0 <= i < j < |items| ==> items[i].key != items[j].key
  }

  /** Position of the first item stored under `key`. */
  function Find<V>(items: seq<Item<V>>, key: int): (r: Option<nat>)
    ensures r.None? ==> forall i :: 0 <= i < |items| ==> items[i].key != key
    ensures r.Some? ==> r.value < |items| && items[r.value].key == key
    ensures r.Some? ==> forall i :: 0 <= i < r.value ==> items[i].key != key
  {
    if items == [] then None
    else if items[0].key == key then Some(0)
    else match Find(items[1..], key)
      case None => None
      case Some(i) => assert forall j :: 1 <= j < |items| ==> items[j] == items[1..][j - 1]; Some(i + 1)
  }

  function Without<T>(items: seq<T>, i: nat): seq<T>
    requires i < |items|
  {
    items[..i] + items[i + 1..]
  }

  function ToFront<T>(items: seq<T>, i: nat): seq<T>
    requires i < |items|
  {
    [items[i]] + Without(items, i)
  }

  /** A list after its tail has been dropped to fit `capacity`. */
  function Cut<T>(items: seq<T>, capacity: nat): seq<T> {
    if |items| > capacity then items[..capacity] else items
  }

  lemma WithoutMembers<V>(items: seq<Item<V>>, i: nat)
    requires i < |items| && UniqueKeys(items)
    ensures UniqueKeys(Without(items, i))
    ensures forall it :: it in Without(items, i) <==> it in items && it != items[i]
    ensures forall it :: it in Without(items, i) ==> it.key != items[i].key
  {
    var r := Without(items, i);
    assert forall k :: 0 <= k < |r| ==> r[k] == items[if k < i then k else k + 1];
    forall it | it in items && it != items[i] ensures it in r {
      var k :| 0 <= k < |items| && items[k] == it;
      assert r[if k < i then k else k - 1] == it;
    }
  }

  lemma ToFrontMembers<V>(items: seq<Item<V>>, i: nat)
    requires i < |items| && UniqueKeys(items)
    ensures UniqueKeys(ToFront(items, i))
    ensures forall it :: it in ToFront(items, i) <==> it in items
  {
    WithoutMembers(items, i);
  }

  lemma CutMembers<V>(items: seq<Item<V>>, capacity: nat)
    requires UniqueKeys(items)
    ensures UniqueKeys(Cut(items, capacity))
    ensures forall it :: it in Cut(items, capacity) ==> it in items
  {
  }

  lemma FindUnique<V>(items: seq<Item<V>>, i: nat)
    requires UniqueKeys(items) && i < |items|
    ensures Find(items, items[i].key) == Some(i)
  {
  }
}
