/** The list operations of the JSON file store, which every repository of records is built on. */
module ListStore {

  import opened Iterables

  function ReplaceKey<T, K(==)>(items: seq<T>, key: T -> K, item: T): (r: seq<T>)
    ensures |r| == |items|
    ensures forall i :: 0 <= i < |r| ==> r[i] == if key(items[i]) == key(item) then item else items[i]
  {
    seq(|items|, i requires 0 <= i < |items| => if key(items[i]) == key(item) then item else items[i])
  }

  /** Replace what has the same key, in place, or append. */
  function Upsert<T, K(==)>(items: seq<T>, key: T -> K, item: T): seq<T> {
    if HasKey(items, key, key(item)) then ReplaceKey(items, key, item) else items + [item]
  }

  lemma UpsertKeepsUnique<T, K>(items: seq<T>, key: T -> K, item: T)
    requires DistinctBy(items, key)
    ensures DistinctBy(Upsert(items, key, item), key)
  {
  }

  /** An upsert puts the item in, keeps everything of another key where it was, and adds nothing
      else. */
  lemma UpsertFrame<T, K>(items: seq<T>, key: T -> K, item: T)
    ensures item in Upsert(items, key, item)
    ensures |items| <= |Upsert(items, key, item)| <= |items| + 1
    ensures |Upsert(items, key, item)| == |items| <==> HasKey(items, key, key(item))
    ensures forall i :: 0 <= i < |items| ==>
              Upsert(items, key, item)[i] == if key(items[i]) == key(item) then item else items[i]
    ensures forall x :: x in Upsert(items, key, item) ==> x == item || (x in items && key(x) != key(item))
  {
    var r := Upsert(items, key, item);
    if HasKey(items, key, key(item)) {
      var i :| 0 <= i < |items| && key(items[i]) == key(item);
      assert r[i] == item;
    } else {
      assert r[|items|] == item;
      assert forall x :: x in items ==> key(x) != key(item);
    }
  }

  method UpsertListItem<T, K(==)>(items: seq<T>, key: T -> K, item: T) returns (output: seq<T>)
    ensures output == Upsert(items, key, item)
  {
    var replaced := false;
    output := [];
    for i := 0 to |items|
      invariant |output| == i
      invariant forall j :: 0 <= j < i ==> output[j] == if key(items[j]) == key(item) then item else items[j]
      invariant replaced <==> exists j :: 0 <= j < i && key(items[j]) == key(item)
    {
      if key(items[i]) == key(item) {
        output := output + [item];
        replaced := true;
      } else {
        output := output + [items[i]];
      }
    }
    if !replaced {
      assert output == items;
      output := output + [item];
    }
  }

  /** What is left of `items` when everything with a key of `replacements` is taken out. */
  function WithoutKeys<T, K(==)>(items: seq<T>, key: T -> K, replacements: seq<T>): seq<T> {
    if items == [] then []
    else
      var n := |items| - 1;
      WithoutKeys(items[..n], key, replacements) +
      if HasKey(replacements, key, key(items[n])) then [] else [items[n]]
  }

  function ReplaceAll<T, K(==)>(items: seq<T>, key: T -> K, replacements: seq<T>): seq<T> {
    WithoutKeys(items, key, replacements) + replacements
  }

  lemma {:induction false} WithoutKeysMembers<T, K>(items: seq<T>, key: T -> K, replacements: seq<T>)
    ensures forall x :: x in WithoutKeys(items, key, replacements) <==>
              x in items && !HasKey(replacements, key, key(x))
  {
    if items != [] {
      var n := |items| - 1;
      WithoutKeysMembers(items[..n], key, replacements);
      assert items == items[..n] + [items[n]];
    }
  }

  method ReplaceListItems<T, K(==)>(items: seq<T>, key: T -> K, replacements: seq<T>) returns (output: seq<T>)
    ensures output == ReplaceAll(items, key, replacements)
  {
    output := [];
    for i := 0 to |items|
      invariant output == WithoutKeys(items[..i], key, replacements)
    {
      assert items[..i + 1][..i] == items[..i];
      if !HasKey(replacements, key, key(items[i])) {
        output := output + [items[i]];
      }
    }
    assert items[..|items|] == items;
    output := output + replacements;
  }
}
