/** Grouping by a printed key, as the map-building loops do it, and the simple form: one in-order filter per key. */
module Grouping {
  import opened Seqs

  function HasKey<T>(keyOf: T -> string, key: string): T -> bool {
    (x: T) => keyOf(x) == key
  }

  function KeySet<T(==)>(keyOf: T -> string, items: seq<T>): set<string> {
    set x | x in items :: keyOf(x)
  }

  /** The items with one key, in order. */
  function GroupOf<T>(keyOf: T -> string, items: seq<T>, key: string): seq<T> {
    Filter(HasKey(keyOf, key), items)
  }

  function Insert<V>(groups: map<string, seq<V>>, key: string, v: V): map<string, seq<V>> {
    if key in groups then groups[key := groups[key] + [v]] else groups[key := [v]]
  }

  /** What the grouping loops compute: f of every item, inserted under the item's key. */
  function GroupBy<T, V>(keyOf: T -> string, f: T -> V, items: seq<T>): map<string, seq<V>> {
    if items == [] then
      map[]
    else
      var last := items[|items| - 1];
      Insert(GroupBy(keyOf, f, items[..|items| - 1]), keyOf(last), f(last))
  }

  method InsertOne<V>(groups: map<string, seq<V>>, key: string, v: V) returns (more: map<string, seq<V>>)
    ensures more == Insert(groups, key, v)
  {
    if key !in groups {
      more := groups[key := [v]];
    } else {
      more := groups[key := groups[key] + [v]];
    }
  }

  lemma GroupSnoc<T>(keyOf: T -> string, items: seq<T>, x: T, key: string)
    ensures GroupOf(keyOf, items + [x], key) == GroupOf(keyOf, items, key) + if keyOf(x) == key then [x] else []
  {
    FilterAppend(HasKey(keyOf, key), items, [x]);
  }

  lemma GroupNone<T>(keyOf: T -> string, items: seq<T>, key: string)
    requires key !in KeySet(keyOf, items)
    ensures GroupOf(keyOf, items, key) == []
  {
    FilterNone(HasKey(keyOf, key), items);
  }

  /** The map holds, under each key, f of the in-order filter of the items with that key. */
  ghost predicate IsFiltered<T, V>(keyOf: T -> string, f: T -> V, items: seq<T>, groups: map<string, seq<V>>) {
    && groups.Keys == KeySet(keyOf, items)
    && forall key :: key in groups ==> groups[key] == Map(f, GroupOf(keyOf, items, key))
  }

  lemma KeysSnoc<T>(keyOf: T -> string, items: seq<T>, x: T)
    ensures KeySet(keyOf, items + [x]) == KeySet(keyOf, items) + {keyOf(x)}
  {
  }

  lemma InsertFiltered<T, V>(keyOf: T -> string, f: T -> V, items: seq<T>, x: T, groups: map<string, seq<V>>)
    requires IsFiltered(keyOf, f, items, groups)
    ensures IsFiltered(keyOf, f, items + [x], Insert(groups, keyOf(x), f(x)))
  {
    hide GroupOf, KeySet, Map;
    var more, key := items + [x], keyOf(x);
    var after := Insert(groups, key, f(x));
    KeysSnoc(keyOf, items, x);
    if key !in groups {
      GroupNone(keyOf, items, key);
    }
    forall other | other in after
      ensures after[other] == Map(f, GroupOf(keyOf, more, other))
    {
      GroupSnoc(keyOf, items, x, other);
      MapSnoc(f, GroupOf(keyOf, items, other), x);
    }
  }

  lemma MapSnoc<T, U>(f: T -> U, s: seq<T>, x: T)
    ensures Map(f, s + [x]) == Map(f, s) + [f(x)] && Map(f, s + []) == Map(f, s) && Map(f, []) == []
  {
    MapAppend(f, s, [x]);
    assert s + [] == s;
  }

  /** The loops refine the simple form: one in-order filter per key. */
  lemma {:induction false} GroupByIsFilter<T, V>(keyOf: T -> string, f: T -> V, items: seq<T>)
    ensures IsFiltered(keyOf, f, items, GroupBy(keyOf, f, items))
  {
    if items != [] {
      var before, last := items[..|items| - 1], items[|items| - 1];
      assert items == before + [last];
      GroupByIsFilter(keyOf, f, before);
      InsertFiltered(keyOf, f, before, last, GroupBy(keyOf, f, before));
    }
  }

  lemma GroupBySnoc<T, V>(keyOf: T -> string, f: T -> V, items: seq<T>, x: T)
    ensures GroupBy(keyOf, f, items + [x]) == Insert(GroupBy(keyOf, f, items), keyOf(x), f(x))
  {
    assert (items + [x])[..|items|] == items;
  }

  lemma InGroup<T>(keyOf: T -> string, items: seq<T>, key: string)
    ensures forall x :: x in GroupOf(keyOf, items, key) <==> x in items && keyOf(x) == key
  {
    InFilter(HasKey(keyOf, key), items);
  }

  /** A group has members exactly if its key occurs. */
  lemma GroupNotEmpty<T>(keyOf: T -> string, items: seq<T>, key: string)
    ensures key in KeySet(keyOf, items) <==> GroupOf(keyOf, items, key) != []
  {
    InGroup(keyOf, items, key);
    if key in KeySet(keyOf, items) {
      var x :| x in items && keyOf(x) == key;
      assert x in GroupOf(keyOf, items, key);
    } else {
      GroupNone(keyOf, items, key);
    }
  }

  /** Every item lies in exactly the group of its key, and nothing is lost or doubled. */
  lemma GroupsPartition<T>(keyOf: T -> string, items: seq<T>, x: T)
    ensures forall key :: x in GroupOf(keyOf, items, key) <==> x in items && key == keyOf(x)
    ensures multiset(GroupOf(keyOf, items, keyOf(x)))[x] == multiset(items)[x]
  {
    forall key {
      InGroup(keyOf, items, key);
    }
    FilterCount(HasKey(keyOf, keyOf(x)), items, x);
  }
}
