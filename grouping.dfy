/** Grouping records into a dictionary keyed by a computed key, as the report
    loops do with `if (!groups[key]) groups[key] = …; groups[key].x += …`:
    the keys in first-seen order, the group of each key, the sums per group,
    and the order `Object.values` lists a dictionary's entries in. */
module Grouping {
  import opened Common
  import opened Sums
  import opened Sorting

  /** The distinct keys of s in the order they are first met. */
  function KeysSeen<T, K(==)>(s: seq<T>, key: T -> K): (r: seq<K>)
    ensures |r| <= |s|
  {
    if s == [] then []
    else
      var init := KeysSeen(s[..|s| - 1], key);
      var x := s[|s| - 1];
      init + (if key(x) in init then [] else [key(x)])
  }

  /** Each key is listed once. */
  lemma {:induction false} KeysSeenDistinct<T, K>(s: seq<T>, key: T -> K)
    ensures Distinct(KeysSeen(s, key))
  {
    if s != [] {
      var init := s[..|s| - 1];
      KeysSeenDistinct(init, key);
      DistinctSnoc(KeysSeen(init, key), key(s[|s| - 1]));
    }
  }

  /** The keys seen are exactly the keys of the records. */
  lemma {:induction false} KeysSeenMembers<T, K>(s: seq<T>, key: T -> K)
    ensures forall x | x in s :: key(x) in KeysSeen(s, key)
    ensures forall k | k in KeysSeen(s, key) :: exists x | x in s :: key(x) == k
  {
    if s != [] {
      var init, x := s[..|s| - 1], s[|s| - 1];
      assert s == init + [x];
      KeysSeenMembers(init, key);
    }
  }

  /** The records of s with key k, in the order of s. */
  function Group<T, K(==)>(s: seq<T>, key: T -> K, k: K): (r: seq<T>)
    ensures forall x | x in r :: x in s && key(x) == k
    ensures forall x | x in s && key(x) == k :: x in r
    ensures |r| <= |s|
  {
    if s == [] then []
    else
      var x := s[|s| - 1];
      assert s == s[..|s| - 1] + [x];
      Group(s[..|s| - 1], key, k) + (if key(x) == k then [x] else [])
  }

  lemma GroupSnoc<T, K>(s: seq<T>, x: T, key: T -> K, k: K)
    ensures Group(s + [x], key, k) == Group(s, key, k) + (if key(x) == k then [x] else [])
  {
    assert (s + [x])[..|s|] == s;
  }

  /** A key nobody has yields an empty group. */
  lemma GroupOfUnseen<T, K>(s: seq<T>, key: T -> K, k: K)
    requires k !in KeysSeen(s, key)
    ensures Group(s, key, k) == []
  {
  }

  /** Two keyings that pick out the same records give the same group. */
  lemma {:induction false} GroupSameRecords<T, K, L>(s: seq<T>, key1: T -> K, k1: K, key2: T -> L, k2: L)
    requires forall x | x in s :: key1(x) == k1 <==> key2(x) == k2
    ensures Group(s, key1, k1) == Group(s, key2, k2)
  {
    if s != [] {
      var init := s[..|s| - 1];
      assert s == init + [s[|s| - 1]];
      GroupSameRecords(init, key1, k1, key2, k2);
    }
  }

  /** Appending one record adds its value to its own key's group sum only. */
  lemma GroupSumSnoc<T, K>(s: seq<T>, x: T, key: T -> K, f: T -> real, k: K)
    ensures GroupSum(s + [x], key, f)(k) == GroupSum(s, key, f)(k) + Indicator(key(x), f(x))(k)
  {
    GroupSnoc(s, x, key, k);
    SumMapAppend(Group(s, key, k), if key(x) == k then [x] else [], f);
    assert SumMap([x], f) == f(x) by {
      assert [x][..0] == [];
    }
  }

  /** The sum of f over the group of each key. */
  function GroupSum<T, K(==)>(s: seq<T>, key: T -> K, f: T -> real): K -> real
  {
    k => SumMap(Group(s, key, k), f)
  }

  function Indicator<K(==)>(c: K, v: real): K -> real
  {
    k => if k == c then v else 0.0
  }

  /** Summing a one-key indicator over duplicate-free keys picks out v once,
      if the key is there at all. */
  lemma {:induction false} IndicatorSum<K>(ks: seq<K>, c: K, v: real)
    requires Distinct(ks)
    ensures SumMap(ks, Indicator(c, v)) == if c in ks then v else 0.0
  {
    if ks != [] {
      var init, y := ks[..|ks| - 1], ks[|ks| - 1];
      assert ks == init + [y];
      DistinctSnoc(init, y);
      IndicatorSum(init, c, v);
    }
  }

  /** Over duplicate-free keys, appending a record raises the total of the
      group sums by its value when its key is among them, and not otherwise. */
  lemma SumGroupSumsSnoc<T, K>(s: seq<T>, x: T, key: T -> K, f: T -> real, ks: seq<K>)
    requires Distinct(ks)
    ensures SumMap(ks, GroupSum(s + [x], key, f))
      == SumMap(ks, GroupSum(s, key, f)) + (if key(x) in ks then f(x) else 0.0)
  {
    forall i | 0 <= i < |ks|
      ensures GroupSum(s + [x], key, f)(ks[i]) == GroupSum(s, key, f)(ks[i]) + Indicator(key(x), f(x))(ks[i])
    {
      GroupSumSnoc(s, x, key, f, ks[i]);
    }
    SumMapAdd(ks, GroupSum(s + [x], key, f), GroupSum(s, key, f), Indicator(key(x), f(x)));
    IndicatorSum(ks, key(x), f(x));
  }

  /** The groups partition the records: summing the group sums over the keys
      gives the sum over all records, so nothing is lost or counted twice. */
  lemma {:induction false} GroupsPartition<T, K>(s: seq<T>, key: T -> K, f: T -> real)
    ensures SumMap(KeysSeen(s, key), GroupSum(s, key, f)) == SumMap(s, f)
  {
    if s != [] {
      var init, x := s[..|s| - 1], s[|s| - 1];
      assert s == init + [x];
      var ks := KeysSeen(init, key);
      var c := key(x);
      KeysSeenDistinct(init, key);
      GroupsPartition(init, key, f);
      SumGroupSumsSnoc(init, x, key, f, ks);
      assert SumMap(s, f) == SumMap(init, f) + f(x);
      if c in ks {
        assert KeysSeen(s, key) == ks;
      } else {
        NewGroupSum(init, x, key, f);
      }
    }
  }

  /** Rows built one per key, in any order of the keys, whose field is the
      group sum of f for their key, add up to the sum of f over all records. */
  lemma RowsConserve<T, K, R>(s: seq<T>, key: T -> K, keys: seq<K>, rows: seq<R>, field: R -> real, f: T -> real)
    requires multiset(keys) == multiset(KeysSeen(s, key)) && |rows| == |keys|
    requires forall j | 0 <= j < |rows| :: field(rows[j]) == GroupSum(s, key, f)(keys[j])
    ensures SumMap(rows, field) == SumMap(s, f)
  {
    SumMapPointwise(rows, keys, field, GroupSum(s, key, f));
    SumMapPerm(keys, KeysSeen(s, key), GroupSum(s, key, f));
    GroupsPartition(s, key, f);
  }

  /** A key that was met has at least one record. */
  lemma GroupNonEmpty<T, K>(s: seq<T>, key: T -> K, k: K)
    requires k in KeysSeen(s, key)
    ensures Group(s, key, k) != []
  {
    KeysSeenMembers(s, key);
    var x :| x in s && key(x) == k;
    assert x in Group(s, key, k);
  }

  /** A record with an unseen key opens a group holding just its value. */
  lemma NewGroupSum<T, K>(s: seq<T>, x: T, key: T -> K, f: T -> real)
    requires key(x) !in KeysSeen(s, key)
    ensures KeysSeen(s + [x], key) == KeysSeen(s, key) + [key(x)]
    ensures SumMap(KeysSeen(s + [x], key), GroupSum(s + [x], key, f))
      == SumMap(KeysSeen(s, key), GroupSum(s + [x], key, f)) + f(x)
  {
    var ks, c := KeysSeen(s, key), key(x);
    assert (s + [x])[..|s|] == s;
    SumMapAppend(ks, [c], GroupSum(s + [x], key, f));
    assert SumMap([c], GroupSum(s + [x], key, f)) == GroupSum(s + [x], key, f)(c) by {
      assert [c][..0] == [];
    }
    GroupOfUnseen(s, key, c);
    GroupSumSnoc(s, x, key, f, c);
  }

  /** Folding a record sequence from the left, as a `+=` loop over it does. */
  function Fold<T, A>(s: seq<T>, zero: A, add: (A, T) -> A): A
  {
    if s == [] then zero else add(Fold(s[..|s| - 1], zero, add), s[|s| - 1])
  }

  lemma FoldSnoc<T, A>(s: seq<T>, x: T, zero: A, add: (A, T) -> A)
    ensures Fold(s + [x], zero, add) == add(Fold(s, zero, add), x)
  {
    assert (s + [x])[..|s|] == s;
  }

  /** The dictionary a `forEach` builds over s: a record whose key has no
      entry yet opens one at zero, then the record is added into its key's
      entry. */
  function Grouped<T, K(==), A>(s: seq<T>, key: T -> K, zero: A, add: (A, T) -> A): map<K, A>
  {
    if s == [] then map[]
    else
      var m := Grouped(s[..|s| - 1], key, zero, add);
      var x := s[|s| - 1];
      m[key(x) := add(if key(x) in m then m[key(x)] else zero, x)]
  }

  /** One more record, on values. */
  lemma GroupedSnoc<T, K, A>(s: seq<T>, x: T, key: T -> K, zero: A, add: (A, T) -> A)
    ensures var m := Grouped(s, key, zero, add);
      Grouped(s + [x], key, zero, add) == m[key(x) := add(if key(x) in m then m[key(x)] else zero, x)]
    ensures KeysSeen(s + [x], key) == KeysSeen(s, key) + (if key(x) in KeysSeen(s, key) then [] else [key(x)])
  {
    assert (s + [x])[..|s|] == s;
  }

  /** The dictionary has an entry for exactly the keys met. */
  lemma {:induction false} GroupedKeys<T, K, A>(s: seq<T>, key: T -> K, zero: A, add: (A, T) -> A)
    ensures forall k :: k in Grouped(s, key, zero, add) <==> k in KeysSeen(s, key)
  {
    if s != [] {
      GroupedKeys(s[..|s| - 1], key, zero, add);
    }
  }

  /** Each entry is the fold of exactly the records with its key. */
  lemma {:induction false} GroupedEntry<T, K, A>(s: seq<T>, key: T -> K, zero: A, add: (A, T) -> A, k: K)
    requires k in Grouped(s, key, zero, add)
    ensures Grouped(s, key, zero, add)[k] == Fold(Group(s, key, k), zero, add)
  {
    var init, x := s[..|s| - 1], s[|s| - 1];
    assert s == init + [x];
    var m := Grouped(init, key, zero, add);
    assert Grouped(s, key, zero, add) == m[key(x) := add(if key(x) in m then m[key(x)] else zero, x)];
    GroupSnoc(init, x, key, k);
    FoldSnoc(Group(init, key, k), x, zero, add);
    if k in m {
      GroupedEntry(init, key, zero, add, k);
      if k != key(x) {
        assert Group(s, key, k) == Group(init, key, k);
      }
    } else {
      GroupedKeys(init, key, zero, add);
      GroupOfUnseen(init, key, k);
      assert Group(s, key, k) == [x];
      assert Fold([x], zero, add) == add(zero, x) by {
        assert [x][..0] == [];
      }
    }
  }

  /** The `forEach` loop itself: one pass that opens an entry for each new
      key, remembering the insertion order, and adds each record into its
      key's entry. */
  method GroupInto<T, K(==), A>(s: seq<T>, key: T -> K, zero: A, add: (A, T) -> A)
    returns (grouped: map<K, A>, order: seq<K>)
    ensures grouped == Grouped(s, key, zero, add)
    ensures order == KeysSeen(s, key)
    ensures forall k :: k in grouped <==> k in order
  {
    grouped, order := map[], [];
    ghost var done: seq<T> := [];
    var i := 0;
    while i < |s|
      invariant 0 <= i <= |s| && done == s[..i]
      invariant grouped == Grouped(done, key, zero, add) && order == KeysSeen(done, key)
      invariant forall k :: k in grouped <==> k in order
    {
      var x := s[i];
      var k := key(x);
      GroupedSnoc(done, x, key, zero, add);
      if k !in grouped {
        grouped := grouped[k := zero];
        order := order + [k];
      }
      grouped := grouped[k := add(grouped[k], x)];
      done := done + [x];
      i := i + 1;
    }
    assert done == s;
  }

  /** `Object.values(dict).map(finish)` once the keys are in their listing
      order: one finished row per key. */
  method FinishEntries<K(==), A, B>(keys: seq<K>, grouped: map<K, A>, finish: (K, A) -> B) returns (rows: seq<B>)
    requires forall k | k in keys :: k in grouped
    ensures |rows| == |keys|
    ensures forall m | 0 <= m < |keys| :: rows[m] == finish(keys[m], grouped[keys[m]])
  {
    rows := [];
    var j := 0;
    while j < |keys|
      invariant 0 <= j <= |keys|
      invariant |rows| == j
      invariant forall m | 0 <= m < j :: rows[m] == finish(keys[m], grouped[keys[m]])
    {
      rows := rows + [finish(keys[j], grouped[keys[j]])];
      j := j + 1;
    }
  }

  /** Reordering the keys of a dictionary keeps each of them a key. */
  lemma ReorderedKeysPresent<K, A>(order: seq<K>, keys: seq<K>, grouped: map<K, A>)
    requires multiset(keys) == multiset(order)
    requires forall k :: k in grouped <==> k in order
    ensures forall k | k in keys :: k in grouped
  {
    forall k | k in keys
      ensures k in grouped
    {
      assert k in multiset(order);
    }
  }

  /** How `Object.values` orders a dictionary (section 10.1.11.1 of ECMA-262,
      OrdinaryOwnPropertyKeys): keys that are array indices come first in
      ascending numeric order, then the other keys in insertion order.
      `index` says which keys are array indices and with which value. */
  function ObjectOrder<K>(keys: seq<K>, index: K -> Option<nat>): (r: seq<K>)
    ensures multiset(r) == multiset(keys)
    ensures |r| == |keys|
    ensures forall i, j | 0 <= i < j < |r| && index(r[j]).Some? ::
      index(r[i]).Some? && index(r[i]).value <= index(r[j]).value
    ensures |PlainKeys(keys, index)| <= |r|
    ensures r[|r| - |PlainKeys(keys, index)|..] == PlainKeys(keys, index)
  {
    var parts := SplitByIndex(keys, index);
    var indexed := SortDesc(parts.0, IndexRank(index));
    IndexKeysFirst(parts.0, indexed, parts.1, index);
    SplitKeepsPlainOrder(keys, index);
    var r := indexed + parts.1;
    assert |multiset(r)| == |multiset(keys)|;
    r
  }

  lemma IndexKeysFirst<K>(a: seq<K>, indexed: seq<K>, plain: seq<K>, index: K -> Option<nat>)
    requires multiset(indexed) == multiset(a) && SortedDesc(indexed, IndexRank(index))
    requires forall k | k in a :: index(k).Some?
    requires forall k | k in plain :: index(k).None?
    ensures var r := indexed + plain;
      forall i, j | 0 <= i < j < |r| && index(r[j]).Some? ::
        index(r[i]).Some? && index(r[i]).value <= index(r[j]).value
  {
    forall i | 0 <= i < |indexed|
      ensures index(indexed[i]).Some?
    {
      assert indexed[i] in multiset(a);
    }
    var r := indexed + plain;
    forall i, j | 0 <= i < j < |r| && index(r[j]).Some?
      ensures index(r[i]).Some? && index(r[i]).value <= index(r[j]).value
    {
      if j < |indexed| {
        assert IndexRank(index)(indexed[i]) >= IndexRank(index)(indexed[j]);
      }
    }
  }

  /** Ascending index as a descending sort key. */
  function IndexRank<K>(index: K -> Option<nat>): K -> real
  {
    k => if index(k).Some? then -(index(k).value as real) else 0.0
  }

  /** The index keys and the other keys, each in their original order. */
  function SplitByIndex<K>(keys: seq<K>, index: K -> Option<nat>): (r: (seq<K>, seq<K>))
    ensures multiset(r.0) + multiset(r.1) == multiset(keys)
    ensures forall k | k in r.0 :: index(k).Some?
    ensures forall k | k in r.1 :: index(k).None?
  {
    if keys == [] then ([], [])
    else
      var rest := SplitByIndex(keys[1..], index);
      assert keys == [keys[0]] + keys[1..];
      if index(keys[0]).Some? then ([keys[0]] + rest.0, rest.1) else (rest.0, [keys[0]] + rest.1)
  }

  /** The keys that are not array indices, in their original order. */
  function PlainKeys<K>(keys: seq<K>, index: K -> Option<nat>): (r: seq<K>)
    ensures |r| <= |keys|
    ensures forall k | k in r :: k in keys && index(k).None?
    ensures forall k | k in keys && index(k).None? :: k in r
  {
    if keys == [] then []
    else
      var rest := PlainKeys(keys[1..], index);
      assert keys == [keys[0]] + keys[1..];
      if index(keys[0]).None? then [keys[0]] + rest else rest
  }

  lemma {:induction false} SplitKeepsPlainOrder<K>(keys: seq<K>, index: K -> Option<nat>)
    ensures SplitByIndex(keys, index).1 == PlainKeys(keys, index)
  {
    if keys != [] {
      SplitKeepsPlainOrder(keys[1..], index);
    }
  }

  /** Without array-index keys the order is plain insertion order. */
  lemma {:induction false} ObjectOrderPlain<K>(keys: seq<K>, index: K -> Option<nat>)
    requires forall k | k in keys :: index(k).None?
    ensures ObjectOrder(keys, index) == keys
  {
    SplitPlain(keys, index);
  }

  lemma {:induction false} SplitPlain<K>(keys: seq<K>, index: K -> Option<nat>)
    requires forall k | k in keys :: index(k).None?
    ensures SplitByIndex(keys, index) == ([], keys)
  {
    if keys != [] {
      SplitPlain(keys[1..], index);
      assert keys == [keys[0]] + keys[1..];
    }
  }

  /** Reordering keeps keys duplicate-free. */
  lemma DistinctPerm<K>(a: seq<K>, b: seq<K>)
    requires multiset(a) == multiset(b) && Distinct(a)
    ensures Distinct(b)
  {
    forall x | x in b
      ensures multiset(b)[x] <= 1
    {
      assert x in multiset(b);
    }
  }
}
