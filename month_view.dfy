/** The month view: the distinct month keys of the entries, newest first;
    the selected month, kept valid and stepped backwards and forwards; the
    selected month's entries, newest first; and their average rating. */
module Months {
  import opened Types
  import opened DateKeys
  import opened StringOrder
  import opened StableSort

  /** The month keys of the entries, as a set. */
  function KeysOf(items: seq<Accomplishment>): set<string> {
    if items == [] then {}
    else KeysOf(items[..|items| - 1]) + {MonthKey(items[|items| - 1].timestamp)}
  }

  lemma {:induction false} KeysOfMembers(items: seq<Accomplishment>, k: string)
    ensures k in KeysOf(items) <==> exists e :: e in items && MonthKey(e.timestamp) == k
  {
    if items != [] {
      var init, last := items[..|items| - 1], items[|items| - 1];
      KeysOfMembers(init, k);
      if k in KeysOf(items) {
        if k == MonthKey(last.timestamp) {
          assert last in items;
        } else {
          var e :| e in init && MonthKey(e.timestamp) == k;
          assert e in items;
        }
      }
      if exists e :: e in items && MonthKey(e.timestamp) == k {
        var e :| e in items && MonthKey(e.timestamp) == k;
        var i :| 0 <= i < |items| && items[i] == e;
        if i < |items| - 1 {
          assert e in init;
        }
      }
    }
  }

  predicate Distinct(s: seq<string>) {
    forall i, j :: 0 <= i < j < |s| ==> s[i] != s[j]
  }

  predicate StrictlyAscending(s: seq<string>) {
    forall i, j :: 0 <= i < j < |s| ==> Less(s[i], s[j])
  }

  predicate StrictlyDescending(s: seq<string>) {
    forall i, j :: 0 <= i < j < |s| ==> Less(s[j], s[i])
  }

  /** A strictly descending list holds each key once. */
  lemma DescendingDistinct(s: seq<string>)
    requires StrictlyDescending(s)
    ensures Distinct(s)
  {
    forall i, j | 0 <= i < j < |s| ensures s[i] != s[j] {
      Irreflexive(s[i]);
    }
  }

  /** Inserts a key into an ascending list of keys, before the first
      larger one. */
  function InsertAscending(s: seq<string>, k: string): seq<string> {
    if s == [] then [k]
    else if Less(k, s[0]) then [k] + s
    else [s[0]] + InsertAscending(s[1..], k)
  }

  lemma {:induction false} InsertAscendingSpec(s: seq<string>, k: string)
    requires StrictlyAscending(s) && k !in s
    ensures StrictlyAscending(InsertAscending(s, k))
    ensures forall x :: x in InsertAscending(s, k) <==> x in s || x == k
  {
    if s != [] {
      if Less(k, s[0]) {
        forall j | 0 <= j < |s| ensures Less(k, s[j]) {
          if j > 0 { Transitive(k, s[0], s[j]); }
        }
      } else {
        Total(k, s[0]);
        InsertAscendingSpec(s[1..], k);
        var r := InsertAscending(s[1..], k);
        forall j | 0 <= j < |r| ensures Less(s[0], r[j]) {
          assert r[j] in r;
          if r[j] != k {
            var m :| 0 <= m < |s[1..]| && s[1..][m] == r[j];
            assert s[m + 1] == r[j];
          }
        }
      }
    }
  }

  /** `arr.reverse()` as a value. */
  function Reverse(s: seq<string>): (r: seq<string>)
    ensures |r| == |s|
    ensures forall i :: 0 <= i < |s| ==> r[i] == s[|s| - 1 - i]
  {
    if s == [] then [] else Reverse(s[1..]) + [s[0]]
  }

  lemma ReverseMembers(s: seq<string>)
    ensures forall k :: k in Reverse(s) <==> k in s
  {
    var r, n := Reverse(s), |s|;
    forall k ensures k in r <==> k in s {
      if k in s {
        var i :| 0 <= i < n && s[i] == k;
        assert r[n - 1 - i] == k;
      }
      if k in r {
        var i :| 0 <= i < n && r[i] == k;
        assert s[n - 1 - i] == k;
      }
    }
  }

  /** `items.forEach(item => keys.add(getMonthKey(item.timestamp)))`
      followed by `Array.from(keys)`: each key once. */
  method DistinctKeys(items: seq<Accomplishment>) returns (distinct: seq<string>)
    ensures Distinct(distinct)
    ensures forall k :: k in distinct <==> k in KeysOf(items)
  {
    distinct := [];
    for i := 0 to |items|
      invariant Distinct(distinct)
      invariant forall k :: k in distinct <==> k in KeysOf(items[..i])
    {
      assert items[..i + 1][..i] == items[..i];
      var k := MonthKey(items[i].timestamp);
      assert KeysOf(items[..i + 1]) == KeysOf(items[..i]) + {k};
      if k !in distinct {
        distinct := distinct + [k];
      }
    }
    assert items[..|items|] == items;
  }

  /** `.sort()` on distinct keys. */
  method SortKeys(distinct: seq<string>) returns (sorted: seq<string>)
    requires Distinct(distinct)
    ensures StrictlyAscending(sorted)
    ensures forall k :: k in sorted <==> k in distinct
  {
    sorted := [];
    for i := 0 to |distinct|
      invariant StrictlyAscending(sorted)
      invariant forall k :: k in sorted <==> k in distinct[..i]
    {
      assert distinct[..i + 1] == distinct[..i] + [distinct[i]];
      InsertAscendingSpec(sorted, distinct[i]);
      sorted := InsertAscending(sorted, distinct[i]);
    }
    assert distinct[..|distinct|] == distinct;
  }

  /** `monthKeys`: the distinct keys sorted ascending and reversed. The
      result holds the key of every entry, each once, and nothing else,
      newest first. */
  method BuildMonthKeys(items: seq<Accomplishment>) returns (keys: seq<string>)
    ensures StrictlyDescending(keys) && Distinct(keys)
    ensures forall k :: k in keys <==> k in KeysOf(items)
  {
    var distinct := DistinctKeys(items);
    var sorted := SortKeys(distinct);
    keys := Reverse(sorted);
    ReverseMembers(sorted);
    DescendingDistinct(keys);
  }

  /** `items.filter(item => getMonthKey(item.timestamp) === key)`. */
  function InMonth(items: seq<Accomplishment>, key: string): seq<Accomplishment> {
    if items == [] then []
    else (if MonthKey(items[0].timestamp) == key then [items[0]] else []) + InMonth(items[1..], key)
  }

  lemma {:induction false} InMonthMembers(items: seq<Accomplishment>, key: string)
    ensures forall e :: e in InMonth(items, key) <==> e in items && MonthKey(e.timestamp) == key
    ensures forall e :: e in items && MonthKey(e.timestamp) == key ==>
      multiset(InMonth(items, key))[e] == multiset(items)[e]
  {
    if items != [] {
      InMonthMembers(items[1..], key);
      assert items == [items[0]] + items[1..];
    }
  }

  /** `currentItems`: the selected month's entries, newest first. */
  function CurrentItems(items: seq<Accomplishment>, key: string): seq<Accomplishment> {
    SortDesc(InMonth(items, key), Millis)
  }

  /** The entries shown are exactly the entries of the selected month, each
      as often as in `items`, ordered newest first, entries with equal
      timestamps keeping their order in `items`. */
  lemma CurrentItemsSpec(items: seq<Accomplishment>, key: string)
    ensures forall e :: e in CurrentItems(items, key) <==> e in items && MonthKey(e.timestamp) == key
    ensures multiset(CurrentItems(items, key)) == multiset(InMonth(items, key))
    ensures SortedDesc(CurrentItems(items, key), Millis)
    ensures forall t :: WithKey(CurrentItems(items, key), Millis, t) == WithKey(InMonth(items, key), Millis, t)
  {
    var f := InMonth(items, key);
    InMonthMembers(items, key);
    SortDescPermutes(f, Millis);
    SortDescSorted(f, Millis);
    forall t ensures WithKey(CurrentItems(items, key), Millis, t) == WithKey(f, Millis, t) {
      SortDescStable(f, Millis, t);
    }
    forall e ensures e in CurrentItems(items, key) <==> e in f {
      assert e in CurrentItems(items, key) <==> e in multiset(CurrentItems(items, key));
    }
  }

  /** `currentItems.reduce((sum, item) => sum + item.rating, 0)`. */
  function RatingSum(items: seq<Accomplishment>): int {
    if items == [] then 0 else RatingSum(items[..|items| - 1]) + items[|items| - 1].rating
  }

  lemma {:induction false} RatingSumBounds(items: seq<Accomplishment>)
    requires forall e :: e in items ==> 1 <= e.rating <= 10
    ensures |items| <= RatingSum(items) <= 10 * |items|
  {
    if items != [] {
      RatingSumBounds(items[..|items| - 1]);
    }
  }

  /** The mean times the count gives back the sum, and a sum between
      count and 10 * count has its mean between 1 and 10. */
  lemma MeanBetween(sum: int, count: nat)
    requires count <= sum <= 10 * count
    ensures count == 0 ==> Mean(sum, count) == 0.0
    ensures count > 0 ==> 1.0 <= Mean(sum, count) <= 10.0
    ensures Mean(sum, count) * count as real == sum as real
  {
    if count > 0 {
      var s, n := sum as real, count as real;
      var avg := s / n;
      assert avg * n == s;
      assert n <= s <= 10.0 * n;
      assert avg >= 1.0;
      assert avg <= 10.0;
    }
  }

  /** `averageRating`: the mean rating, 0 when there is nothing to average. */
  function AverageRating(current: seq<Accomplishment>): real {
    Mean(RatingSum(current), |current|)
  }

  /** `count > 0 ? sum / count : 0`. */
  function Mean(sum: int, count: nat): real {
    if count > 0 then sum as real / count as real else 0.0
  }

  /** The average is 0 for no entries; with ratings from the 1..10 slider
      it otherwise lies between 1 and 10. */
  lemma AverageRatingBounds(current: seq<Accomplishment>)
    requires forall e :: e in current ==> 1 <= e.rating <= 10
    ensures current == [] ==> AverageRating(current) == 0.0
    ensures current != [] ==> 1.0 <= AverageRating(current) <= 10.0
  {
    RatingSumBounds(current);
    MeanBetween(RatingSum(current), |current|);
  }

  /** `monthKeys.indexOf(key)`: the first position of `key`, or -1. */
  function IndexOf(keys: seq<string>, key: string): (i: int)
    ensures key !in keys ==> i == -1
    ensures key in keys ==> 0 <= i < |keys| && keys[i] == key && key !in keys[..i]
  {
    if keys == [] then -1
    else if keys[0] == key then 0
    else
      var i := IndexOf(keys[1..], key);
      if i == -1 then -1 else i + 1
  }

  function HasPrev(keys: seq<string>, key: string): bool {
    IndexOf(keys, key) < |keys| - 1
  }

  function HasNext(keys: seq<string>, key: string): bool {
    IndexOf(keys, key) > 0
  }

  /** `goToPrev`: one key further down the list (an older month). */
  function StepPrev(keys: seq<string>, key: string): string {
    if HasPrev(keys, key) then keys[IndexOf(keys, key) + 1] else key
  }

  /** `goToNext`: one key further up the list (a newer month). */
  function StepNext(keys: seq<string>, key: string): string {
    if HasNext(keys, key) then keys[IndexOf(keys, key) - 1] else key
  }

  /** The auto-select effect: an invalid key is replaced by the newest one,
      unless there are no keys at all. */
  function AutoSelect(keys: seq<string>, key: string): (r: string)
    ensures |keys| > 0 ==> r in keys
    ensures key in keys || keys == [] ==> r == key
    ensures key !in keys && keys != [] ==> r == keys[0]
  {
    if |keys| > 0 && key !in keys then keys[0] else key
  }

  /** With the selected key in a newest-first list, "previous" is enabled
      exactly when an older key exists and "next" exactly when a newer one
      does. */
  lemma NavigationMeaning(keys: seq<string>, key: string)
    requires StrictlyDescending(keys) && key in keys
    ensures HasPrev(keys, key) <==> exists k :: k in keys && Less(k, key)
    ensures HasNext(keys, key) <==> exists k :: k in keys && Less(key, k)
  {
    var i := IndexOf(keys, key);
    if exists k :: k in keys && Less(k, key) {
      var k :| k in keys && Less(k, key);
      var j :| 0 <= j < |keys| && keys[j] == k;
      if j <= i {
        Irreflexive(key);
        if j < i { Asymmetric(keys[i], keys[j]); }
      }
    }
    if exists k :: k in keys && Less(key, k) {
      var k :| k in keys && Less(key, k);
      var j :| 0 <= j < |keys| && keys[j] == k;
      if j >= i {
        Irreflexive(key);
        if j > i { Asymmetric(keys[j], keys[i]); }
      }
    }
    if HasPrev(keys, key) { assert keys[i + 1] in keys; }
    if HasNext(keys, key) { assert keys[i - 1] in keys; }
  }

  /** Stepping keeps a valid selection valid; from a key that is not in a
      non-empty list, "previous" is enabled and selects the newest key. */
  lemma StepStaysInKeys(keys: seq<string>, key: string)
    ensures key in keys ==> StepPrev(keys, key) in keys && StepNext(keys, key) in keys
    ensures key !in keys && keys != [] ==> HasPrev(keys, key) && StepPrev(keys, key) == keys[0]
    ensures key !in keys ==> !HasNext(keys, key)
  {
  }

  lemma IndexOfDistinct(keys: seq<string>, i: nat)
    requires Distinct(keys) && i < |keys|
    ensures IndexOf(keys, keys[i]) == i
  {
  }

  /** On a list without repeats, "previous" then "next" returns to the
      starting key, and so does "next" then "previous". */
  lemma StepRoundTrip(keys: seq<string>, key: string)
    requires Distinct(keys) && key in keys
    ensures HasPrev(keys, key) ==> HasNext(keys, StepPrev(keys, key)) && StepNext(keys, StepPrev(keys, key)) == key
    ensures HasNext(keys, key) ==> HasPrev(keys, StepNext(keys, key)) && StepPrev(keys, StepNext(keys, key)) == key
  {
    var i := IndexOf(keys, key);
    if HasPrev(keys, key) {
      IndexOfDistinct(keys, i + 1);
    }
    if HasNext(keys, key) {
      IndexOfDistinct(keys, i - 1);
    }
  }

  /** The component's state: the entries it was given, the month keys
      derived from them, and the selected key (`currentMonthKey`). */
  class MonthView {
    var items: seq<Accomplishment>
    var monthKeys: seq<string>
    var currentMonthKey: string

    /** `monthKeys` is what `BuildMonthKeys` computes from `items`. */
    ghost predicate KeysValid()
      reads this
    {
      StrictlyDescending(monthKeys) && forall k :: k in monthKeys <==> k in KeysOf(items)
    }

    /** Between events, the selection is one of the keys whenever any
        exist. */
    ghost predicate Valid()
      reads this
    {
      KeysValid() && (monthKeys != [] ==> currentMonthKey in monthKeys)
    }

    /** First render with `useState('')`, then the effect. */
    constructor (items: seq<Accomplishment>)
      ensures Valid() && this.items == items
      ensures currentMonthKey == AutoSelect(monthKeys, "")
    {
      this.items := items;
      var keys := BuildMonthKeys(items);
      monthKeys := keys;
      currentMonthKey := "";
      new;
      SyncSelection();
    }

    /** The auto-select effect. */
    method SyncSelection()
      requires KeysValid()
      modifies this`currentMonthKey
      ensures Valid()
      ensures currentMonthKey == AutoSelect(monthKeys, old(currentMonthKey))
    {
      if |monthKeys| > 0 && currentMonthKey !in monthKeys {
        currentMonthKey := monthKeys[0];
      }
    }

    /** New entries: `monthKeys` is recomputed, then the effect runs. */
    method SetItems(newItems: seq<Accomplishment>)
      modifies this
      ensures Valid() && items == newItems
      ensures currentMonthKey == AutoSelect(monthKeys, old(currentMonthKey))
    {
      items := newItems;
      var keys := BuildMonthKeys(newItems);
      monthKeys := keys;
      SyncSelection();
    }

    method GoToPrev()
      requires Valid()
      modifies this`currentMonthKey
      ensures Valid()
      ensures currentMonthKey == StepPrev(monthKeys, old(currentMonthKey))
    {
      var i := IndexOf(monthKeys, currentMonthKey);
      if i < |monthKeys| - 1 {
        currentMonthKey := monthKeys[i + 1];
      }
      StepStaysInKeys(monthKeys, old(currentMonthKey));
    }

    method GoToNext()
      requires Valid()
      modifies this`currentMonthKey
      ensures Valid()
      ensures currentMonthKey == StepNext(monthKeys, old(currentMonthKey))
    {
      var i := IndexOf(monthKeys, currentMonthKey);
      if i > 0 {
        currentMonthKey := monthKeys[i - 1];
      }
      StepStaysInKeys(monthKeys, old(currentMonthKey));
    }
  }
}
