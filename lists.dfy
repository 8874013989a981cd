/** Array operations the pages share. */
module Lists {

  /** `items.filter(item => item !== value)`: every occurrence of
      `value` removed. */
  function Without<T(==)>(items: seq<T>, value: T): (r: seq<T>)
    ensures |r| <= |items|
  {
    if items == [] then []
    else if items[0] == value then Without(items[1..], value)
    else [items[0]] + Without(items[1..], value)
  }

  /** The filter keeps exactly the other items... */
  lemma {:induction false} WithoutMembers<T>(items: seq<T>, value: T, x: T)
    ensures x in Without(items, value) <==> x in items && x != value
  {
    if items != [] {
      WithoutMembers(items[1..], value, x);
      assert x in items <==> x == items[0] || x in items[1..];
    }
  }

  /** ...as many times as they occurred... */
  lemma {:induction false} WithoutCounts<T>(items: seq<T>, value: T, x: T)
    ensures multiset(Without(items, value))[x] == if x == value then 0 else multiset(items)[x]
  {
    if items != [] {
      WithoutCounts(items[1..], value, x);
      assert items == [items[0]] + items[1..];
    }
  }

  /** ...and in their order: filtering a concatenation filters each part. */
  lemma {:induction false} WithoutAppend<T>(a: seq<T>, b: seq<T>, value: T)
    ensures Without(a + b, value) == Without(a, value) + Without(b, value)
  {
    if a != [] {
      assert (a + b)[1..] == a[1..] + b;
      WithoutAppend(a[1..], b, value);
    } else {
      assert a + b == b;
    }
  }

  /** Without the value, the filter changes nothing. */
  lemma {:induction false} WithoutAbsent<T>(items: seq<T>, value: T)
    requires value !in items
    ensures Without(items, value) == items
  {
    if items != [] {
      WithoutAbsent(items[1..], value);
    }
  }

  /** Appending a value the list lacks and filtering it out again gives
      the list back. */
  lemma WithoutAppended<T>(items: seq<T>, value: T)
    requires value !in items
    ensures Without(items + [value], value) == items
  {
    WithoutAppend(items, [value], value);
    WithoutAbsent(items, value);
    assert Without([value], value) == [];
  }
}
