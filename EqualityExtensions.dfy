/**
 * Null-aware equality helpers over scalars, dictionaries and sequences.
 *
 * A nullable argument is an `Option`; the element, value and key comparers are
 * Dafny's built-in equality. Reference identity of two non-null arguments is not
 * observable on values: it only short-cuts a comparison whose remaining steps
 * would answer `true` anyway.
 */
module EqualityExtensions {
  import opened Wrappers

  // ---------------------------------------------------------------------------
  // Scalars
  // ---------------------------------------------------------------------------

  /** Two nulls are equal, a null never equals a non-null, otherwise the comparer decides. */
  function IsEqualTo<T(==)>(item1: Option<T>, item2: Option<T>): (r: bool)
    ensures item1.None? && item2.None? ==> r
    ensures item1.None? != item2.None? ==> !r
    ensures item1.Some? && item2.Some? ==> (r <==> item1.value == item2.value)
  {
    if item1.None? && item2.None? then true
    else if item1.None? || item2.None? then false
    else item1.value == item2.value
  }

  /** IsEqualTo is an equivalence: reflexive, symmetric and transitive, and agrees with `==`. */
  lemma IsEqualToIsEquivalence<T>(x: Option<T>, y: Option<T>, z: Option<T>)
    ensures IsEqualTo(x, x)
    ensures IsEqualTo(x, y) == IsEqualTo(y, x)
    ensures IsEqualTo(x, y) && IsEqualTo(y, z) ==> IsEqualTo(x, z)
    ensures IsEqualTo(x, y) <==> x == y
  {
  }

  // ---------------------------------------------------------------------------
  // Dictionaries
  // ---------------------------------------------------------------------------

  /** Every key of `a` is a key of `b`, and `a` and `b` agree on its value. */
  predicate KeysMatch<K, V(==)>(a: map<K, V>, b: map<K, V>)
  {
    forall k :: k in a ==> k in b && a[k] == b[k]
  }

  /**
   * The documented meaning of dictionary equality: two nulls are equal, one null
   * is not, dictionaries of different size are not, and otherwise each key of
   * either dictionary must be in the other with an equal value.
   */
  predicate DictionaryEqual<K, V(==)>(item1: Option<map<K, V>>, item2: Option<map<K, V>>)
  {
    match (item1, item2)
    case (None, None) => true
    case (None, Some(_)) => false
    case (Some(_), None) => false
    case (Some(a), Some(b)) => |a| == |b| && KeysMatch(a, b) && KeysMatch(b, a)
  }

  /**
   * The first `foreach` over item1's keys and the second over item2's keys, each
   * returning false at the first key that is missing from the other dictionary or
   * whose values differ.
   */
  method IsDictionaryEqualTo<K(==), V(==)>(item1: Option<map<K, V>>, item2: Option<map<K, V>>)
    returns (r: bool)
    ensures r == DictionaryEqual(item1, item2)
  {
    if item1.None? && item2.None? {
      return true;
    }
    if item1.None? || item2.None? {
      return false;
    }
    var d1, d2 := item1.value, item2.value;
    if |d1.Keys| != |d2.Keys| {
      return false;
    }

    var keys := d1.Keys;
    while keys != {}
      invariant keys <= d1.Keys
      invariant forall k :: k in d1 && k !in keys ==> k in d2 && d1[k] == d2[k]
      decreases keys
    {
      var key :| key in keys;
      if key !in d2 {
        return false;
      }
      if d1[key] != d2[key] {
        return false;
      }
      keys := keys - {key};
    }

    keys := d2.Keys;
    while keys != {}
      invariant keys <= d2.Keys
      invariant forall k :: k in d2 && k !in keys ==> k in d1 && d2[k] == d1[k]
      decreases keys
    {
      var key :| key in keys;
      if key !in d1 {
        return false;
      }
      if d1[key] != d2[key] {
        return false;
      }
      keys := keys - {key};
    }
    return true;
  }

  /**
   * The read-only-dictionary variant: the same guards, the same count check and
   * the same two passes, and so the same result as IsDictionaryEqualTo.
   */
  method IsReadOnlyDictionaryEqualTo<K(==), V(==)>(item1: Option<map<K, V>>, item2: Option<map<K, V>>)
    returns (r: bool)
    ensures r == DictionaryEqual(item1, item2)
  {
    if item1.None? && item2.None? {
      return true;
    }
    if item1.None? || item2.None? {
      return false;
    }
    var d1, d2 := item1.value, item2.value;
    // `Keys.Count()` enumerates the key collection: the number of distinct keys.
    if |d1.Keys| != |d2.Keys| {
      return false;
    }

    var pending := d1.Keys;
    while pending != {}
      invariant pending <= d1.Keys
      invariant KeysMatch(d1 - pending, d2)
      decreases pending
    {
      var key :| key in pending;
      if key !in d2 {
        return false;
      }
      if d1[key] != d2[key] {
        return false;
      }
      pending := pending - {key};
    }
    assert d1 - pending == d1;

    pending := d2.Keys;
    while pending != {}
      invariant pending <= d2.Keys
      invariant KeysMatch(d2 - pending, d1)
      decreases pending
    {
      var key :| key in pending;
      if key !in d1 {
        return false;
      }
      if d1[key] != d2[key] {
        return false;
      }
      pending := pending - {key};
    }
    assert d2 - pending == d2;
    return true;
  }

  /** Two passes that both succeed already force equal key counts: the count check only fails early. */
  lemma KeysMatchBothWaysSameCount<K, V>(a: map<K, V>, b: map<K, V>)
    requires KeysMatch(a, b) && KeysMatch(b, a)
    ensures |a| == |b|
  {
    assert a.Keys == b.Keys;
  }

  /** Dictionaries of different key counts are never equal. */
  lemma DifferentCountsAreUnequal<K, V>(a: map<K, V>, b: map<K, V>)
    requires |a.Keys| != |b.Keys|
    ensures !DictionaryEqual(Some(a), Some(b))
  {
  }

  /**
   * Dictionary equality is exactly equality of the maps (and of the nulls), and
   * so symmetric in its arguments.
   */
  lemma DictionaryEqualIsMapEquality<K, V>(item1: Option<map<K, V>>, item2: Option<map<K, V>>)
    ensures DictionaryEqual(item1, item2) <==> item1 == item2
    ensures DictionaryEqual(item1, item2) == DictionaryEqual(item2, item1)
  {
    if item1.Some? && item2.Some? {
      var a, b := item1.value, item2.value;
      if KeysMatch(a, b) && KeysMatch(b, a) {
        assert a.Keys == b.Keys;
        assert a == b;
      }
    }
  }

  // ---------------------------------------------------------------------------
  // Ordered sequences
  // ---------------------------------------------------------------------------

  /** Pairwise walk over both sequences, as `Enumerable.SequenceEqual` does. */
  function SequenceEqual<T(==)>(a: seq<T>, b: seq<T>): (r: bool)
    ensures r <==> |a| == |b| && forall i :: 0 <= i < |a| ==> a[i] == b[i]
    decreases |a|
  {
    if a == [] || b == [] then a == [] && b == []
    else a[0] == b[0] && SequenceEqual(a[1..], b[1..])
  }

  /** Two nulls are equal, one null is not, otherwise equal length and equal elements position by position. */
  function IsSequenceEqualTo<T(==)>(item1: Option<seq<T>>, item2: Option<seq<T>>): (r: bool)
    ensures item1.None? && item2.None? ==> r
    ensures item1.None? != item2.None? ==> !r
    ensures item1.Some? && item2.Some? ==>
      (r <==> |item1.value| == |item2.value| &&
              forall i :: 0 <= i < |item1.value| ==> item1.value[i] == item2.value[i])
  {
    if item1.None? && item2.None? then true
    else if item1.None? || item2.None? then false
    else SequenceEqual(item1.value, item2.value)
  }

  /** Ordered equality is equality of the (nullable) sequences. */
  lemma IsSequenceEqualToIsEquality<T>(item1: Option<seq<T>>, item2: Option<seq<T>>)
    ensures IsSequenceEqualTo(item1, item2) <==> item1 == item2
  {
    if item1.Some? && item2.Some? && IsSequenceEqualTo(item1, item2) {
      assert item1.value == item2.value;
    }
  }

  // ---------------------------------------------------------------------------
  // Unordered sequences
  // ---------------------------------------------------------------------------

  /** Number of occurrences of `x` in `s`. */
  function Count<T(==)>(s: seq<T>, x: T): nat
  {
    if s == [] then 0 else (if s[0] == x then 1 else 0) + Count(s[1..], x)
  }

  /** The occurrence count is the multiplicity in the multiset of the sequence. */
  lemma {:induction false} CountIsMultiplicity<T>(s: seq<T>, x: T)
    ensures Count(s, x) == multiset(s)[x]
  {
    if s != [] {
      CountIsMultiplicity(s[1..], x);
      assert s == [s[0]] + s[1..];
    }
  }

  /**
   * The documented meaning of unordered equality: two nulls are equal, one null is
   * not, and otherwise both sequences hold the same elements the same number of times.
   */
  predicate UnorderedEqual<T(==)>(item1: Option<seq<T>>, item2: Option<seq<T>>)
  {
    match (item1, item2)
    case (None, None) => true
    case (None, Some(_)) => false
    case (Some(_), None) => false
    case (Some(a), Some(b)) => multiset(a) == multiset(b)
  }

  /**
   * Unordered equality holds exactly when the lengths agree and every element
   * occurs as often in one sequence as in the other.
   */
  lemma UnorderedEqualMeansSameCounts<T>(a: seq<T>, b: seq<T>)
    ensures UnorderedEqual(Some(a), Some(b)) ==> |a| == |b|
    ensures UnorderedEqual(Some(a), Some(b)) ==> forall x :: Count(a, x) == Count(b, x)
    ensures |a| == |b| && (forall x :: Count(a, x) == Count(b, x)) ==> UnorderedEqual(Some(a), Some(b))
  {
    if multiset(a) == multiset(b) {
      assert |a| == |multiset(a)| == |multiset(b)| == |b|;
      forall x ensures Count(a, x) == Count(b, x) {
        CountIsMultiplicity(a, x);
        CountIsMultiplicity(b, x);
      }
    }
    if forall x :: Count(a, x) == Count(b, x) {
      forall x ensures multiset(a)[x] == multiset(b)[x] {
        CountIsMultiplicity(a, x);
        CountIsMultiplicity(b, x);
      }
      assert multiset(a) == multiset(b);
    }
  }

  /** Sequences of different lengths are never unordered-equal. */
  lemma DifferentLengthsAreNotUnorderedEqual<T>(a: seq<T>, b: seq<T>)
    requires |a| != |b|
    ensures !UnorderedEqual(Some(a), Some(b))
  {
    assert |multiset(a)| == |a| && |multiset(b)| == |b|;
  }

  /** Unordered equality is symmetric, and ordered equality implies it. */
  lemma UnorderedEqualSymmetricAndWeaker<T>(item1: Option<seq<T>>, item2: Option<seq<T>>)
    ensures UnorderedEqual(item1, item2) == UnorderedEqual(item2, item1)
    ensures IsSequenceEqualTo(item1, item2) ==> UnorderedEqual(item1, item2)
  {
    IsSequenceEqualToIsEquality(item1, item2);
  }

  /** The index of the first element of `s` equal to `x`. */
  function FirstIndexOf<T(==)>(s: seq<T>, x: T): (k: nat)
    requires x in s
    ensures k < |s| && s[k] == x
    ensures forall j :: 0 <= j < k ==> s[j] != x
  {
    if s[0] == x then 0 else 1 + FirstIndexOf(s[1..], x)
  }

  /** `s` without its element at position `k` (`List.RemoveAt`). */
  function RemoveAt<T>(s: seq<T>, k: nat): (r: seq<T>)
    requires k < |s|
    ensures |r| == |s| - 1
    ensures forall j :: 0 <= j < k ==> r[j] == s[j]
    ensures forall j :: k <= j < |r| ==> r[j] == s[j + 1]
  {
    s[..k] + s[k + 1..]
  }

  /** Removing one position removes exactly one occurrence of its element. */
  lemma RemoveAtMultiset<T>(s: seq<T>, k: nat)
    requires k < |s|
    ensures multiset(RemoveAt(s, k)) == multiset(s) - multiset{s[k]}
  {
    assert s == s[..k] + [s[k]] + s[k + 1..];
  }

  /**
   * The inner `for` loop: scan `list` from the front and remove the first element
   * equal to `element`, reporting whether one was found.
   */
  method RemoveFirstMatch<T(==)>(list: seq<T>, element: T) returns (rest: seq<T>, found: bool)
    ensures found <==> element in list
    ensures found ==> rest == RemoveAt(list, FirstIndexOf(list, element))
    ensures !found ==> rest == list
  {
    rest, found := list, false;
    var x := 0;
    while x < |list|
      invariant 0 <= x <= |list|
      invariant forall j :: 0 <= j < x ==> list[j] != element
      invariant !found && rest == list
    {
      if list[x] == element {
        rest := RemoveAt(list, x);
        found := true;
        break;
      }
      x := x + 1;
    }
  }

  /** One greedy step: removing a match for `a[i]` from what is left keeps the loop invariant. */
  lemma MatchedElement<T>(a: seq<T>, i: nat, rest: seq<T>, original: seq<T>, k: nat)
    requires i < |a| && k < |rest| && rest[k] == a[i]
    requires multiset(a[..i]) <= multiset(original)
    requires multiset(rest) == multiset(original) - multiset(a[..i])
    ensures multiset(a[..i + 1]) <= multiset(original)
    ensures multiset(RemoveAt(rest, k)) == multiset(original) - multiset(a[..i + 1])
  {
    assert a[..i + 1] == a[..i] + [a[i]];
    assert multiset(rest)[a[i]] >= 1;
    RemoveAtMultiset(rest, k);
  }

  /** When nothing left matches `a[i]`, `a` holds that element more often than `original`. */
  lemma UnmatchedElement<T>(a: seq<T>, i: nat, rest: seq<T>, original: seq<T>)
    requires i < |a| && a[i] !in rest
    requires multiset(a[..i]) <= multiset(original)
    requires multiset(rest) == multiset(original) - multiset(a[..i])
    ensures multiset(a) != multiset(original)
  {
    var x := a[i];
    assert multiset(rest)[x] == 0;
    assert multiset(original)[x] == multiset(a[..i])[x];
    assert a == a[..i] + [x] + a[i + 1..];
    assert multiset(a)[x] >= multiset(a[..i])[x] + 1;
  }

  /**
   * Greedy matching: for each element of item1, in order, remove the first equal
   * element from a private copy of item2; fail as soon as none is left. The result
   * is exactly multiset equality.
   */
  method IsUnorderedEqualTo<T(==)>(item1: Option<seq<T>>, item2: Option<seq<T>>) returns (r: bool)
    ensures r == UnorderedEqual(item1, item2)
  {
    if item1.None? && item2.None? {
      return true;
    }
    if item1.None? || item2.None? {
      return false;
    }
    var item1AsList := item1.value;
    var item2AsList := item2.value;
    if |item1AsList| != |item2AsList| {
      DifferentLengthsAreNotUnorderedEqual(item1AsList, item2AsList);
      return false;
    }

    ghost var original := item2.value;
    var i := 0;
    while i < |item1AsList|
      invariant 0 <= i <= |item1AsList|
      invariant |item2AsList| == |original| - i
      invariant multiset(item1AsList[..i]) <= multiset(original)
      invariant multiset(item2AsList) == multiset(original) - multiset(item1AsList[..i])
    {
      var item1Element := item1AsList[i];
      var elementFound;
      var remaining;
      remaining, elementFound := RemoveFirstMatch(item2AsList, item1Element);
      if !elementFound {
        UnmatchedElement(item1AsList, i, item2AsList, original);
        return false;
      }
      MatchedElement(item1AsList, i, item2AsList, original, FirstIndexOf(item2AsList, item1Element));
      item2AsList := remaining;
      i := i + 1;
    }
    assert item1AsList[..i] == item1AsList;
    assert multiset(original) - multiset(item1AsList) == multiset{};
    return true;
  }
}
