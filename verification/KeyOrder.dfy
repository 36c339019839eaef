/** bytes.Compare: the lexicographic order of keys. */
module KeyOrder {
  import opened Types

  function Compare(a: Bytes, b: Bytes): int {
    if a == [] then (if b == [] then 0 else -1)
    else if b == [] then 1
    else if a[0] < b[0] then -1
    else if a[0] > b[0] then 1
    else Compare(a[1..], b[1..])
  }

  predicate Less(a: Bytes, b: Bytes) {
    Compare(a, b) == -1
  }

  lemma {:induction false} CompareFacts(a: Bytes, b: Bytes)
    ensures Compare(a, b) == -Compare(b, a)
    ensures Compare(a, b) in {-1, 0, 1}
    ensures Compare(a, b) == 0 <==> a == b
  {
    if a != [] && b != [] && a[0] == b[0] {
      CompareFacts(a[1..], b[1..]);
      assert a == [a[0]] + a[1..] && b == [b[0]] + b[1..];
    }
  }

  lemma {:induction false} LessTransitive(a: Bytes, b: Bytes, c: Bytes)
    requires Less(a, b) && Less(b, c)
    ensures Less(a, c)
  {
    if a != [] && b != [] && c != [] && a[0] == b[0] == c[0] {
      LessTransitive(a[1..], b[1..], c[1..]);
    }
  }

  /** Less is a strict total order. */
  lemma Order()
    ensures forall a, b {:trigger Less(a, b)} :: !(Less(a, b) && Less(b, a)) && (Less(a, b) || Less(b, a) || a == b)
    ensures forall a, b, c {:trigger Less(a, b), Less(b, c)} :: Less(a, b) && Less(b, c) ==> Less(a, c)
    ensures forall a, b {:trigger Compare(a, b)} ::
              (Compare(a, b) == -1 <==> Less(a, b)) && (Compare(a, b) == 1 <==> Less(b, a)) && (Compare(a, b) >= 0 <==> !Less(a, b))
  {
    forall a, b ensures Compare(a, b) == -Compare(b, a) && Compare(a, b) in {-1, 0, 1} && (Compare(a, b) == 0 <==> a == b) {
      CompareFacts(a, b);
    }
    forall a, b, c | Less(a, b) && Less(b, c) ensures Less(a, c) {
      LessTransitive(a, b, c);
    }
  }

  ghost predicate Sorted(keys: seq<Bytes>) {
    forall i, j {:trigger keys[i], keys[j]} | 0 <= i < j < |keys| :: Less(keys[i], keys[j])
  }

  /** How many leading keys are below k: where k belongs in a sorted list. */
  function Rank(keys: seq<Bytes>, k: Bytes): (r: nat)
    ensures r <= |keys|
    ensures forall i | 0 <= i < r :: Less(keys[i], k)
    ensures r < |keys| ==> !Less(keys[r], k)
  {
    if keys == [] || !Less(keys[0], k) then 0 else 1 + Rank(keys[1..], k)
  }

  /** The rank is the only place that separates the keys below k from the others. */
  lemma {:induction false} RankUnique(keys: seq<Bytes>, k: Bytes, r: nat)
    requires r <= |keys|
    requires forall i {:trigger keys[i]} | 0 <= i < r :: Less(keys[i], k)
    requires forall i {:trigger keys[i]} | r <= i < |keys| :: !Less(keys[i], k)
    ensures Rank(keys, k) == r
  {
    if keys != [] && r > 0 {
      assert Less(keys[0], k);
      RankUnique(keys[1..], k, r - 1);
    }
  }

  lemma RankBounds(keys: seq<Bytes>, k: Bytes)
    requires Sorted(keys)
    ensures forall i {:trigger keys[i]} | Rank(keys, k) <= i < |keys| :: !Less(keys[i], k)
    ensures forall i {:trigger keys[i]} | 0 <= i < |keys| && i != Rank(keys, k) :: keys[i] != k
    ensures forall i {:trigger keys[i]} | Rank(keys, k) < i < |keys| :: Less(k, keys[i])
  {
    hide Less;
    Order();
    var r := Rank(keys, k);
    forall i {:trigger keys[i]} | r < i < |keys| ensures Less(k, keys[i]) {
      assert Less(keys[r], keys[i]) && !Less(keys[r], k);
      assert Less(k, keys[r]) || k == keys[r];
    }
    forall i {:trigger keys[i]} | 0 <= i < r ensures keys[i] != k {
      assert Less(keys[i], k);
    }
  }

  lemma PlaceAtOrAfter(keys: seq<Bytes>, i: nat, j: nat)
    requires Sorted(keys) && i < |keys| && j < |keys| && !Less(keys[i], keys[j])
    ensures i >= j
  {}

  // ---------- Lists that may repeat a key ----------

  ghost predicate WeaklySorted(keys: seq<Bytes>) {
    forall i, j {:trigger keys[i], keys[j]} | 0 <= i < j < |keys| :: !Less(keys[j], keys[i])
  }

  lemma SortedIsWeaklySorted(keys: seq<Bytes>)
    requires Sorted(keys)
    ensures WeaklySorted(keys)
  {
    Order();
  }

  /** Where the binary search of findInsPointForKey ends between low and high, whatever the list. */
  function SearchFrom(keys: seq<Bytes>, k: Bytes, low: nat, high: int): (r: nat)
    requires low <= high + 1 <= |keys|
    ensures low <= r <= high + 1
    decreases high + 1 - low
  {
    if low > high then low
    else
      var mid := low + (high - low) / 2;
      if Compare(k, keys[mid]) == -1 then SearchFrom(keys, k, low, mid - 1)
      else if Compare(k, keys[mid]) == 1 then SearchFrom(keys, k, mid + 1, high)
      else mid
  }

  function InsertionPoint(keys: seq<Bytes>, k: Bytes): (r: nat)
    ensures r <= |keys|
  {
    SearchFrom(keys, k, 0, |keys| - 1)
  }

  lemma SearchStarts(keys: seq<Bytes>, k: Bytes)
    ensures SearchFrom(keys, k, 0, |keys| - 1) == InsertionPoint(keys, k)
  {}

  lemma SearchStep(keys: seq<Bytes>, k: Bytes, low: nat, high: int)
    requires low <= high + 1 <= |keys|
    ensures low > high ==> SearchFrom(keys, k, low, high) == low
    ensures low <= high ==>
              var mid := low + (high - low) / 2;
              SearchFrom(keys, k, low, high) ==
                if Compare(k, keys[mid]) == -1 then SearchFrom(keys, k, low, mid - 1)
                else if Compare(k, keys[mid]) == 1 then SearchFrom(keys, k, mid + 1, high)
                else mid
  {}

  lemma {:induction false} SearchSeparates(keys: seq<Bytes>, k: Bytes, low: nat, high: int)
    requires WeaklySorted(keys) && low <= high + 1 <= |keys|
    requires forall i {:trigger keys[i]} | 0 <= i < low :: !Less(k, keys[i])
    requires forall i {:trigger keys[i]} | high < i < |keys| :: !Less(keys[i], k)
    ensures var r := SearchFrom(keys, k, low, high);
            && (forall i {:trigger keys[i]} | 0 <= i < r :: !Less(k, keys[i]))
            && (forall i {:trigger keys[i]} | r <= i < |keys| :: !Less(keys[i], k))
    decreases high + 1 - low
  {
    hide Less, Compare;
    Order();
    if low <= high {
      var mid := low + (high - low) / 2;
      if Compare(k, keys[mid]) == -1 {
        forall i {:trigger keys[i]} | mid <= i < |keys| ensures !Less(keys[i], k) {
          assert i > mid ==> !Less(keys[i], keys[mid]);
        }
        SearchSeparates(keys, k, low, mid - 1);
      } else {
        forall i {:trigger keys[i]} | 0 <= i <= mid ensures !Less(k, keys[i]) {
          assert i < mid ==> !Less(keys[mid], keys[i]);
        }
        if Compare(k, keys[mid]) == 1 {
          SearchSeparates(keys, k, mid + 1, high);
        } else {
          forall i {:trigger keys[i]} | mid <= i < |keys| ensures !Less(keys[i], k) {
            assert i > mid ==> !Less(keys[i], keys[mid]);
          }
        }
      }
    }
  }

  /** On a list in order the search ends between the keys at most k and the keys at least k. */
  lemma InsertionPointSeparates(keys: seq<Bytes>, k: Bytes)
    requires WeaklySorted(keys)
    ensures var r := InsertionPoint(keys, k);
            && (forall i {:trigger keys[i]} | 0 <= i < r :: !Less(k, keys[i]))
            && (forall i {:trigger keys[i]} | r <= i < |keys| :: !Less(keys[i], k))
  {
    SearchSeparates(keys, k, 0, |keys| - 1);
  }

  /** Without repetitions that place is the number of keys below k. */
  lemma InsertionPointIsRank(keys: seq<Bytes>, k: Bytes)
    requires Sorted(keys)
    ensures InsertionPoint(keys, k) == Rank(keys, k)
  {
    hide Less, Rank;
    Order();
    SortedIsWeaklySorted(keys);
    InsertionPointSeparates(keys, k);
    var r := InsertionPoint(keys, k);
    if r > 0 && keys[r - 1] == k {
      SearchStops(keys, k, 0, |keys| - 1, r - 1);
    }
    forall i {:trigger keys[i]} | 0 <= i < r ensures Less(keys[i], k) {
      assert i < r - 1 ==> Less(keys[i], keys[r - 1]);
    }
    RankUnique(keys, k, r);
  }

  /** A key that is in the list is where the search ends. */
  lemma {:induction false} SearchStops(keys: seq<Bytes>, k: Bytes, low: nat, high: int, i: nat)
    requires Sorted(keys) && low <= i <= high < |keys| && keys[i] == k
    ensures SearchFrom(keys, k, low, high) == i
    decreases high + 1 - low
  {
    hide Less, Compare;
    Order();
    var mid := low + (high - low) / 2;
    if mid < i {
      assert Less(keys[mid], keys[i]);
      SearchStops(keys, k, mid + 1, high, i);
    } else if i < mid {
      assert Less(keys[i], keys[mid]);
      SearchStops(keys, k, low, mid - 1, i);
    }
  }
}
