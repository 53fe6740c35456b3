/** The calibration's noise filter, `TestModulePage.process_value`: sort the
    samples, drop a tenth of them from each end, and average the rest. */
module TrimmedMean {
  import opened Wrappers

  /** Samples taken per calibration phase. */
  const READ_TIME: nat := 60

  /** `sum(value) / len(value)` on an empty slice raises ZeroDivisionError. */
  datatype TrimError = EmptySlice

  function Sum(s: seq<real>): real {
    if |s| == 0 then 0.0 else s[0] + Sum(s[1..])
  }

  function Mean(s: seq<real>): real
    requires |s| > 0
  {
    Sum(s) / (|s| as real)
  }

  predicate Sorted(s: seq<real>) {
    forall i, j :: 0 <= i < j < |s| ==> s[i] <= s[j]
  }

  /** Inserts `x` before the first element of `s` not below it. */
  function Insert(x: real, s: seq<real>): (r: seq<real>)
    ensures |r| == |s| + 1
  {
    if |s| == 0 then [x]
    else if x <= s[0] then [x] + s
    else [s[0]] + Insert(x, s[1..])
  }

  /** Ascending insertion sort: `list.sort()` on the sample list. */
  function Sort(s: seq<real>): (r: seq<real>)
    ensures |r| == |s|
  {
    if |s| == 0 then [] else Insert(s[0], Sort(s[1..]))
  }

  lemma {:induction false} InsertPermutes(x: real, s: seq<real>)
    ensures multiset(Insert(x, s)) == multiset(s) + multiset{x}
  {
    if |s| > 0 && x > s[0] {
      InsertPermutes(x, s[1..]);
      assert s == [s[0]] + s[1..];
    }
  }

  /** The inserted list starts with `x` or with the old head. */
  lemma InsertHead(x: real, s: seq<real>)
    requires |s| > 0
    ensures Insert(x, s)[0] == x || Insert(x, s)[0] == s[0]
  {
  }

  lemma {:induction false} InsertSorted(x: real, s: seq<real>)
    requires Sorted(s)
    ensures Sorted(Insert(x, s))
  {
    if |s| > 0 && x > s[0] {
      var rest := Insert(x, s[1..]);
      InsertSorted(x, s[1..]);
      assert s[0] <= rest[0] by {
        if |s| > 1 {
          InsertHead(x, s[1..]);
        }
      }
      var r := Insert(x, s);
      assert r == [s[0]] + rest;
      forall i, j | 0 <= i < j < |r|
        ensures r[i] <= r[j]
      {
        assert r[j] == rest[j - 1];
        if i > 0 {
          assert r[i] == rest[i - 1];
        } else {
          assert rest[0] <= rest[j - 1];
        }
      }
    }
  }

  /** The sorted list holds exactly the readings it was given. */
  lemma {:induction false} SortPermutes(s: seq<real>)
    ensures multiset(Sort(s)) == multiset(s)
  {
    if |s| > 0 {
      SortPermutes(s[1..]);
      InsertPermutes(s[0], Sort(s[1..]));
      assert s == [s[0]] + s[1..];
    }
  }

  /** The sorted list is ascending. */
  lemma {:induction false} SortSorted(s: seq<real>)
    ensures Sorted(Sort(s))
  {
    if |s| > 0 {
      SortSorted(s[1..]);
      InsertSorted(s[0], Sort(s[1..]));
    }
  }

  function Min(s: seq<real>): (m: real)
    requires |s| > 0
    ensures m in s
    ensures forall i :: 0 <= i < |s| ==> m <= s[i]
  {
    if |s| == 1 then s[0]
    else
      var m := Min(s[1..]);
      assert forall i :: 1 <= i < |s| ==> s[i] == s[1..][i - 1];
      if s[0] <= m then s[0] else m
  }

  function Max(s: seq<real>): (m: real)
    requires |s| > 0
    ensures m in s
    ensures forall i :: 0 <= i < |s| ==> s[i] <= m
  {
    if |s| == 1 then s[0]
    else
      var m := Max(s[1..]);
      assert forall i :: 1 <= i < |s| ==> s[i] == s[1..][i - 1];
      if m <= s[0] then s[0] else m
  }

  /** `int(len(value) * 0.1)`: a tenth of the sample count, rounded down. */
  function TrimAmount(n: nat): (t: nat)
    ensures 10 * t <= n < 10 * t + 10
    ensures n < 10 <==> t == 0
  {
    n / 10
  }

  /** Python's `s[start:stop]`: negative bounds count from the end, both are
      clamped to the sequence, and a stop at or before the start is empty. */
  function PySlice(s: seq<real>, start: int, stop: int): (r: seq<real>)
    ensures 0 <= start <= stop <= |s| ==> r == s[start..stop]
    ensures stop < 0 && 0 <= start <= |s| + stop ==> r == s[start..|s| + stop]
    ensures stop == 0 ==> r == []
  {
    var n := |s|;
    var a := if start < 0 then start + n else start;
    var b := if stop < 0 then stop + n else stop;
    var a' := if a < 0 then 0 else if a > n then n else a;
    var b' := if b < 0 then 0 else if b > n then n else b;
    if b' <= a' then [] else s[a'..b']
  }

  /** The samples `process_value` keeps: the sorted list without its lowest
      and highest `TrimAmount` entries. */
  function Kept(value: seq<real>): seq<real> {
    var t: int := TrimAmount(|value|);
    PySlice(Sort(value), t, -t)
  }

  /** `process_value`. Fewer than ten samples trim nothing, and `value[0:-0]` is
      the empty slice, so the average divides by zero. */
  function ProcessValue(value: seq<real>): (r: Result<real, TrimError>)
    ensures r.Success? <==> |value| >= 10
  {
    var kept := Kept(value);
    KeptShape(value);
    if |kept| == 0 then Failure(EmptySlice) else Success(Mean(kept))
  }

  /** On success the result is the mean of the sorted readings without the
      lowest and highest tenth, and lies between the smallest and the largest
      reading. */
  lemma ProcessValueMeaning(value: seq<real>)
    requires |value| >= 10
    ensures var t := TrimAmount(|value|);
      && 0 < t && 2 * t < |value|
      && ProcessValue(value) == Success(Mean(Sort(value)[t..|value| - t]))
      && Min(value) <= ProcessValue(value).value <= Max(value)
  {
    KeptShape(value);
    var kept := Kept(value);
    assert ProcessValue(value) == Success(Mean(kept));
    KeptWithinRange(value);
    MeanWithin(kept, Min(value), Max(value));
  }

  lemma KeptShape(value: seq<real>)
    ensures |value| < 10 ==> Kept(value) == []
    ensures |value| >= 10 ==>
      var t := TrimAmount(|value|);
      && 0 < t && 2 * t < |value|
      && Kept(value) == Sort(value)[t..|value| - t]
      && |Kept(value)| == |value| - 2 * t
  {
  }

  lemma KeptWithinRange(value: seq<real>)
    requires |value| >= 10
    ensures forall k :: 0 <= k < |Kept(value)| ==> Min(value) <= Kept(value)[k] <= Max(value)
  {
    KeptShape(value);
    var sorted := Sort(value);
    var t := TrimAmount(|value|);
    forall k | 0 <= k < |Kept(value)|
      ensures Min(value) <= Kept(value)[k] <= Max(value)
    {
      assert Kept(value)[k] == sorted[t + k];
      ElementOfSort(value, t + k);
    }
  }

  lemma ElementOfSort(value: seq<real>, k: nat)
    requires |value| > 0
    requires k < |Sort(value)|
    ensures Min(value) <= Sort(value)[k] <= Max(value)
  {
    var x := Sort(value)[k];
    SortPermutes(value);
    assert x in multiset(Sort(value));
    assert x in multiset(value);
    var i :| 0 <= i < |value| && value[i] == x;
  }

  lemma {:induction false} SumWithin(s: seq<real>, lo: real, hi: real)
    requires forall k :: 0 <= k < |s| ==> lo <= s[k] <= hi
    ensures (|s| as real) * lo <= Sum(s) <= (|s| as real) * hi
  {
    if |s| > 0 {
      SumWithin(s[1..], lo, hi);
    }
  }

  lemma MeanWithin(s: seq<real>, lo: real, hi: real)
    requires |s| > 0
    requires forall k :: 0 <= k < |s| ==> lo <= s[k] <= hi
    ensures lo <= Mean(s) <= hi
  {
    SumWithin(s, lo, hi);
    var n := |s| as real;
    assert n * lo <= Sum(s) <= n * hi;
    assert lo == (n * lo) / n;
    assert hi == (n * hi) / n;
  }

  /** The first element of an ascending sequence is its least element. */
  lemma HeadIsLeast(a: seq<real>, x: real)
    requires Sorted(a) && x in multiset(a)
    ensures |a| > 0 && a[0] <= x
  {
    var i :| 0 <= i < |a| && a[i] == x;
  }

  /** Removing the head of a sequence removes one copy of it from its multiset. */
  lemma DropHead(a: seq<real>)
    requires |a| > 0
    ensures multiset(a[1..]) == multiset(a) - multiset{a[0]}
  {
    assert a == [a[0]] + a[1..];
  }

  lemma SortedTail(a: seq<real>)
    requires Sorted(a) && |a| > 0
    ensures Sorted(a[1..])
  {
  }

  /** Two ascending sequences with the same elements start with the same element. */
  lemma SameHead(a: seq<real>, b: seq<real>)
    requires Sorted(a) && Sorted(b) && |a| > 0
    requires multiset(a) == multiset(b)
    ensures |b| > 0 && a[0] == b[0]
  {
    assert a[0] in multiset(a);
    HeadIsLeast(b, a[0]);
    assert b[0] in multiset(b);
    HeadIsLeast(a, b[0]);
  }

  /** Two ascending sequences holding the same samples are the same sequence. */
  lemma {:induction false} SortedUnique(a: seq<real>, b: seq<real>)
    requires Sorted(a) && Sorted(b)
    requires multiset(a) == multiset(b)
    ensures a == b
    decreases |a|
  {
    if |a| == 0 {
      assert |b| == |multiset(b)| == 0;
    } else {
      SameHead(a, b);
      DropHead(a);
      DropHead(b);
      SortedTail(a);
      SortedTail(b);
      SortedUnique(a[1..], b[1..]);
      assert a == [a[0]] + a[1..];
      assert b == [b[0]] + b[1..];
    }
  }



  /** The filter depends only on which readings were taken, not on their order. */
  lemma OrderIrrelevant(a: seq<real>, b: seq<real>)
    requires multiset(a) == multiset(b)
    ensures ProcessValue(a) == ProcessValue(b)
  {
    assert |a| == |multiset(a)| == |b|;
    SortPermutes(a);
    SortPermutes(b);
    SortSorted(a);
    SortSorted(b);
    SortedUnique(Sort(a), Sort(b));
  }

  /** With a full phase of READ_TIME readings, six are dropped from each end
      and the remaining 48 are averaged. */
  lemma FullPhase(value: seq<real>)
    requires |value| == READ_TIME
    ensures TrimAmount(|value|) == 6
    ensures ProcessValue(value) == Success(Mean(Sort(value)[6..54]))
    ensures |Sort(value)[6..54]| == 48
  {
    KeptShape(value);
  }

  lemma {:induction false} SortOfSorted(s: seq<real>)
    requires Sorted(s)
    ensures Sort(s) == s
  {
    if |s| > 0 {
      SortOfSorted(s[1..]);
      assert s == [s[0]] + s[1..];
    }
  }

  /** For readings already in ascending order the filter is the mean of the middle. */
  lemma TrimmedOfSorted(s: seq<real>)
    requires Sorted(s) && |s| >= 10
    ensures ProcessValue(s) == Success(Mean(s[TrimAmount(|s|)..|s| - TrimAmount(|s|)]))
  {
    SortOfSorted(s);
  }

  /** Readings 1 to 10: one is dropped from each end and 2..9 average to 5.5. */
  lemma OneToTen(s: seq<real>)
    requires s == [1.0, 2.0, 3.0, 4.0, 5.0, 6.0, 7.0, 8.0, 9.0, 10.0]
    ensures ProcessValue(s) == Success(5.5)
  {
    TenSorted(s);
    MiddleOfTen(s);
  }

  lemma MiddleOfTen(s: seq<real>)
    requires s == [1.0, 2.0, 3.0, 4.0, 5.0, 6.0, 7.0, 8.0, 9.0, 10.0]
    ensures Mean(s[1..9]) == 5.5
  {
    assert s[1..9] == [2.0, 3.0, 4.0, 5.0, 6.0, 7.0, 8.0, 9.0];
    SumOfKept(s[1..9]);
  }

  lemma TenSorted(s: seq<real>)
    requires |s| == 10 && Sorted(s)
    ensures ProcessValue(s) == Success(Mean(s[1..9]))
  {
    TrimmedOfSorted(s);
  }

  lemma SumOfKept(kept: seq<real>)
    requires kept == [2.0, 3.0, 4.0, 5.0, 6.0, 7.0, 8.0, 9.0]
    ensures Sum(kept) == 44.0
  {
    assert Sum(kept[7..]) == 9.0;
    assert Sum(kept[6..]) == 17.0 by { assert kept[6..][1..] == kept[7..]; }
    assert Sum(kept[5..]) == 24.0 by { assert kept[5..][1..] == kept[6..]; }
    assert Sum(kept[4..]) == 30.0 by { assert kept[4..][1..] == kept[5..]; }
    assert Sum(kept[3..]) == 35.0 by { assert kept[3..][1..] == kept[4..]; }
    assert Sum(kept[2..]) == 39.0 by { assert kept[2..][1..] == kept[3..]; }
    assert Sum(kept[1..]) == 42.0 by { assert kept[1..][1..] == kept[2..]; }
  }
}
