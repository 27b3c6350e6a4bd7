/**
 * The pure helpers of the front end's utilities file: month captions, decimal
 * rounding, and the negative-index paging of transaction histories.
 */
module Utilities {
  import opened Wrappers

  /** Short Russian month names, indexed by `Date.getMonth()` (0 = January). */
  const MONTHS: seq<string> :=
    ["янв", "фев", "мар", "апр", "май", "июн", "июл", "авг", "сен", "окт", "ноя", "дек"]

  /** `MONTHS[id]`: an index outside the table reads `undefined`. */
  function MonthCaption(id: int): (r: Option<string>)
    ensures r.Some? <==> 0 <= id < 12
    ensures r.Some? ==> r.value in MONTHS && |r.value| == 3
  {
    if 0 <= id < |MONTHS| then Some(MONTHS[id]) else None
  }

  /** Different calendar months get different captions. */
  lemma MonthCaptionsDistinct(i: int, j: int)
    requires 0 <= i < 12 && 0 <= j < 12 && i != j
    ensures MonthCaption(i) != MonthCaption(j)
  {
  }

  // ---------------------------------------------------------------------------
  // Rounding

  function Pow10(n: nat): (r: nat)
    ensures r >= 1
  {
    if n == 0 then 1 else 10 * Pow10(n - 1)
  }

  /** The multiplier `Math.pow(10, Math.max(cnt, 0))`. */
  function Scale(cnt: int): (m: real)
    ensures m >= 1.0
    ensures cnt <= 0 ==> m == 1.0
  {
    Pow10(if cnt > 0 then cnt else 0) as real
  }

  /** `Math.round(num * multi) / multi`, with `Math.round(x) = floor(x + 1/2)`. */
  function RoundBy(num: real, multi: real): real
    requires multi >= 1.0
  {
    (num * multi + 0.5).Floor as real / multi
  }

  /** `round(num, cnt)`: rounds to `cnt` decimal digits, halves upward. */
  function Round(num: real, cnt: int): real
  {
    RoundBy(num, Scale(cnt))
  }

  lemma RoundBySteps(num: real, m: real) returns (f: int)
    requires m >= 1.0
    ensures f as real <= num * m + 0.5 < f as real + 1.0
    ensures RoundBy(num, m) * m == f as real
  {
    f := (num * m + 0.5).Floor;
    assert RoundBy(num, m) == f as real / m;
  }

  /**
   * The result is a whole number `f` of steps `1 / multi`, where `f` is the
   * integer with `f <= num * multi + 1/2 < f + 1`.
   */
  lemma RoundSteps(num: real, cnt: int) returns (f: int)
    ensures f as real <= num * Scale(cnt) + 0.5 < f as real + 1.0
    ensures Round(num, cnt) * Scale(cnt) == f as real
  {
    f := RoundBySteps(num, Scale(cnt));
  }

  lemma ScaledBounds(num: real, m: real, r: real, f: real)
    requires m >= 1.0 && r * m == f && f <= num * m + 0.5 < f + 1.0
    ensures num - 0.5 / m < r <= num + 0.5 / m
  {
    assert (num + 0.5 / m) * m == num * m + 0.5;
    assert (num - 0.5 / m) * m == num * m - 0.5;
  }

  /** The result lies within half a step of `num`, a tie going to the upper value. */
  lemma RoundBounds(num: real, cnt: int)
    ensures num - 0.5 / Scale(cnt) < Round(num, cnt) <= num + 0.5 / Scale(cnt)
  {
    var f := RoundSteps(num, cnt);
    ScaledBounds(num, Scale(cnt), Round(num, cnt), f as real);
  }

  /** A negative number of digits behaves as zero digits. */
  lemma RoundNegativeDigits(num: real, cnt: int)
    requires cnt < 0
    ensures Round(num, cnt) == Round(num, 0)
  {
  }

  /** Rounding twice is rounding once. */
  lemma RoundIdempotent(x: real, cnt: int)
    ensures Round(Round(x, cnt), cnt) == Round(x, cnt)
  {
    var r := Round(x, cnt);
    var f := RoundSteps(x, cnt);
    var g := RoundSteps(r, cnt);
    assert g == f;
    assert Round(r, cnt) * Scale(cnt) == r * Scale(cnt);
  }

  /** Halves go up, toward positive infinity, also for negative numbers (-2.5 becomes -2). */
  lemma RoundHalfUp(n: int)
    ensures Round(n as real + 0.5, 0) == (n + 1) as real
    ensures Round(n as real - 0.5, 0) == n as real
  {
    assert Scale(0) == 1.0;
    var f := RoundSteps(n as real + 0.5, 0);
    assert f == n + 1;
    var g := RoundSteps(n as real - 0.5, 0);
    assert g == n;
  }

  lemma ScaleTwo()
    ensures Scale(2) == 100.0
  {
    assert Pow10(2) == 100;
  }

  /**
   * `round(num, 2)`, the form every balance computation uses: the multiplier
   * is the literal 100, so the step stays linear.
   */
  function RoundToCents(num: real): (r: real)
    ensures num - 0.005 < r <= num + 0.005
  {
    (num * 100.0 + 0.5).Floor as real / 100.0
  }

  lemma RoundToCentsIsRound(num: real)
    ensures RoundToCents(num) == Round(num, 2)
  {
    ScaleTwo();
  }

  /** A whole number of cents. */
  ghost predicate IsCents(x: real)
  {
    (x * 100.0).Floor as real == x * 100.0
  }

  /** Rounding to two digits always yields whole cents, within half a cent of the input. */
  lemma RoundCents(x: real)
    ensures IsCents(RoundToCents(x))
    ensures x - 0.005 < RoundToCents(x) <= x + 0.005
  {
    var f := (x * 100.0 + 0.5).Floor;
    assert RoundToCents(x) * 100.0 == f as real;
  }

  /** Whole cents are left alone by rounding to two digits. */
  lemma CentsRoundFixed(x: real)
    requires IsCents(x)
    ensures RoundToCents(x) == x
  {
    assert (x * 100.0 + 0.5).Floor == (x * 100.0).Floor;
  }

  /** Sums and differences of whole cents are whole cents. */
  lemma CentsClosed(x: real, y: real)
    requires IsCents(x) && IsCents(y)
    ensures IsCents(x + y) && IsCents(x - y)
  {
    var a, b := (x * 100.0).Floor, (y * 100.0).Floor;
    assert x * 100.0 == a as real && y * 100.0 == b as real;
    assert (x + y) * 100.0 == x * 100.0 + y * 100.0;
    assert (x - y) * 100.0 == x * 100.0 - y * 100.0;
    assert ((a + b) as real).Floor == a + b;
    assert ((a - b) as real).Floor == a - b;
  }

  // ---------------------------------------------------------------------------
  // Objects and paging

  /** `isEmpty(obj)`: its `for ... in` loop returns false at the first key. */
  function IsEmpty<K, V>(obj: map<K, V>): (r: bool)
    ensures !r <==> exists k :: k in obj
  {
    |obj| == 0
  }

  /** How `Array.prototype.slice` reads an index: negative counts from the end; both clamp to `[0, len]`. */
  function SliceIndex(len: nat, k: int): (r: nat)
    ensures r <= len
    ensures 0 <= k <= len ==> r == k
    ensures k < 0 && len + k >= 0 ==> r == len + k
  {
    if k < 0 then (if len + k < 0 then 0 else len + k)
    else if k > len then len
    else k
  }

  /** `arr.slice(start, end)`. */
  function Slice<T>(arr: seq<T>, start: int, end: int): (r: seq<T>)
    ensures |r| <= |arr|
  {
    var s := SliceIndex(|arr|, start);
    var e := SliceIndex(|arr|, end);
    if s < e then arr[s..e] else []
  }

  function Max0(x: int): nat
  {
    if x < 0 then 0 else x
  }

  /**
   * `getArrayPage(arr, count, page)`: page 1 holds the newest `count`
   * entries (the end of the array), page 2 the `count` before them, and so on.
   */
  function GetArrayPage<T>(arr: seq<T>, count: int, page: int): (r: seq<T>)
    ensures |r| <= |arr|
  {
    var start := -count * page;
    var end := -count * (page - 1);
    if end == 0 then Slice(arr, start, |arr|) else Slice(arr, start, end)
  }

  /**
   * Page `page` is the window of `count` entries ending `count * (page - 1)`
   * entries before the end, cut off at the start of the array.
   */
  lemma PageWindow<T>(arr: seq<T>, count: int, page: int)
    requires count >= 1 && page >= 1
    ensures Max0(|arr| - count * page) <= Max0(|arr| - count * (page - 1))
    ensures GetArrayPage(arr, count, page) == arr[Max0(|arr| - count * page) .. Max0(|arr| - count * (page - 1))]
  {
    var newer, older := count * (page - 1), count * page;
    MulStep(count, page);
    MulNonneg(count, page - 1);
    assert -count * page == -older && -count * (page - 1) == -newer;
    var i, j := Max0(|arr| - older), Max0(|arr| - newer);
    assert SliceIndex(|arr|, -older) == i;
    if newer != 0 {
      assert SliceIndex(|arr|, -newer) == j;
    }
  }

  /** Each page further back starts `count` entries earlier. */
  lemma MulStep(count: int, p: int)
    ensures count * p == count * (p - 1) + count
  {
  }

  lemma MulNonneg(c: int, x: int)
    ensures c >= 0 && x >= 0 ==> c * x >= 0
  {
  }

  lemma MulMonoInt(c: int, x: int, y: int)
    requires c >= 0 && x <= y
    ensures c * x <= c * y
  {
    MulNonneg(c, y - x);
  }

  /** `getArrayPagesCount(arrLength, count)`: `Math.ceil(arrLength / count)`, written `-floor(-x)`. */
  function GetArrayPagesCount(arrLength: nat, count: int): int
    requires count >= 1
  {
    -((-(arrLength as real) / (count as real)).Floor)
  }

  lemma CeilSteps(len: nat, count: int) returns (f: int)
    requires count >= 1
    ensures f as real * (count as real) <= -(len as real) < (f as real + 1.0) * (count as real)
    ensures GetArrayPagesCount(len, count) == -f
  {
    var c := count as real;
    var q := -(len as real) / c;
    f := q.Floor;
    assert q * c == -(len as real);
    assert f as real <= q < f as real + 1.0;
    MulMono(f as real, q, c);
    MulMono(q, f as real + 1.0, c);
    assert q * c < (f as real + 1.0) * c;
    assert -(len as real) < (f as real + 1.0) * c;
    assert (f as real + 1.0) * c == (f as real + 1.0) * (count as real);
    assert -(len as real) < (f as real + 1.0) * (count as real);
  }

  lemma MulMono(a: real, b: real, c: real)
    requires c > 0.0
    ensures a <= b ==> a * c <= b * c
    ensures a < b ==> a * c < b * c
  {
  }

  /** The page count is the least `r` with `count * r >= arrLength`. */
  lemma PagesCountBounds(arrLength: nat, count: int)
    requires count >= 1
    ensures GetArrayPagesCount(arrLength, count) >= 0
    ensures count * (GetArrayPagesCount(arrLength, count) - 1) < arrLength
    ensures arrLength <= count * GetArrayPagesCount(arrLength, count)
  {
    var f := CeilSteps(arrLength, count);
    assert (f * count) as real == f as real * (count as real);
    assert ((f + 1) * count) as real == (f as real + 1.0) * (count as real);
    assert f * count <= -(arrLength as int) < (f + 1) * count;
    assert count * (-f - 1) == -((f + 1) * count);
    assert count * -f == -(f * count);
  }

  /** Page 1 is the last `min(count, |arr|)` entries. */
  lemma FirstPageIsNewest<T>(arr: seq<T>, count: int)
    requires count >= 1
    ensures GetArrayPage(arr, count, 1) == arr[Max0(|arr| - count)..]
    ensures |GetArrayPage(arr, count, 1)| == if count < |arr| then count else |arr|
  {
    PageWindow(arr, count, 1);
  }

  /** Every page holds at most `count` entries, and pages past the last are empty. */
  lemma PageLength<T>(arr: seq<T>, count: int, page: int)
    requires count >= 1 && page >= 1
    ensures |GetArrayPage(arr, count, page)| <= count
    ensures page > GetArrayPagesCount(|arr|, count) ==> GetArrayPage(arr, count, page) == []
  {
    var p := GetArrayPagesCount(|arr|, count);
    PagesCountBounds(|arr|, count);
    PageWindow(arr, count, page);
    MulStep(count, page);
    if page > p {
      MulMonoInt(count, p, page - 1);
    }
  }

  /** Pages `p, p-1, ..., 1` laid end to end, oldest page first. */
  function PagesConcat<T>(arr: seq<T>, count: int, p: nat): seq<T>
  {
    if p == 0 then [] else GetArrayPage(arr, count, p) + PagesConcat(arr, count, p - 1)
  }

  /** One page more: page `p` goes in front of pages `p - 1` down to 1. */
  lemma PagesConcatStep<T>(arr: seq<T>, count: int, p: nat)
    requires count >= 1 && p >= 1
    ensures 0 <= Max0(|arr| - count * p) <= Max0(|arr| - count * (p - 1)) <= |arr|
    ensures PagesConcat(arr, count, p) ==
      arr[Max0(|arr| - count * p) .. Max0(|arr| - count * (p - 1))] + PagesConcat(arr, count, p - 1)
  {
    PageWindow(arr, count, p);
    MulNonneg(count, p - 1);
  }

  lemma {:induction false} PagesConcatSuffix<T>(arr: seq<T>, count: int, p: nat)
    requires count >= 1
    ensures PagesConcat(arr, count, p) == arr[Max0(|arr| - count * p)..]
  {
    if p > 0 {
      PagesConcatSuffix(arr, count, p - 1);
      PagesConcatStep(arr, count, p);
      var i, j := Max0(|arr| - count * p), Max0(|arr| - count * (p - 1));
      JoinWindows(arr, arr[i..j], PagesConcat(arr, count, p - 1), i, j);
    }
  }

  lemma JoinWindows<T>(arr: seq<T>, older: seq<T>, newer: seq<T>, i: int, j: int)
    requires 0 <= i <= j <= |arr| && older == arr[i..j] && newer == arr[j..]
    ensures older + newer == arr[i..]
  {
  }

  /** The pages from `getArrayPagesCount` down to 1 rebuild the whole history, in order. */
  lemma PagesRebuildArray<T>(arr: seq<T>, count: int)
    requires count >= 1
    ensures PagesConcat(arr, count, GetArrayPagesCount(|arr|, count)) == arr
  {
    PagesCountBounds(|arr|, count);
    PagesConcatSuffix(arr, count, GetArrayPagesCount(|arr|, count));
  }
}
