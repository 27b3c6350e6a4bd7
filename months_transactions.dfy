/**
 * The monthly transaction aggregator behind the balance charts: one bucket per
 * month going back from the current month, filled by walking an account's
 * transactions from newest to oldest and undoing each one to rebuild earlier
 * balances.
 *
 * The clock and the date parser are inputs: `currentMonth` is what
 * `new Date().getMonth()` returns, and each transaction carries the month its
 * date parses to (`None` for an unparseable date, whose month is `NaN`).
 */
module MonthsTransactions {
  import opened Wrappers
  import opened Utilities

  /** What `Date.prototype.getMonth` can return for a valid date: 0 (January) to 11. */
  type MonthNumber = m: int | 0 <= m < 12

  datatype Transaction = Transaction(from: string, to: string, amount: real, month: Option<MonthNumber>)

  /** `transactions` are stored oldest first. */
  datatype Account = Account(account: string, balance: real, transactions: seq<Transaction>)

  /** One month's summary; the three balances are `undefined` (`None`) until seeded. */
  datatype Bucket = Bucket(
    monthsAgo: int,
    monthId: int,
    month: Option<string>,
    balanceStart: Option<real>,
    balanceMin: Option<real>,
    balanceMax: Option<real>,
    sumIn: real,
    sumOut: real,
    countIn: nat,
    countOut: nat,
    balanceMaxPartIn: real,
    balanceMaxPartOut: real)

  /** The state the walk threads through its loop: the buckets, the cursor `id` and the running balance. */
  datatype Walk = Walk(data: seq<Bucket>, id: nat, balance: real)

  // ---------------------------------------------------------------------------
  // Building the buckets

  /** Calendar month of bucket `i`: `currentMonth - i`, plus 12 when negative. */
  function MonthIdAt(currentMonth: int, i: int): (r: int)
    ensures 0 <= currentMonth < 12 && 0 <= i <= currentMonth + 12 ==>
      0 <= r < 12 && r == (currentMonth - i) % 12
    ensures i > currentMonth + 12 ==> r < 0
  {
    var monthId := currentMonth - i;
    if monthId < 0 then 12 + monthId else monthId
  }

  /** Bucket `i` as first pushed: `i` months back, seeded with the live balance only when `i` is 0. */
  function InitBucket(i: int, currentMonth: int, balance: real): (r: Bucket)
    ensures r.monthsAgo == -i && r.monthId == MonthIdAt(currentMonth, i)
    ensures i == 0 ==> r.balanceStart == r.balanceMin == r.balanceMax == Some(balance)
    ensures i != 0 ==> Untouched(r)
    ensures r.sumIn == r.sumOut == 0.0 && r.countIn == r.countOut == 0
  {
    var monthId := MonthIdAt(currentMonth, i);
    var balanceInit := if i == 0 then Some(balance) else None;
    Bucket(if i == 0 then 0 else -i, monthId, MonthCaption(monthId),
           balanceInit, balanceInit, balanceInit, 0.0, 0.0, 0, 0, 0.0, 0.0)
  }

  /**
   * The `push` loop of `getMonthsTransactionsData`: `monthsCount` buckets (none for a count below one), bucket
   * `i` being `i` months ago; only bucket 0 is seeded, with the live balance.
   */
  function InitData(monthsCount: int, currentMonth: int, balance: real): (r: seq<Bucket>)
    ensures |r| == Max0(monthsCount)
    ensures forall k :: 0 <= k < |r| ==>
      r[k].monthsAgo == -k && r[k].monthId == MonthIdAt(currentMonth, k) &&
      r[k].month == MonthCaption(r[k].monthId) &&
      r[k].balanceMaxPartIn == 0.0 && r[k].balanceMaxPartOut == 0.0
    ensures forall k :: 0 < k < |r| ==> Untouched(r[k])
    ensures |r| > 0 ==>
      r[0].balanceStart == r[0].balanceMin == r[0].balanceMax == Some(balance) &&
      r[0].sumIn == r[0].sumOut == 0.0 && r[0].countIn == r[0].countOut == 0
  {
    seq(Max0(monthsCount), i => InitBucket(i, currentMonth, balance))
  }

  // ---------------------------------------------------------------------------
  // One step of the walk

  predicate Seeded(b: Bucket)
  {
    b.balanceStart.Some? && b.balanceMin.Some? && b.balanceMax.Some?
  }

  /** The fields a bucket is created with and that the walk never touches. */
  predicate SameHeader(a: Bucket, b: Bucket)
  {
    a.monthsAgo == b.monthsAgo && a.monthId == b.monthId && a.month == b.month &&
    a.balanceMaxPartIn == b.balanceMaxPartIn && a.balanceMaxPartOut == b.balanceMaxPartOut
  }

  /** The inner `while` landing on a bucket: start, minimum and maximum all become the running balance. */
  function Seed(b: Bucket, balance: real): (r: Bucket)
    ensures SameHeader(b, r) && Seeded(r)
    ensures r.balanceStart == r.balanceMin == r.balanceMax == Some(balance)
    ensures r.sumIn == b.sumIn && r.sumOut == b.sumOut && r.countIn == b.countIn && r.countOut == b.countOut
  {
    b.(balanceStart := Some(balance), balanceMin := Some(balance), balanceMax := Some(balance))
  }

  /** `data[id].monthId === date?.getMonth()`: never true for a missing or unparseable date. */
  predicate Matches(b: Bucket, month: Option<int>)
    ensures month.None? ==> !Matches(b, month)
  {
    month == Some(b.monthId)
  }

  /** One turn of the inner `while`: move the cursor on and seed the bucket it lands on, if any. */
  function StepCursor(w: Walk): (r: Walk)
    requires w.id < |w.data|
    ensures |r.data| == |w.data| && r.id == w.id + 1 && r.balance == w.balance
    ensures forall k :: 0 <= k < |w.data| ==> SameHeader(w.data[k], r.data[k]) && r.data[k].monthId == w.data[k].monthId
    ensures r.id < |r.data| ==> r.data[r.id] == Seed(w.data[r.id], w.balance)
    ensures forall k :: 0 <= k < |w.data| && k != r.id ==> r.data[k] == w.data[k]
  {
    var id := w.id + 1;
    Walk(if id < |w.data| then w.data[id := Seed(w.data[id], w.balance)] else w.data, id, w.balance)
  }

  /**
   * The inner `while`: the cursor stops at the first bucket, from the current
   * one on, whose month matches, or runs off the end.
   */
  function Advance(w: Walk, month: Option<int>): (r: Walk)
    requires w.id <= |w.data|
    ensures |r.data| == |w.data| && w.id <= r.id <= |r.data| && r.balance == w.balance
    ensures forall k :: w.id <= k < r.id ==> !Matches(w.data[k], month)
    ensures r.id < |r.data| ==> Matches(w.data[r.id], month)
    ensures forall k :: 0 <= k < |w.data| ==> SameHeader(w.data[k], r.data[k])
    ensures forall k :: 0 <= k <= w.id && k < |w.data| ==> r.data[k] == w.data[k]
    ensures w.id < |w.data| && Seeded(w.data[w.id]) && r.id < |r.data| ==> Seeded(r.data[r.id])
    decreases |w.data| - w.id
  {
    if w.id < |w.data| && !Matches(w.data[w.id], month) then Advance(StepCursor(w), month) else w
  }

  /**
   * The body of the outer `for` once a transaction has a bucket: undo it in the
   * cursor bucket, which then starts at the new running balance and widens its
   * minimum and maximum to take that balance in.
   */
  function Apply(w: Walk, t: Transaction, accountId: string): (r: Walk)
    requires w.id < |w.data| && Seeded(w.data[w.id])
    ensures |r.data| == |w.data| && r.id == w.id
    ensures forall k :: 0 <= k < |w.data| && k != w.id ==> r.data[k] == w.data[k]
    ensures SameHeader(w.data[w.id], r.data[w.id]) && Seeded(r.data[w.id])
    ensures r.data[w.id].balanceStart == Some(r.balance)
    ensures var b := w.data[w.id];
      r.data[w.id].balanceMax == Some(RoundToCents(if r.balance > b.balanceMax.value then r.balance else b.balanceMax.value)) &&
      r.data[w.id].balanceMin == Some(RoundToCents(if r.balance < b.balanceMin.value then r.balance else b.balanceMin.value))
    ensures t.from == accountId ==>
      r.balance == RoundToCents(w.balance + t.amount) &&
      r.data[w.id].countOut == w.data[w.id].countOut + 1 && r.data[w.id].countIn == w.data[w.id].countIn &&
      r.data[w.id].sumOut == RoundToCents(w.data[w.id].sumOut + t.amount) &&
      r.data[w.id].sumIn == RoundToCents(w.data[w.id].sumIn)
    ensures t.from != accountId ==>
      r.balance == RoundToCents(w.balance - t.amount) &&
      r.data[w.id].countIn == w.data[w.id].countIn + 1 && r.data[w.id].countOut == w.data[w.id].countOut &&
      r.data[w.id].sumIn == RoundToCents(w.data[w.id].sumIn + t.amount) &&
      r.data[w.id].sumOut == RoundToCents(w.data[w.id].sumOut)
  {
    var b := w.data[w.id];
    var out := t.from == accountId;
    var balance := RoundToCents(if out then w.balance + t.amount else w.balance - t.amount);
    var sumIn := if out then b.sumIn else b.sumIn + t.amount;
    var sumOut := if out then b.sumOut + t.amount else b.sumOut;
    var max := if balance > b.balanceMax.value then balance else b.balanceMax.value;
    var min := if balance < b.balanceMin.value then balance else b.balanceMin.value;
    var b' := b.(
      balanceStart := Some(balance),
      balanceMin := Some(RoundToCents(min)),
      balanceMax := Some(RoundToCents(max)),
      sumIn := RoundToCents(sumIn),
      sumOut := RoundToCents(sumOut),
      countIn := if out then b.countIn else b.countIn + 1,
      countOut := if out then b.countOut + 1 else b.countOut);
    Walk(w.data[w.id := b'], w.id, balance)
  }

  /**
   * The outer loop from transaction `i` down (`i = -1` is the end-of-list
   * step): it stops as soon as the cursor reaches the last bucket. The cursor
   * ends on `|data|`, and buckets already behind it are never changed again.
   */
  function WalkFrom(w: Walk, txs: seq<Transaction>, i: int, accountId: string): (r: Walk)
    requires -1 <= i < |txs|
    requires w.id <= |w.data| && (w.id < |w.data| ==> Seeded(w.data[w.id]))
    ensures |r.data| == |w.data| && r.id == |w.data|
    ensures forall k :: 0 <= k < |w.data| ==> SameHeader(w.data[k], r.data[k])
    ensures forall k :: 0 <= k < w.id ==> r.data[k] == w.data[k]
    decreases i + 1
  {
    if w.id >= |w.data| then w
    else
      var a := Advance(w, if i >= 0 then txs[i].month else None);
      if i < 0 || a.id >= |a.data| then a
      else WalkFrom(Apply(a, txs[i], accountId), txs, i - 1, accountId)
  }

  // ---------------------------------------------------------------------------
  // Splitting the maximum balance between inflow and outflow

  /** `round(max * (part / total), 2)`: the share `part / total` of `max`, to the cent. */
  function PartOfMax(max: real, part: real, total: real): (r: real)
    requires total != 0.0
    ensures IsCents(r)
    ensures max * (part / total) - 0.005 < r <= max * (part / total) + 0.005
  {
    RoundCents(max * (part / total));
    RoundToCents(max * (part / total))
  }

  /** The `forEach` of `getMonthsTransactionsData`: a bucket with any flow gets its `balanceMax` split in proportion to `sumIn` and `sumOut`. */
  function WithParts(b: Bucket): (r: Bucket)
    requires b.balanceMax.Some?
    ensures r.(balanceMaxPartIn := b.balanceMaxPartIn, balanceMaxPartOut := b.balanceMaxPartOut) == b
    ensures b.sumIn + b.sumOut == 0.0 ==> r == b
    ensures b.sumIn + b.sumOut != 0.0 ==>
      IsCents(r.balanceMaxPartIn) && IsCents(r.balanceMaxPartOut) &&
      b.balanceMax.value * (b.sumIn / (b.sumIn + b.sumOut)) - 0.005 < r.balanceMaxPartIn <=
        b.balanceMax.value * (b.sumIn / (b.sumIn + b.sumOut)) + 0.005 &&
      b.balanceMax.value * (b.sumOut / (b.sumIn + b.sumOut)) - 0.005 < r.balanceMaxPartOut <=
        b.balanceMax.value * (b.sumOut / (b.sumIn + b.sumOut)) + 0.005
  {
    if b.sumIn + b.sumOut != 0.0 then
      b.(balanceMaxPartIn := PartOfMax(b.balanceMax.value, b.sumIn, b.sumIn + b.sumOut),
         balanceMaxPartOut := PartOfMax(b.balanceMax.value, b.sumOut, b.sumIn + b.sumOut))
    else b
  }

  /**
   * A transaction whose month matches no bucket from the cursor on (an
   * unparseable date included) runs the cursor off the end and stops the
   * walk: neither it nor any older transaction is counted.
   */
  lemma UnmatchedEndsWalk(w: Walk, txs: seq<Transaction>, i: int, accountId: string)
    requires 0 <= i < |txs|
    requires w.id <= |w.data| && (w.id < |w.data| ==> Seeded(w.data[w.id]))
    requires forall k :: w.id <= k < |w.data| ==> !Matches(w.data[k], txs[i].month)
    ensures WalkFrom(w, txs, i, accountId) == Advance(w, txs[i].month)
    ensures Advance(w, txs[i].month).id == |w.data|
  {
    var a := Advance(w, txs[i].month);
    if w.id >= |w.data| {
      assert a == w;
    }
  }

  // ---------------------------------------------------------------------------
  // The whole aggregation

  /** The buckets and balance after the outer `for`, started from the fresh buckets and the rounded live balance. */
  function Walked(account: Account, monthsCount: int, currentMonth: int): (r: Walk)
    ensures |r.data| == Max0(monthsCount) && r.id == |r.data|
  {
    var balance := RoundToCents(account.balance);
    var init := Walk(InitData(monthsCount, currentMonth, balance), 0, balance);
    WalkFrom(init, account.transactions, |account.transactions| - 1, account.account)
  }

  /** `getMonthsTransactionsData(account, monthsCount)` as a function of its inputs. */
  function MonthsData(account: Account, monthsCount: int, currentMonth: int): (r: seq<Bucket>)
    ensures |r| == Max0(monthsCount)
  {
    var walked := Walked(account, monthsCount, currentMonth);
    WalkSettles(account, monthsCount, currentMonth);
    seq(|walked.data|, k requires 0 <= k < |walked.data| => WithParts(walked.data[k]))
  }

  // ---------------------------------------------------------------------------
  // What the walk keeps true

  /** A seeded bucket whose balances are whole cents with `balanceMin <= balanceStart <= balanceMax`. */
  ghost predicate Settled(b: Bucket)
  {
    Seeded(b) &&
    b.balanceMin.value <= b.balanceStart.value <= b.balanceMax.value &&
    IsCents(b.balanceStart.value) && IsCents(b.balanceMin.value) && IsCents(b.balanceMax.value)
  }

  /** A bucket the cursor has not reached: nothing recorded in it yet. */
  predicate Untouched(b: Bucket)
  {
    b.balanceStart.None? && b.balanceMin.None? && b.balanceMax.None? &&
    b.sumIn == 0.0 && b.sumOut == 0.0 && b.countIn == 0 && b.countOut == 0
  }

  ghost predicate WalkInv(w: Walk)
  {
    w.id <= |w.data| && IsCents(w.balance) &&
    (forall k :: 0 <= k < |w.data| ==> IsCents(w.data[k].sumIn) && IsCents(w.data[k].sumOut)) &&
    (forall k :: 0 <= k <= w.id && k < |w.data| ==> Settled(w.data[k])) &&
    (forall k :: w.id < k < |w.data| ==> Untouched(w.data[k])) &&
    (w.id < |w.data| ==> w.data[w.id].balanceStart == Some(w.balance))
  }

  /** The balance a bucket is seeded with: the start of the next more recent month, or the live balance. */
  ghost function CarriedIn(data: seq<Bucket>, k: nat, start: real): real
    requires k < |data| && (k > 0 ==> data[k - 1].balanceStart.Some?)
  {
    if k == 0 then start else data[k - 1].balanceStart.value
  }

  /** Each reached bucket's start is what it was seeded with plus its outflow minus its inflow. */
  ghost predicate Conserved(w: Walk, start: real)
    requires WalkInv(w)
  {
    forall k :: 0 <= k <= w.id && k < |w.data| ==>
      w.data[k].balanceStart.value == CarriedIn(w.data, k, start) + w.data[k].sumOut - w.data[k].sumIn
  }

  ghost predicate AllCents(txs: seq<Transaction>)
  {
    forall j :: 0 <= j < |txs| ==> IsCents(txs[j].amount)
  }

  lemma ZeroCents()
    ensures IsCents(0.0)
  {
  }

  lemma StepCursorKeeps(w: Walk, start: real)
    requires WalkInv(w) && w.id < |w.data|
    ensures WalkInv(StepCursor(w))
    ensures Conserved(w, start) ==> Conserved(StepCursor(w), start)
  {
    StepCursorInv(w);
    var r := StepCursor(w);
    if Conserved(w, start) {
      forall k | 0 <= k <= r.id && k < |r.data|
        ensures r.data[k].balanceStart.value == CarriedIn(r.data, k, start) + r.data[k].sumOut - r.data[k].sumIn
      {
        StepCursorConservedAt(w, start, k);
      }
    }
  }

  lemma StepCursorInv(w: Walk)
    requires WalkInv(w) && w.id < |w.data|
    ensures WalkInv(StepCursor(w))
  {
    var r := StepCursor(w);
    if r.id < |r.data| {
      assert r.data[r.id] == Seed(w.data[r.id], w.balance);
      assert Untouched(w.data[r.id]);
    }
  }

  lemma StepCursorConservedAt(w: Walk, start: real, k: int)
    requires WalkInv(w) && w.id < |w.data| && Conserved(w, start)
    requires WalkInv(StepCursor(w)) && 0 <= k <= w.id + 1 && k < |w.data|
    ensures var r := StepCursor(w);
      r.data[k].balanceStart.value == CarriedIn(r.data, k, start) + r.data[k].sumOut - r.data[k].sumIn
  {
    if k <= w.id {
      ConservedAt(w, start, k);
      StepCursorBehind(w, k);
    } else {
      StepCursorLanded(w, k);
    }
  }

  /** Buckets up to the cursor are not touched by moving it. */
  lemma StepCursorBehind(w: Walk, k: int)
    requires w.id < |w.data| && 0 <= k <= w.id
    ensures StepCursor(w).data[k] == w.data[k]
    ensures k > 0 ==> StepCursor(w).data[k - 1] == w.data[k - 1]
  {
  }

  /** The bucket the cursor lands on starts with the running balance, which the previous bucket started with. */
  lemma StepCursorLanded(w: Walk, k: int)
    requires WalkInv(w) && w.id < |w.data| && k == w.id + 1 < |w.data|
    ensures var r := StepCursor(w);
      r.data[k].balanceStart == r.data[k - 1].balanceStart == Some(w.balance) &&
      r.data[k].sumIn == 0.0 && r.data[k].sumOut == 0.0
  {
    assert Untouched(w.data[k]);
  }

  lemma {:induction false} AdvanceKeeps(w: Walk, month: Option<int>, start: real)
    requires WalkInv(w)
    ensures WalkInv(Advance(w, month))
    ensures Conserved(w, start) ==> Conserved(Advance(w, month), start)
    decreases |w.data| - w.id
  {
    if w.id < |w.data| && !Matches(w.data[w.id], month) {
      StepCursorKeeps(w, start);
      AdvanceKeeps(StepCursor(w), month, start);
    }
  }

  lemma ApplyKeeps(w: Walk, t: Transaction, accountId: string)
    requires WalkInv(w) && w.id < |w.data|
    ensures WalkInv(Apply(w, t, accountId))
  {
    var r := Apply(w, t, accountId);
    var b, b' := w.data[w.id], r.data[w.id];
    var out := t.from == accountId;
    var balance := if out then w.balance + t.amount else w.balance - t.amount;
    RoundCents(balance);
    RoundCents(if out then b.sumIn else b.sumIn + t.amount);
    RoundCents(if out then b.sumOut + t.amount else b.sumOut);
    var max := if r.balance > b.balanceMax.value then r.balance else b.balanceMax.value;
    var min := if r.balance < b.balanceMin.value then r.balance else b.balanceMin.value;
    CentsRoundFixed(max);
    CentsRoundFixed(min);
    assert Settled(b');
  }

  /** With a whole-cent amount, undoing a transaction moves start, outflow and inflow in step. */
  lemma ApplyDelta(w: Walk, t: Transaction, accountId: string)
    requires WalkInv(w) && w.id < |w.data| && IsCents(t.amount)
    ensures var b, b' := w.data[w.id], Apply(w, t, accountId).data[w.id];
      b'.balanceStart.value - b'.sumOut + b'.sumIn == w.balance - b.sumOut + b.sumIn
  {
    var b := w.data[w.id];
    CentsRoundFixed(b.sumIn);
    CentsRoundFixed(b.sumOut);
    if t.from == accountId {
      CentsClosed(w.balance, t.amount);
      CentsClosed(b.sumOut, t.amount);
      CentsRoundFixed(w.balance + t.amount);
      CentsRoundFixed(b.sumOut + t.amount);
    } else {
      CentsClosed(w.balance, t.amount);
      CentsClosed(b.sumIn, t.amount);
      CentsRoundFixed(w.balance - t.amount);
      CentsRoundFixed(b.sumIn + t.amount);
    }
  }

  lemma ConservedAt(w: Walk, start: real, k: int)
    requires WalkInv(w) && Conserved(w, start) && 0 <= k <= w.id && k < |w.data|
    ensures w.data[k].balanceStart.value == CarriedIn(w.data, k, start) + w.data[k].sumOut - w.data[k].sumIn
  {
  }

  lemma ApplyConserves(w: Walk, t: Transaction, accountId: string, start: real)
    requires WalkInv(w) && w.id < |w.data| && IsCents(t.amount) && Conserved(w, start)
    ensures WalkInv(Apply(w, t, accountId))
    ensures Conserved(Apply(w, t, accountId), start)
  {
    ApplyKeeps(w, t, accountId);
    ApplyDelta(w, t, accountId);
    var r := Apply(w, t, accountId);
    forall k | 0 <= k <= r.id && k < |r.data|
      ensures r.data[k].balanceStart.value == CarriedIn(r.data, k, start) + r.data[k].sumOut - r.data[k].sumIn
    {
      ConservedAt(w, start, k);
      if k > 0 {
        assert r.data[k - 1] == w.data[k - 1];
      }
      assert CarriedIn(r.data, k, start) == CarriedIn(w.data, k, start);
      if k < w.id {
        assert r.data[k] == w.data[k];
      } else {
        assert w.data[k].balanceStart.value == w.balance;
      }
    }
  }

  /** The two shares of `max`, for inflow `a` and outflow `b`, add up to `max` within one cent. */
  lemma PartsAddUp(max: real, a: real, b: real)
    requires a + b != 0.0
    ensures max - 0.01 < PartOfMax(max, a, a + b) + PartOfMax(max, b, a + b) <= max + 0.01
  {
    assert a / (a + b) + b / (a + b) == 1.0;
    assert max * (a / (a + b)) + max * (b / (a + b)) == max * (a / (a + b) + b / (a + b));
    RoundCents(max * (a / (a + b)));
    RoundCents(max * (b / (a + b)));
  }

  lemma {:induction false} WalkFromKeeps(w: Walk, txs: seq<Transaction>, i: int, accountId: string, start: real)
    requires -1 <= i < |txs|
    requires WalkInv(w)
    ensures WalkInv(WalkFrom(w, txs, i, accountId))
    ensures AllCents(txs) && Conserved(w, start) ==> Conserved(WalkFrom(w, txs, i, accountId), start)
    decreases i + 1
  {
    if w.id < |w.data| {
      var month := if i >= 0 then txs[i].month else None;
      var a := Advance(w, month);
      AdvanceKeeps(w, month, start);
      if i >= 0 && a.id < |a.data| {
        ApplyKeeps(a, txs[i], accountId);
        if AllCents(txs) && Conserved(a, start) {
          ApplyConserves(a, txs[i], accountId, start);
        }
        WalkFromKeeps(Apply(a, txs[i], accountId), txs, i - 1, accountId, start);
      }
    }
  }

  lemma InitKeeps(monthsCount: int, currentMonth: int, balance: real)
    requires IsCents(balance)
    ensures WalkInv(Walk(InitData(monthsCount, currentMonth, balance), 0, balance))
    ensures Conserved(Walk(InitData(monthsCount, currentMonth, balance), 0, balance), balance)
  {
    ZeroCents();
  }

  /** After the walk every bucket is settled, and for whole-cent amounts the carry-over identity holds. */
  lemma WalkSettles(account: Account, monthsCount: int, currentMonth: int)
    ensures var walked := Walked(account, monthsCount, currentMonth);
      WalkInv(walked) && (forall k :: 0 <= k < |walked.data| ==> Settled(walked.data[k])) &&
      (AllCents(account.transactions) ==> Conserved(walked, RoundToCents(account.balance)))
  {
    var balance := RoundToCents(account.balance);
    RoundCents(account.balance);
    InitKeeps(monthsCount, currentMonth, balance);
    var txs := account.transactions;
    WalkFromKeeps(Walk(InitData(monthsCount, currentMonth, balance), 0, balance), txs, |txs| - 1, account.account, balance);
  }

  // ---------------------------------------------------------------------------
  // The balances each month held

  /** Bucket `bucket` held the running balance `balance` at some point of the walk. */
  datatype Held = Held(bucket: int, balance: real)

  /** `held` plus the balances the inner `while` seeds buckets with while it moves the cursor. */
  ghost function AdvanceHeld(w: Walk, month: Option<int>, held: set<Held>): set<Held>
    requires w.id <= |w.data|
    decreases |w.data| - w.id
  {
    if w.id < |w.data| && !Matches(w.data[w.id], month) then
      AdvanceHeld(StepCursor(w), month, held + (if w.id + 1 < |w.data| then {Held(w.id + 1, w.balance)} else {}))
    else held
  }

  /**
   * `held` plus every balance the rest of the walk puts into a bucket: each
   * seed, and each balance reached by undoing a transaction there.
   */
  ghost function WalkHeld(w: Walk, txs: seq<Transaction>, i: int, accountId: string, held: set<Held>): set<Held>
    requires -1 <= i < |txs|
    requires w.id <= |w.data| && (w.id < |w.data| ==> Seeded(w.data[w.id]))
    decreases i + 1
  {
    if w.id >= |w.data| then held
    else
      var month := if i >= 0 then txs[i].month else None;
      var a := Advance(w, month);
      var advanced := AdvanceHeld(w, month, held);
      if i < 0 || a.id >= |a.data| then advanced
      else
        var applied := Apply(a, txs[i], accountId);
        WalkHeld(applied, txs, i - 1, accountId, advanced + {Held(a.id, applied.balance)})
  }

  /** The running balances of `getMonthsTransactionsData(account, monthsCount)`, bucket by bucket, from the live balance on. */
  ghost function BalancesHeld(account: Account, monthsCount: int, currentMonth: int): set<Held>
  {
    var balance := RoundToCents(account.balance);
    var init := Walk(InitData(monthsCount, currentMonth, balance), 0, balance);
    WalkHeld(init, account.transactions, |account.transactions| - 1, account.account, {Held(0, balance)})
  }

  /**
   * Each reached bucket's minimum and maximum are balances it held and bound
   * every balance it held; no balance is recorded for a bucket not reached.
   */
  ghost predicate Tracks(w: Walk, held: set<Held>)
    requires WalkInv(w)
  {
    (forall h :: h in held ==> h.bucket <= w.id) &&
    (forall k :: 0 <= k <= w.id && k < |w.data| ==>
      Held(k, w.data[k].balanceMin.value) in held && Held(k, w.data[k].balanceMax.value) in held) &&
    (forall h :: h in held && 0 <= h.bucket < |w.data| ==>
      w.data[h.bucket].balanceMin.value <= h.balance <= w.data[h.bucket].balanceMax.value)
  }

  lemma StepCursorTracks(w: Walk, held: set<Held>)
    requires WalkInv(w) && w.id < |w.data| && Tracks(w, held)
    ensures WalkInv(StepCursor(w))
    ensures Tracks(StepCursor(w), held + (if w.id + 1 < |w.data| then {Held(w.id + 1, w.balance)} else {}))
  {
    StepCursorInv(w);
    var r := StepCursor(w);
    var held' := held + (if w.id + 1 < |w.data| then {Held(w.id + 1, w.balance)} else {});
    forall k | 0 <= k <= r.id && k < |r.data|
      ensures Held(k, r.data[k].balanceMin.value) in held' && Held(k, r.data[k].balanceMax.value) in held'
    {
      if k <= w.id {
        assert r.data[k] == w.data[k];
      }
    }
    forall h | h in held' && 0 <= h.bucket < |r.data|
      ensures r.data[h.bucket].balanceMin.value <= h.balance <= r.data[h.bucket].balanceMax.value
    {
      if h in held {
        assert r.data[h.bucket] == w.data[h.bucket];
      }
    }
  }

  lemma {:induction false} AdvanceTracks(w: Walk, month: Option<int>, held: set<Held>)
    requires WalkInv(w) && Tracks(w, held)
    ensures WalkInv(Advance(w, month))
    ensures Tracks(Advance(w, month), AdvanceHeld(w, month, held))
    decreases |w.data| - w.id
  {
    if w.id < |w.data| && !Matches(w.data[w.id], month) {
      StepCursorTracks(w, held);
      AdvanceTracks(StepCursor(w), month, held + (if w.id + 1 < |w.data| then {Held(w.id + 1, w.balance)} else {}));
    }
  }

  lemma ApplyTracks(w: Walk, t: Transaction, accountId: string, held: set<Held>)
    requires WalkInv(w) && w.id < |w.data| && Tracks(w, held)
    ensures WalkInv(Apply(w, t, accountId))
    ensures Tracks(Apply(w, t, accountId), held + {Held(w.id, Apply(w, t, accountId).balance)})
  {
    ApplyKeeps(w, t, accountId);
    var r := Apply(w, t, accountId);
    var b, b' := w.data[w.id], r.data[w.id];
    var held' := held + {Held(w.id, r.balance)};
    RoundCents(if t.from == accountId then w.balance + t.amount else w.balance - t.amount);
    var max := if r.balance > b.balanceMax.value then r.balance else b.balanceMax.value;
    var min := if r.balance < b.balanceMin.value then r.balance else b.balanceMin.value;
    CentsRoundFixed(max);
    CentsRoundFixed(min);
    assert b'.balanceMax.value == max && b'.balanceMin.value == min;
    forall k | 0 <= k <= r.id && k < |r.data|
      ensures Held(k, r.data[k].balanceMin.value) in held' && Held(k, r.data[k].balanceMax.value) in held'
    {
      if k < w.id {
        assert r.data[k] == w.data[k];
      }
    }
    forall h | h in held' && 0 <= h.bucket < |r.data|
      ensures r.data[h.bucket].balanceMin.value <= h.balance <= r.data[h.bucket].balanceMax.value
    {
      if h.bucket < w.id {
        assert r.data[h.bucket] == w.data[h.bucket];
      }
    }
  }

  lemma {:induction false} WalkFromTracks(w: Walk, txs: seq<Transaction>, i: int, accountId: string, held: set<Held>)
    requires -1 <= i < |txs|
    requires WalkInv(w) && Tracks(w, held)
    ensures WalkInv(WalkFrom(w, txs, i, accountId))
    ensures Tracks(WalkFrom(w, txs, i, accountId), WalkHeld(w, txs, i, accountId, held))
    decreases i + 1
  {
    if w.id < |w.data| {
      var month := if i >= 0 then txs[i].month else None;
      var a := Advance(w, month);
      AdvanceTracks(w, month, held);
      if i >= 0 && a.id < |a.data| {
        var applied := Apply(a, txs[i], accountId);
        var advanced := AdvanceHeld(w, month, held);
        ApplyTracks(a, txs[i], accountId, advanced);
        WalkFromTracks(applied, txs, i - 1, accountId, advanced + {Held(a.id, applied.balance)});
      }
    }
  }

  /** After the walk, every bucket's minimum and maximum are balances it held and bound all it held. */
  lemma WalkTracks(account: Account, monthsCount: int, currentMonth: int)
    ensures var walked := Walked(account, monthsCount, currentMonth);
      WalkInv(walked) && Tracks(walked, BalancesHeld(account, monthsCount, currentMonth))
  {
    var balance := RoundToCents(account.balance);
    RoundCents(account.balance);
    InitKeeps(monthsCount, currentMonth, balance);
    var init := Walk(InitData(monthsCount, currentMonth, balance), 0, balance);
    assert Tracks(init, {Held(0, balance)});
    var txs := account.transactions;
    WalkFromTracks(init, txs, |txs| - 1, account.account, {Held(0, balance)});
  }

  // ---------------------------------------------------------------------------
  // Properties of the result

  /**
   * Bucket `k` is `k` months back, tagged with its calendar month and caption,
   * and is seeded with `balanceMin <= balanceStart <= balanceMax`.
   */
  lemma MonthsDataShape(account: Account, monthsCount: int, currentMonth: int)
    ensures var r := MonthsData(account, monthsCount, currentMonth);
      forall k :: 0 <= k < |r| ==>
        r[k].monthsAgo == -k && r[k].monthId == MonthIdAt(currentMonth, k) &&
        r[k].month == MonthCaption(r[k].monthId) && Settled(r[k])
  {
    var r := MonthsData(account, monthsCount, currentMonth);
    forall k | 0 <= k < |r|
      ensures r[k].monthsAgo == -k && r[k].monthId == MonthIdAt(currentMonth, k) &&
        r[k].month == MonthCaption(r[k].monthId) && Settled(r[k])
    {
      MonthsDataAt(account, monthsCount, currentMonth, k);
    }
  }

  /** Bucket `k` of the result is walked bucket `k` with its parts filled in. */
  lemma MonthsDataAt(account: Account, monthsCount: int, currentMonth: int, k: int)
    requires 0 <= k < |MonthsData(account, monthsCount, currentMonth)|
    ensures var walked := Walked(account, monthsCount, currentMonth);
      var r := MonthsData(account, monthsCount, currentMonth)[k];
      var b := walked.data[k];
      Settled(b) && b.balanceMaxPartIn == 0.0 && b.balanceMaxPartOut == 0.0 && r == WithParts(b) &&
      r.balanceStart == b.balanceStart && r.balanceMin == b.balanceMin && r.balanceMax == b.balanceMax &&
      r.sumIn == b.sumIn && r.sumOut == b.sumOut &&
      r.monthsAgo == -k && r.monthId == MonthIdAt(currentMonth, k) && r.month == MonthCaption(r.monthId)
  {
    WalkSettles(account, monthsCount, currentMonth);
  }

  /**
   * Carry-over: with whole-cent amounts, each month's start is the start of
   * the next more recent month (or the live balance, for the current month)
   * plus the month's outflow minus its inflow.
   */
  lemma MonthsDataCarryOver(account: Account, monthsCount: int, currentMonth: int)
    requires AllCents(account.transactions)
    ensures var r := MonthsData(account, monthsCount, currentMonth);
      |r| > 0 ==>
        Seeded(r[0]) && r[0].balanceStart.value == RoundToCents(account.balance) + r[0].sumOut - r[0].sumIn
    ensures var r := MonthsData(account, monthsCount, currentMonth);
      forall k {:trigger r[k]} :: 0 < k < |r| ==>
        Seeded(r[k]) && Seeded(r[k - 1]) &&
        r[k].balanceStart.value == r[k - 1].balanceStart.value + r[k].sumOut - r[k].sumIn
  {
    var r := MonthsData(account, monthsCount, currentMonth);
    if |r| > 0 {
      CarryOverAt(account, monthsCount, currentMonth, 0);
    }
    forall k {:trigger r[k]} | 0 < k < |r|
      ensures Seeded(r[k]) && Seeded(r[k - 1]) &&
        r[k].balanceStart.value == r[k - 1].balanceStart.value + r[k].sumOut - r[k].sumIn
    {
      CarryOverAt(account, monthsCount, currentMonth, k);
    }
  }

  /** Carry-over for one month: its start is what the next more recent month started with, plus outflow minus inflow. */
  lemma CarryOverAt(account: Account, monthsCount: int, currentMonth: int, k: int)
    requires AllCents(account.transactions)
    requires 0 <= k < |MonthsData(account, monthsCount, currentMonth)|
    ensures var r := MonthsData(account, monthsCount, currentMonth);
      Seeded(r[k]) && (k > 0 ==> Seeded(r[k - 1])) &&
      r[k].balanceStart.value ==
        (if k == 0 then RoundToCents(account.balance) else r[k - 1].balanceStart.value) + r[k].sumOut - r[k].sumIn
  {
    WalkSettles(account, monthsCount, currentMonth);
    var walked := Walked(account, monthsCount, currentMonth);
    MonthsDataAt(account, monthsCount, currentMonth, k);
    if k > 0 {
      MonthsDataAt(account, monthsCount, currentMonth, k - 1);
    }
    ConservedAt(walked, RoundToCents(account.balance), k);
  }

  /** `share` is `max * (part / total)` to within half a cent. */
  ghost predicate ShareWithin(share: real, max: real, part: real, total: real)
    requires total != 0.0
  {
    max * (part / total) - 0.005 < share <= max * (part / total) + 0.005
  }

  /**
   * A month without flow keeps both parts at 0; a month with flow gets each
   * part within half a cent of its proportional share of `balanceMax`, and
   * the two add up to `balanceMax` within one cent.
   */
  lemma MonthsDataParts(account: Account, monthsCount: int, currentMonth: int)
    ensures var r := MonthsData(account, monthsCount, currentMonth);
      forall k :: 0 <= k < |r| ==>
        Seeded(r[k]) &&
        (r[k].sumIn + r[k].sumOut == 0.0 ==> r[k].balanceMaxPartIn == 0.0 && r[k].balanceMaxPartOut == 0.0) &&
        (r[k].sumIn + r[k].sumOut != 0.0 ==>
          r[k].balanceMax.value - 0.01 < r[k].balanceMaxPartIn + r[k].balanceMaxPartOut <= r[k].balanceMax.value + 0.01 &&
          ShareWithin(r[k].balanceMaxPartIn, r[k].balanceMax.value, r[k].sumIn, r[k].sumIn + r[k].sumOut) &&
          ShareWithin(r[k].balanceMaxPartOut, r[k].balanceMax.value, r[k].sumOut, r[k].sumIn + r[k].sumOut))
  {
    var r := MonthsData(account, monthsCount, currentMonth);
    forall k | 0 <= k < |r|
      ensures Seeded(r[k]) &&
        (r[k].sumIn + r[k].sumOut == 0.0 ==> r[k].balanceMaxPartIn == 0.0 && r[k].balanceMaxPartOut == 0.0) &&
        (r[k].sumIn + r[k].sumOut != 0.0 ==>
          r[k].balanceMax.value - 0.01 < r[k].balanceMaxPartIn + r[k].balanceMaxPartOut <= r[k].balanceMax.value + 0.01 &&
          ShareWithin(r[k].balanceMaxPartIn, r[k].balanceMax.value, r[k].sumIn, r[k].sumIn + r[k].sumOut) &&
          ShareWithin(r[k].balanceMaxPartOut, r[k].balanceMax.value, r[k].sumOut, r[k].sumIn + r[k].sumOut))
    {
      PartsAt(account, monthsCount, currentMonth, k);
    }
  }

  /**
   * How a bucket's maximum is split: both parts 0 without flow, and otherwise
   * each part within half a cent of its share and the two within a cent of
   * the maximum.
   */
  ghost predicate MaxSplit(r: Bucket)
    requires Seeded(r)
  {
    (r.sumIn + r.sumOut == 0.0 ==> r.balanceMaxPartIn == 0.0 && r.balanceMaxPartOut == 0.0) &&
    (r.sumIn + r.sumOut != 0.0 ==>
      r.balanceMax.value - 0.01 < r.balanceMaxPartIn + r.balanceMaxPartOut <= r.balanceMax.value + 0.01 &&
      ShareWithin(r.balanceMaxPartIn, r.balanceMax.value, r.sumIn, r.sumIn + r.sumOut) &&
      ShareWithin(r.balanceMaxPartOut, r.balanceMax.value, r.sumOut, r.sumIn + r.sumOut))
  }

  /** The split of month `k`'s maximum, as `MonthsDataParts` states it for every month. */
  lemma PartsAt(account: Account, monthsCount: int, currentMonth: int, k: int)
    requires 0 <= k < |MonthsData(account, monthsCount, currentMonth)|
    ensures var r := MonthsData(account, monthsCount, currentMonth)[k];
      Seeded(r) && MaxSplit(r)
  {
    var walked := Walked(account, monthsCount, currentMonth);
    MonthsDataAt(account, monthsCount, currentMonth, k);
    SplitBucket(walked.data[k]);
  }

  /** A bucket fresh from the walk, parts still 0, is split as `MaxSplit` says. */
  lemma SplitBucket(b: Bucket)
    requires Seeded(b) && b.balanceMaxPartIn == 0.0 && b.balanceMaxPartOut == 0.0
    ensures Seeded(WithParts(b)) && MaxSplit(WithParts(b))
  {
    if b.sumIn + b.sumOut != 0.0 {
      PartsAddUp(b.balanceMax.value, b.sumIn, b.sumOut);
    }
  }

  /**
   * Each month's `balanceMax` is a balance the account had in that month (its
   * seed, or the balance reached by undoing one of its transactions) and no
   * balance it had there is higher; `balanceMin` likewise from below.
   */
  lemma MonthsDataExtremes(account: Account, monthsCount: int, currentMonth: int)
    ensures var r := MonthsData(account, monthsCount, currentMonth);
      var held := BalancesHeld(account, monthsCount, currentMonth);
      forall k :: 0 <= k < |r| ==>
        Seeded(r[k]) &&
        Held(k, r[k].balanceMax.value) in held && Held(k, r[k].balanceMin.value) in held &&
        forall v :: Held(k, v) in held ==> r[k].balanceMin.value <= v <= r[k].balanceMax.value
  {
    var r := MonthsData(account, monthsCount, currentMonth);
    var held := BalancesHeld(account, monthsCount, currentMonth);
    forall k | 0 <= k < |r|
      ensures Seeded(r[k]) &&
        Held(k, r[k].balanceMax.value) in held && Held(k, r[k].balanceMin.value) in held &&
        forall v :: Held(k, v) in held ==> r[k].balanceMin.value <= v <= r[k].balanceMax.value
    {
      ExtremesAt(account, monthsCount, currentMonth, k);
    }
  }

  lemma ExtremesAt(account: Account, monthsCount: int, currentMonth: int, k: int)
    requires 0 <= k < |MonthsData(account, monthsCount, currentMonth)|
    ensures var r := MonthsData(account, monthsCount, currentMonth)[k];
      var held := BalancesHeld(account, monthsCount, currentMonth);
      Seeded(r) &&
      Held(k, r.balanceMax.value) in held && Held(k, r.balanceMin.value) in held &&
      forall v :: Held(k, v) in held ==> r.balanceMin.value <= v <= r.balanceMax.value
  {
    var walked := Walked(account, monthsCount, currentMonth);
    var held := BalancesHeld(account, monthsCount, currentMonth);
    WalkTracks(account, monthsCount, currentMonth);
    MonthsDataAt(account, monthsCount, currentMonth, k);
    forall v | Held(k, v) in held
      ensures walked.data[k].balanceMin.value <= v <= walked.data[k].balanceMax.value
    {
      assert Held(k, v).bucket == k;
    }
  }

  /** With no transaction left to match, the cursor seeds every remaining bucket with the running balance. */
  /**
   * What the inner `while` writes on its way: every bucket it steps onto,
   * up to and including the one it stops at, is seeded with the running
   * balance; the buckets after the stop are untouched.
   */
  lemma {:induction false} AdvanceWrites(w: Walk, month: Option<int>)
    requires w.id <= |w.data|
    ensures var r := Advance(w, month);
      (forall k :: w.id < k <= r.id && k < |w.data| ==> r.data[k] == Seed(w.data[k], w.balance)) &&
      (forall k :: r.id < k < |w.data| ==> r.data[k] == w.data[k])
    decreases |w.data| - w.id
  {
    if w.id < |w.data| && !Matches(w.data[w.id], month) {
      var s := StepCursor(w);
      AdvanceWrites(s, month);
      var r := Advance(s, month);
      assert r == Advance(w, month);
      forall k | w.id < k <= r.id && k < |w.data|
        ensures r.data[k] == Seed(w.data[k], w.balance)
      {
        if k > s.id {
          assert s.data[k] == w.data[k];
        }
      }
    }
  }

  lemma {:induction false} AdvanceSeedsRest(w: Walk)
    requires w.id <= |w.data|
    ensures var r := Advance(w, None);
      r.id == |w.data| &&
      (forall k :: 0 <= k <= w.id && k < |w.data| ==> r.data[k] == w.data[k]) &&
      (forall k :: w.id < k < |w.data| ==> r.data[k] == Seed(w.data[k], w.balance))
    decreases |w.data| - w.id
  {
    if w.id < |w.data| {
      AdvanceSeedsRest(StepCursor(w));
    }
  }

  /**
   * An account without transactions gets every bucket seeded with its
   * rounded balance as start, minimum and maximum, and no flow anywhere.
   */
  lemma NoTransactionsSeedsAll(account: Account, monthsCount: int, currentMonth: int)
    requires account.transactions == []
    ensures var r := MonthsData(account, monthsCount, currentMonth);
      forall k :: 0 <= k < |r| ==>
        r[k].balanceStart == r[k].balanceMin == r[k].balanceMax == Some(RoundToCents(account.balance)) &&
        r[k].sumIn == r[k].sumOut == 0.0 && r[k].countIn == r[k].countOut == 0 &&
        r[k].balanceMaxPartIn == r[k].balanceMaxPartOut == 0.0
  {
    var balance := RoundToCents(account.balance);
    var init := Walk(InitData(monthsCount, currentMonth, balance), 0, balance);
    var r := MonthsData(account, monthsCount, currentMonth);
    if |init.data| > 0 {
      AdvanceSeedsRest(init);
      assert WalkFrom(init, [], -1, account.account) == Advance(init, None);
      forall k | 0 <= k < |r|
        ensures r[k].balanceStart == r[k].balanceMin == r[k].balanceMax == Some(balance)
        ensures r[k].sumIn == r[k].sumOut == 0.0 && r[k].countIn == r[k].countOut == 0
        ensures r[k].balanceMaxPartIn == r[k].balanceMaxPartOut == 0.0
      {
        MonthsDataAt(account, monthsCount, currentMonth, k);
      }
    }
  }

  /**
   * Balance 1000.00 after one incoming transfer of 200.00 this month: the
   * month started at 800.00, peaked at 1000.00, and its maximum is all inflow.
   */
  lemma OneIncomingTransfer()
    ensures var r := MonthsData(Account("me", 1000.0, [Transaction("other", "me", 200.0, Some(3))]), 1, 3);
      |r| == 1 &&
      r[0].balanceStart == Some(800.0) && r[0].balanceMin == Some(800.0) && r[0].balanceMax == Some(1000.0) &&
      r[0].sumIn == 200.0 && r[0].countIn == 1 && r[0].sumOut == 0.0 && r[0].countOut == 0 &&
      r[0].balanceMaxPartIn == 1000.0 && r[0].balanceMaxPartOut == 0.0
  {
    var t := Transaction("other", "me", 200.0, Some(3));
    var account := Account("me", 1000.0, [t]);
    var balance := RoundToCents(1000.0);
    CentsRoundFixed(1000.0);
    var init := Walk(InitData(1, 3, balance), 0, balance);
    assert init.data == [InitBucket(0, 3, 1000.0)];
    assert Advance(init, Some(3)) == init;
    var applied := Apply(init, t, "me");
    CentsRoundFixed(800.0);
    CentsRoundFixed(200.0);
    assert applied.balance == 800.0;
    assert WalkFrom(init, [t], 0, "me") == WalkFrom(applied, [t], -1, "me");
    var b := applied.data[0];
    assert b.balanceStart == Some(800.0) && b.balanceMin == Some(800.0) && b.balanceMax == Some(1000.0);
    assert WalkFrom(applied, [t], -1, "me") == Advance(applied, None);
    assert Advance(applied, None) == StepCursor(applied);
    CentsRoundFixed(1000.0 * (200.0 / (200.0 + 0.0)));
    CentsRoundFixed(1000.0 * (0.0 / (200.0 + 0.0)));
    MonthsDataAt(account, 1, 3, 0);
  }

  // ---------------------------------------------------------------------------
  // The routine itself

  /** `getMonthsTransactionsData(account, monthsCount)`, step by step as the source runs it. */
  method GetMonthsTransactionsData(account: Account, monthsCount: int, currentMonth: int)
    returns (data: seq<Bucket>)
    ensures data == MonthsData(account, monthsCount, currentMonth)
    ensures |data| == Max0(monthsCount)
    ensures forall k :: 0 <= k < |data| ==>
      data[k].monthsAgo == -k && data[k].monthId == MonthIdAt(currentMonth, k) &&
      data[k].month == MonthCaption(data[k].monthId) && Settled(data[k])
  {
    var balance := RoundToCents(account.balance);
    data := InitBuckets(monthsCount, currentMonth, balance);
    data := WalkTransactions(data, balance, account.transactions, account.account);
    WalkSettles(account, monthsCount, currentMonth);
    data := SplitMaxParts(data);
    MonthsDataShape(account, monthsCount, currentMonth);
  }

  /** The `push` loop of `getMonthsTransactionsData`: one bucket per month, going back from the current one. */
  method InitBuckets(monthsCount: int, currentMonth: int, balance: real) returns (data: seq<Bucket>)
    ensures data == InitData(monthsCount, currentMonth, balance)
  {
    data := [];
    var i := 0;
    while i < monthsCount
      invariant 0 <= i <= Max0(monthsCount)
      invariant |data| == i
      invariant forall k :: 0 <= k < i ==> data[k] == InitBucket(k, currentMonth, balance)
    {
      var monthId := currentMonth - i;
      monthId := if monthId < 0 then 12 + monthId else monthId;
      var balanceInit := if i == 0 then Some(balance) else None;
      var monthsAgo := if i == 0 then 0 else -i;
      data := data + [Bucket(monthsAgo, monthId, MonthCaption(monthId),
                             balanceInit, balanceInit, balanceInit, 0.0, 0.0, 0, 0, 0.0, 0.0)];
      i := i + 1;
    }
  }

  /**
   * The outer `for` of `getMonthsTransactionsData`: walk the transactions from the newest, moving the cursor back
   * month by month and undoing each transaction in the bucket of its month.
   */
  method WalkTransactions(buckets: seq<Bucket>, startBalance: real, transactions: seq<Transaction>, accountId: string)
    returns (data: seq<Bucket>)
    requires |buckets| > 0 ==> Seeded(buckets[0])
    ensures data == WalkFrom(Walk(buckets, 0, startBalance), transactions, |transactions| - 1, accountId).data
  {
    data := buckets;
    var balance := startBalance;
    var monthsCount := |buckets|;
    var id: nat := 0;
    ghost var walked := WalkFrom(Walk(data, 0, balance), transactions, |transactions| - 1, accountId);
    // i = -1 is the end-of-list step, which only moves the cursor
    var i := |transactions| - 1;
    while id < monthsCount
      invariant -2 <= i < |transactions|
      invariant |data| == monthsCount && id <= |data|
      invariant id < |data| ==> -1 <= i && Seeded(data[id])
      invariant id < |data| ==> WalkFrom(Walk(data, id, balance), transactions, i, accountId) == walked
      invariant id == |data| ==> Walk(data, id, balance) == walked
      decreases i + 2
    {
      data, id, balance := ProcessTransaction(data, id, balance, transactions, i, accountId);
      i := i - 1;
    }
  }

  /**
   * One turn of the outer `for`: move the cursor to the month of
   * transaction `i` (none for `i = -1`), then undo the transaction there, or
   * skip it when it has no date or no bucket is left for it.
   */
  method ProcessTransaction(buckets: seq<Bucket>, start: nat, startBalance: real,
                            transactions: seq<Transaction>, i: int, accountId: string)
    returns (data: seq<Bucket>, id: nat, balance: real)
    requires -1 <= i < |transactions| && start < |buckets| && Seeded(buckets[start])
    ensures |data| == |buckets| && id <= |data|
    ensures id < |data| ==>
      0 <= i && Seeded(data[id]) &&
      WalkFrom(Walk(data, id, balance), transactions, i - 1, accountId) ==
      WalkFrom(Walk(buckets, start, startBalance), transactions, i, accountId)
    ensures id == |data| ==> Walk(data, id, balance) == WalkFrom(Walk(buckets, start, startBalance), transactions, i, accountId)
  {
    var month := if i >= 0 then transactions[i].month else None;
    ghost var before := Walk(buckets, start, startBalance);
    data, id := MoveCursor(buckets, start, startBalance, month);
    balance := startBalance;
    ghost var a := Walk(data, id, balance);

    // no date, or no bucket left for it
    if i < 0 || id >= |data| {
      OuterStep(before, transactions, i, accountId, a, a);
      return;
    }

    data, balance := UndoTransaction(data, id, balance, transactions[i], accountId);
    OuterStep(before, transactions, i, accountId, a, Walk(data, id, balance));
  }

  /**
   * One turn of the outer loop: move the cursor to `a`, then either stop there
   * or undo transaction `i`; what is left of the walk is unchanged.
   */
  lemma OuterStep(before: Walk, txs: seq<Transaction>, i: int, accountId: string, a: Walk, after: Walk)
    requires -1 <= i < |txs| && before.id < |before.data| && Seeded(before.data[before.id])
    requires a == Advance(before, if i >= 0 then txs[i].month else None)
    requires i < 0 || a.id >= |a.data| ==> after == a
    requires 0 <= i && a.id < |a.data| ==> Seeded(a.data[a.id]) && after == Apply(a, txs[i], accountId)
    ensures |after.data| == |before.data| && after.id <= |after.data|
    ensures after.id < |after.data| ==>
      0 <= i && Seeded(after.data[after.id]) &&
      WalkFrom(after, txs, i - 1, accountId) == WalkFrom(before, txs, i, accountId)
    ensures after.id == |after.data| ==> after == WalkFrom(before, txs, i, accountId)
  {
  }

  /**
   * The inner `while` of the outer `for`: move the cursor on to the first bucket
   * whose month is `month`, seeding each bucket it lands on with `balance`.
   */
  method MoveCursor(buckets: seq<Bucket>, start: nat, balance: real, month: Option<int>)
    returns (data: seq<Bucket>, id: nat)
    requires start <= |buckets|
    ensures Walk(data, id, balance) == Advance(Walk(buckets, start, balance), month)
  {
    data, id := buckets, start;
    ghost var target := Advance(Walk(buckets, start, balance), month);
    while id < |data| && !Matches(data[id], month)
      invariant start <= id <= |data|
      invariant Advance(Walk(data, id, balance), month) == target
      decreases |data| - id
    {
      ghost var w := Walk(data, id, balance);
      id := id + 1;
      if id < |data| {
        data := data[id := Seed(data[id], balance)];
      }
      MoveStep(w, month, data, id);
    }
    AdvanceStop(Walk(data, id, balance), month);
  }

  /** One turn of the inner `while`, as the method performs it, keeps the walk's destination. */
  lemma MoveStep(w: Walk, month: Option<int>, data: seq<Bucket>, id: nat)
    requires w.id < |w.data| && !Matches(w.data[w.id], month) && id == w.id + 1
    requires data == if id < |w.data| then w.data[id := Seed(w.data[id], w.balance)] else w.data
    ensures Advance(Walk(data, id, w.balance), month) == Advance(w, month)
  {
    assert Walk(data, id, w.balance) == StepCursor(w);
  }

  lemma AdvanceStop(w: Walk, month: Option<int>)
    requires w.id <= |w.data| && (w.id < |w.data| ==> Matches(w.data[w.id], month))
    ensures Advance(w, month) == w
  {
  }

  /** The rest of the outer `for` body: undo transaction `op` in bucket `id`, moving the running balance back past it. */
  method UndoTransaction(buckets: seq<Bucket>, id: nat, startBalance: real, op: Transaction, accountId: string)
    returns (data: seq<Bucket>, balance: real)
    requires id < |buckets| && Seeded(buckets[id])
    ensures Walk(data, id, balance) == Apply(Walk(buckets, id, startBalance), op, accountId)
  {
    balance := startBalance;
    var b := buckets[id];
    if op.from == accountId {
      balance := balance + op.amount;
      b := b.(sumOut := b.sumOut + op.amount, countOut := b.countOut + 1);
    } else {
      balance := balance - op.amount;
      b := b.(sumIn := b.sumIn + op.amount, countIn := b.countIn + 1);
    }

    balance := RoundToCents(balance);
    b := b.(balanceStart := Some(balance));
    if balance > b.balanceMax.value {
      b := b.(balanceMax := Some(balance));
    }
    if balance < b.balanceMin.value {
      b := b.(balanceMin := Some(balance));
    }

    b := b.(balanceMin := Some(RoundToCents(b.balanceMin.value)));
    b := b.(balanceMax := Some(RoundToCents(b.balanceMax.value)));
    b := b.(sumIn := RoundToCents(b.sumIn));
    b := b.(sumOut := RoundToCents(b.sumOut));
    data := buckets[id := b];
  }

  /** The `forEach` of `getMonthsTransactionsData`: split each month's maximum balance between its inflow and outflow. */
  method SplitMaxParts(buckets: seq<Bucket>) returns (data: seq<Bucket>)
    requires forall k :: 0 <= k < |buckets| ==> buckets[k].balanceMax.Some?
    ensures |data| == |buckets|
    ensures forall k :: 0 <= k < |buckets| ==> data[k] == WithParts(buckets[k])
  {
    data := buckets;
    var k := 0;
    while k < |data|
      invariant 0 <= k <= |data| == |buckets|
      invariant forall j :: 0 <= j < k ==> data[j] == WithParts(buckets[j])
      invariant forall j :: k <= j < |data| ==> data[j] == buckets[j]
    {
      var item := data[k];
      var sumInout := item.sumIn + item.sumOut;
      if sumInout != 0.0 {
        item := item.(balanceMaxPartIn := PartOfMax(item.balanceMax.value, item.sumIn, sumInout));
        item := item.(balanceMaxPartOut := PartOfMax(item.balanceMax.value, item.sumOut, sumInout));
      }
      assert item == WithParts(buckets[k]);
      data := data[k := item];
      k := k + 1;
    }
  }
}
