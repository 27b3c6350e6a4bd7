/**
 * The decision logic inside the front end's element builders: the history
 * table's page choice and pagination control, and the live exchange-rate list.
 * The DOM itself is not modelled; a table is its sequence of rows and the
 * rate list is the sequence of its entries.
 */
module Elements {
  import opened Wrappers
  import opened Utilities
  import opened MonthsTransactions

  // ---------------------------------------------------------------------------
  // Pagination control

  /** The four buttons of `createPagination`. */
  datatype PageButton = First | Back | Forward | Last

  /** The page a click on `btn` loads (`pageBtnClick`), clamped to `[1, pagesCount]`. */
  function NextPage(btn: PageButton, pageCurrent: int, pagesCount: int): (r: int)
    ensures 1 <= pageCurrent <= pagesCount ==> 1 <= r <= pagesCount
    ensures 1 <= pageCurrent <= pagesCount && (btn == First || btn == Back) ==> r <= pageCurrent
    ensures 1 <= pageCurrent <= pagesCount && (btn == Forward || btn == Last) ==> pageCurrent <= r
    ensures 1 <= pageCurrent <= pagesCount && (btn == Back || btn == Forward) ==>
      pageCurrent - 1 <= r <= pageCurrent + 1
  {
    match btn
    case First => 1
    case Back => if pageCurrent - 1 > 1 then pageCurrent - 1 else 1
    case Forward => if pageCurrent + 1 < pagesCount then pageCurrent + 1 else pagesCount
    case Last => pagesCount
  }

  /**
   * The `disabled` flag of each button. On a page in range a button is
   * disabled exactly when clicking it would load the page already shown.
   */
  function ButtonDisabled(btn: PageButton, pageCurrent: int, pagesCount: int): (r: bool)
    ensures 1 <= pageCurrent <= pagesCount ==> (r <==> NextPage(btn, pageCurrent, pagesCount) == pageCurrent)
  {
    match btn
    case First => pageCurrent == 1
    case Back => pageCurrent == 1
    case Forward => pageCurrent == pagesCount
    case Last => pageCurrent == pagesCount
  }

  /** "Back" undoes "Forward" wherever "Forward" is enabled, and the other way round. */
  lemma BackUndoesForward(pageCurrent: int, pagesCount: int)
    requires 1 <= pageCurrent <= pagesCount
    ensures !ButtonDisabled(Forward, pageCurrent, pagesCount) ==>
      NextPage(Back, NextPage(Forward, pageCurrent, pagesCount), pagesCount) == pageCurrent
    ensures !ButtonDisabled(Back, pageCurrent, pagesCount) ==>
      NextPage(Forward, NextPage(Back, pageCurrent, pagesCount), pagesCount) == pageCurrent
  {
  }

  // ---------------------------------------------------------------------------
  // Transaction history table

  /** A table row: the two accounts, the amount and whether it is shown as outgoing ("- ", red). */
  datatype HistoryRow = HistoryRow(from: string, to: string, outgoing: bool, amount: real)

  /** The `pageCurrent / pagesCount` state a pagination control is built with. */
  datatype Pagination = Pagination(pageCurrent: int, pagesCount: int)

  datatype HistoryView = HistoryView(rows: seq<HistoryRow>, pagination: Option<Pagination>)

  /** Rows per page: 25 on the full history page, 10 in the account summary. */
  function PageSize(pagesVisible: bool): (r: nat)
    ensures r >= 1
  {
    if pagesVisible then 25 else 10
  }

  /** The cells of one history row: both accounts, the raw amount, and "- " (critical) styling exactly for an outgoing one. */
  function RowOf(t: Transaction, accountId: string): (r: HistoryRow)
    ensures r.from == t.from && r.to == t.to && r.amount == t.amount
    ensures r.outgoing <==> t.from == accountId
  {
    HistoryRow(t.from, t.to, t.from == accountId, t.amount)
  }

  /** Each row is prepended in turn, so the table lists the page newest first. */
  function RowsNewestFirst(page: seq<Transaction>, accountId: string): (r: seq<HistoryRow>)
    ensures |r| == |page|
    ensures forall j :: 0 <= j < |r| ==> r[j] == RowOf(page[|page| - 1 - j], accountId)
  {
    if |page| == 0 then []
    else [RowOf(page[|page| - 1], accountId)] + RowsNewestFirst(page[..|page| - 1], accountId)
  }

  /**
   * The table part of `createBlockTransactionsHistory`: no body for an empty
   * history; otherwise page `page` of the history, newest first, and a
   * pagination control only on the full history page when one page is not
   * enough.
   */
  function TransactionsHistory(history: seq<Transaction>, accountId: string, page: int, pagesVisible: bool)
    : (v: HistoryView)
    ensures |history| == 0 ==> v.rows == [] && v.pagination == None
    ensures v.pagination.Some? <==> pagesVisible && 25 < |history|
    ensures v.pagination.Some? ==>
      v.pagination.value.pageCurrent == page &&
      25 * (v.pagination.value.pagesCount - 1) < |history| <= 25 * v.pagination.value.pagesCount
  {
    if |history| == 0 then HistoryView([], None)
    else
      var size := PageSize(pagesVisible);
      var pagesCount := GetArrayPagesCount(|history|, size);
      PagesCountBounds(|history|, size);
      HistoryView(
        RowsNewestFirst(GetArrayPage(history, size, page), accountId),
        if pagesVisible && size < |history| then Some(Pagination(page, pagesCount)) else None)
  }

  /**
   * The rows of page `page`: at most a page's worth, running back from the
   * newest transaction the page holds; the first page shows the newest ones.
   */
  lemma TransactionsHistoryRows(history: seq<Transaction>, accountId: string, page: int, pagesVisible: bool)
    requires page >= 1
    ensures var v := TransactionsHistory(history, accountId, page, pagesVisible);
      var size := PageSize(pagesVisible);
      |v.rows| <= size &&
      (forall j :: 0 <= j < |v.rows| ==>
        0 <= |history| - size * (page - 1) - 1 - j < |history| &&
        v.rows[j] == RowOf(history[|history| - size * (page - 1) - 1 - j], accountId)) &&
      (page == 1 ==> |v.rows| == if size < |history| then size else |history|)
  {
    if |history| > 0 {
      var size := PageSize(pagesVisible);
      assert TransactionsHistory(history, accountId, page, pagesVisible).rows ==
        RowsNewestFirst(GetArrayPage(history, size, page), accountId);
      PageRowCount(history, accountId, size, page);
      PageRowsAt(history, accountId, size, page);
    }
  }

  /** For any page size: at most a page's worth of rows, and the first page full unless the history is shorter. */
  lemma PageRowCount(history: seq<Transaction>, accountId: string, size: int, page: int)
    requires size >= 1 && page >= 1
    ensures var rows := RowsNewestFirst(GetArrayPage(history, size, page), accountId);
      |rows| <= size && (page == 1 ==> |rows| == if size < |history| then size else |history|)
  {
    PageLength(history, size, page);
    FirstPageIsNewest(history, size);
  }

  /** For any page size: row `j` of page `page` is the transaction `j` places before the newest one the page holds. */
  lemma PageRowsAt(history: seq<Transaction>, accountId: string, size: int, page: int)
    requires size >= 1 && page >= 1
    ensures var rows := RowsNewestFirst(GetArrayPage(history, size, page), accountId);
      forall j :: 0 <= j < |rows| ==>
        0 <= |history| - size * (page - 1) - 1 - j < |history| &&
        rows[j] == RowOf(history[|history| - size * (page - 1) - 1 - j], accountId)
  {
    var rows := RowsNewestFirst(GetArrayPage(history, size, page), accountId);
    var lo, newer := Max0(|history| - size * page), size * (page - 1);
    PageWindow(history, size, page);
    MulNonneg(size, page - 1);
    assert rows == RowsNewestFirst(history[lo..Max0(|history| - newer)], accountId);
    forall j | 0 <= j < |rows|
      ensures 0 <= |history| - size * (page - 1) - 1 - j < |history|
      ensures rows[j] == RowOf(history[|history| - size * (page - 1) - 1 - j], accountId)
    {
      WindowRowAt(history, accountId, lo, newer, j);
    }
  }

  /** Row `j` of the window `history[lo..]` that ends `newer` entries before the newest one, read newest first. */
  lemma WindowRowAt(history: seq<Transaction>, accountId: string, lo: int, newer: int, j: int)
    requires newer >= 0 && 0 <= lo <= Max0(|history| - newer)
    requires 0 <= j < Max0(|history| - newer) - lo
    ensures 0 <= |history| - newer - 1 - j < |history|
    ensures RowsNewestFirst(history[lo..Max0(|history| - newer)], accountId)[j] ==
      RowOf(history[|history| - newer - 1 - j], accountId)
  {
    var hi := Max0(|history| - newer);
    var pg := history[lo..hi];
    assert hi == |history| - newer;
    assert pg[|pg| - 1 - j] == history[hi - 1 - j];
  }

  /** Every page shows its whole window: as many rows as the history has between `size * page` and `size * (page - 1)` from the end. */
  lemma TransactionsHistoryRowCount(history: seq<Transaction>, accountId: string, page: int, pagesVisible: bool)
    requires page >= 1
    ensures var size := PageSize(pagesVisible);
      |TransactionsHistory(history, accountId, page, pagesVisible).rows| ==
        Max0(|history| - size * (page - 1)) - Max0(|history| - size * page)
  {
    if |history| > 0 {
      PageWindow(history, PageSize(pagesVisible), page);
    }
  }

  // ---------------------------------------------------------------------------
  // Live exchange rates

  /** One websocket message: a currency pair, its rate and `parseInt(change)` (`None` for `NaN`). */
  datatype RateChange = RateChange(from: string, to: string, rate: real, change: Option<int>)

  /** One entry of the rate list: its `data-currencies` key, the shown value and the "down" styling. */
  datatype RateItem = RateItem(key: string, value: real, down: bool)

  /** The list never grows past this many entries through a refresh. */
  const MAX_RATES: nat := 12

  function RateKey(from: string, to: string): (r: string)
    ensures |r| == |from| + 1 + |to| && r[|from|] == '/'
    ensures r[..|from|] == from && r[|from| + 1..] == to
  {
    from + "/" + to
  }

  /** The entry `prependExchangeRatesItem` builds. */
  function NewItem(data: RateChange): (r: RateItem)
    ensures r.key == RateKey(data.from, data.to)
    ensures r.down <==> data.change == Some(-1)
    ensures r.value == Round(data.rate, 2)
  {
    RateItem(RateKey(data.from, data.to), Round(data.rate, 2), data.change == Some(-1))
  }

  /** The first entry with `key` (what `document.querySelector` finds), or -1. */
  function IndexOfKey(items: seq<RateItem>, key: string): (r: int)
    ensures -1 <= r < |items|
    ensures r >= 0 ==> items[r].key == key && forall j :: 0 <= j < r ==> items[j].key != key
    ensures r < 0 ==> forall j :: 0 <= j < |items| ==> items[j].key != key
  {
    if |items| == 0 then -1
    else if items[0].key == key then 0
    else
      var r := IndexOfKey(items[1..], key);
      if r < 0 then -1 else r + 1
  }

  function RemoveAt<T>(s: seq<T>, i: nat): (r: seq<T>)
    requires i < |s|
    ensures |r| == |s| - 1
    ensures forall j :: 0 <= j < |r| ==> r[j] == s[if j < i then j else j + 1]
  {
    s[..i] + s[i + 1..]
  }

  ghost predicate NoDupKeys(items: seq<RateItem>)
  {
    forall a, b :: 0 <= a < b < |items| ==> items[a].key != items[b].key
  }

  /**
   * The list after `refreshExchangeRates(data)`: the entry with the same key
   * is removed, or else the last entry once the list holds 12 or more; then
   * the new entry goes first. A list that is not in the document is left as
   * it is, since neither lookup finds anything in it.
   */
  function Refreshed(items: seq<RateItem>, inDocument: bool, data: RateChange): (r: seq<RateItem>)
    ensures !inDocument ==> r == items
    ensures inDocument ==> |r| >= 1 && r[0] == NewItem(data)
  {
    if !inDocument then items
    else [NewItem(data)] + Survivors(items, RateKey(data.from, data.to))
  }

  /** The entries left after the two deletions of a refresh for `key`. */
  function Survivors(items: seq<RateItem>, key: string): (r: seq<RateItem>)
    ensures |r| <= |items|
    ensures |items| >= MAX_RATES ==> |r| == |items| - 1
    ensures IndexOfKey(items, key) < 0 ==> r == items[..|r|]
    ensures IndexOfKey(items, key) >= 0 ==> |r| == |items| - 1
    ensures IndexOfKey(items, key) < 0 && |items| < MAX_RATES ==> r == items
  {
    var i := IndexOfKey(items, key);
    if i >= 0 then RemoveAt(items, i)
    else if |items| >= MAX_RATES then items[..|items| - 1]
    else items
  }

  /** A refresh replaces an existing pair in place of its old entry, and grows the list only by a new pair below the bound. */
  lemma RefreshedLength(items: seq<RateItem>, inDocument: bool, data: RateChange)
    requires inDocument
    ensures (exists j :: 0 <= j < |items| && items[j].key == RateKey(data.from, data.to)) ==>
      |Refreshed(items, inDocument, data)| == |items|
    ensures (forall j :: 0 <= j < |items| ==> items[j].key != RateKey(data.from, data.to)) ==>
      |Refreshed(items, inDocument, data)| == if |items| >= MAX_RATES then |items| else |items| + 1
  {
  }

  /** A list of at most 12 entries stays at most 12 entries. */
  lemma RefreshedBounded(items: seq<RateItem>, inDocument: bool, data: RateChange)
    requires |items| <= MAX_RATES
    ensures |Refreshed(items, inDocument, data)| <= MAX_RATES
  {
  }

  lemma RemoveAtNoDup(items: seq<RateItem>, i: nat)
    requires i < |items| && NoDupKeys(items)
    ensures NoDupKeys(RemoveAt(items, i))
    ensures forall j :: 0 <= j < |items| - 1 ==> RemoveAt(items, i)[j].key != items[i].key
  {
    var r := RemoveAt(items, i);
    forall a, b | 0 <= a < b < |r|
      ensures r[a].key != r[b].key
    {
      assert r[a] == items[if a < i then a else a + 1];
      assert r[b] == items[if b < i then b else b + 1];
    }
  }

  lemma SurvivorsNoDup(items: seq<RateItem>, key: string)
    requires NoDupKeys(items)
    ensures NoDupKeys(Survivors(items, key))
    ensures forall j :: 0 <= j < |Survivors(items, key)| ==> Survivors(items, key)[j].key != key
  {
    var i := IndexOfKey(items, key);
    var kept := Survivors(items, key);
    if i >= 0 {
      RemoveAtNoDup(items, i);
    } else {
      forall j | 0 <= j < |kept|
        ensures kept[j] == items[j]
      {
      }
    }
  }

  /** A list without duplicate keys keeps none: the pair's old entry is the only one and is removed. */
  lemma RefreshedNoDup(items: seq<RateItem>, inDocument: bool, data: RateChange)
    requires NoDupKeys(items)
    ensures NoDupKeys(Refreshed(items, inDocument, data))
  {
    if inDocument {
      var kept := Survivors(items, RateKey(data.from, data.to));
      SurvivorsNoDup(items, RateKey(data.from, data.to));
      var r := Refreshed(items, inDocument, data);
      forall a, b | 0 <= a < b < |r|
        ensures r[a].key != r[b].key
      {
        assert r[b] == kept[b - 1];
        if a > 0 {
          assert r[a] == kept[a - 1];
        }
      }
    }
  }

  /**
   * Entries other than the new head keep their relative order: they are the
   * old entries with at most the one at `d` skipped, `d` being the pair's old
   * entry, or else the last entry of a full list, or else none (`|items|`).
   */
  lemma RefreshedKeepsOrder(items: seq<RateItem>, inDocument: bool, data: RateChange) returns (d: nat)
    requires inDocument
    ensures var i := IndexOfKey(items, RateKey(data.from, data.to));
      d == if i >= 0 then i else if |items| >= MAX_RATES then |items| - 1 else |items|
    ensures d <= |items|
    ensures d < |items| ==> |Refreshed(items, inDocument, data)| == |items|
    ensures |Refreshed(items, inDocument, data)| <= |items| + 1
    ensures var r := Refreshed(items, inDocument, data);
      forall j :: 1 <= j < |r| ==> r[j] == items[if j - 1 < d then j - 1 else j]
  {
    var i := IndexOfKey(items, RateKey(data.from, data.to));
    d := if i >= 0 then i else if |items| >= MAX_RATES then |items| - 1 else |items|;
  }

  /**
   * The rate list element (`#block-rates`). `inDocument` records whether the
   * element is attached to the page, which is what the `document` lookups of
   * the helpers below need.
   */
  class ExchangeRatesList {
    var items: seq<RateItem>
    var inDocument: bool

    constructor (attached: bool)
      ensures items == [] && inDocument == attached
    {
      items := [];
      inDocument := attached;
    }

    /** `getExchangeRatesCount()`: counts the element's children, attached or not. */
    method Count() returns (n: nat)
      ensures n == |items|
    {
      n := |items|;
    }

    /** `deleteExchangeRatesItem(key)`: removes the first entry with `key`, if the page shows one. */
    method DeleteItem(key: string) returns (deleted: bool)
      modifies this
      ensures inDocument == old(inDocument)
      ensures deleted <==> inDocument && exists j :: 0 <= j < |old(items)| && old(items)[j].key == key
      ensures deleted ==> items == RemoveAt(old(items), IndexOfKey(old(items), key))
      ensures !deleted ==> items == old(items)
    {
      if !inDocument {
        return false;
      }
      var i := IndexOfKey(items, key);
      if i >= 0 {
        assert items[i].key == key;
        items := items[..i] + items[i + 1..];
        deleted := true;
      } else {
        deleted := false;
      }
    }

    /** `deleteExchangeRatesItemLast()`: removes the last entry, if the page shows one. */
    method DeleteItemLast() returns (deleted: bool)
      modifies this
      ensures inDocument == old(inDocument)
      ensures deleted <==> inDocument && |old(items)| > 0
      ensures deleted ==> items == old(items)[..|old(items)| - 1]
      ensures !deleted ==> items == old(items)
    {
      if inDocument && |items| > 0 {
        items := items[..|items| - 1];
        deleted := true;
      } else {
        deleted := false;
      }
    }

    /** `prependExchangeRatesItem(data)`: puts the new entry first; nothing happens while detached. */
    method PrependItem(data: RateChange)
      modifies this
      ensures inDocument == old(inDocument)
      ensures items == if inDocument then [NewItem(data)] + old(items) else old(items)
    {
      if !inDocument {
        return;
      }
      var key := data.from + "/" + data.to;
      var dirDown := data.change == Some(-1);
      items := [RateItem(key, Round(data.rate, 2), dirDown)] + items;
    }

    /** `refreshExchangeRates(data)`. */
    method Refresh(data: RateChange)
      modifies this
      ensures inDocument == old(inDocument)
      ensures items == Refreshed(old(items), old(inDocument), data)
    {
      var key := data.from + "/" + data.to;
      var deleted := DeleteItem(key);
      if !deleted {
        var count := Count();
        if count >= 12 {
          deleted := DeleteItemLast();
        }
      }
      PrependItem(data);
    }
  }
}
