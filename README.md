# crm-coin front-end logic in Dafny

This project models the computational core of the crm-coin banking front end
and proves properties about it. The front end is a browser application. It
shows accounts, their transaction history, balance charts, currency exchange
and a live exchange-rate feed.

The model covers the parts that compute rather than draw:

- **`getMonthsTransactionsData`** (`months_transactions.dfy`). This is the
  monthly aggregator behind the balance charts.
  - It builds one bucket per month, going back from the current month.
  - It walks the account's transactions from newest to oldest, undoing each one
    to rebuild earlier balances.
  - For each month it records the start, minimum and maximum balance, the
    inflow and outflow sums and counts, and the split of the maximum balance
    between inflow and outflow.
  - The routine is modelled twice: as the function `MonthsData`, and as the
    methods `GetMonthsTransactionsData`, `InitBuckets`, `WalkTransactions`,
    `ProcessTransaction`, `MoveCursor`,
    `UndoTransaction` and `SplitMaxParts`. The methods run the source's loops
    step by step and are proved equal to the function.
  - The properties are proved about the function: bucket shape, every bucket
    seeded with `balanceMin <= balanceStart <= balanceMax`, carry-over between
    months, each month's minimum and maximum as the extremes of the balances
    it held, and the inflow/outflow parts as proportional shares of the
    maximum.
- **The utilities** (`utilities.dfy`):
  - month captions;
  - `round`, with `Math.round` taken as floor(x + 1/2);
  - `isEmpty`;
  - the negative-index `slice` paging of `getArrayPage`, and
    `getArrayPagesCount`.
- **Element logic** (`elements.dfy`):
  - the next page and the `disabled` flags of the pagination control;
  - the page size and pagination decision of the transaction history table,
    and the order of its rows;
  - the live exchange-rate list. This is a class whose entry sequence is
    changed in place by `refreshExchangeRates` and its helpers.
- **Handler decisions** (`handlers.dfy`):
  - the ordered, first-failure-wins `validate()` checks of the transfer and
    exchange forms;
  - the warning that stops a handler before any request;
  - the login guard of the two account navigation handlers.

## Modelling choices

- Money is `real`, so arithmetic is exact.
- `round(num, cnt)` is `floor(num * 10^max(cnt, 0) + 1/2) / 10^max(cnt, 0)`.
- Every balance computation uses two digits. It is written `RoundToCents`, and
  `RoundToCentsIsRound` proves it equal to `Round(x, 2)`.
- The clock and date parsing are inputs:
  - `currentMonth` stands for `new Date().getMonth()`;
  - each transaction carries the month its date parses to, or `None` when the
    date does not parse (`getMonth()` is then `NaN` and matches no bucket).
- Buckets are matched by month number only, not by year, as in the source.
- Form inputs arrive already read:
  - an id or currency is a string, and the empty string stands for a missing
    (falsy) value;
  - an amount is what `parseFloat` gives, with `None` for `NaN`.
- `isLoggedOn()` is a boolean parameter. `router.navigate(path)` becomes the
  returned path.
- The rate list's `inDocument` flag records whether `#block-rates` is attached
  to the page. The helpers look the list up through `document`, so they find
  nothing while it is detached. `getExchangeRatesCount` counts the element's
  children either way.

Two behaviours of the aggregator at its edges:

- For `monthsCount < 1` the routine returns an empty list, because its loops
  do not run. `MonthsData` returns `Max0(monthsCount)` buckets.
- The final, date-less step of the outer loop moves the cursor to the end and
  seeds every bucket it passes with the running balance, so every returned
  bucket is seeded, including months older than the oldest transaction
  (`MonthsDataShape`, `NoTransactionsSeedsAll`).

## Model

| member | source | states |
|---|---|---|
| Utilities.MonthCaption | project/src/js/utilities.js:1-23 | A caption exists exactly for ids 0..11, and it is a three-letter entry of `MONTHS` |
| Utilities.MonthCaptionsDistinct | project/src/js/utilities.js:1-14 | Different months have different captions |
| Utilities.Scale | project/src/js/utilities.js:121 | The multiplier is at least 1, and exactly 1 for a zero or negative digit count |
| Utilities.Round | project/src/js/utilities.js:120-123 | `round(num, cnt)`: `num` times `10^max(cnt, 0)`, rounded half up, divided back; its properties are the lemmas below |
| Utilities.RoundBounds | project/src/js/utilities.js:120-123 | `round(num, cnt)` lies within half a step of `num`, and a tie goes up |
| Utilities.RoundNegativeDigits | project/src/js/utilities.js:121 | A negative digit count rounds like zero digits |
| Utilities.RoundIdempotent | project/src/js/utilities.js:120-123 | Rounding an already rounded value changes nothing |
| Utilities.RoundHalfUp | project/src/js/utilities.js:122 | Halves round toward +infinity, negative numbers included: n - 1/2 goes to n and n + 1/2 to n + 1 |
| Utilities.RoundToCentsIsRound | project/src/js/utilities.js:120-123 | The two-digit rounding used by the balance code is `round(x, 2)` |
| Utilities.RoundToCents | project/src/js/utilities.js:120-123 | Two-digit rounding moves a value by at most half a cent |
| Utilities.RoundCents | project/src/js/utilities.js:120-123 | Two-digit rounding gives whole cents, within half a cent of the input |
| Utilities.CentsRoundFixed | project/src/js/utilities.js:120-123 | Two-digit rounding leaves whole cents unchanged |
| Utilities.CentsClosed | project/src/js/utilities.js:120-123 | Sums and differences of whole cents are whole cents, so repeated rounding loses nothing |
| Utilities.IsEmpty | project/src/js/utilities.js:129-134 | The object is reported empty exactly when it has no key |
| Utilities.SliceIndex | project/src/js/utilities.js:136-144 | A `slice` bound in range is kept, a negative one counts from the end, and the result is clamped to the array |
| Utilities.Slice | project/src/js/utilities.js:136-144 | A slice is never longer than the array |
| Utilities.GetArrayPage | project/src/js/utilities.js:136-144 | A page is never longer than the array; which window it is, is stated by `PageWindow` |
| Utilities.PageWindow | project/src/js/utilities.js:136-144 | For count >= 1 and page >= 1, page `page` is `arr[max(len - count*page, 0) .. max(len - count*(page-1), 0)]`, the `count` entries ending `count*(page-1)` from the end |
| Utilities.GetArrayPagesCount | project/src/js/utilities.js:146-148 | `Math.ceil(len / count)`, written as the negated floor of `-len / count`; `CeilSteps` and `PagesCountBounds` state what it is |
| Utilities.CeilSteps | project/src/js/utilities.js:146-148 | The page count is the negated floor of -len/count, that is, the ceiling of len/count |
| Utilities.PagesCountBounds | project/src/js/utilities.js:146-148 | The page count is the least non-negative `p` with `len <= count*p` |
| Utilities.FirstPageIsNewest | project/src/js/utilities.js:136-144 | Page 1 is the newest `min(count, len)` entries |
| Utilities.PageLength | project/src/js/utilities.js:136-148 | A page holds at most `count` entries, and every page past the last is empty |
| Utilities.PagesConcatSuffix | project/src/js/utilities.js:136-144 | Pages p down to 1, concatenated, are the last `count*p` entries (or the whole array) |
| Utilities.PagesRebuildArray | project/src/js/utilities.js:136-148 | The pages from `getArrayPagesCount` down to 1, concatenated, rebuild the array exactly |
| MonthsTransactions.MonthIdAt | project/src/js/utilities.js:33-34 | For a current month in 0..11, bucket `i` (i <= currentMonth + 12) gets month `(currentMonth - i) mod 12`, and further back the id is negative |
| MonthsTransactions.InitBucket | project/src/js/utilities.js:32-52 | Bucket `i` is `i` months back with month id `MonthIdAt`; bucket 0 has start, minimum and maximum equal to the balance, every other bucket is unset; sums and counts are 0 |
| MonthsTransactions.InitData | project/src/js/utilities.js:32-53 | `monthsCount` buckets; bucket k is k months back with its month id and caption and zero parts; only bucket 0 is seeded with the balance; the rest are untouched |
| MonthsTransactions.StepCursor | project/src/js/utilities.js:65-70 | One turn of the inner `while` moves the cursor by one; the bucket it lands on, if any, is seeded with the running balance, and every other bucket is unchanged |
| MonthsTransactions.Seed | project/src/js/utilities.js:66-70 | A seeded bucket has start, minimum and maximum all equal to the running balance, and keeps its header, sums and counts |
| MonthsTransactions.Matches | project/src/js/utilities.js:64 | A missing or unparseable date matches no bucket |
| MonthsTransactions.Advance | project/src/js/utilities.js:64-71 | The cursor never moves back; it stops at the first bucket from the cursor on whose month matches, or at the end; no bucket in between matches; the buckets behind the cursor are unchanged; headers never change |
| MonthsTransactions.AdvanceWrites | project/src/js/utilities.js:64-71 | For any month sought, every bucket the inner `while` steps onto, up to the one it stops at, becomes `Seed(bucket, running balance)`; the buckets after the stop are unchanged |
| MonthsTransactions.Apply | project/src/js/utilities.js:77-98 | Undoing a transaction from the account adds its amount back and counts it as outflow; any other subtracts it and counts as inflow; the bucket's start becomes the rounded balance, its maximum the rounded larger of the old maximum and that balance, its minimum the rounded smaller; other buckets are unchanged |
| MonthsTransactions.WalkFrom | project/src/js/utilities.js:56-99 | The walk always ends with the cursor at `monthsCount`; buckets already behind the cursor are never changed again, and headers never change |
| MonthsTransactions.WithParts | project/src/js/utilities.js:101-111 | Only the two parts change; a bucket without flow is left as it is; with flow each part is whole cents within half a cent of `balanceMax * sumIn / (sumIn + sumOut)` (resp. `sumOut`) |
| MonthsTransactions.PartOfMax | project/src/js/utilities.js:105-108 | `round(max * (part / total), 2)` is whole cents within half a cent of the exact share |
| MonthsTransactions.UnmatchedEndsWalk | project/src/js/utilities.js:64-74 | A transaction whose month matches no bucket from the cursor on, an unparseable date included, ends the walk, so no older transaction is counted |
| MonthsTransactions.MonthsData | project/src/js/utilities.js:25-114 | The result has `monthsCount` buckets (none for a count below one) |
| MonthsTransactions.StepCursorKeeps | project/src/js/utilities.js:64-71 | Moving the cursor on keeps the walk invariant and the carry-over identity |
| MonthsTransactions.AdvanceKeeps | project/src/js/utilities.js:64-71 | The inner `while` keeps the walk invariant and the carry-over identity |
| MonthsTransactions.ApplyKeeps | project/src/js/utilities.js:77-98 | Undoing a transaction keeps every reached bucket seeded with whole-cent `balanceMin <= balanceStart <= balanceMax` |
| MonthsTransactions.ApplyDelta | project/src/js/utilities.js:77-91 | With a whole-cent amount, start minus outflow plus inflow of the bucket is unchanged by an undo |
| MonthsTransactions.ApplyConserves | project/src/js/utilities.js:77-91 | Undoing a whole-cent transaction keeps the carry-over identity of every reached bucket |
| MonthsTransactions.PartsAddUp | project/src/js/utilities.js:101-111 | The inflow and outflow shares of `balanceMax` add up to it within one cent |
| MonthsTransactions.WalkFromKeeps | project/src/js/utilities.js:56-99 | The whole walk keeps the invariant, and with whole-cent amounts the carry-over identity |
| MonthsTransactions.InitKeeps | project/src/js/utilities.js:28-53 | The initial buckets satisfy the walk invariant and the carry-over identity |
| MonthsTransactions.WalkSettles | project/src/js/utilities.js:56-99 | After the walk every bucket is seeded and settled, and with whole-cent amounts carry-over holds |
| MonthsTransactions.StepCursorTracks | project/src/js/utilities.js:65-70 | Seeding the bucket the cursor lands on records its balance as held there, and keeps each reached bucket's minimum and maximum among, and bounding, the balances it held |
| MonthsTransactions.AdvanceTracks | project/src/js/utilities.js:64-71 | The inner `while` keeps every reached bucket's minimum and maximum among, and bounding, the balances it held |
| MonthsTransactions.ApplyTracks | project/src/js/utilities.js:77-98 | Undoing a transaction records the new balance as held in the cursor bucket and keeps its minimum and maximum among, and bounding, the balances it held |
| MonthsTransactions.WalkFromTracks | project/src/js/utilities.js:56-99 | The whole walk keeps every reached bucket's minimum and maximum among, and bounding, the balances it held |
| MonthsTransactions.WalkTracks | project/src/js/utilities.js:28-99 | After the walk from the live balance, every bucket's minimum and maximum are balances it held and bound all of them |
| MonthsTransactions.MonthsDataShape | project/src/js/utilities.js:25-114 | Bucket k is k months back, with month id `currentMonth - k` (plus 12 if negative) and its caption, and has `balanceMin <= balanceStart <= balanceMax` |
| MonthsTransactions.MonthsDataAt | project/src/js/utilities.js:99-111 | Result bucket k is walked bucket k with only its parts filled in |
| MonthsTransactions.MonthsDataCarryOver | project/src/js/utilities.js:29-91 | With whole-cent amounts, month 0 starts at `round(balance, 2) + sumOut - sumIn`, and month k at month k-1's start `+ sumOut - sumIn` |
| MonthsTransactions.CarryOverAt | project/src/js/utilities.js:29-91 | With whole-cent amounts, one month's start is the next more recent month's start (or the rounded balance for month 0) plus its outflow minus its inflow |
| MonthsTransactions.MonthsDataParts | project/src/js/utilities.js:101-111 | A month without flow keeps both parts 0; otherwise each part is within half a cent of its proportional share of `balanceMax`, and the two add up to `balanceMax` within one cent |
| MonthsTransactions.PartsAt | project/src/js/utilities.js:101-111 | The split of one month's maximum, as `MonthsDataParts` states it for all months |
| MonthsTransactions.MonthsDataExtremes | project/src/js/utilities.js:63-98 | Each month's `balanceMax` is one of the balances the account had in that month (its seed, or a balance reached by undoing one of its transactions) and none of them is higher; `balanceMin` likewise from below |
| MonthsTransactions.ExtremesAt | project/src/js/utilities.js:63-98 | The same for one month |
| MonthsTransactions.AdvanceSeedsRest | project/src/js/utilities.js:64-71 | The date-less last step seeds every remaining bucket with the running balance |
| MonthsTransactions.NoTransactionsSeedsAll | project/src/js/utilities.js:25-114 | Without transactions, every bucket has start = min = max = the rounded balance and no flow |
| MonthsTransactions.OneIncomingTransfer | project/src/js/utilities.js:25-114 | Balance 1000 after one incoming 200 this month: start 800, min 800, max 1000, inflow 200 once, parts 1000 / 0 |
| MonthsTransactions.GetMonthsTransactionsData | project/src/js/utilities.js:25-114 | The loops compute `MonthsData`: bucket count, headers and settled balances |
| MonthsTransactions.InitBuckets | project/src/js/utilities.js:32-53 | The `push` loop builds the initial buckets |
| MonthsTransactions.WalkTransactions | project/src/js/utilities.js:56-99 | The outer `for` with its inner `while` computes the walk |
| MonthsTransactions.ProcessTransaction | project/src/js/utilities.js:63-98 | One turn of the outer `for` leaves the rest of the walk unchanged, and ends it exactly when the cursor has run off the end |
| MonthsTransactions.OuterStep | project/src/js/utilities.js:63-98 | Moving the cursor and then skipping or undoing transaction `i` is one step of the walk |
| MonthsTransactions.MoveCursor | project/src/js/utilities.js:64-71 | The inner `while`, with its in-place seeding, computes `Advance` |
| MonthsTransactions.UndoTransaction | project/src/js/utilities.js:77-98 | The in-place field updates perform one undo step |
| MonthsTransactions.SplitMaxParts | project/src/js/utilities.js:101-111 | The `forEach` fills in each bucket's parts |
| Elements.NextPage | project/src/js/createElements.js:98-108 | For a page in `[1, pagesCount]` the next page stays in range; first/back never move forward, forward/last never move back, back/forward move by at most one |
| Elements.ButtonDisabled | project/src/js/createElements.js:89-96 | On a page in range a button is disabled exactly when clicking it would reload the current page |
| Elements.BackUndoesForward | project/src/js/createElements.js:89-108 | Where forward (back) is enabled, back (forward) returns to the page it came from |
| Elements.PageSize | project/src/js/createElements.js:426 | The page size is at least 1 (25 on the full history page, 10 in the summary), so paging never divides by zero |
| Elements.RowOf | project/src/js/createElements.js:440-460 | A row keeps both accounts and the raw amount, and is outgoing (shown with "- " and critical styling) exactly when the transaction is from the account |
| Elements.RowsNewestFirst | project/src/js/createElements.js:436-465 | Prepending each row of the page in turn lists the page newest first |
| Elements.TransactionsHistory | project/src/js/createElements.js:424-434 | An empty history gives no rows and no control; the control appears exactly on the full-history view with more than 25 transactions, at the requested page and with the least page count covering the history |
| Elements.TransactionsHistoryRows | project/src/js/createElements.js:425-465 | At most a page of rows, running back from the newest transaction of the page; page 1 shows the newest `min(size, len)` |
| Elements.TransactionsHistoryRowCount | project/src/js/createElements.js:436-437 | Every page, not only the first, shows its whole window: `max(len - size*(page-1), 0) - max(len - size*page, 0)` rows |
| Elements.RateKey | project/src/js/createElements.js:808 | The key is `from`, a slash and `to`, and both parts can be read back |
| Elements.NewItem | project/src/js/createElements.js:808-819 | The new entry has the pair's key, shows `round(rate, 2)`, and is marked down exactly when `parseInt(change) === -1` |
| Elements.IndexOfKey | project/src/js/createElements.js:785-787 | The lookup finds the first entry with the key, or reports that there is none |
| Elements.RemoveAt | project/src/js/createElements.js:790 | Removing an entry keeps the others in order |
| Elements.Refreshed | project/src/js/createElements.js:822-830 | A detached list is unchanged; otherwise the new entry comes first |
| Elements.Survivors | project/src/js/createElements.js:826-828 | The deletions of a refresh remove exactly one entry when the key is present or the list holds 12 or more, and otherwise keep the list; without the key only a tail is dropped |
| Elements.RefreshedLength | project/src/js/createElements.js:822-830 | An existing pair keeps the length; a new pair grows the list unless it already holds 12 entries |
| Elements.RefreshedBounded | project/src/js/createElements.js:826-828 | A list of at most 12 entries stays at most 12 |
| Elements.RemoveAtNoDup | project/src/js/createElements.js:784-795 | Removing the entry of a key from a duplicate-free list leaves no entry with that key |
| Elements.SurvivorsNoDup | project/src/js/createElements.js:826-828 | After the deletions of a refresh, no entry has the refreshed key |
| Elements.RefreshedNoDup | project/src/js/createElements.js:822-830 | A duplicate-free list stays duplicate-free |
| Elements.RefreshedKeepsOrder | project/src/js/createElements.js:820-828 | The entries after the new one are the old entries in order with at most the one at `d` skipped, `d` being the pair's old entry, else the last entry of a list of 12 or more, else none |
| Elements.ExchangeRatesList.constructor | project/src/js/createElements.js:767 | The list starts empty |
| Elements.ExchangeRatesList.Count | project/src/js/createElements.js:781-783 | The count is the number of entries, attached or not |
| Elements.ExchangeRatesList.DeleteItem | project/src/js/createElements.js:784-795 | Reports a deletion exactly when the list is attached and holds the key, and then removes the first such entry; otherwise nothing changes |
| Elements.ExchangeRatesList.DeleteItemLast | project/src/js/createElements.js:796-804 | Reports a deletion exactly when the list is attached and non-empty, and then drops the last entry |
| Elements.ExchangeRatesList.PrependItem | project/src/js/createElements.js:805-821 | An attached list gets the new entry in front; a detached one is left alone |
| Elements.ExchangeRatesList.Refresh | project/src/js/createElements.js:822-830 | The list becomes `Refreshed` of its old entries |
| Handlers.FirstFailure | project/src/js/handlers.js:83-93 | A chain of checks succeeds exactly when every check passes, with an empty error; otherwise it reports the error of the first failing check |
| Handlers.AmountAccepted | project/src/js/handlers.js:88 | An amount is rejected exactly when it is `NaN`, zero, or not positive |
| Handlers.ValidateTransfer | project/src/js/handlers.js:83-93 | The error is empty exactly on success |
| Handlers.ValidateExchange | project/src/js/handlers.js:162-172 | The error is empty exactly on success |
| Handlers.TransferIsFirstFailure | project/src/js/handlers.js:83-93 | Transfer validation is the first-failure chain: missing source account, then missing target account, then an amount that is NaN, zero or negative |
| Handlers.ExchangeIsFirstFailure | project/src/js/handlers.js:162-172 | Exchange validation is the same chain over source currency, target currency and amount |
| Handlers.AfterValidation | project/src/js/handlers.js:94-98 | A failed check shows its error as a warning, and a request is made only after success |
| Handlers.TransferSentOnlyWhenValid | project/src/js/handlers.js:83-98 | A transfer is sent exactly when both accounts are chosen and the amount is positive |
| Handlers.ExchangeSentOnlyWhenValid | project/src/js/handlers.js:162-177 | An exchange is sent exactly when both currencies are chosen and the amount is positive |
| Handlers.OpenAccountPath | project/src/js/handlers.js:36-42 | Goes to `/login` exactly when logged out; otherwise to `/accounts/` followed by the id, which can be read back |
| Handlers.OpenAccountHistoryPath | project/src/js/handlers.js:68-74 | Goes to `/login` exactly when logged out; otherwise to the account's page followed by `/history` |
| Handlers.OpenAccountPathInjective | project/src/js/handlers.js:36-74 | Different accounts lead to different account and history pages |

## Left out

- DOM construction, event wiring, notifications and the redom, Chart.js and Yandex Maps code are UI with nothing to compute.
- Requests, authentication and routing (`requests.js`, `auth.js`, `routing.js`) are network, session storage and router I/O. `isLoggedOn()` enters as a boolean.
- `getPriceFormatted`, `println`, `toLocaleDateString` and the history table's date and amount formatting depend on `Intl` or the console. A row keeps the raw amount and an outgoing flag.
- `sortGridAccounts` and `validateInputs.js` are not part of this model.
- IEEE-754 doubles are not modelled. Amounts are exact reals, so the float error of repeated `+=` and of `Math.round` on products is absent.
- Date parsing and the clock are inputs, as described above. The source calls `new Date()` once per iteration of the bucket loop. The model uses one current month, so a month boundary passing during the loop is not captured.
- Matching by month number ignores the year, as in the source. While the cursor has not yet left a bucket, an older transaction with the same month number, for example one from exactly a year earlier, is counted in that bucket. The model reproduces this. It does not prove anything year-aware because transactions carry no year.
- `monthsCount` is an integer. A fractional count is not modelled.
- MonthsTransactions.MonthsDataCarryOver: requires every transaction amount to be whole cents. With other amounts the source's roundings of the running balance and of the sums can drift apart by up to a cent per step, so the exact identity does not hold.
- MonthsTransactions.WithParts: requires `balanceMax` to be set. The walk seeds every bucket before the split, which `WalkSettles` proves, so the `NaN` the source would compute from an unset maximum never arises.
- MonthsTransactions.SplitMaxParts: requires every bucket's `balanceMax` to be set, for the same reason.
- MonthsTransactions.WalkTransactions: requires bucket 0, when present, to be seeded, which `InitBuckets` guarantees.
- Utilities.GetArrayPagesCount: requires `count >= 1`. The callers pass 25 or 10. The source's division by zero (`Infinity`) is not modelled.
- Utilities.GetArrayPage: the `parseInt(-count * (page - 1) ?? '')` round trip is the identity on the integer pages and counts the callers pass, so it is modelled as the number itself.
- Elements.TransactionsHistory: loading the history when none is passed is I/O, so the history is an input. An `undefined` history behaves like an empty one.
- The page reload after a pagination click (`createBlockTransactionsHistory` and the DOM swap) is I/O. Only the chosen page is modelled.
- The rate entry's CSS classes are kept only as the `down` flag. The displayed value is `round(rate, 2)`.
- Handlers: everything after validation (the transfer and exchange requests, balance and table updates, field resets) is I/O and DOM work. Only the decision to warn or to proceed is modelled.
