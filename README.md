# FIFO lot booking of the process-transactions script, in Dafny

This project models the core of a script that turns a broker or registrar
ledger into a lot-by-lot profit sheet.

The ledger rows are grouped per instrument by stripped name, in order of
first appearance. Rows with an empty or zero quantity are passed over. The
rows of each instrument are split into buys and sells:

- the base format decides by the sign of the quantity;
- the Zerodha format reads a side column and first sums each maximal run of
  equal side, date and price into the run's first row, in place.

Every buy row seeds one open BUY record. Every sell row then books its
absolute quantity against the oldest open records, first in, first out. An
open record that is larger than what is left to sell is split: the record
becomes the sold slice, and a fresh BUY record holding the rest is inserted
right after it. Finally the records of all instruments are stable-sorted by
(buy date, name) and written under a 7-column header to a sheet named after
the asset type.

The project keeps the form of the Python code:

- `Transaction` and `TransactionRow` are classes with mutable fields and
  setters.
- The booking loop, the run passes, the grouping loop and the output loops
  are methods over sequences of those objects, proved against value-level
  functions:
  - `Booking.BookFrom` follows the scan of `_book_transactions`; `Booking.Consume` is an
    independent FIFO reference;
  - `Runs.Merge` and `Runs.Starts` describe the run aggregation;
  - `TransactionService.Grouped` describes the grouping;
  - `Ordering.SortBy` is the reference stable insertion sort.
- Lemmas prove the promised properties of those functions.

Files:

- common.dfy holds the shared vocabulary.
- transaction.dfy and transaction_row.dfy hold the two record classes.
- booking.dfy is the value-level booking engine.
- runs.dfy holds the generic run aggregation.
- ordering.dfy holds the output order.
- transaction_service.dfy models `services/TransactionService.py`.
- zerodha_service.dfy models `services/ZerodhaService.py`.
- pipeline.dfy holds `execute`, end to end, for both formats.

## Model

| member | source | states |
|---|---|---|
| TransactionModel.Transaction.constructor | models/Transaction.py:28-44 | every field is stored as given; sell date and sell price default to absent |
| TransactionModel.Transaction.SetBuySell | models/Transaction.py:54-56 | writes the side and, by its frame, no other field |
| TransactionModel.Transaction.SetQty | models/Transaction.py:62-64 | writes the quantity and no other field |
| TransactionModel.Transaction.SetSellDate | models/Transaction.py:78-80 | writes the sell date and no other field |
| TransactionModel.Transaction.SetSellPrice | models/Transaction.py:86-88 | writes the sell price and no other field |
| TransactionModel.Transaction.ToTuple | models/Transaction.py:90-100 | exactly 7 cells: name, side value, quantity, buy date, buy price, sell date, sell price; a sell cell is empty text exactly when its value is absent |
| TransactionRowModel.TransactionRow.constructor | models/TransactionRow.py:24-34 | quantity, date and price are stored verbatim; the side defaults to absent |
| TransactionRowModel.TransactionRow.SetQty | models/TransactionRow.py:44-46 | the quantity is the only field written; the side, date and price are constants |
| Common.SideValue | models/Transaction.py:94 | the side's sheet value is "BUY" exactly for BUY and "SELL" exactly for SELL |
| TransactionService.StripCuts | services/TransactionService.py:92 | the stripped name is a contiguous piece of the cell with only white space cut on either side, and it neither starts nor ends with white space |
| TransactionService.StripIdempotent | services/TransactionService.py:92 | stripping a stripped name changes nothing |
| TransactionService.DataRows | services/TransactionService.py:88 | the rows from `first_row` on, none when the ledger is shorter, each at its original position |
| TransactionService.RowOf | services/TransactionService.py:94-98 | a kept row's value carries the cell's non-zero quantity, its date and price, and a side only in the side-aware format |
| TransactionService.GroupStepAt | services/TransactionService.py:89-103 | one row is passed over when its quantity is empty or zero; otherwise it is appended to its stripped name's list or starts a new one |
| TransactionService.GroupedIsPartition | services/TransactionService.py:86-105 | the names are distinct and are exactly those with kept rows; each name's list is exactly its kept rows, in input order |
| TransactionService.GroupedFirstAppearance | services/TransactionService.py:86-105 | a name is grouped exactly when some kept row carries it, and the names are listed in increasing order of their first kept rows |
| TransactionService.CreateTxnRowMap | services/TransactionService.py:83-105 | fails exactly when the side-aware format meets a kept row without a valid side; otherwise returns the grouping as fresh, unshared row objects whose values are that name's kept rows, names in order of first appearance |
| TransactionService.SignIndicesMembers | services/TransactionService.py:142-144 | the positions selected for a side increase, and a position is selected exactly when its row has that side's sign |
| TransactionService.SelectBySign | services/TransactionService.py:137-161 | the very row objects at the positions of the side's sign, in order; nothing is changed |
| TransactionService.GetBuyTxns | services/TransactionService.py:137-148 | the row objects with positive quantity, in their order |
| TransactionService.GetSellTxns | services/TransactionService.py:150-161 | the row objects with negative quantity, in their order |
| TransactionService.PickSignIndices | services/TransactionService.py:142-144 | the rows at the selected positions are the reference subsequence of rows on that side |
| TransactionService.SignPartition | services/TransactionService.py:137-161 | no row is both a buy and a sell, and every row with a non-zero quantity is one of the two |
| TransactionService.SignTotals | services/TransactionService.py:137-161 | the buys' total plus the sells' signed total is the total of all rows; the sells' absolute total, which booking consumes, is minus their signed total |
| TransactionService.BookWhole | services/TransactionService.py:175-178 | the record becomes SELL with the sell's date and price and keeps its quantity; no other record changes |
| TransactionService.BookPart | services/TransactionService.py:189-195 | the record becomes the SELL slice of the quantity still to sell; no other record changes |
| TransactionService.InsertAfter | services/TransactionService.py:198-207 | inserting a record not yet in the list at `index + 1` keeps the objects distinct, and its value lands at that position with every other value kept in order |
| TransactionService.SplitAt | services/TransactionService.py:188-210 | the split yields exactly what the reference scan yields at a split: the sold slice, then a fresh BUY remainder with the same name, buy date and buy price |
| TransactionService.BookSellRow | services/TransactionService.py:166-210 | one sell row booked in place: the resulting record values are the scan `Booking.BookSell` of the old values; objects stay distinct and are old or fresh |
| TransactionService.BookTransactions | services/TransactionService.py:163-210 | all sell rows booked in order: the record values become `Booking.BookAll` of the old values and the sell rows |
| TransactionService.SeedRecords | services/TransactionService.py:117-127 | one fresh BUY record per buy row, in order |
| TransactionService.ProcessTransactions | services/TransactionService.py:107-135 | the fresh records of one instrument are its seeded records with its sells booked against them |
| TransactionService.PrintSummary | services/TransactionService.py:212-224 | the record count, the quantity held (BUY) and the quantity booked (SELL) |
| TransactionService.CreateList | services/TransactionService.py:226-246 | the 7-column header, then exactly one 7-cell row per record, in order |
| TransactionService.SheetName | services/TransactionService.py:248-254 | "MF Data" exactly for mutual funds, "Stock Data" exactly for stocks |
| TransactionService.SortTransactions | services/TransactionService.py:67-69 | ordered by (buy date, name), the same records each as often, records sharing a key in input order |
| Ordering.StrLessTransitive | services/TransactionService.py:68 | Python's string order, used for the name component of the key, is transitive |
| Ordering.StrLessTotal | services/TransactionService.py:68 | any two different strings are ordered one way or the other |
| Ordering.SortSorted | services/TransactionService.py:67-69 | the reference sort's result is ordered by key |
| Ordering.SortPermutation | services/TransactionService.py:67-69 | the reference sort's result holds the same elements, each as often |
| Ordering.SortStable | services/TransactionService.py:67-69 | elements sharing a key keep their relative order |
| Ordering.SortedUnique | services/TransactionService.py:67-69 | two key-ordered sequences that agree, key by key, on their elements in order are equal |
| Ordering.StableSortIsSortBy | services/TransactionService.py:67-69 | any stable sort by the key, Python's `sorted` included, produces exactly the reference sort's order |
| Booking.Seed | services/TransactionService.py:117-127 | one BUY record per buy row, in order, with its quantity, date and price and no sell leg |
| Booking.ScanIsConsume | services/TransactionService.py:169-210 | from the first open record on, the in-place scan is the reference FIFO consumption of the open records |
| Booking.BookSellIsFifo | services/TransactionService.py:166-210 | on a SELL prefix followed by open records, a sell leaves the prefix alone and consumes the open records oldest first |
| Booking.BookSellSplit | services/TransactionService.py:166-210 | on any list of the invariant shape, booking a sell is FIFO consumption after the SELL prefix |
| Booking.SplitIntegrity | services/TransactionService.py:188-210 | a partial fill turns the record into a SELL slice of the remaining quantity, inserts a BUY remainder of quantity Q−r with the same name, buy date and buy price right after it, and stops |
| Booking.FullConsumption | services/TransactionService.py:175-185 | a full fill keeps the quantity, marks the record SELL with the sell's date and price, and goes on with r−Q unless that is exactly zero |
| Booking.BookSellShape | services/TransactionService.py:169-172 | a sell keeps the SELL-prefix/BUY-suffix shape and never touches the records already SELL |
| Booking.BookAllShape | services/TransactionService.py:166-210 | after every sell the list is a run of SELL records followed by a run of BUY records, and a record is BUY exactly when it has no sell date or price |
| Booking.ConsumeTotal | services/TransactionService.py:175-210 | FIFO consumption never changes the total quantity |
| Booking.BookFromTotal | services/TransactionService.py:166-210 | the in-place scan never changes the total quantity; a split only divides a record's quantity |
| Booking.BookAllTotal | services/TransactionService.py:163-210 | booking all sells never changes the total quantity |
| Booking.BookSellBooked | services/TransactionService.py:166-210 | each sell adds min(its absolute quantity, the quantity held) to the booked quantity; the excess is dropped |
| Booking.BookAllBooked | services/TransactionService.py:163-210 | the quantity booked is min(booked before plus all sells, the total quantity) |
| Booking.HeldPlusBooked | services/TransactionService.py:216-220 | held plus booked, as the summary adds them up, is the total quantity |
| Booking.ProcessSummary | services/TransactionService.py:107-135 | for positive buys, one instrument's records hold exactly the bought quantity, of which min(sold, bought) is booked and the rest held, in the invariant shape, all under the instrument's name |
| Booking.ProcessPositive | services/TransactionService.py:107-135 | with positive buys and non-zero sells, every record has a positive quantity |
| Runs.MergeClosedForm | services/ZerodhaService.py:81-103 | position by position, a pass gives a run start the sum of its run and leaves every other quantity as it was |
| Runs.PassTotal | services/ZerodhaService.py:81-103 | the run starts together hold the quantity of all rows not stepped over |
| Runs.MergeCommute | services/ZerodhaService.py:81-137 | two passes that skip complementary rows of side-homogeneous runs commute |
| ZerodhaService.RowRun | services/ZerodhaService.py:86-96 | the inner scan stops at the end of the maximal run of equal side, date and price and returns the sum of its quantities |
| ZerodhaService.SumRunInto | services/ZerodhaService.py:86-101 | the guard `i != j + 1` always holds, so the run start always receives its run's sum; the scan resumes at the run's end |
| ZerodhaService.PassRuns | services/ZerodhaService.py:80-105 | the loop of a pass leaves the quantities as `Runs.Merge` gives them and collects the run-start objects at `Runs.Starts` |
| ZerodhaService.CollectRuns | services/ZerodhaService.py:75-141 | one pass in place: the row values become `PassState` of the old values and the result is the very run-start row objects |
| ZerodhaService.GetBuyTxns | services/ZerodhaService.py:75-107 | the buy pass: SELL rows stepped over, each BUY run summed into its first row, the first rows returned |
| ZerodhaService.GetSellTxns | services/ZerodhaService.py:109-141 | the sell pass: BUY rows stepped over, each SELL run summed into its first row, the first rows returned |
| ZerodhaService.PassClosedForm | services/ZerodhaService.py:81-103 | a run start is a row not on the other side, heading a maximal stretch of equal side, date and price, and gets that stretch's sum; every other row is untouched |
| ZerodhaService.PassLeavesSkipped | services/ZerodhaService.py:82-84 | a row on the other side keeps its quantity |
| ZerodhaService.PassHomogeneous | services/ZerodhaService.py:91 | runs never mix sides: equal keys are always skipped alike |
| ZerodhaService.PassConserves | services/ZerodhaService.py:81-103 | the rows a pass returns hold exactly the quantity of the rows it does not step over, and there are no more of them than such rows |
| ZerodhaService.PassesCommute | services/ZerodhaService.py:75-141 | with every row sided, the buy and sell passes rewrite disjoint rows: either order gives the same rows and the same run starts |
| ZerodhaService.SecondPassResult | services/ZerodhaService.py:75-141 | after one pass, the other pass returns what it would have returned on the original rows and leaves the first pass's results as they were |
| ZerodhaService.CompressRuns | services/ZerodhaService.py:148-167 | the compression loop leaves the quantities as `Runs.Merge` over (buy date, buy price) gives them |
| ZerodhaService.CompressBuyTransactions | services/ZerodhaService.py:143-169 | in place, the record values become `CompressState` of the old values; the result is the very run-start record objects |
| ZerodhaService.CompressConserves | services/ZerodhaService.py:143-169 | the records compression returns hold the total quantity of the input, and there are no more of them than input records |
| ZerodhaService.CompressClosedForm | services/ZerodhaService.py:149-167 | a run start gets the sum of the maximal stretch of records sharing its buy date and buy price, whatever their names or sides; every other record is untouched |
| Pipeline.ClassifySided | services/ZerodhaService.py:75-141 | the buy pass and then the sell pass on the same row objects return the rows `PassResult` gives for each side on the original values, and leave the rows as the buy pass followed by the sell pass rewrites them |
| Pipeline.ClassifyBySign | services/TransactionService.py:61-62 | the sign-based buys and sells, as row values |
| Pipeline.ProcessInstrument | services/TransactionService.py:59-64 | one iteration of the loop of `execute`: fresh, distinct records whose values are the instrument's reference records; the side-aware format leaves the rows rewritten by both passes, the sign-based formats leave them unchanged |
| Pipeline.ProcessNext | services/TransactionService.py:59-64 | one instrument processed: its records are the reference records, its rows are left settled (rewritten by both passes in the side-aware format, unchanged otherwise), and every other instrument's rows are left as they were |
| Pipeline.ProcessTurn | services/TransactionService.py:59-64 | one turn of the loop: the collected records grow by the next instrument's, and one more instrument's rows are settled |
| Pipeline.ProcessAll | services/TransactionService.py:58-64 | the records of all instruments, in order of first appearance, and every instrument's rows settled: rewritten by the buy pass and then the sell pass in the side-aware format, unchanged in the sign-based formats |
| Pipeline.Execute | services/TransactionService.py:50-78 | aborts exactly when the reference outcome does; otherwise the sorted records are the reference outcome, the table is header plus one row per sorted record, and the sheet name is the asset type's |
| Pipeline.OutcomeAborts | services/ZerodhaService.py:55-62 | a run aborts exactly when the format has a side column and a kept data row lacks a valid side |
| Pipeline.OutcomeSummary | services/TransactionService.py:50-78 | the written records are ordered by (buy date, name), are the records of all instruments each as often, keep the order of records sharing a key, and carry exactly the quantity bought |

## Left out

- Reading and writing the workbook (`utils/files.py`) is file I/O and is not part of this model. Rows arrive as typed values; `execute` returns the sheet rows and the sheet name instead of writing them.
- Cell parsing is not modelled: `Decimal(str(...))`, `to_datetime` and `TransactionType(....upper())` are foreign parsing. A quantity is `Option<real>`, a date an ordered `int`, and a side cell that is neither BUY nor SELL arrives as an absent side. The `ValueError` that `TransactionType(...)` then raises is modelled as `ok == false`.
- `utils/dates.py` is not part of this model. Dates are opaque ordered values, so `to_datestring` formatting is not modelled.
- `Transaction.ToTuple`: cells carry the typed quantity, price and date. The strings `str()` and `to_datestring` would make of them are not modelled.
- `enums/TransactionType.py` is not part of this model. Its values are taken to be "BUY" and "SELL".
- Logging, and the tabulate printing of `_create_list`, are side effects without behavioural content. `PrintSummary` returns what `_print_summary` logs.
- `main.py` (the command line) and `services/CamsService.py` / `services/KfintechService.py` are not part of this model. They are configuration. A service is modelled by `Pipeline.Config`: first row, asset type, and whether there is a side column. `Pipeline.ZerodhaConfig` holds the Zerodha constants.
- The output file name and the clock it reads are not modelled.
- `TransactionService.SheetName`: the "Sheet1" branch is unreachable because the asset type has only two members.
- `ZerodhaService.CompressBuyTransactions` is modelled on its own. `execute` never calls it.
- The ordering of `Pipeline.ProcessAll` follows the insertion order of Python's dict, which is the order of first appearance.
- Sign-based sell rows keep their negative quantity; `TransactionService.BookSellRow` takes `Abs` of it at the start of each sell, as `_book_transactions` takes `abs`.
- In the side-aware format, `ZerodhaService.GetBuyTxns` and `ZerodhaService.GetSellTxns` rewrite the quantities of the row objects in place, and `Pipeline.ClassifySided` states the rows they leave.
- `Booking.ProcessSummary` requires positive buy quantities. The sign-based buys are positive by construction. For the side-aware format, positivity of the ledger's quantities is not modelled, so the statement is not made there.
- Quantities and prices are exact `real` values. Python's `Decimal` rounds each arithmetic result to 28 significant digits in its default context; that rounding is not modelled.
- Floating point, concurrency and aliasing between different services' lists do not arise in this core.
