# OnlineShop bill splitter, modelled in Dafny

OnlineShop splits an online grocery order among flatmates. The order-confirmation
e-mail is saved as text. `parse_receipt` extracts from it:

- the ordered items;
- the delivery date;
- the delivery cost;
- the voucher saving;
- a reconciled total.

`main` then asks, for every purchase with a non-zero price, who bought it. Each flatmate
named is charged one unit share (the price over the quantity). `divide_order_bill`
then sums every flatmate's shares.

The project models that core:

- `support.dfy` (module `Support`): `Option`, `Result` and the exact sum of a list of
  amounts (Python's `sum`). Includes the lemma that a sum does not depend on the order of
  its terms.
- `text.dfy` (module `Text`):
  - Python's whitespace class (`str.isspace`, shared by `\s` and `str.split()`);
  - ASCII digits and the value `int()` gives them;
  - `str.split()` with no argument, and its round trip with identifiers joined by spaces.
- `receipt.dfy` (module `Receipt`): `parse_receipt`.
  - The four regular expressions are written out as functions that follow Python's `re`
    engine: leftmost position first, a greedy `?` tries the longer alternative first, a
    lazy `+?` the shorter.
  - `re.findall` in MULTILINE mode gives at most one item per line, in text order.
  - The list is assembled with the synthetic delivery and voucher entries, and the total
    is computed.
  - A failed search is an error, as in the code (`.group` on `None` raises). So is a
    voucher text that `float()` refuses.
- `allocation.dfy` (module `Allocation`): the assignment loop of `main` and
  `divide_order_bill`.
  - The loop is the method `AllocateBaskets`, with the same nested loops over purchases
    and purchasers. It is proved equal to the fold `Allocate`, which takes for each
    purchase the purchaser list `split()` gives for its answer.
  - Every property of the baskets and of the final bill is proved about `Allocate`.

Money is exact (`real`). A parsed price is a whole number of pence divided by 100.

The code is read as Python 3.6 to 3.10 runs it on `str` text:

- `\s` and `str.split()` use the Unicode whitespace set of `str.isspace`. On Python 2
  byte strings both are ASCII-only.
- `float()` accepts `_` between digits, as in `1_23`. Python 3.6 added this.

The model follows the code in these details:

- A quantity of 0 is accepted by the item pattern. A priced item with quantity 0 then
  makes the loop fail with a division by zero (`Allocation.AllocError.ZeroQuantity`).
- The description is the captured text, not trimmed.
- A receipt without a `Voucher Saving` line is an error (`MissingVoucher`). It is not
  read as a zero voucher.
- The voucher pattern `-?\d\d?.\d\d` has an unescaped dot. Its separator is therefore
  any character except a newline, and `float()` then decides whether the text is a number.
- The total adds the delivery cost and the voucher a second time, on top of their entries
  in the list. `Receipt.TotalCountsExtrasTwice` states this.

## Model

| member | source | states |
|---|---|---|
| Text.Split | onlineshop/onlineshop.py:84 | every identifier `split()` returns is non-empty and free of whitespace |
| Text.SplitJoin | onlineshop/onlineshop.py:84 | identifiers typed with single spaces between them are split back into exactly those identifiers, in order |
| Text.SplitAtSpace | onlineshop/onlineshop.py:84 | a whitespace character separates: the text on each side of it is split independently and the results are concatenated |
| Text.SplitToken | onlineshop/onlineshop.py:84 | one identifier without whitespace is split into itself |
| Text.SplitBlank | onlineshop/onlineshop.py:84 | an answer gives no purchasers exactly when it is empty or whitespace only |
| Text.SplitKeepsNonSpace | onlineshop/onlineshop.py:84 | splitting loses exactly the whitespace: the identifiers put together are the answer with its whitespace removed |
| Text.IsSpace | onlineshop/onlineshop.py:46-84 | the whitespace of `\s` (the three searches at lines 46, 51 and 54) and of `split()` (line 84) includes space, tab, newline, carriage return, vertical tab and form feed, and is never a digit, an underscore or `£` |
| Text.DigitsValue | onlineshop/onlineshop.py:57-58 | `int()` of a string of n decimal digits is below 10^n |
| Text.DigitsValueAppend | onlineshop/onlineshop.py:57-58 | `int()` of two digit strings written one after the other is the first value shifted left by the length of the second, plus the second |
| Support.SumPermutation | onlineshop/onlineshop.py:95 | two lists of amounts holding the same amounts in any order have the same sum |
| Support.Sum | onlineshop/onlineshop.py:64 | Python's `sum`: the sum of a single amount is that amount (how sums split and reorder is in `SumConcat` and `SumPermutation`) |
| Receipt.PriceLen | onlineshop/onlineshop.py:44 | `\d\d?\.\d\d` matches at the start of a text exactly when a price text starts it; the match is a price text and the only prefix that is one |
| Receipt.DecimalValue | onlineshop/onlineshop.py:52 | `float()` of one or two digits, a point and two digits, times 100, is the number the digits spell with the point taken out; the value is between 0 and 99.99 and a whole number of pence |
| Receipt.PriceValue | onlineshop/onlineshop.py:57 | the value of a price text, times 100, is the number its digits spell with the point taken out; it is between 0 and 99.99 and a whole number of pence |
| Receipt.QuantityLen | onlineshop/onlineshop.py:44 | greedy `^\d\d?` takes the only number of leading digits (one or two) that a space can follow |
| Receipt.DescEnd | onlineshop/onlineshop.py:44 | lazy `.+?` stops at the first position, without crossing a newline, where ` £` and a price follow; none is skipped, and there is no match when no such position exists |
| Receipt.MatchItem | onlineshop/onlineshop.py:44 | a reported item is a match of the whole item pattern at the start of the line: 1-2 digit quantity, space, a non-empty description without a newline, space, `£`, a price text; the line starts with exactly those captured pieces in that order |
| Receipt.ItemAt | onlineshop/onlineshop.py:44 | the groups captured for a quantity and a description ending where ` £` and a price follow are well formed, a match of the item pattern, and spell out the start of the line |
| Receipt.MatchItemLazy | onlineshop/onlineshop.py:44 | no shorter description lets the pattern match: the description is the shortest possible |
| Receipt.MatchItemComplete | onlineshop/onlineshop.py:44 | whenever the pattern can match a line, an item is reported, with the forced quantity and a description no longer than any possible one |
| Receipt.LinesAppend | onlineshop/onlineshop.py:44 | the lines of two texts joined by a newline are the lines of the first followed by the lines of the second |
| Receipt.LinesOfLine | onlineshop/onlineshop.py:44 | a text without a newline is a single line |
| Receipt.FindItems | onlineshop/onlineshop.py:44 | every item `findall` reports is well formed |
| Receipt.FindItemsLines | onlineshop/onlineshop.py:44 | the items of two lines of text are those of the first line followed by those of the second (text order, at most one per line) |
| Receipt.FindItemsLine | onlineshop/onlineshop.py:44 | a single line yields its own item if it has one, and nothing otherwise |
| Receipt.FindItemsFirstLine | onlineshop/onlineshop.py:44 | a first line the item pattern matches contributes its match ahead of the items of the following lines |
| Receipt.FirstMatch | onlineshop/onlineshop.py:46 | `re.search`: the match found is at the leftmost position where the pattern matches, and no earlier position matches |
| Receipt.Search | onlineshop/onlineshop.py:46 | `re.search` gives a result exactly when some position matches, and the result is the pattern's match at the leftmost such position |
| Receipt.SearchFinds | onlineshop/onlineshop.py:46-55 | a search fails exactly when the pattern matches nowhere; otherwise it returns the match at the leftmost matching position |
| Receipt.SearchAt | onlineshop/onlineshop.py:46-55 | when the pattern matches at position j and at no earlier position, the search returns the match at j |
| Receipt.SearchPast | onlineshop/onlineshop.py:46-55 | a prefix of the text where the pattern matches at no position can be dropped without changing what the search finds |
| Receipt.DateRunLen | onlineshop/onlineshop.py:46 | greedy `[\w\d ]+` takes the whole run of letters, digits, underscores and spaces |
| Receipt.DeliveryDateAt | onlineshop/onlineshop.py:46-47 | `Delivery date\s([\w\d ]+)` matches exactly after `Delivery date`, a whitespace character and a date character, and captures the maximal run of date characters |
| Receipt.DeliveryCostAt | onlineshop/onlineshop.py:51-52 | `Delivery\s.(\d\d?\.\d\d)` matches exactly after `Delivery`, a whitespace character and one non-newline character followed by a price text; it captures that price text |
| Receipt.AmountLen | onlineshop/onlineshop.py:54 | `\d\d?.\d\d` takes five characters when it can and four otherwise: the match is an amount text and no longer prefix is one; there is no match when no prefix fits |
| Receipt.VoucherLen | onlineshop/onlineshop.py:54 | `-?\d\d?.\d\d` takes the longest prefix that is a voucher text, a leading minus sign included; there is no match when no prefix fits |
| Receipt.VoucherAt | onlineshop/onlineshop.py:54 | `Voucher Saving\s.(-?\d\d?.\d\d)` matches exactly after `Voucher Saving`, a whitespace character, a non-newline character and a voucher text, and captures the longest voucher text there |
| Receipt.AmountNumber | onlineshop/onlineshop.py:55 | `float()` accepts the amount exactly when the separator is `.`, `e`, `E`, `_` or a digit. With `.`, the value times 100 is the number the digits spell (at most 99.99, whole pence). With a digit it is the whole text read as an integer, with `_` the digits without it, with `e`/`E` the mantissa times ten to the exponent |
| Receipt.VoucherNumber | onlineshop/onlineshop.py:55 | `float()` accepts the voucher exactly when the unsigned part is accepted, i.e. its separator is `.`, `e`, `E`, `_` or a digit; the value is that of the unsigned part, negated under a minus sign; with `.` the value times 100 is plus or minus the number the digits spell, between -99.99 and 99.99 |
| Receipt.ToPurchase | onlineshop/onlineshop.py:57-58 | a converted item keeps the captured description, has a quantity of at most 99 and a price between 0 and 99.99 in whole pence |
| Receipt.AssemblePurchases | onlineshop/onlineshop.py:57-62 | the list is one converted purchase per item in order, then `Delivery costs` with quantity 1, then `Voucher savings` with quantity 1 exactly when the voucher is not zero |
| Receipt.Total | onlineshop/onlineshop.py:64-65 | the total is the sum of all listed prices plus the voucher and the delivery cost once more (that this counts both twice is `TotalCountsExtrasTwice`) |
| Receipt.SearchNone | onlineshop/onlineshop.py:46-55 | a search returns `None` exactly when the pattern matches at no position |
| Receipt.ParseReceiptSearchErrors | onlineshop/onlineshop.py:46-55 | the parse fails with each missing-field error exactly when that search returns `None` and the earlier searches succeed |
| Receipt.ParseReceiptErrors | onlineshop/onlineshop.py:46-55 | the parse fails with each missing-field error exactly when that pattern matches nowhere and the earlier ones match (date, then delivery cost, then voucher) |
| Receipt.ParseReceiptVoucherError | onlineshop/onlineshop.py:54-55 | the only other error is a first voucher match whose separator `float()` refuses, and it reports that text |
| Receipt.ParseReceipt | onlineshop/onlineshop.py:36-72 | a successful parse reports as delivery date the text the first date match captured; the full result is stated by `ParseReceiptValue`, the errors by `ParseReceiptErrors` |
| Receipt.ParseReceiptItems | onlineshop/onlineshop.py:57-58 | the list starts with one purchase per matched item line, in text order, with its description, `int` quantity and `float` price |
| Receipt.ParseReceiptExtras | onlineshop/onlineshop.py:60-62 | after the items comes `Delivery costs` with quantity 1 and the value of the first delivery-cost match; the list has one more entry exactly when the voucher is not zero, and that entry is `Voucher savings` with quantity 1 and the voucher value |
| Receipt.PricesOfAssembly | onlineshop/onlineshop.py:57-64 | the prices of the list are the item prices, then the delivery cost, then the voucher when it is not zero |
| Receipt.TotalCountsExtrasTwice | onlineshop/onlineshop.py:64-65 | the total is the item prices plus twice the delivery cost plus twice the voucher |
| Receipt.ParseReceiptValue | onlineshop/onlineshop.py:36-72 | a successful parse returns the first date match and a total and list built from the item matches and the first delivery-cost and voucher matches |
| Receipt.ParseReceiptFound | onlineshop/onlineshop.py:36-72 | when the three searches succeed and `float()` accepts the voucher text, the result is built from the item matches and those three matches |
| Receipt.ParseReceiptTotal | onlineshop/onlineshop.py:64-69 | the reported total is the item prices plus twice the delivery entry plus twice the voucher entry when there is one |
| Receipt.ExampleDescriptionEnd | onlineshop/onlineshop.py:44 | on `2 Bananas £1.00` the lazy description stops at the first ` £` followed by a price |
| Receipt.ExampleItemLine | onlineshop/onlineshop.py:44 | `2 Bananas £1.00` gives quantity `2`, description `Bananas`, price `1.00` |
| Receipt.ExampleZeroQuantity | onlineshop/onlineshop.py:44 | a line with quantity `0` is matched |
| Receipt.ExampleLazyDescription | onlineshop/onlineshop.py:44 | `1 A £1.00 £2.00` gives description `A` and price `1.00` |
| Receipt.ExampleVoucherSeparator | onlineshop/onlineshop.py:54 | `Voucher Saving £1234` captures `1234`: the unescaped dot matches a digit |
| Receipt.ExampleVoucherWhole | onlineshop/onlineshop.py:55 | `float()` reads `1234` as 1234 and refuses `1x23` |
| Receipt.ExampleVoucherNegative | onlineshop/onlineshop.py:55 | `float()` reads `-1.50` as -1.5 |
| Receipt.ExampleDateLineMatch | onlineshop/onlineshop.py:46 | the date pattern on `Delivery date Monday 12 March` followed by a newline captures `Monday 12 March`, the spaces included |
| Receipt.ExampleDateSearch | onlineshop/onlineshop.py:46-47 | on the example receipt the date search finds `Monday 12 March` |
| Receipt.ExampleDateLineNoCost | onlineshop/onlineshop.py:51 | the delivery-cost pattern does not match at the start of the date line |
| Receipt.ExampleCostLineMatch | onlineshop/onlineshop.py:51 | the delivery-cost pattern on `Delivery £3.00` followed by a newline captures `3.00` |
| Receipt.ExampleCostSearch | onlineshop/onlineshop.py:51-52 | on the example receipt the delivery-cost search skips the date line and finds `3.00` |
| Receipt.ExampleVoucherLineMatch | onlineshop/onlineshop.py:54 | the voucher pattern on `Voucher Saving £-1.00` captures `-1.00` |
| Receipt.ExampleVoucherSearch | onlineshop/onlineshop.py:54 | on the example receipt the voucher search finds `-1.00` |
| Receipt.ExampleVoucherValue | onlineshop/onlineshop.py:55 | `float()` reads `-1.00` as -1.0 |
| Receipt.ExampleBreadLine | onlineshop/onlineshop.py:44 | `1 Bread £2.00` gives quantity `1`, description `Bread`, price `2.00` |
| Receipt.ExampleNoTrailingItems | onlineshop/onlineshop.py:44 | the date, delivery-cost and voucher lines give no items |
| Receipt.ExampleReceiptItems | onlineshop/onlineshop.py:44 | `findall` over the example receipt reports the bananas and the bread, in that order, and nothing else |
| Receipt.ExamplePriceValues | onlineshop/onlineshop.py:57 | `float()` reads `1.00`, `2.00` and `3.00` as 1.0, 2.0 and 3.0 |
| Receipt.ExampleReconciled | onlineshop/onlineshop.py:57-65 | two item lines, a 3.00 delivery cost and a -1.00 voucher give the four-entry list with total 7.00 |
| Receipt.ExampleReceiptParsed | onlineshop/onlineshop.py:36-72 | the whole example receipt parses to delivery date `Monday 12 March` (a text that `strptime` with `%A %d %B` at line 49 accepts), total 7.00 and the four purchases bananas, bread, delivery costs and voucher savings |
| Allocation.Record | onlineshop/onlineshop.py:123-126 | recording a share for a flatmate gives them a basket, appends the share to it and leaves every other basket unchanged |
| Allocation.RecordAll | onlineshop/onlineshop.py:122-126 | recording a share for a list of purchasers leaves the basket of everyone not listed unchanged |
| Allocation.RecordAllKeys | onlineshop/onlineshop.py:122-126 | after one purchase, the flatmates with a basket are those who had one plus those just listed |
| Allocation.RecordAllBasket | onlineshop/onlineshop.py:122-126 | after one purchase, each flatmate's basket is the old one followed by the unit share once per time they were listed |
| Allocation.Step | onlineshop/onlineshop.py:116-126 | one purchase fails exactly when its price is not zero and its quantity is 0, with that purchase's description; a price of 0 leaves the baskets as they were |
| Allocation.Allocate | onlineshop/onlineshop.py:114-126 | when the loop fails, it fails on the first purchase with a non-zero price and quantity 0, every earlier purchase being allocated, and reports that purchase's description |
| Allocation.AllocateBaskets | onlineshop/onlineshop.py:114-126 | the loop over purchases and purchasers yields exactly the baskets of the fold `Allocate` from no baskets over the answers as `split()` reads them, or its division-by-zero error |
| Allocation.AllocateFails | onlineshop/onlineshop.py:116-119 | the loop fails exactly when some purchase has a non-zero price and quantity 0 |
| Allocation.StepBasket | onlineshop/onlineshop.py:116-126 | one purchase adds to each basket exactly that flatmate's shares of it: none for a price of 0, otherwise the unit share once per time they are listed |
| Allocation.AllocateKeys | onlineshop/onlineshop.py:114-126 | with no such purchase the loop succeeds; the flatmates with a basket are the earlier ones plus everyone listed for a purchase with a non-zero price |
| Allocation.AllocateBasket | onlineshop/onlineshop.py:114-126 | each basket is the earlier one followed by that flatmate's unit shares in purchase order, so entries are only appended |
| Allocation.SharesOfPurchasers | onlineshop/onlineshop.py:114-126 | a flatmate is charged something exactly when they are listed for a purchase with a non-zero price |
| Allocation.ZeroPriceAnswerIgnored | onlineshop/onlineshop.py:116-121 | the answer for a purchase with price 0 does not affect the result; nobody is charged for it |
| Allocation.DivideOrderBill | onlineshop/onlineshop.py:95 | the bill has exactly the flatmates of the baskets, each mapped to the sum of their basket |
| Allocation.DivideOrderBillOrderFree | onlineshop/onlineshop.py:95 | baskets with the same shares in any order give the same bill |
| Allocation.SumShares | onlineshop/onlineshop.py:119-126 | the sum of a flatmate's shares is, summed over priced purchases, the unit share times the number of times they were listed |
| Allocation.FinalBill | onlineshop/onlineshop.py:114-129 | the final bill holds exactly the flatmates listed for a priced purchase, each owing the sum over purchases of unit share times times listed |
| Allocation.ExampleAnswers | onlineshop/onlineshop.py:84 | the answers `Alice Bob` split into `Alice`, `Bob`, and `Alice` into `Alice` |
| Allocation.ExamplePurchasers | onlineshop/onlineshop.py:114-126 | in the example, exactly Alice and Bob get a basket |
| Allocation.ExampleDues | onlineshop/onlineshop.py:117-126 | in the example, what each purchase costs Alice and Bob: half of the two-person items each, all of the bread for Alice |
| Allocation.OwedFour | onlineshop/onlineshop.py:114-126 | over four purchases a flatmate owes the sum of what each costs them |
| Allocation.ExampleOwed | onlineshop/onlineshop.py:114-126 | in the example Alice owes 4.50 and Bob 2.50 |
| Allocation.ExampleSharedShopping | onlineshop/onlineshop.py:95 | the example run succeeds and its bill is Alice 4.50, Bob 2.50 |

## Left out

- Reading the receipt file (`open` in mode `'rU'`, lines 42-43): the model starts from the text as read, after universal-newline translation. Python 3.11 and later reject mode `'U'` with `ValueError`, which is why the model reads the code as Python 3.6 to 3.10 runs it.
- `get_latest_file` (lines 101-102) and `helper.py`: choosing the newest receipt is file-system I/O.
- Receipt.ParseReceipt: does not model `strptime` (line 49). The delivery date is the captured text. A date text that `strptime` refuses, and is therefore a `ValueError` in the code, is accepted by the model.
- `ask` (line 83): the interactive prompt is I/O. Its answers are a parameter, one per purchase, and the answer for a zero-price purchase is never read.
- The printed instructions and the report (lines 111-112, 129-130), including the `{:.2f}` rounding of amounts.
- `sqlite3` (lines 106-107, 136): a connection and a cursor are opened but never used. Only the cursor is closed (line 136); the connection is never closed.
- `KeyboardInterrupt` (lines 132-133): an interrupt ends the run without a report. This is an asynchronous signal, not modelled.
- The `click` command line (lines 141-150).
- Floating point: amounts are exact reals. Python floats round both `price / quantity` and the sums, and compare `price == 0` after rounding; the model's results are the exact values those floats approximate.
- Non-ASCII digits and letters: `\d`, `\w` and `float()` accept Unicode digits and letters; the model's digit and date-character classes are ASCII only.
