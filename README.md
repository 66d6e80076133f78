# finance-control, modelled in Dafny

This project models the core of a React Native personal-finance app. Users
record incomes and expenses. Amounts are shown as Brazilian currency text
(`R$ 1234,56`). A dashboard, a reports screen and a per-category screen
summarise the list. A small account service keeps users and the signed-in
user, and a settings service keeps the salary.

The model covers:

- the currency text layer: `formatCurrency`, `parseCurrency`,
  `formatTransactionValue`, and the inline cleaning idiom
  `value.replace(/[^\d,-]/g, "").replace(",", ".")` before `parseFloat`;
- the category table and the category options;
- the category aggregation: the filter, the group-sum into a record, the
  percentage mapping and the stable descending sort;
- the transaction store and the two transaction hooks built on it;
- the user table, the current-user slot and the session hook;
- the settings record with its defaults and partial updates;
- the dashboard summary, the report statistics and the category screen;
- the form checks of the add-transaction, register, login, profile and
  settings screens.

## Conventions

- **Amounts.** An amount is an integer number of cents. `Number.parseFloat`
  is `JsNumber.ParseFloat : string -> Option<int>`, and `None` stands for
  `NaN`.
- **Sums that may be NaN.** Sums and differences that can become `NaN` are
  `Option<int>`. `JsNumber.Plus`, `Minus`, `Times` and `AbsOf` propagate
  `None` as JavaScript propagates `NaN`, and a comparison with `NaN` is
  false.
- **Records.** A JavaScript record keyed by category (`Record<string,
  number>`) is a sequence of `Entry` values in insertion order. Insertion
  order is the order `Object.entries` visits the keys.
- **Clock.** `Date.now()` is the parameter `now: nat`.
- **Storage failures.** A failing storage call in the transaction hooks is
  the parameter `storageFails: bool`.
- **Screen feedback.** What a screen shows when a handler finishes is a
  `Validation.Feedback` value. It is an alert, possibly followed by
  navigation, or navigation alone.
- **Stateful parts.** Parts that change state in place are classes:
  - `Storage.TransactionStore`;
  - `TransactionHooks.TransactionsProvider` and
    `TransactionHooks.TransactionsHook`;
  - `Auth.AuthService` and `Session.AuthSession`;
  - `Settings.SettingsService`;
  - `Dashboard.DashboardScreen`, `Reports.ReportsScreen` and
    `ProfileScreen.ProfileView`.

  Their loops are `while` loops proved against specification functions.
- **String length.** `s.length` counts UTF-16 code units. It is
  `Text.JsLength`, which counts a character above U+FFFF twice.

## Model

| member | source | states |
|---|---|---|
| Text.TrimStart | screens/login-screen.tsx:30 | Only white space is dropped, and the result starts with a character that is not white space. |
| Text.TrimStartSuffix | screens/login-screen.tsx:30 | What `trim` keeps at the front is a suffix of the input. |
| Text.TrimEnd | screens/login-screen.tsx:30 | What `trim` keeps at the back is a prefix of the input, only white space was dropped, and the result ends with a character that is not white space. |
| Text.BlankIffAllWhite | screens/login-screen.tsx:30 | `!s.trim()` holds exactly when every character is white space. |
| Text.TrimNoop | services/auth-service.ts:37-38 | A string with no white space at either end is its own trim. |
| Text.JsLength | screens/register-screen.tsx:63 | `length` lies between the number of characters and twice that. |
| Text.JsLengthBmp | screens/register-screen.tsx:63 | Within the Basic Multilingual Plane, `length` counts characters. |
| Text.JsLengthAstral | screens/register-screen.tsx:63 | Characters outside the Basic Multilingual Plane count twice each. |
| Text.Trim | screens/login-screen.tsx:30 | `trim` drops white space at the front, then at the back. `Text.TrimStart`, `Text.TrimEnd` and `Text.BlankIffAllWhite` state what it keeps. |
| Text.Lower | services/auth-service.ts:28 | Lower-casing keeps the length. |
| Text.LowerIdempotent | services/auth-service.ts:28 | Lower-casing a stored lower-case email again changes nothing. |
| Text.LowerTrimStartCommute | services/auth-service.ts:38 | Lower-casing commutes with dropping leading white space. |
| Text.LowerTrimEndCommute | services/auth-service.ts:38 | Lower-casing commutes with dropping trailing white space. |
| Text.LowerTrimCommute | services/auth-service.ts:38 | `email.toLowerCase().trim()` equals `email.trim().toLowerCase()`. |
| Text.ReplaceFirst | utils/format-currency.ts:15 | A one-character `replace` keeps the length. |
| Text.ReplaceFirstAppend | utils/format-currency.ts:15 | When the front part has no match, only the back part changes. |
| Text.Keep | utils/format-currency.ts:14-16 | A global delete-by-class keeps only accepted characters and never lengthens the string. |
| Text.KeepAppend | utils/format-currency.ts:14-16 | Deleting by class distributes over concatenation. |
| Text.KeepAll | utils/format-currency.ts:14-16 | A string whose characters are all accepted is left as it is. |
| Text.KeepNone | utils/format-currency.ts:14-16 | A string none of whose characters is accepted becomes empty. |
| Text.DigitPrefix | utils/format-currency.ts:19 | The result is the longest run of digits at the start of the string. |
| Text.DigitPrefixOf | utils/format-currency.ts:19 | Digits followed by a non-digit are exactly that longest run. |
| Text.NatToString | services/storage-service.tsx:22 | `n.toString()` is a non-empty run of digits with no leading zero. |
| Text.NatToStringValue | services/storage-service.tsx:22 | The rendered digits denote `n`. |
| Text.NatToStringInjective | services/storage-service.tsx:22 | Distinct clock readings give distinct ids. |
| JsNumber.UnsignedDecimal | utils/format-currency.ts:19 | A decimal literal is read exactly when the text starts with a digit, or with a point and a digit. |
| JsNumber.ParseFloat | utils/format-currency.ts:19 | `parseFloat` gives a number exactly when, after white space and a sign, a decimal literal starts. |
| JsNumber.ParseInt | screens/add-transaction-screen.tsx:68 | `parseInt` gives a number exactly when, after white space and a sign, a digit starts. |
| JsNumber.RoundHalfUp | hooks/use-transactions.tsx:46 | `Math.round` of a non-negative quotient is the nearest integer, with halves rounded up. |
| JsNumber.Plus | screens/dashboard-screen.tsx:56-60 | `+` is `NaN` when either side is, and otherwise the sum. |
| JsNumber.Minus | screens/dashboard-screen.tsx:72 | `-` is `NaN` when either side is, and otherwise the difference. |
| JsNumber.Times | screens/dashboard-screen.tsx:65 | Multiplying by a count is `NaN` exactly for `NaN`, and otherwise the product. |
| JsNumber.AbsOf | screens/reports-screen.tsx:61 | `Math.abs` is `NaN` exactly for `NaN`, and otherwise the magnitude. |
| JsNumber.UnsignedDecimalOf | utils/format-currency.ts:19 | Integer digits, then a point and up to two fractional digits, are read as those cents. |
| JsNumber.ParseSigned | utils/format-currency.ts:19 | A leading minus negates the magnitude read after it. |
| JsNumber.ParseDecimal | utils/format-currency.ts:19 | Any rendering of sign, digits and up to two decimals reads back as its value. |
| JsNumber.FracCentsTwoDigits | utils/format-currency.ts:5 | Two rendered cent digits read back as those cents. |
| JsNumber.Fixed2RoundTrip | utils/format-currency.ts:5 | A signed two-decimal rendering reads back as the signed magnitude. |
| JsNumber.ToFixed2RoundTrip | utils/format-currency.ts:5 | `parseFloat(x.toFixed(2))` is `x`. |
| JsNumber.NumberToStringRoundTrip | screens/settings-screen.tsx:27 | `parseFloat(x.toString())` is `x`. |
| JsNumber.ToFixed2 | utils/format-currency.ts:5 | `x.toFixed(2)`: the sign, the whole part and two decimals. `JsNumber.ToFixed2RoundTrip` proves it reads back as `x`. |
| JsNumber.QuotientToFixed2 | screens/add-transaction-screen.tsx:70 | `(n / d).toFixed(2)`: `Infinity`, `-Infinity` or `NaN` for a zero divisor, otherwise the quotient rounded to the cent. `AddTransaction.QuotientFixed2` states the second case. |
| JsNumber.NumberToString | screens/settings-screen.tsx:27 | `x.toString()` with trailing fractional zeros dropped. `JsNumber.NumberToStringRoundTrip` proves it reads back as `x`. |
| Currency.FormatCurrency | utils/format-currency.ts:4-6 | The text is `R$ `, then the amount with two decimals and a comma; the minus follows the prefix. |
| Currency.FormatCurrencyOrNaN | utils/format-currency.ts:4-6 | A number renders as `formatCurrency`; a `NaN` sum renders as `R$ NaN`. |
| Currency.SignedDigitsPlain | utils/format-currency.ts:5 | The sign and integer digits of a rendering contain no separator. |
| Currency.FixedToComma | utils/format-currency.ts:5 | Turning the point of `toFixed(2)` into a comma, and back, are inverse. |
| Currency.CommaFixed2Chars | utils/format-currency.ts:14-16 | Every character of a comma rendering survives both cleanings. |
| Currency.Fixed2Chars | utils/format-currency.ts:16 | Every character of `toFixed(2)` survives the last deletion of `parseCurrency`. |
| Currency.ParseFormatCurrency | utils/format-currency.ts:4-20 | `parseCurrency(formatCurrency(x)) == x` for every amount in cents. |
| Currency.ParseAmountFormatCurrency | hooks/use-transactions.tsx:38 | The inline cleaning idiom also reads a `formatCurrency` rendering back as its amount. |
| Currency.ParseSignedDisplay | hooks/use-transactions.tsx:38 | A display value whose sign part cleans to `-` or to nothing reads back as the signed magnitude. |
| Currency.CommaFixed2Signed | utils/format-currency.ts:5 | A negative rendering is the positive one behind a minus. |
| Currency.ParseTransactionValue | utils/format-currency.ts:25-28 | Reading back a display value gives the magnitude, negated for an expense; the input's own sign is lost. |
| Currency.ParseIncomeValue | utils/format-currency.ts:27 | An income's `+ R$` display value reads back as the magnitude. |
| Currency.ParseExpenseValue | utils/format-currency.ts:27 | An expense's `- R$` display value reads back as the negated magnitude. |
| Currency.ExpenseSignCleans | utils/format-currency.ts:27 | The cleaning reduces `- R$ ` to a single minus. |
| Currency.ParseCurrencyIgnoresNoise | utils/format-currency.ts:14 | `R`, `$`, white space and points are ignored wherever they stand, so a thousands point changes nothing. |
| Currency.ParseCurrencyNoDigits | utils/format-currency.ts:11-20 | Any text without a digit parses to `NaN`, whatever else it holds. |
| Currency.ParseCurrencyNaN | utils/format-currency.ts:11-20 | `parseCurrency` gives `NaN` exactly when the cleaned text, past an optional sign, starts with neither a digit nor a point followed by a digit. |
| Currency.KeepNoDigit | utils/format-currency.ts:14-16 | Deleting characters by class never brings a digit in. |
| Currency.ReplaceFirstNoDigit | utils/format-currency.ts:15 | Replacing the first comma by a point never brings a digit in. |
| Currency.ParseCurrency | utils/format-currency.ts:11-20 | The three cleanings, then `parseFloat`. `Currency.ParseFormatCurrency` proves it reads back every `formatCurrency` rendering; `Currency.ParseCurrencyNaN` says exactly when it gives `NaN`. |
| Currency.CleanCurrency | utils/format-currency.ts:13-16 | The text `parseCurrency` hands to `parseFloat`. It holds only digits, points and minus signs (`Text.Keep`). |
| Currency.FormatTransactionValue | utils/format-currency.ts:25-28 | `+ ` or `- ` by type, then `formatCurrency` of the magnitude. `Currency.ParseTransactionValue` proves the cleaning reads it back as the signed magnitude. |
| Currency.CleanAmount | hooks/use-transactions.tsx:38 | Digits, commas and minus signs are kept and the first comma becomes a point. `Currency.ParseSignedDisplay` gives what it yields for a display value. |
| Currency.ParseAmount | hooks/use-transactions.tsx:38 | `parseFloat` of the cleaned value. `Currency.ParseAmountFormatCurrency` proves it reads back a `formatCurrency` rendering. |
| CategoryIcons.Lookup | hooks/use-transactions.tsx:47 | `categoryIcons[category]`. `CategoryIcons.LookupIn` says when it fails and what it returns. |
| CategoryIcons.ColorFor | hooks/use-transactions.tsx:54 | A known category's colour, or `#009688`. `CategoryIcons.StyleFallback` states it. |
| CategoryIcons.IconFor | hooks/use-transactions.tsx:55 | A known category's icon, or the `outros` icon. `CategoryIcons.StyleFallback` states it. |
| CategoryIcons.Keys | utils/category-icons.ts:17-30 | The keys are the table's keys, in declaration order. |
| CategoryIcons.LookupIn | utils/category-icons.ts:17-30 | A lookup fails exactly when no entry has the key, and otherwise returns a style stored under that key. |
| CategoryIcons.Capitalize | utils/category-icons.ts:35 | Only the first character is upper-cased; the rest and the length are kept. |
| CategoryIcons.GetCategoryOptions | utils/category-icons.ts:33-39 | There is one option per table key, in table order; its value is the key and its label the capitalised key. |
| CategoryIcons.TableShape | utils/category-icons.ts:17-30 | The table has twelve keys, and `outros` holds the help icon in grey. |
| CategoryIcons.LookupLast | utils/category-icons.ts:29 | A key found only in the last entry gets that entry's style. |
| CategoryIcons.TableKeysDistinct | utils/category-icons.ts:17-30 | No key is declared twice. |
| CategoryIcons.StyleFallback | hooks/use-transactions.tsx:54-55 | A known category keeps its colour and icon; any other gets `#009688` and the `outros` icon. |
| Search.FindFirst | services/auth-service.ts:185 | The position found is the first element satisfying the predicate, or -1 when none does. |
| Aggregation.Contribution | hooks/use-transactions.tsx:36-40 | What one transaction adds: `Aggregation.NoContribution` and `Aggregation.SomeContribution` say an expense with a category and a parseable value adds its magnitude, and nothing else adds anything. |
| Aggregation.Bump | hooks/use-transactions.tsx:40 | `totals[c] = (totals[c] \|\| 0) + x`. `Aggregation.BumpSpec` states its effect on the keys and the sum. |
| Aggregation.Accumulate | hooks/use-transactions.tsx:35-41 | One iteration of the group-sum loop. `Aggregation.GroupStepBump` and `Aggregation.GroupStepSkip` state it. |
| Aggregation.GroupTotals | hooks/use-transactions.tsx:33-41 | The totals record after the loop. `Aggregation.GroupTotalsSpec` states its keys and sums. |
| Aggregation.Contributions | hooks/use-transactions.tsx:36-39 | The filter step yields one contribution, or none, per transaction. |
| Aggregation.IndexOf | hooks/use-transactions.tsx:40 | The key's position is the first entry with that name, or -1 when no entry has it. |
| Aggregation.FirstContribution | hooks/use-transactions.tsx:45 | This is the first transaction that contributes to a category; no earlier one does. |
| Aggregation.NoContribution | hooks/use-transactions.tsx:36-39 | An income, a record without a category, or a value that does not parse contributes nothing. |
| Aggregation.SomeContribution | hooks/use-transactions.tsx:36-40 | An expense with a category and a parseable value contributes its magnitude to its category. |
| Aggregation.GroupStep | hooks/use-transactions.tsx:35-42 | One more transaction adds its contribution, as one loop iteration does. |
| Aggregation.GroupStepBump | hooks/use-transactions.tsx:40 | An iteration over a contributing expense adds its magnitude to its key. |
| Aggregation.GroupStepSkip | hooks/use-transactions.tsx:36-39 | An iteration over any other record leaves the record as it was. |
| Aggregation.BumpTruthy | services/storage-service.tsx:113-114 | When the key already holds a non-zero total, `+=` is the `|| 0` update. |
| Aggregation.BumpFalsy | services/storage-service.tsx:115-116 | When the key is missing or holds 0, plain assignment is the `|| 0` update. |
| Aggregation.IndexOfUnique | hooks/use-transactions.tsx:40 | The first-index description determines the position. |
| Aggregation.IndexOfDistinct | hooks/use-transactions.tsx:40 | With distinct names, each entry is found at its own position. |
| Aggregation.SumAppend | hooks/use-transactions.tsx:43 | The sum of the totals grows by an appended entry's total. |
| Aggregation.SumUpdate | hooks/use-transactions.tsx:43 | Replacing one entry changes the sum by the difference. |
| Aggregation.BumpSpec | hooks/use-transactions.tsx:40 | One step keeps the keys distinct, adds the key, adds the amount to that key only, and grows the sum by the amount. |
| Aggregation.ContributesLast | hooks/use-transactions.tsx:35-42 | Contributing to a category, read from the end of the list. |
| Aggregation.GroupTotalsSpec | hooks/use-transactions.tsx:32-43 | The record has distinct keys, one per category something contributes to, each holding that category's sum; all totals add up to the sum of all contributions. |
| Aggregation.KeysContribute | hooks/use-transactions.tsx:45 | Every key names a category some transaction contributes to. |
| Aggregation.FirstContributionExtend | hooks/use-transactions.tsx:45 | Growing the list keeps a category's first contributor. |
| Aggregation.GroupTotalsOrder | hooks/use-transactions.tsx:45-48 | Keys appear in the order of their first contribution, so index ids follow first encounter. |
| Aggregation.ContributionsCons | hooks/use-transactions.tsx:91-93 | The contributions of a prepended transaction come first. |
| Aggregation.GroupEntriesSkip | hooks/use-transactions.tsx:36-39 | A leading non-contribution leaves the record as it is. |
| Aggregation.ContributionsAt | hooks/use-transactions.tsx:36-39 | Position `i` is what the `i`-th transaction contributes. |
| RankedTotals.Percent | hooks/use-transactions.tsx:46 | The percentage is `round(100 * total / grand)`, with halves rounded up, or 0 for a zero grand total. |
| RankedTotals.FormatTotals | hooks/use-transactions.tsx:45-57 | The mapping gives one entry per key. |
| RankedTotals.InsertDesc | hooks/use-transactions.tsx:59 | Insertion adds exactly the element. |
| RankedTotals.SortDesc | hooks/use-transactions.tsx:59 | The sort is a permutation of its input. |
| RankedTotals.PercentBound | hooks/use-transactions.tsx:46 | A part of the grand total gets a percentage of at most 100. |
| RankedTotals.MulCancel | hooks/use-transactions.tsx:46 | A positive factor cancels in a comparison. |
| RankedTotals.TotalBelowSum | hooks/use-transactions.tsx:43 | Each key's total is at most the grand total. |
| RankedTotals.FormatTotalsSpec | hooks/use-transactions.tsx:45-57 | The mapping keeps keys and totals in order and numbers them `0`, `1`, ...; each percentage is in 0..100; each formatted total reads back; the ids are distinct. |
| RankedTotals.InsertDescSorted | hooks/use-transactions.tsx:59 | Insertion keeps a list sorted by total, largest first. |
| RankedTotals.SortDescSorted | hooks/use-transactions.tsx:59 | The sorted list is in descending order of total and keeps the length. |
| RankedTotals.InsertDescStable | hooks/use-transactions.tsx:59 | Insertion puts the new element before the ones with an equal total. |
| RankedTotals.SortDescStable | hooks/use-transactions.tsx:59 | Elements sharing a total keep their relative order. |
| RankedTotals.InsertDescSum | hooks/use-transactions.tsx:59 | Insertion adds the element's total to the sum. |
| RankedTotals.SortDescSum | hooks/use-transactions.tsx:59 | Sorting keeps the sum of the totals. |
| RankedTotals.InsertDescDistinct | hooks/use-transactions.tsx:59 | Inserting a new name keeps the names distinct. |
| RankedTotals.SortDescDistinct | hooks/use-transactions.tsx:59 | Sorting never makes two entries share a name. |
| RankedTotals.SumShownTotals | hooks/use-transactions.tsx:43 | Lists with the same totals, position by position, have the same sum. |
| RankedTotals.RankTotalsMembers | hooks/use-transactions.ts:41-57 | Every shown entry is a key of the record, with its total, a percentage in 0..100 and a formatted amount that reads back. |
| RankedTotals.FormattedMember | hooks/use-transactions.ts:41-54 | Each formatted entry, wherever the sort puts it, carries its key's total. |
| RankedTotals.RankTotalsCovers | hooks/use-transactions.ts:41-57 | Every key of the record is shown. |
| RankedTotals.RankTotalsSpec | hooks/use-transactions.ts:33-63 | The shown list is sorted largest first and shows each key once with its total, a percentage in 0..100 and a formatted amount that reads back; its totals add up to the record's. |
| RankedTotals.CategoryTotalsSpec | hooks/use-transactions.tsx:32-61 | The result is sorted largest first, with one entry per contributing category holding that category's sum; every percentage is in 0..100 and the totals add up to all contributions. |
| RankedTotals.CategoryTotalsTies | hooks/use-transactions.tsx:59 | Categories with equal totals keep first-encounter order. |
| RankedTotals.PercentHalf | hooks/use-transactions.tsx:46 | One rounded percentage is within half a point of the exact share. |
| RankedTotals.InsertDescPercent | hooks/use-transactions.tsx:59 | Insertion adds the element's percentage to the sum of percentages. |
| RankedTotals.SortDescPercent | hooks/use-transactions.tsx:59 | Sorting keeps the sum of the percentages. |
| RankedTotals.PercentSumBounds | hooks/use-transactions.tsx:43-46 | Twice the sum of the percentages of a grand total is within one point per entry of 200 times the shown total over the grand total. |
| RankedTotals.DivideBounds | hooks/use-transactions.tsx:43-46 | Dividing those bounds by the grand total leaves twice the sum within one point per entry of 200. |
| RankedTotals.FormattedPercent | hooks/use-transactions.tsx:45-46 | Every mapped entry carries its key's percentage of the grand total. |
| RankedTotals.RankTotalsPercentSum | hooks/use-transactions.ts:41-57 | For a non-zero grand total, the shown percentages add up to 100 within half a point per category. |
| RankedTotals.CategoryTotalsPercentSum | hooks/use-transactions.tsx:32-61 | With some expense counted, the shown percentages add up to 100 within half a point per category. |
| RankedTotals.ToCategoryTotal | hooks/use-transactions.tsx:45-56 | One key at enumeration position `index`: index id, name, total, formatted total, percentage, colour and icon. `RankedTotals.FormatTotalsSpec` states these. |
| RankedTotals.RankTotals | hooks/use-transactions.ts:41-57 | A stored record mapped and sorted. `RankedTotals.RankTotalsSpec` states what it shows. |
| RankedTotals.CategoryTotals | hooks/use-transactions.tsx:32-61 | Filter, group-sum, map and sort. `RankedTotals.CategoryTotalsSpec` states what it shows. |
| Storage.Stamped | services/storage-service.ts:17-21 | The record with the clock's id and timestamp. `Storage.RemoveUndoesSave` and `Text.NatToStringInjective` state what the id gives. |
| Storage.Replace | services/storage-service.tsx:58 | Replacing by id keeps the length. |
| Storage.Remove | services/storage-service.tsx:75 | Deleting by id keeps exactly the records with another id, or none. |
| Storage.ByCategory | services/storage-service.tsx:90 | The selection holds exactly the records of that category, of either type. |
| Storage.TransactionStore.constructor | services/storage-service.tsx:4 | Nothing is stored at first. |
| Storage.TransactionStore.GetTransactions | services/storage-service.tsx:42-50 | The stored list is returned, or the empty list when nothing is stored. |
| Storage.TransactionStore.SaveTransaction | services/storage-service.ts:14-29 | The record is stamped with the clock's id and timestamp, stored in front of the others, and returned. |
| Storage.TransactionStore.UpdateTransaction | services/storage-service.tsx:55-67 | Every record with the updated id is replaced. |
| Storage.TransactionStore.DeleteTransaction | services/storage-service.tsx:72-82 | Every record with the id is dropped. |
| Storage.TransactionStore.GetTransactionsByCategory | services/storage-service.tsx:87-95 | The stored records of that category are returned. |
| Storage.TransactionStore.GetCategoryTotals | services/storage-service.tsx:100-125 | The loop builds the same record as the hook's group-sum over the stored list. |
| Storage.TransactionStore.ClearAllData | services/storage-service.tsx:130-137 | Nothing is stored afterwards. |
| Storage.RemoveAppend | services/storage-service.tsx:75 | Deleting by id distributes over concatenation, so the rest keep their order. |
| Storage.RemoveNoMatch | services/storage-service.tsx:75 | A list without the id is left as it is. |
| Storage.RemoveIdempotent | services/storage-service.tsx:75 | Deleting twice is deleting once. |
| Storage.RemoveUndoesSave | services/storage-service.tsx:20-27 | Deleting the id a save just issued gives back the earlier list, less records that already had that id. |
| Storage.ReplaceKeepsIds | services/storage-service.tsx:58 | An update keeps every id, and records with another id are untouched. |
| Storage.ReplaceSpec | services/storage-service.tsx:58 | An update with no matching id changes nothing, and updating twice is updating once. |
| Storage.ByCategoryAppend | services/storage-service.tsx:90 | Selecting by category distributes over concatenation. |
| TransactionHooks.TransactionsProvider.constructor | hooks/use-transactions.tsx:26-29 | The provider starts empty and loading, with no error. |
| TransactionHooks.TransactionsProvider.CalculateCategoryTotals | hooks/use-transactions.tsx:32-61 | The loop and the in-place sort give the category totals of the list, and nothing else changes. |
| TransactionHooks.TransactionsProvider.LoadTransactions | hooks/use-transactions.tsx:64-77 | The list in memory becomes the stored one, with its totals, and loading ends. |
| TransactionHooks.TransactionsProvider.AddTransaction | hooks/use-transactions.tsx:85-104 | On success the stamped record goes first in storage and in memory, and the totals follow; on failure only the error is set. |
| TransactionHooks.TransactionsProvider.UpdateTransaction | hooks/use-transactions.tsx:107-121 | On success storage replaces the record and everything is reloaded; on failure only the error is set. |
| TransactionHooks.TransactionsProvider.DeleteTransaction | hooks/use-transactions.tsx:124-140 | On success the records with that id leave storage and memory, and the totals follow; on failure only the error is set. |
| TransactionHooks.TransactionsHook.constructor | hooks/use-transactions.ts:10-13 | The hook starts empty and loading, with no error. |
| TransactionHooks.TransactionsHook.LoadCategoryTotals | hooks/use-transactions.ts:33-63 | The shown totals are the stored record, mapped and sorted. |
| TransactionHooks.TransactionsHook.LoadTransactions | hooks/use-transactions.ts:16-30 | The list and totals shown are those of the store, and loading ends. |
| TransactionHooks.TransactionsHook.AddTransaction | hooks/use-transactions.ts:66-79 | On success the save is stored and everything reloads; on failure only the error is set. |
| TransactionHooks.TransactionsHook.UpdateTransaction | hooks/use-transactions.ts:82-95 | On success the update is stored and everything reloads; on failure only the error is set. |
| TransactionHooks.TransactionsHook.DeleteTransaction | hooks/use-transactions.ts:98-111 | On success the deletion is stored and everything reloads; on failure only the error is set. |
| TransactionHooks.AddNonExpenseKeepsTotals | hooks/use-transactions.tsx:91-93 | Adding an income, or any record that contributes nothing, leaves the category totals as they were. |
| CategoryScreen.CategoryTransactions | screens/category-transactions-screen.tsx:20-22 | The filter never lengthens the list. |
| CategoryScreen.Stats | screens/category-transactions-screen.tsx:25-26 | The count is the list's length; the average is 0 for an empty list and otherwise the category total divided by the count. |
| CategoryScreen.ProgressWidth | screens/category-transactions-screen.tsx:97 | The width is the percentage capped at 100. |
| CategoryScreen.CategoryTransactionsSpec | screens/category-transactions-screen.tsx:20-22 | The list holds exactly the category's expenses, each as often as in the input. |
| CategoryScreen.CategoryTransactionsAppend | screens/category-transactions-screen.tsx:20-22 | Filtering a concatenation filters each part, so the original order is kept. |
| CategoryScreen.UnparsedExpenseCounted | screens/category-transactions-screen.tsx:20-26 | An expense whose value does not parse is counted, though it adds nothing to the totals. |
| CategoryScreen.CategoryAverage | screens/category-transactions-screen.tsx:26 | The average is the total divided by the count, rounded to the cent, and it reads back as that amount. |
| Auth.UserToProfile | services/auth-service.ts:279-282 | The profile carries every field of the user except the password. |
| Auth.FindByEmail | services/auth-service.ts:28 | The position found is the first user whose email matches case-insensitively, or -1 when none does. |
| Auth.FindLogin | services/auth-service.ts:69 | The position found is the first user matching the lower-cased, trimmed email and the exact password, or -1. |
| Auth.FindById | services/auth-service.ts:185 | The position found is the first user with the id, or -1. |
| Auth.ReplaceUser | services/auth-service.ts:110 | Only users with the updated id are replaced. |
| Auth.Matches | services/auth-service.ts:69 | The credentials test of `login`. `Auth.AuthService.Login` succeeds exactly when some user passes it. |
| Auth.NewUser | services/auth-service.ts:35-42 | The account `register` creates. `Auth.RegisterKeepsUnique` and `Auth.RegisterPaddedDuplicate` say when it keeps emails unique. |
| Auth.NewGoogleUser | services/auth-service.ts:120-128 | The account a first Google sign-in creates. `Auth.GoogleKeepsUnique` states it keeps emails unique. |
| Auth.GoogleRefresh | services/auth-service.ts:102-107 | A returning Google user with a new non-empty picture and a new update time. `Auth.GoogleRefreshKeepsUnique` states it keeps emails unique. |
| Auth.Updated | services/auth-service.ts:200-206 | The record `updateUser` writes back. `Auth.UpdateKeepsUnique` and `ProfileScreen.ProfileUpdateStored` state what it keeps and changes. |
| Auth.EmailUsedByOther | services/auth-service.ts:192-196 | Another user holds the email, case aside. `Auth.AuthService.UpdateUser` fails with the in-use message exactly when a changed email meets it; `Auth.UpdateKeepsUnique` proves that refusing it keeps emails unique. |
| Auth.AuthService.constructor | services/auth-service.ts:4-5 | There are no users and no current user at first. |
| Auth.AuthService.Register | services/auth-service.ts:20-61 | A taken email, case aside, fails and writes nothing; otherwise one user with a trimmed name and a lower-cased, trimmed email is appended and becomes the current user. |
| Auth.AuthService.Login | services/auth-service.ts:66-88 | Login succeeds exactly when some user matches; only then the first match becomes the current user; the table never changes. |
| Auth.AuthService.LoginWithGoogle | services/auth-service.ts:93-142 | A known email refreshes that user only, keeping the old picture unless a new one is given; an unknown one appends an account; either way it is signed in. |
| Auth.AuthService.Logout | services/auth-service.ts:147-153 | The current user is cleared and the table is kept. |
| Auth.AuthService.GetCurrentUser | services/auth-service.ts:158-166 | The stored current user is returned. |
| Auth.AuthService.IsLoggedIn | services/auth-service.ts:171-174 | The answer is true exactly when a current user is stored. |
| Auth.AuthService.UpdateUser | services/auth-service.ts:179-224 | An unknown id fails; a changed email another user has fails; otherwise only that user is rewritten, with given fields trimmed, and it becomes the current user. |
| Auth.AuthService.ChangePassword | services/auth-service.ts:229-261 | An unknown id or a wrong current password writes nothing; otherwise only that user's password and update time change. |
| Auth.AuthService.ClearAllUsers | services/auth-service.ts:287-294 | Users and the current user are cleared. |
| Auth.ProfileHidesPassword | services/auth-service.ts:279-282 | Users that differ only in password have the same profile. |
| Auth.StoredEmailKey | services/auth-service.ts:28-38 | For an input with no surrounding white space, the stored email compares like the input. |
| Auth.AppendUnique | services/auth-service.ts:45 | Appending an email no one has, case aside, keeps emails unique. |
| Auth.RegisterKeepsUnique | services/auth-service.ts:28-45 | A registration of an email without surrounding white space keeps emails unique. |
| Auth.RegisterPaddedDuplicate | services/auth-service.ts:28-38 | An existing email with a leading space passes the check and is stored as a second copy. |
| Auth.PaddedKey | services/auth-service.ts:38 | A padded email lower-cases with its space kept and trims back. |
| Auth.PaddedDiffers | services/auth-service.ts:28 | A trimmed email never equals one that starts with a space, case aside. |
| Auth.PaddedEmailPassesCheck | services/auth-service.ts:28 | When stored emails are trimmed, any email with a leading space passes the check. |
| Auth.GoogleKeepsUnique | services/auth-service.ts:118-137 | A first Google sign-in keeps emails unique. |
| Auth.GoogleRefreshKeepsUnique | services/auth-service.ts:100-117 | Refreshing a returning Google user keeps emails unique. |
| Auth.UpdateKeepsUnique | services/auth-service.ts:192-208 | An update keeps emails unique when a new email has no surrounding white space. |
| Auth.ChangePasswordKeepsUnique | services/auth-service.ts:243-252 | A password change keeps emails unique. |
| Session.AuthSession.constructor | hooks/use-auth.ts:14-16 | The session starts with no user, loading, and not authenticated. |
| Session.AuthSession.CheckAuthStatus | hooks/use-auth.ts:19-32 | The stored current user is adopted, `isAuthenticated` follows, and loading ends. |
| Session.AuthSession.Login | hooks/use-auth.ts:35-42 | The result succeeds exactly when some user matches the lower-cased, trimmed email and the exact password. On success the session, the service and the result all hold the first match's profile. On failure the answer is the credentials message and nothing changes. The user table is never touched. |
| Session.AuthSession.LoginWithGoogle | hooks/use-auth.ts:45-52 | The sign-in always succeeds and the session adopts the service's profile. A known email, case aside, refreshes that user in the table; an unknown one appends a new Google account. The message tells which. |
| Session.AuthSession.Register | hooks/use-auth.ts:55-62 | Registration succeeds exactly when no user has the email, case aside. Then one account is appended and the session and the service hold its profile. Otherwise the answer is the taken-email message and the session, the table and the current user are unchanged. |
| Session.AuthSession.Logout | hooks/use-auth.ts:65-69 | The user is cleared in the session and the service. |
| Session.AuthSession.UpdateUser | hooks/use-auth.ts:72-83 | With no profile, or an id the table lacks, it fails with the not-found message. A changed email another user has fails with the in-use message. Otherwise only that user is rewritten, and the session and the service hold the new profile. A failure changes nothing, and `isAuthenticated` is never touched. |
| Session.AuthSession.ChangePassword | hooks/use-auth.ts:86-93 | The session and the current user never change. With no profile, or an id the table lacks, it fails with the not-found message; a wrong current password fails with its message. Otherwise only that user's password and update time change. |
| Settings.Overlay | services/settings-service.ts:27 | Every field the partial record carries wins, and the others come from the base. |
| Settings.SettingsService.constructor | services/settings-service.ts:3 | Nothing is stored at first. |
| Settings.SettingsService.GetSettings | services/settings-service.ts:24-32 | The stored fields overlay the defaults; with nothing stored the answer is salary 0, `BRL` and dark. |
| Settings.SettingsService.Current | services/settings-service.ts:27 | The defaults overlaid by the stored fields. `GetSettings` returns it; `SaveSettings` and `UpdateSalary` state their effect through it; `Settings.OverlayWhole` and `Settings.SalaryOnlySpec` state the overlay. |
| Settings.SettingsService.SaveSettings | services/settings-service.ts:37-46 | The current settings, overlaid by the partial record, are stored whole. |
| Settings.SettingsService.UpdateSalary | services/settings-service.ts:51-58 | Only the salary changes. |
| Settings.SettingsService.ClearSettings | services/settings-service.ts:63-69 | Afterwards the defaults are read. |
| Settings.OverlayWhole | services/settings-service.ts:27 | A record stored whole reads back as itself. |
| Settings.OverlayIdempotent | services/settings-service.ts:40 | Saving the same partial record twice is saving it once. |
| Settings.OverlayMerge | services/settings-service.ts:40 | Two saves are one save of the merged partial record. |
| Settings.OverlayNothing | services/settings-service.ts:40 | A partial record with no field changes nothing. |
| Settings.SalaryOnlySpec | services/settings-service.ts:53 | `updateSalary` sets the salary and keeps the currency and theme. |
| Dashboard.InstallmentAmount | screens/dashboard-screen.tsx:63 | A missing or empty installment value counts as 0; otherwise it is parsed with its comma as a point. |
| Dashboard.DebtOf | screens/dashboard-screen.tsx:62-66 | The installments after the first, or 0 without installments. `Dashboard.ExpenseAt` says it enters the debt. |
| Dashboard.Income | screens/dashboard-screen.tsx:56-57 | The income after the loop. `Dashboard.IncomeAt` says only incomes enter it. |
| Dashboard.Expenses | screens/dashboard-screen.tsx:58-59 | The expenses after the loop. `Dashboard.ExpensesNonNegative`, `Dashboard.NaNReadingPoisons` and `Dashboard.ExpensesMatchCategoryTotals` state it. |
| Dashboard.PendingDebt | screens/dashboard-screen.tsx:61-66 | The pending debt after the loop. `Dashboard.ExpenseAt` says only expenses enter it. |
| Dashboard.Summary | screens/dashboard-screen.tsx:49-82 | The three rows for a list and a salary. `Dashboard.SummaryRows` and `Dashboard.AvailableWithSalary` state them. |
| Dashboard.TotalIncome | screens/dashboard-screen.tsx:71 | A positive salary replaces the income. `Dashboard.SalaryOverridesIncome` and `Dashboard.AvailableWithSalary` state it. |
| Dashboard.Readings | screens/dashboard-screen.tsx:53-67 | The loop reads one record per transaction. |
| Dashboard.SummaryRows | screens/dashboard-screen.tsx:74-82 | There are three rows in fixed order; the first is positive exactly when the available amount is a number ≥ 0; the other two are negative. |
| Dashboard.DashboardScreen.constructor | screens/dashboard-screen.tsx:31-35 | The summary starts as the three zero rows. |
| Dashboard.DashboardScreen.RecalculateSummary | screens/dashboard-screen.tsx:44-83 | Without settings nothing changes; otherwise the loop gives the summary of the list and the salary. |
| Dashboard.IncomeAt | screens/dashboard-screen.tsx:56-57 | Reading an income changes only the income. |
| Dashboard.ExpenseAt | screens/dashboard-screen.tsx:58-66 | Reading an expense changes the expenses and the debt. |
| Dashboard.PlusZero | screens/dashboard-screen.tsx:62-66 | Adding 0 leaves a sum, `NaN` or not, as it is. |
| Dashboard.ExpensesNonNegative | screens/dashboard-screen.tsx:59 | The expense sum is never negative. |
| Dashboard.UnparsedExpensePoisons | screens/dashboard-screen.tsx:54-60 | One unparseable expense makes the expenses `NaN` and, without a salary, shows `R$ NaN` as available. |
| Dashboard.NaNReadingPoisons | screens/dashboard-screen.tsx:59 | One `NaN` expense reading makes the sum `NaN`. |
| Dashboard.ExpensesMatchCategoryTotals | screens/dashboard-screen.tsx:58-60 | When every expense has a category and a parseable value, the expense row is the sum of the category totals. |
| Dashboard.CategorizedContribution | screens/dashboard-screen.tsx:58-60 | A categorized record adds the same magnitude to the expenses as to its category. |
| Dashboard.ExpensesAgree | screens/dashboard-screen.tsx:59 | Agreeing readings and contributions have the same sum. |
| Dashboard.SalaryOverridesIncome | screens/dashboard-screen.tsx:71 | With a salary set, the transactions' income plays no part. |
| Dashboard.AvailableWithSalary | screens/dashboard-screen.tsx:71-76 | With a salary set, the first row is positive exactly when the salary covers the expenses. |
| Reports.Biggest | screens/reports-screen.tsx:61-66 | The biggest expense after the loop. `Reports.BiggestIsMaximum` states it. |
| Reports.MostUsed | screens/reports-screen.tsx:76-79 | The `reduce` over the counts. `Reports.MostUsedIsFirstMaximum` states it. |
| Reports.Report | screens/reports-screen.tsx:46-96 | The report for a list and a salary. `Reports.MostUsedCategorySpec`, `Reports.AverageOfExpenses` and `Reports.BalanceIsAvailable` state it. |
| Reports.AverageText | screens/reports-screen.tsx:184 | `formatCurrency` of the average. `Reports.AverageOfExpenses` and `Reports.ZeroByZeroText` state it. |
| Reports.HighSpending | screens/reports-screen.tsx:228 | `totalExpenses > totalIncome * 0.8`. `Reports.HighSpendingThreshold` states it. |
| Reports.SpendingInsight | screens/reports-screen.tsx:228-230 | The high-spending text exactly when `HighSpending` holds. `Reports.HighSpendingThreshold` states it for a set salary. |
| Reports.ShowsSavingsRate | screens/reports-screen.tsx:200 | The savings rate is shown only for a positive income. `Reports.HighSpendingThreshold` proves it is shown whenever a salary is set. |
| Reports.Counted | screens/reports-screen.tsx:69-71 | An expense with a category counts one under it. `Reports.CountedWitness` and `Reports.CountsPositive` state it. |
| Reports.CategoryCounts | screens/reports-screen.tsx:69-71 | The `categoryCount` record. `Reports.MostUsedCategorySpec` states its keys and counts. |
| Reports.CountContributions | screens/reports-screen.tsx:69-71 | One count contribution per transaction. |
| Reports.Negatives | screens/reports-screen.tsx:85 | The filter keeps only expenses. |
| Reports.ReportsScreen.constructor | screens/reports-screen.tsx:26-34 | The report starts at zero with an empty category. |
| Reports.ReportsScreen.CalculateReportData | screens/reports-screen.tsx:46-96 | The loop, the reduce and the average give the report of the list and the salary. |
| Reports.IncomeStep | screens/reports-screen.tsx:58-59 | An income enters the income only. |
| Reports.ExpenseStep | screens/reports-screen.tsx:60-66 | An expense enters the expenses and the biggest expense, not the income. |
| Reports.IncomeRead | screens/reports-screen.tsx:58-59 | The loop reading an income at position `i` changes only the income. |
| Reports.ExpenseRead | screens/reports-screen.tsx:60-71 | The loop reading an expense at position `i` changes the expenses, the biggest expense and the counts. |
| Reports.CountStep | screens/reports-screen.tsx:69-71 | One more record adds its count contribution. |
| Reports.BiggestIsMaximum | screens/reports-screen.tsx:49-66 | The biggest expense is the largest parseable expense magnitude, or 0 when there is none. |
| Reports.MostUsedIsFirstMaximum | screens/reports-screen.tsx:76-79 | The winner has the highest count and the earliest entry wins a tie; no positive count gives `Nenhuma`. |
| Reports.CountsPositive | screens/reports-screen.tsx:70 | Every count kept is at least one. |
| Reports.MostUsedCategorySpec | screens/reports-screen.tsx:69-79 | Counts hold each category's number of expenses; the most used is `Nenhuma` without categorized expenses, and otherwise the first category with the highest count. |
| Reports.MostUsedOfCounts | screens/reports-screen.tsx:76-79 | The same, for the winner of the counts. |
| Reports.CountedWitness | screens/reports-screen.tsx:69-71 | Every count comes from an expense that has a category. |
| Reports.ExpensesWithoutExpenses | screens/reports-screen.tsx:62 | Without expenses, the expense sum is 0. |
| Reports.NegativesCount | screens/reports-screen.tsx:85 | The filter is empty exactly when there is no expense. |
| Reports.AverageWithoutExpenses | screens/reports-screen.tsx:84-85 | A non-empty list with no expense divides 0 by 0, and the average shows `R$ NaN`. |
| Reports.ZeroByZeroText | screens/reports-screen.tsx:84-85 | `0 / 0` renders as `R$ NaN`. |
| Reports.AverageOfExpenses | screens/reports-screen.tsx:84-85 | With expenses, the average is their sum divided by their number, rounded to the cent, and it reads back. |
| Reports.HighSpendingThreshold | screens/reports-screen.tsx:200-228 | The warning shows exactly when the expenses pass 80% of the salary, and the savings rate is shown. |
| Reports.BalanceIsAvailable | screens/reports-screen.tsx:82-83 | The report's balance is the dashboard's available amount. |
| Validation.Blank | screens/login-screen.tsx:30 | `!s.trim()`. `Validation.BlankIsWhite` states it. |
| Validation.IsEmail | screens/register-screen.tsx:52-53 | The email pattern. `Validation.EmailShape` and `Validation.EmailSamples` state it. |
| Validation.FirstFailure | screens/register-screen.tsx:40-74 | The first failing early-return check. `Validation.FirstFailureSpec` states it. |
| Validation.BlankIsWhite | screens/register-screen.tsx:41 | `!s.trim()` means the text is all white space. |
| Validation.EmailShape | screens/register-screen.tsx:52-53 | A matching email has no white space and exactly one `@`, which is neither first nor last. |
| Validation.PaddedEmailRejected | screens/register-screen.tsx:52-53 | White space around an email makes the pattern fail. |
| Validation.EmailSamples | screens/register-screen.tsx:52-53 | `ana@mail.com` matches; emails without the point, without the local part or with two `@` do not. |
| Validation.TwoAtsNoEmail | screens/register-screen.tsx:52-53 | A second `@` rules the match out. |
| Validation.NoPointNoEmail | screens/register-screen.tsx:52-53 | Without a point there is no match. |
| Validation.FirstFailureSpec | screens/register-screen.tsx:40-74 | The reported check fails and every earlier one passes; no report means every check passes. |
| Validation.FirstFailureAppend | screens/register-screen.tsx:40-74 | Later checks run only when the earlier ones all pass. |
| Validation.FirstOfTwo | screens/login-screen.tsx:30-38 | Two checks run in order. |
| Validation.FirstOfThree | screens/profile-screen.tsx:67-82 | Three checks run in order. |
| Validation.FirstOfFour | screens/profile-screen.tsx:107-125 | Four checks run in order. |
| AddTransaction.InstallmentValue | screens/add-transaction-screen.tsx:65-71 | The preview. `AddTransaction.InstallmentValueEmpty` and `AddTransaction.InstallmentValueIsComma` state it. |
| AddTransaction.WithBlankPerson | screens/add-transaction-screen.tsx:73-79 | `addPerson`. `AddTransaction.WithBlankPersonSpec` states it. |
| AddTransaction.Removed | screens/add-transaction-screen.tsx:82-86 | `removePerson`. `AddTransaction.RemovePersonSpec` states it. |
| AddTransaction.CollectiveTotal | screens/add-transaction-screen.tsx:92-97 | The persons' amounts added up. `AddTransaction.RenameKeepsTotal`, `AddTransaction.UnparsedAmountPoisons` and `AddTransaction.NaNTotalHasUnparsed` state it. |
| AddTransaction.PersonAmount | screens/add-transaction-screen.tsx:94 | An empty amount counts as 0; otherwise the first comma becomes a point and the text is parsed. `AddTransaction.UnparsedAmountPoisons` and `AddTransaction.NaNTotalHasUnparsed` state its role in the total. |
| AddTransaction.TotalAmount | screens/add-transaction-screen.tsx:114 | The form amount, its first comma read as a point. `AddTransaction.ValidFormSplit` and `AddTransaction.UnparsedTotalPassesSplit` state how the split check uses it. |
| AddTransaction.HasEmptyPerson | screens/add-transaction-screen.tsx:109 | Some person has a blank name or amount. `AddTransaction.ValidFormComplete` proves an accepted form has none. |
| AddTransaction.Mismatch | screens/add-transaction-screen.tsx:116 | The split differs by more than one cent, false when either side is `NaN`. `AddTransaction.ValidFormSplit` and `AddTransaction.UnparsedTotalPassesSplit` state it. |
| AddTransaction.ValidateForm | screens/add-transaction-screen.tsx:99-122 | The form checks. `AddTransaction.ValidateFormFirstFailure`, `AddTransaction.ValidFormComplete` and `AddTransaction.ValidFormSplit` state them. |
| AddTransaction.InstallmentOptions | screens/add-transaction-screen.tsx:60-63 | There are twelve options. |
| AddTransaction.InstallmentOptionsSpec | screens/add-transaction-screen.tsx:60-63 | The options are 1x to 12x, and each value parses to its count. |
| AddTransaction.ParseNatToString | screens/add-transaction-screen.tsx:62-68 | `parseInt(n.toString())` is `n`. |
| AddTransaction.FormCategoriesStyled | screens/add-transaction-screen.tsx:41-53 | Every category the form offers has its own table entry. |
| AddTransaction.InstallmentValueEmpty | screens/add-transaction-screen.tsx:65-71 | The preview is empty exactly for an empty amount, cash payment, or an amount or count that does not parse. |
| AddTransaction.QuotientCommaNonEmpty | screens/add-transaction-screen.tsx:70 | A computed preview is never empty. |
| AddTransaction.InstallmentValueIsComma | screens/add-transaction-screen.tsx:65-71 | For a positive count, the preview is the amount divided by the count, rounded to the cent, with a comma. |
| AddTransaction.CommaFixed2ReadsBack | screens/add-transaction-screen.tsx:70 | A comma rendering, comma turned back into a point, parses as its cents. |
| AddTransaction.QuotientFixed2 | screens/add-transaction-screen.tsx:70 | `(n / d).toFixed(2)` is the rounded quotient's two-decimal rendering. |
| AddTransaction.WithBlankPersonSpec | screens/add-transaction-screen.tsx:73-79 | One blank person is appended, and the total is unchanged. |
| AddTransaction.WithoutPerson | screens/add-transaction-screen.tsx:84 | The filter never lengthens the list. |
| AddTransaction.WithoutPersonSpec | screens/add-transaction-screen.tsx:84 | It keeps exactly the persons with another id, and empties the list only when all have the id. |
| AddTransaction.WithoutPersonAppend | screens/add-transaction-screen.tsx:84 | Removal distributes over concatenation, so the persons kept stay in their order. |
| AddTransaction.RemovePersonSpec | screens/add-transaction-screen.tsx:82-86 | A list of one is kept; otherwise the persons with that id go; the list ends empty only if it was empty or all shared the id. |
| AddTransaction.RemoveKeepsSomeone | screens/add-transaction-screen.tsx:82-86 | With distinct ids, removal from two or more persons leaves someone. |
| AddTransaction.Updated | screens/add-transaction-screen.tsx:89 | The map keeps the length. |
| AddTransaction.UpdatePersonSpec | screens/add-transaction-screen.tsx:88-90 | Only the named field of persons with that id changes; ids and other fields are kept. |
| AddTransaction.RenameKeepsTotal | screens/add-transaction-screen.tsx:88-97 | Renaming never changes the collective total. |
| AddTransaction.UnparsedAmountPoisons | screens/add-transaction-screen.tsx:92-97 | One unparseable amount makes the collective total `NaN`. |
| AddTransaction.Amounts | screens/add-transaction-screen.tsx:94 | Position `k` holds the `k`-th person's parsed amount. |
| AddTransaction.SumAmounts | screens/add-transaction-screen.tsx:93-96 | The same `reduce`, over amounts already parsed. `AddTransaction.PoisonedSum` and `AddTransaction.TotalIsSum` state it. |
| AddTransaction.TotalIsSum | screens/add-transaction-screen.tsx:92-97 | The collective total is the sum of the parsed amounts. |
| AddTransaction.PoisonedSum | screens/add-transaction-screen.tsx:93-96 | A sum with one `NaN` term is `NaN`. |
| AddTransaction.NaNTotalHasUnparsed | screens/add-transaction-screen.tsx:92-97 | A `NaN` total comes from an unparseable amount. |
| AddTransaction.ValidateFormFirstFailure | screens/add-transaction-screen.tsx:99-122 | The checks run in the order description, amount, persons, split, and the first failure is reported. |
| AddTransaction.ValidFormComplete | screens/add-transaction-screen.tsx:99-113 | An accepted form has a description and an amount, and when collective every person is complete. |
| AddTransaction.ValidFormSplit | screens/add-transaction-screen.tsx:114-119 | In an accepted collective form, the split and the amount differ by at most a cent when both parse. |
| AddTransaction.UnparsedTotalPassesSplit | screens/add-transaction-screen.tsx:114-119 | An unparseable amount passes the split check, because a comparison with `NaN` is false. |
| AddTransaction.Submit | screens/add-transaction-screen.tsx:124-128 | Success is shown exactly when the form passes; otherwise the first failure's alert is shown. |
| RegisterScreen.ValidateForm | screens/register-screen.tsx:40-74 | The form checks. `RegisterScreen.ValidateFormFirstFailure` and `RegisterScreen.AcceptedForm` state them. |
| RegisterScreen.HandleRegister | screens/register-screen.tsx:76-95 | A refused form shows its first failure and touches nothing. Otherwise the screen announces success and goes to the main tabs exactly when the email is not taken, case aside; then one account is appended and signed in. A taken email shows the service's message and changes nothing. |
| RegisterScreen.ValidateFormFirstFailure | screens/register-screen.tsx:40-74 | The checks run as name, email, pattern, password, length, confirmation, and the first failure is reported. |
| RegisterScreen.AcceptedForm | screens/register-screen.tsx:40-74 | A form passes exactly with a name, a matching email, and a password of six or more characters typed twice alike. |
| RegisterScreen.PaddedEmailRefused | screens/register-screen.tsx:46-53 | A padded email passes the blank check but fails the pattern. |
| RegisterScreen.BlankPasswordAccepted | screens/register-screen.tsx:58-63 | The password is not trimmed, so six spaces typed twice are accepted. |
| RegisterScreen.AstralPasswordAccepted | screens/register-screen.tsx:63 | The length check counts UTF-16 code units, so three characters outside the Basic Multilingual Plane, typed twice, are accepted. |
| LoginScreen.ValidateLogin | screens/login-screen.tsx:30-38 | The login checks. `LoginScreen.ValidateLoginFirstFailure` and `LoginScreen.AcceptedLogin` state them. |
| LoginScreen.HandleLogin | screens/login-screen.tsx:29-56 | A refused form leaves the session alone. Otherwise the screen goes to the main tabs exactly when some user matches the credentials, and the session holds that user's profile. When none matches it shows the service's message and the session is unchanged. |
| LoginScreen.ValidateLoginFirstFailure | screens/login-screen.tsx:30-38 | The email is checked before the password, and there are no other checks. |
| LoginScreen.AcceptedLogin | screens/login-screen.tsx:30-38 | The form passes exactly with a non-blank email and a non-empty password; a password of spaces passes. |
| ProfileScreen.ValidateProfile | screens/profile-screen.tsx:67-82 | The profile checks. `ProfileScreen.ValidateProfileFirstFailure` and `ProfileScreen.AcceptedProfile` state them. |
| ProfileScreen.ValidatePassword | screens/profile-screen.tsx:107-125 | The password checks. `ProfileScreen.ValidatePasswordFirstFailure` and `ProfileScreen.AcceptedPassword` state them. |
| ProfileScreen.FormOf | screens/profile-screen.tsx:45-48 | The form filled from the user. `ProfileScreen.UserFormAccepted` proves a well-formed user's form passes. |
| ProfileScreen.UpdatesOf | screens/profile-screen.tsx:87-90 | The name and email as typed, no picture. `ProfileScreen.ProfileUpdateStored` states the record stored from them. |
| ProfileScreen.ProfileView.constructor | screens/profile-screen.tsx:23-41 | Both forms start empty, with both modes off. |
| ProfileScreen.ProfileView.SyncWithUser | screens/profile-screen.tsx:43-50 | A present user refills the profile form; otherwise nothing changes. |
| ProfileScreen.ProfileView.ToggleEditing | screens/profile-screen.tsx:219 | The edit button toggles the editing mode only. |
| ProfileScreen.ProfileView.CancelEditing | screens/profile-screen.tsx:269-275 | Editing ends and the form is restored from the current user. |
| ProfileScreen.ProfileView.ToggleChangingPassword | screens/profile-screen.tsx:305 | The password button toggles the password mode only. |
| ProfileScreen.ProfileView.CancelPasswordChange | screens/profile-screen.tsx:386-391 | The password mode ends and the three fields are cleared. |
| ProfileScreen.ProfileView.HandleUpdateProfile | screens/profile-screen.tsx:67-104 | A refused form calls nothing. Otherwise the signed-in user is rewritten with the name and email as typed, which the service trims and lower-cases, and a success ends editing. A missing user or an email another user has shows the service's message and leaves the table alone. |
| ProfileScreen.ProfileView.HandleChangePassword | screens/profile-screen.tsx:106-145 | A refused form calls nothing. Otherwise the change succeeds exactly when the signed-in user exists and the current password matches; then only that user's password and update time change, the fields are cleared and the mode ends. A failure shows the service's message and keeps the fields. |
| ProfileScreen.ProfileUpdateStored | services/auth-service.ts:200-206 | An accepted profile form rewrites the user with the name trimmed and the email lower-cased and trimmed; the picture and the other fields are kept. |
| ProfileScreen.ValidateProfileFirstFailure | screens/profile-screen.tsx:67-82 | The checks run as name, email, pattern, and the first failure is reported. |
| ProfileScreen.ValidatePasswordFirstFailure | screens/profile-screen.tsx:107-125 | The checks run as current, new, length, confirmation, and the first failure is reported. |
| ProfileScreen.AcceptedProfile | screens/profile-screen.tsx:67-82 | A profile form passes exactly with a name and a matching email. |
| ProfileScreen.AcceptedPassword | screens/profile-screen.tsx:107-125 | A password form passes exactly with a current password and a new one of six or more characters typed twice alike. |
| ProfileScreen.UserFormAccepted | screens/profile-screen.tsx:43-50 | The form filled from a user with a name and a well-formed email passes the checks. |
| SettingsScreen.ValidateSalary | screens/settings-screen.tsx:32-41 | The salary checks. `SettingsScreen.AcceptedSalary` and `SettingsScreen.BlankNeverParses` state them. |
| SettingsScreen.TypedSalary | screens/settings-screen.tsx:37 | The typed number, its first comma read as a point. `SettingsScreen.AcceptedSalary`, `SettingsScreen.BlankNeverParses` and `SettingsScreen.PrefillReadsBack` state it. |
| SettingsScreen.Prefill | screens/settings-screen.tsx:25-29 | The input prefilled from the stored salary. `SettingsScreen.PrefillReadsBack` states it. |
| SettingsScreen.SalaryDisplay | screens/settings-screen.tsx:60-62 | The display is exactly `formatCurrency` of the salary. |
| SettingsScreen.HandleSaveSalary | screens/settings-screen.tsx:31-59 | Refused input stores nothing and shows why; otherwise only the salary is stored, and the success alert goes back. |
| SettingsScreen.AcceptedSalary | screens/settings-screen.tsx:32-41 | A salary is accepted exactly when the typed number, its comma read as a point, is positive. |
| SettingsScreen.BlankNeverParses | screens/settings-screen.tsx:32-37 | Blank text never parses, so the blank check only chooses the message. |
| SettingsScreen.ReplaceFirstWhite | screens/settings-screen.tsx:37 | Replacing a comma leaves a blank string blank. |
| SettingsScreen.PrefillReadsBack | screens/settings-screen.tsx:25-41 | The prefilled input, saved unchanged, stores the same salary. |
| SettingsScreen.CommaRoundTrip | screens/settings-screen.tsx:27-37 | The comma the prefill puts in is the one the save turns back into a point. |
| SettingsScreen.NumberToStringStart | screens/settings-screen.tsx:27 | A positive salary's `toString` starts with a digit. |
| SettingsScreen.SalaryDisplayReadsBack | screens/settings-screen.tsx:60-62 | The display reads back, through `parseCurrency`, as the salary. |

## Left out

- Floating point. Amounts are exact cents.
  - `parseFloat` reads at most two decimals. Further digits are dropped, not rounded.
  - An exponent and `Infinity` are not read.
  - `x.toString()` renders without exponent notation.
  - `toFixed` and `Math.round` work on the exact quotient, so binary rounding never shows.
  - The report's 80% threshold is compared exactly: `5 * expenses > 4 * income`.
  - The split tolerance of 0.01 is read as "at most one cent".
- `toLowerCase`/`toUpperCase` map only ASCII letters. `parseInt` reads only base-10 digits.
- `Array.prototype.sort` is modelled as a stable insertion sort on values. The in-place sort step of `calculateCategoryTotals` assigns the sorted sequence back.
- Category names that look like integers (`"12"`) are not enumerated first, as a JavaScript record would do. Keys keep insertion order.
- AsyncStorage and JSON: each stored key is a field of the class that owns it. Reading an absent key is `None`.
- Storage failures are the parameter `storageFails` in the transaction hooks.
- The generic catch paths of the auth and settings services and of the screens are not modelled. These give the "internal error" results and the "could not save" alerts.
- `storage-service.ts` and `storage-service.tsx` are reached by the same import path and are modelled as one store with the operations of both. `SaveTransaction` returns the saved record, as the `.ts` version does. The `.tsx` version returns nothing; with it, `addTransaction` of hooks/use-transactions.tsx would always answer false and leave its list alone.
- Storage.Stamped, Auth.NewUser, Auth.NewGoogleUser: the source reads the clock twice for one record (`id` and `timestamp` at services/storage-service.ts:19-20, `createdAt` and `updatedAt` at services/auth-service.ts:40-41). The model takes both reads to be the same reading `now`.
- `Date.now()` is the parameter `now`. Two saves in the same millisecond would share an id.
- React state, contexts, effect wiring and asynchrony are reduced to sequential method calls. Hooks hold their store or service as a `const` field.
- The settings hooks (`use-settings.ts`, `use-settings.tsx`) are not part of this model. The screens take the settings as a parameter.
- Rendering, styles, icons, navigation and alert dialogs are left out. Icons are opaque tokens, and a screen's answer is a `Feedback` value.
- Google Sign-In configuration is left out. `LoginWithGoogle` receives the identity as a `GoogleUser`.
- The transaction-detail and category-list screens, the components, `App.tsx` and `app/page.tsx` are not part of this model.
- The `return false` after a successful save in `addTransaction` (hooks/use-transactions.tsx:96) cannot be reached, because the saved record is always truthy. The model has no such path.
- The reports screen's period selector filters nothing, in the source as in the model.
- The add-transaction submit shows its success alert without saving anything, in the source as in the model.
- `removePerson` empties the list when every person carries the removed id. Ids come from the clock, so this needs two persons added in the same millisecond.
- Aggregation.GroupTotals: a category named after a property of `Object.prototype` (`constructor`, `toString`, …) is treated as a fresh key. In JavaScript `totals[c] || 0` then yields the inherited function, and `+` concatenates strings instead of adding.
- Reports.Report: the category counts (screens/reports-screen.tsx:70) treat such names as fresh keys too, for the same reason.
- Storage.TransactionStore.GetCategoryTotals: the same holds for its record (services/storage-service.tsx:113).
- Text.JsLength: a Dafny `char` cannot hold a lone surrogate, so a string with one is not modelled.
- Auth.AuthService.Register: unique emails are proved only for an email without surrounding white space (`Auth.RegisterKeepsUnique`). For a padded email the duplicate check compares the untrimmed input while the trimmed email is stored, and `Auth.RegisterPaddedDuplicate` exhibits a second copy. The register and profile screens refuse such emails before calling the service (`Validation.PaddedEmailRejected`).
- Auth.UpdateKeepsUnique: proved under the same condition, for the same reason.
- The settings screen holds the salary in cents, like every amount. The prefill text is `toString` of that amount in reais.
