# CashFlow ledger core in Dafny

CashFlow is a personal-finance web application. A registered user keeps
categories, each of type INCOME or EXPENSE, and records transactions: an
amount, a type, a description, a category and a date. `lib/data.ts`
defines three reports over the user's transactions for the dashboard charts:
a net cash-flow trend by day, a split by category, and income against expense
by month. The dashboard also shows a lifetime summary. This project models that core as pure functions over an
immutable store (`Ledger.Store`: sequences of users, categories and
transactions) and proves what the reports and actions compute:

- `Reports`: the three queries of `lib/data.ts`.
- `Actions`: the server actions of `app/actions/transactions.ts`. These are
  create and list for transactions and categories, the financial summary,
  and the update of a transaction.
- `AccountDeletion`: the account-deletion route, `app/api/user/delete/route.ts`.
- `Registration`: `registerUser` in `app/actions/auth.ts`, with its ten
  default categories.
- `Initials`: the avatar initials computed in `app/components/dashboard/header.tsx`.
- `Ledger.IsReservedName`: the predicate that singles out the two protected
  category names, "Other Income" and "Other Expenses".

The support modules are these:

- `Grouping`: the "group into a keyed record, then list the entries" idiom
  that all three reports use.
- `DateOrder`: the stable ordering by date behind `orderBy: { date }`.
- `Calendar`: UTC day arithmetic, which gives the day-only ISO strings and
  `new Date("yyyy-mm-dd")`.
- `Scenario`: an end-to-end walk through registration, a first expense and
  the summary.

Modelling choices:

- **Amounts** are integers (cents).
- **Instants** are integer milliseconds since the Unix epoch, in UTC.
- **Ids** are natural numbers. A new row gets one more than the largest id
  in use.
- **Prisma's `where`** is a first-order filter (`Ledger.Where`), applied by
  `Ledger.FindMany` in store order.
- **Sessions** are `Option<UserId>`.
- **Thrown errors** are the `Failure` side of a `Result`. Calls that write
  to the store return `(result, store)`; queries return a bare `Result`.
- **Store failures** are a parameter naming the failing step. This is done
  only where the source catches them: registration (`Registration.Fault`)
  and account deletion (`AccountDeletion.Step`).
- **`toLocaleString`** depends on locale and timezone. It is a parameter
  `monthOf: Instant -> MonthKey`.
- **bcrypt** is a parameter `hash: string -> string`.
- **`Object.entries`** lists a record's keys in insertion order. The one
  exception, integer-like keys, never arises: day strings such as
  "2024-01-10" and month labels such as "Jan 2024" are not integer-like.

Behaviours worth knowing:

- `createTransaction` (app/actions/transactions.ts:19-27) stores whatever
  `categoryId` it is given; it does not check that the category belongs to
  the user, and neither does `updateTransaction`.
- `updateTransaction` (app/actions/transactions.ts:120-127) checks only that
  the transaction belongs to the session user.
- Registration wraps its two writes in `prisma.$transaction`
  (app/actions/auth.ts:30-62). Account deletion does not: it runs three
  separate store calls (app/api/user/delete/route.ts:15-33), so a failure in
  the last call leaves the first two applied.
- Registration seeds ten categories, three INCOME and seven EXPENSE
  (app/actions/auth.ts:41-52).

## Model

| member | source | states |
|---|---|---|
| Ledger.FindMany | lib/data.ts:5-12 | the rows a `findMany` returns are exactly the stored rows that satisfy every given condition of the filter (owner, type, category, date bounds inclusive), and no more of them than are stored |
| Ledger.FindManyNone | lib/data.ts:5-12 | a filter that no stored row satisfies returns the empty list |
| Ledger.FindManyConcat | app/actions/transactions.ts:19-27 | querying a store that has grown by appended rows returns the old answer followed by the matching new rows |
| Ledger.TotalConcat | app/actions/transactions.ts:93-99 | the sum of amounts of two concatenated lists is the sum of their sums |
| Ledger.FindManyTwice | app/actions/transactions.ts:87-99 | filtering the user's rows by type in memory gives the same rows as one query on owner and type together |
| Ledger.FilteredTotalConcat | app/actions/transactions.ts:93-99 | the filtered sum over a grown store is the old filtered sum plus the filtered sum of the new rows |
| Ledger.TotalPermutation | app/actions/transactions.ts:93-99 | any reordering of a list keeps every filtered sum, so the order in which the store returns rows does not affect a total |
| Ledger.CategoriesOf | app/actions/transactions.ts:74-78 | the categories listed for a user are exactly the stored categories whose owner is that user |
| Ledger.CategoriesOfCount | app/actions/transactions.ts:74-78 | each of the user's categories is listed as many times as it is stored and no other category is listed, so no category appears twice unless it is stored twice |
| Ledger.CategoryById | app/actions/transactions.ts:24-26 | the joined category has the transaction's category id, and none is joined when no stored category has that id |
| Ledger.TransactionIndex | app/actions/transactions.ts:121-124 | `findUnique` by id finds the first stored row with that id, or reports that none has it |
| Ledger.NextTransactionId | app/actions/transactions.ts:19-27 | a newly created transaction gets an id no stored transaction has |
| Ledger.NextCategoryId | app/actions/transactions.ts:60-65 | a newly created category gets an id no stored category has |
| Ledger.NextUserId | app/actions/auth.ts:32-38 | a newly created user gets an id no stored user has |
| DateOrder.InsertionPoint | app/actions/transactions.ts:43-45 | the insertion point follows every row that sorts strictly earlier and precedes the first row that sorts no earlier, which is what keeps ties in store order |
| DateOrder.InsertAtKeepsSorted | app/actions/transactions.ts:43-45 | inserting at such a point keeps a date-sorted list sorted |
| DateOrder.SplicePermutes | app/actions/transactions.ts:43-45 | splicing one row into a list adds exactly that row to its multiset |
| DateOrder.Insert | app/actions/transactions.ts:43-45 | inserting into a date-sorted list yields a sorted list holding the old rows plus the new one |
| DateOrder.SortByDate | lib/data.ts:11 | `orderBy: { date }` in either direction returns a date-sorted permutation of the selected rows |
| Grouping.FirstOccurrences | lib/data.ts:22 | the keys a record holds, in insertion order, are pairwise distinct and are exactly the keys seen |
| Grouping.IndexOfKey | lib/data.ts:17 | the lookup `grouped[key]` finds the row of that key, or reports that the key is new |
| Grouping.Group | lib/data.ts:14-26 | the grouped rows have distinct keys, exactly the keys that occur in the input, and no more rows than the input |
| Grouping.WithKeyAbsent | lib/data.ts:17 | a key that never occurs selects no rows |
| Grouping.ColumnsUpdate | lib/data.ts:18-19 | updating one row's sums changes each column total by exactly that row's change |
| Grouping.GroupFirstOccurrenceOrder | lib/data.ts:14-22 | the rows come out in the order in which their keys first occur in the input, which is the insertion order `Object.entries` keeps |
| Grouping.GroupRowSums | lib/data.ts:14-20 | every output row holds the INCOME sum and the non-INCOME sum of exactly the input rows with its key |
| Grouping.GroupConservesTotals | lib/data.ts:14-26 | the income and expense columns of the output add up to the income and expense sums of the whole input |
| Grouping.GroupRanked | lib/data.ts:11-22 | when the input is ordered by a rank that every key respects, the output keys strictly increase in that rank |
| Reports.EntryKeys | lib/data.ts:15-16 | a key occurs among the entries exactly when some selected transaction maps to it |
| Reports.EntrySums | lib/data.ts:18-19 | the income side of the entries sums the INCOME amounts and the other side sums the EXPENSE amounts |
| Reports.GroupedSelection | lib/data.ts:14-26 | grouping any reordering of a query's rows gives one row per key that occurs, and the columns add up to the query's INCOME and EXPENSE totals |
| Reports.GroupedSelectionKeys | lib/data.ts:14-17 | the keys of the grouped rows are exactly the keys of the query's rows |
| Reports.GroupedSelectionColumns | lib/data.ts:18-26 | the grouped columns add up to the query's INCOME and EXPENSE totals |
| Reports.SelectionTotal | lib/data.ts:5-12 | a reordering of the query's rows has the same per-type totals as the query narrowed to that type |
| Reports.SortedDaysRanked | lib/data.ts:11-16 | in rows sorted by ascending date, the UTC days never decrease |
| Reports.CashFlowByDate | lib/data.ts:4-27 | the cash-flow trend has one row per distinct UTC day on which the user has a transaction within the inclusive range, listed by strictly increasing day, and its columns add up to the range's INCOME and EXPENSE totals |
| Reports.CashFlowRowSums | lib/data.ts:4-20 | each day's row holds the INCOME total and the EXPENSE total of exactly the user's transactions in the range that fall on that UTC day, whatever order the store returned them in |
| Reports.GroupedCategoryIds | lib/data.ts:39-52 | `groupBy` yields each category id used by the user's transactions of the type in the range exactly once, and no other id |
| Reports.GroupedCategoryIdsInStoreOrder | lib/data.ts:39-52 | the group ids come in the order in which their first transaction occurs in the store |
| Reports.MappedName | lib/data.ts:54-65 | `categoryMap[id]` is the name of one of the user's categories of the type that has that id, and is missing when none has it |
| Reports.CategoryLabel | lib/data.ts:68 | a group's label is never empty; it is the mapped name, or "Unknown" when the name is missing or empty, and always "Unknown" for an id that is not one of the user's categories of that type |
| Reports.CategoryLabelOfOwnCategory | lib/data.ts:54-68 | with category ids unique, a group of the user's own category of that type is labelled with its name, or "Unknown" if the name is empty |
| Reports.ValueSumOfGroups | lib/data.ts:67-70 | the values of the listed rows add up to the two columns of the groups they come from |
| Reports.WithCategoryKey | lib/data.ts:39-52 | the entries of one category are the entries of the query narrowed to that category |
| Reports.KeyedRows | lib/data.ts:15-17 | the transactions filed under one key are exactly the input transactions with that key |
| Reports.WithKeyEntries | lib/data.ts:15-19 | the entries filed under one key are the entries of the transactions with that key |
| Reports.KeyedRowsPermutation | lib/data.ts:11-17 | reordering the input only reorders the transactions filed under each key |
| Reports.GroupRowTotals | lib/data.ts:14-26 | grouping any reordering of the selected transactions gives each key's row the INCOME and EXPENSE totals of exactly the selected transactions with that key |
| Reports.EntriesTotal | lib/data.ts:49-51 | both sides of the entries together sum every amount |
| Reports.FindManyAll | lib/data.ts:5-12 | the filter with no conditions returns every row in store order |
| Reports.TotalSplitsByKind | app/actions/transactions.ts:93-104 | the INCOME total and the EXPENSE total together make up the total of all rows |
| Reports.TotalsByCategory | lib/data.ts:30-71 | the category split has one entry per grouped category id, in the same order; entry i is labelled as `categoryMap[id] \|\| "Unknown"` and holds the total of the user's transactions of that type, category and range; the values add up to the total of the whole query |
| Reports.Labelled | lib/data.ts:67-70 | labelling keeps the number and order of the groups, and each value is its group's sum |
| Reports.TotalsByCategoryFacts | lib/data.ts:39-52 | the groups' sums add up to the total of the whole `groupBy` query |
| Reports.TotalsByCategoryRowValues | lib/data.ts:49-51 | each group's `_sum.amount` is the total of the query narrowed to its category |
| Reports.LabelledReport | lib/data.ts:67-70 | row i of the labelled list belongs to the i-th group id |
| Reports.CategorySubtotal | lib/data.ts:49-51 | the entries of one category add up to the total of the query narrowed to that category |
| Reports.MonthlyIncomeExpense | lib/data.ts:74-101 | the monthly report as written has one row per distinct month label among the user's transactions from midnight UTC on January 1 to midnight UTC starting December 31, and its columns add up to that window's INCOME and EXPENSE totals |
| Reports.MonthlyRowSums | lib/data.ts:86-93 | each month's row holds the INCOME total and the EXPENSE total of exactly the user's transactions in the window that carry that month label |
| Reports.MonthlyFirstOccurrenceOrder | lib/data.ts:86-100 | the months are listed in the order in which they first occur among the rows the store returned |
| Reports.SortedMonthsRanked | lib/data.ts:86-93 | in date-sorted rows, under a month function that follows time, each later month label is the same month or a later one |
| Reports.MonthlyChronologicalWhenSorted | lib/data.ts:95-100 | when the store happens to return the rows in date order, under a month function that follows time, the months are listed chronologically |
| Reports.YearWhereIsUtcYear | lib/data.ts:75-76 | the corrected window selects exactly the user's transactions in the UTC calendar year |
| Reports.MonthlyIncomeExpenseCorrected | lib/data.ts:74-101 | the corrected report covers the whole calendar year, has one row per month label that occurs, adds up to the year's totals, and lists the months chronologically whenever the month function follows time |
| Reports.MonthlyCorrectedRowSums | lib/data.ts:86-93 | each month's row of the corrected report holds the INCOME and EXPENSE totals of exactly the user's transactions of the calendar year with that month label |
| Reports.SortedMonthsGroupInOrder | lib/data.ts:95-100 | under a month function that follows time, grouping date-sorted rows by month lists the months in chronological order |
| Reports.December31Window | lib/data.ts:75-81 | noon UTC on December 31 lies in the year, yet the as-written window selects nothing at that instant |
| Reports.MonthlyMissesDecember31 | lib/data.ts:75-84 | a transaction at noon UTC on December 31 is missing from the report as written but counted by the corrected report |
| Reports.SampleDates | lib/data.ts:75-81 | the two sample expenses of 10 January and 10 February 2024 fall in both windows, and the sample month function follows time |
| Reports.SampleSelection | lib/data.ts:78-84 | the as-written query returns the two sample rows in store order |
| Reports.TwoMonthsFirstOccurrences | lib/data.ts:90 | two different months keep their order of first occurrence |
| Reports.MonthlyFollowsStoreOrder | lib/data.ts:95-100 | with February stored before January, the report as written lists February first, contrary to "sorted by month" |
| Reports.MonthlyCorrectedSortsMonths | lib/data.ts:95-100 | for the same store the corrected report lists January first |
| Reports.CorrectedMonthlyCounts | lib/data.ts:74-93 | every transaction of the user in the calendar year shows up under its month in the corrected report |
| Reports.TwoKeysInOrder | lib/data.ts:95-100 | a chronologically ordered report of two known months lists them earlier month first |
| Calendar.DayOf | lib/data.ts:16 | `toISOString().slice(0, 10)` names the UTC day whose 24 hours contain the instant |
| Calendar.DayOfMonotone | lib/data.ts:11-16 | a later instant never falls on an earlier UTC day |
| Calendar.MidnightUtc | lib/data.ts:75-76 | `new Date("yyyy-mm-dd")` is the start of that UTC day: an instant on a whole-day boundary that falls on the day the calendar formula gives |
| Calendar.NewYearFollowsDecember31 | lib/data.ts:75-76 | January 1 of the next year is the day right after December 31 |
| Calendar.KnownDays | lib/data.ts:75 | the day formula gives day 0 at 1970-01-01 and the known day numbers of January 1 and February 1, 2024 |
| Calendar.KnownYearEnd2024 | lib/data.ts:76 | the day formula gives the known day numbers of 2024-12-31 and 2025-01-01 |
| Calendar.MonthRankInjective | lib/data.ts:89 | two valid months with the same chronological rank are the same month |
| Actions.Joined | app/actions/transactions.ts:24-26 | `include: { category: true }` attaches the stored category with the transaction's category id, or nothing when there is none |
| Actions.CreateTransaction | app/actions/transactions.ts:7-28 | with no session it fails with "Not authenticated" and leaves the store alone; otherwise it appends one transaction with a fresh id, owned by the session user, carrying exactly the supplied fields, returns it with its category, and keeps transaction ids unique |
| Actions.GetTransactions | app/actions/transactions.ts:30-47 | with no session it fails; otherwise it returns a permutation of exactly the session user's transactions, newest first, each with its category |
| Actions.GetTransactionsIsExactlyOwn | app/actions/transactions.ts:36-39 | a transaction is listed for a user if and only if it is stored and owned by that user |
| Actions.CreatedTransactionIsListed | app/actions/transactions.ts:7-47 | after creation a transaction is listed for its creator if and only if it is the new one or was listed before |
| Actions.CreateMovesSummary | app/actions/transactions.ts:7-28 | creating a transaction raises the creator's total income or total expenses by its amount, according to its type, and leaves the other total unchanged |
| Actions.CreateMovesTotal | app/actions/transactions.ts:93-99 | creating a transaction raises the creator's total of one type by its amount exactly when it has that type |
| Actions.CreateCategory | app/actions/transactions.ts:49-66 | with no session it fails; otherwise it appends one category with a fresh id, owned by the session user and carrying the supplied fields, even if the name is already in use, and keeps category ids unique |
| Actions.GetCategories | app/actions/transactions.ts:68-79 | with no session it fails; otherwise it returns exactly the session user's categories, each as many times as it is stored |
| Actions.CreatedCategoryIsListed | app/actions/transactions.ts:49-79 | after creation a category is listed for its creator if and only if it is the new one or was listed before |
| Actions.GetFinancialSummary | app/actions/transactions.ts:81-106 | with no session it fails; otherwise total income and total expenses are the sums of the user's INCOME and EXPENSE amounts, and the balance is their difference |
| Actions.SummaryDependsOnlyOnOwnRows | app/actions/transactions.ts:87-105 | two stores holding the same transactions of a user, in any order, give that user the same summary |
| Actions.UpdateTransaction | app/actions/transactions.ts:108-138 | with no session it fails with "Not authenticated"; a missing transaction or one owned by someone else fails with "Unauthorized"; every failure leaves the store unchanged; a success overwrites only the found row with the five supplied fields, keeping its id and owner, and returns that row joined with its category in the new store |
| Actions.UpdateTransactionIdempotent | app/actions/transactions.ts:129-137 | applying the same update twice gives the same store as applying it once |
| Actions.TransactionIndexStable | app/actions/transactions.ts:121-130 | overwriting the found row keeps it the first row with that id |
| Actions.UpdateKeepsIdsUnique | app/actions/transactions.ts:129-137 | an update keeps transaction ids unique |
| AccountDeletion.TransactionsNotOf | app/api/user/delete/route.ts:15-19 | `transaction.deleteMany` keeps exactly the transactions owned by other users |
| AccountDeletion.CategoriesNotOf | app/api/user/delete/route.ts:22-26 | `category.deleteMany` keeps exactly the categories owned by other users |
| AccountDeletion.UsersNotWithId | app/api/user/delete/route.ts:29-33 | `user.delete` keeps exactly the other users |
| AccountDeletion.DeleteAccount | app/api/user/delete/route.ts:6-40 | without a session it answers 401 "Unauthorized" and changes nothing; success answers 200 "Account deleted successfully" and removes exactly the user, their transactions and their categories; a failing step, or a missing user, answers 500 "Internal error" with the earlier steps already applied |
| AccountDeletion.DeletedAccountLeavesNothing | app/api/user/delete/route.ts:14-35 | after a successful deletion the answer is 200 and the store holds no transaction, category or user row of that user |
| AccountDeletion.FailedUserDeleteKeepsEarlierSteps | app/api/user/delete/route.ts:28-39 | when deleting the user row fails, the answer is 500, the user row is still there and the user's transactions and categories are already gone |
| AccountDeletion.DeletionOrderKeepsIntegrity | app/api/user/delete/route.ts:14-33 | deleting transactions, then categories, then the user keeps every reference intact after each step |
| AccountDeletion.CategoriesFirstBreaksIntegrity | app/api/user/delete/route.ts:14-26 | deleting the categories before the transactions that use them would leave dangling references |
| Registration.CountKind | app/actions/auth.ts:41-52 | the number of seeds of a type is at most the number of seeds |
| Registration.CountKindAppend | app/actions/auth.ts:41-52 | counting seeds of a type distributes over concatenation |
| Registration.CountKindUniform | app/actions/auth.ts:41-52 | a list of seeds all of one type counts every seed for that type and none for any other type |
| Registration.DefaultCategoryMix | app/actions/auth.ts:41-52 | there are ten default categories, three INCOME and seven EXPENSE, including "Other Income" (#8b5cf6) and "Other Expenses" (#64748b) |
| Ledger.ReservedNamesAreExact | app/components/categories/delete-category-dialog.tsx:35 | the deletion dialog protects exactly "Other Income" and "Other Expenses", compared with case and spacing intact |
| Registration.ReservedDefaults | app/components/categories/delete-category-dialog.tsx:35 | among the defaults, exactly the third (INCOME) and the tenth (EXPENSE) carry a name the deletion dialog protects |
| Registration.DefaultNamesDistinct | app/actions/auth.ts:41-52 | the ten default names are pairwise different |
| Registration.RegisterUser | app/actions/auth.ts:6-75 | a lookup failure gives "Failed to create account"; a taken e-mail gives "User already exists"; any later failure gives "Failed to create account"; any rejection leaves the store unchanged; otherwise it adds one user with a fresh id, the given name and e-mail and the hashed password, plus ten categories owned by that user, and leaves the transactions alone |
| Registration.RegisterKeepsEmailsUnique | app/actions/auth.ts:13-24 | a successful registration keeps e-mail addresses unique |
| Registration.RegisterKeepsIntegrity | app/actions/auth.ts:30-62 | registration keeps every reference intact |
| Registration.CategoriesOfAppend | app/actions/auth.ts:54-59 | a user's categories in a grown list are their old ones followed by their new ones |
| Registration.CategoriesOfNone | app/actions/auth.ts:32-38 | a user who owns no stored category has an empty category list |
| Registration.CategoriesOfAll | app/actions/auth.ts:54-59 | a list all owned by one user is that user's whole list |
| Registration.NewUserOwnsDefaults | app/actions/auth.ts:30-62 | after registering, the new user owns exactly the ten seeded default categories |
| Initials.CountSpaces | app/components/dashboard/header.tsx:22 | the number of spaces is at most the length |
| Initials.Split | app/components/dashboard/header.tsx:22 | `split(" ")` yields one more piece than there are spaces, and no piece contains a space |
| Initials.JoinSnocLast | app/components/dashboard/header.tsx:22 | adding a character to the last piece adds it to the end of the joined text |
| Initials.JoinSplit | app/components/dashboard/header.tsx:22 | joining the pieces of `split(" ")` with spaces gives back the name |
| Initials.FirstChars | app/components/dashboard/header.tsx:23-24 | mapping each piece to `n[0]` and joining gives at most one character per piece, since empty pieces contribute nothing |
| Initials.ToUpper | app/components/dashboard/header.tsx:25 | `toUpperCase` keeps the length, maps each ASCII lower-case letter to its capital and keeps every other character |
| Initials.InitialsOf | app/components/dashboard/header.tsx:21-25 | a missing name gives no initials; otherwise there is at most one initial per space-separated piece and none is a lower-case letter |
| Initials.LastPieceEmpty | app/components/dashboard/header.tsx:22 | the last piece is empty exactly when the name is empty or ends in a space |
| Initials.FirstCharsSnoc | app/components/dashboard/header.tsx:23-24 | one more piece adds its first character, or nothing if it is empty |
| Initials.SplitSnocLetter | app/components/dashboard/header.tsx:22-24 | a non-space character adds an initial exactly when it starts a new word |
| Initials.SplitSnocSpace | app/components/dashboard/header.tsx:22-24 | a trailing space adds no initial |
| Initials.FirstCharsAreWordStarts | app/components/dashboard/header.tsx:22-24 | the characters the expression collects are exactly the word starts: the non-space characters at the beginning or after a space, in order |
| Initials.InitialsAreWordStarts | app/components/dashboard/header.tsx:21-25 | the initials of a name are its word starts in upper case |
| Initials.WordStartsSpace | app/components/dashboard/header.tsx:22-24 | a trailing space adds no word start |
| Initials.WordStartsContinue | app/components/dashboard/header.tsx:22-24 | characters continuing a word add no word start |
| Initials.WordStartsStart | app/components/dashboard/header.tsx:22-24 | a non-space character after a space, or at the beginning, is a word start |
| Initials.WordStartsWord | app/components/dashboard/header.tsx:22-24 | a whole word after a space contributes exactly its first character |
| Initials.WordStartsJohnDoe | app/components/dashboard/header.tsx:22-24 | the word starts of "John Doe" are "JD" |
| Initials.WordStartsLowerCase | app/components/dashboard/header.tsx:22-24 | the word starts of "jo  doe", with its double space, are "jd" |
| Initials.UpperCaseTwoLetters | app/components/dashboard/header.tsx:25 | upper-casing leaves "JD" alone and turns "jd" into "JD" |
| Initials.InitialsExamples | app/components/dashboard/header.tsx:21-25 | "John Doe" and "jo  doe" both give "JD", and the empty name gives the empty string |
| Scenario.NewUserHasNoTransactions | app/actions/transactions.ts:87-99 | when every transaction has an existing owner, a user unknown to the store owns none of them |
| Scenario.SummaryOfTotals | app/actions/transactions.ts:93-105 | the summary is determined by the user's INCOME and EXPENSE totals |
| Scenario.RegisteredUserStartsAtZero | app/actions/auth.ts:30-62 | right after registration the new user's summary is zero income, zero expenses and a zero balance |
| Scenario.SpendFromZero | app/actions/transactions.ts:7-28 | recording a 5000-cent EXPENSE on empty totals gives totals of 0 and 5000 |
| Scenario.RegisterThenSpend | app/actions/transactions.ts:81-106 | a newly registered user who records a 5000-cent EXPENSE sees income 0, expenses 5000 and a balance of -5000 |

## Left out

- Prisma, the database and its foreign-key checks are not modelled. The store is three immutable sequences, and `createTransaction` appends the row whether or not its category exists; `Actions.Joined` then joins nothing.
- Store failures in the server actions of `app/actions/transactions.ts` and in the report queries of `lib/data.ts` are not modelled. Neither file catches them, so they would simply propagate; only the session check and `updateTransaction`'s ownership check are modelled errors.
- Arguments are taken as well typed. `createTransaction`, `createCategory` and `updateTransaction` spread `data` into the store call as it arrives, so a client that sends extra fields could set `id` in the two creates (the session's `userId` is written after the spread and wins) and `id` or `userId` in the update; the model's `TransactionData` and `CategoryData` carry only the declared fields, and "keeps the id and the owner" holds only for such calls.
- The order in which `groupBy` returns its groups is unspecified by Prisma. The model takes the order in which each category id first occurs in store order.
- Ties among equal dates in `orderBy: { date }` are resolved by keeping store order (a stable sort); the database promises no particular tie order.
- Calendar.DayOf / Calendar.MidnightUtc: day keys and year windows are faithful for years 0000 to 9999 only. Outside that range `toISOString()` writes a six-digit signed year, so `slice(0, 10)` is no longer a day, and `new Date("<year>-01-01")` with a year of other than four digits is no longer an ISO date-only string, so how it is parsed is implementation-defined.
- `toLocaleString` with the runtime's locale and timezone is the parameter `monthOf`. `new Date("yyyy-mm-dd")`, day-only ISO strings and `toISOString` are modelled in UTC, as the JavaScript standard defines them.
- Parsing of user-typed dates, JavaScript `Date` objects beyond an integer millisecond count, and floating-point amounts are not modelled. Amounts are integers.
- The `_sum.amount || 0` fallback in `getTotalsByCategory` never applies: every group holds at least one row, so its sum is defined. A zero sum is kept as zero.
- bcrypt hashing is the parameter `hash`; salts and cost are not modelled.
- Sessions and NextAuth are the parameter `session`.
- Concurrency is not modelled: the race between two registrations with the same e-mail, and the interleaving of the three deletion steps with other requests.
- Ids are natural numbers chosen as one more than the largest in use; Prisma's cuid strings are not modelled.
- The category and transaction DELETE endpoints (`app/api/categories/[id]/route.ts`, `app/api/transactions/[id]/route.ts`) and all user-interface components are not part of this model. From the category deletion dialog only the reserved-name predicate is kept.
- Initials.ToUpper: upper-cases ASCII letters only, because `toUpperCase` follows the full Unicode case mapping; strings are sequences of characters, not UTF-16 code units.
- `userName?.` treats `null` and `undefined` alike; both are `None` in the model.
- The `console.error` logging in the catch blocks of registration and account deletion is not modelled.
- A failure inside Prisma's `$transaction` during registration is taken to roll back both writes, as Prisma promises; the model leaves the store unchanged on every rejection.

## Findings

| source | as written | input that shows it | evidently intended | confidence | as-written member | corrected member |
|---|---|---|---|---|---|---|
| lib/data.ts:75-81 | the year window ends at `new Date("<year>-12-31")`, midnight UTC at the start of December 31, and `lte` includes only that instant of the last day | a transaction dated noon UTC on 2024-12-31, with year 2024 | the whole of December 31 belongs to the year; the window should end before January 1 of the next year | not executed | Reports.MonthlyMissesDecember31 | Reports.MonthlyIncomeExpenseCorrected |
| lib/data.ts:95-100 | the comment says "sorted by month", but the rows are listed in the order the store returned them, and the query has no `orderBy` | an expense on 2024-02-10 stored before one on 2024-01-10: the report lists February first | months in chronological order | not executed | Reports.MonthlyFollowsStoreOrder | Reports.MonthlyCorrectedSortsMonths |
