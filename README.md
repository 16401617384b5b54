# E-commerce sales dashboard, modelled in Dafny

This project models the computational core of a Streamlit sales dashboard.

The dashboard works on a table of transactions. Each transaction has these columns:

- date;
- product name;
- category;
- quantity;
- unit price;
- total amount;
- customer id;
- customer location, a US state.

The table comes from one of two generators. Both generators produce one year of days. Each day gets a number of sales that depends on the season, the weekend and some random noise. Each sale gets a customer id from a counter that either mints a new id or reuses an earlier one. The generators are:

- `load_sample_data`, built into the app;
- `generate_sample_data`, a stand-alone script that writes the table out, with dates as `YYYY-MM-DD` text.

On this table the dashboard does the following:

- it filters by an inclusive date range, which by default is the table's own first and last day;
- it computes the KPIs: revenue, orders, distinct customers, average order value, and the growth from the second-latest month to the latest month;
- it builds four group-by-sum views: by date; by category; the top 10 products, ascending; and the top 15 states, descending;
- it lists the top 5 products, with ranks 1 to 5, for the PDF report.

Modules, one per file:

- `Dates` (dates.dfy): calendar dates and leap years; Monday-based weekdays (Python's `weekday()`); days in a row; month keys; zero-padded `YYYY-MM-DD` text and its parser.
- `Sales` (sales.dfy): the transaction record, the table, the revenue sum, the set of distinct customers, and date order.
- `Grouping` (grouping.dfy):
  - a generic group-by-sum with one entry per key, as pandas `groupby(...).sum()` has. Its keys come in reverse order of their last occurrence in the table; pandas sorts them instead, and every view that needs an order sorts the result;
  - a generic insertion sort under any total preorder, which stands in for `sort_values`.
- `Dashboard` (dashboard.dfy): the date filter, the aggregation views, the PDF top 5 and `calculate_kpis`. All are pure functions, like the pandas pipelines they model.
- `Generation` (generation.dfy): what the two generators share:
  - the random draws of one sale;
  - `max(1, int(...))`, the daily count;
  - the span of days;
  - building a sale from a catalogue;
  - the day-by-day block structure of the output.
- `AppSampleData` (app_sample.dfy): `load_sample_data` as an imperative method with its day loop and transaction loop.
- `SampleGenerator` (sample_generator.dfy): `generate_sample_data` as an imperative method that builds `YYYY-MM-DD` rows.

Modelling choices:

- Money is held in integer cents.
- The decimal multipliers are held in tenths and the normal noise in hundredths. The daily count is therefore `max(1, trunc(base * season * weekend * noise / 10000))`, with truncation toward zero as Python's `int()` does. The noise may be negative, as `np.random.normal` can return.
- Randomness becomes two oracle inputs:
  - `noise(d)` for day `d`;
  - `draws(k)` for sale `k`, a record of naturals. Each natural is reduced into the range of the numpy call it replaces: category, product, price in cents, quantity slot, state, the new-customer coin in tenths, and the returning id.
- The current time becomes the input `start`, the run's day minus 365 days. `pd.date_range` then yields 366 consecutive days.
- The month-over-month growth is kept as an exact ratio `num/den`, where num is `(latest - previous) * 100` and den is `previous`.

Behaviour of the code that the model keeps:

- `calculate_kpis` has no guard for an empty table, and `mean()` of no rows is NaN. app.py:330 calls it only on a non-empty table, so `CalculateKpis` requires one.
- In `load_sample_data` every returning customer's id was minted by an earlier sale (`AppSampleData.ReturningWasMinted`). In `generate_sample_data` that fails for id 1000. There `randint(1000, customer_id + 1)` can return 1000, but the first new customer gets 1001, so 1000 is never minted (`SampleGenerator.Id1000NeverMinted`).
- The rankings use pandas' default `sort_values`, which is not stable. The model proves nothing about the order of tied values.

## Model

| member | source | states |
|---|---|---|
| Dates.DateRange | app.py:55 | `pd.date_range(..., freq='D')`: n valid days beginning with start. Each day is the next day after the previous one, and the days are strictly increasing. |
| Dates.NextDay | app.py:55 | The next calendar day is valid and comes strictly later, and no valid day lies strictly between the two. |
| Dates.DaysInMonth | app.py:55 | A month has 28 to 31 days. February has 29 exactly in leap years. |
| Dates.WeekdayOfNextDay | app.py:81 | Within a month, the next day falls on the next weekday (mod 7). |
| Dates.Weekday | app.py:81 | `date.weekday()`, in 0..6 with Monday 0. That it is Python's numbering is fixed by WeekdayAnchors and WeekdayOfAnyNextDay. |
| Dates.WeekdayAnchors | app.py:81 | `date.weekday()` numbers Monday 0: 1 January 2024, a Monday, is 0 and 1 June 2024, a Saturday, is 5. |
| Dates.WeekdayOfAnyNextDay | app.py:81 | Every next calendar day, across month and year ends too, has the next weekday (mod 7). Together with the anchors this fixes the weekday of every day. |
| Dates.MonthEndStep | app.py:81 | The first of a month falls one weekday after the last day of the month before, February of leap years included. |
| Dates.MonthOf | app.py:138 | `to_period('M')` is the projection of a day onto its year and month; its order and its identification of days are stated by MonthOfMonotone. |
| Dates.MonthOfMonotone | app.py:138 | The month key (`to_period('M')`) preserves date order. Two dates share a key exactly when they share year and month. |
| Dates.MonthLeIsTotalOrder | app.py:218 | Month keys are totally ordered, as the sorted `groupby` index is. |
| Dates.DateLeIsTotalOrder | app.py:146 | Date keys are totally ordered. |
| Dates.FormatDate | sample_data/generate_samle.py:79 | `strftime('%Y-%m-%d')` gives 10 characters: digits, with '-' at positions 4 and 7. |
| Dates.FormatDateRoundTrip | sample_data/generate_samle.py:79 | Parsing the formatted text gives back the same day. |
| Dates.PaddedRoundTrip | sample_data/generate_samle.py:79 | Reading back a zero-padded field gives its number. |
| Sales.TotalRevenue | app.py:212 | The sum of `total_amount` is non-negative when every amount is. |
| Sales.TotalRevenueAppend | app.py:212 | The revenue of two tables together is the sum of their revenues. |
| Sales.CustomerIds | app.py:214 | `nunique` counts a set that holds every row's id and only rows' ids. |
| Sales.CustomerIdsAtMostRows | app.py:213-214 | There are never more distinct customers than rows. |
| Grouping.GroupSum | app.py:146 | `groupby(key)['total_amount'].sum()` has one entry per key that occurs, and only those keys. Each key's value is the revenue of its rows. The values sum to the table's revenue, so the grouping partitions the rows. |
| Grouping.AddToFacts | app.py:146 | Adding one row's amount keeps the keys distinct and adds the amount to its key alone. |
| Grouping.Sort | app.py:163 | `sort_values` is a permutation, of the same length, sorted under the order. |
| Grouping.InsertFacts | app.py:163 | Inserting into a sorted sequence keeps it sorted and adds exactly one element. |
| Grouping.SortGroups | app.py:163 | Sorting a grouping keeps its keys distinct, its key set and its total. |
| Grouping.SortMembers | app.py:163 | Sorting neither adds nor drops an entry. |
| Grouping.DistinctKeysCount | app.py:163 | A grouping with distinct keys has as many entries as keys. |
| Grouping.ValueOfEntry | app.py:146 | With distinct keys, looking up an entry's key gives that entry's value. |
| Dashboard.FilterByDate | app.py:327 | `df[(date >= start) & (date <= end)]` keeps no more rows than it is given. Every row it keeps lies within [start, end]. |
| Dashboard.FilterByDateCounts | app.py:327 | The filter keeps each row of the range with its multiplicity and drops every other row. |
| Dashboard.FilterKeepsOrder | app.py:327 | Filtering distributes over concatenation, so kept rows stay in their original order. |
| Dashboard.FilterCoveringRange | app.py:327 | A range that covers every row returns the table unchanged. |
| Dashboard.MinDate | app.py:315 | `df['date'].min()` is a date of the table, and no row is earlier. |
| Dashboard.MaxDate | app.py:316 | `df['date'].max()` is a date of the table, and no row is later. |
| Dashboard.DefaultSelection | app.py:315-323 | On a non-empty table the default widget value is the pair (min_date, max_date), and the first is not later than the second. |
| Dashboard.SelectDateRange | app.py:314-327 | An empty table is left alone, and so is a selection that is not two dates. Otherwise the result is the date filter of the selection: no longer than the table and within the selected range. |
| Dashboard.DefaultSelectionKeepsAll | app.py:314-327 | Filtering by the table's own [min_date, max_date] returns the table row for row. |
| Dashboard.SortedGrouping | app.py:163 | A sorted grouping keeps distinct keys, the key set, one entry per key, the total and each key's revenue, and it is sorted. |
| Dashboard.SortedEntry | app.py:163 | Each entry of a sorted grouping is a key of the table and carries that key's revenue. |
| Dashboard.SalesByDate | app.py:146 | The daily sales, sorted by date; its properties are those of SalesByDateFacts. |
| Dashboard.SalesByDateFacts | app.py:146 | The daily sales are strictly increasing by date and cover exactly the table's dates. Each date's value is its revenue, and the values sum to the table's revenue. |
| Dashboard.SalesByCategory | app.py:181 | The revenue per category; its properties are those of SalesByCategoryFacts. |
| Dashboard.SalesByCategoryFacts | app.py:181 | The category view has one entry per category present, each with its revenue, and the values sum to the table's revenue. |
| Dashboard.KeepLast | app.py:163 | `tail(n)` of an ascending grouping has min(n, length) entries and stays distinct and ascending. |
| Dashboard.KeepLastOmitted | app.py:163 | An entry that `tail(n)` drops is worth no more than any entry it keeps. |
| Dashboard.KeepFirst | app.py:195 | `head(n)` of a descending grouping has min(n, length) entries and stays distinct and descending. |
| Dashboard.KeepFirstOmitted | app.py:195 | An entry that `head(n)` drops is worth no more than any entry it keeps. |
| Dashboard.ProductsAscendingFacts | app.py:163 | The products sorted ascending have one entry per product, each with its revenue. |
| Dashboard.TopProducts | app.py:163 | The last 10 entries of the products sorted ascending; its properties are those of TopProductsFacts. |
| Dashboard.TopProductsFacts | app.py:163 | The product chart has min(10, number of products) entries, distinct and ascending by revenue, each holding its product's revenue. No omitted product out-earns an included one. |
| Dashboard.TopProductsShape | app.py:163 | The product chart has at most 10 distinct entries, ascending. |
| Dashboard.TopProductsEntries | app.py:163 | Every charted product occurs in the table and shows its revenue. |
| Dashboard.TopProductsLeftOut | app.py:163 | No product left out of the top 10 earns more than a charted one. |
| Dashboard.TopProductsOmitted | app.py:163 | The same, for one omitted product and one charted entry. |
| Dashboard.ValuesDescendingFacts | app.py:195 | A grouping sorted descending has one entry per key, each with its revenue. |
| Dashboard.TopDescending | app.py:195 | The first n entries of a grouping sorted descending; its properties are those of TopDescendingFacts. |
| Dashboard.TopDescendingFacts | app.py:195 | `sort_values(ascending=False).head(n)` has min(n, number of keys) distinct, descending entries with their revenues. No omitted key out-earns a kept one. |
| Dashboard.TopDescendingShape | app.py:195 | A descending top n has min(n, keys) distinct, descending entries. |
| Dashboard.TopDescendingEntries | app.py:195 | Each kept key occurs in the table and carries its revenue. |
| Dashboard.TopDescendingLeftOut | app.py:195 | No key left out earns more than a kept one. |
| Dashboard.TopDescendingOmitted | app.py:195 | The same, for one omitted key and one kept entry. |
| Dashboard.IndexOfKey | app.py:195 | A key of a grouping sits at some index. |
| Dashboard.TopRegions | app.py:195 | The top 15 states by revenue; its properties are those of TopRegionsFacts. |
| Dashboard.TopRegionsFacts | app.py:195 | The state chart has min(15, states) entries, descending by revenue, each holding its state's revenue. No omitted state out-earns a shown one. |
| Dashboard.PdfTopProducts | app.py:259-262 | The top 5 products numbered from 1; its properties are those of PdfTopProductsFacts. |
| Dashboard.PdfTopProductsFacts | app.py:259-262 | The PDF list has min(5, products) entries with ranks 1, 2, ... in order. Revenues do not increase down the list. Products are distinct and carry their revenues, and no unlisted product out-earns a listed one. |
| Dashboard.PdfTopProductsShape | app.py:259-262 | At most 5 entries, ranked 1..n consecutively, non-increasing, distinct products. |
| Dashboard.PdfTopProductsEntries | app.py:259-262 | Each listed product occurs in the table with its revenue. |
| Dashboard.PdfTopProductsLeftOut | app.py:259-262 | No unlisted product earns more than a listed one. |
| Dashboard.MonthlySales | app.py:218 | The revenue per month, sorted by month; its properties are those of MonthlySalesFacts. |
| Dashboard.MonthlySalesFacts | app.py:218 | The monthly sales have one entry per month present, in strictly increasing month order, each month with its revenue. |
| Dashboard.Growth | app.py:220 | The growth ratio has the previous revenue as its denominator. For a positive previous revenue it is negative exactly when revenue fell, and zero exactly when it stayed level. |
| Dashboard.MomGrowth | app.py:218-222 | The growth always has a positive denominator. |
| Dashboard.MomGrowthSingleMonth | app.py:219-222 | Fewer than two months present gives growth 0. |
| Dashboard.MomGrowthOfLastTwoMonths | app.py:218-222 | The growth compares the latest month with the second-latest month present (`iloc[-1]`, `iloc[-2]`): `(latest - previous) * 100 / previous`. It is negative exactly when the latest month earned less. |
| Dashboard.CalculateKpis | app.py:210-230 | Revenue is the total of `total_amount`, and orders is the row count. Unique customers is the number of distinct ids, between 1 and the row count. The average is revenue over orders, and the growth is MomGrowth. |
| Dashboard.RevenueMatchesViews | app.py:146 | The KPI revenue equals the sum of the by-date view and the sum of the by-category view. |
| Generation.Interval | app.py:116 | The integers lo..hi-1, exactly. |
| Generation.TruncDiv | app.py:85 | Python's `int()` of a quotient: the truncated quotient, bracketed from below for non-negative values and from above for negative ones. |
| Generation.TruncDivMonotone | app.py:85 | Truncating division never reverses an order. |
| Generation.DailyCount | app.py:85 | `max(1, int(...))` is at least 1. It is 1 when the product is below 1. Otherwise it is the whole part of the product. |
| Generation.DailyCountMonotone | app.py:85 | A larger product never gives fewer sales. |
| Generation.NegativeNoiseOneSale | app.py:85 | With negative noise the product is never positive, so `max(1, int(...))` gives exactly 1 sale. |
| Generation.ScaledMonotone | app.py:85 | With non-negative noise, larger season and weekend factors never give a smaller product. |
| Generation.ScaledMonotoneInNoise | app.py:85 | With non-negative factors, more noise never gives a smaller product. |
| Generation.SampleDays | app.py:53-55 | The date range from now - 365 days to now: 366 valid days from start, each the calendar day after the one before, so strictly increasing. |
| Generation.DayCounts | app.py:72-85 | One count per day, each at least 1. |
| Generation.DayCount | app.py:72-85 | Day i's count is the daily-count rule applied to day i's month, weekday and noise. |
| Generation.OffsetGrows | app.py:87 | With at least one sale a day, day blocks start strictly later each day, and day d starts at or after record d. |
| Generation.OffsetMonotone | app.py:87 | Block offsets never decrease. |
| Generation.BlockOf | app.py:87 | Every record index lies in exactly the block of some earlier day. |
| Generation.MakeRecord | app.py:88-127 | A sale carries the day and the customer id it is given. It uses a listed category and one of that category's products. Its price is within the category's range, its quantity is 1 to 3, its total is price times quantity, and its state is listed. |
| Generation.DayBlock | app.py:87 | A day's block has exactly that day's count of sales, all dated that day. |
| Generation.Blocks | app.py:72-127 | The first d days hold Offset(counts, d) sales, all with valid dates. |
| Generation.BlocksEntry | app.py:87-127 | Record k of day e's block is the sale that draw k and customer id k make on day e. |
| Generation.BlocksDates | app.py:118-127 | Every record is dated one of the days. |
| Generation.BlocksIds | app.py:111-125 | Record k carries customer id k. |
| Generation.ExtendSorted | app.py:118-127 | Appending a block dated after all earlier records keeps the table in date order. |
| Generation.BlocksSorted | app.py:72-127 | With the days increasing, the records come out in date order. |
| AppSampleData.Season | app.py:74-78 | The season factor is 1.5 exactly in November and December, 0.7 exactly in January and February, 1.0 otherwise. |
| AppSampleData.Weekend | app.py:81 | The weekend factor is 1.2 exactly when the weekday is at least 5, and 1.0 otherwise. |
| AppSampleData.DailyTransactions | app.py:83-85 | Every day yields at least one sale, whatever the noise. |
| AppSampleData.SeasonOrder | app.py:74-85 | For the same noise, negative included, and the same kind of day, November and December never have fewer sales than any other month. January and February never have more. |
| AppSampleData.WeekendNeverFewer | app.py:81-85 | For the same noise, negative included, a weekend day never has fewer sales than a weekday of the same month. |
| AppSampleData.MoreNoiseNeverFewer | app.py:85 | More noise never gives fewer sales. |
| AppSampleData.Counter | app.py:70 | The counter starts at 1000 and never goes below it. |
| AppSampleData.Mints | app.py:112 | Sale k mints a new id when its coin is below 0.3 or the counter is still 1000; its consequences are lemmas FirstCustomerIs1000 to NewIdAboveEarlier. |
| AppSampleData.CustomerId | app.py:112-116 | The id of sale k: the counter when it mints, otherwise one of 1000 up to the counter; its properties are IdRange and ReturningWasMinted. |
| AppSampleData.FirstCustomerIs1000 | app.py:112-114 | The first sale always mints id 1000, whatever its coin, and moves the counter to 1001. |
| AppSampleData.CounterMonotone | app.py:112-116 | The counter never decreases. |
| AppSampleData.MintedBeforeStep | app.py:112-116 | Each sale adds its own id to the minted ids exactly when it mints. |
| AppSampleData.MintedAreConsecutive | app.py:112-116 | The ids minted before sale k are exactly 1000 up to the counter. |
| AppSampleData.IdRange | app.py:112-116 | Every assigned id is in [1000, counter after the sale). |
| AppSampleData.ReturningWasMinted | app.py:115-116 | A returning customer's id was minted by an earlier sale. |
| AppSampleData.NewIdAboveEarlier | app.py:112-114 | A newly minted id exceeds every id assigned before it. |
| AppSampleData.AppRecord | app.py:88-127 | A sale carries the day and the customer id it is given, and is a catalogue sale: a listed category and one of its products, a price within its range, a quantity of 1 to 3, a total of price times quantity and a listed state. |
| AppSampleData.DaySales | app.py:87-127 | The transaction loop appends exactly the day's block, with sale k built from draw k and customer id k. The counter it returns is the counter after those sales. |
| AppSampleData.AppSales | app.py:72-127 | The day blocks of the 366 sample days, with the counter's customer ids; what it holds is stated by the AppSales lemmas. |
| AppSampleData.LoadSampleData | app.py:47-129 | The generated table is AppSales: each day's block in turn. |
| AppSampleData.AppSalesLength | app.py:72-87 | The table has the sum of the daily counts rows, at least 366. |
| AppSampleData.AppSalesDay | app.py:72-127 | Rows Offset(d) up to Offset(d+1) are day d's sales, each built from its own draw and customer id. |
| AppSampleData.AppSalesInCatalog | app.py:88-109 | Every sale of the sample data is a catalogue sale: a listed category and one of its products, a price in the category's range, a quantity of 1 to 3, a total of price times quantity and a listed state. |
| AppSampleData.AppSalesPerDay | app.py:83-87 | Day d's block holds exactly DailyTransactions(day d, noise d) rows. |
| AppSampleData.AppSalesChronological | app.py:72-127 | The table is in date order. |
| AppSampleData.CustomersAreMinted | app.py:112-116 | A table whose ids follow the counter holds exactly the ids 1000 up to the final counter. |
| AppSampleData.CustomerWasMinted | app.py:112-116 | Every customer id of such a table is below the final counter. |
| AppSampleData.MintedIsCustomer | app.py:112-116 | Every minted id occurs in such a table. |
| AppSampleData.AppSalesCustomers | app.py:112-127 | The sample data's distinct customers are exactly 1000 up to the final counter: every minted id is used and no other id appears. |
| SampleGenerator.Season | sample_data/generate_samle.py:45-51 | The season factor is 1.8 exactly in November and December, 0.6 exactly in January and February, 1.3 exactly in June to August, and 1.0 exactly in the other months. |
| SampleGenerator.Weekend | sample_data/generate_samle.py:54 | The weekend factor is 1.4 exactly when the weekday is at least 5. |
| SampleGenerator.DailyTransactions | sample_data/generate_samle.py:57-58 | Every day yields at least one sale, whatever the noise, even negative noise. |
| SampleGenerator.HolidaysBusiest | sample_data/generate_samle.py:45-58 | For the same noise, negative included, and the same kind of day, the holiday months never have fewer sales than any other month, and the summer months never fewer than ordinary months. |
| SampleGenerator.IsNew | sample_data/generate_samle.py:70 | Sale k is a new customer when its coin is below 0.4. |
| SampleGenerator.CustomerId | sample_data/generate_samle.py:70-74 | The id of sale k: the incremented counter when new, otherwise one of 1000 up to the counter; its properties are IdRange, NewIdAboveEarlier and Id1000NeverMinted. |
| SampleGenerator.IdCounter | sample_data/generate_samle.py:41 | The counter starts at 1000 and never goes below it. |
| SampleGenerator.NewBeforeStep | sample_data/generate_samle.py:70-71 | The new-customer sales up to k+1 are those up to k, plus k when k draws a new customer. |
| SampleGenerator.CounterCountsNew | sample_data/generate_samle.py:70-72 | The counter is 1000 plus the number of new-customer draws, so it grows by exactly one on each. |
| SampleGenerator.IdCounterMonotone | sample_data/generate_samle.py:70-74 | The counter never decreases. |
| SampleGenerator.IdRange | sample_data/generate_samle.py:70-74 | Every assigned id lies in [1000, counter]. |
| SampleGenerator.NewIdAboveEarlier | sample_data/generate_samle.py:70-72 | A new customer's id is strictly greater than every id assigned before it. |
| SampleGenerator.Id1000NeverMinted | sample_data/generate_samle.py:70-74 | New ids start at 1001. A first sale with a returning customer still gets id 1000, which is never minted. |
| SampleGenerator.CustomersWithinCounter | sample_data/generate_samle.py:70-74 | Every customer of a table whose ids follow the counter lies in [1000, final counter]. |
| SampleGenerator.ToRow | sample_data/generate_samle.py:78-87 | A sale as a row with its date written `YYYY-MM-DD`; RowRoundTrip reads it back. |
| SampleGenerator.RowRoundTrip | sample_data/generate_samle.py:78-87 | Writing a sale as a row with a `YYYY-MM-DD` date and reading it back gives the same sale. |
| SampleGenerator.RowsAppend | sample_data/generate_samle.py:78-87 | The rows of two tables together are the rows of each in turn. |
| SampleGenerator.GenSales | sample_data/generate_samle.py:43-87 | The generated sales all have valid dates. |
| SampleGenerator.NextCustomer | sample_data/generate_samle.py:70-74 | One sale's customer logic gives the id and the counter after the sale. |
| SampleGenerator.DayRowsStep | sample_data/generate_samle.py:60-87 | One more sale extends the day's block by that sale and the day's rows by its row. |
| SampleGenerator.DayRows | sample_data/generate_samle.py:60-87 | The transaction loop appends exactly the rows of the day's block. The counter it returns is the counter after them. |
| SampleGenerator.RowsOfNextDay | sample_data/generate_samle.py:43-87 | The rows of d+1 days are those of d days followed by day d's rows. |
| SampleGenerator.GenerateSampleData | sample_data/generate_samle.py:7-92 | The rows passed to the data frame are the rows of GenSales, in order. |
| SampleGenerator.GenSalesLength | sample_data/generate_samle.py:43-60 | The table has the sum of the daily counts rows, at least 366. |
| SampleGenerator.GenSalesPerDay | sample_data/generate_samle.py:57-60 | Day d's block holds exactly that day's daily_transactions rows. |
| SampleGenerator.GeneratedRow | sample_data/generate_samle.py:60-87 | Row k of day d's block is the catalogue sale that draw k and id k make, and its date text is day d formatted `YYYY-MM-DD`. |
| SampleGenerator.RowsInCatalog | sample_data/generate_samle.py:61-67 | Every row reads back as a catalogue sale: one of its category's products, a price in the category's range, a quantity of 1 to 3, and a total of price times quantity. |
| SampleGenerator.DayOfSale | sample_data/generate_samle.py:43-60 | Every row lies in the block of some day. |
| SampleGenerator.RowsChronological | sample_data/generate_samle.py:43-87 | The rows' dates, read back, are in chronological order, with each day's rows contiguous. |
| SampleGenerator.GenCustomers | sample_data/generate_samle.py:70-87 | The generated data's distinct customers lie in [1000, final counter]. |

## Left out

- The Streamlit page, sidebar, metrics and download buttons, the Plotly figures and the reportlab PDF are user interface and foreign rendering. Only the data they are fed is modelled.
- `read_csv`, `read_excel`, `to_csv` and the print of the record count are file I/O. `process_data`'s `pd.to_datetime`, `week` and `day_of_week` derivations are library date parsing. Only the month key is modelled.
- `datetime.now()` is an input (`start`). Dates are calendar days, without the time of day that `pd.date_range` carries into each timestamp. The filter (app.py:327) and `strftime('%Y-%m-%d')` use only the calendar day.
- The numpy distributions are oracles. The quantity weights (`p=[...]`) are not modelled: any of the six quantity slots can be drawn. The normal noise is quantised to hundredths.
- Floating-point rounding (`round(..., 2)`, `mean`, the growth percentage) is replaced by exact integer cents and exact ratios.
- `@st.cache_data` memoisation is framework machinery and not modelled.
- config.py holds constants that neither core file reads, so it is not part of this model.
- Dashboard.TopProductsFacts: pandas' non-stable sort leaves the order of tied revenues unspecified. The model says nothing about which of several equal products is kept at the cut-off.
- Dashboard.TopDescendingFacts: the same holds for ties at the cut-off of the state chart and the PDF top 5.
- Dashboard.SalesByCategoryFacts: pandas orders category keys by name. The model keeps the order GroupSum builds (reverse order of last occurrence), and no property depends on it.
- Dashboard.SalesByDate: groups by calendar day. app.py:146 groups by the full timestamp, so uploaded rows with different times on one day form several groups there and one group here. The sample data of both generators has one timestamp per day, so the two agree on it.
- Dashboard.CalculateKpis: requires a non-empty table and, when two or more months are present, a positive second-latest month revenue. The code divides by both without a guard.
- Sales.TotalRevenue is stated for non-negative amounts. Amounts in uploaded files are not validated.
- AppSampleData.LoadSampleData: dates are stored as calendar days. The source stores full timestamps.
