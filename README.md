# Aerofit customer dashboard: the data logic beneath the UI

The dashboard loads a table of treadmill purchases. Each row holds a product code, age, gender, education, marital status, planned weekly usage, a fitness self-rating, income and miles. Before any chart is drawn, the table is preprocessed: three columns are added to it in place.

- `Product_price` comes from a fixed price list.
- `Fitness_category` comes from a fixed label list for ratings 1 to 5.
- `Age_category` comes from `pd.cut` with bin edges `[0, 21, 35, 45, 60]`.

The views then count values, cross-tabulate Product against Gender, and sum revenue per product. The data explorer filters rows by product, gender and an age range. A log viewer filters the lines of the application log, counts them by severity, and shows the newest 100 kept lines, newest first, each tagged with its severity.

This project models that logic in Dafny and proves its properties.

- `wrappers.dfy`: `Option`. In a derived column, `None` stands for pandas' missing value (NaN). The raw columns of a record are never missing in the model.
- `seqs.dfy` (module `Seqs`): generic column facts.
  - Boolean-mask selection keeps order and multiplicity.
  - `Series.unique()`.
  - Counts over a complete, duplicate-free list of keys add up to the number of rows.
- `catalog.dfy` (module `Catalog`): the price list and the fitness labels as partial lookups. `pd.cut` as a search over right-closed bins, and the four age buckets.
- `frame.dfy` (module `Frame`): the record and row types, and a `DataFrame` class.
  - Each derived column is a field that is `None` until it is assigned.
  - Preprocessing assigns the three columns one after another.
  - The table is preprocessed on a copy, so the raw table stays untouched.
- `aggregates.dfy` (module `Aggregates`): `value_counts`, `crosstab`, the revenue `groupby(...).sum()` and the explorer's row filter.
- `logviewer.dfy` (module `LogViewer`):
  - the line-filter loop;
  - the `"X" in line` severity counts;
  - the ERROR > WARNING > INFO > other classification;
  - the loop that builds the display over `reversed(filtered_logs[-100:])`.

The model follows the code in what a lookup does with a value it does not know:

- An unknown product code gets a missing price, not an error.
- A fitness rating outside 1..5 gets no label.
- An age outside `[0, 60]` gets no age bucket.
- None of these raises an error. `Series.map` and `pd.cut` produce missing values, and so does the model.

The age bucket labels do not match the bin edges. Age 46 lands in "Towards old-age (>46)", and age 22 lands in "Adult (22-35)", which is consistent only because ages are integers. The model therefore uses bucket identities taken from the edges, not the labels (`Catalog.AgeLabelBoundary`).

Counts and sums are maps keyed by value. pandas orders `value_counts` by frequency and `groupby` by key. Totals are taken over `Seqs.Distinct` of the column, and no total depends on key order.

## Model

| member | source | states |
|---|---|---|
| `Catalog.ProductPrice` | app.py:330-331 | The price lookup gives a price exactly for KP281, KP481 and KP781, and every price is between 1500 and 2500. `Catalog.PriceCatalog` states each price. |
| `Catalog.PriceCatalog` | app.py:330-331 | KP281 costs 1500, KP481 1750 and KP781 2500. Any other product code gets no price (missing), not a default. |
| `Catalog.FitnessCategory` | app.py:333-334 | The label lookup gives a label exactly for ratings 1..5. `Catalog.FitnessCatalog` states the label of each rating and that no two ratings share one. |
| `Catalog.FitnessCatalog` | app.py:333-334 | Exactly the ratings 1..5 get a label: 1 "Poor Shape", 2 "Bad Shape", 3 "Average Shape", 4 "Good Shape", 5 "Excellent Shape". No two ratings share a label. |
| `Catalog.CutFrom` | app.py:338 | The bin search returns a bin at or after the start index that contains x. A missing result means no such bin contains x. |
| `Catalog.Cut` | app.py:338 | `pd.cut` returns the index of a bin containing x, or missing exactly when no bin contains x. |
| `Catalog.BinsDisjoint` | app.py:336 | With increasing edges, no value falls in two bins. |
| `Catalog.CutCovers` | app.py:338 | `pd.cut` finds a bin exactly for values between the outer edges. The top edge is inclusive; the bottom edge is inclusive only with `include_lowest`. |
| `Catalog.AgeEdgesIncreasing` | app.py:336 | The age edges `[0, 21, 35, 45, 60]` strictly increase, as `pd.cut` demands. |
| `Catalog.AgeCategory` | app.py:336-338 | An age gets a bucket exactly when it is in [0,60], and the bucket's bin contains the age. `Catalog.AgeCategoryBuckets` states each bucket's range. |
| `Catalog.AgeCategoryBuckets` | app.py:336-338 | Teen is exactly [0,21], Adult (21,35], Mid-age (35,45] and Towards old-age (45,60]. Ages below 0 or above 60 get no bucket. |
| `Catalog.AgeCategoryExactlyOne` | app.py:336-338 | Every age in [0,60] gets a bucket. Its bin contains the age, and no other bin does. |
| `Catalog.AgeCategoryMonotone` | app.py:336-338 | The bucket index never decreases as age increases. |
| `Catalog.AgeLabelBoundary` | app.py:337-338 | Age 46 is in the bucket labelled "Towards old-age (>46)", and 45 is in Mid-age. Age 21 is Teen, and 22 is in the bucket labelled "Adult (22-35)". |
| `Frame.EnrichRecord` | app.py:328-341 | The preprocessed row keeps the raw record. Its price is missing exactly for an unknown product, its label exactly for a rating outside 1..5, and its bucket exactly for an age outside [0,60]. |
| `Frame.Enrich` | app.py:328-341 | The preprocessed table has one row per raw record, in the same order, each keeping its record. `Frame.EnrichKeepsRows` states the derived fields for the whole table. |
| `Frame.EnrichKeepsRows` | app.py:328-341 | Preprocessing keeps the number and order of rows and every raw column. Each derived field is missing exactly when its lookup fails: an unknown product, a rating outside 1..5, an age outside [0,60]. |
| `Frame.EnrichIdempotent` | app.py:328-341 | Preprocessing an already preprocessed table yields the same derived values. |
| `Frame.DataFrame.constructor` | app.py:319-324 | A loaded table holds the given records and no derived columns yet. |
| `Frame.DataFrame.Copy` | app.py:345 | `df_raw.copy()` is a new table with the same columns. |
| `Frame.DataFrame.AssignProductPrice` | app.py:331 | Assigns `Product_price` as the price lookup of every row's product. All other columns are left unchanged. |
| `Frame.DataFrame.AssignFitnessCategory` | app.py:334 | Assigns `Fitness_category` as the label lookup of every row's rating. All other columns are left unchanged. |
| `Frame.DataFrame.AssignAgeCategory` | app.py:338 | Assigns `Age_category` as the `pd.cut` bucket of every row's age. All other columns are left unchanged. |
| `Frame.PreprocessData` | app.py:328-341 | Mutates the given table and returns that same table. Its raw records are unchanged, and read row by row it equals the preprocessed value of its records. |
| `Frame.PrepareDataset` | app.py:344-345 | Preprocessing runs on a copy. The result is a new table equal to the preprocessed raw records, and `df_raw` is unchanged. |
| `Seqs.Filter` | app.py:465-470 | Mask selection yields a subsequence of the input. Each element keeps its multiplicity if selected and is absent otherwise. An all-true mask returns the input. |
| `Seqs.Distinct` | app.py:459 | `unique()` has no duplicates and holds exactly the values of the column. |
| `Seqs.CountsSumToLength` | app.py:389 | Per-value counts over a duplicate-free list of keys that covers every value add up to the number of rows. |
| `Aggregates.ValueCounts` | app.py:389 | `value_counts()`, counted row by row, has a key for exactly the values present, each mapped to its number of occurrences in the column. |
| `Aggregates.ValueCountsTotal` | app.py:389 | The value counts of any column add up to its length. Raw values are never missing in the model (see "## Left out"). |
| `Aggregates.ProductCountsTotal` | app.py:389 | Product counts have a key for exactly the products present, and they add up to the number of rows. Raw values are never missing in the model (see "## Left out"). |
| `Aggregates.GenderCountsTotal` | app.py:502 | Gender counts have a key for exactly the genders present, and they add up to the number of rows. Raw values are never missing in the model (see "## Left out"). |
| `Aggregates.Crosstab` | app.py:618 | The contingency table, built from the pair counts with zero fill, has a cell for every pair of a present row value and a present column value. Each cell holds the number of rows with that pair, 0 when the pair never occurs. |
| `Aggregates.CrosstabRowSums` | app.py:618 | Each row of the contingency table sums to that value's count. |
| `Aggregates.CrosstabTotal` | app.py:618 | All cells of the contingency table add up to the number of rows. Raw values are never missing in the model (see "## Left out"). |
| `Aggregates.ProductGenderCrosstab` | app.py:618 | Product×Gender has a cell for every present product and gender. Its row sums equal the product counts, and its cells add up to the number of rows. Raw values are never missing in the model (see "## Left out"). |
| `Aggregates.GroupSum` | app.py:427 | `groupby(...).sum()` has a total for exactly the keys present. |
| `Aggregates.Revenue` | app.py:427 | Revenue has a total for exactly the products present. `Aggregates.RevenuePerProduct` states each total: price times count. |
| `Aggregates.SumWherePriced` | app.py:427 | When every price comes from its own product's lookup, a product's group sum is its price times its count. |
| `Aggregates.RevenuePerProduct` | app.py:427 | On the preprocessed table, each product's revenue is its catalog price times its number of rows. A product without a price has revenue 0. |
| `Aggregates.TotalRevenue` | app.py:445 | Total revenue, summed over the products present, equals the sum of all rows' prices, with missing prices adding nothing. |
| `Aggregates.Selected` | app.py:465-470 | The per-row mask: product and gender among the chosen ones and age within [lo, hi]. What it selects from the table is stated by `Aggregates.FilterRows` and `Aggregates.DefaultFilterKeepsAll`. |
| `Aggregates.FilterRows` | app.py:465-470 | The filtered rows are exactly those whose product and gender are selected and whose age is in [lo, hi]. They keep their original order and multiplicity, unmodified, and there are no more of them than rows. |
| `Aggregates.MinAge` | app.py:463 | The slider's lower end is the smallest age: no row is younger, and some row has it. |
| `Aggregates.MaxAge` | app.py:463 | The slider's upper end is the largest age: no row is older, and some row has it. |
| `Aggregates.DefaultFilterKeepsAll` | app.py:459-470 | With the default selections (every product, every gender, the full age range) the filter returns every row. Raw values are never missing in the model (see "## Left out"). |
| `LogViewer.Contains` | app.py:1375 | Python's `needle in hay` holds exactly when needle occurs in hay at some index. |
| `LogViewer.LineMatches` | app.py:1374-1379 | The two per-line conditions of the filter loop. Their effect on the whole log is stated by `LogViewer.KeptLines` and `LogViewer.FilterLogs`. |
| `LogViewer.KeptLines` | app.py:1372-1380 | A line is kept iff two conditions hold: the level filter is "All" or the level occurs in the line, and the search term is empty or occurs in the line ignoring case. Kept lines keep file order, there are no more of them than lines, and "All" with no search keeps every line. |
| `LogViewer.FilterLogs` | app.py:1372-1380 | The loop that appends the lines passing both filters produces exactly the kept lines. |
| `LogViewer.CountContaining` | app.py:1386-1388 | A severity count never exceeds the number of lines. |
| `LogViewer.CountMatchesLevelFilter` | app.py:1386-1388 | The INFO, WARNING and ERROR counts each equal the number of lines that level's filter keeps with an empty search. |
| `LogViewer.Strip` | app.py:1408 | `strip()`: trims leading, then trailing whitespace. What it leaves is stated by `LogViewer.StripSlice`. |
| `LogViewer.StripSlice` | app.py:1408 | `strip()` returns the part of the line between a run of leading and a run of trailing whitespace, and the result neither starts nor ends with whitespace. |
| `LogViewer.StripKeepsKeyword` | app.py:1408 | `strip()` does not change whether a line contains a non-empty keyword without whitespace. |
| `LogViewer.Classify` | app.py:1409-1420 | The ERROR > WARNING > INFO > plain precedence. How it relates to the level filters is stated by `LogViewer.ClassificationAgreesWithFilter`. |
| `LogViewer.ClassificationAgreesWithFilter` | app.py:1409-1420 | A line is shown as an error iff the ERROR filter keeps it. It is shown as a warning iff the WARNING filter keeps it and the ERROR filter does not. It is shown as plain iff no level filter keeps it. |
| `LogViewer.RenderLogDisplay` | app.py:1406-1426 | The display holds min(100, n) entries. Entry k is the stripped, classified (n-1-k)-th kept line, so the newest lines come first. |

## Left out

- Rendering: all Streamlit, Plotly, Seaborn and Matplotlib calls, CSS and HTML strings, widgets, tabs, metrics and download buttons. These are UI and calls into foreign libraries. The display is modelled as a list of (severity, text) entries rather than the HTML string built from them.
- CSV reading and the `@st.cache_data` memoisation. `load_data` is modelled only as a table built from given records, because file I/O and caching are outside the logic.
- The `FileNotFoundError` branches, because they are file I/O.
- Reading `app.log`, the logging configuration, and the `logger.info` writes in `load_data` and `preprocess_data` (app.py:321, 323, 329, 340). These are file I/O. The log lines are a parameter.
- Floating-point statistics, which are numerics computed by pandas and numpy:
  - means, standard deviations and medians;
  - correlation matrices;
  - `value_counts(normalize=True)` and normalised crosstabs with `.mul(100).round(2)`;
  - the KP281 share and KP781 revenue percentages;
  - the "Avg Revenue" mean.
- Hard-coded insight, recommendation and profile texts, which contain no logic.
- `datetime.now()` in the download file name, which is nondeterministic.
- The auto-refresh checkbox, whose value is never used.
- Income and Miles are modelled as integers. No modelled operation reads them.
- Missing values in the raw columns: a `Record` always has a Product, Gender and Age. pandas drops missing keys in `value_counts`, `groupby` and `crosstab`, and a missing age fails both comparisons of the range filter. The count totals (`Aggregates.ValueCountsTotal`, `Aggregates.ProductCountsTotal`, `Aggregates.GenderCountsTotal`, `Aggregates.CrosstabTotal`, `Aggregates.ProductGenderCrosstab`) and `Aggregates.DefaultFilterKeepsAll` are therefore proved only for tables without missing raw values.
- The order of keys in `value_counts` (by frequency) and `groupby` (by key), because the model's counts and sums are maps and no total depends on key order.
- LogViewer.KeptLines: the case-insensitive search uses ASCII lowercasing, not Python's Unicode-aware `str.lower()`.
- LogViewer.RenderLogDisplay: `str.strip()` removes only ASCII whitespace and the separators 0x1C-0x1F, not Unicode whitespace.
