# Lebanon education-resources dashboard: the data pipeline in Dafny

The dashboard script `app.py` loads one row per district. Each row has a
Governorate, a District, four resource counts (public schools, private
schools, universities, vocational institutes) and eight percentage columns.
On every render the script does three things:

1. **Filter resolver** (`app.py:54-66`). The "Filter By" radio chooses All,
   Governorate or District. For a column mode, the selectbox offers the
   distinct values of that column in order of first appearance. When a value
   is chosen, the view keeps the rows holding it. Otherwise the view is the
   whole table.
2. **District aggregator** (`app.py:71-95`). It groups the view by District
   and sums the four counts. It adds `TotalResources`, the sum of those four
   columns. It sorts the rows by `TotalResources`, largest first. This table
   feeds the bar chart.
3. **Pie aggregator** (`app.py:151-176`). It groups the view by
   (Governorate, District) and collapses the result according to the filter:
   - a chosen District keeps that district's rows;
   - a chosen Governorate sums that governorate into one row;
   - All sums the whole table into one row.

   It then takes the four column totals that the donut chart shows.

The model is pure, like the script. Tables are sequences of `Row` values and
the filter widgets are plain inputs. pandas' operations are functions:
- the boolean mask `df[df[col] == v]` is `Select`;
- `unique()` is `Unique`;
- `groupby(...).agg(... "sum")` is `GroupBy`, an insertion into a list of
  `Group`s with strictly ascending keys (groupby sorts its keys);
- the `reset_index()` that turns the groups back into rows is
  `WithTotalResources` for the bar-chart table and `GroupsToRows` for the
  pie table;
- `sort_values(ascending=False)` is `SortDesc`, an insertion sort.

The script's steps map to these definitions:
- The option list at app.py:55 is `Options`, which is `Unique` over `ColumnValues`.
- `df_plot` at app.py:63-66 is `Filter`.
- `df_agg` at app.py:71-92, before sorting, is `DistrictTable`; after the `sort_values` of app.py:95 it is `AggregateByDistrict`.
- The `TotalResources` column at app.py:87-92 is `Total`; a column `.sum()` over rows is `SumCounts`.
- The first `df_pie` at app.py:151-156 is `PieTable`.
- The collapse at app.py:159-168 is `Collapse`; its three shapes are the `PieFrame` cases.
- The `int(df_pie[c].sum())` totals at app.py:171-176 are `ColumnTotals`; the donut pipeline from the view to these totals is `PieTotals`.
- One render pass is `Render` (in `Dashboard`).

These definitions carry no contract of their own. The lemmas in the table below state their properties.

Modules:
- `Frame`: rows, counts, column sums.
- `Order`: lexicographic string order.
- `FilterResolver`: `Select`, option lists, the filtered view.
- `Grouping`: group-by with sum.
- `DistrictAggregator`: the bar-chart table.
- `PieAggregator`: the donut totals.
- `Dashboard`: one render pass and the facts that tie both charts together.

## Model

| member | source | states |
|---|---|---|
| Frame.KeyOf | app.py:64 | The key of a row has one entry per key column, each the row's value in that column |
| Frame.SumCountsAppend | app.py:172-175 | Column sums of a concatenation are the sums of the parts added together |
| Order.StrLtIrreflexive | app.py:71 | No district name sorts before itself in groupby's key order |
| Order.StrLtTransitive | app.py:71 | groupby's string key order is transitive |
| Order.StrLtTotal | app.py:71 | Any two different strings are ordered one way or the other |
| Order.KeyLtIrreflexive | app.py:151 | The order on (Governorate, District) keys is irreflexive |
| Order.KeyLtTransitive | app.py:151 | The order on (Governorate, District) keys is transitive |
| Order.KeyLtTotal | app.py:151 | Any two different multi-column keys are ordered one way or the other |
| FilterResolver.Select | app.py:64 | The mask selection is no longer than the table, and every row it keeps holds the key |
| FilterResolver.SelectCounts | app.py:64 | The mask keeps each matching row as often as it occurs and drops every other row |
| FilterResolver.SelectAppend | app.py:64 | The mask keeps the original row order: selecting from a concatenation concatenates the selections |
| FilterResolver.SelectAll | app.py:160 | A mask that every row passes leaves the table unchanged |
| FilterResolver.SingleKey | app.py:64 | A row matches a one-column key exactly when that column holds the value |
| FilterResolver.Filter | app.py:63-66 | If no column mode is set or no value (None or "") is chosen, the view is the whole table. Otherwise every view row holds the chosen value, and each row holding it is kept with its multiplicity |
| FilterResolver.ColumnValues | app.py:55 | One value per row, the row's value in the column |
| FilterResolver.Unique | app.py:55 | The result has no duplicates and holds exactly the values of its input |
| FilterResolver.OptionsAreColumnValues | app.py:55 | The selectbox options are duplicate-free and are exactly the values some row holds in the column |
| FilterResolver.FirstIndex | app.py:55 | Gives the position of the first occurrence of a value |
| FilterResolver.UniqueFirstAppearance | app.py:55 | `unique()` lists values in the order in which they first appear |
| Grouping.KeysCons | app.py:71-84 | The keys of a table with one more group are that group's key plus the others |
| Grouping.RowKeysCons | app.py:71-84 | The keys a table carries are its first row's key plus those of the rest |
| Grouping.LookupAbsent | app.py:71-84 | A key with no group has all-zero counts |
| Grouping.Insert | app.py:71-84 | Adding a row to a grouped table adds its key to the key set and no other key |
| Grouping.BelowAll | app.py:71-84 | A key below the first key of an ascending table is below all of its keys and absent |
| Grouping.InsertAbove | app.py:71-84 | A key above the first key is inserted behind it, keeping the first key below the rest |
| Grouping.InsertAscending | app.py:71-84 | Adding a row keeps the group keys strictly ascending |
| Grouping.InsertLookup | app.py:71-84 | Adding a row adds its counts under its key and changes no other group |
| Grouping.InsertSum | app.py:71-84 | Adding a row adds its counts to the grand totals |
| Grouping.GroupBy | app.py:71-84 | Group keys are strictly ascending and are exactly the keys the rows carry. The grand totals equal the rows' column sums |
| Grouping.GroupSums | app.py:71-75 | Under each key, the grouped table holds the column sums of exactly the rows carrying that key |
| Grouping.LookupAt | app.py:71-84 | In an ascending table, looking up a group's key finds that group |
| Grouping.GroupAt | app.py:71-84 | Every group's key comes from some row and has one entry per column. Its counts are the sums over the rows carrying it |
| DistrictAggregator.InsertDesc | app.py:95 | Placing a row into a descending table keeps it descending and adds exactly that row |
| DistrictAggregator.SortDesc | app.py:95 | The sorted table is in non-increasing TotalResources order and is a permutation of its input |
| DistrictAggregator.InsertDescSum | app.py:95 | Placing a row adds its TotalResources to the table's sum |
| DistrictAggregator.SortDescSum | app.py:95 | Sorting keeps the sum of TotalResources |
| DistrictAggregator.InsertDescDistinct | app.py:95 | Placing a row of a new district keeps one row per district |
| DistrictAggregator.SortDescDistinct | app.py:95 | Sorting keeps one row per district |
| DistrictAggregator.DistrictTableRow | app.py:71-92 | Each unsorted aggregated row names a district of the view and holds its column sums and their total |
| DistrictAggregator.DistrictTableCovers | app.py:71-84 | Every district of the view has a row in the unsorted table |
| DistrictAggregator.DistrictTableDistinct | app.py:71-84 | The unsorted table has no district twice |
| DistrictAggregator.AggregateDistinct | app.py:71-95 | The bar-chart table has no district twice |
| DistrictAggregator.AggregateRowFromView | app.py:71-95 | Every bar's district occurs in the view |
| DistrictAggregator.AggregateRowForDistrict | app.py:71-95 | Every district of the view gets a bar |
| DistrictAggregator.AggregateDistricts | app.py:71-95 | A district has a bar exactly when some row of the view carries it |
| DistrictAggregator.AggregateSums | app.py:71-92 | Each bar's counts are the column sums over its district's rows, and TotalResources is the sum of its four counts |
| DistrictAggregator.WithTotalResourcesSum | app.py:87-92 | Summed over all rows, TotalResources is the total of the four summed columns |
| DistrictAggregator.AggregateTotal | app.py:71-95 | The bars' TotalResources add up to the view's four column totals, and there are no bars exactly when the view is empty |
| PieAggregator.GroupsToRowsSum | app.py:156 | `reset_index()` keeps the column sums |
| PieAggregator.PieTableFromView | app.py:151-156 | Regrouping by (Governorate, District) keeps the column sums, and every regrouped row names a pair some view row carries |
| PieAggregator.PieTotalsAll | app.py:167-176 | With All, the donut totals are the column sums of the whole table |
| PieAggregator.PieTableUniform | app.py:159-164 | If every view row holds the chosen value, so does every regrouped row, and the pie's mask keeps the whole table |
| PieAggregator.PieTotalsConserved | app.py:151-176 | In every branch of the collapse, the donut totals equal the filtered view's column sums |
| Dashboard.ChartsAgree | app.py:63-176 | The donut totals are the view's column sums, and the bars' TotalResources add up to the total of the four donut values |
| Dashboard.EmptySelection | app.py:63-176 | A filter that matches nothing gives no bars and an all-zero donut |
| Dashboard.ScenarioView | app.py:63-64 | Choosing a governorate keeps exactly its rows, in table order |
| Dashboard.ScenarioOptions | app.py:54-56 | The Governorate selectbox offers each governorate once, in order of first appearance |
| Dashboard.ScenarioPie | app.py:163-164 | Choosing a governorate gives a donut of its districts' counts added together |
| Dashboard.OneDistrict | app.py:71-84 | A one-row view gives one group, that row's district and counts |
| Dashboard.TwoGroups | app.py:71-84 | Two rows of different districts group into two groups, the smaller district name first |
| Dashboard.SortTwo | app.py:95 | Sorting two rows puts the one with strictly more resources first, whichever order they arrive in |
| Dashboard.TwoDistricts | app.py:71-95 | Two districts, the first with strictly more resources, give two bars in that order, whichever name is smaller |
| Dashboard.ScenarioBars | app.py:63-95 | Choosing a governorate with two different districts gives one bar per district, the one with strictly more resources first, whatever their names |

## Left out

- The Streamlit widgets, page layout and the Plotly figures are out of scope. The radio and the selectbox are plain inputs of `Filter` and `Render`, and the charts are represented by the tables they are drawn from.
- Loading the CSV file and Streamlit's data cache are out of scope: the model starts from a table already loaded.
- The eight percentage columns and their per-district means are left out: they are floating-point values and only feed hover text and the trend line.
- The donut's percentage shares are left out: they are floating point and computed by the charting library.
- Null handling (`dropna()`, NaN keys that groupby drops) is left out: Governorate and District are non-null strings and the counts are natural numbers.
- The sums are unbounded natural numbers: pandas adds the count columns as 64-bit integers, and overflow of those sums is not modelled (school counts are far below that bound).
- `int(...)` at app.py:172-175 is left out: counts are natural numbers, so their sums are already integers and the conversion is the identity.
- DistrictAggregator.SortDesc: the contract promises only non-increasing order and a permutation, not which of several rows with equal TotalResources comes first. `sort_values` at app.py:95 uses pandas' default quicksort, which is not stable, so the script fixes no order among equal totals. The insertion sort's own tie order is not promised either, and no lemma relies on it.
- FilterResolver.Filter: the chosen value is not required to be one of the offered options, because the script does not check it. Any value is modelled, and one that no row holds gives an empty view.
- FilterResolver.Filter: with a column mode and no value chosen (None or ""), app.py:63-66 falls back to the whole table. This also happens when the option list is empty, which may be unintended. The model keeps that fallback as written.
- Grouping.GroupBy: groupby's string order is modelled as code-point lexicographic order. Keys of other types (numbers, mixed types) are not modelled.
