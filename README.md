# tda — a verified model of a small tabular-data library

`tda` is a teaching library of nine list-processing functions for data held
as Python lists. This model covers eight of them; the ninth, `load_csv`,
reads a file and is left out:

- `valid_number` decides whether a value is a number or a numeric string;
- `data_dimensions` reports the shape of a 1-D or 2-D list;
- `find_total`, `calculate_mean` and `calculate_median` aggregate the valid
  numeric entries of a 1-D list and skip the rest;
- `convert_to_number` rewrites one column of a 2-D list in place;
- `flatten` turns a single-column 2-D list into a 1-D list;
- `create_slice` filters the rows of a table on one column and projects
  them onto chosen columns.

The library's behaviour is fixed by its test module `tda_test.py`, and each
Dafny member below cites the lines that pin down what it models. The
implementation module itself is not part of this model.

The model is organised by component:

| file | module | models |
|---|---|---|
| `cells.dfy` | `Cells` | cells (a number or a text), tables, the loosely typed arguments (`None`, a string, a 1-D list, a 2-D list), the absence marker, the wildcard `"*"` |
| `number.dfy` | `NumberValidator` | the numeric grammar `-?digits(.digits)?` as a scanner with an inverse renderer, and the exact value of a numeric string |
| `shape.dfy` | `Shape` | `data_dimensions`, `flatten` |
| `sorting.dfy` | `Sorting` | the ascending sort used by the median |
| `aggregate.dfy` | `Aggregator` | `find_total`, `calculate_mean`, `calculate_median` |
| `convert.dfy` | `ColumnConverter` | `convert_to_number`, the one operation that changes its argument: each row is a mutable `array<Cell>` converted in place |
| `slice.dfy` | `Slicer` | `create_slice` |
| `examples.dfy` | `Examples` | the assertions of the test module for these eight functions, as lemmas (or, for the in-place conversion, methods calling `ConvertToNumber` on fresh rows); the non-mutation check of `flatten` at tda_test.py:153-159 holds by construction, since `Flatten` takes a value |

Every operation is defined once, as a function, except the in-place
conversion: it is a method proved equal to the function `ConvertColumn`,
which states the new contents of the rows. Each operation's general
properties are proved as lemmas beside it: round trips, invariance under
reordering, skipping of invalid entries, bounds, idempotence, and which
inputs yield the absence marker.

## Model

| member | source | states |
|---|---|---|
| NumberValidator.ValidNumber | tda_test.py:15-44 | `valid_number` itself: every number is valid, and a text is valid when the scanner accepts it (characterised by `ValidNumberGrammar` and `ValidTextShape`) |
| NumberValidator.ValidTextShape | tda_test.py:31-44 | a valid text is non-empty, starts with `-` or a digit and ends with a digit, so `"+1.5"`, `"5."`, `""`, `"."` and `"-"` are not valid |
| NumberValidator.ParseNumeral | tda_test.py:15-44 | a numeric text is parsed into a well-formed numeral, and rendering that numeral gives back exactly the text |
| NumberValidator.ParseRender | tda_test.py:15-44 | every well-formed numeral (sign, non-empty digits, optional non-empty fraction) rendered and re-parsed gives the same numeral back |
| NumberValidator.ValidNumberGrammar | tda_test.py:15-44 | a text passes `valid_number` if and only if it is an optional `-`, one or more digits, and optionally `.` plus one or more digits |
| NumberValidator.DigitsValue | tda_test.py:107-108 | the value of a run of k digits is below 10^k |
| NumberValidator.FractionValue | tda_test.py:69-70 | the digits after the decimal point add a value in [0, 1) |
| NumberValidator.NumeralValue | tda_test.py:69-70 | the exact value coerced from a numeric text; its bounds are stated by `NumeralValueBounds`, its sign by `NumeralValueNegate`, and its link to coercion by `ToNumberOfNumeral` |
| NumberValidator.NumeralValueBounds | tda_test.py:88-89 | a numeral's magnitude lies between its integer digits' value and that plus one; its sign is the leading `-` |
| NumberValidator.NumeralValueNegate | tda_test.py:88-89 | toggling the leading `-` negates the value |
| NumberValidator.ToNumber | tda_test.py:19-26 | coercion gives a value exactly when `valid_number` holds, and a number coerces to itself |
| NumberValidator.ToNumberOfNumeral | tda_test.py:136-137 | the text of a well-formed numeral coerces to the exact value that numeral denotes |
| NumberValidator.Coerce | tda_test.py:134-137 | a valid cell becomes the number it stands for; an invalid cell is left unchanged |
| Shape.DataDimensions | tda_test.py:47-63 | the result is absent exactly for `None`, a string or the empty list; it is `[rows, length of first row]` for a 2-D list and `[1, length]` for a 1-D list |
| Shape.RectangularCellCount | tda_test.py:49-55 | a rectangular table holds rows × columns cells, as its reported dimensions say |
| Shape.Flatten | tda_test.py:148-170 | the result is present exactly for a 2-D list whose rows each hold one cell, and it has one entry per row |
| Shape.FlattenColumn | tda_test.py:150-157 | flattening the single-column table built from a list of cells gives that list back |
| Shape.ColumnOfFlatten | tda_test.py:150-170 | whatever `flatten` accepts is exactly the single-column table of its result |
| Shape.FlattenTransposesDimensions | tda_test.py:150-163 | flattening turns an n-by-1 table into a 1-D list whose dimensions are 1-by-n |
| Sorting.Insert | tda_test.py:110-116 | inserting into a sorted list gives a sorted list with the same values plus the new one |
| Sorting.Sort | tda_test.py:110-116 | the result is sorted ascending and is a permutation of the input |
| Sorting.SortedUnique | tda_test.py:110-116 | two sorted lists holding the same values are equal |
| Sorting.SortPermutation | tda_test.py:110-116 | sorting depends only on the values, not on their order |
| Aggregator.ValidValues | tda_test.py:66-123 | the values kept for aggregation are at most one per entry; with `ValidValuesOfCell` and `ValidValuesAppend`, a valid entry contributes its coerced value in place and an invalid one nothing |
| Aggregator.Middle | tda_test.py:98-123 | the middle of a sorted list lies between its least and its greatest element |
| Aggregator.FindTotal | tda_test.py:66-79 | a total is returned exactly for a 1-D list; any other shape gives the absence marker |
| Aggregator.CalculateMean | tda_test.py:82-95 | a mean is returned exactly for a 1-D list with at least one valid entry |
| Aggregator.CalculateMedian | tda_test.py:98-123 | a median is returned exactly for a 1-D list with at least one valid entry |
| Aggregator.ValidValuesOfCell | tda_test.py:69-79 | one entry contributes its coerced value when valid and nothing otherwise |
| Aggregator.ValidValuesAppend | tda_test.py:66-123 | the valid values of two lists laid end to end are those of each, in order |
| Aggregator.SkipInvalid | tda_test.py:78-79 | removing an entry that fails `valid_number` leaves the valid values unchanged |
| Aggregator.ValidValuesAllValid | tda_test.py:69-70 | when every entry is valid, the values are the entries' coerced values, one for one and in order |
| Aggregator.ValidValuesPermutation | tda_test.py:110-120 | reordering the entries reorders the valid values and nothing more |
| Aggregator.TotalOfConcat | tda_test.py:66-79 | the total of two lists laid end to end is the sum of their totals |
| Aggregator.TotalOfCell | tda_test.py:72-73 | one entry adds its coerced value when valid and nothing when invalid |
| Aggregator.TotalSkipsInvalid | tda_test.py:78-79 | an invalid entry does not change the total |
| Aggregator.TotalPermutation | tda_test.py:66-79 | the total does not depend on the order of the entries |
| Aggregator.MeanIsTotalOverCount | tda_test.py:82-95 | the mean is the total divided by the number of valid entries, not by the list's length |
| Aggregator.MeanBounds | tda_test.py:82-95 | the mean lies within any lower and upper bound of the valid values |
| Aggregator.AverageBounds | tda_test.py:82-95 | the average of values between two bounds lies between them |
| Aggregator.MeanSkipsInvalid | tda_test.py:94-95 | an invalid entry changes neither the mean nor whether there is one |
| Aggregator.MeanPermutation | tda_test.py:82-95 | the mean does not depend on the order of the entries |
| Aggregator.MedianPermutation | tda_test.py:110-116 | the median does not depend on the order of the entries |
| Aggregator.MedianSkipsInvalid | tda_test.py:118-120 | an invalid entry takes no position in the order and does not change the median |
| Aggregator.SortedHalves | tda_test.py:100-105 | in a sorted list at least half the elements are at most the middle value and at least half are at least it |
| Aggregator.MedianOfSorted | tda_test.py:98-123 | the median is the middle of any ascending list holding exactly the valid values |
| Aggregator.MedianHalves | tda_test.py:98-123 | at least half of the valid values are at most the median, and at least half are at least the median |
| ColumnConverter.ConvertRow | tda_test.py:134-137 | converting one row changes only the cell at the column (if the row has one), and that cell becomes its coerced value |
| ColumnConverter.ConvertColumn | tda_test.py:125-145 | converting a table converts every row, row for row |
| ColumnConverter.CountConvertible | tda_test.py:134-145 | the count that the conversion returns is at most the number of rows |
| ColumnConverter.ConvertCell | tda_test.py:134-137 | the row array afterwards holds the converted row, and the result says whether the cell passed `valid_number` |
| ColumnConverter.ConvertAt | tda_test.py:134-137 | one loop step converts row `i` (and any alias of it) and keeps every earlier row converted |
| ColumnConverter.ConvertToNumber | tda_test.py:125-145 | the rows afterwards hold the converted column, and the count is the number of rows whose cell at the column passed `valid_number` |
| ColumnConverter.ConvertRowAgain | tda_test.py:134-137 | converting an already converted row changes nothing and keeps its convertibility |
| ColumnConverter.ConvertedColumnCells | tda_test.py:134-145 | afterwards a column cell holds a number exactly when it passed `valid_number`, that number is its coerced value, and other cells are left as they were |
| ColumnConverter.ConvertColumnIdempotent | tda_test.py:125-145 | converting twice is the same as converting once, and the second conversion counts as many cells |
| ColumnConverter.CountIsNumericAfter | tda_test.py:134-145 | the count returned equals the number of column cells that hold a number afterwards |
| ColumnConverter.NothingConverted | tda_test.py:139-145 | the count is 0 exactly when no row has a valid cell at the column, and then the table is unchanged |
| ColumnConverter.OutOfRangeColumn | tda_test.py:125-145 | a negative column, or one beyond every row, converts nothing and changes nothing |
| Slicer.Keeps | tda_test.py:173-200 | the wildcard keeps every row; any other value keeps a row only if the row has the filter column and its cell there equals the value |
| Slicer.Project | tda_test.py:173-200 | the projected row has one cell per selected column, the cell at that column, in the order given |
| Slicer.KeptRows | tda_test.py:173-200 | every kept row satisfies the filter, and no more rows are kept than there are |
| Slicer.CreateSlice | tda_test.py:173-200 | a slice exists exactly when every kept row has every selected column; it has one row per kept row, each as wide as the column list |
| Slicer.KeptRowsAppend | tda_test.py:183-186 | filtering keeps rows in input order: filtering two tables laid end to end is filtering each |
| Slicer.KeptRowsComplete | tda_test.py:183-186 | no row that satisfies the filter is lost |
| Slicer.WildcardKeepsAll | tda_test.py:188-200 | the wildcard `"*"` keeps every row, the header row included |
| Slicer.WildcardSlice | tda_test.py:188-200 | with the wildcard, the slice is every row of the table projected onto the selected columns |
| Slicer.SliceCells | tda_test.py:183-186 | each output cell is the source row's cell at the selected column, in the order given; a selected filter column holds the filter value |
| Slicer.SliceAppend | tda_test.py:173-200 | slicing two tables laid end to end gives the two slices end to end |
| Examples.ValidNumberAccepts | tda_test.py:18-29 | the numbers 0, 1.5, -1.12, 100, -100 and the texts "1.5", "-1.12", "100" are valid |
| Examples.ValidNumberRejects | tda_test.py:32-44 | "+1.5", "5.", "1.2.3", "ABC", "12ABC", "", ".", "-" and "+-1.1" are not valid |
| Examples.NotNumberAfterDigits | tda_test.py:33-37 | digits followed by anything other than a complete `.digits` tail are not valid |
| Examples.DataDimensionsExamples | tda_test.py:47-63 | the sales table is 3-by-3, the 1-D list is 1-by-3, and `""` and `None` have no dimensions |
| Examples.FindTotalValid | tda_test.py:68-70 | the total of 1500.5, 1900.25, "2000.00", 1750.75 is 7151.5 |
| Examples.FindTotalSingle | tda_test.py:72-73 | the total of [1500.0] is 1500.0 |
| Examples.FindTotalRejectsShape | tda_test.py:75-77 | a 2-D list and `""` have no total |
| Examples.FindTotalSkipsInvalid | tda_test.py:78-79 | "invalid" is skipped and the total is 5151.5 |
| Examples.CalculateMeanValid | tda_test.py:84-86 | the mean of 20.5, 21.0, "22.5", 19.8, 20.2 is 20.8 |
| Examples.CalculateMeanSingle | tda_test.py:88-89 | the mean of ["-5.5"] is -5.5 |
| Examples.CalculateMeanRejects | tda_test.py:91-93 | the empty list and a 2-D list have no mean |
| Examples.CalculateMeanSkipsInvalid | tda_test.py:94-95 | "invalid" is skipped and the mean is 20.375 |
| Examples.MedianOddSorted | tda_test.py:100-102 | the median of 10, 20, 30, 40, 50 is 30 |
| Examples.MedianEvenSorted | tda_test.py:104-105 | the median of 10, 20, 30, 40 is 25 |
| Examples.MedianSingleText | tda_test.py:107-108 | the median of ["19"] is 19 |
| Examples.MedianOddUnsorted | tda_test.py:110-112 | the median of 3, 5, 1, 4, 2 is 3 |
| Examples.MedianEvenUnsorted | tda_test.py:114-116 | the median of 4, 1, 2, 3 is 2.5 |
| Examples.MedianUnsortedWithInvalid | tda_test.py:118-120 | the median of 100, "invalid", 5, 50, 10 is 30 |
| Examples.MedianEmpty | tda_test.py:122-123 | the empty list has no median |
| Examples.SalesCount | tda_test.py:128-134 | two cells of the sales column are convertible |
| Examples.SalesConverted | tda_test.py:135-137 | the North and South sales cells become the numbers 1000 and 1500 |
| Examples.MixedColumn | tda_test.py:139-145 | with "invalid" in the column only one cell is convertible |
| Examples.FlattenSingleColumn | tda_test.py:150-157 | the five one-cell rows flatten to the five temperatures in order |
| Examples.FlattenRejects | tda_test.py:161-170 | a 1-D list and a two-column table are not flattened |
| Examples.CreateSliceByRegion | tda_test.py:175-186 | filtering on region "North" and selecting columns 1 and 3 gives the two North rows |
| Examples.CreateSliceWildcard | tda_test.py:188-200 | the wildcard keeps the header row and every other row, projected onto columns 1 and 3 |

The two methods `Examples.ConvertToNumberExample` and
`Examples.ConvertToNumberSkipsInvalid` run `ConvertToNumber` on fresh rows
built from the tables at tda_test.py:128-145. They assert the returned counts
2 and 1, and they assert that the sales cells of the first table now hold the
numbers 1000 and 1500.

## Left out

- `load_csv` and its test (tda_test.py:203-240): file reading and the CSV fixture are input and output, outside this model.
- The integration test (tda_test.py:243-257): it depends on the same file fixture.
- Floating point: numbers are exact reals, so the expected results (7151.5, 20.8, 20.375) hold exactly, with no binary rounding.
- The `int`/`float` distinction (tda_test.py:135): a converted cell is a `Num`, and the model does not record whether Python would produce an `int` or a `float`.
- Python's negative indices: a negative column converts nothing. In `create_slice`, a negative filter column matches no row, though the wildcard still keeps every row, and a negative selected column makes the slice absent whenever a row is kept. Python would instead count from the end of the row.
- ColumnConverter.ConvertToNumber: the outer list of rows is an immutable sequence of mutable row arrays, so adding or removing rows, which the operation never does, cannot be expressed. A `None` or 1-D table argument, for which the operation returns 0, is not representable in its signature.
- ColumnConverter.ConvertToNumber: a cell that is already a number passes `valid_number`, so it is counted and rewritten with the same value.
- Aggregator.FindTotal: the empty 1-D list has total 0. Only an argument that is not a 1-D list (`None`, a string, a 2-D list) gives the absence marker.
- Aggregator.CalculateMean and Aggregator.CalculateMedian: a 1-D list whose entries are all invalid gives the absence marker, as the empty list does, instead of dividing by zero.
- Slicer.CreateSlice: a row too short for the filter column is not kept, and a kept row lacking a selected column makes the result absent rather than raising an error.
- Exceptions: every error path is modelled by the absence marker (`None`) or a zero count, and no operation raises.
