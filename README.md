# redux-form-datagrid: the grid controller and the field-array adapter

This project models two parts of the React data grid:

- **The grid controller** (`GridHOC`). It owns a local row store. When a sortable column header is clicked, it sorts the store's own array in place by that column's format (`number`, `string` or `date`). It shows the sorted array as its `data` state. It also rebuilds the store and the column model when new props arrive.
- **The field-array adapter** (`DatagridField`). It connects a redux-form list field to the grid. It runs the add/edit session over the field: `startEditingContent`, `addContent`, `removeContent` and `doneEditingContent`. It reports a new `fields` binding to `onChange`.

The model has five modules:

- `Js` (js.dfy) models the JavaScript semantics that the handlers rely on: truthiness, `||`, property reads, `parseFloat`, `toLowerCase` and `<` on strings.
- `ColumnModel` (columns.dfy) models the column descriptors and lodash's `_.isEqual` on them.
- `SortEngine` (sort_engine.dfy) models `Array.prototype.sort` as an in-place sort of an `array`.
- `GridHOC` (grid_hoc.dfy) models the comparators, the store and the controller as classes.
- `DatagridField` (datagrid_field.dfy) models each handler twice: as a pure step function on the adapter's state, and as a method of a class over a mutable field binding. Each method's postcondition says that it agrees with its step function.

The main results:

- The rows a comparator places strictly first form a strict weak order when no number or date key is `NaN`, and when every value of a string column is a string. Under that condition, the sort returns a permutation that is in key order.
- Being sorted by a comparator is exactly having the keys in order (both directions are proved).
- A number or date column that is already in order is left exactly as it was. A string column that is already in order is left as it was when no two keys are equal.
- The string comparator returns `1` for both orders of two equal keys, so it is not a consistent comparator in ECMAScript's sense. With distinct keys, this does not matter: only one arrangement of the rows is in key order.
- A string sort over two or more rows throws a `TypeError` when any of the values is not a string.
- A session never ends with a single blank record left in the list.
- Removing the record that was just added restores the list.
- Ending a session is idempotent, and so is starting one.

## Definitions

These functions and predicates restate a piece of the source directly. The contracts in the table below use them.

- `Js.Falsy`: `!v`, the test behind `a[property] || 0` (src/components/gridHOC.jsx:100-101) and behind `!record[key]` and `!record` (src/components/datagridField/index.js:53-55).
- `Js.Get`: `row[key]`, which is `undefined` for a missing key (src/components/gridHOC.jsx:100-101).
- `Js.Or`: `v || w` (src/components/gridHOC.jsx:100-101).
- `Js.Minus`: `x - y` on numbers, where `NaN` absorbs (src/components/gridHOC.jsx:102).
- `Js.Negative`: how `Array.prototype.sort` reads a comparator result: negative places the first operand first, and `NaN` counts as zero (src/components/gridHOC.jsx:102 and 120).
- `Js.ToString`: `String(v)`, the conversion `parseFloat` applies first (src/components/gridHOC.jsx:100-101).
- `Js.IsWhitespace`: ECMAScript's white-space and line-terminator characters, which `parseFloat` skips.
- `Js.ParseFloat`: `parseFloat` as `ToString`, then `TrimStart`, then an optional sign and `LeadingDigits` (src/components/gridHOC.jsx:100-101).
- `Js.StrLess`: `<` on strings (src/components/gridHOC.jsx:110-111).
- `ColumnModel.SameColumns`: lodash `_.isEqual` on two descriptor lists (src/components/gridHOC.jsx:78).
- `SortEngine.StrictWeakOrder`: the relation "comparator result is negative" is asymmetric, and its negation is transitive.
- `SortEngine.SortedBy`: no row comes after a row that it belongs strictly before.
- `GridHOC.Difference`: `isAscending ? first - second : second - first` (src/components/gridHOC.jsx:102 and 120).
- `GridHOC.NumberKeyOf` and `GridHOC.DateKeyOf`: the sort keys of the `number` format (src/components/gridHOC.jsx:100-101) and of the `date` format (src/components/gridHOC.jsx:118-119).
- `GridHOC.SubtractionBefore` and `GridHOC.StringBefore`: "the comparator result is negative" for the subtracting comparators (src/components/gridHOC.jsx:99-103 and 117-121) and for the string comparator (src/components/gridHOC.jsx:107-113).
- `GridHOC.StringKey`: `(getValue ? getValue(v) : v).toLowerCase()`, which is absent when the value is not a string and the call throws (src/components/gridHOC.jsx:108-109).
- `GridHOC.StringCompare`: the string comparator exactly as written (src/components/gridHOC.jsx:107-112).
- `GridHOC.StringSortThrows`: a string sort throws when there are two or more rows and one of the values is not a string (src/components/gridHOC.jsx:108-109).
- `GridHOC.KeysOrdered`, `GridHOC.StringsOrdered` and `GridHOC.InStringOrder`: the keys are in order for the direction.
- `GridHOC.AllFinite`, `GridHOC.AllText` and `GridHOC.DistinctKeys`: no key is `NaN`; every value is a string; no two lower-cased keys are equal.
- `GridHOC.SortResult`: everything one `updateGridColumnState` call promises about the rows (src/components/gridHOC.jsx:96-122).
- `DatagridField.BuildDataFromFields`: `fields.getAll() || []` (src/components/datagridField/index.js:43-46).
- `DatagridField.AllFieldsFalsy`, `DatagridField.FalsyNotZero` and `DatagridField.Blank`: the two tests of `doneEditingContent` and their union (src/components/datagridField/index.js:53-56).

## Model

| member | source | states |
|---|---|---|
| Js.TrimStart | src/components/gridHOC.jsx:100-101 | `parseFloat` drops a prefix made only of white space, and what is left does not start with white space |
| Js.LeadingDigits | src/components/gridHOC.jsx:100-101 | `parseFloat` reads the longest prefix made only of digits, and it stops before the first non-digit |
| Js.ParseFloatOfNumber | src/components/gridHOC.jsx:100-101 | `parseFloat` returns any integer unchanged, whether it is given as a number or as its decimal text |
| Js.ParseFloatNaN | src/components/gridHOC.jsx:100-101 | `undefined`, `null` and booleans parse to `NaN` |
| Js.ToLowerCase | src/components/gridHOC.jsx:108-109 | `toLowerCase` keeps the length and lower-cases each character in place |
| Js.StrLessIrreflexive | src/components/gridHOC.jsx:110-111 | no string is `>` itself |
| Js.StrLessTransitive | src/components/gridHOC.jsx:110-111 | `<` on strings is transitive |
| Js.StrLessTotal | src/components/gridHOC.jsx:110-111 | of two different strings, one is `<` the other |
| Js.StrLessAsymmetric | src/components/gridHOC.jsx:110-111 | `a < b` rules out `b < a` |
| Js.StrNotLessTransitive | src/components/gridHOC.jsx:110-111 | "not `<`" on strings is transitive |
| ColumnModel.DataIndexes | src/components/datagridField/index.js:76-77 | `columnModel.map(x => x.dataIndex)` keeps the length and the order of the columns |
| SortEngine.Sort | src/components/gridHOC.jsx:99-121 | `data.sort(cmp)` permutes the array in place; the result is sorted whenever "result is negative" is a strict weak order on the rows; an array that is already sorted is not changed |
| SortEngine.Insert | src/components/gridHOC.jsx:99-121 | one insertion step keeps the rows as a permutation, leaves a row that is already in place untouched, and stops at the row's place |
| SortEngine.SwapStep | src/components/gridHOC.jsx:99-121 | swapping two adjacent rows preserves the multiset and moves the unsorted row one place left |
| SortEngine.InsertDone | src/components/gridHOC.jsx:99-121 | once the inserted row stops moving under a strict weak order, the prefix is sorted |
| GridHOC.SubtractionStrictWeakOrder | src/components/gridHOC.jsx:99-103 | on rows whose keys are not `NaN`, the rows that `first - second` (or its reverse) places strictly first form a strict weak order |
| GridHOC.SubtractionConsistentComparator | src/components/gridHOC.jsx:102 | with no `NaN` key, the subtracting comparator is consistent in ECMAScript's sense: zero for a row against itself, opposite signs when the operands swap, and "less" and "equal" both transitive |
| GridHOC.SubtractionSortedIff | src/components/gridHOC.jsx:99-103 | with finite keys, being sorted by the subtracting comparator is exactly having the keys ascending (descending when `isAscending` is false) |
| GridHOC.OrderedIsSorted | src/components/gridHOC.jsx:99-103 | rows whose keys are in order are sorted by the subtracting comparator |
| GridHOC.NumberKey | src/components/gridHOC.jsx:100-101 | without `getValue`, a falsy value sorts as 0 and a number sorts as itself |
| GridHOC.NumberColumnFinite | src/components/gridHOC.jsx:100-101 | a column of numbers and falsy values never produces a `NaN` key, so the `number` sort orders it |
| GridHOC.StringBeforeMeans | src/components/gridHOC.jsx:107-113 | the comparator puts `a` first exactly when `a`'s key is `<` `b`'s key (ascending) or `>` it (descending); equal keys give `1` in both orders |
| GridHOC.StringStrictWeakOrder | src/components/gridHOC.jsx:107-113 | when every value is a string, the rows that the string comparator places strictly first (result `-1`) form a strict weak order; this is weaker than ECMAScript's consistency, which the comparator does not have |
| GridHOC.StringSortedIff | src/components/gridHOC.jsx:107-113 | with string values, being sorted by the string comparator is exactly having the lower-cased keys in order |
| GridHOC.StringsOrderedIsSorted | src/components/gridHOC.jsx:107-113 | rows whose lower-cased keys are in order are sorted by the string comparator |
| GridHOC.OrderedHasText | src/components/gridHOC.jsx:107-113 | two or more rows in lower-cased key order all have string values |
| GridHOC.SameFirst | src/components/gridHOC.jsx:107-113 | two key-ordered arrangements of the same rows with distinct keys start with the same row |
| GridHOC.OrderedTail | src/components/gridHOC.jsx:107-113 | dropping the first row keeps the rest in key order |
| GridHOC.DistinctTail | src/components/gridHOC.jsx:107-113 | dropping the first row keeps the remaining keys distinct |
| GridHOC.SameTail | src/components/gridHOC.jsx:107-113 | two arrangements of the same rows with the same first row continue with the same rows |
| GridHOC.StringOrderUnique | src/components/gridHOC.jsx:107-113 | with distinct keys, two key-ordered arrangements of the same rows are equal, whatever order an engine gives to equal keys |
| GridHOC.FiniteTransfers | src/components/gridHOC.jsx:99-103 | a permutation of rows with finite keys also has finite keys |
| GridHOC.TextTransfers | src/components/gridHOC.jsx:107-113 | a permutation of rows with string values also has string values |
| GridHOC.SortBySubtraction | src/components/gridHOC.jsx:98-104 | the `number` and `date` sorts permute the store's array, put it in key order when no key is `NaN`, and leave ordered rows alone |
| GridHOC.SortByString | src/components/gridHOC.jsx:106-114 | the `string` sort permutes the store's array, puts it in lower-cased key order when every value is a string, and leaves ordered rows alone when their keys are distinct |
| GridHOC.SortRows | src/components/gridHOC.jsx:96-122 | the three format blocks sort the rows as `SortResult` describes: a permutation, in key order, left alone when already ordered (with distinct keys for `string`), untouched for an unknown format, and a `TypeError` with nothing changed when a string sort meets a value that is not a string |
| GridHOC.LocalStore.constructor | src/components/gridHOC.jsx:59 | a new store holds exactly the given rows, in an array of its own |
| GridHOC.LocalStore.Clear | src/components/gridHOC.jsx:72 | `clear()` leaves the store with no rows |
| GridHOC.Grid.constructor | src/components/gridHOC.jsx:52-63 | the column model comes from the prop, the store and the displayed data hold the prop's rows, and there is no active column |
| GridHOC.Grid.DidMount | src/components/gridHOC.jsx:65-67 | a fresh store is built from the data prop, and nothing else changes |
| GridHOC.Grid.DidUpdate | src/components/gridHOC.jsx:69-81 | a data prop with a new identity clears the old store and installs a fresh one; the column model is rebuilt exactly when the descriptor lists are not `_.isEqual`; the displayed data stays |
| GridHOC.Grid.WillUnmount | src/components/gridHOC.jsx:83-86 | the store is cleared |
| GridHOC.Grid.UpdateGridState | src/components/gridHOC.jsx:88-93 | the displayed data becomes the updater's result when it is an array, and otherwise stays |
| GridHOC.Grid.UpdateGridColumnState | src/components/gridHOC.jsx:95-127 | the store's own array is sorted in place as `SortResult` describes (a permutation, in key order, left alone when already ordered, with distinct keys for `string`, untouched for an unknown format, a `TypeError` when a string sort meets a value that is not a string), and that array becomes the displayed data |
| GridHOC.Grid.ClickHeader | src/components/gridHOC.jsx:139-145 | clicking a column whose `sortable` is undefined changes nothing; clicking any other column flips its flag, makes it the active column and sorts it in the new direction |
| DatagridField.SetUndefined | src/components/datagridField/index.js:78-81 | the `reduce` adds every key, maps the keys to `undefined`, and leaves the other entries of the accumulator alone |
| DatagridField.BlankRecord | src/components/datagridField/index.js:76-81 | the new item is a record whose keys are exactly the columns' `dataIndex` values, all `undefined` |
| DatagridField.RemoveAt | src/components/datagridField/index.js:86-89 | `fields.remove(index)` drops exactly the entry at `index` and keeps the order of the others; an index past the end changes nothing |
| DatagridField.Add | src/components/datagridField/index.js:71-84 | a missing binding, or one without `push`, throws the "Incorrect fields prop" error; otherwise the blank record is appended |
| DatagridField.Start | src/components/datagridField/index.js:62-69 | an empty or unset list first gets a blank record; the editor opens unless something throws |
| DatagridField.Remove | src/components/datagridField/index.js:86-89 | removal goes through `fields.remove`, and a missing binding throws |
| DatagridField.Done | src/components/datagridField/index.js:48-60 | a lone blank entry (a record with only falsy values, or a falsy scalar other than 0) is removed; a lone `null` throws; otherwise the list is unchanged; the editor closes; a single blank entry is never left behind |
| DatagridField.BlankRecordIsBlank | src/components/datagridField/index.js:53 | the blank record passes the "every field falsy" test |
| DatagridField.StartThenDoneLeavesEmpty | src/components/datagridField/index.js:48-69 | starting a session on an empty list and ending it unedited leaves the list empty and the editor closed |
| DatagridField.StartEditThenDoneKeeps | src/components/datagridField/index.js:48-69 | a record given one truthy field during the session is kept when the session ends |
| DatagridField.AddThenRemoveRestores | src/components/datagridField/index.js:71-89 | removing the entry that `addContent` appended restores the list |
| DatagridField.DoneIdempotent | src/components/datagridField/index.js:48-60 | ending a session a second time changes nothing |
| DatagridField.StartIdempotent | src/components/datagridField/index.js:62-69 | starting a session a second time changes nothing |
| DatagridField.FieldArray.Push | src/components/datagridField/index.js:82 | `push` appends the item to the list |
| DatagridField.FieldArray.Remove | src/components/datagridField/index.js:88 | `remove` drops the entry at the index |
| DatagridField.DatagridFieldComponent.constructor | src/components/datagridField/index.js:26-33 | the editor starts closed |
| DatagridField.DatagridFieldComponent.ReceiveFields | src/components/datagridField/index.js:35-41 | a `fields` prop with a new identity is reported once to `onChange` with its whole list; a missing one throws |
| DatagridField.DatagridFieldComponent.AddContent | src/components/datagridField/index.js:71-84 | the outcome and the new binding are exactly what `Add` gives |
| DatagridField.DatagridFieldComponent.RemoveContent | src/components/datagridField/index.js:86-89 | the outcome and the new binding are exactly what `Remove` gives |
| DatagridField.DatagridFieldComponent.StartEditingContent | src/components/datagridField/index.js:62-69 | the outcome and the new state are exactly what `Start` gives |
| DatagridField.DatagridFieldComponent.DoneEditingContent | src/components/datagridField/index.js:48-60 | the outcome and the new state are exactly what `Done` gives |

## Left out

- Rendering is not modelled. This covers the JSX, the header icons and class names, the table footer and its md5 key, the pagination and edit plugins, the `cellComponent` header mode and the error/warning banners. These produce markup, not state.
- A thrown exception is modelled as a returned outcome (`Fail(TypeError)` or `Fail(IncorrectFieldsProp)`). React's error handling around it is not modelled.
- Js.ParseFloat: reads only an optional sign and a run of digits. Fractions, exponents, `Infinity` and IEEE-754 rounding are not modelled, because numbers are unbounded integers here.
- Js.ToLowerCase: lower-cases ASCII letters only. Unicode case mapping is not modelled.
- Js.StrLess: compares characters, not UTF-16 code units, so it can differ from JavaScript on text outside the Basic Multilingual Plane.
- The `date` format takes the time value of `new Date(...)` from a `dateOf` parameter, because JavaScript date parsing is part of the engine.
- SortEngine.Sort: stands for the engine's own algorithm. It is an insertion sort that reads only whether the comparator result is negative. Its contract asks only that this relation be a strict weak order, which is weaker than ECMAScript's consistent comparator. The contract does not state the full stability that ECMAScript requires. It states only that an array that is already sorted is left unchanged.
- GridHOC.StringStrictWeakOrder: the string comparator is not a consistent comparator in ECMAScript's sense. It returns `1` for both orders of two equal keys, and for a row compared with itself (`StringBeforeMeans`). ECMAScript then leaves the resulting order to the engine. The model still promises key order for a string sort, because every comparison between two different keys gives the correct answer. It does not promise the relative order of rows with equal keys. That is why the "left alone" clause of `SortByString`, `SortRows`, `UpdateGridColumnState` and `ClickHeader` requires distinct keys.
- GridHOC.Grid.ClickHeader: inherits the string-sort limits of `GridHOC.StringStrictWeakOrder` through `SortResult`.
- GridHOC.Grid.UpdateGridColumnState: a string sort that throws leaves the store unchanged. ECMAScript's `Array.prototype.sort` sorts a separate list and writes it back to the array only after the last comparison, so an array whose comparator throws is left as it was.
- GridHOC.StringSortThrows: assumes that with two or more rows every row takes part in at least one comparison. A comparison sort cannot place a row without comparing it at least once.
- The store classes (`./store`) are not part of this model. `LocalStore` is taken to copy the rows it is given, and `clear()` to leave it empty. `RemoteStore` is never built by the controller, so the `instanceof LocalStore` test always passes and is not modelled.
- The displayed `data` is a snapshot of the store's rows. Its aliasing with the store's array is not modelled. An updater passed to `updateGridState` cannot modify the store.
- React's `setState` is modelled as an immediate field update. Batching and deferred re-rendering are not modelled.
- GridHOC.Grid.DidUpdate: follows the code. A new data prop replaces the store but does not reset the displayed `data`. The grid keeps showing its previous rows until the next sort or update.
- Column descriptors are plain values. `ClickHeader` writes the flipped flag back into the controller's column list. The same descriptor object may also be shared with the props; `./columnModel` is not part of this model, and any such sharing is not modelled.
- The redux-form binding is a mutable list with `push` and `remove`. Its asynchronous dispatch, `meta` and validation are not modelled. An index is a `nat`, so negative indices are not modelled.
- `FormFieldModal` and the presentational grid are not part of this model.
