# Masonry component model

A Dafny model of the masonry component of the SilverWare masonry module
(`MasonryComponent`). The component stores a column unit (`pixel` or
`percent`), two viewport width sets (`PixelWidth`, `PercentWidth`), a gutter
and a horizontal-order flag. From these it derives:

- the configuration array handed to the client-side masonry engine
  (`getMasonryConfig`): two fixed selectors, a percent-position flag, a
  horizontal-order flag, and a `gutter` entry only when the gutter is non-zero;
- the column-width rows handed to the custom CSS template (`getColumnWidths`):
  one row per viewport of the active width set whose value is set and
  non-zero, in the set's viewport order, each row holding the value rendered
  with `%d` followed by the unit suffix, and that viewport's breakpoint;
- the base list of grid class names.

Files:

- `wrappers.dfy` — `Option`.
- `decimal.dfy` — module `Decimal`: PHP's `%d` rendering of an integer and a
  parser for it, with the round trip proved.
- `viewports.dfy` — module `Viewports`: the viewport value set as an abstract
  value — a sequence of viewport names (the framework's order), a map from
  name to integer (a missing key is unset), and a breakpoint function from name
  to media-query string. `IsTruthy` is PHP truthiness of the stored value: unset
  and `0` are both false.
- `masonry.dfy` — module `Masonry`: the component settings as a datatype, the
  unit selection, the configuration as an ordered PHP array (a sequence of
  key/value entries), and the width projection. `getMasonryConfig` and
  `getColumnWidths` are methods (`MasonryConfig`, `ColumnWidths`) proved equal
  to the specification functions `ConfigOf` and `ColumnWidthRows`; the
  properties are proved about those functions.

The component's settings are never changed by this logic, so the component is
a value (`MasonryComponent`) rather than a class. The `ArrayList` built by
`getColumnWidths` is a local sequence that the loop appends to, and each
`ArrayData` row is a `WidthRow` value.

Two points of the code's behaviour that the model keeps:

- A viewport whose width is `0` produces no row: the test at
  src/Components/MasonryComponent.php:269 is PHP truthiness, so `0` counts
  like an unset value. `RowsCharacterized` and `PixelExampleRows` state this.
- The `gutter` key is added when the gutter is non-zero: the test at
  src/Components/MasonryComponent.php:225 is PHP truthiness as well.

## Model

| member | source | states |
|---|---|---|
| Masonry.ColumnUnitCSS | src/Components/MasonryComponent.php:290-293 | the suffix is always `"%"` or `"px"`, and it is `"%"` exactly when the column unit is `"percent"` |
| Masonry.ColumnWidthData | src/Components/MasonryComponent.php:300-303 | the active width set is `PercentWidth` when the unit is `"percent"` and `PixelWidth` for every other unit string |
| Masonry.IsPercentPosition | src/Components/MasonryComponent.php:310-313 | percent positioning holds exactly when the CSS suffix is `"%"`, that is, when the column unit is `"percent"` |
| Masonry.IsHorizontalOrder | src/Components/MasonryComponent.php:320-323 | the boolean cast of the stored flag: false for 0, true for any non-zero value |
| Masonry.UnitSelectionAgrees | src/Components/MasonryComponent.php:290-313 | percent positioning holds iff the suffix is `"%"`, fails iff it is `"px"`, and goes with the percent set; otherwise the pixel set is active |
| Masonry.Lookup | src/Components/MasonryComponent.php:218-227 | reading a PHP array key: `None` exactly when the key is absent, otherwise a value stored under that key |
| Masonry.LookupAt | src/Components/MasonryComponent.php:218-227 | in an array with distinct keys, looking up any entry's key yields that entry's value |
| Masonry.ConfigOf | src/Components/MasonryComponent.php:216-230 | the keys are exactly `columnWidth`, `itemSelector`, `percentPosition`, `horizontalOrder`, then `gutter` iff the gutter is non-zero; no key repeats |
| Masonry.ConfigValues | src/Components/MasonryComponent.php:218-227 | the two selectors are `.masonry-grid-sizer` and `.masonry-grid-item` whatever the settings; `percentPosition` is the percent-unit test, `horizontalOrder` the boolean cast of the flag; `gutter` is present iff the gutter is non-zero and then equals it |
| Masonry.MasonryConfig | src/Components/MasonryComponent.php:216-230 | building the array with four entries and then conditionally appending `gutter` yields exactly `ConfigOf` |
| Masonry.ZeroGutterHasFourKeys | src/Components/MasonryComponent.php:225-229 | with a zero gutter the configuration has exactly the four fixed keys |
| Masonry.GridClassNames | src/Components/MasonryComponent.php:249 | before any extension runs, the class list is `["masonry-grid"]` |
| Masonry.Defaults | src/Components/MasonryComponent.php:116-122 | a component with the declared defaults has gutter 10, unit `pixel` (so not percent positioning) and horizontal order 1 (so horizontal ordering), with the given width sets |
| Masonry.DefaultSettings | src/Components/MasonryComponent.php:116-122 | with the declared defaults (gutter 10, unit `pixel`, horizontal order 1) the configuration has five keys, `percentPosition` false, `horizontalOrder` true, `gutter` 10, the suffix is `"px"` and the pixel set is active |
| Decimal.NatToDecimal | src/Components/MasonryComponent.php:273 | the rendering of a natural number is a non-empty string of digits with no leading zero |
| Decimal.IntToDecimal | src/Components/MasonryComponent.php:273 | `%d` rendering is non-empty, starts with `-` exactly for negative values, and is canonical: digits only with no leading zero (just `"0"` for zero) for non-negative values, `-` then digits with no leading zero for negative ones |
| Decimal.NatToDecimalRoundTrip | src/Components/MasonryComponent.php:273 | reading back the digits of a rendered natural number gives that number |
| Decimal.IntToDecimalRoundTrip | src/Components/MasonryComponent.php:273 | parsing the `%d` rendering of any integer gives back that integer |
| Decimal.IntToDecimalInjective | src/Components/MasonryComponent.php:273 | two integers render the same exactly when they are equal |
| Masonry.FormatWidth | src/Components/MasonryComponent.php:273 | `sprintf('%d%s', value, suffix)`: the width is the `%d` rendering of the value followed by exactly the suffix |
| Masonry.FormatWidthRoundTrip | src/Components/MasonryComponent.php:273 | a width `sprintf('%d%s', value, suffix)` reads back, given the suffix, as the value |
| Viewports.IsTruthy | src/Components/MasonryComponent.php:269 | the test of the stored value: false for an unset viewport, and for an assigned one true exactly when its value is non-zero |
| Viewports.GetField | src/Components/MasonryComponent.php:269 | a viewport's stored value is present exactly when the viewport has been assigned, and is then the assigned value; no fallback to any other viewport |
| Masonry.RowsCharacterized | src/Components/MasonryComponent.php:265-282 | there is one row per viewport whose value is set and non-zero and no other; the rows follow the viewport order (strictly increasing positions); row k has the k-th such viewport's formatted value and breakpoint |
| Masonry.Rows | src/Components/MasonryComponent.php:265-282 | the rows for a list of viewports, visited in order; there are never more rows than viewports |
| Masonry.RowsParse | src/Components/MasonryComponent.php:271-276 | every row's width reads back as a number in the unit it was built with |
| Masonry.RowsEmpty | src/Components/MasonryComponent.php:267-280 | the rows are empty exactly when every viewport is unset or zero |
| Masonry.ColumnWidthRows | src/Components/MasonryComponent.php:261-283 | what `getColumnWidths` answers: the rows of the active width set, at most one per viewport of that set, each width ending in the active unit suffix and reading back as a number |
| Masonry.ColumnWidths | src/Components/MasonryComponent.php:261-283 | the loop over the active set's viewports, pushing a row for each truthy value, yields exactly `ColumnWidthRows` |
| Masonry.ColumnWidthRowsSpec | src/Components/MasonryComponent.php:261-283 | for a component: at most one row per viewport of the active set, in its order, only for set non-zero values, empty iff none is; each row's width parses back in the active unit to the viewport's value and its breakpoint is the active set's breakpoint for it |
| Masonry.PixelExampleRows | src/Components/MasonryComponent.php:265-282 | pixel unit with Small 200, Medium 0, Large 300 gives exactly the rows `200px` (Small) and `300px` (Large); the zero is skipped |
| Masonry.PixelExampleConfig | src/Components/MasonryComponent.php:218-227 | pixel unit, gutter 15, order 1 gives `percentPosition` false, `horizontalOrder` true, `gutter` 15 |
| Masonry.PercentExample | src/Components/MasonryComponent.php:216-283 | percent unit, nothing set, gutter 0, order 0 gives no rows, only the four fixed keys, `percentPosition` true, `horizontalOrder` false and no gutter |

## Left out

- `getCMSFields` and `fieldLabels`: admin form wiring and translated labels, not behaviour of the layout logic.
- `getMasonryConfigJSON`: `json_encode` is a foreign library call; the configuration is modelled as an ordered array of key/value entries instead of a serialised string, so no JSON round trip is stated.
- The `updateGridClassNames` extension hook (line 251): it dispatches to unknown extensions that may rewrite the list in any way; only the base list is modelled.
- Static metadata (`$singular_name`, `$plural_name`, `$description`, `$icon`, `$hide_ancestor`, `$allowed_children`, `$db`): CMS configuration, not behaviour.
- The `ImageItems` and `ImageLinksTo` defaults: they belong to fields of the parent list component, which this logic never reads.
- The internals of the `Viewports` field type, of `dbObject`, `ArrayList` and `ArrayData`: framework code that is not part of this model. The viewport order, the stored values and the breakpoint lookup are parameters of `ViewportSet`.
- Validation of width values when they are assigned: whether it happens is up to the framework's field types, which are not part of this model. The model accepts any integer, negatives included, and renders it with `%d` (a stored -5 gives `"-5px"`).
- PHP type juggling of non-numeric strings through `%d`, `(int)` and `==`: stored values are taken to be integers and the column unit a string (an unset unit behaves like any string other than `"percent"`).
- Decimal.IntToDecimal: PHP integers are 64-bit; the model renders unbounded integers and does not model overflow of stored values.
