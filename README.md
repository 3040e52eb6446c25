# Layout components: prop-to-CSS style resolution

This project models the style resolution of three React layout components
built on styled-components:

- `Flex`, a flexbox container;
- `Grid`, a CSS grid container;
- `Box`, the child item that lays itself out from the props its container
  injects.

Each styled-components interpolation is a pure function from the component's
props to a fragment of CSS. The model treats a component's style as the
interpolations evaluated in template order.

- Props are a map from names to JavaScript values (`JsValues.Value`:
  `undefined`, `null`, booleans, integers, strings, arrays and breakpoint
  objects). Truthiness, `String()` and template-literal coercion, and
  `Number()` are written out.
- The output is structured CSS (`Css.Rule`): an unconditional declaration,
  or an `@media (max-width: Npx)` block of declarations. Whitespace and
  stray semicolons of the templates are not modelled.
- An interpolation can throw. Examples are `reduce` on an empty array,
  `reduce` on something that is not an array, and `Object.keys(null)`. A
  style is therefore a `Result`. The first interpolation that throws makes
  the whole template throw (`Css.Chain`).
- A breakpoint table is an ordered `seq<(string, nat)>`, in key order. All
  nine per-breakpoint sections share one shape:
  `Object.keys(bp).map(f).reverse().reduce((a, b) => a + b)`
  (`Breakpoints.MediaSection`). It runs the callbacks in table order, emits
  the LAST entry first, and throws on an empty table.
- A component's props are the user's props with `defaultProps` filling every
  `undefined` prop (`JsValues.WithDefaults`). A container hands its children
  an override map (`React.cloneElement`, `JsValues.CloneWith`).
- Percentages are exact reals over the JavaScript number cases: finite,
  infinite and NaN.

Modules: `Wrappers` (Option, Result), `Strings` (join, split, quoting),
`JsValues`, `Css`, `Breakpoints`, `Box`, `Grid`, `Flex`.

The default breakpoint table is phone 425, tablet 768, laptop 1024 and
desktop 1440 (src/components/utils.js:6-11); the comment at
src/components/utils.js:3 calls these "bootstrap-like values". Media blocks
are ordered by reversing the table's key order, without sorting. For the
ascending default table this gives descending thresholds
(`Breakpoints.SelectedReverseDescending`). A table listed from the widest
breakpoint down gets ascending thresholds
(`Breakpoints.SelectedReverseAscending`).

A `column` or `row` prop is written as its first two items, or for a
string its first two characters: `column="span 2"` writes
`grid-column: s / p`, and `column="2"` writes `grid-column: 2 / undefined`
(`Box.Range`).

## Model

| member | source | states |
|---|---|---|
| JsValues.WithDefaults | src/components/box.js:315-325 | every `undefined` prop that has a default takes the default; every other prop is kept; the keys are the union of both |
| JsValues.CloneWith | src/components/flex.js:117-142 | an overriding prop replaces the child's own; every prop not overridden is the child's own |
| JsValues.CloneAll | src/components/grid.js:282-297 | children map one-to-one, in order, to their clones with the same overrides |
| JsValues.IntegerPercentage | src/components/box.js:102-103 | `(part / whole) * 100` of integer props with a non-zero whole is exactly `part * 100 / whole` |
| JsValues.ZeroWholePercentage | src/components/box.js:102-103 | dividing by zero columns gives Infinity, -Infinity or NaN, never a finite width |
| JsValues.NumberOfString | src/components/box.js:90-91 | a column prop given as the decimal string of n converts to n, so `'6' / 12` divides like `6 / 12` |
| JsValues.Interpolate | src/components/flex.js:39-44 | a function interpolation returning `undefined`, `null`, `false` or `''` writes nothing; a truthy value is written as `String()` writes it; `0` is written `0` |
| JsValues.FalsyValues | src/components/grid.js:188 | exactly `undefined`, `null`, `false`, `0` and `''` are falsy, so they suppress their declaration |
| Css.Chain | src/components/box.js:42-249 | a template succeeds iff every interpolation succeeds, and then its output is the interpolations' outputs concatenated in template order (`Css.Values`); a failing template fails with the first failing interpolation's error |
| Css.ChainDeclares | src/components/grid.js:38-204 | a template declares a property unconditionally iff one of its interpolations does |
| Css.Background | src/components/flex.js:51-55 | with `debug` truthy the interpolation is exactly the one declaration `background: rgba(0,0,0,0.20)`; otherwise it writes nothing |
| Breakpoints.TableOf | src/components/box.js:89 | `Object.keys` of an object is its table; `undefined` and `null` throw; numbers and booleans have no keys |
| Breakpoints.MapEntries | src/components/box.js:89-98 | the map succeeds iff every callback succeeds, and then holds each callback's fragment in table order; a failing map fails with the error of the first callback in table order that throws |
| Breakpoints.MediaSectionFirstError | src/components/grid.js:61-85 | a section over a non-empty table that throws carries the error of the first fragment, in table order, that throws |
| Breakpoints.ReduceConcat | src/components/box.js:99 | `reduce` without an initial value throws iff there are no fragments, and otherwise concatenates them |
| Breakpoints.MediaSection | src/components/grid.js:61-85 | an empty table throws; the section throws iff a fragment throws; otherwise it is the fragments with the last table entry first |
| Breakpoints.Section | src/components/grid.js:62 | a section reads its table from `props.breakPoints`: an object gives the media section over its entries; `undefined` and `null` throw `NotAnObject`; a boolean or number has no keys, so `reduce` throws |
| Breakpoints.Selected | src/components/box.js:132 | the entries kept are exactly the table entries whose `<prefix>-<bp>` prop is truthy |
| Breakpoints.SectionOfSelected | src/components/box.js:131-149 | when falsy props contribute nothing, a section is the fragments of the selected entries, last selected first |
| Breakpoints.CollectSingles | src/components/box.js:137-142 | a section of one-rule fragments has rule k equal to entry k's fragment |
| Breakpoints.CollectPairs | src/components/box.js:236-241 | a section of two-rule fragments has rules 2k and 2k+1 from entry k |
| Breakpoints.MediaSectionPlainWithin | src/components/box.js:131-149 | a section whose fragments declare nothing outside media blocks declares nothing outside media blocks |
| Breakpoints.MediaSectionCongruent | src/components/grid.js:165-181 | a section depends on its callback only at the table's entries |
| Breakpoints.SelectedReadsOnlyTableKeys | src/components/grid.js:166 | which breakpoints are selected depends only on the props named after table keys |
| Breakpoints.SelectedReverseDescending | src/components/box.js:144 | for a table in ascending threshold order, the blocks come in descending threshold order |
| Breakpoints.SelectedReverseAscending | src/components/box.js:144 | for a table in descending threshold order, the blocks come in ascending threshold order (reversal, not sorting) |
| Breakpoints.DefaultTableAscending | src/components/utils.js:6-11 | the default table is in ascending threshold order |
| Box.Element | src/components/box.js:25-40 | every unset prop with a default takes the default and every set prop is kept; `col` is 1 and `push` 0 unless the user sets them; props without a default are the user's |
| Box.ElementDefaults | src/components/box.js:25-40 | with none of them set, `order` is 1, `flex` is `'1'`, `flexAlign` is `'auto'`, `col` is 1, `push` is 0, and `area`, `column` and `row` are `null` |
| Box.DebugBorder | src/components/box.js:49-55 | with `debug` truthy the interpolation is exactly `border: 1px dashed black`; otherwise it writes nothing |
| Box.FlexItem | src/components/box.js:68-76 | `order` and `align-self` are declared iff the display is `flex` or `inline-flex`, `flex` iff in addition `useGrid` is falsy; in a flex display the rules are `order: <order>`, then `flex: <flex>` unless `useGrid`, then `align-self: <flexAlign>`; in any other display it writes nothing |
| Box.SizingFragment | src/components/box.js:89-98 | the column-grid callback never throws and gives one media block at the breakpoint's threshold holding that breakpoint's sizing body |
| Box.SizingBody | src/components/box.js:90-97 | a breakpoint's block holds `width` iff `col-<bp>` is truthy and `margin-left` iff `push-<bp>` is truthy, each with its prop's percentage, and nothing else: at most two declarations, `width` first |
| Box.ColumnGrid | src/components/box.js:87-107 | without `useGrid` nothing is written; with it the base width and margin come before the media blocks |
| Box.ColumnGridBlocks | src/components/box.js:89-105 | with `useGrid`, the base width and margin, then exactly one block per breakpoint, last entry first; an empty table throws |
| Box.SpansOf | src/components/box.js:101-103 | with integer props, width is `col * 100 / columns` percent and margin `push * 100 / columns` percent |
| Box.DefaultSpans | src/components/box.js:25-31 | with the defaults `col = 1` and `push = 0`, width is `100 / columns` percent and margin 0 percent |
| Box.Range | src/components/box.js:122-123 | `v[0] / v[1]` writes the first two items of an array or the first two characters of a string, and `undefined` for a missing one: a one-character string `'2'` gives `2 / undefined`, an empty array `undefined / undefined` |
| Box.Placement | src/components/box.js:118-126 | in a grid display `grid-area: <area>`, `grid-column: a / b` and `grid-row: a / b` are each declared iff their prop is truthy, each at most once, and nothing else is written (no media block); in any other display it writes nothing |
| Box.OverrideFragment | src/components/box.js:131-149 | the `area-`/`column-`/`row-` callback never throws; a falsy `<prefix>-<bp>` gives nothing, a truthy one a media block at the threshold setting the property to that prop's text |
| Box.HiddenFragment | src/components/box.js:206-224 | a falsy `hidden-<bp>` gives nothing; a truthy one a media block at the threshold with `display: none` |
| Box.ShowFragment | src/components/box.js:229-248 | a falsy `show-<bp>` gives nothing; a truthy one an unconditional `display: none` followed by a media block at the threshold with `display: block` |
| Box.Sections | src/components/box.js:42-249 | the template has ten parts: the literal `box-sizing: border-box` declaration, then the nine interpolations in template order |
| Box.SectionsThatThrow | src/components/box.js:42-126 | box-sizing, the debug border, the flex item and the grid placement never throw, so only the column grid and the five breakpoint sections can |
| Box.OverrideBlocks | src/components/box.js:131-195 | an `area-`/`column-`/`row-` section holds one block per truthy prop with that breakpoint's threshold, last entry first, whatever the display |
| Box.HiddenBlocks | src/components/box.js:206-224 | `hidden-<bp>` puts only `display: none` inside that breakpoint's block and nothing outside a block |
| Box.ShowBlocks | src/components/box.js:229-248 | `show-<bp>` writes an unconditional `display: none` followed by a block with `display: block`, once per truthy prop |
| Box.VisibilityExample | src/components/box.js:206-248 | for the table `{phone: 576}`, `show-phone` gives `display: none` then `display: block` under 576px, and `hidden-phone` gives `display: none` under 576px |
| Box.EmptyTableThrows | src/components/box.js:144 | with an empty breakpoint table no box can be styled |
| Box.MissingTableThrows | src/components/box.js:131-132 | without a breakpoint table `Object.keys` throws and no box can be styled |
| Box.Style | src/components/box.js:42-249 | a box's style succeeds iff every interpolation does, and is then their outputs in template order, starting with `box-sizing: border-box` |
| Box.FlexModeDeclarations | src/components/box.js:68-76 | over the whole template, `order` and `align-self` are declared iff the display is flex, and `flex` iff also `useGrid` is falsy |
| Box.GridModeDeclarations | src/components/box.js:118-126 | over the whole template, each grid placement is declared iff the display is grid and its prop is truthy |
| Box.ColumnGridDeclarations | src/components/box.js:101-103 | over the whole template, a base `width` and `margin-left` are declared iff `useGrid` is truthy |
| Grid.Element | src/components/grid.js:18-33 | every unset prop with a default takes the default, every set prop is kept, and a prop without a default stays as the user left it |
| Grid.JoinTracksIsJoin | src/components/grid.js:51 | the left fold `prev + ' ' + current` joins the items with single spaces |
| Grid.TrackList | src/components/grid.js:46-54 | a string track list is written verbatim, an array joined with single spaces; an empty array and a non-array throw |
| Grid.TrackListSplits | src/components/grid.js:51 | a joined array splits back at its spaces into its items when no item holds a space |
| Grid.AreaFoldQuotes | src/components/grid.js:146-151 | for two or more rows, the `i === 1` reduce quotes every row and joins them with single spaces |
| Grid.AreaTemplate | src/components/grid.js:144-157 | two or more rows are quoted and space-joined; one row is written unquoted; an empty array throws; a non-array throws |
| Grid.AreasParse | src/components/grid.js:146-151 | areas of two or more rows read back, as quoted strings, as the rows |
| Grid.AreasExamples | src/components/grid.js:146-151 | `['a a', 'b c']` gives `"a a" "b c"`; `['a a']` gives `a a`, which is not a list of quoted strings |
| Grid.BaseTemplate | src/components/grid.js:94-103 | a falsy prop writes nothing; a truthy one throws iff its value throws, and otherwise writes exactly one declaration of the property, whose text is the serialised value |
| Grid.TemplateFragment | src/components/grid.js:61-85 | a falsy `<prefix>-<bp>` gives nothing; a truthy one throws iff its value throws, and otherwise gives a media block at the threshold declaring the property as the serialised value |
| Grid.TemplateThrows | src/components/grid.js:110-134 | over a non-empty breakpoint table, a `columns-`/`rows-`/`areas-` section throws iff some breakpoint with a truthy prop has a value that throws |
| Grid.TemplateBlocks | src/components/grid.js:61-85 | an override section holds one block per truthy prop, with the breakpoint's threshold and the prop's template, last entry first |
| Grid.TemplatePlain | src/components/grid.js:164-186 | an override section declares nothing outside media blocks |
| Grid.TemplateReadsOnlyTableKeys | src/components/grid.js:61-85 | props that agree on the `<prefix>-<bp>` props of the table's keys give the same section: other keys are never read |
| Grid.Optional | src/components/grid.js:87 | a truthy prop writes exactly `property: <prop>` as `String()` writes it; a falsy one writes nothing |
| Grid.Gap | src/components/grid.js:188 | `grid-gap` is declared iff `gap` is truthy, as the gap followed by `px` |
| Grid.Sections | src/components/grid.js:38-204 | the template has fourteen interpolations, starting with `display` and ending with the debug background; only the three base templates and their three breakpoint sections can throw |
| Grid.Style | src/components/grid.js:38-204 | a grid's style succeeds iff every interpolation does, and is then their outputs in template order, starting with its `display` |
| Grid.Context | src/components/grid.js:282-297 | the grid injects exactly `display`, `debug` and `breakPoints`, each equal to its own |
| Grid.TableThrows | src/components/grid.js:80 | with an empty breakpoint table or none at all, no grid can be styled |
| Grid.TemplateDeclarations | src/components/grid.js:46-157 | over the whole template, each of the three base templates is declared iff its prop is truthy |
| Grid.OptionalDeclarations | src/components/grid.js:87-203 | over the whole template, `grid-auto-columns`, `grid-auto-rows`, `grid-gap`, `justify-items`, `align-items`, `grid-auto-flow` and the debug background are each declared iff their prop is truthy |
| Grid.ElementDefaults | src/components/grid.js:18-33 | unset `display`, `debug`, `justify`, `align` and `flow` become `grid`, `false`, `stretch`, `stretch` and `row` |
| Grid.DefaultDeclarations | src/components/grid.js:18-33 | with those props unset, a grid declares `display: grid`, `justify-items: stretch`, `align-items: stretch`, `grid-auto-flow: row` and no debug background |
| Grid.ChildrenInherit | src/components/grid.js:282-297 | exactly `display`, `debug` and `breakPoints` are injected, equal to the grid's; the child's `useGrid`, `columns` and all other props are its own |
| Grid.InjectedDefined | src/components/grid.js:18-33 | a child never receives `undefined` for an injected prop |
| Flex.Element | src/components/flex.js:16-30 | every unset prop with a default takes the default, every set prop is kept, and a prop without a default stays as the user left it |
| Flex.Style | src/components/flex.js:38-56 | the container declares display, flex-direction, flex-wrap, justify-content, align-items and align-content from their props, in that order, then `position: relative`, then exactly the debug background interpolation; nothing is in a media block |
| Flex.Context | src/components/flex.js:117-142 | the container injects exactly `display`, `debug`, `useGrid`, `columns` and `breakPoints`, each equal to its own |
| Flex.ElementDefaults | src/components/flex.js:16-30 | unset flexbox props become `flex`, `row`, `nowrap`, `flex-start`, `flex-start` and `flex-start`, and `debug` becomes `false` |
| Flex.DefaultStyle | src/components/flex.js:16-45 | with those props unset, the container's style is exactly the seven default declarations |
| Flex.ChildrenInherit | src/components/flex.js:117-142 | exactly `display`, `debug`, `useGrid`, `columns` and `breakPoints` are injected, equal to the container's; every other prop of the child is its own |
| Flex.InjectedDefined | src/components/flex.js:16-30 | a child never receives `undefined` for an injected prop |
| Flex.ClonedBox | src/components/flex.js:131-141 | a cloned box keeps its own `col` and `push` and takes the container's `columns`, `useGrid` and `breakPoints` |
| Flex.ColumnGridDefaults | src/components/flex.js:19-22 | an unset table becomes the default table, and unset `columns` becomes 12 |
| Flex.ChildColumnWidth | src/components/flex.js:129-136 | a box in a container with `useGrid` and `columns: n` has width `col * 100 / n` percent and one block per default breakpoint |
| Flex.DefaultColumnWidth | src/components/flex.js:19-24 | with the default 12 columns and the box's defaults, a box spans 100/12 percent with no left margin |
| Flex.TwelfthColumn | src/components/box.js:101-103 | with 12 columns, `col = 1` and `push = 0`, the base width is 100/12 percent and the margin 0 percent |

## Left out

- React itself is not modelled: component classes, `render`, JSX, and the
  `React.Children` and `cloneElement` internals (null children, keys,
  refs). Only the resulting prop maps are modelled.
- `cloneElement` resolves an `undefined` override through the child's
  default props. This is not modelled: no injected prop has a Box default,
  and `Flex.InjectedDefined` and `Grid.InjectedDefined` show the injected
  values are never `undefined`.
- styled-components mechanics are not modelled: class-name generation,
  style injection, and the text of the tagged template (whitespace, empty
  lines, stray semicolons). The output is structured rules.
- Floating-point arithmetic and number formatting are not modelled.
  Percentages are exact reals, so `33.333333333333336%` is the real 100/3.
  Signed zero is not modelled.
- Numeric props are integers. Non-integer and exponent-form numbers are not
  modelled. `Number()` of a string handles only an optional sign and decimal
  digits: no whitespace trimming, decimal points, hex or `Infinity`.
- Breakpoint thresholds are natural numbers. A breakpoint object holds only
  name/threshold pairs, in key order. JavaScript enumerates integer-like keys
  first; that ordering is not modelled.
- `Object.keys` of a non-empty string or array is an error value
  (`KeysOutsideModel`) rather than its index keys.
- styled-components flattening of array and object values returned by an
  interpolation is not modelled. Values are written as `String()` writes
  them.
- Track-list and area items are written with `String()`. Objects write as
  `[object Object]`. Nested arrays are joined with commas.
- `prop-types` validation is not modelled: it only prints development
  warnings.
- The example application (example/src/App.js) is not part of this model.
- The CSS cascade and viewport evaluation are not modelled, for example
  "visible at 500px wide". The model states the order and content of the
  emitted rules only.
- Strings are sequences of characters. UTF-16 code units are not modelled.
