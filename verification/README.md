# Portfolio project catalog — a Dafny model

This project models the logic of `script.js`, the client-side script of a
single-page portfolio site. Everything else in that script is DOM and
browser glue. The model covers four parts:

- **Matching** (`renderProjects`). A project is shown when every filter
  dimension passes. A dimension passes when its selection is the sentinel
  `"all"` or the project carries the selected value. Category and
  complexity are compared exactly. Technology is a membership test over the
  project's technology list, each entry lower-cased.
- **Sorting** (`sortProjects`). Any unrecognised key takes the default
  branch, which returns its input unchanged. `name`, `date` and `complexity`
  sort a copy of the input with the engine's stable sort:
  - `name`: titles ascending;
  - `date`: dates descending, newest first;
  - `complexity`: ranks ascending, with beginner=1, intermediate=2,
    advanced=3.
- **Filter options** (`renderProjectFilters`). Each dimension gets an
  insertion-ordered `Set` seeded with `"all"` and filled from the catalog.
  Technologies are lower-cased. The technology row shows only its first
  eight entries, `"all"` included. A click on a button replaces the
  selection of that button's dimension and leaves the other two alone.
- **Field validation** (`validateField`). This is a pure function of the
  field's value, `required` flag, `type` and `name`. The value is trimmed
  first. Three checks then run in order: required, email pattern, and the
  ten-character minimum for `message`. Each failing check overwrites the
  error message, so the last one to fail decides it.

Modules, one per concern:

| file | module | contents |
|---|---|---|
| `sequences.dfy` | `Sequences` | subsequence and distinctness |
| `text.dfy` | `Text` | `toLowerCase`, the `\s`/`trim` whitespace class, `trim`, title order |
| `catalog.dfy` | `Catalog` | `Project`, `FilterSelection`, the matching predicate, filtering |
| `sorting.dfy` | `Sorting` | sort keys, stable insertion sort, `sortProjects` |
| `filter_options.dfy` | `FilterOptions` | option sets and filter buttons |
| `validation.dfy` | `Validation` | email pattern, `validateField` |
| `pipeline.dfy` | `Pipeline` | `renderProjects`: filter, sort, empty placeholder |
| `seed_catalog.dfy` | `SeedCatalog` | the four shipped projects and worked examples |

The engine's sorting algorithm is not visible to the model. The model uses a
stable insertion sort. `Sorting.StableSortIsUnique` proves that every
sorted arrangement that keeps tied projects in input order is exactly the
insertion sort's result. So any stable sort, the engine's included, gives
the same output.

Stability is stated with `Sorting.Peers(k, x, s)`. It lists the elements of
`s` that tie with `x` under key `k`, in the order `s` has them.
`Stable(k, r, s)` says every such group reads the same in `r` as in `s`.
`Sorting.TiedIff` gives the meaning of a tie: equal titles, equal dates, or
equal complexity levels.

Two behaviours of the code are easy to miss:

- The technology check lower-cases only the project's entries. A selected
  technology with an upper-case letter therefore matches nothing. Technology
  buttons only ever carry lower-cased values. Category buttons carry the
  catalog string unchanged.
- The eight-entry cap on the technology row, commented as a UI limit at
  script.js:300, also decides which technologies can be selected at all. In
  the shipped catalog, the last three software-engineering technologies
  and all four web technologies get no button. `FilterOptions.FilterButtons`
  states the cap and `SeedCatalog.SeedTechnologyRow` computes the shipped
  row. `FilterOptions.ShowingValueHasButton` holds only for category and
  complexity.

## Model

| member | source | states |
|---|---|---|
| `Text.Lower` | script.js:264 | lower-casing keeps the length, leaves no upper-case letter and changes no other character |
| `Text.LowerFollowsAlphabet` | script.js:264 | each capital letter `A`–`Z` becomes the small letter at the same place in the alphabet |
| `Text.LowerIdempotent` | script.js:351 | lower-casing an already lower-cased technology changes nothing |
| `Text.IsWhitespace` | script.js:592-606 | the whitespace class removed by `trim()` and matched by `\s` in the email pattern: exactly the ECMAScript WhiteSpace and LineTerminator code points |
| `Text.Trim` | script.js:592 | the trimmed value is a contiguous slice of the input; only whitespace is cut, on both sides; the result starts and ends with non-whitespace; it is empty exactly when the input is all whitespace |
| `Text.TrimIdempotent` | script.js:592 | trimming a trimmed value changes nothing |
| `Text.LexLeTotal` | script.js:383 | any two titles are comparable under the title order |
| `Text.LexLeTransitive` | script.js:383 | the title order is transitive |
| `Text.LexLeAntisymmetric` | script.js:383 | two titles that each sort no later than the other are equal |
| `Catalog.SetFilter` | script.js:327 | a button click sets its own dimension to its value; the other two dimensions keep their selections |
| `Catalog.UsesTechnologyIff` | script.js:349-354 | the technology check holds exactly when some entry of the technology list, lower-cased, equals the selected value |
| `Catalog.Matches` | script.js:340-357 | the three early returns amount to a conjunction: a project matches exactly when it passes category, complexity and technology together, each dimension passing on `"all"` |
| `Catalog.FilterProjects` | script.js:340-357 | the filtered list is a subsequence of the catalog (order kept); every kept project matches; each matching project appears exactly as often as in the catalog, and no other project appears |
| `Catalog.FilterMembership` | script.js:340-357 | a project is in the result exactly when it is in the catalog and matches |
| `Catalog.FilterNoFiltersIsIdentity` | script.js:341-356 | with all three selections on `"all"` the whole catalog comes back unchanged and in order |
| `Catalog.FilterIdempotent` | script.js:340-357 | filtering the filtered list again with the same selection returns it unchanged |
| `Catalog.FilterEmptyIff` | script.js:340-357 | the filtered list is empty exactly when no catalog project matches |
| `Sorting.ParseSortKey` | script.js:381-390 | exactly the values `name`, `date` and `complexity` select a sort, each its own key; every other value takes the default branch |
| `Sorting.Rank` | script.js:387 | a level's rank is its 1-based place in the list beginner, intermediate, advanced |
| `Sorting.DateLe` | script.js:385 | on calendar dates, one date is on or before another exactly when its day stamp is no larger, so the field-by-field comparison orders dates as their time values do |
| `Sorting.Compare` | script.js:383-388 | the numeric comparator each key passes to `sort`: a sign from the title order for `name`, the later-minus-earlier day stamp for `date`, the rank difference for `complexity`, and 0 for the default |
| `Sorting.Before` | script.js:383-388 | `a` may precede `b` exactly when the key's comparator, as a number, is not positive: title order for `name`, later-minus-earlier stamp for `date` (on calendar dates), rank difference for `complexity` |
| `Sorting.BeforeTotal` | script.js:380-391 | every comparator used by a sort key is total |
| `Sorting.BeforeTransitive` | script.js:380-391 | every comparator used by a sort key is transitive |
| `Sorting.TiedIff` | script.js:383-388 | the comparator returns zero exactly on equal titles, equal dates or equal complexity levels, per key |
| `Sorting.Insert` | script.js:383-388 | inserting a project adds exactly that project to the sequence's contents |
| `Sorting.InsertSorted` | script.js:383-388 | insertion into a sorted sequence keeps it sorted |
| `Sorting.InsertPeers` | script.js:383-388 | insertion puts the new project after every project it ties with, so the order within ties is kept |
| `Sorting.InsertionSort` | script.js:383-388 | the sorted copy is a permutation of the input, ordered by the key, and stable |
| `Sorting.SortedStableUnique` | script.js:383-388 | two sorted sequences that agree on the order inside every tie group are equal |
| `Sorting.StableSortIsUnique` | script.js:383-388 | any sorted, stable arrangement of the input equals the model's sort, whatever stable algorithm the engine uses |
| `Sorting.SortProjects` | script.js:380-391 | returns a permutation of its input; under the default branch the input itself; `name` gives titles ascending, `date` dates newest first, `complexity` ranks ascending; tied projects keep their input order |
| `Sorting.DefaultKeepsOrder` | script.js:389-390 | every key other than `name`, `date` and `complexity` returns the input unchanged |
| `Sorting.SortTwice` | script.js:380-391 | sorting a second time with the same key returns the same sequence |
| `Sorting.ComplexitySortBeginnersFirst` | script.js:386-388 | after a complexity sort no advanced project precedes a beginner project |
| `FilterOptions.AddOption` | script.js:262-264 | `Set.prototype.add`: a value already present leaves the set unchanged; a new value goes at the end |
| `FilterOptions.AddAll` | script.js:261-265 | adding values to an insertion-ordered set keeps the existing entries as a prefix and keeps them distinct; the result holds exactly the old entries and the added values; the new entries form a subsequence of the added values |
| `FilterOptions.AddAllIsFresh` | script.js:261-265 | the filled set is the old entries followed by each added value that is neither an old entry nor added earlier, in the order the values come: the `Set`'s insertion order |
| `FilterOptions.AddAllConcat` | script.js:261-265 | filling the set project by project gives the same set as filling it from all values at once |
| `FilterOptions.OptionSet` | script.js:257-265 | a dimension's option set starts with `"all"`, has no repeats, and holds exactly `"all"` and the values some project carries |
| `FilterOptions.OptionSetOrder` | script.js:257-265 | the option set is `"all"` followed by each catalog value at its first occurrence |
| `FilterOptions.DimensionValues` | script.js:261-265 | a value is collected for a dimension exactly when some project carries it (technologies lower-cased) |
| `FilterOptions.FilterButtons` | script.js:257-300 | each button row is a prefix of the option set, the whole set for category and complexity and its first eight entries for technology when it has more; so it starts with `"all"` and has no repeats; every other entry is the category, complexity or lower-cased technology of some project, and these entries form a subsequence of the values in catalog order; a catalog value lacks a button only in a technology row that is already full |
| `FilterOptions.PassesIffAttribute` | script.js:341-354 | for a selection other than `"all"`, a project passes a dimension exactly when the selected value is among the values that project adds to that dimension's options |
| `FilterOptions.SelectingValueShowsProjects` | script.js:327 | selecting a value on one dimension from the start state shows some project exactly when some catalog project carries that value |
| `FilterOptions.ButtonSelectsSomething` | script.js:300-306 | every button other than `"all"`, clicked from the start state, shows at least one project |
| `FilterOptions.ShowingValueHasButton` | script.js:272-292 | every category or complexity value that selects some project has a button |
| `Validation.IsEmail` | script.js:605-606 | the email test accepts exactly the strings matched by `^[^\s@]+@[^\s@]+\.[^\s@]+$`: no whitespace, a single `@` with a non-empty local part, and a `.` in the domain that is neither first nor last |
| `Validation.ValidateField` | script.js:591-628 | the field is invalid exactly when it is required and blank, or is an email field that is non-blank and does not match the pattern, or is the `message` field with fewer than ten characters after trimming; the message is that of the last failing check, and empty when valid |
| `Validation.ValidateIgnoresSurroundingWhitespace` | script.js:592 | leading and trailing whitespace never changes the verdict |
| `Validation.ShortMessageReportsLength` | script.js:613-616 | a `message` field that is too short reports the length error, whatever else fails |
| `Pipeline.RenderProjects` | script.js:335-378 | the placeholder appears exactly when no project matches; otherwise the grid is non-empty and shows each matching project as often as the catalog has it; the order follows the sort key, with ties in catalog order; under the default key the catalog order is kept |
| `Pipeline.StartStateShowsCatalog` | script.js:68-73 | with the initial selections and the default sort, a non-empty catalog is shown whole and in order |
| `SeedCatalog.AcademicShowsFirstThree` | script.js:10-67 | with the shipped catalog, category `academic` shows projects 1, 2, 3 in that order |
| `SeedCatalog.PythonShowsDataScience` | script.js:10-67 | with the shipped catalog, technology `python` shows project 2 only |
| `SeedCatalog.WebAdvancedShowsPlaceholder` | script.js:10-67 | with the shipped catalog, category `web` with complexity `advanced` shows the placeholder |
| `SeedCatalog.SeedTechnologyRow` | script.js:256-300 | with the shipped catalog the technology row is `all`, `problem-solving`, `algorithm design`, `java`, `python`, `data cleaning`, `statistical analysis`, `requirement gathering` |
| `SeedCatalog.DateSortNewestFirst` | script.js:10-67 | with the shipped catalog, the date sort gives projects 4, 3, 2, 1 |
| `SeedCatalog.ComplexitySortKeepsTiesInOrder` | script.js:10-67 | with the shipped catalog, the complexity sort gives 2, 1, 4, 3; the two intermediate projects keep their catalog order |

## Left out

- DOM construction and rendering are not modelled. This covers project
  cards, filter buttons and their `active` classes, the placeholder
  markup, and error spans. They are presentation only. The placeholder is
  modelled as the `NoProjectsMatch` view.
- `trackProjectView` and the visited-projects counter are left out. They
  are a set insert tied to a display refresh.
- Theme and visit count in `localStorage`, the GitHub `fetch`, observers,
  lazy loading, scroll handlers, timers, navigation and the time-of-day
  greeting are left out. They are browser I/O and timing.
- The contact form's submit handler is left out. This covers combining
  the field verdicts, `showFormMessage` and the simulated submission. Only
  `validateField` is modelled.
- Dates are not parsed. `new Date("YYYY-MM-DD")` is replaced by a
  `(year, month, day)` triple compared field by field. Invalid dates, whose
  comparator would yield `NaN`, are not modelled.
- `Sorting.Before`: links the date order to the comparator only on calendar
  dates (month 1 to 12, day 1 to 31). The comparator is a day stamp
  difference. It has the sign of the time-value difference, not its size;
  `sort` reads only the sign.
- Complexity is a three-constructor datatype because the catalog is
  trusted. Projects with an unknown complexity, which would get an
  undefined rank, are not modelled.
- `Text.Lower`: lower-cases the ASCII letters only. Full Unicode case
  mapping is out of scope, and the shipped catalog is ASCII.
- `Text.LexLeTotal`: orders titles by code point, standing in for
  `localeCompare`. Locale collation is out of scope. The order on the
  shipped titles is the same under both.
- `Validation.ValidateField`: counts the message length in code points.
  JavaScript counts UTF-16 code units, which differs for characters outside
  the Basic Multilingual Plane.
- The field's `type`, `name` and `required` attributes are plain
  parameters. How the browser derives them from the element is not part of
  this model.
- The shipped projects in `SeedCatalog` carry empty descriptions. The text
  is display only and takes no part in filtering or sorting.
