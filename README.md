# Verified model of the jobly query builders, the car-OO classes and the fruit search

This project models four small pieces of logic from a repository of learning exercises:

- **`sqlForPartialUpdate`** (express-jobly). It takes a payload of field/value pairs and a field-to-column table. It returns the text of an SQL `SET` clause, `"col1"=$1, "col2"=$2, …`, together with the list of values bound to those placeholders. An empty payload is refused with `BadRequestError("No data")`.
- **The filter block of `Job.findAll`** (express-jobly). A negative `minSalary` is refused. The filters salary, equity and title are then tried in that order. Each accepted filter adds one predicate and at most one bound value. A placeholder is numbered by the length of the values list right after its push. `WHERE` appears only when some predicate was added, and the query always ends with ` ORDER BY title`. The id-placeholder arithmetic of `Job.update` is modelled too.
- **The car-OO classes.** `Vehicle` checks its constructor arguments. `honk` and `toString` return fixed or formatted text. `Car` and `Motorcycle` fix the number of wheels, and a motorcycle can `revEngine`. `Garage.add` parks vehicles up to the garage's capacity and answers with one of three messages.
- **The fruit search.** `search(str)` walks the fixed fruit set. It adds every fruit that contains `str`, ignoring case, to the suggestion set, and deletes every other fruit from it. The key handler does not search when the input is empty.

Modules:

| file | module | models |
|---|---|---|
| `wrappers.dfy` | `Wrappers` | `Option` (an absent filter) and `Result` (a thrown error) |
| `text.dfy` | `Text` | `${n}` number rendering and parsing, `join`, ASCII `toLowerCase`, `includes` |
| `sql.dfy` | `SqlHelpers` | `sqlForPartialUpdate` and reading back the `$n` placeholders |
| `jobs.dfy` | `Jobs` | `Job.findAll` up to its database call, and `Job.update`'s parameters |
| `vehicles.dfy` | `Vehicles` | `Vehicle`, `Car`, `Motorcycle`, `Garage` |
| `fruit_search.dfy` | `FruitSearch` | `search`, the empty-input guard of `searchHandler`, the Enter-key test |

Where the code and its English description differ, the model follows the code:

- Column lookup is `jsToSql[key] || key`. So a key mapped to `""` also falls back to the key itself, not only an unmapped key.
- The negative-salary error message is `"Min salary cannot be less than zero"`.
- The `@example` in `sql.js`'s doc comment shows `setCols` as an array in single quotes. The code returns one string joined with `", "`, with the column names in double quotes.

## Model

| member | source | states |
|---|---|---|
| `Text.NatToString` | express-jobly/helpers/sql.js:26 | a placeholder number is written as a non-empty run of decimal digits, one digit exactly for numbers below 10 |
| `Text.ParseNatToString` | express-jobly/helpers/sql.js:26 | reading the digits back gives the number that was rendered |
| `Text.NatToStringInjective` | express-jobly/helpers/sql.js:26 | different numbers give different digit strings, so different placeholders |
| `Text.IntToString` | car-OO/script.js:12 | `${year}` is non-empty and starts with a minus sign exactly for a negative year |
| `Text.IntToStringInjective` | car-OO/script.js:12 | different years render differently |
| `Text.Join` | express-jobly/helpers/sql.js:30 | joining no parts gives the empty string, and joining one part gives that part with no separator |
| `Text.JoinSnoc` | express-jobly/helpers/sql.js:30 | joining one more part adds one separator and that part at the end |
| `Text.LowerChar` | fruit-search/script.js:9 | the lowered character is never an upper-case ASCII letter; it is the character itself or that letter's lower-case form |
| `Text.Lower` | fruit-search/script.js:9 | lowering keeps the length and lowers each character on its own |
| `Text.IncludesLower` | fruit-search/script.js:9 | a case-sensitive occurrence is still an occurrence after both strings are lowered |
| `Text.Includes` | fruit-search/script.js:9 | the empty text is contained in every string and every string contains itself; a contained text is never longer than the string |
| `Text.DigitSuffixOf` | express-jobly/helpers/sql.js:26 | after a non-digit such as `$`, the trailing digit run is exactly the rendered number |
| `SqlHelpers.Keys` | express-jobly/helpers/sql.js:21 | `Object.keys` gives one key per pair, in payload order |
| `SqlHelpers.Values` | express-jobly/helpers/sql.js:31 | `Object.values` gives one value per pair, in payload order |
| `SqlHelpers.Column` | express-jobly/helpers/sql.js:26 | the column is the key itself or the key's own entry in the table, never a second hop; a non-empty entry always wins; the column is empty only for an empty key |
| `SqlHelpers.Placeholder` | express-jobly/helpers/sql.js:26 | `$n` is a dollar sign followed by digits only |
| `SqlHelpers.PlaceholderRoundTrip` | express-jobly/helpers/sql.js:26 | whatever text comes before it, text ending in `$n` reads back as ending in placeholder `n` |
| `SqlHelpers.Assignment` | express-jobly/helpers/sql.js:26 | the fragment starts with the column in double quotes followed by `=`, and reads back as placeholder n |
| `SqlHelpers.Assignments` | express-jobly/helpers/sql.js:25-27 | one fragment per key, and fragment i reads back as placeholder i+1 |
| `SqlHelpers.SqlForPartialUpdate` | express-jobly/helpers/sql.js:20-33 | the call fails exactly when the payload is empty, with "No data"; on success there is one value per key, and the i-th value is the i-th pair's value |
| `SqlHelpers.AssignmentsNumbered` | express-jobly/helpers/sql.js:25-27 | the assignment at position i is `"col"=$(i+1)`, where col is that key's column; it reads back as placeholder i+1, which is bound to the i-th value |
| `SqlHelpers.PlaceholdersDistinct` | express-jobly/helpers/sql.js:25-27 | assignments at different positions carry different placeholder numbers |
| `SqlHelpers.SetColsIgnoresValues` | express-jobly/helpers/sql.js:25-31 | two payloads with the same keys give the same SET text, so values never reach the SQL text |
| `SqlHelpers.SingleKey` | express-jobly/helpers/sql.js:30 | a one-key payload gives exactly `"col"=$1`, with no separator, and the one value |
| `SqlHelpers.OneLevelLookup` | express-jobly/helpers/sql.test.js:6-14 | `{key: "val"}` with `{key: "key1", key1: "key2"}` gives `"key1"=$1` and `["val"]` |
| `SqlHelpers.SetColsExtend` | express-jobly/helpers/sql.js:25-30 | one more key appends `, "col"=$(n+1)` to the SET text of the first n keys |
| `Jobs.Accepted` | express-jobly/models/job.js:62-72 | at most three filters are accepted, and none exactly when a salary is absent or 0, `hasEquity` is false, and a title is absent or empty |
| `Jobs.AcceptSalary` | express-jobly/models/job.js:62-65 | the salary test keeps the filters so far and adds at most one |
| `Jobs.AcceptEquity` | express-jobly/models/job.js:66-68 | the equity test keeps the filters so far and adds at most one |
| `Jobs.AcceptTitle` | express-jobly/models/job.js:69-72 | the title test keeps the filters so far and adds at most one |
| `Jobs.AcceptedInOrder` | express-jobly/models/job.js:62-72 | accepted filters come in the order salary, equity, title |
| `Jobs.AcceptedSalary` | express-jobly/models/job.js:62-65 | a minimum salary is accepted exactly when it is given and non-zero |
| `Jobs.AcceptedEquity` | express-jobly/models/job.js:66-68 | the equity filter is accepted exactly when `hasEquity` is true |
| `Jobs.AcceptedTitle` | express-jobly/models/job.js:69-72 | a title is accepted exactly when it is given and non-empty |
| `Jobs.RanksOfAccepted` | express-jobly/models/job.js:62-72 | the kinds of the accepted filters, in order, are those whose truthiness test passes |
| `Jobs.Pushed` | express-jobly/models/job.js:62-72 | each filter pushes at most one value; only the equity filter pushes none |
| `Jobs.Bindings` | express-jobly/models/job.js:62-72 | the filters push no more values than there are filters |
| `Jobs.PredicateText` | express-jobly/models/job.js:62-72 | the salary and title predicates end in the placeholder they are given; the equity predicate has no placeholder |
| `Jobs.Predicates` | express-jobly/models/job.js:62-72 | one predicate per accepted filter |
| `Jobs.WhereClause` | express-jobly/models/job.js:75-77 | the WHERE part is empty exactly when there are no predicates |
| `Jobs.ListingQuery` | express-jobly/models/job.js:52-78 | the query fails exactly when minSalary is negative, whatever the other filters, with the source's message; on success the values are those the accepted filters push |
| `Jobs.ApplyFilter` | express-jobly/models/job.js:62-72 | one filter's two pushes extend the values and the predicates by exactly that filter |
| `Jobs.FindAll` | express-jobly/models/job.js:42-79 | the imperative push-by-push construction produces exactly `ListingQuery` |
| `Jobs.PredicateAt` | express-jobly/models/job.js:60-72 | predicate i is numbered by the length of the values once filter i has pushed |
| `Jobs.BindingsPrefix` | express-jobly/models/job.js:62-72 | values pushed by the first k filters stay, unchanged, at the front of the final list |
| `Jobs.SlotBindsValue` | express-jobly/models/job.js:62-72 | a filter with a value gets the placeholder one past the values before it; that placeholder reads back from its predicate and is bound to exactly its value |
| `Jobs.EquityTextUnnumbered` | express-jobly/models/job.js:67 | `equity > 0` ends in a digit, but not in a placeholder |
| `Jobs.EquityUnnumbered` | express-jobly/models/job.js:66-68 | the equity predicate is `equity > 0`, has no placeholder and does not shift the numbering of later filters |
| `Jobs.SlotsCover` | express-jobly/models/job.js:60-72 | every number from 1 to the number of values is the placeholder of some predicate, so there are no gaps |
| `Jobs.PredicatesIgnoreValues` | express-jobly/models/job.js:62-72 | filters of the same kinds in the same order give the same predicates and the same number of values |
| `Jobs.QueryTextIgnoresValues` | express-jobly/models/job.js:62-79 | two filter objects whose truthiness tests pass for the same kinds give the same query text, whatever the salary figure or the title text |
| `Jobs.QueryShape` | express-jobly/models/job.js:43-78 | every accepted query starts with the SELECT and ends with ` ORDER BY title` |
| `Jobs.NoFilters` | express-jobly/models/job.js:75-78 | with no accepted filter there is no WHERE and no value |
| `Jobs.ZeroSalaryIsAbsent` | express-jobly/models/job.js:62 | a minimum salary of 0 gives the same query as no minimum |
| `Jobs.WhereTwo` | express-jobly/models/job.js:75-77 | two predicates give ` WHERE a AND b` |
| `Jobs.TwoApplied` | express-jobly/models/job.js:62-72 | two filters applied in turn push their values in order and number the second predicate after both pushes |
| `Jobs.SalaryAndEquityExample` | express-jobly/models/job.js:62-76 | for any positive n, `{minSalary: n, hasEquity: true}` gives ` WHERE salary >= $1 AND equity > 0` and `[n]` |
| `Jobs.EquityAndTitleExample` | express-jobly/models/job.js:66-76 | for any non-empty t, `{hasEquity: true, title: t}` gives ` WHERE equity > 0 AND title ILIKE $1` and `["%t%"]`: the absent salary leaves no gap in the numbering |
| `Jobs.UpdateQuery` | express-jobly/models/job.js:140-154 | the update fails exactly when data is empty, with "No data"; otherwise the parameters are data's values followed by the id |
| `Jobs.UpdateBindsId` | express-jobly/models/job.js:141-154 | with a non-empty payload the update succeeds; the id placeholder is `$(n+1)` for n fields and reads back as n+1; parameter n+1 is the id |
| `Jobs.UpdateColumnsAreKeys` | express-jobly/models/job.js:141-143 | with the empty column table, assignment i names key i itself and uses placeholder i+1, below the id's |
| `Vehicles.Wheels` | car-OO/script.js:16-27 | a car has 4 wheels, a motorcycle 2, and a plain vehicle no wheel count |
| `Vehicles.CheckArgs` | car-OO/script.js:3 | the arguments are accepted exactly when make and model are strings and year is a finite number, and then passed through unchanged; otherwise "Invalid Input!" |
| `Vehicles.Vehicle.constructor` | car-OO/script.js:2-27 | the fields equal the arguments; a car has 4 wheels, a motorcycle 2, and a plain vehicle no wheel count |
| `Vehicles.Vehicle.Honk` | car-OO/script.js:8-10 | every vehicle honks "Beep." |
| `Vehicles.Vehicle.ToString` | car-OO/script.js:11-13 | the description is "This vehivle is a ", then the make, then " " + model + " from " + year |
| `Vehicles.Vehicle.RevEngine` | car-OO/script.js:28-30 | a motorcycle revs "VROOM!!!" |
| `Vehicles.NewVehicle` | car-OO/script.js:2-27 | construction fails with "Invalid Input!" exactly when the check fails; otherwise a fresh object with the checked fields and the kind's wheel count |
| `Vehicles.ToStringTellsYears` | car-OO/script.js:11-13 | two vehicles of the same make and model have the same description only if they have the same year |
| `Vehicles.Admit` | car-OO/script.js:38-48 | "Vehicle Added!" exactly for a vehicle when there is room, and then it is appended; otherwise the parked list is unchanged, with "Only vehicles are allowed in here!" for a non-vehicle and "Sorry, we're full." for a vehicle without room; the capacity bound is kept |
| `Vehicles.Garage.constructor` | car-OO/script.js:34-37 | a new garage has the given capacity and no vehicles; with a non-negative capacity the bound holds |
| `Vehicles.Garage.Add` | car-OO/script.js:38-48 | a non-vehicle gets "Only vehicles are allowed in here!" and changes nothing; with room, a vehicle is appended and gets "Vehicle Added!"; otherwise "Sorry, we're full." and nothing changes; the bound on the number of vehicles is kept |
| `Vehicles.AddAllParksFirstArrivals` | car-OO/script.js:38-48 | a series of adds parks the earliest vehicles, as many as fit, in arrival order, after the ones already parked |
| `FruitSearch.Guard` | fruit-search/script.js:9 | the empty text matches every fruit, and every fruit matches its own name |
| `FruitSearch.GuardIsMatch` | fruit-search/script.js:9-11 | the search guard holds exactly when the lowered fruit contains the lowered text, and the else-if guard is its exact negation |
| `FruitSearch.Suggestions` | fruit-search/script.js:7-17 | the suggestions are the fruits that match, and only fruits |
| `FruitSearch.AfterSearch` | fruit-search/script.js:7-17 | the fruits left in the set after a search are exactly the matches; values that are not fruits are left alone |
| `FruitSearch.Autocomplete.constructor` | fruit-search/script.js:3-5 | the fruit set is the fruit list and the suggestion set starts empty |
| `FruitSearch.Autocomplete.Search` | fruit-search/script.js:7-17 | afterwards every fruit is in the suggestions exactly when it matches, and anything else in the set is left alone; when suggestions were drawn from the fruit set, they stay so and are exactly the matches |
| `FruitSearch.Autocomplete.SearchHandler` | fruit-search/script.js:26-34 | an empty input leaves the suggestions untouched; other input runs the search; a valid state stays valid |
| `FruitSearch.Autocomplete.OpensSearch` | fruit-search/script.js:52-54 | Enter opens a search only for a value in the suggestions, so only for a fruit name |
| `FruitSearch.SearchIgnoresPrior` | fruit-search/script.js:7-17 | once the suggestions are a subset of the fruits, the result does not depend on them |
| `FruitSearch.SearchIdempotent` | fruit-search/script.js:7-17 | searching twice for the same text gives the same result as searching once |
| `FruitSearch.SearchOverrides` | fruit-search/script.js:7-17 | `search(a)` followed by `search(b)` gives the same result as `search(b)` |

## Left out

- Every database call and its results: `Job.create`, `Job.get`, `Job.remove`, the rows that `findAll` and `update` return, the NotFoundError on a missing row, and what `ILIKE` and `ORDER BY` mean. The model stops at the query text and values handed to `db.query`.
- The HTTP routes, request validation and the JWT middleware. They are not part of this model, and neither are the warbler tests.
- `Object.keys` order. JavaScript lists integer-like keys first, in ascending order. The payload here is taken in the order given.
- Inherited properties in `jsToSql[key]`. A key such as `constructor` would find a property of `Object.prototype`. The table is a plain map from strings to strings.
- JavaScript numbers. Years, salaries and payload numbers are integers. `NaN`, infinities and fractions are not modelled. `Number.isFinite` becomes the difference between `JsNumber` and `NonFinite`. `${year}` writes a year of magnitude 10^21 or more in exponent notation, while `IntToString` always writes every digit. Query-string coercion is also left out: `minSalary` given as a string, or `hasEquity` given as the truthy string `"false"`.
- `Vehicle` inheritance. Dafny has no class inheritance here, so `Car` and `Motorcycle` are a `Kind` tag on one `Vehicle` class. Calling `revEngine` on a non-motorcycle is a TypeError in JavaScript and a precondition here.
- The throwing constructor. A Dafny constructor cannot fail, so `NewVehicle` returns the error, and the constructor itself takes already-checked arguments.
- `Garage.add` duck typing. Any object with a truthy `honk` counts as a vehicle in JavaScript. The model tells only vehicles from everything else: `NotAVehicle` stands for a value that is neither `null` nor `undefined` and has no truthy `honk`. `add()` and `add(null)` throw a TypeError when they read `honk`, and that throw is not modelled. A capacity that is not a number is also left out.
- Unicode case mapping. `toLowerCase` is modelled for ASCII letters only, and every other character, the emoji in `Avocado 🥑` included, maps to itself.
- The order in which `search` visits `fruitSet`. The model visits fruits in an arbitrary order. The final suggestion set does not depend on the order, and the postcondition says which set it is.
- The page side of the fruit search: `delList`, `presentSugg`, `useSuggestion`, the event listeners and the `window.open` on Enter. Only the test that decides whether Enter opens a page is kept.
- `SqlHelpers.SqlForPartialUpdate`: its own postcondition does not spell out `setCols`. The SET text itself is pinned down by `SingleKey` and `SetColsExtend`. `AssignmentsNumbered` describes the assignment fragments that are joined into it.
