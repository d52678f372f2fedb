# Asset-inventory panel: store, filters and dashboard in Dafny

This project models the logic core of a single-page asset-inventory panel
(`Patrimonio_Ai_Studio`). It has three parts.

- **The mock data-access layer** is an in-memory store of users, physical
  locations and assets, held in three mutable arrays. It has list, lookup,
  create, update and delete operations. Asset codes are zero-padded to
  8 characters. New surrogate keys are `max(0, keys) + 1`. Deleting a
  location is refused while an asset still uses it. Login uses one fixed
  mock password.
- **The assets page** has a conjunctive table filter (location, status,
  inventoried flag, free-text search) and a list of the locations the edit
  form offers. It also has the form's required-field check and the lookup
  of the asset named in the route.
- **The dashboard** shows headline counters and one chart bar per location.

The modules follow the source files:

| file | module | source |
|---|---|---|
| `types.dfy` | `Types` | `types.ts` |
| `api.dfy` | `Api` (the class `Store` and pure helpers) | `services/api.ts` |
| `assets_page.dfy` | `AssetsPage` | `components/pages/AssetsPage.tsx` |
| `dashboard_page.dfy` | `DashboardPage` | `components/pages/DashboardPage.tsx` |
| `array_ops.dfy` | `ArrayOps` | the JavaScript array built-ins these files call |
| `text.dfy` | `Text` | the JavaScript string built-ins these files call |
| `wrappers.dfy` | `Wrappers` | `undefined` and thrown errors, as `Option` / `Result` |

The store takes the source's imperative form. `Api.Store` has one `seq`
field per module-level array. `push` becomes an append, and the index
assignment becomes a sequence update. The reassignment to a filtered copy
becomes an assignment of `Filter(..)`. Each method's contract states the
whole new state, says what stays unchanged, and says when an error leaves
the store untouched. Every method also keeps the `Valid()` invariant: keys
are unique in each collection and every stored asset code is padded. The
page computations are pure functions with lemmas. The one loop in them,
the `forEach` that builds the chart data, is the method
`DashboardPage.ChartData`, and it is proved against the function
`ChartBars`.

Three behaviours of the code are worth stating plainly:
- **Padding does not truncate.** `padStart` leaves a code of 8 or more
  characters unchanged, so a stored code has length `max(8, |code|)`.
- **Location delete removes by filter.** A successful delete keeps every
  location whose code differs, so it would remove all records with that
  code. When keys are unique, as `Valid()` requires, this removes at most
  one record (`Api.RemoveUniqueLocation`).
- **Updates replace the first match.** An update replaces the first
  record with the given key. When keys are unique that record is the only
  one with the key (`Api.FirstMatchIsOnly`).

## Model

| member | source | states |
|---|---|---|
| `Types.StatusName` | types.ts:12-16 | each status carries a non-empty string value |
| `Types.StatusClosed` | types.ts:12-16 | every status is one of Ativo, Inativo and Baixado, and there is no fourth |
| `Types.StatusNameInjective` | types.ts:12-16 | two statuses have the same string iff they are the same status |
| `Text.PadAssetCode` | services/api.ts:29 | the padded code has length max(8, \|code\|), ends with the original code and has only `'0'` before it |
| `Text.PadIdempotent` | services/api.ts:29 | padding an already padded code changes nothing |
| `Text.PadFixedPoint` | services/api.ts:29 | padding leaves a code unchanged exactly when it has at least 8 characters |
| `Text.PadIgnoresLeadingZero` | services/api.ts:48-51 | a short code with or without an extra leading zero pads to the same stored code |
| `Text.PadExample` | services/api.ts:29 | "789" pads to "00000789" and "55" to "00000055"; an 8-character code is left alone |
| `Text.Lower` | components/pages/AssetsPage.tsx:184 | lower-casing keeps the length and maps each character on its own |
| `Text.LowerIdempotent` | components/pages/AssetsPage.tsx:184 | lower-casing twice is lower-casing once, and the result has no upper-case letter |
| `Text.Contains` | components/pages/AssetsPage.tsx:184-185 | the empty term is found in every string, and a found term is no longer than the string |
| `Text.ContainsIff` | components/pages/AssetsPage.tsx:184-185 | `includes` holds iff the term occurs at some position of the string |
| `Text.SearchExample` | components/pages/AssetsPage.tsx:184 | "note" and "NOTE" are both found in "Notebook Dell" once both sides are lower-cased |
| `Text.ParseInt` | components/pages/AssetsPage.tsx:180 | a string that parses to a number is not empty |
| `Text.IntToString` | components/pages/DashboardPage.tsx:61 | the printed number is never empty |
| `Text.ParseIntToString` | components/pages/AssetsPage.tsx:208-211 | a location code printed as a select option parses back to the same code |
| `ArrayOps.FindIndex` | services/api.ts:67 | `findIndex` gives the first position that satisfies the test, or none iff no position does |
| `ArrayOps.Find` | services/api.ts:35 | `find` gives an element that satisfies the test with none before it, or none iff no element does |
| `ArrayOps.Map` | components/pages/DashboardPage.tsx:53 | `map` gives one result per element, in the same position |
| `ArrayOps.Count` | components/pages/DashboardPage.tsx:43 | `filter(..).length` is never more than the length of the list |
| `ArrayOps.Filter` | services/api.ts:75 | `filter` keeps exactly the elements that pass, and no more of them than the input |
| `ArrayOps.FilterSnoc` | components/pages/DashboardPage.tsx:43-47 | filtering a list with one more element at the end gives the old result plus that element exactly when it passes |
| `ArrayOps.FilterIsSubsequence` | components/pages/AssetsPage.tsx:179-186 | a filtered list is an order-preserving subsequence of its input |
| `ArrayOps.FilterKeepsAll` | services/api.ts:75 | a filter every element passes returns the list unchanged |
| `ArrayOps.FilterFuse` | components/pages/AssetsPage.tsx:179-186 | two chained filters equal one filter by the conjunction of their tests |
| `ArrayOps.FilterCommute` | components/pages/AssetsPage.tsx:179-186 | chained filters may be applied in either order |
| `ArrayOps.CountComplement` | components/pages/DashboardPage.tsx:43-44 | the counts of a test and of its negation add up to the length |
| `ArrayOps.FilterKeepsKeysUnique` | services/api.ts:75 | filtering a collection with unique keys leaves the keys unique |
| `ArrayOps.MaxOrZero` | services/api.ts:58 | `Math.max(0, ...keys)` is at least 0 and at least every key, and it is 0 or one of the keys |
| `ArrayOps.MaxOrZeroAppend` | services/api.ts:58 | appending a key changes the maximum only when the new key exceeds it |
| `ArrayOps.Distinct` | components/pages/DashboardPage.tsx:53 | `Array.from(new Set(..))` has no duplicates and the same members as its input |
| `ArrayOps.DistinctOfPrefix` | components/pages/DashboardPage.tsx:53 | the distinct values of any prefix come first, in the same order (first-occurrence order) |
| `Api.NextKey` | services/api.ts:58 | a new key is at least 1 and greater than every existing key; it is 1 or one more than an existing key |
| `Api.NextKeyAfterCreate` | services/api.ts:84-92 | two creations in a row get consecutive keys |
| `Api.Normalized` | services/api.ts:59-69 | the stored code is the padded input code, so it has at least 8 characters; no other field changes |
| `Api.Authenticate` | services/api.ts:33-40 | login succeeds iff some user with that login is active and the password is the mock one; it returns the first such user; every failure is the same error |
| `Api.SeedLoginExamples` | services/api.ts:6-10 | with the seeded users, admin logs in, while a wrong password and an inactive account fail with the same error |
| `Api.AssetByCode` | services/api.ts:48-51 | the lookup returns the first asset whose stored code equals the padded input, or nothing iff no stored code does |
| `Api.ShortCodeLookup` | services/api.ts:48-51 | looking up "789" finds an asset stored as "00000789" |
| `Api.RemoveLocation` | services/api.ts:107 | the locations left are exactly those with another code, in their original order |
| `Api.RemoveAsset` | services/api.ts:73-76 | the assets left are exactly those with another key, in order; deleting an absent key changes nothing |
| `Api.AbsentKeyKeepsAll` | services/api.ts:73-76 | filtering out a key no asset has leaves the whole list |
| `Api.RemoveUniqueLocation` | services/api.ts:102-108 | with unique location codes, a delete removes at most one location, and exactly one when the code is present |
| `Api.FirstMatchIsOnly` | services/api.ts:65-71 | with unique asset keys, the first asset with the key is the only one, so after an update exactly one asset has that key |
| `Api.DeleteLocationKeepsReferences` | services/api.ts:102-108 | if every asset's location exists, it still exists after a delete that passed the in-use check |
| `Api.CreateMayDangle` | types.ts:25 | nothing checks the location foreign key, so creating an asset at an unknown location leaves a dangling reference |
| `Api.Store.Valid` | services/api.ts:6-25 | the store invariant: no two assets, locations or users share a key, and every stored asset code has at least 8 characters |
| `Api.Store.constructor` | services/api.ts:6-25 | the store starts with the seeded users, locations and assets, and the invariant holds |
| `Api.Store.Login` | services/api.ts:33-40 | the login result is the one `Authenticate` states, and the store is untouched |
| `Api.Store.GetAssets` | services/api.ts:43-46 | returns the current assets as a value copy |
| `Api.Store.GetAssetByCode` | services/api.ts:48-51 | returns the padded-code lookup over the current assets |
| `Api.Store.AddAsset` | services/api.ts:54-63 | appends one asset with a key above all existing keys and a padded code; earlier assets and the other collections are unchanged; key uniqueness is kept |
| `Api.Store.UpdateAsset` | services/api.ts:65-71 | an absent key gives "not found" and no change; otherwise only the first asset with that key is replaced, by the update with its code padded |
| `Api.Store.DeleteAsset` | services/api.ts:73-76 | always succeeds; afterwards no asset has that key, the rest keep their order, and an absent key changes nothing |
| `Api.Store.GetLocations` | services/api.ts:79-82 | returns the current locations as a value copy |
| `Api.Store.AddLocation` | services/api.ts:84-92 | appends one location with a key above all existing keys; everything else is unchanged |
| `Api.Store.UpdateLocation` | services/api.ts:94-100 | an absent key gives "not found" and no change; otherwise the first location with that key is replaced wholesale |
| `Api.Store.DeleteLocation` | services/api.ts:102-108 | fails with no change to either collection iff some asset uses the code; otherwise removes exactly the locations with that code, in order |
| `Api.Store.GetUsers` | services/api.ts:111-114 | returns the current users as a value copy |
| `Api.Store.AddUser` | services/api.ts:116-125 | appends one user with an id above all existing ids, registered on the given date; everything else is unchanged |
| `Api.Store.UpdateUser` | services/api.ts:127-133 | an absent id gives "not found" and no change; otherwise the first user with that id is replaced wholesale |
| `AssetsPage.LocationMatches` | components/pages/AssetsPage.tsx:180 | the "all" option keeps every asset, and the option for the asset's own location keeps it |
| `AssetsPage.StatusMatches` | components/pages/AssetsPage.tsx:181 | the "all" option and the asset's own status keep it; any other kept filter value is the name of some status |
| `AssetsPage.InventoriedMatches` | components/pages/AssetsPage.tsx:182 | the "all" option keeps every asset; any other value that keeps an asset parses to 0 or 1 |
| `AssetsPage.SearchMatches` | components/pages/AssetsPage.tsx:183-186 | the empty term matches every asset; a term longer than both the description and the code matches none |
| `AssetsPage.Matches` | components/pages/AssetsPage.tsx:179-186 | the initial filter state keeps every asset; the "0" inventoried option keeps only assets flagged 0 |
| `AssetsPage.FilteredAssets` | components/pages/AssetsPage.tsx:178-187 | an asset is shown iff it is in the list and passes all four conditions |
| `AssetsPage.FilteredIsConjunction` | components/pages/AssetsPage.tsx:179-186 | the filter chain equals a single filter by the conjunction, so order does not matter, and the rows keep the list's order |
| `AssetsPage.NoFilterShowsAll` | components/pages/AssetsPage.tsx:103-104 | with every filter on "all" and an empty search, every asset is shown, in order |
| `AssetsPage.InventoriedFilterOptions` | components/pages/AssetsPage.tsx:182 | "" imposes no constraint, while "0" and "1" keep exactly the assets with that flag |
| `AssetsPage.LocationFilterOption` | components/pages/AssetsPage.tsx:180 | choosing a location's option keeps exactly the assets at that location |
| `AssetsPage.StatusFilterOption` | components/pages/AssetsPage.tsx:181 | choosing a status option keeps exactly the assets in that status |
| `AssetsPage.SearchSemantics` | components/pages/AssetsPage.tsx:183-186 | the empty term keeps everything; a term matches iff it occurs in the lower-cased description (lower-cased too) or in the raw code |
| `AssetsPage.StatusAndInventoriedExample` | components/pages/AssetsPage.tsx:179-186 | of three assets, status Ativo plus inventoried "1" keeps exactly the one asset with both |
| `AssetsPage.ActiveLocations` | components/pages/AssetsPage.tsx:46 | offers exactly the active locations plus the edited asset's location, in original order |
| `AssetsPage.HandleSubmit` | components/pages/AssetsPage.tsx:37-44 | the form is saved unchanged iff description, code, location (not 0) and acquisition date are all filled; otherwise nothing is saved |
| `AssetsPage.InitialForm` | components/pages/AssetsPage.tsx:14-25 | every field the opened asset has is kept; the missing ones take the defaults: today's date, status Ativo, not inventoried, empty code and description |
| `AssetsPage.FormOf` | components/pages/AssetsPage.tsx:245 | the form opened on a stored asset has its key, code, description, date, location, status and flag all present |
| `AssetsPage.EditFormShowsAsset` | components/pages/AssetsPage.tsx:14-25 | the form opened on a stored asset shows every field of that asset; only its absent optional texts show as empty |
| `AssetsPage.NewFormIsRejected` | components/pages/AssetsPage.tsx:14-25 | a new asset's form, with its default values, cannot be submitted |
| `AssetsPage.StoredAssetFormIsAccepted` | components/pages/AssetsPage.tsx:14-25 | the form opened on a stored asset with filled required fields can be submitted as it is |
| `AssetsPage.EditTarget` | components/pages/AssetsPage.tsx:115-124 | no route code opens nothing; a found asset is the first in the list under the padded route code; not found means no asset has that padded code |
| `DashboardPage.DashboardStats` | components/pages/DashboardPage.tsx:41-50 | no assets gives all counters 0; total is the asset count; the inventoried and not-inventoried counters lie between 0 and total and add up to total; no counter is negative |
| `DashboardPage.StatsSnoc` | components/pages/DashboardPage.tsx:41-50 | one more asset raises total by one, inventoried or not-inventoried by one according to its flag, and the counter of its own status (Ativo, Inativo or Baixado) by one, leaving the others unchanged |
| `DashboardPage.StatusCountsPartition` | components/pages/DashboardPage.tsx:45-47 | the three status counts add up to the number of assets |
| `DashboardPage.StatsIdentities` | components/pages/DashboardPage.tsx:41-50 | total is the asset count; inventoried is at most total; total minus inventoried is the count flagged 0 and is never negative; the status counters sum to total |
| `DashboardPage.LocationName` | components/pages/DashboardPage.tsx:61 | the label is never empty; it is the first matching location's description, or "Local <code>" when there is no match or the description is empty |
| `DashboardPage.Bar` | components/pages/DashboardPage.tsx:59-66 | a bar's label is never empty; its inventoried count is at most its total, which is at most the asset count; its total is positive iff some asset sits at that location |
| `DashboardPage.BarsFor` | components/pages/DashboardPage.tsx:59-67 | one bar per location code |
| `DashboardPage.BarsForAt` | components/pages/DashboardPage.tsx:59-67 | the bar at each position belongs to the code at that position, so the bars follow the order of the codes |
| `DashboardPage.BarsForSnoc` | components/pages/DashboardPage.tsx:59-67 | handling one more code appends exactly that code's bar |
| `DashboardPage.ChartLocations` | components/pages/DashboardPage.tsx:53 | the chart's location codes have no duplicates, and they are exactly the locations some asset uses |
| `DashboardPage.ChartBars` | components/pages/DashboardPage.tsx:52-70 | the chart has one bar per distinct location code |
| `DashboardPage.ChartData` | components/pages/DashboardPage.tsx:52-70 | the loop builds exactly the chart `ChartBars` describes |
| `DashboardPage.ChartGroups` | components/pages/DashboardPage.tsx:53-67 | one bar per distinct location used by some asset; the codes of any prefix of the assets come first, so the bars are in first-occurrence order; each bar counts at least one asset and no more inventoried assets than assets |
| `DashboardPage.ChartTotals` | components/pages/DashboardPage.tsx:60-65 | the bar totals sum to the number of assets, and the bar inventoried counts sum to the headline inventoried counter |

## Left out

- Latency simulation (`simulateDelay`, `async`, `setTimeout`) has no effect on the data, so every operation is a synchronous call.
- The wall-clock date is not modelled. `addUser`'s registration date and the form's default acquisition date are parameters (`today`).
- JavaScript numbers are modelled as unbounded integers. Floating point, `NaN` keys and the array-length limit on `Math.max(...)` are not modelled.
- The chart's location list comes from an asynchronous fetch whose results fill the array after it is returned, which is a rendering race. The model computes the chart from both lists at once.
- At run time the form's location select yields a string. The model types `local_fisico` as a number, as `types.ts` declares, so mixed string/number comparisons are not modelled.
- Text.PadAssetCode: counts length in characters (Unicode scalar values), while `padStart` counts UTF-16 code units. The model pads `max(0, 8 - characters)` zeros where JavaScript pads `max(0, 8 - code units)`, so each character outside the Basic Multilingual Plane can cost up to one extra `'0'`; codes made of BMP characters pad the same.
- Text.Lower: lower-cases only ASCII letters. `toLowerCase` also folds accented and other non-ASCII letters.
- Text.ParseInt: covers only an optional minus sign followed by digits; any other string is `NaN`. It does not model leading whitespace, a `+` sign, or a numeric prefix followed by other characters, because the select options only produce plain numerals.
- The add-or-update dispatch on save, modals, alerts, confirmation dialogs, navigation and rendering are UI plumbing and are not modelled.
- The location-name helper of the assets table (components/pages/AssetsPage.tsx:189) is not modelled. It is the dashboard label lookup with "N/A" as its fallback.
- Session persistence in context/AuthContext.tsx is browser storage I/O and is not modelled. Its one rule, that a stored user is accepted while its id is in the user list, is not modelled either.
- The user and location pages (components/pages/UsersPage.tsx, components/pages/LocationsPage.tsx) only do a non-empty field check and call the operations modelled here, so they are not modelled.
- The scanner page, routing and layout are not part of this model, because they contain no data logic.
