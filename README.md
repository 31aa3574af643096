# active-record in Dafny

A model of the data-mapping layer of the TypeScript `active-record` library, with proofs about it.
It has four parts:

- **Identifier case conversion** (`strings.dfy`, module `Strings`). These are the `String.prototype` extensions `snakeCaseToCamelCase`, `camelCaseToSnakeCase` and `startsWith`. Each regular-expression replace is written as a recursive function over `seq<char>`.
- **The response envelope and the REST driver** (`api.dfy`, module `ApiDriver`).
  - `ApiResponse` is a datatype. Its constructor is a method whose `forEach` loops are proved equal to the function `Normalize`.
  - `Api` is a class holding the driver's mutable configuration.
  - `HandlePromise` maps an abstract outcome (a delivered body, or a transport failure) to a response and to the error-handler calls it makes.
- **Repositories** (`repository.dfy`, module `Repositories`). `Repository<T>` is a class. Its filter dictionary is updated in place by the fifteen `Where…` builders. Its item list is filled by `SetItemsCount` and replaced wholesale by `Get`.
  - `Get` is split at its `await`. `BeginGet` snapshots and clears the filters. `CompleteGet` handles the driver's response.
- **Models** (`model.dfy`, module `Models`). `Model` is a class holding:
  - the fields (`props`), as an insertion-ordered dictionary;
  - `$Errors` (`errors`) and `$originalValues` (`originals`).

  `Load`, `LoadOriginalValues`, URL substitution, `Save` and `GetInfo` are methods with loops. Each is proved against a function (`LoadEntries`, `Snapshot`, `Substitute`, `SaveCall`, `GetInfoCall`), and the lemmas about those functions carry the properties.

  The read-only members only compute from the model's state. Each is a function of the fields and the snapshot, defined once and called by the methods:
  - `GetPropertyValue` and `GetOriginalValue` are `Current` on the fields and on the snapshot;
  - `HasPropertyChanged` is `Changed`;
  - `GetOwnPropertyNames` is `OwnPropertyNames`;
  - `GetChangedAttributes` is `ChangedAttributes`.

Three support modules sit under these:

- `dicts.dfy` (`Dicts`) models a JavaScript object used as a dictionary. It is a sequence of (key, value) pairs. Assigning an existing key overwrites it in place, and assigning a new key appends it. Key order matters because `Load`, `GetChangedAttributes` and URL substitution all walk the keys.
- `values.dfy` (`JsValues`) is a tagged JavaScript value. It covers:
  - truthiness and `v || undefined`;
  - `===`, which compares by identity for objects;
  - `String(v)`;
  - `Object.keys`, which throws on `undefined` and `null`.

  Nested models and repositories are their own tags: `ModelRef` stands for `$is_model` and `RepoRef` for `$is_repository`.
- `wrappers.dfy` (`Wrappers`) holds `Option` and `Settled`. `Settled` is how a promise settles: resolved, or rejected because a callback threw.

Where the source throws, the model returns an error value. `snakeCaseToCamelCase` throws on the empty string, because `str[0]` is `undefined` there. So:

- the `ApiResponse` constructor throws on an empty payload key;
- `Load` stops at an empty data key, with the entries before it applied.

`GetChangedAttributes` throws on a changed date column that does not hold a `Date`, because it calls `toDateString()` on it.

Two more throws come from reading a property of `null`:

- A payload whose `data` is `null` is kept as the data bag, because `typeof null` is `"object"`. Then `HasData` and `GetData` throw. `Get`, `Save` and `GetInfo` test `IsSuccessful()` first, so they reject only on a successful response; an unsuccessful one with `data: null` resolves as usual.
- `GetOwnPropertyNames` asks `Object.isModel(this[key])` of every key that is neither a date column nor `$`-prefixed. `Object.isModel(null)` calls `Object.keys(null)`, so a field holding `null` makes it throw. So do `GetChangedAttributes`, `Save` (before sending anything) and `LoadOriginalValues` (after resetting `$originalValues`).

**A run of capitals is one segment.** The regular expression `/\.?([A-Z]+)/g` takes a whole run of capitals as one match. So `camelCaseToSnakeCase("ID")` turns `"ID"` into `"_id"`, not `"_i_d"`, and stripping the leading `_` leaves `"id"`. `Strings.CapitalRunExamples` proves `"ID"` ↦ `"id"` and `"UserID"` ↦ `"user_id"`.

Two more behaviours of the code are kept as written:

- `WhereLessThan` writes the same key as `WhereLessThanOrEquals` (`field-LTE`). `Repositories.FilterKeyCollisions` states that this pair is the only collision among the builders.
- `GetData` is `Data[d] || undefined`, so `HasData(d)` can hold while `GetData(d)` is `undefined`. `ApiDriver.PresentButFalsy` states when.

## Model

| member | source | states |
|---|---|---|
| Strings.ReplaceUnderscores | extensions/string.ts:20 | each non-overlapping `_` + word character becomes that character upper-cased: the output is shorter than the input by exactly the number of matches |
| Strings.SnakeCaseToCamelCase | extensions/string.ts:19-23 | defined only on non-empty strings; the length is the input's minus the number of `_\w` matches; the first character is never a lower-case letter |
| Strings.ReplaceCapitals | extensions/string.ts:26-28 | after every run of capitals (with one preceding `.`) is replaced by `_` and the lower-cased run, no ASCII capital is left |
| Strings.CamelCaseToSnakeCase | extensions/string.ts:25-29 | the result, after stripping one leading `_`, contains no ASCII capital |
| Strings.IndexOf | extensions/string.ts:32 | returns the first position where the pattern occurs, or -1 exactly when it occurs nowhere |
| Strings.StartsWithIsPrefix | extensions/string.ts:31-33 | `startsWith(p)` holds exactly when `p` is a prefix, hence always for `""` |
| Strings.ReplaceFirstAbsent | Model.ts:230 | `replace` with a pattern that does not occur leaves the string as it was |
| Strings.ReplaceFirstOnlyFirst | Model.ts:230 | `replace` with a string pattern rewrites only the first occurrence and keeps the rest of the text |
| Strings.ReplaceUnderscoresPlain | extensions/string.ts:20 | text without `_` passes through the underscore replacement unchanged, whatever follows it |
| Strings.ReplaceUnderscoresOfJoin | extensions/string.ts:20 | on `_` + a snake_case identifier, the replacement yields the capitalised segments joined |
| Strings.SnakeToCamelOfJoin | extensions/string.ts:19-23 | snakeCaseToCamelCase of segments joined by `_` is the segments, each capitalised, concatenated |
| Strings.ReplaceCapitalsPlain | extensions/string.ts:26 | text without capitals or `.` passes through the capital replacement unchanged |
| Strings.ReplaceCapitalsOfCapitalized | extensions/string.ts:26-28 | on capitalised segments, each of at least two letters except the last, the capital replacement gives `_` + the snake_case join |
| Strings.RoundTrip | extensions/string.ts:19-29 | camelCaseToSnakeCase undoes snakeCaseToCamelCase on every identifier whose segments start lower-case, hold only lower-case letters and digits, and (but the last) have length at least 2 |
| Strings.RoundTripFailsOnShortSegment | extensions/string.ts:19-29 | without that side condition the round trip fails: `a_b` ↦ `AB` ↦ `ab` |
| Strings.SnakeToCamelExamples | extensions/string.ts:19-23 | `user_id` ↦ `UserId` and `_id` ↦ `Id` |
| Strings.CamelToSnakeExample | extensions/string.ts:25-29 | `UserId` ↦ `user_id` |
| Strings.CapitalRunExamples | extensions/string.ts:26 | a run of capitals is one segment: `ID` ↦ `id`, `UserID` ↦ `user_id` |
| Dicts.FindKey | Model.ts:163 | the position of the first entry with the key, or -1 exactly when no entry has it |
| Dicts.PutLookup | Model.ts:129 | after `d[k] = v`, `k` holds `v` and every other key holds what it held |
| Dicts.PutKeys | Model.ts:129 | `d[k] = v` keeps an existing key where it is and appends a new one; distinct keys stay distinct |
| Dicts.PutInKeys | Model.ts:129 | after `d[k] = v` the keys are the old keys and `k` |
| Dicts.LastValue | Model.ts:232 | a value is found for a key exactly when the key occurs among the entries written |
| Dicts.PutAllLookup | Model.ts:232 | after writing a sequence of entries, a key holds the last value written for it, or its old value if none was |
| Dicts.PutAllKeysPrefix | Model.ts:232 | writing entries never moves or removes a key, and keeps keys distinct |
| Dicts.LastValueDistinct | Model.ts:232 | with distinct keys, the last value written for a key is the one a lookup finds |
| JsValues.OrUndefined | Model.ts:163 | `v \|\| undefined` is `v` when truthy and `undefined` for every falsy value |
| JsValues.StrictEqualsIsEquivalence | Model.ts:171 | `===` is reflexive, symmetric and transitive, and on non-objects it is value equality |
| JsValues.OwnEntries | Model.ts:62 | `Object.keys` fails exactly on `undefined` and `null` |
| JsValues.JoinValues | Repository.ts:64 | `values.join(',')`: `''` for no values, a single value's own text, and otherwise the join of all but the last, a comma, and the last one's text (`null` and `undefined` as `''`) |
| ApiDriver.CopyEntriesMeaning | api/Api.ts:15-20 | the constructor's copy loop throws exactly when some payload key is empty; otherwise it writes the snake→camel converted entries in order |
| ApiDriver.CopyConvertedKeys | api/Api.ts:15-20 | the `forEach` copy returns the target unchanged for an absent source, throws on `null`, and otherwise equals the specification of the copy |
| ApiDriver.Normalize | api/Api.ts:11-14 | the constructor throws on a missing body; `Data` is never `undefined` (a missing `data` becomes `{}`), and it is `null` exactly when the payload's `data` is |
| ApiDriver.NewApiResponse | api/Api.ts:11-21 | the constructor builds exactly the normalised envelope, or throws where the copy throws |
| ApiDriver.SuccessIsTruthiness | api/Api.ts:12 | `IsSuccessful()` holds exactly when the payload's `success` is truthy, so never when it is absent |
| ApiDriver.NoDataKeyNoData | api/Api.ts:13-14 | without a `data` key, `HasData(d)` is false and `GetData(d)` is `undefined` for every `d`, and neither throws |
| ApiDriver.NullDataThrows | api/Api.ts:14-41 | a payload whose `data` is `null` keeps it as `Data`, so `HasData` and `GetData` throw for every name |
| ApiDriver.ApiResponse.HasData | api/Api.ts:34 | throws exactly when `Data` is `null` (or `undefined`); otherwise a name is reported exactly when `Data` has it as an own key holding something other than `undefined` |
| ApiDriver.ApiResponse.GetData | api/Api.ts:41 | throws exactly when `HasData` does; the value is `undefined` or truthy; a truthy stored value is returned as it is, and a defined result is the stored value of a name `HasData` reports |
| ApiDriver.PresentButFalsy | api/Api.ts:34-41 | `HasData(d)` holds while `GetData(d)` is `undefined` exactly when the stored value is present but falsy |
| ApiDriver.ErrorRecord | api/Api.ts:15-17 | `Code` and `Text` stay the first keys; each payload error key is written under its converted name, the last write winning, other keys keep `''` |
| ApiDriver.FieldErrorsRecord | api/Api.ts:18-20 | field errors hold exactly the converted payload keys, with their values unchanged, the later key winning on a collision |
| ApiDriver.AbsentErrorsDefault | api/Api.ts:8-20 | a payload without `error` and `field-errors` keys skips both copies: the error record is `{Code: '', Text: ''}` and the field errors are `{}` |
| ApiDriver.EmptyErrorKeyThrows | api/Api.ts:16 | a payload `error` with an empty key makes the constructor throw |
| ApiDriver.ErrorObjectRecord | api/Api.ts:15-17 | an error object `{code, text}` overwrites `Code` and `Text` in place and adds nothing |
| ApiDriver.ServerErrorResponse | api/Api.ts:131-132 | the payload built on a transport failure normalises to the fixed server-error response |
| ApiDriver.ServerErrorFields | api/Api.ts:132 | that response is unsuccessful, with `Code` = `E-SERVER-ERROR` and `Text` = `Server error` |
| ApiDriver.Api.constructor | api/Api.ts:55-58 | a new driver has the given base endpoint and version, and no token or handlers |
| ApiDriver.Api.SetToken | api/Api.ts:60-63 | the token becomes the one given |
| ApiDriver.Api.SetBaseEndpoint | api/Api.ts:65-68 | the base endpoint becomes the one given |
| ApiDriver.Api.SetVersion | api/Api.ts:70-73 | the version becomes the one given |
| ApiDriver.Api.GetEndpointUrl | api/Api.ts:75-77 | the request URL is base + `/` + version + `/` + endpoint, so it starts with `base/version/` |
| ApiDriver.Api.SetUploadHandler | api/Api.ts:99-102 | `GetUploadHandler` then returns the handler set last |
| ApiDriver.Api.RemoveUploadHandler | api/Api.ts:104-107 | `GetUploadHandler` then returns `undefined` |
| ApiDriver.Api.GetHeaders | api/Api.ts:113-117 | the `Token` header is present exactly when a token is set, carries it, and no other header is present |
| ApiDriver.Api.Prepare | api/Api.ts:144-190 | each call hands the client its own verb and data, the composed URL and the headers of `GetHeaders`; an upload carries the upload handler as set, and every other verb carries none |
| ApiDriver.Api.HandlePromise | api/Api.ts:124-136 | a delivered body becomes its response, and a failure or a throwing constructor becomes the server error; the error handler receives the response exactly when it is unsuccessful and a handler is set |
| Repositories.FilterKeyCollisions | Repository.ts:43-51 | two builders write the same key for a field exactly when they are the same builder or are `WhereLessThan`/`WhereLessThanOrEquals` |
| Repositories.SetIfTruthy | Repository.ts:23-51 | a falsy value leaves the filters unchanged; a truthy one sets that key and no other, keeping keys distinct |
| Repositories.Blank | Repository.ts:109-112 | `count` factory-made records, and none when `count <= 0` |
| Repositories.Repository.constructor | Repository.ts:103-107 | no filters, not loading, and `count` blank items (none when `count <= 0`) |
| Repositories.Repository.WhereEquals | Repository.ts:23-26 | writes `field` only when the value is truthy |
| Repositories.Repository.WhereNotEquals | Repository.ts:28-31 | writes `field-NOTEQ` only when the value is truthy |
| Repositories.Repository.WhereGreaterThan | Repository.ts:33-36 | writes `field-GT` only when the value is truthy |
| Repositories.Repository.WhereGreaterThanOrEquals | Repository.ts:38-41 | writes `field-GTE` only when the value is truthy |
| Repositories.Repository.WhereLessThan | Repository.ts:43-46 | writes `field-LTE` only when the value is truthy |
| Repositories.Repository.WhereLessThanOrEquals | Repository.ts:48-51 | writes `field-LTE` only when the value is truthy |
| Repositories.Repository.WhereIsNull | Repository.ts:53-56 | writes `'null'` under `field-ISNULL`, unconditionally |
| Repositories.Repository.WhereIsNotNull | Repository.ts:58-61 | writes `'null'` under `field-ISNOTNULL`, unconditionally |
| Repositories.Repository.WhereBetween | Repository.ts:63-66 | writes the comma-join of the list under `field-BETWEEN` |
| Repositories.Repository.WhereNotBetween | Repository.ts:68-71 | writes the comma-join of the list under `field-NOTBETWEEN` |
| Repositories.Repository.WhereIn | Repository.ts:73-76 | writes the comma-join of the list under `field-IN` |
| Repositories.Repository.WhereNotIn | Repository.ts:78-81 | writes the comma-join of the list under `field-NOTIN` |
| Repositories.Repository.WhereStartsWith | Repository.ts:83-86 | writes the raw string under `field-STARTSWITH` |
| Repositories.Repository.WhereEndsWith | Repository.ts:88-91 | writes the raw string under `field-ENDSWITH` |
| Repositories.Repository.WhereContains | Repository.ts:93-96 | writes the raw string under `field-CONTAINS` |
| Repositories.Repository.ResetFilters | Repository.ts:101 | the filters become empty |
| Repositories.Repository.SetItemsCount | Repository.ts:109-112 | appends exactly `count` factory-made items after the existing ones |
| Repositories.Repository.AddItem | Repository.ts:116-119 | appends the item |
| Repositories.Repository.AddItemFromData | Repository.ts:121-124 | appends the factory's record for the data |
| Repositories.Repository.ResetItems | Repository.ts:126-128 | the items become empty |
| Repositories.Repository.Records | Repository.ts:145-154 | the records pushed one per entry, in key order, are, at each position, the factory record of the entry at that position |
| Repositories.Repository.BeginGet | Repository.ts:133-136 | the query is the filters as they stood; the filters are then empty and the repository is loading |
| Repositories.Repository.CompleteGet | Repository.ts:137-157 | loading ends and the items are replaced; an unsuccessful response or missing data gives no records; a `null` data bag makes `HasData` throw and the promise reject with no items; otherwise the result and the items are the same records, one per data entry, or the promise rejects with no items when the data cannot be enumerated |
| Models.Current | Model.ts:163 | `GetPropertyValue` is `undefined` or truthy, and equals the stored value exactly when that is truthy |
| Models.OwnPropertyNames | Model.ts:148-156 | when it does not throw, it never lists more names than there are own keys |
| Models.OwnPropertyNamesThrows | Model.ts:152 | `GetOwnPropertyNames` throws exactly when some own key that is neither a date column nor `$`-prefixed holds `null`, since `Object.isModel(null)` calls `Object.keys(null)` |
| Models.OwnPropertyNamesMembers | Model.ts:148-156 | when it does not throw, a key is listed exactly when it is a date column, or is neither `$`-prefixed nor holds a nested model |
| Models.RepositoryItems | Model.ts:91-92 | the items pushed one per array element are, at each position, the factory output for the element at that position |
| Models.LoadEntryEffect | Model.ts:62-102 | a null value is skipped; a nested repository takes an array and ignores anything else; a nested model is replaced by its factory's output, or kept without a factory; any other field is assigned (date columns parsed) and its error set to `''`; no other key changes |
| Models.LoadValue | Model.ts:57-64 | `Load` of `undefined` or `null` throws before changing anything; otherwise it runs to the end exactly when no data key is empty |
| Models.LoadCompletes | Model.ts:62-64 | `Load` runs to the end exactly when no data key is empty |
| Models.LoadStopsAtThrow | Model.ts:62-64 | once `Load` has thrown, later entries change nothing |
| Models.LoadFrame | Model.ts:62-82 | a field that no data key converts to keeps its value and its error |
| Models.LoadKeepsKeysDistinct | Model.ts:57-83 | `Load` never duplicates a field |
| Models.SnapshotEntries | Model.ts:119 | the snapshot writes exactly the listed names, in order |
| Models.SnapshotClean | Model.ts:117-120 | when `GetOwnPropertyNames` does not throw, the snapshot exists, its keys are exactly the listed names, and none of them counts as changed |
| Models.FalsyNeverChanged | Model.ts:170-172 | two falsy values never count as a change, as both collapse to `undefined` |
| Models.ChangedByValue | Model.ts:170-172 | for a non-object value, changed means its collapsed value differs from the original's |
| Models.CollectChangedThrows | Model.ts:193-198 | the loop over the listed names throws exactly when a changed date column does not hold a `Date` |
| Models.ChangedAttributesThrows | Model.ts:191-201 | `GetChangedAttributes` throws exactly when a field that reaches `Object.isModel` holds `null`, or a listed, changed date column does not hold a `Date` |
| Models.CollectChangedKeys | Model.ts:191-201 | the reported keys are exactly the snake_case names of the changed fields |
| Models.CollectChangedValue | Model.ts:194-198 | when no two listed names share a snake_case form, every changed field is reported under its snake_case name with its value, or a date column's `toDateString()` text |
| Models.CollectChangedLastWins | Model.ts:194-198 | when names collide in snake_case (`userId`, `UserId`), the later write wins: a changed field's value is reported when no later changed field has its snake_case form |
| Models.SubstituteNoBraces | Model.ts:230 | a URL without `{` is sent unchanged |
| Models.SubstituteFirstOnly | Model.ts:230 | only the first occurrence of a `{key}` placeholder is filled in |
| Models.SaveCall | Model.ts:226-238 | `Save` sends a request exactly when `GetChangedAttributes` does not throw (so never with a `null` field that reaches `Object.isModel`); it is a POST to the create URL exactly when the model is new, else a PATCH to the edit URL, the URL's placeholders filled from the fields |
| Models.SaveBodyOverlay | Model.ts:232 | in the body, a key of `extra` wins over a changed attribute |
| Models.GetInfoCall | Model.ts:249-255 | `GetInfo` sends a GET with no body to the edit URL with its placeholders filled from the fields, so unchanged when it has no placeholder |
| Models.Model.constructor | Model.ts:48-49 | a model starts with its declared fields and empty errors and originals; the data argument is ignored |
| Models.Model.SetPropertyValue | Model.ts:181-185 | sets the field and clears its error to `''` |
| Models.Model.HandleRepository | Model.ts:85-93 | given an array, the field's repository holds one factory record per element; anything else changes nothing |
| Models.Model.HandleModel | Model.ts:95-102 | with a factory, the field becomes its output and its error is cleared; without one, nothing changes |
| Models.Model.LoadField | Model.ts:62-81 | one step of `Load` has exactly the effect `LoadEntryEffect` describes |
| Models.Model.Load | Model.ts:57-83 | `Load` leaves the fields and errors that the entry-by-entry specification gives, and reports a throw |
| Models.Model.LoadOriginalValues | Model.ts:117-120 | `$originalValues` becomes the snapshot of the listed properties; when `GetOwnPropertyNames` throws, it is left as the `{}` it was reset to |
| Models.Model.SubstituteUrl | Model.ts:230 | the loop over own keys computes the placeholder substitution |
| Models.Model.SaveRequest | Model.ts:226-238 | the request sent by `Save` is the one `SaveCall` describes (verb, filled create or edit URL, body), and none when `GetChangedAttributes` throws |
| Models.Model.GetInfoRequest | Model.ts:249-255 | the request sent by `GetInfo` is the one `GetInfoCall` describes: a GET of the edit URL with its placeholders filled, and no body |
| Models.Model.AcceptResponse | Model.ts:240-246 | an unsuccessful response changes nothing; a successful one reloads from the data named after the model and re-snapshots; the promise rejects, with nothing changed, when the data bag is `null`, rejects with the snapshot kept when `Load` throws, and rejects with the snapshot empty when `LoadOriginalValues` throws |
| Models.Model.SetErrors | Model.ts:267-270 | `$Errors` becomes the dictionary given |

## Left out

- The HTTP transport is not modelled: the axios calls, `FormData` multipart building and promise chaining in `Get`, `Post`, `Patch`, `Delete` and `Upload`. It is I/O. `Prepare` models what each verb hands to the client, and `HandlePromise` takes the call's outcome as a parameter.
- plugin.ts is Vue registration with no logic. Factory.ts, IFactory.ts, api/IApiDriver.ts and api/IApiDriverResponse.ts are interfaces. The factories are opaque functions in `Schema` and `Repository`.
- extensions/object.ts is not part of this model. `isModel` and `isRepository` are the `ModelRef` and `RepoRef` tags, and `hasProperty` is unused. The one place where `isModel` meets a raw field value, in `GetOwnPropertyNames`, keeps its throw on `null` (`Models.ListingThrows`).
- `Date.fromUsDateString` and `Date#toDateString` are opaque: a parser function in `Schema`, and a text carried by a `Date` value.
- `Array.prototype.contains`, used for the date columns, is not defined in the repository. It is read as membership.
- `console.warn` in `HandleRepository` and `HandleModel` is not modelled; it is logging.
- The error handler is kept as a handler identity. `HandlePromise` returns the responses it would receive. What the handler does is not modelled, including a handler that throws.
- The upload and error handlers are process-wide and raced by concurrent calls. That concurrency is not modelled.
- The source has no setter for the error handler; the model has none either.
- Unicode case mapping is not modelled. Only ASCII letters change case. That is what the conversions' regular expressions match, but `str[0].toUpperCase()` in `snakeCaseToCamelCase` upper-cases any first character (`é_x` gives `ÉX`); the model leaves a non-ASCII first character as it is.
- The `$` patterns of `String.prototype.replace` are not modelled. A replacement value is inserted literally.
- `Object.keys` ordering rules (integer-like keys first) are not modelled. Every dictionary's order is the given insertion order.
- ApiDriver.ApiResponse.HasData: reads through the prototype chain are not modelled. The source's `typeof Data[d]` also sees inherited names (`constructor` on any object payload), which the model reports as absent; only own keys are modelled.
- Numbers are integers, with no `NaN` and no floating point. `Display` of a number is its decimal text.
- Models.Model.HandleRepository: a nested repository is a value whose items are replaced. The source calls `ResetItems`/`AddItemFromData` on an object that other places may also reference; that aliasing is not modelled.
- Models: the model's own `$` bookkeeping keys are not kept among the fields. `$Errors`, `$originalValues`, `$factories` and `$is_model` are separate state. So URL substitution never sees `{$Errors}`-style placeholders, and `GetOwnPropertyNames` never meets them, since it drops `$` keys anyway.
- Models.Model.constructor: a concrete model's field initialisers are given as the `fields` argument. The abstract constructor ignores its `data`.
- Repositories.Repository.CompleteGet: the driver call between `BeginGet` and `CompleteGet` is not modelled. The response is a parameter.
