# duan link store: a Dafny model

This project models the core of a URL shortener that runs as a Cloudflare
Worker over a D1 (SQLite) table `links`. A short code maps to a row
`{short_code, original_url, description, is_enabled, created_at,
last_visited_at, visit_count}`. The model covers these parts:

- the shortcode normaliser and validator;
- the management handlers: create one link, create a batch, patch, delete, get, and list codes;
- the public redirect, which counts visits;
- the bearer-token gate in front of `/api/*`.

Layout, one module per source file:

| file | module | source |
|---|---|---|
| `text.dfy` | `Text` | the JavaScript string operations used (`trim`, `toLowerCase`, `startsWith`) |
| `shortcode.dfy` | `ShortCode` | `src/utils/shortcode.ts` |
| `links.dfy` | `Links` | the `links` table as class `LinkTable` (a `map<string, Link>`), with one member per SQL statement the handlers run |
| `responses.dfy` | `Responses` | `(status, payload)` responses (`src/utils/response.ts`) |
| `create_link.dfy` | `CreateLink` | `src/handlers/createLink.ts` |
| `create_batch.dfy` | `CreateBatch` | `src/handlers/createBatchLinks.ts` |
| `update_link.dfy` | `UpdateLink` | `src/handlers/updateLink.ts` |
| `delete_link.dfy` | `DeleteLink` | `src/handlers/deleteLink.ts` |
| `redirect.dfy` | `Redirect` | `src/handlers/redirect.ts` |
| `get_link.dfy` | `GetLink` | `src/handlers/getLink.ts` |
| `list_shortcodes.dfy` | `ListShortcodes` | `src/handlers/listShortcodes.ts` |
| `auth.dfy` | `Auth` | `src/middleware/auth.ts` |
| `wrappers.dfy`, `json.dfy` | `Wrappers`, `Json` | `Option`/`Result`; parsed request bodies |

The handlers that change the table are module-level methods that take the
`LinkTable` as a parameter and call its statement members. Their
postconditions give the whole new table in terms of the old one, on every
path. Each mutating handler also keeps the at-rest invariant
`Links.Sound`:

- every key is its row's code and matches `[a-zA-Z0-9_-]+`;
- every URL is non-empty and parses;
- `is_enabled` is 0 or 1.

The validation chains are pure functions whose contracts give both
directions of "accepted iff". The batch loop is proved equal to a recursive
specification `CreateBatch.Process`, and the lemmas about that function state
the per-item guarantees.

Foreign pieces are inputs:

- `new URL(s)` not throwing is a predicate parameter `urlOk`.
- `Math.random()` results are `draws`, each in [0, 1).
- `CURRENT_TIMESTAMP` is a clock value `now`.
- A store exception is a `fault` flag.
- The request origin is a string `origin`.

Where the handlers disagree on normalisation, each is modelled as written:

- Only create-one and get trim and lower-case the code.
- Batch create, update, delete and redirect use the code exactly as given.
- Redirect applies only the "non-empty, no slash" guard. It neither
  normalises the code nor checks it against the pattern.
- If the counter UPDATE throws, redirect answers 500. It does not redirect
  regardless.
- Batch create can therefore store a code with upper-case letters, and
  `GetLink.MixedCaseUnreachable` shows that get can never return such a row.

## Model

| member | source | states |
|---|---|---|
| `Text.Trim` | src/utils/shortcode.ts:12 | `trim()` gives the empty string exactly when the input is all ECMA-262 whitespace; otherwise the result has no whitespace at either end |
| `Text.TrimContent` | src/utils/shortcode.ts:12 | the result of `trim()` is one contiguous piece of the input, and every character before and after it is whitespace |
| `Text.TrimIdempotent` | src/utils/shortcode.ts:25 | a general fact about `trim()`: trimming its result a second time changes nothing |
| `Text.ToLower` | src/utils/shortcode.ts:17 | `toLowerCase()` keeps the length and maps each character to its lower-case form |
| `Text.StartsWith` | src/middleware/auth.ts:25 | `startsWith(prefix)`: the string begins with exactly the prefix |
| `Text.NatToString` | src/handlers/createBatchLinks.ts:166 | a number in a template literal renders as decimal digits that denote exactly that number, with no leading zero |
| `ShortCode.Normalize` | src/utils/shortcode.ts:5-18 | absent or blank input normalises to null; otherwise the result is the trimmed input lower-cased (ASCII letters only, see "## Left out") |
| `ShortCode.NormalFormShape` | src/utils/shortcode.ts:12-17 | a normal form is non-empty, has no whitespace at either end and has no upper-case letter |
| `ShortCode.NormalizeIdempotent` | src/utils/shortcode.ts:12-17 | normalising a normal form gives it back unchanged |
| `ShortCode.IsValid` | src/utils/shortcode.ts:20-35 | valid iff the input is present and its trimmed form matches `[a-zA-Z0-9_-]+`; absent or blank input is invalid, and the slash test is subsumed by the pattern |
| `ShortCode.PatternExcludes` | src/utils/shortcode.ts:30-34 | a string the pattern accepts contains no slash and no whitespace |
| `ShortCode.LowerKeepsPattern` | src/utils/shortcode.ts:3 | lower-casing keeps a string inside the pattern |
| `ShortCode.ValidNormalizes` | src/utils/shortcode.ts:12-34 | a valid code has a normal form, and that normal form is valid and matches the pattern |
| `Links.NewRow` | src/handlers/createLink.ts:73-77 | the inserted row carries the given code, URL, description and enabled flag, `created_at = now`, no visit yet and a zero counter |
| `Links.ApplyPatch` | src/handlers/updateLink.ts:97-102 | only the columns present in the patch change; the code, counter and timestamps never do |
| `Links.Visit` | src/handlers/redirect.ts:32-36 | a visit adds exactly 1 to `visit_count` and sets `last_visited_at`; every other column is unchanged |
| `Links.VisitAllCounts` | src/handlers/redirect.ts:33 | N sequential visits raise `visit_count` by exactly N and leave the last clock reading; other columns are unchanged |
| `Links.LinkTable.Select` | src/handlers/redirect.ts:20-24 | the lookup finds the row stored under exactly the given key, or reports a store error |
| `Links.LinkTable.Insert` | src/handlers/createLink.ts:73-77 | a free key gains exactly one new row; a taken key gives Duplicate and changes nothing; a store error changes nothing |
| `Links.LinkTable.UpdateFields` | src/handlers/updateLink.ts:97-111 | an existing key gives 1 row written, with that row patched and all others unchanged; an unknown key gives 0 rows and no change |
| `Links.LinkTable.Delete` | src/handlers/deleteLink.ts:24-31 | an existing key is removed and 1 change is reported; an unknown key gives 0 changes; other rows are kept |
| `Links.LinkTable.IncrementVisit` | src/handlers/redirect.ts:32-36 | the row under the key becomes its `Visit`; no other row changes |
| `Links.LinkTable.SelectCodes` | src/handlers/listShortcodes.ts:15-17 | the code column holds one row per stored link: each stored code exactly once and nothing else |
| `CreateLink.CheckCreate` | src/handlers/createLink.ts:29-62 | a request passes iff the URL is given, the code is valid in the sense of `isValidShortCode`, and the URL parses; the key is the code's normal form; missing fields give the "Missing required fields" error |
| `CreateLink.ShortUrl` | src/handlers/createLink.ts:80 | the short URL is the origin, a slash, then the key, so the key can be read back from it |
| `CreateLink.HandleCreateLink` | src/handlers/createLink.ts:14-112 | bad JSON or a failed guard gives 400 with no write; a store error gives 500; a taken key gives 409 and keeps the existing row; otherwise 201 with `short_url = origin/key`, and the table gains exactly the enabled row under the normalised key; `Sound` is preserved |
| `CreateBatch.AlphabetInPattern` | src/handlers/createBatchLinks.ts:29 | every character of the generator's alphabet belongs to `[a-zA-Z0-9_-]` |
| `CreateBatch.CharAt` | src/handlers/createBatchLinks.ts:31 | each random draw picks a character of the 36-character alphabet, hence one of the pattern's class |
| `CreateBatch.GenerateRandomShortcode` | src/handlers/createBatchLinks.ts:28-33 | a generated code has the requested length, uses only the alphabet, and passes `isValidShortcode` |
| `CreateBatch.IsValidShortcode` | src/handlers/createBatchLinks.ts:46-49 | valid iff the pattern matches (the slash test is subsumed); a valid code is its own trim and satisfies `isValidShortCode` |
| `CreateBatch.PlanItem` | src/handlers/createBatchLinks.ts:84-118 | an item is attempted iff its URL is given and parses and its code is omitted or valid; a supplied code is kept as given, and an omitted one is generated |
| `CreateBatch.PlanItemSound` | src/handlers/createBatchLinks.ts:84-118 | an attempted item always has a code of the pattern and a non-empty URL that parses |
| `CreateBatch.Step` | src/handlers/createBatchLinks.ts:120-160 | the INSERT and catch of one iteration on the item's plan: the table and the item's outcome afterwards; its properties are stated by `StepSpec` |
| `CreateBatch.StepSpec` | src/handlers/createBatchLinks.ts:120-160 | an item succeeds iff it was attempted, the store did not fail and the code was free, and then one enabled row is added under the code with the success entry `origin/code`; a duplicate records "already exists", any other store error the generic message, a rejected item its guard's entry; a failure leaves the table unchanged; existing rows are never changed; a sound plan keeps `Sound` |
| `CreateBatch.CreateItem` | src/handlers/createBatchLinks.ts:82-160 | one iteration of the loop changes the table and yields the outcome exactly as `Step` does on the item's plan |
| `CreateBatch.Process` | src/handlers/createBatchLinks.ts:82-161 | the loop as a recursive definition: the table and the outcomes after the first n items, one outcome per item |
| `CreateBatch.Successes` | src/handlers/createBatchLinks.ts:136-141 | the `success` list holds exactly the entries of the successful outcomes, in input order |
| `CreateBatch.Errors` | src/handlers/createBatchLinks.ts:85-159 | the `errors` list holds exactly the entries of the failed outcomes, in input order |
| `CreateBatch.ListsAppend` | src/handlers/createBatchLinks.ts:82-159 | both lists keep input order: the lists of a batch split in two are the first part's entries followed by the second part's |
| `CreateBatch.Summary` | src/handlers/createBatchLinks.ts:166 | the message "Processed N links: S created, E failed", with the counts rendered by `NatToString` |
| `CreateBatch.ListsPartition` | src/handlers/createBatchLinks.ts:82-161 | every outcome lands in exactly one of `success` and `errors`, so their lengths add up to the number of items; `success` is non-empty iff some item succeeded |
| `CreateBatch.ProcessShape` | src/handlers/createBatchLinks.ts:82-161 | processing keeps every previously stored row unchanged and, when every plan is sound, preserves `Sound` |
| `CreateBatch.ProcessPrefix` | src/handlers/createBatchLinks.ts:82-161 | later items never alter the outcomes of earlier ones (input order is kept) |
| `CreateBatch.ProcessAt` | src/handlers/createBatchLinks.ts:82-161 | item i's outcome is that of its own iteration, run on the table the first i items left |
| `CreateBatch.RejectedItemFails` | src/handlers/createBatchLinks.ts:84-118 | an item with a missing or unparsable URL, or an invalid code, ends in `errors` and does not touch the table |
| `CreateBatch.ProcessTail` | src/handlers/createBatchLinks.ts:82-161 | rows present after some items are still present, unchanged, after more items |
| `CreateBatch.SucceededPlanStored` | src/handlers/createBatchLinks.ts:122-141 | a successful iteration's row is in the final table under the reported code, enabled, with the plan's URL and description |
| `CreateBatch.SucceededItemStored` | src/handlers/createBatchLinks.ts:122-141 | every success entry's row is in the final table with the item's URL and description |
| `CreateBatch.HandleCreateBatchLinks` | src/handlers/createBatchLinks.ts:52-171 | bad JSON, a non-array or an empty array gives 400 with no write; otherwise the table and the two lists are those of `Process` over the items' plans; the counts add up to the number of items; the status is 201 iff some item succeeded; `Sound` is preserved |
| `UpdateLink.ValidatePatch` | src/handlers/updateLink.ts:41-95 | a body passes iff its `url` (when present) is non-blank and parses, its `is_enabled` (when present) is exactly 0 or 1, and at least one field is present; the patch names exactly the present fields, and an explicit null description clears the column |
| `UpdateLink.HandleUpdateLink` | src/handlers/updateLink.ts:16-132 | a missing code, bad JSON or a rejected body gives 400 with no write; a store error gives 500; an unknown code gives 404 with no change; otherwise 200, with only the present columns of that one row changed; `Sound` is preserved |
| `DeleteLink.HandleDeleteLink` | src/handlers/deleteLink.ts:8-50 | a missing code gives 400; an unknown code gives 404 with no change; otherwise 200, and exactly that key (taken as given) is removed while every other row is kept; `Sound` is preserved |
| `Redirect.WellFormed` | src/handlers/redirect.ts:14 | the redirect guard: the code is given, non-empty and has no slash; nothing more is checked |
| `Redirect.ValidCodePassesGuard` | src/handlers/redirect.ts:14 | every code `isValidShortCode` accepts passes the redirect guard |
| `Redirect.GuardAdmitsInvalidCode` | src/handlers/redirect.ts:14 | the guard is strictly weaker: `"a b"` passes it but is not a valid code |
| `Redirect.HandleRedirect` | src/handlers/redirect.ts:7-45 | a missing code or one with a slash gives 400; a store error gives 500; an absent or disabled row gives 404 with no change; otherwise that row's counter is raised by one via `Visit` and nothing else changes, and the answer is 302 to the row's URL, or 500 when `Response.redirect` rejects the URL; `Sound` is preserved, and on a sound table that rejection cannot happen |
| `GetLink.HandleGetLink` | src/handlers/getLink.ts:8-51 | a code with no normal form gives 400; a store error gives 500 with the retrieval error message; 404 iff no row is stored under the normal form; otherwise 200 with that row; the table is only read |
| `GetLink.SameNormalFormSameAnswer` | src/handlers/getLink.ts:20-32 | codes with the same normal form (such as `" AbC "` and `"abc"`) get the same status, and the same response except for the 404 message |
| `GetLink.MixedCaseUnreachable` | src/handlers/getLink.ts:20-33 | a row stored under a key with an upper-case letter is never returned |
| `GetLink.CreatedThenFound` | src/handlers/getLink.ts:29-45 | a link stored by create is found by its code: enabled, with its URL, and a zero counter |
| `GetLink.CreateThenGet` | src/handlers/getLink.ts:20-45 | create followed by get with the same code: a 201 means the get answers 200 with exactly the new row, and a 409 means the get finds the existing row |
| `ListShortcodes.ProjectCodes` | src/handlers/listShortcodes.ts:22 | one code per result row, in row order; absent results give `[]` |
| `ListShortcodes.HandleListShortcodes` | src/handlers/listShortcodes.ts:8-35 | a store error gives 500; otherwise 200 with every stored code exactly once and nothing else; the table is not modified |
| `Auth.Authenticate` | src/middleware/auth.ts:16-56 | continues iff the header is exactly `"Bearer " + API_TOKEN`; a missing or malformed header, or a wrong token, gives a 401 rejection with the matching message |
| `Auth.TokenIsHeaderTail` | src/middleware/auth.ts:34-52 | the compared token is the header minus its first 7 characters |

## Left out

- JSON parsing: handlers receive parsed, typed bodies, or `InvalidJson` when `request.json()` throws. Properties of the wrong JSON type (a number where a string is expected, say) are not modelled.
- `new URL(...)` is the parameter `urlOk`. The model assumes nothing about which strings parse. The redirect handler uses the same predicate for whether `Response.redirect` accepts the stored URL.
- The request origin is taken as a given string.
- `Math.random()` results are the parameter `draws`, one value in [0, 1) per generated character.
- The D1 engine is the map in `LinkTable`. A store exception is a `fault` input, and the "UNIQUE constraint failed" message test becomes the `Duplicate` outcome. `rows_written` and `changes` are 1 or 0, the rows the statement matched.
- The schema file is not part of this model. The model assumes its defaults: `created_at = CURRENT_TIMESTAMP`, `visit_count = 0`, `last_visited_at = NULL`. It also assumes binary, case-sensitive key comparison.
- `CURRENT_TIMESTAMP` is the clock input `now`.
- Text.ToLower: maps only ASCII letters, unlike the full Unicode mapping of `toLowerCase`. `CreateLink.CheckCreate` validates a code before lower-casing it, and the pattern admits only ASCII, so there the two agree.
- ShortCode.Normalize: lower-cases with `Text.ToLower`, so on unvalidated input it leaves non-ASCII capitals unchanged where JavaScript maps them. For example, "Ä" stays "Ä" instead of becoming "ä", and U+212A KELVIN SIGN stays as it is instead of becoming "k". `GetLink.HandleGetLink` normalises the path code without validating it, so its lookup key and `MixedCaseUnreachable` (which speaks only of A–Z) inherit the same gap.
- Strings are sequences of Unicode scalar values, not UTF-16 code units.
- `visit_count` is an unbounded integer. SQLite's 64-bit overflow is not modelled.
- `SelectCodes` returns rows in an arbitrary order, because the SQL has no ORDER BY.
- The read-then-increment gap in redirect is not modelled: each handler runs alone on the table.
- `console.error` logging is not modelled. Nor is the commented-out timing-safe comparison in auth.ts, which is not executed code.
- `src/handlers/listLinks.ts` is a pass-through `SELECT *` and `src/index.ts` is router registration; neither is part of this model. `src/utils/response.ts` appears only as the `Response` datatype.
