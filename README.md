# CleanHero waste reporting: a Dafny model of its decision logic

CleanHero is a Next.js application in which users photograph waste, an
image-classification service labels the photo, and the labelled report is
stored; an admin dashboard edits the stored tables. This project models the
parts of the application that make decisions, with the services and the
database abstracted into parameters, and proves what those parts promise.

- `report.dfy`, module `ReportVerification`: the image-verification flow of
  the report page. `VerifyStep` is one call of `handleVerify(retryCount)`;
  `Chain` is the call started by the user followed by every retry it
  schedules. The class `ReportPage` holds the page state
  (`verificationStatus`, `verificationResult`, the report form, the report
  list). Its methods `Verify`, `RunVerification` and `Submit` change that
  state step by step, and their contracts tie them to pure functions of the state.
  The pure helpers are JSON-substring extraction (`ExtractJson`), field
  sanitising (`Sanitize`, `Confidence`), the "no waste" denylist
  (`IsNoWaste`) and the retry decision (`OnError`).
- `admin.dfy`, module `AdminTable`: the admin dashboard. The table
  configurations, the filtered view (global search plus column filters), the
  CSV export and the list updates after a delete or a save are functions of
  the module. The class `AdminDashboard` holds the page state, and its methods
  `SetFilter`, `Edit`, `Delete` and `Save` change it.
- `search.dfy`, module `NavigationSearch`: the navigation search endpoint.
- `middleware.dfy`, module `AdminGuard`: the route guard for `/admin`.
- `common.dfy`: `Option`, subsequences, `join`/`split`, and the JavaScript
  string operations used above. `trim` removes exactly the ECMAScript
  whitespace and line-terminator characters.

The outcome of each external call is an input to the model:
- one attempt's outcome is `Attempt`: the image read failed, the service
  threw with a message, or the service replied with a text (possibly empty);
- `JSON.parse` together with the sanitiser's `String`/`Number` coercions is a
  function `parse: string -> Parsed`;
- the user lookup in the middleware is `Lookup`: no user, a user with
  `isAdmin`, or an error;
- the admin HTTP responses are a boolean or an optional returned row.

Behaviour of the code worth knowing:
- A rate-limit (`RESOURCE_EXHAUSTED`) or invalid-argument error ends the
  chain with the status left at `verifying`, not at failure. So do a missing
  API key and an oversized image.
- The maximum-retries failure is raised at the top of a fourth call, when
  `retryCount >= 3`, before the service is contacted. The failure branch after
  the error handler (app/report/page.tsx:234-235) cannot be reached.
- The confidence is not clamped to [0, 1]: any non-zero number is kept.
- The denylist's third entry, "no waste detected", is already covered by the
  first, "contains no waste".
- The CSV export does not quote values. A value that contains a line break
  therefore spreads one row over two lines (`ExportLineBreakInValue`).

## Model

| member | source | states |
|---|---|---|
| `ReportVerification.ExtractJson` | app/report/page.tsx:161-162 | with no `{` followed later by a `}`, the whole text; otherwise the span from the first `{` to the last `}`, which starts with `{`, ends with `}` and is a contiguous part of the text |
| `ReportVerification.Confidence` | app/report/page.tsx:170 | zero and NaN become 0.5, every other number is kept; the result is never 0 |
| `JsString.Trim` | app/report/page.tsx:168-169 | the result is the part of the input between its leading and trailing whitespace; it is empty exactly when the input is all whitespace, and otherwise neither starts nor ends with whitespace |
| `ReportVerification.Sanitize` | app/report/page.tsx:164-175 | a sanitised result exists exactly when the parse succeeded and neither field is blank; its fields are the trimmed fields and the coerced confidence |
| `ReportVerification.IsNoWaste` | app/report/page.tsx:177-179 | the lower-cased type contains "no waste" or equals "none" or "no waste detected"; a denylisted type has at least four characters, so a blank type is never denylisted |
| `ReportVerification.NoWasteDetectedRedundant` | app/report/page.tsx:177-179 | the denylist holds exactly when the lower-cased type contains "no waste" or equals "none" |
| `ReportVerification.NoWasteIgnoresCase` | app/report/page.tsx:177-179 | the denylist gives the same answer for a type and its lower-cased form |
| `ReportVerification.Classify` | app/report/page.tsx:161-210 | an unparsable reply or a blank field gives the fallback {"Unknown","1 kg",0.5}; a denylisted type gives the no-waste verdict and nothing else does; a parsed reply with non-blank fields and a type off the denylist gives exactly its own sanitised classification |
| `ReportVerification.OnError` | app/report/page.tsx:215-236 | the handler stops exactly for messages containing `RESOURCE_EXHAUSTED` or `INVALID_ARGUMENT`; a retry always carries `retryCount + 1 <= 3`; giving up needs `retryCount >= 3` |
| `ReportVerification.GiveUpUnreachable` | app/report/page.tsx:226-235 | below the retry ceiling the handler never reaches the failure branch |
| `ReportVerification.EmptyReplyRetryable` | app/report/page.tsx:157-159 | the error thrown for an empty reply contains neither stop token, so it is retried |
| `ReportVerification.VerifyStep` | app/report/page.tsx:98-236 | without a file nothing changes; at `retryCount >= 3` the status becomes failure and the service is not contacted; a missing key or a file over 10 MiB leaves the status at verifying with no retry; exactly the retryable errors schedule one retry, with `retryCount + 1`; a stop token leaves the status at verifying; failure arises only at the ceiling or for a denylisted type; the result and the form change only on success, and then the form's type and amount are the result's and the location is kept |
| `ReportVerification.Chain` | app/report/page.tsx:226-231 | the user's call followed by every retry it schedules makes at least one call of `handleVerify` and contacts the service at most once per call |
| `ReportVerification.ChainContactsBounded` | app/report/page.tsx:114-118 | a chain started at `retryCount <= 3` contacts the service at most `3 - retryCount` times, in at most `4 - retryCount` calls |
| `ReportVerification.AtMostThreeContacts` | app/report/page.tsx:17 | one user action contacts the service at most 3 times and calls `handleVerify` at most 4 times |
| `ReportVerification.AllAttemptsFail` | app/report/page.tsx:225-231 | when every attempt fails in a retryable way, the chain makes `4 - retryCount` calls and ends in failure with the result and the form untouched |
| `ReportVerification.SuccessOnThirdAttempt` | app/report/page.tsx:152-192 | two retryable failures and then a classifiable reply end in success with that reply's result, after 3 calls |
| `ReportVerification.StopOnFirstAttempt` | app/report/page.tsx:215-223 | a rate limit or rejected image on the first call ends the chain at once: status verifying, one contact, no retry |
| `ReportVerification.DatePart` | app/report/page.tsx:270 | the date part is the prefix of the timestamp before its first `T` |
| `ReportVerification.Formatted` | app/report/page.tsx:265-271 | the new list row keeps the created report's id, location, type and amount; its date is the timestamp's prefix before the first `T` |
| `ReportVerification.SentImage` | app/report/page.tsx:261 | a missing or empty preview is not sent; any other is sent as is |
| `ReportVerification.ReportPage.constructor` | app/report/page.tsx:20-45 | the page starts with an empty form, no file, no preview, status idle and no result |
| `ReportVerification.ReportPage.SelectFile` | app/report/page.tsx:77-87 | choosing a file sets the file and its preview; no choice changes nothing |
| `ReportVerification.ReportPage.Verify` | app/report/page.tsx:98-245 | the new status, result and form, the scheduled retry and whether the service was contacted are exactly `VerifyStep`'s; the user, the reports, the file and the preview are unchanged |
| `ReportVerification.ReportPage.RunVerification` | app/report/page.tsx:226-231 | running the calls in turn until none is scheduled gives exactly `Chain`'s final state, contact count and call count |
| `ReportVerification.ReportPage.Submit` | app/report/page.tsx:247-288 | refuses, changing nothing, unless the status is success and a user is present; otherwise sends the user id, the form fields, the preview and the result; on a successful create prepends the formatted row and resets the form, file, preview, status (idle) and result (null); a failed create changes nothing |
| `AdminTable.Columns` | app/admin/page.tsx:39-70 | every table lists `id` as its first column; no column name is empty or holds a comma or a line break |
| `AdminTable.FilteredData` | app/admin/page.tsx:232-252 | an order-preserving subsequence of `data` without null entries, holding every copy of each entry that passes the search and the filters and nothing else |
| `AdminTable.AllNullRowHidden` | app/admin/page.tsx:236-240 | a row whose values are all null is excluded, whatever the search term |
| `AdminTable.EmptySearchShowsNonNullRows` | app/admin/page.tsx:236-249 | with an empty term and no active filter, exactly the rows with some non-null value pass |
| `AdminTable.EmptyFilterIgnored` | app/admin/page.tsx:243-244 | a filter set to the empty string has the same effect as no filter on that column |
| `AdminTable.SearchIgnoresCase` | app/admin/page.tsx:239 | the search gives the same answer for a term and its lower-cased form |
| `AdminTable.Cells` | app/admin/page.tsx:215-217 | one cell per column, in column order, each the CSV text of that column's value |
| `AdminTable.DataLines` | app/admin/page.tsx:214-218 | defined exactly when `data` holds no null entry; then line i is row i's cells joined by `,` |
| `AdminTable.Export` | app/admin/page.tsx:211-219 | the export exists exactly when `data` holds no null entry; reading a column of a null entry throws |
| `AdminTable.ExportLines` | app/admin/page.tsx:212-219 | when no value holds a line break, the CSV splits into `data.length + 1` lines: the column names joined by `,`, then each row's cells in column order |
| `AdminTable.ExportLineCells` | app/admin/page.tsx:214-217 | when no value holds a comma, splitting a data line on `,` gives back the row's cells |
| `AdminTable.ExportLineBreakInValue` | app/admin/page.tsx:212-219 | a one-row users table whose email holds a line break exports three lines, not two |
| `AdminTable.WithoutId` | app/admin/page.tsx:141 | defined exactly when `data` holds no null entry; then an order-preserving subsequence holding exactly the entries without that id, shorter by the number of entries with it |
| `AdminTable.Payload` | app/admin/page.tsx:151-156 | a truthy `createAt` is moved to `createdAt` and dropped, every other key is kept; otherwise the item is sent unchanged |
| `AdminTable.FromServer` | app/admin/page.tsx:172-175 | the stored row's `createAt` is the server's `createdAt`; every other key is the server's |
| `AdminTable.ReplaceId` | app/admin/page.tsx:172-175 | defined exactly when `data` holds no null entry; then same length, each entry with the id replaced and every other kept in place |
| `AdminTable.AdminDashboard.constructor` | app/admin/page.tsx:74-79 | the dashboard starts with an empty search, no filters and nothing being edited |
| `AdminTable.AdminDashboard.SetFilter` | app/admin/page.tsx:320 | sets one column's filter and changes nothing else |
| `AdminTable.AdminDashboard.Edit` | app/admin/page.tsx:122-124 | the given row becomes the one being edited |
| `AdminTable.AdminDashboard.Delete` | app/admin/page.tsx:126-147 | nothing is sent unless confirmed; a confirmed delete with an ok response replaces `data` by `WithoutId`; a failed response, or a null entry making the filter throw, leaves `data` unchanged |
| `AdminTable.AdminDashboard.Save` | app/admin/page.tsx:149-183 | sends `Payload(item)`; on a returned row replaces the rows with the item's id by `FromServer` of it and ends editing; a failed request, or a null entry making the map throw, leaves `data` and the edited item unchanged |
| `NavigationSearch.FilterByTitle` | app/api/search/route.ts:16-18 | an order-preserving subsequence holding every copy of each entry whose lower-cased title contains the query and nothing else |
| `NavigationSearch.Search` | app/api/search/route.ts:11-18 | exactly the navigation entries whose lower-cased title contains the lower-cased query, in their original order, never more than five and never an entry outside the list |
| `NavigationSearch.EmptyQueryKeepsAll` | app/api/search/route.ts:16-18 | the empty query keeps every entry |
| `NavigationSearch.MissingQueryReturnsAll` | app/api/search/route.ts:3-13 | without `q`, all five entries are returned |
| `NavigationSearch.SearchIgnoresCase` | app/api/search/route.ts:13 | two queries equal once lower-cased give the same results |
| `NavigationSearch.LowerQuerySameResults` | app/api/search/route.ts:13-17 | lower-casing the query does not change the results |
| `AdminGuard.Middleware` | middleware.ts:5-32 | paths not starting with `/admin` pass; an admin path without a non-empty cookie is redirected; an admin path passes exactly when the lookup gives a user with `isAdmin`; a lookup error is redirected; every redirect targets `/` |
| `AdminGuard.MatchedPathsGuarded` | middleware.ts:34-36 | every path the matcher selects is guarded: it passes exactly for a signed-in admin |

## Left out

- The classification service (prompt, Gemini client, `generateContent`) and the base64 file reading are foreign calls. Each attempt's outcome is an input.
- `JSON.parse` and the JavaScript `String`/`Number` coercions are left out. Their combined output is the `parse` parameter's `Parsed` value.
- The outer catch of `handleVerify` (app/report/page.tsx:238-241) is left out. Only the SDK's client construction could reach it.
- Toasts, `console` logging, `toast.dismiss` and the 2-second `setTimeout` delay before a retry are UI and timing. The model runs the retry with no delay.
- Retries run without user input in between. In the source, a scheduled retry re-runs the `handleVerify` of the render that started the chain, so it captured that render's form and file. The model does not capture edits made during the wait.
- The browser's `required` check on the form inputs (app/report/page.tsx:405-445) is left out. `ReportPage.Submit` models `handleSubmit` once the form has been submitted, so it also admits an empty location, which the browser would have blocked.
- The `isSubmitting` flag is left out because it is only UI state. So are the form edits (`handleInputChange`, the Google Maps search box `onPlacesChanged`).
- The mount effect's user lookup and creation, the loading of recent reports and the redirect to `/login` are left out. `ReportPage.constructor` takes their results.
- `JSON.stringify` of the verification result is left out. The create request carries the classification itself.
- `JsString.Lower`: maps only the ASCII letters A-Z, while JavaScript's `toLowerCase` lower-cases every Unicode letter. This weakens `ReportVerification.IsNoWaste`, `AdminTable.FilteredData` and `NavigationSearch.Search` for non-ASCII text.
- Strings are sequences of Unicode scalar values, not UTF-16 code units: a character outside the Basic Multilingual Plane is one `char`, and a lone surrogate cannot be represented.
- `ReportVerification.Confidence`: the confidence is a mathematical real, not an IEEE double. `-0` is treated like 0.
- `AdminTable.StrictEquals`: numbers are compared by their JavaScript rendering, and objects never compare equal. JavaScript compares objects by reference, and `handleDelete` and `handleSave` compare a row's id with that same row's id, so an object-valued id would match its own row there. Ids are numbers (`handleDelete(id: number)`, app/admin/page.tsx:126), so that case is not modelled.
- `AdminTable.FromServer`: a `createAt` key set to `undefined` is modelled as an absent key. The two behave alike in every operation modelled here.
- `fetchTableData`, the table selection and the search-box setter are left out. The constructor takes the loaded `data`.
- `handlePrint`, the Blob and download anchor of `handleExport`, and the `confirm` dialog are left out. The dialog's answer is an input of `Delete`.
- The admin page's own client-side admin check (app/admin/page.tsx:81-101) is left out. It repeats the middleware's decision with `router.push`.
- Creating the redirect URL from `request.url` is left out. A redirect carries only its same-origin path.
- components/Header.tsx, app/layout.tsx, app/settings/page.tsx, contexts/AudioContext.tsx, the sidebars, app/login/page.tsx, utils/db/dbConfig.jsx and the admin API routes are not part of this model. They are rendering, authentication, polling and database plumbing.
