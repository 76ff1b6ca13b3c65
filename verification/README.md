# Cold email generator: batch bookkeeping and the generation endpoint

A Dafny model of the logic at the centre of the cold-email generator. The
generator writes research-assistant application emails to lab websites, one
email per lab. It has two parts.

- **The browser client** (`public/script.js`). It holds one to five
  lab-website inputs and collects the non-blank URLs. It checks that the
  required personal fields are filled and removes duplicate labs by a
  normalised URL key (lower-cased host plus path, or the whole lower-cased
  URL when it does not parse). It then asks the server for one email per
  remaining lab, one call at a time, and classifies the run. The run's
  slots can be retried, copied and saved one by one. Saved emails go to a
  newest-first history capped at 50 entries. Templates and history entries
  are deleted by id.
- **The server's `POST /api/generate-email` handler** (`server.js`). It
  checks six required fields and builds the provider's workflow payload,
  where missing optional fields become empty strings. It then either
  answers with a fixed mock email (development mode) or calls the
  provider. A provider response is unwrapped into the email through a
  chain of fall-backs. Errors are mapped to an HTTP status and a message.

Modules, one per file:

| file | module | what it holds |
|---|---|---|
| wrappers.dfy | `Wrappers` | `Option` and `Result` |
| seqs.dfy | `Seqs` | subsequences and `filter`, with their laws |
| text.dfy | `Text` | `trim`, ASCII `toLowerCase`, `join`, decimal rendering of numbers |
| json.dfy | `JsonValues` | JSON values with JavaScript truthiness, property reads, `\|\|` and string conversion |
| urls.dfy | `Urls` | `normalizeUrl` and `shortenUrl` over an uninterpreted URL parser |
| labs.dfy | `Labs` | the bounded lab counter and `getLabWebsites` |
| dedup.dfy | `Dedup` | `removeDuplicateWebsites` and its first-occurrence reference |
| batch.dfy | `Batch` | validation, the batch loop and the classification of a run (`generateEmail`) |
| history.dfy | `History` | the capped history, saving a run, and deletion by id |
| slots.dfy | `Slots` | retry, copy and save of one slot, as written and aligned |
| server.dfy | `Server` | the `/api/generate-email` handler |

Some external behaviour is passed in as a parameter and never interpreted:

- the WHATWG URL parser (`Urls.UrlParser`: the hostname and pathname, or failure);
- the client's call to the endpoint (`Batch.Generator`: the email, or the message of the thrown error);
- the provider call (`Server.Upstream`: the response body, or an axios-style failure);
- `JSON.parse` (`Server.JsonParser`: `None` when it throws);
- the contents of the form inputs (`field` in `Labs.GetLabWebsites`);
- the fresh history ids (`freshId` in `History.SaveAllToHistory`).

## Model

| member | source | states |
|---|---|---|
| Seqs.Filter | public/script.js:273-274 | the filtered list is a subsequence of the input that holds exactly the elements that pass the test |
| Seqs.FilterMembers | public/script.js:195 | the filtered list holds exactly the elements of the input that pass the test |
| Seqs.FilterPartition | public/script.js:273-274 | when every element passes exactly one of two tests, the two filtered lists together are as long as the list, so successes plus errors count every result |
| Seqs.FilterEmpty | public/script.js:276-280 | a filtered list is empty exactly when no element passes the test |
| Seqs.FilterIdempotent | public/script.js:497 | filtering an already filtered list changes nothing |
| Seqs.FilterKeepsAll | public/script.js:252 | filtering leaves a list unchanged exactly when every element passes |
| Seqs.SubsequencePrefix | public/script.js:796-799 | a prefix of a subsequence is still a subsequence, so capping a filtered list keeps it a subsequence |
| Text.Trim | public/script.js:156-158 | the trimmed text is the slice of the input between its leading and trailing white space, its ends are not white space, and it is empty exactly when the input is all white space |
| Text.Lower | public/script.js:306-309 | lower-casing keeps the length and maps each character; the result has no upper-case letter |
| Text.LowerAppend | public/script.js:307 | lower-casing host and path separately equals lower-casing their concatenation |
| Text.LowerIdempotent | public/script.js:304-311 | lower-casing a lower-cased text changes nothing |
| Text.Join | server.js:49 | joining no names gives the empty text; joining one name gives that name; otherwise the text starts with the first name |
| Text.JoinSnoc | server.js:49 | joining one more name appends the separator and that name, so every name appears, in order, between separators |
| Text.JoinSplitRoundTrip | server.js:49 | cutting a joined text at the separators gives back the joined names, when no name contains the separator's first character |
| Text.NatToStringRoundTrip | server.js:71-90 | a natural number interpolated into the mock email is written in decimal digits that read back as the same number (exact digits; see Left out for magnitudes above 2^53) |
| Text.IntToString | server.js:71-90 | `String(n)` of an integer is the canonical decimal: digits denoting `n` when `n` is not negative, and `-` followed by digits denoting `-n` otherwise, never empty and with no leading zero except `"0"` itself |
| JsonValues.Get | server.js:44 | definition: a property read yields the field's value when the value is an object with that key and `undefined` otherwise; used by every field read below |
| JsonValues.Truthy | server.js:44 | the truthiness that decides every required-field check and every `\|\|`: `null`, `false`, `0` and `""` are falsy, arrays and objects truthy |
| JsonValues.FalsyValues | server.js:44 | exactly four JSON values are falsy: `null`, `false`, `0` and `""` |
| JsonValues.Or | server.js:61-63 | `a \|\| b` is `a` when `a` is truthy and `b` otherwise, and it is truthy when either operand is |
| JsonValues.ToText | server.js:71-90 | string conversion in a template literal: `null` is `"null"`, booleans are `"true"`/`"false"`, a number is its canonical decimal, a string stays as it is, an object is `"[object Object]"` unless it has its own `toString` key (then it fails), and an array fails exactly when one of its elements fails |
| JsonValues.StringArrayText | server.js:82 | an array of strings converts to its strings joined with commas |
| JsonValues.SkillListText | server.js:82 | `${["Python", "ML"]}` is `"Python,ML"`, so an array-valued field still yields a mock email |
| Urls.NormalizeUrl | public/script.js:304-311 | the key is lower case; it is the lower-cased hostname plus pathname when the URL parses, and the lower-cased URL when it does not; it never fails |
| Urls.UnparsedKeysIgnoreCase | public/script.js:308-310 | two unparsable URLs that differ only in letter case get the same key |
| Urls.ParsedKeysIgnoreCase | public/script.js:305-307 | two parsed URLs whose hostnames and pathnames differ only in letter case get the same key |
| Urls.ShortenUrl | public/script.js:324-331 | a parsed URL shows as its hostname; an unparsable one is kept when it has at most 30 characters and otherwise cut to its first 30 characters plus `...` |
| Labs.AddLabWebsite | public/script.js:82-112 | adding does nothing once the counter is 5 or more; below that it appends one empty input and bumps the counter; either way it keeps the counter between 1 and 5 and equal to the number of inputs |
| Labs.RemoveLabWebsite | public/script.js:114-135 | removing input k drops exactly that input and keeps the others in order; renumbering sets the counter to the number of inputs left, which stays within 1..5 when the remove buttons were shown |
| Labs.RemoveButtonsShown | public/script.js:145-150 | the remove buttons are displayed only while more than one lab input is present |
| Labs.ActionsKeepConsistent | public/script.js:82-150 | any sequence of adds and of removes through the shown buttons keeps the counter within 1..5 and equal to the number of inputs |
| Labs.InitialFormConsistent | public/script.js:82-150 | the page starts consistent with its only remove button hidden, so every page reachable by clicks is consistent |
| Labs.GetLabWebsites | public/script.js:152-164 | each returned URL is the trimmed, non-blank value of its input; positions lie in 1..labCount and strictly increase; every non-blank input is returned |
| Labs.InputsMatchCounter | public/script.js:152-155 | on a consistent page the positions 1..labCount are exactly the inputs present, so the collection reads every input and nothing else |
| Dedup.RemoveDuplicateWebsites | public/script.js:292-302 | the seen-set loop returns the first occurrence of each key: a subsequence of the input, no longer than it, with pairwise distinct keys, covering every key of the input and keeping every first occurrence |
| Dedup.FirstOccurrencesStep | public/script.js:295-300 | one loop step adds the target exactly when its key has not been seen, and adds its key to the seen set |
| Dedup.FirstOccurrencesSubsequence | public/script.js:294 | the de-duplicated list keeps the input's order |
| Dedup.FirstOccurrencesKeys | public/script.js:292-302 | de-duplication loses no key |
| Dedup.FirstOccurrencesDistinct | public/script.js:296-298 | no two kept targets share a key |
| Dedup.FirstOccurrencesKeepFirsts | public/script.js:292-302 | every target whose key did not occur earlier is kept |
| Batch.MissingPersonalFields | public/script.js:194-195 | the missing list is exactly the required personal fields left blank, in declared order |
| Batch.RequestFor | public/script.js:228-231 | the request carries the lab website and every personal field unchanged |
| Batch.Attempt | public/script.js:243-266 | a slot keeps its lab and request; it succeeds exactly when the call did, with the email on success and the error message on failure |
| Batch.RunBatch | public/script.js:219-268 | each target gets exactly one request, one progress line and one slot, in order, whatever happened to the others; slot i succeeds exactly when call i did; `lastGeneratedEmails` is the success-filtered results |
| Batch.Classify | public/script.js:273-282 | the run is all-succeeded when no slot failed, all-failed when there are slots and none succeeded, and mixed exactly when both kinds occur; the counts reported are the numbers of successful and of failed slots, and they add up to the number of slots |
| Batch.GenerateEmail | public/script.js:189-290 | a blank required field, then an empty lab list, stops the submission before any call; otherwise the first occurrences are generated in order with one progress line each, the removed count is the input length minus the de-duplicated length, and the run is classified |
| History.SaveHistory | public/script.js:794-806 | the saved history keeps at most 50 entries and is a prefix of the list before saving |
| History.SaveHistoryIdempotent | public/script.js:796-799 | capping twice is the same as capping once |
| History.SaveEntry | public/script.js:552-553 | the new entry goes first, followed by the old history in order, cut so that the total is the old length plus one but at most 50 |
| History.UnshiftEach | public/script.js:509-513 | unshifting entries one by one puts them in reverse order in front of the old history |
| History.CappedUnshift | public/script.js:509-515 | capping the unshifted history at 50 keeps the reversed new entries first and the old entries after them, in order |
| History.SaveAllToHistory | public/script.js:496-526 | with no successful email nothing changes; otherwise the successful entries come first, newest first, followed by the old history, capped at 50 |
| History.WithoutHistoryId | public/script.js:736 | the filtered history is a subsequence with no entry of that id that keeps every entry of another id, and its length plus the number of entries with the id is the old length, so each kept entry keeps its multiplicity |
| History.DeleteHistoryItem | public/script.js:731-740 | an unconfirmed delete changes nothing; a confirmed one is exactly the first min(50, n) entries of the filtered history, n being its length, so it removes every entry with the id and keeps the others in order up to the cap, also when the loaded history held more than 50 |
| History.DeleteTemplate | public/script.js:720-729 | an unconfirmed delete changes nothing; a confirmed one removes exactly the templates with the id and keeps the others in order, each as often as before (its length plus the number of templates with the id is the old length) |
| Slots.RetryAsWritten | public/script.js:567-636 | an index out of range changes nothing; a successful retry changes only that entry's email and status, keeping its lab and request; a failed retry leaves the list untouched |
| Slots.AlignedOnlyWithoutFailures | public/script.js:252 | `lastGeneratedEmails` equals the results exactly when no call of the run failed |
| Slots.RetryAsWrittenKeepsSuccesses | public/script.js:593-600 | a retry keeps an all-successful `lastGeneratedEmails` all-successful |
| Slots.MisalignedSlotsCounterexample | public/script.js:375-424 | for a run whose first call fails and whose second succeeds, retrying slot 0 resends lab B's request, and copying or saving slot 1 does nothing |
| Slots.RetryRequest | public/script.js:567-589 | a retry sends the stored request of the slot at the position, nothing when there is no such slot; on a well-formed slot that request names the slot's own lab |
| Slots.RetrySlot | public/script.js:593-600 | the aligned retry changes only slot i; the slot keeps its lab and request and succeeds exactly when the new call does; every well-formed slot stays well-formed |
| Slots.CopySingle | public/script.js:528-538 | the copied text is the email of the slot at the position, only when that slot exists and succeeded; a well-formed successful slot always yields its email |
| Slots.SaveSingle | public/script.js:540-565 | saving puts the entry for the slot at the position first when that slot exists and succeeded, followed by the old history cut to at most 50 in all, and changes nothing otherwise |
| Slots.AlignedActionsReachTheirSlot | public/script.js:375-424 | addressed to the run, a retry resends the clicked slot's own request, and copy and save act exactly when the clicked slot succeeded, with its email and its lab |
| Slots.AlignedSlotsOnCounterexample | public/script.js:375-424 | on the same run, the aligned retry of slot 0 asks for lab A and the aligned copy of slot 1 yields lab B's email |
| Slots.RetrySlotKeepsLabs | public/script.js:593-598 | a retry keeps every slot of the run addressed to the same lab |
| Slots.SaveAllUnaffected | public/script.js:496-497 | "save all" filters a list that is already success-only, so the misalignment does not affect it |
| Server.MissingFields | server.js:43-44 | the missing list is exactly the six required fields whose value is absent or falsy, in declared order |
| Server.MissingFieldsMessage | server.js:46-51 | the error text starts with `Missing required fields: ` and, for one missing field, names exactly that field |
| Server.MissingFieldsMessageRoundTrip | server.js:44-49 | the 400 message names exactly the missing fields, in order: cutting what follows the prefix at `, ` gives them back |
| Server.MissingFieldsMessageInjective | server.js:44-49 | different lists of missing fields give different messages |
| Server.RequiredPresent | server.js:43-47 | once the check passes, every required field is present and truthy |
| Server.BuildPayload | server.js:54-64 | the six required values are copied as they are; each optional value is kept when truthy and becomes `""` otherwise |
| Server.MockMode | server.js:69 | definition of the mock-mode condition: `NODE_ENV` is `development` and `COZE_API_WORKING` is unset or empty; the handler branches on it, and Server.MockModeIgnoresProvider and Server.ProviderOutsideMockMode state what it decides |
| Server.Section | server.js:82 | an optional section is empty when its value is falsy; otherwise it starts with its heading and is missing exactly when the value cannot be converted |
| Server.MockEmail | server.js:71-90 | the mock email starts with the subject line and ends with the three optional sections, the closing, the applicant's name and the footer; it exists exactly when every interpolated value converts to a string |
| Server.ExtractEmail | server.js:133-151 | the email is always truthy: the parsed `output` when `data.data` parses to a value with a truthy `output`, the default when it parses without one, the fall-back chain when parsing throws, else `output`, else `result`, else the default |
| Server.FallbackEmail | server.js:145 | the fall-back is always truthy: `data.data` when it is truthy, else `output`, else `result`, else the default; as it only runs when `data.data` is truthy, it always yields `data.data` |
| Server.FailureReply | server.js:159-184 | an error response keeps its status and reports its `message`, else `error`, else the default; no response gives 500 with the connectivity message; anything else gives 500 with the error's message; never a success |
| Server.HandleGenerateEmail | server.js:28-185 | missing fields give 400 without a provider call; the provider is called once, with the built payload, exactly when the check passes outside mock mode; a reply succeeds exactly when the mock email can be built or the call succeeds, and then has status 200 and a truthy email |
| Server.MockModeIgnoresProvider | server.js:69-111 | in mock mode the provider is never called and the reply depends on neither the provider nor `JSON.parse` |
| Server.ProviderOutsideMockMode | server.js:69-130 | outside development, or with `COZE_API_WORKING` non-empty, a valid request is always sent to the provider with the built payload |
| Server.RejectionIgnoresMode | server.js:46-51 | a rejected request gets the same 400 reply whatever `NODE_ENV` and `COZE_API_WORKING` hold |

## Left out

- The DOM and rendering are not modelled: `displayEmailResults`, `createEmailResultItem`, `showMessage`, `showLoading`, `updateLabControls`, `switchTab`, the history and template lists, and the UI half of `retrySingleEmail`. The model keeps only the position each slot's buttons carry (public/script.js:375-424).
- `fetch`, `axios`, Express routing and middleware, CORS, static files, `/api/health`, `app.listen`, the start-up environment checks and `process.exit` are not modelled. These are I/O and plumbing, so the generation call and the provider call are parameters.
- `localStorage`, the clipboard, `confirm` (a boolean parameter here) and the `setTimeout` delay of the mock branch are browser or runtime side effects and are not modelled.
- The internals of the URL parser and of `JSON.parse` are not modelled. Both are uninterpreted partial functions.
- Timestamps, the `Date.now`/`Math.random` ids, `formatDate` and `escapeHtml` are not modelled. History ids come from a parameter.
- The progress-bar percentage is not modelled because it is floating-point display. The progress line's counter, total and shortened lab are kept.
- `getPersonalInfoData`/`getFormData` are not modelled, since they read the DOM. The model starts from the trimmed form data they return.
- `copyAllEmails`, `saveTemplate`, `loadTemplate`, `clearAllTemplates`, `clearAllHistory`, `loadHistoryTemplate`, `copyHistoryEmail` and the single-email `copyEmail`/`saveToHistory`/`displayEmailResult` are outside the modelled core.
- Batch.RunBatch: each handler is modelled as running to completion, with no other handler running during its `await`s. The page has no re-entrancy guard: the submit listener (public/script.js:32-35) calls `generateEmail` unguarded, and the form stays enabled during a run. A second submission during a batch resets `lastGeneratedEmails` (line 219), and the first run's loop then pushes its successes into the new list (line 252). So `lastGenerated == Successful(results)` holds only for runs that do not overlap.
- Slots.RetryAsWritten: the same assumption. A retry waiting at public/script.js:583 writes its slot at line 595 into whichever list is current when it resumes, and that list may belong to a later run. Overlapping retries and batches are not modelled.
- JsonValues.Json: numbers are unbounded integers. JavaScript numbers are doubles: fractions are not modelled, integers beyond 2^53 in magnitude are not rounded to the nearest double as JavaScript rounds them, and the exponent notation it uses for magnitudes of 10^21 and above is not modelled.
- Text.IntToString: prints the exact decimal digits of the integer. For a magnitude above 2^53, JavaScript prints the digits of the nearest double instead (`${2**64}` is "18446744073709552000"), so the model agrees with the source only up to 2^53.
- Text.NatToStringRoundTrip: the round trip holds for the exact digits the model prints. For a JavaScript number above 2^53 the printed digits denote the rounded double, not the original integer.
- Text.Lower: lower-casing is ASCII-only. URL hostnames and pathnames are ASCII after WHATWG parsing, but an unparsable URL with non-ASCII capitals keeps them in the key.
- Urls.ShortenUrl: lengths count characters, whereas JavaScript counts UTF-16 code units, so texts outside the Basic Multilingual Plane cut differently.
- Server.HandleGenerateEmail: the success email is whatever JSON value the provider's field held, not necessarily a string. The code forwards that value unchanged, so a "string email" promise holds only for the default and mock texts. The reply's `timestamp` is not modelled.
- Slots.RetrySlot: a failed aligned retry records the new error message on the slot, as the page displays it. The code leaves the in-memory entry untouched, and `Slots.RetryAsWritten` models that.

## Findings

| source | as written | input that shows it | evidently intended | confidence | as-written member | corrected member |
|---|---|---|---|---|---|---|
| public/script.js:252, 375-424, 529, 541, 568 | the Retry, Copy and Save buttons carry the slot's position in the full results, but the handlers look that position up in `lastGeneratedEmails`, which holds only the successful results | two labs where the call for lab A fails and the call for lab B succeeds: Retry on slot 0 regenerates lab B's email, and Copy and Save on slot 1 find no entry and do nothing | each button acts on the slot it is shown on, so retry resends that slot's own request and copy/save use that slot's email | not executed | Slots.MisalignedSlotsCounterexample | Slots.RetrySlot |

`Slots.RetryRequest`, `Slots.CopySingle` and `Slots.SaveSingle` are each defined once, over a list of slots and a position. The code applies them to `lastGeneratedEmails`, which is `Batch.Successful(results)`. The aligned reading applies them to the results themselves, where `Slots.AlignedActionsReachTheirSlot` holds. The retry's update exists in both forms: `Slots.RetryAsWritten` and `Slots.RetrySlot`.
