# HCM church site: a Dafny model of the server core

This project models the request-handling core of the HCM church web site. The site is an Express server over MongoDB, with Supabase for sign-in and file storage and Flutterwave for payments. The admin pages use a browser-side file uploader. The model covers these parts:

- the two authentication middlewares (`verifyAdmin`, `verifyUser`);
- the central error handler;
- the pagination helpers;
- HTML escaping;
- the routes for testimonials, sermons, events and site settings;
- the donation state machine (initialize, webhook, verify);
- the storage upload routes;
- the CORS and path-skipping rules of the server entry point;
- the client-side `FileUploader`.

Each source file becomes one module:

- `js.dfy` holds JavaScript values, truthiness and `||`.
- `strings.dfy` holds the string operations the code relies on (`split`, `join`, `trim`, `startsWith`, decimal printing).
- `collection.dfy` holds a MongoDB collection: a `Store` class with documents in natural order, plus `find`, `sort`, `$set` and `$inc`.

Every handler is modelled after its middlewares have admitted the request. Things outside the server become parameters of the operation that uses them:

- the clock;
- the random suffixes;
- the Supabase user lookup and storage;
- the Flutterwave gateway;
- the HMAC digest;
- the date parser;
- the validators' verdict;
- the DOMPurify sanitiser.

Collections whose handlers update documents in place are instances of the class `Collection.Store`, and so are the donations (`Donations.DonationStore`). Each handler method states its whole new state. It is proved against pure transition functions, and lemmas about those functions prove the invariants and the lifecycle properties.

## Model

| member | source | states |
|---|---|---|
| Strings.TrimStart | server/index.js:46 | the result is a suffix of the input, all removed characters are white space, and the first kept character is not |
| Strings.TrimEnd | server/index.js:46 | the result is a prefix of the input, all removed characters are white space, and the last kept character is not |
| Strings.TrimIdentity | server/index.js:46 | a string with no white space at either end is its own trim |
| Strings.TrimTrimmed | server/index.js:46 | a trimmed string has no white space at either end |
| Strings.Split | server/index.js:46 | `split(sep)` gives at least one piece, and no piece contains the separator |
| Strings.JoinSplit | server/index.js:46 | joining the pieces of a split with the separator gives back the string |
| Strings.SplitJoin | server/index.js:46 | splitting the join of a non-empty list of separator-free pieces gives back the pieces |
| Strings.IndexOf | server/middleware/auth.js:12 | the first index of a character, or the length when it is absent |
| Strings.NatToDecimal | server/routes/donations.js:62 | the decimal form of a timestamp is a non-empty digit string |
| Strings.DecimalRoundTrip | server/routes/donations.js:62 | reading back the decimal form gives the number |
| Strings.NatToDecimalInjective | server/routes/donations.js:62 | different numbers print differently |
| Pagination.ParsePagination | server/utils/pagination.js:14-39 | a page of at least 1 is kept, else the default is used; a limit of at least 1 is kept, else the default, then capped at `maxLimit`; `skip == (page - 1) * limit`; with sane options page ≥ 1, 1 ≤ limit ≤ maxLimit and skip is a whole number of pages |
| Pagination.PageCount | server/utils/pagination.js:49 | `Math.ceil(total / limit)`: the least page count whose pages hold all the items |
| Pagination.CreatePaginationMeta | server/utils/pagination.js:48-61 | echoes page, limit and total; totalPages is the ceiling; `hasNextPage` iff page < totalPages and `hasPrevPage` iff page > 1, with nextPage and prevPage set exactly then |
| Pagination.Paginate | server/routes/sermons.js:20-24 | `skip(skip).limit(limit)`: at most `limit` items, and item `i` of the page is item `skip + i` |
| Pagination.CreatePaginatedResponse | server/utils/pagination.js:69-74 | the response carries exactly the data and the metadata given |
| Pagination.PageNonEmpty | server/utils/pagination.js:36-58 | a page holds items exactly when its number is at most totalPages |
| Pagination.NextPageMeansMoreItems | server/utils/pagination.js:56-58 | `hasNextPage` holds exactly when items remain after this page |
| Sanitize.EscapeChar | server/utils/sanitize.js:56-64 | each of the five special characters becomes an entity `&…;`, and any other character is kept |
| Sanitize.Escape | server/utils/sanitize.js:64 | the escaped text contains none of `< > " '`; it is never shorter, and it is the same length exactly when no special character occurs |
| Sanitize.EscapeHtml | server/utils/sanitize.js:51-65 | anything but a string gives `''`, a string gives its escape |
| Sanitize.SanitizeText | server/utils/sanitize.js:38-44 | a missing, empty or non-string value gives `''`; otherwise the sanitiser's result |
| Sanitize.EscapeAppend | server/utils/sanitize.js:64 | escaping distributes over concatenation |
| Sanitize.EscapePlain | server/utils/sanitize.js:64 | text without special characters is unchanged |
| Sanitize.UnescapeHead | server/utils/sanitize.js:56-62 | decoding undoes the entity of one leading character |
| Sanitize.UnescapeEscape | server/utils/sanitize.js:51-65 | decoding the escaped text gives back the text: escaping is injective |
| Auth.Token | server/middleware/auth.js:12 | `split(' ')[1]` of a bearer header contains no space |
| Auth.TokenAfterPrefix | server/middleware/auth.js:12 | for `Bearer t` and for `Bearer t rest`, the token is exactly `t` |
| Auth.VerifyAdmin | server/middleware/auth.js:4-39 | no bearer header gives 401; the provider errs or finds no user gives 401; a throw gives 500; a role in `app_metadata` other than admin gives 403 with a hint; it admits exactly when the header is a bearer and the provider vouches for an admin |
| Auth.VerifyUser | server/middleware/auth.js:42-66 | the same chain with its own messages; it admits exactly when the provider vouches for the token's user |
| Auth.HeaderCheckedBeforeProvider | server/middleware/auth.js:8-10 | without a bearer header the provider is never consulted |
| Auth.ProviderAskedAboutTokenOnly | server/middleware/auth.js:12-15 | the decision depends on the provider's answer about the token only |
| Auth.UserMetadataIgnored | server/middleware/auth.js:24-30 | a forged `user_metadata` role changes nothing: a non-admin stays 403 |
| Auth.AdminIsUser | server/middleware/auth.js:4-66 | whoever `verifyAdmin` admits, `verifyUser` admits as the same user |
| Auth.NonAdminForbidden | server/middleware/auth.js:24-30 | an authenticated non-admin is refused by `verifyAdmin` with 403 but admitted by `verifyUser` |
| Auth.Exchange.Apply | server/middleware/auth.js:33-34 | admitting sets `req.user` and calls `next` once; denying sends the response and leaves `req.user` and `next` alone |
| Auth.Exchange.RunVerifyAdmin | server/middleware/auth.js:4-39 | the request and response objects after `verifyAdmin` |
| Auth.Exchange.RunVerifyUser | server/middleware/auth.js:42-66 | the request and response objects after `verifyUser` |
| Auth.AdminMiddlewareOnce | server/middleware/auth.js:33-38 | `next` is called once exactly when the request is admitted, and otherwise exactly one response is sent |
| ErrorHandler.Fallback | server/middleware/errorHandler.js:60-65 | status is `statusCode`, else `status`, else 500; the message defaults to 'Internal server error'; the stack is sent exactly in development when there is one |
| ErrorHandler.Handle | server/middleware/errorHandler.js:4-65 | a duplicate key gives 400 'Duplicate entry'; a database outage gives 503; every answer is 400, 401 or 503, or else the fallback; a stack is only ever sent in development |
| ErrorHandler.FirstMatchNone | server/middleware/errorHandler.js:56-65 | when no rule of a table applies, the fallback answers |
| ErrorHandler.FirstMatchAt | server/middleware/errorHandler.js:9-53 | the earliest rule that applies answers |
| ErrorHandler.HandleIsFirstMatch | server/middleware/errorHandler.js:9-65 | the handler equals the first-match reading of its six rules in source order, with the catch-all last |
| ErrorHandler.DuplicateWins | server/middleware/errorHandler.js:9-14 | for a duplicate-key error, its name, message and status change nothing |
| ErrorHandler.NoRuleAppliesExactly | server/middleware/errorHandler.js:9-53 | no rule applies exactly when the error is none of the six kinds the handler tests |
| ErrorHandler.FirstRuleAnswers | server/middleware/errorHandler.js:9-53 | the handler answers as the first applicable rule does |
| ErrorHandler.OwnStatusOnlyAsFallback | server/middleware/errorHandler.js:60 | the error's own status is used exactly when no rule applies |
| ErrorHandler.StackOnlyInDevelopment | server/middleware/errorHandler.js:62-64 | the stack is sent exactly in development, for an error with a stack that no rule claims |
| Collection.Filter | server/routes/testimonials.js:33 | `find(query)` returns no more documents than the collection holds, and each one it returns matches |
| Collection.FilterCons | server/routes/testimonials.js:33 | the first document is kept exactly when it matches, ahead of the filtered rest |
| Collection.FilterOne | server/routes/testimonials.js:33 | a single document is returned exactly when it matches |
| Collection.FilterAppend | server/routes/testimonials.js:33 | `find` keeps the natural order: filtering a concatenation is the concatenation of the filtered parts |
| Collection.FilterSubMultiset | server/routes/testimonials.js:33 | each document is returned at most as often as the collection holds it |
| Collection.FilterKeepsMatches | server/routes/testimonials.js:33 | every matching document is returned |
| Collection.FilterAll | server/routes/sermons.js:20 | `find({})` returns every document |
| Collection.LexTotal | server/routes/testimonials.js:34 | the compound sort order is total |
| Collection.LexTransitive | server/routes/testimonials.js:34 | the compound sort order is transitive |
| Collection.InsertBy | server/routes/testimonials.js:34 | insertion adds exactly the one document |
| Collection.InsertBySorted | server/routes/testimonials.js:34 | insertion into a sorted sequence keeps it sorted |
| Collection.SortBy | server/routes/sermons.js:21 | `sort(key)` is a permutation of its input |
| Collection.SortBySorted | server/routes/sermons.js:21 | `sort(key)` returns the documents in key order |
| Collection.FindSorted | server/routes/testimonials.js:32-37 | `find(q).sort(k)` is a permutation of the matching documents, and each one matches |
| Collection.PageSorted | server/routes/testimonials.js:32-37 | each page of a sorted find is in key order |
| Collection.PageOfSorted | server/routes/testimonials.js:35-36 | `skip` and `limit` of a sorted sequence give a sorted sequence |
| Collection.DateKey | server/routes/events.js:41 | the sort key of one field has two parts: the type rank, then the time |
| Collection.DateOrder | server/routes/events.js:41 | dates sort by their time and after every value that is not a date, and the other values tie |
| Collection.Descending | server/routes/sermons.js:21 | a `-1` sort key negates each component |
| Collection.DescendingReverses | server/routes/sermons.js:21 | the descending key reverses the ascending order |
| Collection.SetFields | server/routes/sermons.js:187 | `$set` gives each field set its value and keeps every other field |
| Collection.Inc | server/routes/sermons.js:75 | `$inc`: a missing field becomes 1 and a number grows by 1; any other value makes the update fail; no other field changes |
| Collection.WithId | server/routes/sermons.js:98-104 | a sent document carries its `_id` |
| Collection.RemoveAt | server/routes/sermons.js:205 | removing one id from the natural order removes exactly that id and keeps the others distinct |
| Collection.Store.Rows | server/routes/sermons.js:20 | the documents in natural order, with their ids |
| Collection.Store.InsertOne | server/routes/sermons.js:173 | inserting under a new `_id` appends to the natural order; a used `_id` fails and changes nothing |
| Collection.Store.UpdateOne | server/routes/sermons.js:185-188 | `updateOne({_id}, {$set})` sets the fields of the matched document and reports whether one matched |
| Collection.Store.IncOne | server/routes/sermons.js:73-76 | `$inc` on the matched document; a non-numeric field is a failure that changes nothing |
| Collection.Store.DeleteOne | server/routes/sermons.js:205 | `deleteOne({_id})` reports whether the document existed; if so the natural order loses exactly that id at its position and the document is gone, otherwise nothing changes |
| Testimonials.AnyBearerIsAdmin | server/routes/testimonials.js:20-21 | any `Bearer …` header counts as an admin here, without checking the token |
| Testimonials.CallerIsAdmin | server/routes/testimonials.js:19-20 | no header is never an admin; an admin's header starts with `Bearer ` |
| Testimonials.ListQuery | server/routes/testimonials.js:23-25 | an admin's query matches everything; anyone else's matches only `approved === true`, not a truthy `"yes"` nor a missing field |
| Testimonials.List | server/routes/testimonials.js:10-51 | the pagination bounds, and one page of the filtered documents sorted newest first |
| Testimonials.PublicSeesApprovedOnly | server/routes/testimonials.js:23-26 | without a bearer header every listed testimonial has `approved === true` |
| Testimonials.AdminCountsAll | server/routes/testimonials.js:29 | with a bearer header the total counts every testimonial |
| Testimonials.ListNewestFirst | server/routes/testimonials.js:34 | each page is sorted by `date` and then `createdAt`, newest first |
| Testimonials.Get | server/routes/testimonials.js:54-80 | 200 exactly when the testimonial exists and the caller has a bearer header or it is approved (truthy); otherwise 404 |
| Testimonials.HiddenLooksMissing | server/routes/testimonials.js:66-71 | to the public, an unapproved testimonial is indistinguishable from a missing one |
| Testimonials.TruthyApprovalShownByGetOnly | server/routes/testimonials.js:20-71 | an `approved` of `"yes"` is shown by `GET /:id` but never listed |
| Testimonials.ApprovalOnCreate | server/routes/testimonials.js:136 | a public submission is unapproved; an admin's keeps its `approved`, defaulting to true |
| Testimonials.NewTestimonial | server/routes/testimonials.js:126-137 | the sanitized text under both `testimonial` and `text`, the approval, `createdAt`, and the rest of the body |
| Testimonials.PublicSubmissionHidden | server/routes/testimonials.js:131-137 | a public submission is neither shown nor listed |
| Testimonials.Create | server/routes/testimonials.js:110-143 | a rejected body gives 400 and stores nothing; otherwise the new testimonial is inserted and 201 is sent |
| Testimonials.Update | server/routes/testimonials.js:145-158 | 404 exactly for a missing id; otherwise `$set` of the body and `updatedAt` |
| Testimonials.Delete | server/routes/testimonials.js:160-170 | removes the document and its id at its place in the natural order, keeping the other ids in order; 404 exactly when it was missing, and then nothing changes |
| Sermons.DownloadName | server/routes/sermons.js:62-70 | the title with each alphanumeric character kept and every other character replaced by `_`, then the suffix |
| Sermons.IsRemote | server/routes/sermons.js:79 | a URL taken as remote starts with `http` and is at least as long as `http://` |
| Sermons.SelectFile | server/routes/sermons.js:62-70 | the audio or video file is chosen exactly when the type matches and its URL is truthy, with its download name; otherwise the file is unavailable |
| Sermons.Deliver | server/routes/sermons.js:79-86 | an `http(s)://` URL is redirected to, and anything else is served from the public directory |
| Sermons.CountedOnce | server/routes/sermons.js:73-76 | one counted download raises `downloads` by one and changes nothing else |
| Sermons.Download | server/routes/sermons.js:43-91 | a missing sermon gives 404; an unavailable file gives 404 and is not counted; otherwise the download is counted before delivery |
| Sermons.RecordDownload | server/routes/sermons.js:218-240 | counts a download of an existing sermon; 404 for a missing one |
| Sermons.NewSermon | server/routes/sermons.js:167-171 | a created sermon starts with `downloads: 0` and `createdAt` |
| Sermons.DownloadsCountDownloads | server/routes/sermons.js:167-171 | after creation and `n` counted downloads, `downloads == n` |
| Sermons.Create | server/routes/sermons.js:155-178 | 400 for a rejected body; otherwise the new sermon is inserted |
| Sermons.Get | server/routes/sermons.js:94-115 | 200 with the sermon exactly when it exists, else 404 |
| Sermons.List | server/routes/sermons.js:10-40 | one page of all sermons, latest date first; the total counts every sermon |
| Sermons.Update | server/routes/sermons.js:181-198 | 404 exactly for a missing id; otherwise `$set` of the body and `updatedAt` |
| Sermons.Delete | server/routes/sermons.js:201-215 | removes the document and its id at its place in the natural order, keeping the other ids in order; 404 exactly when it was missing, and then nothing changes |
| Events.UpcomingQuery | server/routes/events.js:27-33 | only date values match; a date at the start of today matches and one a millisecond earlier does not |
| Events.ListQuery | server/routes/events.js:27-36 | `upcoming=true` selects exactly the events dated today or later; anything else selects every event |
| Events.List | server/routes/events.js:11-59 | the pagination bounds, and one page of the selected events sorted by date ascending |
| Events.UpcomingOnly | server/routes/events.js:27-33 | with `upcoming=true`, each listed event is dated today or later |
| Events.OtherwiseAll | server/routes/events.js:27-36 | without `upcoming=true` every event is counted |
| Events.ListSoonestFirst | server/routes/events.js:41 | each page is in ascending date order |
| Events.CoerceDate | server/routes/events.js:345-357 | a date that parses is stored as a date, one that does not is dropped, and all other fields are kept |
| Events.CreatedDateIsDate | server/routes/events.js:345-357 | a created event's `date` is absent or a date value |
| Events.Create | server/routes/events.js:333-364 | 400 for a rejected body; otherwise the body with `createdAt` and the coerced date is inserted |
| Events.Update | server/routes/events.js:367-399 | 404 exactly for a missing id; otherwise `$set` of the coerced body with `updatedAt` |
| Events.UnparseableDateKeepsStored | server/routes/events.js:372-393 | an update whose date does not parse leaves the stored date untouched |
| Events.Delete | server/routes/events.js:402-417 | removes the document and its id at its place in the natural order, keeping the other ids in order; 404 exactly when it was missing, and then nothing changes |
| Events.Get | server/routes/events.js:277-302 | `seed` passes to the next route; an empty id gives 400; an invalid id gives 400 'Invalid ID format'; otherwise 200 or 404 |
| Events.SeedSkipsValidation | server/routes/events.js:279-281 | `seed` is neither validated nor looked up |
| Settings.Get | server/routes/settings.js:6-24 | the first settings document; when there is none, the defaults are stored and sent |
| Settings.GetTwice | server/routes/settings.js:9-20 | a second read answers as the first and stores nothing new |
| Settings.Put | server/routes/settings.js:26-38 | an upsert: merges the body and `updatedAt` into the first document, or inserts them when there is none |
| Settings.PutMerges | server/routes/settings.js:29-33 | after a write, the written fields and `updatedAt` are set and every other field is unchanged |
| Settings.PutThenGet | server/routes/settings.js:6-38 | a write followed by a read shows the written fields |
| Server.TrimAll | server/index.js:46 | each origin is trimmed, in order |
| Server.AllowedOrigins | server/index.js:45-47 | the comma-split, trimmed `ALLOWED_ORIGINS`, or the two local origins when it is unset or empty |
| Server.OriginsTrimmed | server/index.js:45-47 | no allowed origin has white space at either end or contains a comma |
| Server.OriginsRoundTrip | server/index.js:45-47 | writing a list of trimmed, comma-free origins into the variable gives back exactly that list |
| Server.CorsOrigin | server/index.js:50-60 | allowed exactly when there is no Origin header or it is in the list; otherwise 'Not allowed by CORS' |
| Server.CorsIgnoresMode | server/index.js:52-56 | `NODE_ENV` does not change the decision |
| Server.SkipsApiChecks | server/index.js:90-107 | `/webhook` and `/config` skip the database check and the public limiter, and nothing shorter than seven characters does |
| Server.SkipsDonationLimiter | server/index.js:120-124 | a path that skips the donation limiter also skips the `/api` checks once mounted under `/donations` |
| Server.WebhookAnywhereSkips | server/index.js:90-107 | any path containing `/webhook` skips the database check and the public limiter |
| Server.DonationWebhookUnchecked | server/index.js:90-124 | the donation webhook skips the database check and both limiters |
| Server.Config | server/index.js:75-87 | 200 with `supabaseUrl` and `supabaseKey`, each `''` when unset |
| Upload.StripTrailingSlashes | server/routes/upload.js:66 | the trailing slashes `path.basename` ignores |
| Upload.BaseName | server/routes/upload.js:66 | `path.basename`: a segment without `/` that ends the path |
| Upload.ExtOf | server/routes/upload.js:65 | `path.extname`: empty, or a dot and a dot-free tail that ends the base name |
| Upload.Stem | server/routes/upload.js:66 | the base name without its extension, which together with the extension makes the base name |
| Upload.MimePrefixesDisjoint | server/routes/upload.js:42-48 | no MIME type has two of the three media prefixes |
| Upload.ExtensionBucket | server/routes/upload.js:51-60 | the audio or video bucket exactly for the listed extensions, otherwise images |
| Upload.GetBucketForFile | server/routes/upload.js:41-61 | the MIME prefix decides the bucket first, then the lower-cased extension, and the default is images |
| Upload.CleanName | server/routes/upload.js:69 | letters lower-cased, digits kept, and every other character as `_` |
| Upload.CoreHasNoSeparators | server/routes/upload.js:70 | the part of a generated name between its prefix and its extension holds neither `.` nor `/` |
| Upload.BaseNameAfterFolder | server/routes/upload.js:93 | behind a folder prefix, the generated name is the last path segment |
| Upload.ExtOfAfterPlainHead | server/routes/upload.js:65-70 | the extension of dot-free text followed by an extension is that extension |
| Upload.GeneratedNameKeepsExtension | server/routes/upload.js:64-71 | a generated name keeps the original extension |
| Upload.GenerateFileName | server/routes/upload.js:64-71 | the name starts with the folder prefix, ends with the original extension, and has a body between them |
| Upload.ExtName | server/routes/upload.js:65 | `path.extname` of a path: empty, or a dot and a tail without `.` or `/` that ends the base name |
| Upload.FileFilter | server/routes/upload.js:26-37 | a rejection carries the invalid-type message |
| Upload.BucketExtensionsMentionTypes | server/routes/upload.js:26-56 | every extension in the bucket lists matches the type regex |
| Upload.BucketExtensionsAccepted | server/routes/upload.js:26-37 | a file with a bucket extension passes the filter whatever its MIME type |
| Upload.NoTokenLetters | server/routes/upload.js:28 | text without any of the letters `g j m o v w` does not match the regex |
| Upload.MentionsMediaType | server/routes/upload.js:28-30 | the type regex matches only text of at least three characters |
| Upload.SubstringMatchAccepts | server/routes/upload.js:28-33 | the test is unanchored: an extension that merely contains a token passes |
| Upload.NoTokenLettersRejected | server/routes/upload.js:28-36 | a file whose extension and MIME type avoid those letters is rejected |
| Upload.SingleTarget | server/routes/upload.js:87-93 | the given bucket or the chosen one, and the folder as a path prefix |
| Upload.UploadSingle | server/routes/upload.js:74-131 | no storage configured gives 500; no file gives 400; 200 exactly when storage writes the target, sending its URL, path and bucket |
| Upload.SinglePathKeepsExtension | server/routes/upload.js:93 | the object path keeps the original extension |
| Upload.MultipleTarget | server/routes/upload.js:151-152 | in a batch, the bucket is the folder when one is given, else the one chosen for the file |
| Upload.MultipleTargetRule | server/routes/upload.js:151-152 | in a batch, the folder replaces the bucket and also prefixes the path |
| Upload.FileOutcome | server/routes/upload.js:161-188 | a file's entry keeps its name and records success exactly when storage writes the batch target |
| Upload.FileOutcomeRule | server/routes/upload.js:161-188 | a file's entry records success with URL, path and bucket exactly when storage writes it |
| Upload.UploadOne | server/routes/upload.js:150-189 | the loop body computes the entry of one file |
| Upload.RecordOutcome | server/routes/upload.js:162-182 | appending the next file's entry keeps the results in file order |
| Upload.UploadMultiple | server/routes/upload.js:134-203 | 500 when not configured; 400 when there are no files; otherwise 200 with one entry per file, in order |
| Upload.FailureDoesNotStopBatch | server/routes/upload.js:161-168 | a failed file does not stop the files after it |
| Upload.DeleteFile | server/routes/upload.js:206-241 | 500 when not configured; 400 unless both bucket and path are given; 200 exactly when the removal succeeds |
| Upload.DeleteCheckedBeforeStorage | server/routes/upload.js:216-220 | without both arguments storage is never asked |
| Upload.SingleAndMultipleBucketsDiffer | server/routes/upload.js:90-151 | for every file, the single route uses the chosen bucket, and the batch route uses the same bucket exactly when there is no folder or the folder names that bucket |
| Donations.StatusName | server/routes/donations.js:79-196 | the three stored status words |
| Donations.FailureReason | server/routes/donations.js:198 | the processor's response, or 'Payment verification failed'; never empty |
| Donations.TxRef | server/routes/donations.js:62 | every reference starts with `hcm_` |
| Donations.DigitsThenUnderscore | server/routes/donations.js:62 | a digit string followed by `_` and a rest splits back uniquely |
| Donations.TxRefInjective | server/routes/donations.js:62 | two references are equal only for the same timestamp and suffix |
| Donations.NewDonation | server/routes/donations.js:68-82 | the pending record, with purpose 'General Offering', message '', isRecurring false and the currency from the environment or 'NGN' by default |
| Donations.Complete | server/routes/donations.js:174-188 | completed, with paid and verified times, the verified amount, currency (default 'NGN') and payment method (default 'unknown'); nothing else changes |
| Donations.Fail | server/routes/donations.js:116-119 | failed with the given reason; nothing else changes |
| Donations.InitRecords | server/routes/donations.js:84-121 | the pending record is added under its reference; a declining gateway marks that record failed; no other record changes |
| Donations.Matching | server/routes/donations.js:174-175 | `updateOne({ tx_ref: q })` writes the first record in natural order that `q` selects; no record when none is selected |
| Donations.StringRefSelectsItsRecord | server/routes/donations.js:174-175 | a string reference selects exactly the record stored under it, or none |
| Donations.OperatorRefHitsFirstRecord | server/routes/donations.js:158-201 | an event whose `tx_ref` is `{ "$ne": null }` and whose verification fails marks the first record in natural order failed, whatever its reference, and changes no other record |
| Donations.InitOrder | server/routes/donations.js:83 | a new reference is appended to the natural order; a reference already stored leaves it as it is |
| Donations.InitKeepsOrdered | server/routes/donations.js:62-121 | after initialization, the natural order still lists each stored reference once and nothing else |
| Donations.Successful | server/routes/donations.js:172 | a successful verification is an answer that has `data`, so reading its status cannot throw |
| Donations.IsChargeEvent | server/routes/donations.js:158 | an event that writes has an `event` string starting with `charge.completed` |
| Donations.Summary | server/routes/donations.js:294-300 | the reported record has four fields, with the stored reference as `tx_ref` and the status word of the stored status as `status` |
| Donations.HookOutcome | server/routes/donations.js:172-201 | completed exactly when verification succeeds, otherwise failed; the payment id is recorded either way |
| Donations.HookRecords | server/routes/donations.js:158-203 | only a charge event with data and a usable verification writes, and it writes only the record its reference matches |
| Donations.PollOutcome | server/routes/donations.js:229-290 | polling leaves a completed record, a record without a payment id, and a failed or broken verification alone; otherwise it completes or fails the record |
| Donations.PollRecords | server/routes/donations.js:243-290 | polling changes at most the polled record |
| Donations.PollResponse | server/routes/donations.js:229-301 | a completed record reports success with its date; a fresh completion reports the verified values; anything else reports 'pending' and the status read before the poll |
| Donations.InitKeepsConsistent | server/routes/donations.js:62-121 | initialization keeps every record under its own `hcm_` reference, completed ones timed and failed ones with a reason |
| Donations.HookKeepsConsistent | server/routes/donations.js:158-203 | the webhook keeps that invariant |
| Donations.PollKeepsConsistent | server/routes/donations.js:243-290 | polling keeps that invariant |
| Donations.DonationStore.Initialize | server/routes/donations.js:41-126 | 400 for a rejected body; 500 before any insert when keys are missing; otherwise the pending record is stored and then the gateway's answer gives the link (200), a failed record (400) or 500 |
| Donations.DonationStore.Webhook | server/routes/donations.js:130-210 | 500 without the secret key; the signature is checked only when both the hash and the header are present, and a mismatch gives 401 with no update; a non-charge event gives 200 and changes nothing; a charge event without `data`, with a throwing verification, or with success but no `data` gives 500 and changes nothing; status 200 exactly on the paths that reach the end; the natural order never changes |
| Donations.DonationStore.Charge | server/routes/donations.js:158-208 | a charge event with `data` and a usable verification answers 200 and writes what `HookRecords` says; a missing `data`, a throwing verification or a success without `data` answers 500 and writes nothing |
| Donations.DonationStore.Verify | server/routes/donations.js:213-306 | 500 without the key; 404 for an unknown reference; otherwise the poll's answer and writes |
| Donations.DonationStore.Poll | server/routes/donations.js:223-301 | for a stored reference, the answer is what `PollResponse` says of the record as read, and the records become what `PollRecords` says |
| Donations.PollReportsStatusAsRead | server/routes/donations.js:277-301 | a poll that marks a record failed still reports 'pending' and the old status |
| Donations.Apply | server/routes/donations.js:41-306 | only initialization changes the natural order, and it does so as `InitOrder` says |
| Donations.Run | server/routes/donations.js:41-306 | a sequence of requests without an initialization leaves the natural order unchanged |
| Donations.ApplyKeepsSound | server/routes/donations.js:41-306 | one request keeps the invariant and the natural order a listing of the records, keeps every record and only extends the order |
| Donations.RunKeepsConsistent | server/routes/donations.js:41-306 | every sequence of initialize, webhook and verify requests keeps the invariant and the natural order a listing of the records; it never removes a record, and the old order stays a prefix of the new one |
| Donations.PollsKeepCompleted | server/routes/donations.js:229-241 | however often it is polled, a completed record stays exactly as it was |
| Donations.HookOverwritesCompleted | server/routes/donations.js:172-201 | the webhook has no such guard: a failed verification turns a completed record into a failed one |
| Donations.MatchingSameRefs | server/routes/donations.js:174-175 | the query picks the same record in two collections with the same keys and the same references |
| Donations.HookOutcomeIdempotent | server/routes/donations.js:174-201 | writing the webhook outcome twice with the same payment, verification and time gives the outcome of one write |
| Donations.HookIdempotent | server/routes/donations.js:158-203 | the same event delivered twice at the same time leaves the records exactly as one delivery does |
| Donations.HookRestampsCompleted | server/routes/donations.js:174-188 | a successful event redelivered later keeps a completed record completed but sets `paidAt` and `verifiedAt` to the new time, so the record changes |
| Donations.HookCompletesFailed | server/routes/donations.js:172-188 | a successful event completes a failed record: failed is not a final state |
| Donations.PollCompletesFailed | server/routes/donations.js:243-262 | a poll completes a failed record with a payment id when the verification succeeds |
| Donations.NeverBackToPending | server/routes/donations.js:41-306 | no request turns a completed or failed record back into a pending one |
| Donations.RunNeverBackToPending | server/routes/donations.js:41-306 | no sequence of requests turns a completed or failed record back into a pending one |
| Donations.CompletionNeedsVerification | server/routes/donations.js:172-249 | across every sequence of initialize, webhook and verify requests, a record becomes completed only by a successful verification (by the webhook, or by a poll of a record with a payment id); never by initialization |
| FileUpload.EntryOf | public/admin/js/file-upload.js:122-126 | a batch entry carries the file's name and succeeds exactly for a resolved upload |
| FileUpload.FileUploader.constructor | public/admin/js/file-upload.js:3-18 | the defaults (`/api/upload`, 500 MiB, the sixteen media types) overridden by the options given |
| FileUpload.FileUploader.ValidateFile | public/admin/js/file-upload.js:26-38 | valid exactly when the size is at most `maxSize` and the type list is empty or holds the type; the size is checked first |
| FileUpload.FileUploader.RequestFor | public/admin/js/file-upload.js:52-105 | a request is sent exactly for a valid file with a stored token, with `Bearer <token>` and the folder only when it is truthy |
| FileUpload.FileUploader.UploadFile | public/admin/js/file-upload.js:50-113 | an invalid file is rejected with its reason; a missing token with 'Authentication required. Please log in.'; it resolves exactly when a request is sent and answered 200, with the server's body |
| FileUpload.FileUploader.UploadFiles | public/admin/js/file-upload.js:116-130 | exactly one entry per file, in order, each that file's own upload outcome |
| FileUpload.ValidationFirst | public/admin/js/file-upload.js:52 | an invalid file is rejected the same way whatever the token or the server, and nothing is sent |
| FileUpload.NoTokenNoRequest | public/admin/js/file-upload.js:60-63 | without a token nothing is sent and the server cannot matter |
| FileUpload.SizeBoundInclusive | public/admin/js/file-upload.js:28-30 | a file of exactly `maxSize` bytes passes the size check |
| FileUpload.SentHeaderIsBearer | public/admin/js/file-upload.js:104 | the header sent passes the server's bearer check, and the server reads back the stored token |
| FileUpload.HandleFiles | public/admin/js/file-upload.js:212-293 | with `maxFiles === 1`, several files are refused and nothing is uploaded; one file is a single upload with a progress callback installed; any other number is a batch |

## Left out

- I/O, concurrency and timing: `app.listen`, Helmet, compression, static serving, the startup timeout and the database connection are not modelled. Requests are sequential and atomic, so the race between a webhook and a poll on one reference is not modelled.
- Rate limiters (server/middleware/rateLimit.js): they are library configuration over time windows. Only the paths that skip them are modelled.
- The request validators (`express-validator`, including `.escape()` and `normalizeEmail`) become a single `valid` verdict, and the validated body is taken as given.
- `validateObjectId` and `ObjectId.isValid` are an abstract `validId` predicate. `checkDB` is not part of this model.
- Dates are not parsed: `new Date(...)` is an abstract partial function, and a date is its millisecond count. `toISOString` in the list and single-document GET routes is not modelled. The legacy `$toDate` normalisation of dates (server/routes/events.js:18-25) is left out.
- MongoDB ordering is simplified. It is modelled only for the keys the routes sort by: a date sorts after any other value, and other values tie. MongoDB fixes no order among documents with equal keys; the model picks one, and its contracts promise only a sorted permutation, so no claim is made about that order.
- A body containing `_id`, and the server's own errors on `$set` of `_id`, are not modelled. Database errors other than the duplicate `_id` on insert and a non-numeric `$inc` are not modelled either; the source answers those with 500.
- Collection.SetFields: a `$set` key with a dot, such as `socialLinks.facebook`, is written by MongoDB into the nested document `socialLinks`; here it becomes a top-level field of that literal name. Dotted paths are not modelled.
- Settings.PutMerges: for the same reason, a body such as `{"socialLinks.facebook": "u"}` changes the nested `socialLinks` in the server, where the model keeps `socialLinks` and adds a new field; "every other field unchanged" holds only for bodies without dotted keys.
- Testimonials.ListQuery: MongoDB's `{ approved: true }` also matches an array holding `true`, such as `approved: [true]`, which an admin can store; the model matches only the value `true` itself.
- Testimonials.PublicSeesApprovedOnly: for the same reason, a testimonial stored with `approved: [true]` is listed publicly by the server but not by the model.
- ErrorHandler.Handle: a `ValidationError` without a message is answered here with `message: ''`; the server sends `message: undefined`, which leaves the field out of the JSON body.
- Collection.Store.InsertOne: a duplicate `_id` fails; other insert errors are not modelled.
- Donations: a record is stored under its `tx_ref`. A second insert with a reference already in use leaves the first record where every later lookup or update by that reference finds it. The unreachable second document is not represented.
- Donations: `parseFloat` of amounts is left out, and the gateway's amount is stored as it comes. The HMAC-SHA256 digest is an abstract function of key and event. The Flutterwave SDK calls are parameters whose answers are given. The admin `GET /` of the donations routes is a plain listing and is not modelled. The public `POST /` (server/routes/donations.js:308-316) is not modelled either: it inserts any request body with a `date`, behind only the donation rate limiter and with no login. It can therefore store records that break `Consistent` (a `tx_ref` without the `hcm_` prefix, or `status: "completed"` with no `paidAt` or `verifiedAt`), and such a record is then reported as `success` by `GET /verify/:tx_ref` with no verification. `RunKeepsConsistent` and `CompletionNeedsVerification` hold only for sequences of initialize, webhook and verify requests.
- Donations.RunKeepsConsistent: covers only initialize, webhook and verify requests, because the public `POST /` of the donations routes is not a modelled step and can store an inconsistent record.
- Donations.CompletionNeedsVerification: covers only initialize, webhook and verify requests; a record inserted by the public `POST /` with `status: "completed"` is completed with no verification.
- Donations.DonationStore.Webhook: the message of a 500 answer is not stated. For a missing secret key and for a charge event that writes nothing its status and the unchanged records are stated; for a throw inside the update it is not modelled.
- Donations.Matching: an operator object in `tx_ref` is evaluated by the database, and the model leaves that evaluation abstract (the `operators` parameter). An operator the database refuses makes `updateOne` throw and the webhook answer 500; the model reads it as selecting nothing.
- Donations.DonationStore.Initialize: the payload sent to the gateway (redirect URL, customisations) is not modelled; only the gateway's answer is.
- Sanitisation by DOMPurify is a `purify` parameter.
- Upload.FileFilter: its contract states only the rejection message. The accept and reject rule is stated by the lemmas around it: BucketExtensionsAccepted, SubstringMatchAccepts and NoTokenLettersRejected.
- Multer's own limits, such as file size and the ten-file cap, are not modelled. Storage and `getPublicUrl` are parameters.
- FileUpload.FileUploader.UploadFile: the size-error message leaves out the formatted bound, because `formatFileSize` uses floating-point `log`, `pow` and rounding. An error body whose `error` is a truthy non-string is reported as 'Upload failed', where the source would turn it into a string. A response that is not JSON is not modelled. The `onSuccess` and `onError` callbacks and progress events are left out.
- FileUpload.FileUploader.UploadFiles: the stored token is read once for the whole batch; the source reads it before each file.
- FileUpload.HandleFiles: only the decision and the uploads are modelled. The DOM updates, alerts, preview and progress bar are left out. The progress callback is a flag.
- The `seed` routes of events.js (hard-coded data and calendar arithmetic) are left out. Only the `seed` exception of `GET /:id` is modelled.
- blog.js, team.js, prayers.js and contact.js, the scripts under server/scripts, and the browser pages other than the uploader are not part of this model.
- Sermons: the second `ObjectId.isValid` check inside the download route repeats the middleware's check and is not modelled separately. Local files are served by name, and `path.join` is left out.
- Strings.Lower, Strings.LowerString and Strings.ReplaceNonAlnum: strings are sequences of code points, and only ASCII letters change case. JavaScript strings are UTF-16 code units, and `toLowerCase` follows Unicode. A character outside the Basic Multilingual Plane is one character here but two units there, and a non-ASCII capital is not lowered here.
- Upload.CleanName: for that reason a name such as "🙏.mp3" gives one `_` here where the server writes two. Other non-ASCII characters become one `_` in both, since the replacement runs before the lowering.
- Upload.FileFilter: the extension and the MIME type are lowered with ASCII case only, so an extension such as `.AVİ`, which Unicode lowers to contain `avi`, is rejected here where the server accepts it.
- Upload.ExtName: lengths and positions count code points, not UTF-16 units; the extension found is the same.
- Sermons.DownloadName: a character outside the Basic Multilingual Plane gives one `_` here where the server writes two.
- JavaScript numbers are not modelled in full: counts are integers, and NaN and -0 do not occur.
