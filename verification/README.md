# Form intake model

A Dafny model of the form-intake layer of a small Express + Mongoose server
(`Server.js`). The server accepts four kinds of form over HTTP POST — sales
records, buyer feedback, service/product requirements and job openings —
builds a Mongoose document from the JSON body, saves it into one collection
per form, and answers with a status code.

The model has three layers:

- **Schemas as data** (`schemas.dfy`, `forms.dfy`). A schema is a sequence of
  paths, each with the options the server uses: `type` (String, Number, Date),
  `required`, `enum`, `trim` and `default`. `Forms.Sales`, `Forms.Buyer`,
  `Forms.Requirement` and `Forms.JobOpening` are the four live schemas, written
  out path by path.
- **A generic validator** (`validation.dfy`, with `whitespace.dfy` for
  JavaScript's `String.prototype.trim`). It does what `new Model(body).save()`
  decides before the write. For every path it applies the default, casts the
  value (trimming strings on `trim: true` paths), then runs the `required` and
  `enum` validators. It returns the normalised document or the list of failed
  paths. `formrules.dfy` spells out what this means for each schema.
- **The route dispatcher** (`intake.dfy`). It routes each POST path to at most
  one route, hence one schema and one collection. It runs the Sales route's
  date pre-check and body rewrite, saves by appending to an abstract
  per-collection store that may refuse the write, and picks the status code
  and reply message. `Serve` runs a sequence of requests against one store.

Mongoose's schema options are read as follows:
- A `default` applies only when the key is absent. `Date.now` is the
  submission time, passed in as `now`.
- Casting comes first. A string on a `trim: true` path is trimmed before any
  validator sees it. The Number and Date casts turn an empty string into
  `null`, so `''` on such a path is stored as `null`.
- `required` rejects an absent value and `null`, and on a String path also the
  empty string. So a whitespace-only value on a trimmed required path is
  rejected, and so is `''` on a required Number or Date path.
- `enum` is an exact, case-sensitive match on a present string. An absent
  optional `enum` path passes.
- Every failing path is reported, one reason per path. A cast failure takes
  precedence, then `required`, then `enum`.
- The stored document holds only the schema's paths.

Express routes a request by its path in its default mode (neither
`caseSensitive` nor `strict`). A path reaches a route when it spells the
route's path in any ASCII letter case, optionally followed by one `/`. Any
other path gets Express's default 404.

Conversions whose rules live in JavaScript or Mongoose rather than in the
server are parameters, bundled in `Validation.Env`:
- `new Date(v)` of a present, non-empty value.
- Mongoose's Date, Number and String casts of values that are not already of
  the target type.

Some cases are fixed rather than left to a parameter:
- A string is its own String cast.
- A JSON number is its own Number cast.
- A `Date` object is its own Date cast.
- `new Date(undefined)` and `new Date('')` are Invalid Date.

The database write is abstracted as a flag `writable` (the write succeeds or
fails). The clock is the parameter `now`.

The model follows Server.js as written:
- Sales `contribution_to_BCN` accepts `'Select'` as well as `'yes'` and `'no'`:
  the schema's `enum` lists all three (Server.js:29).
- On the Sales route every failure after the date pre-check is answered 500,
  validation failures included (Server.js:149-151). The other three routes
  answer every failure with 400 (Server.js:164-166, 176-178, 188-190). No
  route gives validation and storage failures distinct statuses.
- The form types are the route paths `/api/sales`, `/api/buyer`,
  `/api/requirement` and `/api/jobopeningform` (Server.js:138, 159, 171, 183).
  Their collections are `form.sales`, `form.buyer`, `form.requirement` and
  `form.jobopeningform` (Server.js:115-117, 133).
- No code in Server.js handles a path without a route, so Express's default
  404 answers it. There is no separate unknown-form-type error.
- The Sales transaction date is checked by the route's own `new Date(...)`
  (Server.js:141-144), so an absent or empty value fails there with 400. The
  other date paths go through Mongoose's Date cast.

## Model

| member | source | states |
|---|---|---|
| Whitespace.SkipSpace | Server.js:52-56 | the leading whitespace from a given index ends at the first non-space character (or the end), and everything skipped is whitespace |
| Whitespace.BackSpace | Server.js:52-56 | the trailing whitespace of a range begins just after its last non-space character (or at the range's start), and everything dropped is whitespace |
| Whitespace.Trim | Server.js:121-127 | the trimmed value has no whitespace at either end, is the slice of the input that starts after its leading whitespace, and what is cut off on both sides is whitespace only |
| Whitespace.TrimOfTrimmed | Server.js:52-79 | a value without whitespace at either end is left unchanged by trimming |
| Whitespace.TrimIdempotent | Server.js:52-79 | trimming an already trimmed, stored value changes nothing |
| Whitespace.BlankIffTrimEmpty | Server.js:52-70 | a string trims to the empty string exactly when it consists of whitespace only |
| Forms.SalesWellFormed | Server.js:24-35 | the constant `Forms.Sales`, which lists the ten Sales paths with their options, has distinct path names, options that fit each type, and no default on a required path |
| Forms.BuyerWellFormed | Server.js:38-48 | the same for the constant `Forms.Buyer` and its nine paths |
| Forms.RequirementWellFormed | Server.js:51-112 | the same for the constant `Forms.Requirement` and its six live paths |
| Forms.JobOpeningWellFormed | Server.js:120-130 | the same for the constant `Forms.JobOpening` and its nine paths |
| Validation.JsDate | Server.js:141-142 | `new Date` of an absent or empty value is Invalid Date; a present, non-empty value gives exactly what the date conversion gives for it, valid or not, and only such a value gives a date |
| Validation.Cast | Server.js:24-35 | a successful cast yields a value of the path's declared type or `null`; a String path yields text, trimmed on trim paths; the result is `null` exactly for an empty string on a Number or Date path |
| Validation.WithDefault | Server.js:34 | a present value is kept as is; a value is still missing after defaults only when the key is absent and the path has no default |
| Validation.CheckField | Server.js:72-80 | a kept value has the path's type, is trimmed on trim paths, lies in the enum set on enum paths and is neither empty nor `null` on required paths; a present string on a String path is rejected exactly when its (trimmed) text is empty on a required path or outside the enum, and is kept as that text otherwise; an empty string on a Number or Date path is rejected exactly when the path is required and is kept as `null` otherwise; an absent key on a path without default is rejected exactly when the path is required |
| Validation.ValidateFields | Server.js:161-162 | the body is accepted exactly when no path fails; the document holds only schema paths; on rejection the list is non-empty and each entry names a path that failed for that reason |
| Validation.ValidateFieldsStoresOutcomes | Server.js:161-162 | on acceptance every kept path is stored under its name with its cast value and every skipped path is absent |
| Validation.ValidateFieldsReportsAll | Server.js:161-162 | on rejection every failed path is reported with its reason |
| Validation.Validate | Server.js:161-162 | an accepted document holds nothing outside the schema's paths, and a rejection names at least one failed path |
| Validation.RejectedIffBad | Server.js:173-174 | a path is named in the rejection exactly when that path fails on its own |
| Validation.MissingRequiredRejected | Server.js:25-33 | an absent key of a required path without default rejects the body, naming that path as missing |
| Validation.AbsentOptionalAccepted | Server.js:46-47 | an absent key of an optional path is never a reason for rejection |
| Validation.EnumExact | Server.js:72-76 | an untrimmed enum path holding string v is rejected exactly when v is not one of the declared literals (or is empty on a required path) |
| Validation.PresentStringExact | Server.js:52-80 | a String path holding string v is rejected exactly when its text, trimmed on trim paths, is empty on a required path or outside the path's enum |
| Validation.EmptyCastsToNull | Server.js:27-28 | an empty string on a Number or Date path rejects the body exactly when the path is required, and an accepted document holds `null` there |
| Validation.RecordShape | Server.js:120-130 | an accepted document holds a path exactly when its key was present or the path has a default, and nothing outside the schema |
| Validation.RequiredPresent | Server.js:121-128 | an accepted document holds every required path |
| Validation.DefaultFillsAbsent | Server.js:129 | an absent key takes the path's default: the literal string (trimmed on trim paths) or the submission time |
| Validation.TrimmedOnStore | Server.js:121-127 | a present string on a trim path is stored as its trim, and trimming the stored value again changes nothing |
| Validation.PresentStoredVerbatim | Server.js:25-33 | on an untrimmed path, a present string, number or Date is stored unchanged |
| FormRules.FormsWellFormed | Server.js:24-130 | all four live schemas are well formed and have no default on a required path |
| FormRules.ChoicesExcludeEmpty | Server.js:29 | no enum literal set of a live schema contains the empty string |
| FormRules.FormsRejectMissingRequired | Server.js:24-130 | on every live schema, leaving out any required path rejects the body and names that path as missing |
| FormRules.SalesContributionExact | Server.js:29 | contribution_to_BCN is rejected exactly when it is not 'Select', 'yes' or 'no' |
| FormRules.BuyerRecommendationExact | Server.js:47 | a present recommendation is rejected exactly when it is not 'yes' or 'no' |
| FormRules.FeedbackOptional | Server.js:46 | product_service_feedback may be left out |
| FormRules.RecommendationOptional | Server.js:47 | recommendation may be left out |
| FormRules.UrgencyExact | Server.js:72-76 | urgency is rejected exactly when it is not '1 day', '1 week' or '1 month' |
| FormRules.PaddedUrgencyRejected | Server.js:72-76 | urgency is not trimmed, so ' 1 day' is rejected as outside the enum |
| FormRules.SpecialMentionOptional | Server.js:77-80 | specialMention may be left out |
| FormRules.JobTypeExact | Server.js:126 | job_type is rejected exactly when it is not 'full_time', 'part_time' or 'contract' |
| FormRules.SalesRemarksDefault | Server.js:34 | an accepted Sales body without remarks is stored with remarks = '' |
| FormRules.CreatedAtDefault | Server.js:129 | an accepted job opening without created_at is stamped with the submission time |
| FormRules.FormsStoreTrimmed | Server.js:52-79 | each trim path of Requirement (and of JobOpeningForm) is stored as the trim of the submitted string and has no surrounding whitespace |
| FormRules.FormsTrimmedBlankRejected | Server.js:52-79 | a trim path of Requirement or JobOpeningForm holding string v is rejected exactly when it is required (every one but specialMention) and v is whitespace only |
| FormRules.TrimmedIndex | Server.js:52-79 | each trim path of Requirement and JobOpeningForm is a declared String path without enum, required exactly when it is not specialMention |
| FormRules.EmptyCreatedAtStoredNull | Server.js:129 | created_at: '' is no reason for rejection and is stored as `null`, since the key is present and the default does not apply |
| FormRules.EmptyDeadlineRejected | Server.js:128 | application_deadline: '' rejects a job opening |
| Intake.PathOf | Server.js:138-183 | every route is mounted on a lower-case path under /api/ that does not end in '/' |
| Intake.RouteKey | Server.js:138-183 | the routing key of a path drops one trailing '/' and lower-cases its ASCII letters, character by character |
| Intake.RouteKeyMatches | Server.js:138-183 | a path matches a mount path exactly when its routing key is that mount path |
| Intake.StartsLowerIff | Server.js:138-183 | the character-by-character prefix test agrees with the index-wise case-insensitive comparison |
| Intake.ReachesIff | Server.js:138-183 | the route test the model runs is exactly Express's rule: same letters in any ASCII case, at most one trailing '/' |
| Intake.RouteFor | Server.js:138-183 | the route found matches the path, and when none is found no listed route matches |
| Intake.Resolve | Server.js:138-192 | a resolved path matches its route's path; an unresolved path matches no route's path |
| Intake.CollectionOf | Server.js:115-133 | every collection is in the form. namespace and is named after the last segment of its route's path |
| Intake.SchemaOf | Server.js:115-133 | the schema bound to each route is well formed |
| Intake.ResolvePathOf | Server.js:138-183 | every route resolves back from its own path, with or without a trailing '/', so no two routes share a path |
| Intake.MatchingPathResolves | Server.js:138-183 | every spelling of a route's path that Express accepts reaches that route |
| Intake.CollectionsDistinct | Server.js:115-133 | no two routes write to the same collection |
| Intake.Append | Server.js:147 | a save adds the document at the end of its own collection and leaves every other collection as it was |
| Intake.Save | Server.js:161-162 | a save succeeds exactly when the body validates and the write is accepted; the saved document is the validated one, appended to the route's collection; a validation failure is reported with its violations |
| Intake.SalesBody | Server.js:146 | the Sales body is the request body with date_of_transaction set to the parsed Date and every other key untouched |
| Intake.PostSales | Server.js:138-153 | the Sales handler answers 201, 400 or 500; 201 exactly when a document is returned, which was appended to form.sales; otherwise the store is unchanged |
| Intake.SavedMessage | Server.js:163-187 | the success message of the Buyer, Requirement and JobOpening routes ends in " data saved successfully" |
| Intake.ErrorMessage | Server.js:166-190 | their failure message reads "Error saving ", the form's name, then " data" |
| Intake.MessagesDistinct | Server.js:163-190 | each of the three routes has its own success message and its own failure message |
| Intake.PostForm | Server.js:159-192 | the Buyer, Requirement and JobOpening handlers answer 201 or 400; 201 exactly when a document is returned, which was appended to the route's own collection; otherwise the store is unchanged |
| Intake.Post | Server.js:138-192 | status is 201, 400, 404 or 500; 404 exactly for an unrouted path; 201 exactly when a document is returned, in which case it was appended to the route's collection; any other status leaves the store unchanged |
| Intake.NotFoundIffUnrouted | Server.js:138-192 | a POST answers 404 exactly when no route matches its path in any letter case and with at most one trailing '/' |
| Intake.RouteWritesOnlyOwnCollection | Server.js:115-133 | a POST to a route changes only that route's collection, which gains the saved document on 201 and nothing otherwise |
| Intake.FormRouteStatus | Server.js:159-192 | Buyer, Requirement and JobOpening answer 201 exactly when the body validates and the write succeeds, with their success message and the validated document, and 400 with their error message otherwise |
| Intake.SalesRouteStatus | Server.js:138-153 | Sales answers 400 on an unparseable date; otherwise 201 exactly when the rewritten body validates and the write succeeds, with the validated rewritten document, and 500 on every other failure |
| Intake.SalesDatePrecheck | Server.js:141-144 | an absent, empty or unparseable date_of_transaction answers 400 'Invalid date_of_transaction' with no document built and the store unchanged |
| Intake.SalesRewriteOnlyDate | Server.js:146 | every Sales path other than date_of_transaction sees exactly what the request body held and has the same outcome |
| Intake.SalesDateStored | Server.js:141-148 | a saved Sales document holds as transaction date the instant the route's own new Date(...) produced |
| Intake.Serve | Server.js:138-192 | serving a run of requests gives one response per request |
| Intake.RunResponds | Server.js:138-192 | a handler whose every response has a route status, 404 exactly when unrouted and a document exactly on 201, keeps that over a whole run |
| Intake.ServeStatuses | Server.js:138-192 | every response of a run has status 201, 400, 404 or 500, is 404 exactly for an unrouted request, and carries a document exactly when it is 201 |
| Intake.PostAddsTo | Server.js:147 | one POST adds to a collection exactly its saved document when it answered 201 on a route bound to that collection, and nothing otherwise |
| Intake.RunAppends | Server.js:147 | a handler that appends to a collection exactly what it reports keeps doing so over a whole run |
| Intake.ServeAppendsPerCollection | Server.js:115-133 | after a run of requests each collection holds its earlier documents followed by exactly the documents that answered 201 on its own route |

## Left out

- Express setup, CORS options, body-parser, the `GET /` route and `app.listen`
  are transport and process wiring.
- The request path is the raw, undecoded pathname without its query string,
  which is what Express matches routes against. A percent-encoded spelling
  such as `/api/%73ales` is a different path and is answered 404. Splitting
  off the query string is not modelled.
- JSON arrays and objects are one opaque value, `Composite`, to every
  conversion. Casts whose outcome depends on their content are not told
  apart: Mongoose's String cast stores `"Ann"` for `{"_id": "Ann"}` but fails
  on `{}`, while `Env` gives every array and object the same answer.
- Intake.PostSales: a `new Date(...)` that throws is not modelled. An object
  whose `toString` is not callable makes it raise a TypeError, which the catch
  at Server.js:148-151 answers with 500. In the model `new Date` gives either
  a date or Invalid Date, so such a body is answered 400 or goes on to be
  saved, as `Env` decides.
- `mongoose.connect` and the real `save()` I/O are not modelled. A write is an
  append to a per-collection sequence that succeeds or fails (`writable`).
  Mongoose's `_id` and `__v` are not modelled.
- JavaScript `Date` parsing and Mongoose's Number, Date and String casting of
  non-empty values are not modelled. Their rules are locale- and
  float-dependent and not in the server's code, so they are the `Env`
  parameters. Numbers are `real`; double rounding is not modelled.
- JSON `null` values in a request body are not modelled. A body holds only
  present values, and an absent key stands for `undefined`. The `null` that
  the Number and Date casts make of `''` is modelled.
- Unknown body keys are dropped from the document, which is Mongoose's default
  strict mode. The server's code does not show this.
- The JSON reply bodies are not modelled beyond their `message` and the saved
  document. Mongoose's error object and its `message` text become the list of
  violations.
- Console logging is not modelled.
- `async`/`await` concurrency is not modelled. `Serve` runs requests one after
  another, so interleavings of in-flight writes are not covered.
- The commented-out job-seeking and matrimonial fields are dead code in no live
  schema.
- Validation.AbsentOptionalAccepted: assumes the path has no default or no
  `enum`, since a default outside its own `enum` would fail. No live schema
  has one.
- FormRules.FormsRejectMissingRequired: also takes `WellFormed(s)` as a
  precondition. `FormRules.FormsWellFormed` proves it holds for every live
  schema, so this excludes no input.
