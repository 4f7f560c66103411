# Property scraper: store, scrape lifecycle, extraction rules and price input

This project models the core of a small property-listing application. The
model is written in Dafny and proved.

- **Backend property store.** `Property` keeps a `properties` table with a
  status enum: PENDING, IN_PROGRESS, COMPLETED, FAILED. Its operations are
  `validateData`, `create`, `update`, `updateStatus`, `delete`, `getById`,
  `getByUrl`, `getAll` and `count`.
- **Scrape controller.** `PropertyController` holds the scrape state machine:
  - `startScraping` claims a record for a MagicBricks url and sets it
    IN_PROGRESS, then runs the scraper. It sets COMPLETED when the scraped
    data passes `update`, and FAILED when the scraper resolves to a falsy
    value. A throw leaves the record IN_PROGRESS;
  - `retryScraping` re-runs a FAILED record and refuses any other;
  - CRUD handlers with 400/404/409 guards.
- **Scraper.** This is the pure part of `scrapeProperty`: the request filter
  and the rules that take title, location, price and image out of the first
  listing card.
- **Create-property form.** This is the React form's state. The price
  normaliser keeps the price field a `₹` followed by digits.

The files are:

| file | module | what it holds |
|---|---|---|
| `wrappers.dfy` | `Wrappers` | `Option` for JavaScript `undefined`/`null`, and `Result` for a thrown error |
| `js_string.dfy` | `JsString` | ECMAScript whitespace, `\d`, `trim`, `startsWith`, and `replace(/[^…]/g, '')` as a character filter, with lemmas |
| `property.dfy` | `PropertyModel` | the field rules, the records, and the class `PropertyStore` with its operations |
| `scraper.dfy` | `Scraper` | the request filter and the card extraction, with the scraper as a function of what the page shows |
| `scraping_controller.dfy` | `ScrapingController` | the handlers, as methods over a `PropertyStore` |
| `create_property_form.dfy` | `CreatePropertyForm` | the price normaliser and the class `PropertyForm` with `handleChange`/`handleSubmit` |

The store is a class. Its fields are:

- `rows`: the table, as a map from id to record;
- `urlIndex`: the UNIQUE index on `url`;
- `nextId`: the AUTO_INCREMENT counter, starting at 1.

`PropertyStore.Valid()` is kept by every operation. It states four things:

- ids are positive and below `nextId`;
- every row has a url;
- every row passes `validateData`;
- the url index names exactly the rows, so no two rows share a url.

Every store error the source throws is a `StoreError` value. The handlers
reply with a status code and the record the JSON body would carry.

How a scrape settles, as the code is written:

- **FAILED is set on a falsy scraper result only.** `startScraping` marks the
  record FAILED only when `scrapeProperty` resolves to a falsy value
  (backend/controllers/scrapingController.js:114-120).
  - `scrapeProperty` never resolves to one: with no data or an empty title it
    throws (backend/utils/scraper.js:103-112).
  - A throw goes to the handler's catch, which answers 500 and leaves the
    record IN_PROGRESS.
  - A scraped price that is non-empty and does not start with `₹` (for
    example `5 ₹`) also leaves it IN_PROGRESS, because `update` throws on it.
  - `retryScraping` refuses a record that is not FAILED with 400, so such a
    record cannot be retried.
  - `ScrapeNeverMarksFailed`, `RupeelessPriceLeavesRecordInProgress` and
    `ThrownScrapeIsNotRetryable` state this.
- **A listing whose price passes the rule completes.**
  `ScrapedListingCompletes` states that any claimed record, new or existing,
  whose scraped price is empty or starts with `₹` ends COMPLETED with exactly
  the scraped fields, under its own id and url, with reply 200. A price text
  with no digit, `.` or `₹` at all (such as `Price on Request`) cleans to `''`,
  which passes the rule, so that record completes with an empty price.
- **Only MagicBricks urls are accepted.** `startScraping` answers any other
  url with 400 (backend/controllers/scrapingController.js:77-83).

## Model

| member | source | states |
|---|---|---|
| JsString.SubsequenceChars | backend/utils/scraper.js:78 | every character of a subsequence occurs in the string it was taken from |
| JsString.Keep | backend/utils/scraper.js:78 | the filtered string is no longer than the input and every character in it passes the filter |
| JsString.KeepIsSubsequence | backend/utils/scraper.js:78 | a `replace(/[^…]/g, '')` filter only deletes: its result is a subsequence of its input |
| JsString.KeepCounts | frontend/src/components/CreatePropertyForm.js:55 | the filter keeps every occurrence of every character that passes |
| JsString.TrimCounts | backend/utils/scraper.js:77-78 | `trim()` keeps every occurrence of every non-whitespace character |
| JsString.KeepAppend | frontend/src/components/CreatePropertyForm.js:55 | filtering distributes over concatenation |
| JsString.KeepAll | backend/utils/scraper.js:78 | a string whose characters all pass is left unchanged |
| JsString.KeepIdempotent | backend/utils/scraper.js:78 | filtering twice equals filtering once |
| JsString.Trim | backend/utils/scraper.js:69 | `trim()` leaves no whitespace at either end and never lengthens the string |
| JsString.TrimIsSlice | backend/utils/scraper.js:69 | `trim()` returns a contiguous piece of the input with only whitespace before and after it |
| JsString.TrimStartRemovesWhitespace | backend/utils/scraper.js:69 | everything the start trim removes is whitespace |
| JsString.TrimEndRemovesWhitespace | backend/utils/scraper.js:69 | everything the end trim removes is whitespace |
| JsString.TrimIsSubsequence | backend/utils/scraper.js:69 | `trim()` only deletes characters |
| JsString.TrimOfTrimmed | backend/utils/scraper.js:78 | trimming a string with no whitespace at its ends changes nothing |
| PropertyModel.ValidateData | backend/models/Property.js:14-32 | no errors exactly when an update has no data, or when status, url and price are each absent, empty or valid; one error per offending field, in the order status, url, price |
| PropertyModel.FieldRules | backend/models/Property.js:19-29 | a status passes exactly when absent, empty or one of the four enum values; a url exactly when absent, empty or starting with `https://www.magicbricks.com/`; a price exactly when absent, empty or starting with `₹` |
| PropertyModel.NewRecord | backend/models/Property.js:53-61 | the inserted row keeps the given url; each of title, location, price and imageUrl is the given value when it is truthy and `''` otherwise; status is the given one when truthy and PENDING otherwise; the row passes validation when the data did |
| PropertyModel.Apply | backend/models/Property.js:149-176 | an update overwrites exactly the fields that are not undefined, keeps id and url, and keeps a valid row valid when the data passes validation |
| PropertyModel.PriceOnlyUpdate | backend/models/Property.js:163-166 | an update carrying only a price changes only the price |
| PropertyModel.ListAscending | backend/models/Property.js:307-314 | the filtered rows: all present in the table, all with the filtered status, strictly ordered by id, and every matching row included |
| PropertyModel.ListingCount | backend/models/Property.js:399-418 | the listing has one entry per matching row |
| PropertyModel.CountIsListingLength | backend/models/Property.js:399-418 | when all ids are below the bound, the number of matching rows equals the length of the listing |
| PropertyModel.Page | backend/models/Property.js:324 | `LIMIT`/`OFFSET` returns the consecutive rows starting at `offset`: exactly `min(limit, |s| - offset)` of them, none past the end |
| PropertyModel.NormaliseOptions | backend/models/Property.js:287-321 | an unknown status filter is an error; limit defaults to 10 and offset to 0 unless given as a non-negative number; a `sortBy` outside the allow-list becomes `created_at`; the order is ASC only for `'ASC'` |
| PropertyModel.Listing | backend/models/Property.js:303-333 | a query returns the `LIMIT`/`OFFSET` window of the matching rows ordered by id in the chosen direction: at most `limit` rows of the table, all matching the filter |
| PropertyModel.RowChangeKeepsInvariant | backend/models/Property.js:132-243 | replacing a row by a valid row with the same id and url keeps ids, the url index and validity of every row intact |
| PropertyModel.TableInvariant | backend/models/Property.js:35-78 | what the table keeps under create, update, updateStatus and delete: ids from 1 below the AUTO_INCREMENT counter, every row with a url and passing validateData, the UNIQUE url index naming exactly the rows; it implies rows are keyed by id and urls are unique |
| PropertyModel.PropertyStore.Valid | backend/models/Property.js:132-243 | the store keeps the table invariant, so rows are keyed by id and no two rows share a url |
| PropertyModel.PropertyStore.RecordWithUrl | backend/models/Property.js:360-374 | the row found has that url; when none is found, no row has that url |
| PropertyModel.PropertyStore.GetById | backend/models/Property.js:343-357 | a falsy id is an error; otherwise the row with that id, or none exactly when no such row exists |
| PropertyModel.PropertyStore.GetByUrl | backend/models/Property.js:360-374 | an empty url is an error; any other url succeeds with the row that has that url, or none exactly when no row has it |
| PropertyModel.PropertyStore.Create | backend/models/Property.js:35-78 | missing data or url, invalid data and a duplicate url are errors that leave the table unchanged; otherwise exactly one row is added under the next id |
| PropertyModel.PropertyStore.Update | backend/models/Property.js:132-211 | a falsy id, invalid data, an unknown id and undefined data are errors in that order and change nothing; otherwise only that row changes, by `Apply` |
| PropertyModel.PropertyStore.UpdateStatus | backend/models/Property.js:215-243 | a falsy id, a status outside the enum and an unknown id are errors; otherwise only that row's status changes |
| PropertyModel.PropertyStore.Delete | backend/models/Property.js:377-396 | a falsy id and an unknown id are errors; otherwise exactly that row is removed |
| PropertyModel.PropertyStore.GetAll | backend/models/Property.js:287-338 | an invalid status filter throws; otherwise at most `limit` table rows with the filtered status; for `sortBy` `created_at` the result is exactly the window of the listing ordered by creation in the chosen direction |
| PropertyModel.PropertyStore.Count | backend/models/Property.js:399-418 | an invalid status filter throws; otherwise the number of rows the listing with that filter returns |
| PropertyModel.ListingOfAllRows | backend/models/Property.js:303-304 | the unfiltered listing has one entry per row |
| PropertyModel.DefaultListingIsComplete | backend/models/Property.js:287-300 | `getAll()` with no options succeeds and, for a table of at most ten rows, returns every row |
| PropertyModel.NewestRowsListed | backend/models/Property.js:287-324 | for any limit, the unfiltered newest-first query from offset 0 returns `min(limit, |rows|)` rows, and every row left out is older than every row listed |
| PropertyModel.PageLeavesOutOlder | backend/models/Property.js:324 | in a list in descending id order, every element left out of the first `limit` is older than every element listed |
| PropertyModel.DefaultListingFacts | backend/models/Property.js:287-338 | `getAll()` with no options returns the ten newest rows, newest first |
| Scraper.OnRequest | backend/utils/scraper.js:38-45 | images, stylesheets and fonts are aborted; every other resource type continues |
| Scraper.GetTextContent | backend/utils/scraper.js:67-70 | the element's text trimmed (`String.prototype.trim`), or `''` when none matches; a subsequence of the element's text |
| Scraper.FirstText | backend/utils/scraper.js:82-86 | the primary selector's text when non-empty, else the fallback's; empty exactly when both are |
| Scraper.TitleOf | backend/utils/scraper.js:82-83 | the title is trimmed; it is the `--title` text when that is non-empty, and otherwise the `__title` text; empty exactly when both are |
| Scraper.LocationOf | backend/utils/scraper.js:85-86 | the location is trimmed; it is the `--addr` text when that is non-empty, and otherwise the `__address` text; empty exactly when both are |
| Scraper.IsPriceChar | backend/utils/scraper.js:78 | digits, `.` and `₹` pass the price filter; `,` and ASCII letters do not |
| Scraper.PriceText | backend/utils/scraper.js:77-78 | the cleaned price has no whitespace at its ends and only digits, `.`, `₹` and whitespace; every digit, `.` and `₹` of the text is kept, as many times as it occurs |
| Scraper.PriceTextIsSubsequence | backend/utils/scraper.js:77-78 | the cleaned price is a subsequence of the trimmed text |
| Scraper.PriceTextIdempotent | backend/utils/scraper.js:77-78 | cleaning a cleaned price changes nothing |
| Scraper.ExtractPrice | backend/utils/scraper.js:73-79 | `''` without a price element; otherwise trimmed, made only of digits, `.`, `₹` and whitespace, and holding every digit, `.` and `₹` of the element's text as many times as it occurs |
| Scraper.ExtractPriceCharsFromText | backend/utils/scraper.js:77-78 | every character of the extracted price occurs in the price element's text |
| Scraper.NoRupeeInExtractedPrice | backend/utils/scraper.js:77-78 | the cleaning adds no `₹`: a price text without one yields a price without one |
| Scraper.DigitSurvivesExtraction | backend/utils/scraper.js:73-79 | a price element whose text holds a digit yields a non-empty price |
| Scraper.ScrapedPrice | backend/utils/scraper.js:95-108 | a loaded card with a non-empty title is scraped to its extracted fields, carrying the extracted price |
| Scraper.ImageUrlOf | backend/utils/scraper.js:91-93 | a non-empty `data-src`, else a non-empty `src`, else `''`; `''` without a photo element |
| Scraper.ExtractFields | backend/utils/scraper.js:95-100 | the four fields are the title, location, price and image rules applied to the card |
| Scraper.ScrapeProperty | backend/utils/scraper.js:59-108 | never a falsy result; data exactly when the page loaded with a first card whose title is non-empty, and then the fields extracted from that card |
| ScrapingController.Claimed | backend/controllers/scrapingController.js:96-110 | an existing record keeps everything but its status, which becomes IN_PROGRESS; otherwise a stub with empty fields, status IN_PROGRESS and the given url |
| ScrapingController.Resolve | backend/controllers/scrapingController.js:112-141 | COMPLETED with exactly the scraped fields iff the scraper returned data whose price is empty or starts with `₹`; FAILED iff the result was falsy; IN_PROGRESS otherwise; id and url kept; 200 iff COMPLETED, else 500 |
| ScrapingController.CompletedUpdate | backend/controllers/scrapingController.js:122-125 | the update sets title, location, price and imageUrl to exactly the scraped values and status to COMPLETED, and leaves the url out; it passes validation exactly when the scraped price passes the price rule |
| ScrapingController.ScrapeNeverMarksFailed | backend/controllers/scrapingController.js:112-120 | with the real scraper a record never ends FAILED; it ends COMPLETED or IN_PROGRESS |
| ScrapingController.UnsignedPriceRejected | backend/models/Property.js:27-29 | a non-empty price with no `₹` anywhere in it fails the price rule |
| ScrapingController.UnsignedPriceStaysInProgress | backend/controllers/scrapingController.js:122-141 | scraped data whose price fails the price rule answers 500 and leaves the claimed record exactly as it was, IN_PROGRESS |
| ScrapingController.RupeelessPriceLeavesRecordInProgress | backend/controllers/scrapingController.js:122-141 | for any card with a title whose price text has no `₹` but has a digit, the scrape succeeds, yet the reply is 500 and the record stays unchanged IN_PROGRESS |
| ScrapingController.SettleScrape | backend/controllers/scrapingController.js:112-133 | the claimed record becomes what `Resolve` says, no other row and not the id counter changes, and the reply carries the record only on success |
| ScrapingController.Claim | backend/controllers/scrapingController.js:96-110 | the existing row for the url is reused under its id with the id counter unchanged, or exactly one stub is added under the next id and the counter advances by one |
| ScrapingController.IsListingUrl | backend/controllers/scrapingController.js:70-83 | a url is accepted exactly when it is non-empty and passes the store's MagicBricks url rule |
| ScrapingController.ScrapeUrl | backend/controllers/scrapingController.js:96-133 | the row for the url is claimed and settled; no other row changes, and the id counter advances only when a stub was created |
| ScrapingController.StartScraping | backend/controllers/scrapingController.js:66-142 | 400 with no change, id counter included, for a missing or non-MagicBricks url; 200 with no change for a COMPLETED record; otherwise one row for the url, claimed and settled, with the id counter advanced only for a new stub, and urls stay unique |
| ScrapingController.RetryFailed | backend/controllers/scrapingController.js:299-321 | a FAILED record is set IN_PROGRESS and settled like a first scrape; the id counter is unchanged |
| ScrapingController.RetryScraping | backend/controllers/scrapingController.js:272-329 | 404 for an unknown id, and 400 with no change unless the record is FAILED; otherwise it is re-scraped, keeping id and url; no new id is ever taken |
| ScrapingController.Submitted | backend/controllers/scrapingController.js:19-26 | the data handed to `create` copies the body's fields, keeps a truthy imageUrl and otherwise sets it to `''`, and sets PENDING; it passes validation exactly when the body's url and price pass their rules |
| ScrapingController.HasRequiredFields | backend/controllers/scrapingController.js:12-17 | a body that passes the check has a url, and the row created from it has non-empty title, location, price and url |
| ScrapingController.CreateProperty | backend/controllers/scrapingController.js:7-63 | 400 for a missing required field or invalid data, 409 with the existing record for a known url, each with no change; otherwise 201 with one new PENDING row under the next id, whose imageUrl defaults to `''`, and the counter advanced past it |
| ScrapingController.GetProperty | backend/controllers/scrapingController.js:163-194 | 200 with the row, or 404 for an unknown id |
| ScrapingController.GetScrapingStatus | backend/controllers/scrapingController.js:332-364 | 200 with the row and its status, or 404 for an unknown id |
| ScrapingController.UpdateProperty | backend/controllers/scrapingController.js:197-233 | 404 for an unknown id and 500 for invalid data, both with no change; otherwise 200 and only that row changes; the id counter is unchanged |
| ScrapingController.DeleteProperty | backend/controllers/scrapingController.js:236-269 | 404 with no change for an unknown id; otherwise 200 and exactly that row is gone; the id counter is unchanged, so a deleted id is never reused |
| ScrapingController.GetAllProperties | backend/controllers/scrapingController.js:145-160 | 200, and `count` equals the number of properties; the properties are the ten newest rows (all rows when there are fewer), newest first, and every row left out is older than every row listed |
| ScrapingController.ScrapedListingCompletes | backend/controllers/scrapingController.js:96-133 | any claimed record, new or existing, whose scraped price is empty or starts with `₹` ends COMPLETED with exactly the scraped fields under its own id and url, with reply 200 |
| ScrapingController.ThrownScrapeIsNotRetryable | backend/controllers/scrapingController.js:272-297 | for any MagicBricks url not yet COMPLETED, a thrown scrape answers 500 and leaves the claimed row IN_PROGRESS (a new stub takes the next id), and the retry then answers 400 |
| CreatePropertyForm.FormData.With | frontend/src/components/CreatePropertyForm.js:60-64 | `{ ...formData, [name]: value }` sets that field and leaves every other field unchanged |
| CreatePropertyForm.NormalisePrice | frontend/src/components/CreatePropertyForm.js:55-58 | a `₹` followed by exactly the input's digits, in input order; it passes the store's price rule |
| CreatePropertyForm.NormalisedIffFixed | frontend/src/components/CreatePropertyForm.js:55-58 | a price is `₹` plus digits exactly when normalising it changes nothing |
| CreatePropertyForm.NormaliseIdempotent | frontend/src/components/CreatePropertyForm.js:55-58 | normalising a normalised price returns it unchanged |
| CreatePropertyForm.DigitsOfNormalised | frontend/src/components/CreatePropertyForm.js:55-58 | the digits of a normalised price are everything after its `₹` |
| CreatePropertyForm.FormBodyAccepted | frontend/src/components/CreatePropertyForm.js:21-27 | a form with a normalised price passes `createProperty`'s required-field check exactly when title, location and url are filled in, and passes its validation exactly when the url is a MagicBricks url |
| CreatePropertyForm.PropertyForm.HandleChange | frontend/src/components/CreatePropertyForm.js:49-66 | a price change stores the normalised price and any other change stores the value verbatim; other fields, `loading` and `error` are unchanged, and the price stays normalised |
| CreatePropertyForm.PropertyForm.Valid | frontend/src/components/CreatePropertyForm.js:49-66 | the price field always holds a normalised price, which is non-empty and passes the store's price rule |
| CreatePropertyForm.PropertyForm.HandleSubmit | frontend/src/components/CreatePropertyForm.js:15-47 | on success the form resets and the created property is handed on; a non-ok response sets the error "Failed to create property", and a rejected request sets its own message; either failure keeps the form; `loading` ends false |
| CreatePropertyForm.InitialFormValid | frontend/src/components/CreatePropertyForm.js:5-11 | the initial and reset form has price `₹0`, already normalised, and every other field `''` |

## Left out

- The browser work of `scrapeProperty` is left out. That is the Puppeteer
  launch, headers, navigation and selector timeouts, and closing the browser.
  The page is a parameter: it failed to load, or it loaded with or without a
  first card.
- MySQL is left out: the connection pool, the SQL text, `affectedRows` and
  the `created_at`/`updated_at` timestamps. The table is an in-memory map.
- PropertyModel.PropertyStore.GetAll: its contract states the order and the
  `LIMIT`/`OFFSET` window only for `sortBy` `created_at`, the default. For the
  other allowed columns the model still lists rows in id order, since the
  `ORDER BY updated_at|price|title` comparator is not modelled. Rows are
  created in id order, so ordering by `created_at` is ordering by id; ties of
  `created_at` within one second are not modelled.
- PropertyModel.NormaliseOptions takes `limit` and `offset` after
  `parseInt(_, 10)`, as a number or NaN. JavaScript's string-to-number
  parsing is not modelled.
- Values of the wrong JavaScript type are not modelled: non-string fields,
  `null` field values, and a `url` that is not a string in a request body.
  Every field is a string or absent.
- The `!id` 400 branches of the id-taking handlers are left out. An Express
  route parameter is always a non-empty string, so the handlers take a
  numeric id. A parameter that names no row stands for any such id.
- The exception handlers' own failures are not modelled: a database error
  inside `getById`, `getAll` or `delete` that would surface as 500.
- Messages are left out: human-readable error text, the `success` flag and
  console logging. Replies keep only the status code, the record and, for
  the list, `count`.
- Concurrency is left out. Each handler runs as one sequential step.
  Overlapping scrapes of one url are not guarded in the code.
- `onPropertyCreated` is not called. HandleSubmit returns the property
  instead. The fetch is an outcome parameter, and the rendered markup of the
  React component is not modelled.
- Form inputs other than the five fields are left out. A field name other
  than the five would add a key to `formData`; the form renders only those
  five.
