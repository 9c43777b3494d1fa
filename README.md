# MoreRealm VR product catalogue — a Dafny model

MoreRealm VR sells prescription lenses for VR headsets. This project models the
core of its Next.js shop:

- **The `/api/products` route.** `GET` returns the active products, newest first.
  `POST` checks a new product (name and price required, price not NaN and not
  negative) and creates it active. Each has its error answers.
- **The product table** behind it (module `Catalog`). It is a class whose
  `rows` sequence grows by one row per `create`. The identifier and the
  creation time come from counters, so a later row is newer.
- **The language provider.** It starts in English, picks a locale once mounted
  (a saved choice, else the browser's language tag), and `setLocale` changes the
  locale and saves it.
- **The new-product admin form.** This is a class holding `formData` and the
  image URL field. `addImage` appends the trimmed URL, `removeImage` filters
  out one index, and `handleSubmit` builds the `POST` body. The image list
  travels as `JSON.stringify` text.
- **The admin dashboard's three counters**: total, active and inactive.
- **Seeding.** Three sample lenses are created when the table is empty. A store
  failure is caught and only logged, without rollback.

The image list is written and read as JSON (module `JsonArray`). Strings are
escaped as section 7 of RFC 8259 describes, in the form `JSON.stringify` picks.
Arrays are read as section 5 describes. Reading back what was written gives the
same list.

Modelling choices:

- **Prices are whole cents.** The `POST` body's `basePrice` is one of three
  kinds of value. It is a falsy non-number (absent, `null`, `false`, `""`), a
  JSON number, or any other value: a non-empty string, `true`, an array or an
  object. A JSON number too large for a double, such as `1e999`, is read as
  Infinity and has a kind of its own. For a value of the last kind the model
  keeps two readings, each NaN, a number of cents, or plus or minus Infinity:
  - what `Number` reads, which the price check uses;
  - what `parseFloat` reads, which `create` receives.
- **Truthiness.** The number 0 is falsy, so it gets the "required" message.
  Every value of the third kind is truthy, so the string `"0"` passes both
  checks and is stored with price 0.
- **The price check also reads the stored price.** The route checks one
  reading of the price and stores the other (see Findings). `ValidateAsWritten`
  models the route as written. `Validate`, which the route model uses, keeps
  the route's check and requires both readings to be finite and not negative.
  Every body the route refuses is refused with the same message
  (`ValidateKeepsRouteRefusals`). Every body accepted here the route accepts
  too, with the same stored price (`ValidateAcceptsWhatRouteAccepts`). The
  only bodies that differ are those whose price the route reads or stores as
  NaN, as Infinity or as a negative number.
- **Store failures are inputs.** Whether `prisma.product.findMany`, `create` or
  `count` throws is passed in as a parameter.
- **Browser inputs are parameters.** `navigator.language` is a parameter.
  `localStorage` is a map field of the provider.
- **The mount effect runs once, on a fresh provider showing English.** So the
  branch in which no rule matches, which leaves the state alone, is modelled as
  choosing the default locale.
- **The dashboard is fed by the public list.** The admin page fetches
  `GET /api/products`, which returns only active rows. `StatsOfPublicList`
  proves what follows: the "inactive" counter is always 0.
- **The Prisma schema is not part of this model.** The columns are those the
  route and the seed write.

## Model

| member | source | states |
|---|---|---|
| JsonArray.EscapeChar | src/app/admin/products/new/page.tsx:37 | every character is written either as itself (never a quote, a backslash or a control character) or as an escape starting with a backslash |
| JsonArray.Encode | src/app/admin/products/new/page.tsx:37 | the text of a string array is bracketed by `[` and `]` |
| JsonArray.Decode | src/app/admin/products/new/page.tsx:37 | the `JSON.parse` that the product detail page (src/app/products/[id]/page.tsx, line 23) applies to the image text written here: a text that does not open with `[` after white space is refused |
| JsonArray.RoundTrip | src/app/admin/products/new/page.tsx:37 | parsing what `JSON.stringify` wrote for a string array gives back the same array |
| JsonArray.EncodeInjective | src/app/admin/products/new/page.tsx:37 | two image lists with the same JSON text are the same list |
| JsonArray.EmptyArrayText | src/app/admin/products/new/page.tsx:37 | an empty image list is sent as the text `[]` |
| Catalog.ProductTable.constructor | src/lib/seed.ts:5-7 | a new table is empty and consistent |
| Catalog.ProductTable.Count | src/lib/seed.ts:5-7 | the count is zero exactly when the table holds no rows |
| Catalog.ProductTable.Create | src/app/api/products/route.ts:42-50 | appends exactly one row holding the given data, with an identifier no earlier row has and a creation time later than every earlier row's; the table stays consistent |
| Catalog.ActiveRows | src/app/api/products/route.ts:7 | the `where: { active: true }` filter keeps only active rows and never more than it is given |
| Catalog.InactiveRows | src/app/admin/page.tsx:40 | the `!p.active` filter keeps only inactive rows and never more than it is given; InactiveRowsCount says which |
| Catalog.InactiveRowsCount | src/app/admin/page.tsx:40 | the inactive filter keeps an inactive row as often as it occurs and drops every active row |
| Catalog.InsertByCreatedAt | src/app/api/products/route.ts:8 | inserting a row into a newest-first list keeps it newest first and adds exactly that row |
| Catalog.SortNewestFirst | src/app/api/products/route.ts:8 | `orderBy: { createdAt: 'desc' }` gives a newest-first permutation of its input |
| Catalog.ActiveRowsCount | src/app/api/products/route.ts:7 | the active filter keeps an active row as often as it occurs and drops every inactive row |
| Catalog.ListActive | src/app/api/products/route.ts:6-9 | the active rows sorted newest first, as many as the table has active rows |
| Catalog.ListActiveSpec | src/app/api/products/route.ts:6-9 | the public list is newest first, holds only active rows, holds every active row of the table exactly once, holds no inactive row and nothing not in the table |
| Catalog.ListActiveEmpty | src/app/api/products/route.ts:6-11 | an empty table gives an empty list, not an error |
| ProductsRoute.OrNull | src/app/api/products/route.ts:45-47 | `x \|\| null` keeps a non-empty string and gives `null` for an empty or missing one |
| ProductsRoute.ValidateAsWritten | src/app/api/products/route.ts:27-46 | the route as written: "required" exactly for a falsy name or price; accepted exactly when, besides, `Number` reads the price as neither NaN nor below 0, Infinity included; an accepted body hands `create` the `parseFloat` reading of the price, NaN and Infinity included |
| ProductsRoute.Validate | src/app/api/products/route.ts:27-49 | the route's checks, with both the checked and the stored reading of the price required to be finite and not negative: a refusal carries one of the two 400 messages; an accepted row is active, has a non-empty name, and has as its price the `parseFloat` reading, which is a finite number and not negative |
| ProductsRoute.ValidateKeepsRouteRefusals | src/app/api/products/route.ts:27-40 | every body the route refuses is refused here with the same message |
| ProductsRoute.ValidateAcceptsWhatRouteAccepts | src/app/api/products/route.ts:27-46 | every body accepted here the route accepts too, handing `create` the same price |
| ProductsRoute.ValidateAgreesWithRoute | src/app/api/products/route.ts:27-46 | when `Number` and `parseFloat` read the price alike, the answer and the stored price are those of the route as written, except that a price of Infinity, which the route accepts, is refused |
| ProductsRoute.CheckedPriceIsNotStoredPrice | src/app/api/products/route.ts:35-46 | as written, the prices `" "` and `true` pass the check and reach `create` as NaN, and `"0x10"` is checked as 16 and stored as 0; the corrected check refuses `" "`; `"5abc"` is refused by both |
| ProductsRoute.InfinitePriceAccepted | src/app/api/products/route.ts:27-46 | as written, `1e999` and `"Infinity"` pass both checks and reach `create` as Infinity, while `-1e999` is refused; the corrected check refuses all three as "invalid" |
| ProductsRoute.InfinityOnlyAsWritten | src/app/api/products/route.ts:35-46 | every body with a name whose price `Number` reads as Infinity is accepted as written, handing `create` the `parseFloat` reading, and refused as "invalid" by the corrected check |
| ProductsRoute.Get | src/app/api/products/route.ts:4-19 | a store failure answers 500 "Failed to fetch products"; otherwise 200 with the active rows newest first, each active row exactly once |
| ProductsRoute.Post | src/app/api/products/route.ts:21-60 | a body that is not JSON or a failing store answers 500 "Failed to create product"; a refused body answers 400 with its message; an accepted one answers 201 with the new row, which is appended to the table; only a 201 changes the table; non-negative prices stay non-negative (with the check applied to the stored price) |
| ProductsRoute.RequiredCheckedFirst | src/app/api/products/route.ts:27-32 | the answer is "Name and base price are required" exactly when the name or the price is falsy, a price of 0 included, whatever else is wrong |
| ProductsRoute.InvalidPriceRefused | src/app/api/products/route.ts:35-40 | with a truthy name and price, the answer is "Base price must be a valid positive number" exactly when the `Number` or the `parseFloat` reading of the price is NaN or negative |
| ProductsRoute.AcceptedRow | src/app/api/products/route.ts:42-49 | an accepted body is stored with its own name and the `parseFloat` reading of its price, empty description and images as `null`, and `active` set; an accepted JSON number is positive |
| ProductsRoute.AcceptedExactly | src/app/api/products/route.ts:27-49 | a body is accepted exactly when its name is non-empty and its price is truthy and both readings of it are numbers that are not negative |
| ProductsRoute.ValidationExamples | src/app/api/products/route.ts:27-49 | worked cases: a missing name, a negative price, both at once, a price of 0, the string "0", a blank name, and a plain accepted body |
| LanguageContext.Code | src/contexts/LanguageContext.tsx:40 | every locale saves a code the provider accepts back |
| LanguageContext.Detect | src/contexts/LanguageContext.tsx:19-35 | the mount-time choice: a saved supported code names the locale; otherwise Austrian German is chosen exactly for `de-at` or a tag mentioning `austria` |
| LanguageContext.FromCode | src/contexts/LanguageContext.tsx:20-21 | a supported code names the locale whose code it is |
| LanguageContext.CodeRoundTrip | src/contexts/LanguageContext.tsx:20-21 | reading back a locale's code gives the same locale |
| LanguageContext.ToLower | src/contexts/LanguageContext.tsx:24 | lowering keeps the length and changes only upper-case letters |
| LanguageContext.PrimarySubtag | src/contexts/LanguageContext.tsx:25 | `split('-')[0]` is the longest prefix without a hyphen |
| LanguageContext.SavedLocaleWins | src/contexts/LanguageContext.tsx:19-21 | a saved supported code is used whatever the browser language |
| LanguageContext.UnsupportedSavedIgnored | src/contexts/LanguageContext.tsx:20-22 | a saved value that is not a supported code is ignored, as if nothing were saved |
| LanguageContext.AustriaFirst | src/contexts/LanguageContext.tsx:28-29 | `de-at`, or a tag mentioning `austria`, gives Austrian German |
| LanguageContext.GermanByPrimarySubtag | src/contexts/LanguageContext.tsx:30-31 | outside the Austrian cases, German is chosen exactly when the primary subtag is `de` |
| LanguageContext.OtherLanguages | src/contexts/LanguageContext.tsx:32-34 | outside the German cases, a primary subtag `en`, `fr` or `es` picks that locale and anything else leaves English |
| LanguageContext.ToLowerIdempotent | src/contexts/LanguageContext.tsx:24 | lowering twice is lowering once |
| LanguageContext.DetectIgnoresCase | src/contexts/LanguageContext.tsx:24-34 | detection does not depend on the case of the browser language |
| LanguageContext.LanguageProvider.constructor | src/contexts/LanguageContext.tsx:15 | the provider starts in English |
| LanguageContext.LanguageProvider.Saved | src/contexts/LanguageContext.tsx:19 | `getItem('locale')` is the stored value, or `null` when nothing is stored |
| LanguageContext.LanguageProvider.DetectLocale | src/contexts/LanguageContext.tsx:17-36 | the mount effect sets the locale chosen from storage and the browser language, and writes nothing |
| LanguageContext.LanguageProvider.SetLocale | src/contexts/LanguageContext.tsx:38-41 | shows the new locale, saves its code under `locale` and keeps the other keys; any later detection picks that locale |
| LanguageContext.SaveThenLoad | src/contexts/LanguageContext.tsx:38-41 | a locale saved by `setLocale` is the one a later mount picks |
| NewProductForm.TrimStart | src/app/admin/products/new/page.tsx:55 | drops a blank prefix and no more |
| NewProductForm.TrimEnd | src/app/admin/products/new/page.tsx:55 | drops a blank suffix and no more |
| NewProductForm.Trim | src/app/admin/products/new/page.tsx:58 | the trimmed URL starts and ends with a character that is not white space |
| NewProductForm.TrimBlank | src/app/admin/products/new/page.tsx:55 | `imageInput.trim()` is falsy exactly when the input is blank |
| NewProductForm.TrimSplits | src/app/admin/products/new/page.tsx:58 | the trimmed URL is a contiguous part of the input, and what is cut off on either side is blank |
| NewProductForm.TrimIdempotent | src/app/admin/products/new/page.tsx:58 | trimming twice is trimming once |
| NewProductForm.WithoutIndex | src/app/admin/products/new/page.tsx:67 | filtering out an index inside the list removes one element; one outside removes none |
| NewProductForm.WithoutIndexSpec | src/app/admin/products/new/page.tsx:67 | the index filter removes exactly the element at that index and keeps the others in order; an index outside the list removes nothing |
| NewProductForm.ProductForm.constructor | src/app/admin/products/new/page.tsx:14-21 | the form starts with every field empty and no images |
| NewProductForm.ProductForm.SetName | src/app/admin/products/new/page.tsx:128 | typing a name changes only the name |
| NewProductForm.ProductForm.SetDescription | src/app/admin/products/new/page.tsx:139 | typing a description changes only the description |
| NewProductForm.ProductForm.SetBasePrice | src/app/admin/products/new/page.tsx:153 | typing a price changes only the price text |
| NewProductForm.ProductForm.SetImageInput | src/app/admin/products/new/page.tsx:174 | typing a URL changes only the URL field |
| NewProductForm.ProductForm.AddImage | src/app/admin/products/new/page.tsx:54-62 | a blank URL changes nothing; otherwise the trimmed URL is appended after the existing images, the field is cleared, and the other fields are kept |
| NewProductForm.ProductForm.RemoveImage | src/app/admin/products/new/page.tsx:64-69 | removes exactly the image at the index and keeps the order of the rest; an index outside the list changes nothing |
| NewProductForm.SubmitBody | src/app/admin/products/new/page.tsx:33-38 | the posted body carries the name and description; a NaN or infinite price is `null`, a finite one a JSON number; the image text parses back to the form's list |
| NewProductForm.SubmittedImagesStored | src/app/admin/products/new/page.tsx:33-38 | a form with a name and a positive price is accepted by the route, which stores image text that parses back to the form's list; no images are stored as `[]`, not `null` |
| NewProductForm.UnparsablePriceIsMissing | src/app/admin/products/new/page.tsx:36 | a price field that parses to NaN or Infinity reaches the route as `null`, since `JSON.stringify` writes both as `null`, and is answered "required" |
| AdminStats.ComputeStats | src/app/admin/page.tsx:37-41 | the total is the list's length and neither other count exceeds it |
| AdminStats.StatsCountProducts | src/app/admin/page.tsx:37-41 | the active counter counts each active product as often as it occurs and no inactive one; the inactive counter the other way round |
| AdminStats.ActiveInactivePartition | src/app/admin/page.tsx:37-41 | active plus inactive is the total |
| AdminStats.AllActiveFilters | src/app/admin/page.tsx:39-40 | on a list of active products the active filter keeps everything and the inactive filter nothing |
| AdminStats.StatsOfPublicList | src/app/admin/page.tsx:24-41 | fed by the public list, the dashboard shows 0 inactive, and its total and active counts are the number of active rows in the table |
| Seed.SampleRow | src/lib/seed.ts:12-42 | a sample is stored active under its own name and price, with image text that parses back to its URLs |
| Seed.SampleProducts | src/lib/seed.ts:12-42 | there are three samples, in list order |
| Seed.SeedPlan | src/lib/seed.ts:5-48 | a run adds a prefix of the samples, and only to an empty table; without a failure it adds all three |
| Seed.SeedProducts | src/lib/seed.ts:3-54 | keeps the existing rows and appends exactly the rows of the plan, in order |
| Seed.CreateInOrder | src/lib/seed.ts:44-48 | creates the items in order up to the first failing create and keeps what was created before it |
| Seed.SeedRunsOnce | src/lib/seed.ts:5-10 | after a run that added rows, every later run adds nothing |
| Seed.PartialSeedIsFinal | src/lib/seed.ts:44-53 | a run whose second or third create fails leaves that many samples, and later runs never add the rest |
| Seed.SampleListContents | src/lib/seed.ts:12-42 | the names, prices (89.99, 99.99, 79.99) and image counts (2, 2, 1) of the samples, in order |
| Seed.SamplesWellFormed | src/lib/seed.ts:12-42 | every sample has a name, a description and a positive price |
| Seed.SampleRowPassesValidation | src/lib/seed.ts:12-42 | a sample's row is exactly what the `POST` route would store for the same fields |
| Seed.SeedKeepsPricesNonNegative | src/lib/seed.ts:44-48 | seeding never stores a negative price |

## Left out

- The JSX, the styling, the `loading` flags and navigation after a submit are left out: they only render.
- Translation tables and `t()` are left out: they are a lookup with no logic to prove.
- Prisma and the HTTP layer are left out. The table is an in-memory sequence, and a thrown store error is a boolean or a fault parameter.
- The Prisma schema is not part of this model. `updatedAt` and database defaults are not modelled.
- Prices are whole cents, not floats. Rounding and precision are not modelled. What `Number` and `parseFloat` read from a given string is an input to the model, not computed.
- ProductsRoute.Validate: checks the `parseFloat` reading, which is the price that is stored, as well as the `Number` reading the route checks, and refuses Infinity in both. The route as written checks only that the `Number` reading is neither NaN nor below 0. So for `" "`, `true` or an array it lets NaN through to `create`, and for `1e999` or `"Infinity"` it lets Infinity through. Only `ProductsRoute.ValidateAsWritten` models that.
- ProductsRoute.Post: refuses with 400 "Base price must be a valid positive number" the bodies the route as written would store with a NaN, infinite or negative price, for example `" "`, `true`, an empty array, `1e999` or `"Infinity"`. For `"0x10"` both store 0, the `parseFloat` reading, although the route checked 16.
- ProductsRoute.Validate: name, description and images are modelled as strings or missing. JSON bodies where they are numbers, booleans or objects are not modelled.
- Catalog.ProductTable.Create: creation times are modelled as a strictly increasing counter. Real timestamps that tie are not modelled, so the order among rows created in the same millisecond is not captured.
- LanguageContext.ToLower: lowers only ASCII letters. Other letters cannot turn a tag into one of the codes or into `austria`, so the chosen locale is the same.
- LanguageContext.LanguageProvider.DetectLocale: when no rule matches, the source leaves the state alone. The model sets English, which is that state on a freshly mounted provider.
- JsonArray: `\u` escapes for surrogate pairs are not read. `JSON.stringify` never writes them for the characters modelled here.
- The browser's own checks on the form (`required`, `min="0"`) are left out: they are browser behaviour, not code of this repository.
- The failure branch of `handleSubmit` (`alert`) is left out: it only reports.
- The dashboard after a failed fetch is left out. The 500 body `{ error }` is stored as `products`, and `products.filter` then throws a TypeError while rendering. The model only takes a list of products.
- The product detail page (src/app/products/[id]/page.tsx) is outside the modelled core. Its lookup of one product by id and its `notFound()` for a missing or inactive product are not modelled; only its `JSON.parse` of the image text is, as `JsonArray.Decode`.
- The public product page, the language switcher and the `scripts/seed.ts` wrapper are left out: they only call the modelled code.

## Findings

| source | as written | input that shows it | evidently intended | confidence | as-written member | corrected member |
|---|---|---|---|---|---|---|
| src/app/api/products/route.ts:35-46 | the check reads the price as `Number` does (`isNaN`, `< 0`), but `create` stores `parseFloat(basePrice)` | `{"name":"Lens","basePrice":" "}` passes both checks and `create` gets NaN; `"0x10"` is checked as 16 and stored as 0 | the price that is stored passes the same check as the price that is checked, so a stored NaN or negative price is refused with "Base price must be a valid positive number", and everything the route refuses stays refused | not executed; medium | ProductsRoute.CheckedPriceIsNotStoredPrice | ProductsRoute.Validate |
| src/app/api/products/route.ts:27-46 | the price passes when it is truthy and neither NaN nor below 0, and `create` gets `parseFloat(basePrice)` | `{"name":"Lens","basePrice":1e999}`, which `request.json()` reads as Infinity, or `{"name":"Lens","basePrice":"Infinity"}`: both checks pass and `create` gets Infinity | a price that is not a finite number is refused with "Base price must be a valid positive number" | not executed; medium | ProductsRoute.InfinitePriceAccepted | ProductsRoute.Validate |
