# Purchase-order generator: a Dafny model

This project models the logic at the centre of a purchase-order system. The
system has two parts.

- **A static PDF generator.** A browser page (`public/script.js`) shows a
  live preview and keeps saved vendors and line items in `localStorage`. An
  Express server (`server.js`) turns the form into a pdfmake document
  definition and serves the finished file from a temporary store.
- **A Django REST backend with a React front end.** Django
  (`backend/api/models.py`, `serializers.py`, `views.py`) owns the
  numbering, validation and PDF text of stored purchase orders. The React
  page `frontend/src/pages/CreatePurchaseOrder.js` builds and submits them.

Each source file maps to one module:

| module | source | form |
|---|---|---|
| `Common` | shared string helpers: digits, zero padding, JavaScript `trim` and Python `strip`, ASCII lower-casing, code-point string order | functions and lemmas |
| `Dates` | calendar dates, `MM/DD/YYYY`, the `CIT{MMDDYY}-{n}` number and its parser | functions and lemmas |
| `Money` | `Decimal` quantities and rates as whole hundredths, amounts and totals, round-half-even | functions and lemmas |
| `Json` | JSON values as loaded, truthiness in both languages, member lookup | functions |
| `Models` | `models.py`: stamp choices and defaults, the PO-number rule, `PurchaseOrder.save` | a `PurchaseOrder` class with `Save`, plus lemmas |
| `Serializers` | `serializers.py`: `validate`, `create`, the `setattr` loop of `update` | functions, and methods over `PurchaseOrder` |
| `Views` | `views.py`: request checks of `create`/`update`, owner filters, the PDF text | functions, a copying loop, lemmas |
| `Server` | `server.js`: flags, logo and stamp choice, vendor block, payment stack, file names, the download store | functions, a `DownloadStore` class |
| `Browser` | `public/script.js`: preview text, stamp preview, saving and loading templates | functions, and a `Page` class whose methods run the loops |
| `OrderForm` | `CreatePurchaseOrder.js`: schema, template picker, submit checks, id merge, signer name | functions, a method building the form data |

Some design choices in the model:

- **Side effects become inputs.** The clock, `localStorage`, the database
  of today's orders and the outcome of `JSON.parse`/`json.loads` are all
  parameters, so each operation is a function of what it reads.
  - A parse outcome is `Malformed` or `Parsed(value)`.
  - A stored list is `Absent`, `Unreadable` or `Items(list)`.
- **Money is exact.** Decimal quantities and rates are whole hundredths.
  Amounts are exact products in ten-thousandths.

## Model

| member | source | states |
|---|---|---|
| `Dates.PoNumberRoundTrip` | public/script.js:165-173 | From a valid date and any suffix, the number parses back to the month, day, two-digit year and suffix. The JavaScript last-two-characters year and Python's `%y` give the same number. |
| `Dates.PoNumberSuffixInjective` | backend/api/models.py:109 | Two numbers with the same date part are equal only when their suffixes are. |
| `Dates.DateParts` | backend/api/models.py:88 | `%m%d%y` and the JavaScript date part agree, and are six digits. |
| `Dates.ShortYearsAgree` | server.js:153 | `getFullYear().toString().slice(-2)` equals the zero-padded year mod 100, for years of two or more digits. |
| `Dates.NatToStringLastTwo` | public/script.js:172 | The last two characters of a year's decimal text are the year mod 100, padded to two digits. |
| `Dates.LongDateInjective` | backend/api/views.py:255 | The `%B %d, %Y` date the PDF prints determines the date. |
| `Common.NatToStringRoundTrip` | backend/api/models.py:102 | `int(str(n)) == n` on decimal text. |
| `Common.NatToStringInjective` | backend/api/models.py:109 | Distinct counters print distinctly. |
| `Common.TrimEmptyIffBlank` | public/script.js:1567-1569 | Trimming empties a string exactly when it consists of whitespace (JavaScript or Python set). |
| `Common.TrimStartFacts` | public/script.js:1567 | `trim` drops a leading whitespace run and stops at a non-space. |
| `Common.TrimEndFacts` | public/script.js:1567 | `trim` drops a trailing whitespace run and stops at a non-space. |
| `Common.StrLessTrichotomy` | backend/api/models.py:95 | The code-point order used for `order_by('-po_number')` is total. |
| `Common.StrLessTransitive` | backend/api/models.py:95 | That order is transitive. |
| `Common.AfterLastFacts` | backend/api/models.py:102 | `split('-')[-1]` is a suffix of the text, preceded by the separator unless it is the whole text. |
| `Common.AfterLastOfJoin` | backend/api/models.py:102 | `split('-')[-1]` of `prefix + "-" + tail` is `tail` when `tail` has no dash. |
| `Money.Amount` | backend/api/models.py:39-42 | The amount is exactly quantity × rate. |
| `Money.TotalAppend` | backend/api/models.py:78-81 | The total of concatenated item lists is the sum of their totals. |
| `Money.TotalPermutation` | backend/api/models.py:78-81 | The total does not depend on the order the items come back in. |
| `Money.RoundHalfEven` | backend/api/views.py:318-319 | Rounding to cents is the nearest whole cent, with ties to even. |
| `Money.RoundHalfEvenUnique` | backend/api/views.py:318-319 | Any value meeting those conditions is that rounding. |
| `Money.CentsTextRoundTrip` | backend/api/views.py:318 | The `:.2f` text of a rate reads back to the rate. |
| `Money.AmountTextClose` | backend/api/views.py:319 | The `:.2f` text of an amount reads back to its rounded value, within half a cent, with the amount's sign. |
| `Money.AmountTextRounds` | backend/api/views.py:319 | The `:.2f` text of an amount reads back to the half-even rounding of its magnitude, as Python's `Decimal` rounds, with the amount's sign. |
| `Money.RoundOnceDiffersFromRoundEach` | backend/api/views.py:319-336 | The printed total is not always the sum of the printed amounts: half-cent ties round differently. |
| `Json.LookupMember` | server.js:304-317 | Member lookup yields nothing exactly when no member has the key. Otherwise it yields the value of the last member with that key, as `JSON.parse` keeps the last duplicate. |
| `Json.TextOr` | server.js:313 | `${obj.key \|\| fallback}` in a template literal: a falsy or missing property gives the fallback, a truthy string gives its text. |
| `Server.PdfTextOr` | server.js:305 | `text: obj.key \|\| fallback` handed to pdfmake as it is: a falsy or missing property gives the fallback, a truthy string gives its text. |
| `Server.PdfTextOfPieces` | server.js:309 | pdfmake prints a raw array value as its pieces run together (`AB`) and an object by its `text` member (`X`). A template literal prints the same values as `A,B` and `[object Object]`. |
| `Models.ParseStampExact` | backend/api/models.py:59-63 | Exactly the three stored choices `original`, `cit` and `none` are accepted, each mapping back to itself. |
| `Models.NewState` | backend/api/models.py:65-76 | A new order has no number, no line items, payment days 30 and stamp `none`. |
| `Models.StrMaxIsMax` | backend/api/models.py:91-100 | The first row of `order_by('-po_number')` is one of today's numbers, and none is larger. |
| `Models.SuffixNumberOfPoNumber` | backend/api/models.py:101-103 | The counter read back from `CIT{part}-{n}` is `n`. |
| `Models.NextSuffix` | backend/api/models.py:97-107 | The next counter is at least 1. |
| `Models.NextSuffixOfGreatest` | backend/api/models.py:95-107 | For any string-greatest number of the day, the counter is one more than its suffix when that suffix is a number, and 1 otherwise. So the counter does not depend on the order the rows come back in. |
| `Models.StringOrderRepeatsNumber` | backend/api/models.py:95-107 | With `-10` and `-9` already issued today, the string-largest is `-9`, so the code issues `-10` again. |
| `Models.NumericSuffixIsFresh` | backend/api/models.py:95-109 | Taking the largest counter numerically gives a number none of today's rows has. |
| `Models.NextSuffixNumericAbove` | backend/api/models.py:97-107 | The numeric next counter exceeds every counter present. |
| `Models.NewPoNumberNonEmpty` | backend/api/models.py:85-109 | A generated number is non-empty, so `save` assigns it at most once. It starts with `CIT`. |
| `Models.PurchaseOrder.constructor` | backend/api/models.py:65-76 | The instance's state is the new-order defaults. |
| `Models.PurchaseOrder.SetAttr` | backend/api/serializers.py:129-130 | `setattr` changes one field and nothing else. |
| `Models.PurchaseOrder.SetLineItems` | backend/api/serializers.py:134-135 | `line_items.set` replaces the item set only. |
| `Models.PurchaseOrder.Save` | backend/api/models.py:83-114 | A number is assigned only when the order has none. `date` is always today. Nothing else changes. |
| `Models.SaveEffect` | backend/api/models.py:83-114 | The saved state keeps a present number and otherwise takes the generated one. The date is today. Every other field is unchanged. |
| `Models.SaveTwiceKeepsNumber` | backend/api/models.py:85 | A second save, on whatever day, keeps the first number. |
| `Serializers.Validate` | backend/api/serializers.py:86-99 | Validation fails exactly when line items are required (create, or update with items given) and the list is empty. |
| `Serializers.ValidCreateHasItems` | backend/api/serializers.py:95-98 | A valid create has at least one line item. |
| `Serializers.ApplyAllSets` | backend/api/serializers.py:129-130 | With distinct fields, each assigned field ends with its assigned value. |
| `Serializers.ApplyAllKeeps` | backend/api/serializers.py:129-130 | Fields not named in the data are untouched. |
| `Serializers.ApplyAllExact` | backend/api/serializers.py:129-130 | A field changes only if it is assigned. |
| `Serializers.IdSet` | backend/api/serializers.py:112 | The set given to `line_items.set` has exactly the listed ids. |
| `Serializers.UpdateEffect` | backend/api/serializers.py:119-137 | After update, the fields and date are as set by `setattr` and `save`. Line items are replaced only when given. |
| `Serializers.UpdateSetsField` | backend/api/serializers.py:129-132 | An assigned field other than the date keeps its new value through `save`. |
| `Serializers.Update` | backend/api/serializers.py:119-137 | The `setattr` loop, `save` and `set`, proved to reach the updated state. |
| `Serializers.CreateEffect` | backend/api/serializers.py:101-117 | A created order belongs to the requesting user and has a generated number and today's date. Its item set is the list given, when non-empty. |
| `Serializers.Create` | backend/api/serializers.py:101-117 | The method reaches that state on a fresh object. |
| `Serializers.CreateSavedVendor` | backend/api/serializers.py:29-31 | The template belongs to the requesting user and keeps vendor and name. |
| `Serializers.CreateSavedLineItem` | backend/api/serializers.py:54-56 | The template belongs to the requesting user and keeps line item and name. |
| `Views.CheckRequest` | backend/api/views.py:105-147 | The early returns in order: missing signature; on create, missing ids; malformed JSON; empty or non-list ids. Otherwise one entry per id. |
| `Views.PassedRequest` | backend/api/views.py:119-134 | A passed request has a signature and, when it has ids, a non-empty array. |
| `Views.UpdateChecksAsCreate` | backend/api/views.py:158-196 | Update answers as create except that a missing ids entry passes. |
| `Views.CheckAndCopy` | backend/api/views.py:118-134 | The `pop` + `appendlist` loop copies exactly the loaded ids. |
| `Views.ItemsEntry` | backend/api/views.py:173-198 | The serializer sees the resolved ids when the request carried them. Without them it sees no entry on a partial update and an empty list otherwise. |
| `Views.PassedRequestValidates` | backend/api/views.py:158-198 | After the view's checks pass and the ids resolve, `validate` passes exactly when the request carried ids or the update is partial. A full `PUT` without ids is refused with an empty item list. |
| `Views.OwnedBy` | backend/api/views.py:102-103 | The filter keeps exactly the caller's rows. |
| `Views.OwnedByAppend` | backend/api/views.py:74-75 | The filter keeps row order across a concatenation. |
| `Views.CreatedVendorTemplateVisibility` | backend/api/views.py:74-75 | A new vendor template appears in its creator's list and in no one else's. |
| `Views.CreatedLineItemTemplateVisibility` | backend/api/views.py:92-93 | A new line-item template appears in its creator's list and in no one else's. |
| `Views.OrdersOfOnlyOwn` | backend/api/views.py:102-103 | Every listed order is the caller's. |
| `Views.Chunks` | backend/api/views.py:314 | Slicing by `n` gives non-empty chunks, all of length `n` except perhaps the last. They concatenate back to the text, and there are none for empty text. |
| `Views.ChunkCount` | backend/api/views.py:314 | There are ⌈len/n⌉ chunks. |
| `Views.NotesLines` | backend/api/views.py:341-351 | Notes are printed only when non-empty. The lines are 1 to 80 characters, all exactly 80 except the last, and rejoin to the notes. |
| `Views.TotalText` | backend/api/views.py:336 | The total is printed as `$` and a two-place number. It reads back to the exact total within half a cent, and to its half-even rounding, so a tie goes to the even cent. |
| `Views.PaymentTextParts` | backend/api/views.py:287-290 | The payment line is `Net {days} days`, followed by ` - {terms}` exactly when there are terms. |
| `Views.PaymentTextInjective` | backend/api/views.py:287-290 | The payment line determines both the days and the terms. |
| `Views.RowOfShows` | backend/api/views.py:310-319 | A table row reads back to quantity and rate, shows the amount to the cent, and its description lines rejoin. |
| `Views.StampFile` | backend/api/views.py:354-361 | A stamp image is drawn exactly when the choice is not `none` and `stamp-{choice}.png` exists. |
| `Views.StampFileDistinct` | backend/api/views.py:355 | Distinct choices use distinct files. |
| `Views.GeneratedBy` | backend/api/views.py:373 | The PDF names the stripped full name, or the username when that is blank. |
| `Views.Disposition` | backend/api/views.py:384-388 | `inline` only for the exact parameter `inline`, otherwise `attachment`, with file name `PO_{number}.pdf`. |
| `Views.DispositionReadsBack` | backend/api/views.py:384-388 | The header reads back to its mode and number. |
| `Server.FieldOr` | server.js:85-91 | `req.body.x \|\| fallback`: an absent or empty field gives the fallback. |
| `Server.LastIndex` | server.js:132 | The last occurrence of a character, or none exactly when it is absent. |
| `Server.UploadMimeIsPng` | server.js:132-133 | An upload is `image/png` exactly when its file name ends in `.png` in any case, with a non-empty stem. Every other upload is `image/jpeg`. |
| `Server.ChooseLogo` | server.js:116-138 | The default logo when asked for and present. Otherwise the upload, unless the default was asked for. Otherwise none. |
| `Server.Header` | server.js:228-235 | With no logo the header is the text `CHEM-IS-TRY, INC.`, otherwise the logo image. |
| `Server.FlagCases` | server.js:89-98 | A flag is on only for the exact text `true`. `True`, `1`, `on`, empty and absent are all off. |
| `Json.SafeJsonParse` | server.js:67-74 | The parsed value, or the default exactly when parsing fails (or the text parses to the default itself). |
| `Server.Stamps` | server.js:172-192 | The original stamp is placed exactly when it is selected and its file exists, and likewise the CIT stamp. |
| `Server.StampLayoutPlacesLoaded` | server.js:262-290 | Two loaded stamps give 100×50 images at (70,535) and (150,525), overlapping at an offset. One gives a 120×60 image at (70,530). None gives no image. |
| `Server.VendorLines` | server.js:304-320 | A vendor value that is `null` fails. Any other gives four lines, each part `\|\| ''`. Name, address and country are the raw values as pdfmake prints them. The third line is the template literal `{city}, {state} {zip}`. |
| `Server.VendorFieldDefaults` | server.js:304-320 | For any non-null vendor, each field on its own is blank when missing or falsy, and is its text when it is a non-empty string. This holds both as pdfmake prints it and inside the template literal. |
| `Server.VendorCityLineBlank` | server.js:313 | With city, state and zip all missing or falsy, the third line is `,  `. |
| `Server.MalformedVendorIsBlank` | server.js:304-320 | An unparsable vendor (parsed with the `{}` fallback) prints blank lines and `,  `. |
| `Server.VendorLinesOfText` | server.js:304-320 | A vendor of strings prints name, address, `{city}, {state} {zip}` and country. |
| `Server.Present` | server.js:387 | `filter(Boolean)` keeps exactly the present entries. |
| `Server.PaymentStackLines` | server.js:377-387 | Line 1 appears exactly when its flag is set, and likewise line 2, in that order and nothing else. |
| `Server.PoFilenameReadsBack` | server.js:404-407 | The file name is `PO_`, the number, then `_{time}.pdf`. |
| `Server.InvoiceFilenameFallback` | server.js:409-410 | Without an invoice number, the name carries the last six digits of the time. |
| `Server.GeneratePo` | server.js:77-411 | A document is produced exactly for the `po` type, a vendor that is not `null` and items that can be read. |
| `Server.GeneratedNamesAgree` | server.js:149-153 | The file name (lines 404-407) carries the number the document shows, and that number carries the date's fields and the suffix. |
| `Server.DownloadStore.constructor` | server.js:439-441 | The store starts empty. |
| `Server.DownloadStore.Publish` | server.js:413-426 | Writing a file stores its bytes under its name and returns `/download/{name}`. |
| `Server.DownloadStore.Download` | server.js:439-460 | A stored name is served. Any other gets 404 `File not found`. |
| `Server.DownloadStore.Evict` | server.js:451-455 | Deletion removes exactly that name. |
| `Server.PublishServeEvict` | server.js:413-460 | In a store, a file written by generation is served with its bytes, then gets 404 once its deletion runs. A file of another name is served as before. The store ends as it began, less that name. |
| `Browser.PreviewPoNumberFields` | public/script.js:165-173 | The previewed number carries the date's month, day and two-digit year and the suffix (1 for an empty field). With no date it is `CITMMDDYY-1`. |
| `Browser.PreviewNumberAgrees` | public/script.js:165-173 | From the same calendar fields and suffix, the preview prints the server's number. For a numeric suffix it prints Django's. |
| `Browser.FormatDateShape` | public/script.js:155-163 | For four-digit years the date and the placeholder are both `__/__/____`. |
| `Browser.PreviewVendor` | public/script.js:236-251 | Name and address default to `--`. The city line is `--` exactly when city, state and zip are all empty; otherwise `{city\|--}, {state\|--} {zip\|-----} {country\|USA}`. |
| `Browser.PreviewPaymentTerms` | public/script.js:901-923 | Line 1 `Payment : Net {days\|30} days` exactly when checked, and the delivered-prices line last exactly when checked. |
| `Browser.PreviewPaymentTermsAsServer` | public/script.js:901-923 | The preview shows the lines the server prints for the same inputs. |
| `Browser.PreviewStampsPlaced` | public/script.js:1077-1117 | None selected: empty. One: in front at right 30px, z 10, rotated -10°. Both: the original in front, the CIT stamp behind it at right 80px, z 5. |
| `Browser.FirstMatch` | public/script.js:1617 | `findIndex` by lower-cased name: the first matching index, or none exactly when no entry matches. |
| `Browser.FindIndex` | public/script.js:1617 | The search loop returns that index, or -1. |
| `Browser.UpsertInPlace` | public/script.js:1617-1622 | Assign-at-index or `push` is the upsert. |
| `Browser.UpsertEffect` | public/script.js:1617-1622 | The entry replaces the first match, or is appended. Every other entry stays where it was. |
| `Browser.UpsertFinds` | public/script.js:1617-1622 | Afterwards the entry is the first with its key. |
| `Browser.UpsertIdempotent` | public/script.js:1617-1622 | Saving the same entry twice is saving it once. |
| `Browser.UpsertKeepsDistinct` | public/script.js:1617-1622 | Upserts keep keys distinct, ignoring case. |
| `Browser.VendorSaveDateShape` | public/script.js:1574-1588 | For four-digit years the save date is `MM/DD/YY`, from the date input or else today. |
| `Browser.SaveRowsFindsEach` | public/script.js:1760-1791 | After the `forEach`, every described row has an entry under its trimmed description, and keys stay distinct. |
| `Browser.Page.constructor` | public/script.js:1564-1566 | The page holds the given stored lists and rows. |
| `Browser.Page.SaveVendor` | public/script.js:1564-1624 | A blank trimmed name alerts and stores nothing. Otherwise the trimmed vendor (country `USA` by default) is upserted by name, ignoring case, and unreadable storage counts as empty. |
| `Browser.Page.SaveLineItems` | public/script.js:1724-1798 | No rows alerts. No described row alerts and writes nothing. Otherwise each described row is upserted, in order, with quantity `1` and rate `0.00` by default. |
| `Browser.Page.LoadLineItems` | public/script.js:1809-1876 | Index ≤ 0, unreadable storage or a missing entry changes nothing. Otherwise exactly one row remains, holding entry `index - 1`. |
| `Browser.LoadedRowsEffect` | public/script.js:1809-1849 | The same, as a property of the resulting rows. |
| `OrderForm.SchemaAccepts` | frontend/src/pages/CreatePurchaseOrder.js:13-37 | The schema reports no error exactly when vendor, date and stamp are given and payment days is a positive integer. There must also be at least one item, each with positive quantity and rate and a description. |
| `OrderForm.ItemsErrorsEmpty` | frontend/src/pages/CreatePurchaseOrder.js:23-36 | The item rules report nothing exactly when every item is valid. |
| `OrderForm.DefaultStampRefused` | frontend/src/pages/CreatePurchaseOrder.js:484 | The form's default stamp `both` passes its own schema but is none of the model's choices. |
| `OrderForm.Without` | frontend/src/pages/CreatePurchaseOrder.js:111-112 | The filter drops exactly the given id. |
| `OrderForm.ToggleFlips` | frontend/src/pages/CreatePurchaseOrder.js:109-116 | Toggling flips whether the template is selected and no other. |
| `OrderForm.ToggleTwice` | frontend/src/pages/CreatePurchaseOrder.js:109-116 | An unselected template is appended, and toggling it again restores the selection. |
| `OrderForm.Apply` | frontend/src/pages/CreatePurchaseOrder.js:119-130 | The existing items, then the selected templates' items in order with `id` cleared. The count added equals the selection size, and the selection is emptied. |
| `OrderForm.ApplyAddsNewItems` | frontend/src/pages/CreatePurchaseOrder.js:119-130 | Applied templates add no existing ids, only new items, one per template. |
| `OrderForm.IdsSplit` | frontend/src/pages/CreatePurchaseOrder.js:249-258 | The two filters keep order and together cover every row once. |
| `OrderForm.CheckSubmit` | frontend/src/pages/CreatePurchaseOrder.js:190-207 | Submission stops on an empty list. It proceeds exactly when every item has a truthy quantity, description and rate. |
| `OrderForm.SchemaValidSubmits` | frontend/src/pages/CreatePurchaseOrder.js:190-207 | Values the schema accepts pass the submit checks. |
| `OrderForm.Delete` | frontend/src/pages/CreatePurchaseOrder.js:304 | `FormData.delete` leaves no entry of that name. |
| `OrderForm.DeleteRemoves` | frontend/src/pages/CreatePurchaseOrder.js:304 | Deletion empties that name and keeps every other. |
| `OrderForm.BuildSubmission` | frontend/src/pages/CreatePurchaseOrder.js:220-331 | It stops without a signature. The form is sent exactly when the new items are complete and some id exists. A sent form has the scalar fields and one `line_item_ids`: existing ids, then created ids. A signed form that stops gets the incomplete-items message exactly when a new item is incomplete, and the no-items message otherwise. |
| `OrderForm.SentPassesChecks` | frontend/src/pages/CreatePurchaseOrder.js:249-311 | Once loaded by the server, the ids of a sent form pass the views' checks on create and update. |
| `OrderForm.SignatureName` | frontend/src/pages/CreatePurchaseOrder.js:146-170 | `first last` when both are set, otherwise the username. Nothing without a user. |
| `OrderForm.SignatureAgreesWithPdf` | frontend/src/pages/CreatePurchaseOrder.js:168-170 | For both names without surrounding space, the drawn name is the PDF's. |
| `OrderForm.SignatureDiffersWithFirstNameOnly` | frontend/src/pages/CreatePurchaseOrder.js:168-170 | With only a first name, the signature shows the username while the PDF shows the first name. |
| `OrderForm.SummaryMatchesPdfIffNoTerms` | frontend/src/pages/CreatePurchaseOrder.js:807 | The summary equals the PDF's payment line exactly when there are no terms. |

## Left out

- **Browser and server calendars.** The JavaScript `Date` rollover of out-of-range fields, time zones and the EST offset are left out. Dates are calendar fields given as inputs. `server.js` parses the date as UTC and reads local fields, so its number can be a day off from the browser's. `Browser.PreviewNumberAgrees` therefore only compares the two on equal fields.
- **Floating-point money.** JavaScript totals (`parseFloat`, `toFixed`, `toLocaleString`) are left out. Only the exact `Decimal` path is modelled. Decimal field limits are stated (`Money.FitsField`) but overflow errors are not.
- **Drawing.** PDF drawing, coordinates other than the stamp placement, fonts, base64 encoding and the canvas strokes of the signature are left out. Only which text and images appear is modelled.
- **Years below 1000.** `Dates.ValidDate` requires a year of at least 1000, so every date lemma leaves out years 1 to 999. A date input accepts them, and `new Date(y, m - 1, d)` in `formatDate`/`formatPONumber` maps years 0 to 99 onto 1900 to 1999.
- `Views.ItemsEntry`: how Django REST framework reads a many-valued field missing from form input is taken to be an empty list, or no entry when the serializer is partial. The library is not part of this model.
- `Server.PdfText`: the model covers only the characters pdfmake prints for a raw `text` value. The styles, margins and line breaks that nested pieces can carry are not modelled. Neither is a `null` piece inside an array: the model prints it as nothing, which need not be what pdfmake does.
- `Server.DownloadStore.Publish`, `Server.DownloadStore.Download`, `Server.PublishServeEvict`: the store is keyed by the raw file name. The server actually resolves `path.join(__dirname, 'temp', filename)` (server.js:413, 442), and the model drops that normalisation. A decoded name such as `../server.js`, or a `poSuffix` containing `../`, reaches files outside `temp/`, and two different names can denote one file. For such names "any other name gets 404" and "a file of another name is served as before" do not hold of the server.
- **Side effects and foreign calls.** File system access, multer upload naming, the network, axios calls, the auth context and the database are inputs or left out. This includes the 60-second `setTimeout` (it is the separate `DownloadStore.Evict`) and the 500 path of `res.download`.
- **The invoice branch.** Its document definition is empty, so `createPdfKitDocument` receives `undefined`. `Server.GeneratePo` yields `Failed`. The invoice file name is still modelled (`Server.InvoiceFilename`).
- **Unicode.** Case folding is ASCII only. String order is by code point, taken as the database collation.
- **Parsing.** JSON numbers are integers. The JSON texts themselves are not parsed: parse outcomes are inputs.
- **Django internals.** DRF field validation and primary-key resolution are left out: `resolved` ids are given. So is Python `int()` accepting signs, spaces and underscores in a suffix.
- **Malformed stored entries.** Saved entries lacking `name` or `description` make `toLowerCase` throw. The model's entries always have both.
- **`Browser.Page.LoadLineItems`:** stored JSON that parses but is not an array is treated like unreadable storage (no change). For a string the browser would index its characters.
- **`OrderForm.BuildSubmission`:** the created ids are given as the responses of the line-item posts. A failed post and the PUT/POST request itself are left out.
- **`OrderForm.SchemaAccepts`:** Yup's casting of strings to numbers and of text to dates is taken as done. A numeric input is blank or a number with its printed form.
- **Other page logic.** Vendor form validation (`VendorSchema`), dropdown rendering, and the remaining UI pages and configuration are not part of this model.

## Findings

| source | as written | input that shows it | evidently intended | confidence | as-written member | corrected member |
|---|---|---|---|---|---|---|
| backend/api/models.py:95-103 | today's highest number is found with `order_by('-po_number')`, a string order | today already has `CIT{d}-10` and `CIT{d}-9`: the string-largest is `-9`, so the new number is `CIT{d}-10` again, and the unique constraint rejects it | the largest counter numerically, so the new number is fresh | high (not executed) | `Models.StringOrderRepeatsNumber` | `Models.NumericSuffixIsFresh` |
