# ServiceOnboard in Dafny

ServiceOnboard is a small web application for onboarding vehicle service
centers. A React client collects a center's name, contact details, address,
coordinates, service categories and up to five photos. It validates them and
posts them as a multipart body. An Express server stores the photos on
Cloudinary, deletes Multer's temporary copies and writes the row with Prisma.
It answers 201 with the row, or 500 with an error.

This project models both halves:

- **Client: the form hook** (`serviceform.dfy`). It is a class
  `FormController` holding the hook's state (form values, errors, previews,
  status flags). Each handler is a method with its full new state in its
  postcondition. The category toggle, image selection, removal and
  validation are covered. So is each asynchronous handler, as two methods:
  one runs up to its `await` and raises its busy flag, the other runs once
  the awaited call has settled and lowers the flag. Other handlers may run
  in between. The location, address-autofill and submit handlers are split
  this way.
- **Client: the request and its answer** (`submitapi.dfy`). This covers the
  multipart body `submitServiceForm` builds and how it turns the HTTP answer
  into a value or an error message.
- **Client: location** (`location.ts` → `location.dfy`). The two-stage
  geolocation request is a small state machine. The reverse-geocoding answer is
  mapped to address fields.
- **Client: pagination** (`pagination.dfy`). This is the page count and the
  moves the previous/next buttons make.
- **Server: the external systems** (`backend.dfy`). The local disk, Cloudinary
  and the Prisma table are classes with just the state the handlers observe.
- **Server: the handlers.** `imageservice.dfy`, `centerservice.dfy` and
  `controller.dfy` hold the controller route. `inlinehandler.dfy` holds the
  inline handler in `index.ts`, which is the handler the server actually
  mounts.
- **End to end** (`roundtrip.dfy`). From the form to the stored row: every
  field arrives as the client held it, with the one exception the code
  produces for categories.

Shared pieces:

- `jstext.dfy` has the JavaScript string semantics the code relies on:
  - `\s` and `trim`;
  - truthiness;
  - `includes`;
  - the decimal rendering of a status code.
- `formtypes.dfy` has the form's shapes.
- `request.dfy` has the server's view of a request and its responses.
- `wrappers.dfy` has `Option` and `Result`.

The following are parameters:

- the browser's geolocation answers;
- `fetch` outcomes;
- Cloudinary's answer for each path (a function from path to optional URL);
- whether the database write throws.

## Model

| member | source | states |
|---|---|---|
| JsText.TrimEmptyIffBlank | client/src/hooks/useServiceForm.ts:115 | `trim` of a string is empty exactly when every character is JavaScript whitespace |
| JsText.IncludesIffOccurs | client/src/hooks/useServiceForm.ts:151 | `includes` holds exactly when the needle occurs at some position of the string |
| FormTypes.ServiceFormData.With | client/src/hooks/useServiceForm.ts:36 | spreading the form with one text field set changes that field to the value and leaves every other field, the categories and the images as they were |
| ServiceForm.Without | client/src/hooks/useServiceForm.ts:48 | filtering out a category keeps exactly the other categories and never lengthens the list |
| ServiceForm.Toggle | client/src/hooks/useServiceForm.ts:46-51 | after a toggle a category is selected exactly when it was not before; every other category is unaffected |
| ServiceForm.ToggleTwiceRestores | client/src/hooks/useServiceForm.ts:46-51 | toggling an unselected category twice gives back the same list |
| ServiceForm.ToggleTwiceMovesLast | client/src/hooks/useServiceForm.ts:46-51 | toggling a selected category twice keeps the selection but moves that category to the end |
| ServiceForm.ToggleKeepsDistinct | client/src/hooks/useServiceForm.ts:46-51 | a selection without repeats stays without repeats under toggling |
| ServiceForm.Oversized | client/src/hooks/useServiceForm.ts:58 | the oversized files are exactly the selected files larger than 5 MiB |
| ServiceForm.RemoveAt | client/src/hooks/useServiceForm.ts:78-79 | filtering by index drops the element at a valid index and shifts the later ones down; any other index leaves the list unchanged |
| ServiceForm.FreshPreviews | client/src/hooks/useServiceForm.ts:70 | one new object URL per selected file, in file order, none of them used before |
| ServiceForm.IsPhone | client/src/hooks/useServiceForm.ts:116 | `/^[6-9]\d{9}$/` as a character predicate: ten digits, the first 6-9; sample values in `FormatExamples` |
| ServiceForm.IsZip | client/src/hooks/useServiceForm.ts:120 | `/^\d{6}$/` as a character predicate: exactly six digits; sample values in `FormatExamples` |
| ServiceForm.IsEmail | client/src/hooks/useServiceForm.ts:117 | the email test, a scan for the first `@` and the last usable `.`; `EmailTestMatchesPattern` proves it equal to the regex's language |
| ServiceForm.EmailTestMatchesPattern | client/src/hooks/useServiceForm.ts:117 | the email check accepts exactly the strings `^\S+@\S+\.\S+$` matches |
| ServiceForm.FormatExamples | client/src/hooks/useServiceForm.ts:116-120 | sample phone, zip and email values are accepted or rejected as the rules intend |
| ServiceForm.ValidIffNoViolation | client/src/hooks/useServiceForm.ts:115-123 | the form satisfies all nine rules, stated field by field, exactly when no error key's rule fails |
| ServiceForm.CollectErrors | client/src/hooks/useServiceForm.ts:114-123 | the rule checks of `validate` in order, each failed rule adding its key and message; characterised by `CollectErrorsExact` |
| ServiceForm.ValidationErrors | client/src/hooks/useServiceForm.ts:113-125 | the errors object `validate` builds; characterised by `ValidationErrorsExact` |
| ServiceForm.CollectErrorsExact | client/src/hooks/useServiceForm.ts:114-124 | checking rules in order records exactly the failed ones, each with its own message |
| ServiceForm.ValidationErrorsExact | client/src/hooks/useServiceForm.ts:113-126 | the errors object names exactly the violated rules with their messages, and is empty exactly when the form is valid |
| ServiceForm.Assign | client/src/hooks/useServiceForm.ts:36 | writing a field name sets that field (text or categories) and nothing else |
| ServiceForm.SubmitAlert | client/src/hooks/useServiceForm.ts:150-155 | a message mentioning "Unexpected token" or "JSON" shows the busy alert; any other non-empty message is shown as is; an empty one shows the unknown-error alert |
| ServiceForm.NonJsonAlert | client/src/services/api.ts:56-68 | a non-JSON answer reaches the user as the too-large, timeout or critical-error text for its status, never as the busy alert |
| ServiceForm.UnparseableJsonAlert | client/src/hooks/useServiceForm.ts:150-152 | a JSON body that fails to parse with a message mentioning JSON shows the busy alert |
| ServiceForm.OnlyRulesFail | client/src/hooks/useServiceForm.ts:115-123 | only the nine checked keys can carry a failed rule |
| ServiceForm.FormController.constructor | client/src/hooks/useServiceForm.ts:7-33 | the first render: the initial form with country "India", no errors, no previews, every status flag off |
| ServiceForm.FormController.UpdateField | client/src/hooks/useServiceForm.ts:35-40 | writes one field; clears that field's error only if it held a message; every other error, preview and flag is kept |
| ServiceForm.FormController.HandleCategoryChange | client/src/hooks/useServiceForm.ts:46-51 | the categories become the toggled list and the categories error is cleared if set |
| ServiceForm.FormController.HandleImageChange | client/src/hooks/useServiceForm.ts:53-73 | no files: nothing; an oversized file: the size alert and no change; over five images in total: the count alert and no change; otherwise the files and one fresh preview each are appended and the images error is cleared |
| ServiceForm.FormController.RemoveImage | client/src/hooks/useServiceForm.ts:75-80 | the image and the preview at the index are dropped and that preview is released; images and previews stay paired |
| ServiceForm.FormController.StartGetLocation | client/src/hooks/useServiceForm.ts:82-86 | the locating flag goes up and the location error is cleared; nothing else changes |
| ServiceForm.FormController.FinishGetLocation | client/src/hooks/useServiceForm.ts:86-96 | the settlement is `PositionOutcome` of the device's answers. A fix writes both coordinates into the form as it is now. A rejection sets the location error to "Unable to retrieve location". Either way the locating flag goes down |
| ServiceForm.FormController.StartAutoFillAddress | client/src/hooks/useServiceForm.ts:99-103 | no latitude: the fetch-coordinates alert and no change. Otherwise the fetching flag goes up and the current coordinates are looked up |
| ServiceForm.FormController.FinishAutoFillAddress | client/src/hooks/useServiceForm.ts:103-110 | the parsed answer is mapped by `ReverseGeocodeFields`. A success overwrites city, state and zip in the current form, sets the country to "India" and clears those three errors. Any failure alerts "Could not fetch address details" and changes nothing. Either way the fetching flag goes down |
| ServiceForm.FormController.Validate | client/src/hooks/useServiceForm.ts:113-127 | the errors become `ValidationErrors` of the form, which holds exactly the failed rules with their messages. The result is true exactly when the form is valid |
| ServiceForm.FormController.HandleSubmit | client/src/hooks/useServiceForm.ts:129-139 | while submitting: nothing. Otherwise the errors become exactly `ValidationErrors` of the form. An invalid form gets the fix-errors alert. A valid form sets the flag and sends exactly `FormEntries(form)` |
| ServiceForm.FormController.FinishSubmit | client/src/hooks/useServiceForm.ts:139-158 | on success every preview seen at submit time is released and the form is reset; on failure the alert derived from the error message is shown; the flag is cleared either way |
| SubmitApi.FormEntries | client/src/services/api.ts:16-36 | the body as a list of parts: text fields, categories, images. Read back by `TextFieldSentOnce`, `CategoriesSent` and `ImagesSent` |
| SubmitApi.BuildFormData | client/src/services/api.ts:16-36 | the appends produce the text fields in key order, then every category, then every image |
| SubmitApi.TextFieldSentOnce | client/src/services/api.ts:19-26 | every text field travels as exactly one part under its own key, holding the form's value |
| SubmitApi.CategoriesSent | client/src/services/api.ts:29-31 | the "categories" parts carry the selected categories in order, and no other part uses that name |
| SubmitApi.ImagesSent | client/src/services/api.ts:34-36 | the file parts are exactly the images, in order, under "images" |
| SubmitApi.ReadResponse | client/src/services/api.ts:46-69 | success exactly for a parsed JSON 2xx answer; a JSON error uses the server's `error` or "Server Error: status"; non-JSON gives the 413, 504 or critical text |
| SubmitApi.SubmitResult | client/src/services/api.ts:38-69 | a rejected `fetch` passes its message through; a received answer is read as above |
| SubmitApi.NonJsonNeverSucceeds | client/src/services/api.ts:56-68 | a non-JSON answer is never a success, whatever its status |
| Location.PositionRequest.constructor | client/src/services/location.ts:4-8 | without geolocation support the promise rejects with the not-supported message and nothing is requested; otherwise one high-accuracy request (15 s timeout) is outstanding |
| Location.PositionRequest.OnSuccess | client/src/services/location.ts:25-27 | a fix at either stage resolves the promise with it |
| Location.PositionRequest.OnError | client/src/services/location.ts:30-64 | first stage: permission denied rejects at once, any other code issues one low-accuracy request (10 s); second stage: rejects with the message for the code |
| Location.GetCurrentPosition | client/src/services/location.ts:2-74 | once the browser answers each request, the whole call settles after at most two requests, high accuracy first. Its outcome is `PositionOutcome` of the answers |
| Location.PositionOutcome | client/src/services/location.ts:4-64 | reference definition of the settlement, answer by answer. `GetCurrentPosition` is proved to reach it |
| Location.LowAccuracyMessage | client/src/services/location.ts:49-64 | the rejection text for codes 1, 2 and 3, and "Unable to retrieve location." for any other code; used by `PositionRequest.OnError` |
| Location.ReverseGeocodeFields | client/src/services/location.ts:76-94 | no data or no address object gives "Address not found"; otherwise the city is the first truthy candidate, state and zip default to "", and the country is "India" |
| Location.FirstTruthyIsFirst | client/src/services/location.ts:89 | a chain of JavaScript or-defaults yields the first truthy candidate, or "" when there is none |
| Location.CityChain | client/src/services/location.ts:89 | the six-way city chain is the first-truthy rule over the candidates in source order |
| Pagination.TotalPages | client/src/components/Pagination.tsx:12 | the smallest page count that holds all the items; zero exactly when there are no items |
| Pagination.PrevPage | client/src/components/Pagination.tsx:16-20 | `handlePrev`'s emitted page; `MovesStayInRange` keeps it in range and empty exactly when the button is disabled |
| Pagination.NextPage | client/src/components/Pagination.tsx:22-26 | `handleNext`'s emitted page; `MovesStayInRange` keeps it in range and empty exactly when the button is disabled |
| Pagination.MovesStayInRange | client/src/components/Pagination.tsx:16-45 | from a page in range, previous and next move by one and stay in range; each emits nothing exactly when its button is disabled |
| Pagination.SomeMoveWhenRendered | client/src/components/Pagination.tsx:14-26 | whenever the component renders, one of the two buttons moves |
| Request.Categories | controllers/serviceCenterController.ts:29-34 | a falsy value gives no categories, an array is kept, a string becomes a list of one |
| Request.JsString | controllers/serviceCenterController.ts:62-63 | `String()` of a missing value is "undefined", of a string the string, of an array its comma join |
| Request.Details | controllers/serviceCenterController.ts:79 | an `Error` yields its message; anything else yields "Unknown error" |
| Backend.LocalDisk.Unlink | services/imageService.ts:14 | deleting removes the path, and reports failure exactly when the path was not there |
| Backend.Cloudinary.Upload | services/imageService.ts:9-11 | one upload records the attempt and, on success, the URL it handed out |
| Backend.Database.Create | services/serviceCenterService.ts:18-23 | a rejected write changes nothing; an accepted one appends the row under the next id, keeping ids increasing |
| Backend.NewestFirst | controllers/serviceCenterController.ts:88-90 | the listing is the rows in reverse creation order |
| Backend.NewestFirstFallingIds | controllers/serviceCenterController.ts:88-90 | the listing's ids strictly fall |
| ImageService.UploadAll | services/imageService.ts:7-27 | what `Promise.all` over the uploads yields; `UploadAllExact` characterises it |
| ImageService.Cleaned | services/imageService.ts:31-37 | the disk after the guarded deletes; `CleanedIsDifference` proves it is the set difference |
| ImageService.UploadAllExact | services/imageService.ts:7-27 | the uploads succeed exactly when every file's upload succeeds; the URLs are then one per file, in file order |
| ImageService.OneFailureFailsAll | services/imageService.ts:17-26 | one failed upload fails the whole call with no partial list |
| ImageService.CleanedIsDifference | services/imageService.ts:31-37 | cleanup removes exactly the listed paths from the disk and nothing else |
| ImageService.CleanupIdempotent | services/imageService.ts:31-37 | cleaning up twice is the same as cleaning up once |
| ImageService.UploadOne | services/imageService.ts:7-24 | one file is uploaded, and its temporary path is gone afterwards whether the upload succeeded or not |
| ImageService.UploadEach | services/imageService.ts:7-27 | every file is attempted in order; the result is the `UploadAll` outcome and every request path is deleted |
| ImageService.UploadImagesToCloudinary | services/imageService.ts:4-28 | a missing or empty list gives [] with no upload; otherwise the `UploadAll` outcome, every temporary path deleted, every URL one Cloudinary issued |
| ImageService.CleanupLocalFiles | services/imageService.ts:31-37 | a missing list changes nothing; otherwise exactly the listed paths are deleted, and no delete fails |
| CenterService.CountryOrDefault | services/serviceCenterService.ts:21 | a falsy country becomes "India"; any other value is kept |
| CenterService.WithDefaultCountry | services/serviceCenterService.ts:19-22 | the stored data is the input with only the country defaulted |
| CenterService.DefaultedCountryIsTruthy | services/serviceCenterService.ts:21 | the stored country is never falsy |
| CenterService.WithDefaultCountryIdempotent | services/serviceCenterService.ts:19-22 | defaulting twice is defaulting once |
| CenterService.CreateServiceCenter | services/serviceCenterService.ts:17-24 | the row is created with the defaulted country, or the database's error is returned with no row added |
| Controller.ControllerData | controllers/serviceCenterController.ts:54-66 | text fields pass through as the body held them, the coordinates through `String()`, with the normalised categories and the uploaded URLs |
| Controller.ControllerResponse | controllers/serviceCenterController.ts:43-81 | the controller's answer for each upload and write outcome; characterised by `ControllerResponseShape` |
| Controller.ControllerResponseShape | controllers/serviceCenterController.ts:43-81 | the answer is 201 exactly when uploads and the write succeeded; the 201 row holds the uploaded URLs, the normalised categories and a truthy country |
| Controller.OnboardServiceCenter | controllers/serviceCenterController.ts:9-82 | a failed upload answers 500 "Failed to upload images to cloud storage" and writes nothing; a failed write answers 500 with the error's details; otherwise 201 with the appended row; on every path every temporary file is deleted and stored URLs are ones Cloudinary issued |
| Controller.GetAllServiceCenters | controllers/serviceCenterController.ts:83-97 | 200 with every row, newest first, or 500 "Internal Server Error" when the query fails |
| InlineHandler.InlineRun | index.ts:80-94 | the unguarded upload-then-unlink run; characterised by `InlineRunLeft`, `InlineRunMatchesUploadAll` and `InlineRunSucceedsIffDistinct` |
| InlineHandler.InlineRunLeft | index.ts:80-94 | the inline uploads delete only request paths, and a successful run has deleted all of them |
| InlineHandler.InlineRunMatchesUploadAll | index.ts:80-94 | when the paths are distinct and on disk, the inline uploads give what the controller's uploads give |
| InlineHandler.RepeatedPathFailsRun | index.ts:82-93 | for every file list with two files sharing a path, the unguarded second delete throws and the run fails, whatever the uploads answer |
| InlineHandler.InlineRunFailureStays | index.ts:93 | a run that failed over a prefix of the files fails over the whole list |
| InlineHandler.InlineRunSucceedsIffDistinct | index.ts:80-94 | with every file on disk and every upload succeeding, the run succeeds exactly when no two files share a path |
| InlineHandler.InlineUploadOne | index.ts:82-90 | upload, then delete; the step fails if the upload failed or the path was already gone |
| InlineHandler.InlineUploadEach | index.ts:80-95 | every file is attempted in order, with the outcome and the disk `InlineRun` gives |
| InlineHandler.InlineData | index.ts:98-111 | text fields and coordinates pass through unconverted, the country is defaulted, with the normalised categories and the URLs |
| InlineHandler.InlineResponse | index.ts:116-131 | 201 exactly when uploads and write succeeded; every error is 500 with only "Internal Server Error" |
| InlineHandler.CatchBlock | index.ts:121-131 | the request files still on disk are deleted and 500 is answered |
| InlineHandler.PostServiceCenter | index.ts:51-133 | the mounted handler answers as `InlineResponse`, appends the row only on 201, removes every temporary file on every path, and stores only issued URLs |
| RoundTrip.LookupReceived | client/src/services/api.ts:16-36 | every body field the server reads is the Multer reading of the values sent under that name |
| RoundTrip.TextFieldArrives | controllers/serviceCenterController.ts:16-26 | every text field reaches the server as the string the form held |
| RoundTrip.CategoriesArrive | controllers/serviceCenterController.ts:29-34 | the server's categories equal the client's selection exactly when the selection is not the single empty string |
| RoundTrip.InlineRowMatchesForm | index.ts:98-111 | the row the mounted handler writes for a submitted form holds every field, coordinates included, as the form held it. The country is defaulted when empty, and the categories and URLs are attached |
| RoundTrip.ControllerRowMatchesForm | controllers/serviceCenterController.ts:54-66 | the row the controller writes for a submitted form holds every field as the form held it, the country defaulted when empty, the categories and the URLs |

## Left out

- Concurrency. `Promise.all` runs the uploads in parallel. Here they run one
  after the other, and every attempt settles before the result is known. In
  the code, a rejection can reach the `catch` while other uploads are still
  running, and their deletes can then race with the cleanup. Neither the race
  nor the interleaving is modelled.
- The React hooks in general. State updates are applied at once, in program
  order, rather than batched into a render. `handleChange` only forwards to
  `updateField`, so it is covered by `UpdateField`. The form is one object
  whose keys keep the initial order, which is the order `Object.keys` reports.
- The coordinates. `toFixed(6)` and the floating-point position are not
  modelled. `FinishGetLocation` receives the coordinate strings already
  rendered.
- The outside world. These are inputs:
  - the `fetch` calls and the Nominatim request (`reverseGeocode` is modelled
    from the parsed answer onward);
  - the browser geolocation service;
  - `URL.createObjectURL`, modelled as fresh numbered previews;
  - Cloudinary, as a function from path to optional URL;
  - the Prisma client, whose acceptance or error is a parameter. This covers its
    own validation of the data, such as a non-string country or an array in a
    text field.
- Effects without a modelled result: `alert` is returned as a value, and
  `console` output is dropped.
- Multer is not part of this model. Its rule for text parts (one value gives a
  string, several give an array, none leaves the key absent) is stated in
  `RoundTrip.MulterField`. The rule that it writes distinct temporary paths
  appears only as a precondition of `InlineHandler.InlineRunMatchesUploadAll`.
- The UI components, routes and server wiring: `Form.tsx`, `ServiceMap.tsx`,
  `ServiceCenterModal.tsx`, `App.tsx`, the route table, CORS and
  configuration. So is the compiled `dist/` output, where the compiled
  controller differs from the TypeScript one on upload failure.
- Controller.GetAllServiceCenters: rows created at the same `createdAt`
  instant have no defined order in the code; here the newer id comes first.
- Pagination.TotalPages: assumes at least one item per page. With zero items
  per page, JavaScript computes `Infinity`, or `NaN` when there are no items
  either. In both cases the early return does not fire and the component
  renders. Neither value has a natural-number counterpart.
- Location.GetCurrentPosition: assumes the browser answers every request it
  is given. A browser that never calls either callback, for example while a
  permission prompt stays unanswered, leaves the promise pending forever.
  The model does not cover that case.
- The errors object. `FormErrors` declares `images`, but the hook reads and
  writes `imagePaths`. The model follows the hook and uses `ImagePathsError`.
- The nine `if` statements of `validate` are written as one fold over the
  rule keys in source order (`CollectErrors` over `RuleOrder`), not as nine
  separate statements. `ServiceForm.ValidationErrorsExact` pins down the map
  it builds: the violated keys, each with its message.
