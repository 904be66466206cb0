# Kids store: a verified model in Dafny

The kids store is a small web shop. An Express server keeps items in a SQLite
table: a name, a price, an optional picture and an optional sound. It accepts
image and sound uploads through multer. A React client shows the items to a
customer, who fills a cart. A manager adds, edits and deletes items there.

This project models the core of both halves and proves properties of that model:

- **Item table** (`items_db.dfy`, module `ItemsDb`). A class `ItemTable` holds the rows
  as a map keyed by id, the next id to issue, and the set of ids already issued.
  Its methods are `GetAll`, `GetById`, `Create`, `Update` and `Delete`. `GetAll`
  builds the newest-first listing with a loop. `Update` applies a partial patch.
- **File pipeline** (`file_upload.dfy`, module `FileUpload`):
  - the two MIME allow-lists and the size limits;
  - the stored file names `item-<time>-<random><ext>` and `sound-…`, with Node's
    `path.extname` rule;
  - the extension rewrite `/\.[^/.]+$/` behind processImage and generateThumbnail;
  - how those two steps change the files on disk.
- **Router** (`routes.dfy`, module `ItemRoutes`):
  - the router's multer configuration;
  - the `.fields([image, sound])` intake, part by part;
  - the way POST and PUT read the body;
  - the seven handlers, as methods over an `ItemTable` and the set of files on disk.
- **Application** (`server.dfy`, module `Server`):
  - Express-style routing of a path to a handler, in registration order;
  - the `/api/default-sound` and `/health` endpoints;
  - the error middleware and the catch-all 404;
  - `Handle`, which runs one request from start to finish.
- **Client**:
  - `cart.dfy` (module `Cart`): the customer's cart.
  - `app_state.dfy` (module `AppState`): the top-level item list and view state.
  - `api_client.dfy` (module `ApiClient`): the URLs and multipart forms the API service builds, and its error rule.
  - `item_form.dfy` (module `ItemEditor`): the add/edit form.
- **Both halves together** (`end_to_end.dfy`, module `EndToEnd`):
  - the client's validator agrees with the server's;
  - the client's file URLs reach the right routes;
  - saving an untouched edit form changes at most the item's name;
  - a refused upload reaches the client as a specific message.
- **JavaScript built-ins the core relies on** (`js_text.dfy`, module `JsText`): `trim`, `parseInt`
  without a radix, `parseFloat`, and `Number.prototype.toString` for prices.

Prices are integer cents throughout. `parseFloat` is modelled as a decimal
grammar: optional leading white space, an optional sign, digits, and an
optional fraction. Reading a price keeps the first two fraction digits.
The test `price < 0` is exact: only signed zeros such as "-0" and "-0.00" are not
negative, while "-0.001" is below zero although it is under a cent (`JsText.SignedZeroes`).

The code as written behaves as follows:

- multer has stored every uploaded file before either handler checks the name,
  price or id. A POST refused for its name or price, and a PUT for a bad id or a
  missing row, leave those files on disk (`CreateItem`, `UpdateItem`).
- A file the filter refuses raises a plain `Error` in multer, not a `MulterError`.
  The error middleware therefore answers with 500, not 400, and in production
  the message is "Internal server error" (`EndToEnd.RefusedImageType`).
- The router applies one 5 MiB limit to both fields. Its comment says the limit
  "will be overridden for sounds", but nothing overrides it. The 2 MiB sound
  limit exists only in the standalone `uploadSound`, which no route uses
  (`ItemRoutes.RouterMatchesUploaders`).
- `router.get('/default-sound')` can never run. `GET /:id`, registered earlier,
  takes `/api/items/default-sound` and answers 400 "Invalid item ID"
  (`Server.RouterDefaultSoundShadowed`). The application-level `/api/default-sound` does run.
- PUT checks no ranges. A negative price is written. A name of white space only
  is written as "" (`ItemRoutes.PutAcceptsWhatPostRefuses`).
- A PUT price that does not parse becomes NaN. SQLite binds NaN as NULL, the
  NOT NULL column makes the statement throw, and the handler answers 500
  "Failed to update item" (`ItemsDb.ItemTable.Update`, `ItemRoutes.UpdateFoundItem`).
- Some branches cannot be reached in this model:
  - POST's `!newItem` branch;
  - PUT's "Failed to retrieve updated item";
  - DELETE's 400 "Failed to delete item" (its 500 catch, with the same message, needs a
    failing file-system call, which the model does not have);
  - the catch of GET /.
  The row was just written or checked, and the table is not shared.
- The thumbnail that generateThumbnail writes is never referenced. The item
  keeps the original image path.
- Adding an item that is already in the cart increments its line, and the line
  keeps the item record that was first added. The total therefore uses the old
  price (`Cart.AddCounts`).

## Model

| member | source | states |
|---|---|---|
| ItemsDb.Patched | backend/src/database.ts:63-90 | the patched row keeps its id and creation time; it keeps an image or sound it had; a patch that supplies nothing leaves the row unchanged |
| ItemsDb.PatchedIdempotent | backend/src/database.ts:63-90 | applying the same partial update twice is applying it once |
| ItemsDb.PatchedChangesOnlySupplied | backend/src/database.ts:67-82 | each column, the image path and sound file included, takes the supplied value when one is given and keeps its old value otherwise |
| ItemsDb.InsertKeepsOrder | backend/src/database.ts:44-47 | inserting a row into a newest-first listing keeps it newest first with distinct ids |
| ItemsDb.InsertKeepsListing | backend/src/database.ts:44-47 | inserting a new row into a listing of a table gives a newest-first listing of the table with that row added |
| ItemsDb.ListingStep | backend/src/database.ts:44-47 | one step of the listing loop moves one pending row into the listing and keeps the listing invariant |
| ItemsDb.ItemTable.constructor | backend/src/database.ts:26-40 | the new table is empty, has issued no ids, and issues id 1 first |
| ItemsDb.ItemTable.GetAll | backend/src/database.ts:44-47 | the result lists every row exactly once, newest first |
| ItemsDb.ItemTable.GetById | backend/src/database.ts:49-52 | returns the row exactly when the id is in the table, otherwise undefined |
| ItemsDb.ItemTable.Create | backend/src/database.ts:54-61 | inserts the row under a fresh id (never issued before, AUTOINCREMENT) and returns that id |
| ItemsDb.ItemTable.Update | backend/src/database.ts:63-90 | false when nothing is supplied or the id is missing; raises for a NaN price; otherwise patches exactly that row and returns true |
| ItemsDb.ItemTable.Delete | backend/src/database.ts:92-96 | removes exactly that row; returns true exactly when it existed |
| FileUpload.ImageFilter | backend/src/utils/fileUpload.ts:40-47 | accepts exactly image/jpeg, image/png and image/webp, and refuses any other type with the image message |
| FileUpload.AudioFilter | backend/src/utils/fileUpload.ts:50-57 | accepts exactly audio/mpeg, audio/wav, audio/ogg and audio/mp3, and refuses any other type with the audio message |
| FileUpload.FiltersDisjoint | backend/src/utils/fileUpload.ts:40-57 | no MIME type passes both filters |
| FileUpload.Extname | backend/src/utils/fileUpload.ts:24 | path.extname yields "" or a dot followed by no further dot or slash |
| FileUpload.ExtnameOfPlainName | backend/src/utils/fileUpload.ts:24 | for a plain name `stem.ext`, the extension is `.ext` |
| FileUpload.ExtnameWithoutDot | backend/src/utils/fileUpload.ts:24 | a name without a dot has no extension |
| FileUpload.NatToDecimalInjective | backend/src/utils/fileUpload.ts:23 | different clock readings print differently |
| FileUpload.StoredNameInjective | backend/src/utils/fileUpload.ts:22-25 | equal stored names come from equal time, equal random number and equal extension |
| FileUpload.ImageAndSoundNamesDiffer | backend/src/utils/fileUpload.ts:18-37 | no image name ever equals a sound name |
| FileUpload.Receive | backend/src/utils/fileUpload.ts:60-74 | a standalone uploader stores a file exactly when its filter accepts it and the size is within the limit; otherwise it reports the filter's Error or LIMIT_FILE_SIZE |
| FileUpload.UploaderLimits | backend/src/utils/fileUpload.ts:63-73 | the image uploader allows 5 MiB and the sound uploader 2 MiB; an mp3 over 2 MiB is refused as too large |
| FileUpload.ReplaceExtension | backend/src/utils/fileUpload.ts:79 | the regex replaces the final `.ext` segment when there is one and leaves the path alone otherwise |
| FileUpload.ExtensionAtUnique | backend/src/utils/fileUpload.ts:79 | the regex can match at most one position |
| FileUpload.RewriteChangesOnlyMatchedPaths | backend/src/utils/fileUpload.ts:99 | the thumbnail rewrite changes a path exactly when the regex matches it |
| FileUpload.ThumbnailOfStoredImage | backend/src/utils/fileUpload.ts:97-110 | for a stored image name the rewrite swaps its extension (of two or more characters) for the suffix, and leaves the path alone otherwise |
| FileUpload.ProcessImage | backend/src/utils/fileUpload.ts:77-94 | returns the input path whether or not processing succeeds; the only file that can disappear is the temporary processed path |
| FileUpload.GenerateThumbnail | backend/src/utils/fileUpload.ts:97-110 | returns the thumbnail path exactly when it was written, else the original; files are only added |
| ItemRoutes.Destination | backend/src/routes/items.ts:13-21 | images go to uploads/images and sounds to uploads/sounds; any other field is "Invalid field name" |
| ItemRoutes.Filename | backend/src/routes/items.ts:22-31 | names an image item-… and a sound sound-…, with the unique suffix and the original extension; other fields are refused |
| ItemRoutes.RouterFilter | backend/src/routes/items.ts:33-51 | uses the image allow-list for "image" and the audio allow-list for "sound"; refuses any other field |
| ItemRoutes.RouterMatchesUploaders | backend/src/routes/items.ts:11-55 | for its two fields the router stores like the standalone uploaders; its single limit equals the image limit and exceeds the sound limit |
| ItemRoutes.ReceivePart | backend/src/routes/items.ts:11-55 | a part is stored exactly when the filter accepts it and it fits in 5 MiB; a refusal is a plain Error, too large is LIMIT_FILE_SIZE |
| ItemRoutes.ReceiveFiles | backend/src/routes/items.ts:89-92 | a successful intake admitted every part; a plain-Error failure carries one of the two type messages |
| ItemRoutes.UndeclaredFieldRefused | backend/src/routes/items.ts:89-92 | any part for a field other than image and sound fails the whole intake |
| ItemRoutes.TakenSlotRefused | backend/src/routes/items.ts:89-92 | a part at any position whose field has no free slot left fails the whole intake, because a taken slot stays taken |
| ItemRoutes.SecondFileRefused | backend/src/routes/items.ts:89-92 | any two parts for the same field, at any two positions of the request and from any starting slots, fail the intake (maxCount 1) |
| ItemRoutes.AcceptedSlotsDistinct | backend/src/routes/items.ts:89-92 | a successful intake found a free slot in its starting slots for every part, and took no two parts for the same field |
| ItemRoutes.ReceivedImageFromPart | backend/src/routes/items.ts:110-113 | the image path the handler sees is the stored path of an image part of the request |
| ItemRoutes.ReceivedSoundFromPart | backend/src/routes/items.ts:119-122 | the sound path the handler sees is the stored path of a sound part of the request |
| ItemRoutes.PutPatch | backend/src/routes/items.ts:173-179 | the name is supplied trimmed when present; the price is left out when absent or empty, is NaN when it does not parse, and otherwise is its value in cents; the uploaded paths are passed on |
| ItemRoutes.PutAcceptsWhatPostRefuses | backend/src/routes/items.ts:173-179 | a white-space name and the price "-5", which POST refuses, are written by PUT as "" and -500 cents |
| ItemRoutes.AfterImageSteps | backend/src/routes/items.ts:112-116 | without an image the files are untouched; an uploaded image stays on disk through both steps |
| ItemRoutes.UnlinkLocators | backend/src/routes/items.ts:211-216 | removes exactly the existing files the row's truthy locators name |
| ItemRoutes.ListItems | backend/src/routes/items.ts:58-66 | answers 200 with every row, newest first |
| ItemRoutes.GetItem | backend/src/routes/items.ts:69-86 | 400 for an id parseInt rejects, 404 for a missing row, else 200 with the row |
| ItemRoutes.CreateItem | backend/src/routes/items.ts:89-136 | a failed intake goes to the error middleware with nothing stored; otherwise files are stored before validation and the answer is as CreateFromUpload states |
| ItemRoutes.CreateFromUpload | backend/src/routes/items.ts:93-131 | 400 for a missing or blank name, then 400 for a bad or negative price, with the table unchanged; otherwise 201 with the new row under a fresh id, trimmed name, price in cents and the uploaded paths |
| ItemRoutes.UpdateItem | backend/src/routes/items.ts:139-195 | the intake runs first; 400 for a bad id and 404 for a missing row, keeping the stored files; otherwise as UpdateFoundItem states |
| ItemRoutes.UpdateFoundItem | backend/src/routes/items.ts:154-190 | 400 when nothing is supplied; 500 for a NaN price; otherwise only that row is patched and the answer is 200 with it |
| ItemRoutes.DeleteItem | backend/src/routes/items.ts:198-228 | 400 for a bad id, 404 for a missing row; otherwise its files are unlinked, the row is removed and the answer is 200 |
| ItemRoutes.ServeLocator | backend/src/routes/items.ts:239-247 | the file is sent exactly when the locator is truthy and the file exists; otherwise one of the two 404 messages |
| ItemRoutes.ItemImage | backend/src/routes/items.ts:231-252 | 400 for a bad id, 404 "Image not found" for a missing row, else the locator decision on its image |
| ItemRoutes.ItemSound | backend/src/routes/items.ts:255-276 | 400 for a bad id, 404 "Sound not found" for a missing row, else the locator decision on its sound |
| Server.ErrorResponse | backend/src/index.ts:64-89 | a MulterError answers 400, with the two fixed messages for the size and unexpected-file codes; anything else answers 500, with the message hidden in production |
| Server.ProductionHidesMessages | backend/src/index.ts:83-88 | in production a plain Error's message never reaches the client; outside production it does |
| Server.Split | backend/src/index.ts:43 | splitting a path yields at least one piece, and no piece contains a slash |
| Server.SplitJoin | backend/src/index.ts:43 | splitting undoes joining with slashes |
| Server.Segments | backend/src/index.ts:43 | a parsed path's segments contain no slash |
| Server.RouteOf | backend/src/index.ts:43-61 | every item route takes its id from the third segment under /api/items, and that segment is not empty |
| Server.ItemPathRoutes | backend/src/routes/items.ts:69 | a GET of any single segment under /api/items reaches GET /:id |
| Server.RouterDefaultSoundShadowed | backend/src/routes/items.ts:279-292 | GET /api/items/default-sound reaches GET /:id, whose parseInt fails |
| Server.DefaultSound | backend/src/index.ts:46-52 | 200 exactly when the bundled sound exists, else 404 with its message |
| Server.Finish | backend/src/index.ts:64-89 | a handler's response passes through; a failure is answered by the error middleware |
| Server.Handle | backend/src/index.ts:42-94 | each request reaches the handler of its route: a read-only route answers as that handler does (Server.Served: list, get, image, sound, default sound, health, and the 404 envelope when nothing matched) and changes neither the table nor the files; POST, PUT and DELETE answer and leave the rows, next id and files as their handlers do, with a failure answered by the error middleware (Server.Changed) |
| Server.Serve | backend/src/index.ts:42-61 | every read-only route answers as its handler promises: the newest-first listing, the row or 400/404, the image or sound locator decision, the bundled sound, OK, or 404 |
| Server.Change | backend/src/routes/items.ts:89-228 | POST, PUT and DELETE answer with their handler's outcome after the error middleware, and leave exactly the rows, next id and files that handler states |
| Cart.InitialCartState | frontend/src/components/CustomerView.tsx:17-18 | the cart mounts empty and shown: it counts 0 items and costs 0, checkout leaves it alone, and a first add gives one line of quantity 1 |
| Cart.SetQuantity | frontend/src/components/CustomerView.tsx:109-115 | the `map` keeps the number of lines; its pointwise effect is Cart.SetQuantityAt |
| Cart.Increment | frontend/src/components/CustomerView.tsx:87-91 | the `map` keeps the number of lines; its pointwise effect is Cart.IncrementAt |
| Cart.RemoveFromCart | frontend/src/components/CustomerView.tsx:99-101 | the `filter` never adds lines; what it keeps and drops is Cart.RemoveDrops, Cart.RemoveAbsent and Cart.RemoveLine |
| Cart.ItemCount | frontend/src/components/CustomerView.tsx:124-126 | with every quantity at least 1 (which add, remove and set-quantity keep) the count is at least the number of lines, so it is 0 only for an empty cart |
| Cart.LineCents | frontend/src/components/CustomerView.tsx:120 | a line with a non-negative price and quantity costs at least 0 |
| Cart.TotalCents | frontend/src/components/CustomerView.tsx:118-122 | a cart without negative prices or quantities never totals below zero |
| Cart.AddToCart | frontend/src/components/CustomerView.tsx:85-96 | a new item is appended with quantity 1; an item already present keeps the cart's length |
| Cart.AddExisting | frontend/src/components/CustomerView.tsx:86-92 | an item already in the cart gets one more on its line, and every other line stays |
| Cart.AddCounts | frontend/src/components/CustomerView.tsx:85-96 | adding raises the count by one; the total grows by the new item's price, or by the price stored on the existing line |
| Cart.AddKeepsWellFormed | frontend/src/components/CustomerView.tsx:85-96 | add keeps the ids distinct and every quantity at least 1 |
| Cart.AddTwice | frontend/src/components/CustomerView.tsx:85-96 | adding a new item twice gives one line with quantity 2 |
| Cart.RemoveDrops | frontend/src/components/CustomerView.tsx:99-101 | no line with that id is left, and every remaining line was in the cart |
| Cart.RemoveAppend | frontend/src/components/CustomerView.tsx:99-101 | removal keeps order: it distributes over concatenation |
| Cart.RemoveAbsent | frontend/src/components/CustomerView.tsx:99-101 | removing an id the cart lacks changes nothing |
| Cart.RemoveLine | frontend/src/components/CustomerView.tsx:99-101 | removing a line leaves the lines before and after it in order; count and total lose exactly that line |
| Cart.RemoveKeepsWellFormed | frontend/src/components/CustomerView.tsx:99-101 | removal keeps the ids distinct and every quantity at least 1 |
| Cart.UpdateQuantity | frontend/src/components/CustomerView.tsx:103-116 | a quantity of 0 or less is removal; otherwise the quantity of that id's line is set |
| Cart.UpdateKeepsWellFormed | frontend/src/components/CustomerView.tsx:103-116 | set-quantity keeps the ids distinct and every quantity at least 1; an unknown id changes nothing |
| Cart.UpdateExisting | frontend/src/components/CustomerView.tsx:109-115 | a positive quantity changes only the matching line, and the count moves by the difference |
| Cart.CountAppend | frontend/src/components/CustomerView.tsx:124-126 | the item count of two carts joined is the sum of their counts |
| Cart.TotalAppend | frontend/src/components/CustomerView.tsx:118-122 | the total of two carts joined is the sum of their totals |
| Cart.SetQuantityAt | frontend/src/components/CustomerView.tsx:109-115 | the lines with that id take the new quantity; every other line stays |
| Cart.SetQuantityCount | frontend/src/components/CustomerView.tsx:109-126 | setting the quantity of the one line with that id moves the count by the difference |
| Cart.SetQuantityTotal | frontend/src/components/CustomerView.tsx:109-122 | setting the quantity of the one line with that id moves the total by that line's cost at the new quantity minus its cost before |
| Cart.IncrementAt | frontend/src/components/CustomerView.tsx:86-92 | the lines with that id get one more; every other line stays |
| Cart.IncrementCount | frontend/src/components/CustomerView.tsx:86-92 | one more on the only line with that id raises the count by one and the total by that line's price |
| Cart.Checkout | frontend/src/components/CustomerView.tsx:128-144 | an empty cart stays as it is; otherwise the cart is emptied and hidden |
| Cart.ToggleCart | frontend/src/components/CustomerView.tsx:146-148 | flips showCart and keeps the lines |
| Cart.ToggleTwice | frontend/src/components/CustomerView.tsx:146-148 | toggling twice restores the view |
| AppState.MountLoad | frontend/src/App.tsx:13-34 | the application mounts loading, empty and in the customer view; the first load shows the fetched list, or an empty list with the load error, with loading ended and no modal open |
| AppState.ItemAdded | frontend/src/App.tsx:38-41 | the new item goes first, the rest stay, and the add form closes; nothing else changes |
| AppState.ReplaceById | frontend/src/App.tsx:44-46 | the length and order stay; exactly the items with the updated id are replaced |
| AppState.ItemEdited | frontend/src/App.tsx:43-48 | items are replaced by id and the edit target is cleared; nothing else changes |
| AppState.RemoveById | frontend/src/App.tsx:51 | no item with that id is left, and every remaining item was in the list |
| AppState.RemoveKeepsOthers | frontend/src/App.tsx:50-52 | an item survives deletion exactly when it has another id |
| AppState.RemoveAppend | frontend/src/App.tsx:50-52 | deletion keeps order: it distributes over concatenation |
| AppState.RemoveAbsent | frontend/src/App.tsx:50-52 | deleting an id the list lacks keeps the list |
| AppState.AddThenDelete | frontend/src/App.tsx:38-52 | deleting an item just added under a fresh id gives back the list |
| AppState.EditThenDelete | frontend/src/App.tsx:43-52 | editing an item and then deleting it equals deleting it |
| AppState.EditIdempotent | frontend/src/App.tsx:43-48 | editing twice with the same record equals editing once |
| AppState.Edit | frontend/src/App.tsx:54-56 | the item becomes the edit target and nothing else changes |
| AppState.SetShowAddForm | frontend/src/App.tsx:168 | sets only the add-form flag |
| AppState.CloseEdit | frontend/src/App.tsx:187 | clears only the edit target |
| AppState.SetMode | frontend/src/App.tsx:71 | sets only the view mode |
| AppState.LoadItems | frontend/src/App.tsx:24-36 | loading ends either way; success replaces the items and clears the error; failure keeps the items and sets the error message |
| AppState.FailedReloadKeepsItems | frontend/src/App.tsx:24-36 | a failed reload keeps the list the last good load brought; a good load clears an earlier error |
| ApiClient.ImageUrl | frontend/src/services/api.ts:116-118 | the image URL under the API base; EndToEnd.UrlsReachItem proves the server routes a GET of it to the image handler with the same id |
| ApiClient.SoundUrl | frontend/src/services/api.ts:121-123 | the sound URL under the API base; EndToEnd.UrlsReachItem proves the server routes a GET of it to the sound handler with the same id |
| ApiClient.CreateItemData | frontend/src/services/api.ts:50-60 | sends name then price, always, then exactly the attached files, image first, under no other key |
| ApiClient.UpdateItemData | frontend/src/services/api.ts:78-94 | sends name and price only when non-empty, then exactly the attached files |
| ApiClient.AppendFiles | frontend/src/services/api.ts:54-60 | appends exactly the present files after the existing entries and leaves the text fields alone |
| ApiClient.WhenTruthy | frontend/src/services/api.ts:80-86 | a field is kept exactly when it is present and non-empty |
| ApiClient.ItemsOrEmpty | frontend/src/services/api.ts:37-40 | the response's list when there is one, else [] |
| ApiClient.RaisedError | frontend/src/services/api.ts:25-27 | no error for an ok response; otherwise the server's non-empty error, else the call's fallback |
| ApiClient.FailureAlwaysExplained | frontend/src/services/api.ts:69-71 | a failed call always raises a non-empty message |
| ItemEditor.Prefill | frontend/src/components/AddItemForm.tsx:35-47 | editing shows the item's name and a price text that parses back to the same cents, with empty file slots; otherwise both fields are empty |
| ItemEditor.PrefillValid | frontend/src/components/AddItemForm.tsx:35-95 | the prefilled form is valid exactly when the item's name is not blank and its price is not negative |
| ItemEditor.OnImageDrop | frontend/src/components/AddItemForm.tsx:49-54 | a non-empty drop puts its first file in the image slot and clears that error; an empty drop changes nothing; nothing else changes |
| ItemEditor.OnSoundDrop | frontend/src/components/AddItemForm.tsx:56-61 | likewise for the sound slot |
| ItemEditor.RemoveImage | frontend/src/components/AddItemForm.tsx:124-126 | empties the image slot and nothing else |
| ItemEditor.RemoveSound | frontend/src/components/AddItemForm.tsx:128-130 | empties the sound slot and nothing else |
| ItemEditor.DropThenRemove | frontend/src/components/AddItemForm.tsx:49-130 | a drop followed by a remove leaves the slot empty and the rest of the form as it was |
| ItemEditor.DropsCommute | frontend/src/components/AddItemForm.tsx:49-61 | dropping into both slots, in either order, gives the same editor |
| ItemEditor.ValidateForm | frontend/src/components/AddItemForm.tsx:81-95 | a name error exactly when the trimmed name is empty; a price error exactly when the price does not parse or is negative; valid exactly when no error was recorded |
| ItemEditor.HandleSubmit | frontend/src/components/AddItemForm.tsx:97-122 | an invalid form sends nothing; a valid one updates the item being edited with the whole form, or else creates an item |
| JsText.TrimEmptyIffBlank | backend/src/routes/items.ts:97 | trim gives "" exactly when the text is all white space |
| JsText.TrimIdempotent | backend/src/routes/items.ts:124 | trimming twice is trimming once, and the result has no white space at either end |
| JsText.ParseIntOfDecimal | backend/src/routes/items.ts:71 | parseInt reads back any integer's decimal text |
| JsText.BelowZeroCents | backend/src/routes/items.ts:101-102 | a negative amount in cents is below zero; an amount below zero is at most 0 cents |
| JsText.SignedZeroes | backend/src/routes/items.ts:101-102 | "-0.00" parses as a signed zero that is not below zero; "-0.001" is below zero yet comes to 0 cents |
| JsText.PriceRoundTrip | frontend/src/components/AddItemForm.tsx:39 | parseFloat reads toString of a price back to the same cents and the same sign |
| EndToEnd.ValidationAgrees | frontend/src/components/AddItemForm.tsx:81-95 | the body createItem sends carries the form's text, and the client accepts the form exactly when POST's validation accepts the body |
| EndToEnd.AttachmentsReceived | backend/src/routes/items.ts:89-92 | the attached files pass the intake exactly when each passes its filter and the size limit; the handler then sees exactly the attached slots |
| EndToEnd.RefusedImageType | backend/src/index.ts:83-88 | an image of a refused type fails the intake with a plain Error, which is 500; in production the client raises "Internal server error" |
| EndToEnd.OversizedImage | backend/src/index.ts:67-73 | an allowed image over 5 MiB is a 400 whose size advice the client raises |
| EndToEnd.UntouchedEditKeepsItem | frontend/src/components/AddItemForm.tsx:106-108 | saving an unedited edit form sends no file, PUT writes back the same price, and the row changes at most by a trimmed name |
| EndToEnd.UrlsReachItem | frontend/src/services/api.ts:116-123 | the client's image and sound URLs reach that item's image and sound routes, whose id parses back to it |

## Left out

- Network, disk and image decoding are parameters. The set of file paths stands
  for the disk. The clock and the random number are explicit arguments. Whether
  sharp can decode a file is a flag in `Env`. No bytes are modelled.
- The `Date.now()` and `Math.random()` readings are not modelled as they happen. In
  `EndToEnd.PartsOf` every part takes the same two readings, because the lemmas
  there do not depend on them.
- `Server.Serve`: GET /health answers `{ status: "OK" }` only. The `timestamp`
  and `uptime` fields of backend/src/index.ts:56-60 read the clock and the process
  and are left out.
- `ApiClient.ImageUrl`, `ApiClient.SoundUrl`: they carry no contract of their own;
  what they promise is stated by `EndToEnd.UrlsReachItem`.
- Rate limiting, helmet, CORS, the static `/uploads` route, HEAD requests, the
  request-body size limits and process start-up are infrastructure that the core
  does not decide.
- Express matches paths case-insensitively and decodes percent escapes. The
  routing model is case-sensitive and takes the path as given.
- Request bodies are modelled as multipart text fields. A JSON body whose
  `name` or `price` is not a string is not modelled.
- `parseFloat`: exponents, "Infinity" and hexadecimal floats are not recognised.
  A price with more than two fraction digits is cut to whole cents. The real
  table would store the float.
- `ItemsDb.ItemTable.GetAll`: rows with the same `created_at` come out in an order
  the model leaves open. Timestamps are integers, not SQLite text.
- `ItemRoutes.AfterImageSteps`: the thumbnail path that generateThumbnail
  returns is dropped, as the handlers drop it. The model does not track the
  temporary `_processed.jpg` file beyond the set of paths.
- File-system calls never fail in the model: `existsSync`, `unlinkSync`, the
  multer disk writes and the sharp output either act on the set of paths or are
  decided by `Env`. The catch blocks that answer a thrown file-system error (such
  as DELETE's 500 "Failed to delete item") are therefore not reached.
- Concurrency: each request runs to completion before the next. The unreachable
  branches listed above rely on this.
- Client rendering, audio playback, the alerts of checkout and of a failed save,
  the `isSubmitting` flag, and the react-dropzone accept and maxSize options are
  presentation only and are not modelled.
- `ItemEditor.PrefillValid`: the prefill's price text covers integer cents only,
  which is what the table holds in this model.
- frontend/src/components/ItemCard.tsx, backend/src/init-db.ts and
  backend/src/sample-data.ts are not part of this model.
