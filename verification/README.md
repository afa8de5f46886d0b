# PDF2Sheet invoice pipeline — a Dafny model

This project models the decision logic of PDF2Sheet. PDF2Sheet is an Express/MongoDB backend with a React front end. It reads an uploaded invoice PDF and extracts its number, total and date with regular expressions. It scores the extraction, stores the invoice, and appends a row to a Google spreadsheet unless the invoice needs a manual column mapping.

The model covers these parts:

- the field extractor: ordered pattern lists, the acceptance filter and the confidence sum, kept in integer hundredths (35 + 35 + 30);
- the upload route: request normalisation, template lookup, the 70-hundredths threshold, total cleaning, the stored record, and the mail and Sheets side calls;
- the vendor-template upsert route and the three Mongoose schemas (Invoice, Vendor, User): defaults, enum, setters, `required`, unique indexes and the password-hashing pre-save hook;
- the token guard, the header builder of the front end that feeds it, the account routes and the error middleware;
- the Sheets row builder;
- three pieces of front-end logic: the History search filter, the PDF viewer's zoom control and the reset-password form.

Foreign code is passed in as function-typed parameters:

- the regular-expression engine (`Extractor.Matcher`);
- `jwt.verify`/`jwt.sign`, `bcrypt.hash`/`bcrypt.compare` (signing, hashing and comparing may fail);
- `readPDF`, `parseFloat`;
- the Sheets API call.

MongoDB collections are in-memory stores: `seq` fields of classes whose methods validate and then write. A document's identifier is its index.

Three behaviours of the code are modelled as written:

- `POST /vendor/save` never passes an owner. The Vendor schema requires one, so the create branch is always rejected by validation. Only the update branch, which looks a template up by sender e-mail alone, ever succeeds (`VendorRoutes.CreateFromRequest`, `VendorRoutes.SaveMapping`).
- The upload route's template lookup also filters on `vendorName: fields.vendor`. The extractor never produces a `vendor` key, so the lookup never finds a template (`Upload.TemplateNeverFound`).
- Because that lookup fails, every uploaded invoice is stored with the schema's vendor default, "Unknown Vendor". The spreadsheet's "Airtel" placeholder therefore never shows for an upload (`Upload.HandleUpload`, `Upload.UploadedRowVendorCell`).

## Model

| member | source | states |
|---|---|---|
| Extractor.FirstAccepted | BackEnd/services/extractor.js:15-22 | the capture found by a pattern loop is one the filter accepts (longer than the minimum) |
| Extractor.FirstAcceptedIsEarliest | BackEnd/services/extractor.js:15-22 | if pattern i is the first accepted one, its capture is the loop's result, so list order decides |
| Extractor.FirstAcceptedNone | BackEnd/services/extractor.js:15-22 | a loop finds nothing exactly when every pattern's capture is rejected |
| Extractor.FindFirst | BackEnd/services/extractor.js:15-52 | the `for`/`break` loop returns the first accepted capture in list order |
| Extractor.ExtractFields | BackEnd/services/extractor.js:1-55 | the imperative extractor (defaults, then three loops that each assign a field and add a weight) returns `Extract(m, text)`, so equal text gives equal fields |
| Extractor.NoCaptureGivesDefaults | BackEnd/services/extractor.js:2-7 | with no accepted capture, the result is exactly {"N/A", "0.00", "N/A", 0} |
| Extractor.ConfidenceValues | BackEnd/services/extractor.js:15-52 | each weight is added at most once, so confidence is one of 0, 30, 35, 65, 70, 100 and never above 100 |
| Extractor.ConfidenceReflectsMatches | BackEnd/services/extractor.js:17-50 | the confidence tells which fields matched: the date iff 30/65/100; number and total iff at least 70; neither iff below 35 |
| Extractor.FirstAcceptedAgrees | BackEnd/services/extractor.js:15-22 | a loop's result depends only on what its own patterns capture |
| Extractor.FieldsIndependent | BackEnd/services/extractor.js:8-22 | the invoice number, whether it matched and its 35 hundredths in the confidence depend only on the invoice patterns, not on what the other fields' patterns capture |
| Extractor.TotalIndependent | BackEnd/services/extractor.js:25-37 | the total, whether it matched and its 35 hundredths depend only on the total patterns |
| Extractor.DateIndependent | BackEnd/services/extractor.js:40-51 | the date, whether it matched and its 30 hundredths depend only on the date patterns |
| Extractor.ShortInvoiceCaptureFallsThrough | BackEnd/services/extractor.js:15-22 | a first capture of three characters or fewer falls through to the second pattern, else to "N/A" |
| Extractor.TotalFromFirstMatch | BackEnd/services/extractor.js:29-37 | the first total pattern that matches wins; the stored total is that capture with its commas removed and every other character kept, in order and as often as before |
| Extractor.CommaDroppedBetween | BackEnd/services/extractor.js:33 | removing commas joins the comma-free groups around a comma in their order, so "1,250.00" is stored as "1250.00" |
| Extractor.DateFromFirstMatch | BackEnd/services/extractor.js:44-51 | the first date pattern that matches wins; the stored date is its trimmed capture |
| InvoiceModel.ParseStatus | BackEnd/models/Invoice.js:56-60 | exactly "pending", "processed" and "flagged" are accepted, each as its own status |
| InvoiceModel.CreateInvoice | BackEnd/models/Invoice.js:3-72 | creation succeeds iff the owner, a non-blank sender e-mail and a non-empty file path are given and any given status is in the enum. The stored e-mail is lower-cased and trimmed. Every missing field takes its default: "Unknown Vendor", "N/A", "N/A", 0, 0, pending, needsMapping true |
| InvoiceModel.InvoiceStore.Create | BackEnd/models/Invoice.js:3-72 | an insert appends exactly the created record, or leaves the collection unchanged on a validation failure; every stored invoice stays well formed |
| VendorModel.WithDefaults | BackEnd/models/Vendor.js:25-30 | each mapping column left out takes its default ("Invoice Number", "Date", "Total", "Vendor") and each given one is kept |
| VendorModel.NewTemplate | BackEnd/models/Vendor.js:3-35 | a template is valid iff an owner and a non-blank sender e-mail are given; a missing owner is a `userId` required error. The name defaults to "Auto-Detected Vendor", the version to 1, lastUpdated to the creation time, and the e-mail is normalised |
| VendorModel.KeyClash | BackEnd/models/Vendor.js:40 | finds a template other than `except` with the same (owner, sender e-mail) pair, or shows there is none |
| VendorModel.FindBySender | BackEnd/routes/vendor.js:7 | the first template whose sender e-mail equals the normalised query; an undefined e-mail finds nothing |
| VendorModel.AppendKeepsKeysUnique | BackEnd/models/Vendor.js:40 | adding a template whose key is new keeps the compound unique index |
| VendorModel.ReplaceKeepsKeysUnique | BackEnd/models/Vendor.js:40 | overwriting a template with one whose key no other template holds keeps the index |
| VendorModel.TemplateStore.Insert | BackEnd/models/Vendor.js:3-40 | `create` succeeds iff the document validates and no template holds its (owner, sender e-mail) pair; it then appends exactly that template. An invalid document is refused with its validation error, a clash with a duplicate-key error on `userId` and `senderEmail`; both leave the collection unchanged |
| VendorModel.TemplateStore.SaveAt | BackEnd/models/Vendor.js:3-40 | `save` of a changed template with the same key overwrites it in place; the index is kept |
| VendorRoutes.SameSendersKeepOnePerSender | BackEnd/routes/vendor.js:9-12 | changing mapping and version leaves the sender e-mails, and so their uniqueness, as they were |
| VendorRoutes.UpdateExisting | BackEnd/routes/vendor.js:9-12 | the found template gets the request's mapping and its version plus one; name, e-mail, owner and lastUpdated stay, and no other template changes |
| VendorRoutes.CreateFromRequest | BackEnd/routes/vendor.js:13-15 | the create carries no owner, so it is always refused with a `userId` required error and nothing is stored |
| VendorRoutes.SaveMapping | BackEnd/routes/vendor.js:4-18 | a template found by e-mail alone is updated and the reply is success; otherwise the create is refused. At most one template per sender e-mail is kept |
| UserModel.UserErrors | BackEnd/models/User.js:5-20 | validation passes iff name, e-mail and password are all non-empty |
| UserModel.FindByEmail | BackEnd/routes/auth.js:308 | an account holding the e-mail with no earlier account holding it, or a proof that none holds it |
| UserModel.TakenIffFound | BackEnd/models/User.js:13 | under the unique index, "another account holds this e-mail" is exactly the database's first-holder check |
| UserModel.OwnEmailNotTaken | BackEnd/models/User.js:13 | an account's own e-mail is held by no other account, so re-saving it never clashes |
| UserModel.AppendKeepsEmailsUnique | BackEnd/models/User.js:13 | adding an account with a new e-mail keeps the unique index |
| UserModel.ReplaceKeepsEmailsUnique | BackEnd/models/User.js:13 | overwriting an account with an e-mail no other account holds keeps the index |
| UserModel.UserDocument.New | BackEnd/models/User.js:4-24 | a new document has the trimmed name, the lower-cased trimmed e-mail, spreadsheetId "" and a modified password |
| UserModel.UserDocument.SetName | BackEnd/models/User.js:5-9 | assigning the name stores it trimmed and changes nothing else |
| UserModel.UserDocument.PreSave | BackEnd/models/User.js:31-47 | an unmodified password is left alone; a modified one is replaced by its hash; a hashing failure aborts with its error; no other path changes |
| UserModel.UserStore.Write | BackEnd/models/User.js:13 | the write fails with a duplicate `email` key iff another account holds the e-mail; otherwise it overwrites or appends exactly that account |
| UserModel.UserStore.Save | BackEnd/models/User.js:4-47 | `save` runs validation, then the hook, then the index check. It succeeds iff the required paths are set, the hook succeeded and the e-mail is free. On success the account is stored with the hashed or unchanged password; on failure the collection is unchanged |
| Text.NormalizeEmailIdempotent | BackEnd/models/User.js:10-16 | the lowercase/trim setters produce the normal form, running them twice equals once, and their order does not matter |
| Text.NormalizedIsFixpoint | BackEnd/models/User.js:10-16 | a string is in the normal form exactly when the setters leave it unchanged |
| AuthMiddleware.BearerToken | BackEnd/middleware/auth.js:15-16 | the token taken from a Bearer header is the second space-separated piece and contains no space |
| AuthMiddleware.Authenticate | BackEnd/middleware/auth.js:4-47 | no token: 401 "Unauthorized: Access Denied" without verifying. A failed verification: 401, "Session expired…" only for TokenExpiredError, else "Invalid token.". A verified token: next with `decoded.user` or `decoded` |
| AuthMiddleware.NonBearerAuthorizationIgnored | BackEnd/middleware/auth.js:15-21 | an Authorization header not starting with "Bearer " is ignored; the other sources decide |
| AuthMiddleware.BearerShadowsOtherSources | BackEnd/middleware/auth.js:15-21 | once the Bearer branch is taken, x-auth-token and the query token are never consulted |
| AuthMiddleware.EmptyBearerIsNoToken | BackEnd/middleware/auth.js:15-26 | "Bearer " followed by nothing or by a space yields no token, whatever the other sources hold |
| AuthMiddleware.Normalize | BackEnd/middleware/auth.js:33 | `req.user` is the nested `user` when there is one, else the whole payload |
| AuthMiddleware.UserIdOf | BackEnd/routes/auth.js:262 | the owner is `user.id`, else `user.user.id`, and is missing exactly when both are |
| AuthMiddleware.BothPayloadShapesYieldTheId | BackEnd/middleware/auth.js:31-33 | both payload shapes, `{ id }` and `{ user: { id } }`, yield the id |
| ClientConfig.GetAuthHeaders | FrontEnd/invoice-extractor-system/src/config.js:6-14 | Authorization is "Bearer " plus the rendered token; x-auth-token is the same stored token, read once |
| ClientConfig.TokenRoundTrip | FrontEnd/invoice-extractor-system/src/config.js:10 | for a non-empty token without spaces, the guard's Bearer branch recovers exactly that token |
| ClientConfig.MissingTokenSendsNull | FrontEnd/invoice-extractor-system/src/config.js:7-10 | with no stored token the header is "Bearer null", and the guard extracts the token "null" |
| ClientConfig.TokenCutAtSpace | FrontEnd/invoice-extractor-system/src/config.js:10 | a token containing a space reaches the guard cut at its first space |
| AuthRoutes.RouteEmail | BackEnd/routes/auth.js:307 | `toLowerCase().trim()` gives the schema's normal form |
| AuthRoutes.Register | BackEnd/routes/auth.js:297-329 | a missing field gives 400 with no change; an existing normalised e-mail gives 400 "User already exists" with no change. Otherwise exactly one account (trimmed name, normalised e-mail, hash, "") is added iff the save succeeds. The reply is 201 iff the save succeeds and the token is signed, with that token and spreadsheetId "" in the body; every other case is 500 "Registration failed on server", and a signing failure leaves the account stored |
| AuthRoutes.CreateAccount | BackEnd/routes/auth.js:316-325 | the account is added iff trimmed name, normalised e-mail and password are non-empty, hashing succeeds and the e-mail is free. The reply is 201 with the signed token iff it was added and signing succeeded; otherwise 500 "Registration failed on server" |
| AuthRoutes.SaveSucceedsIffAccountSaves | BackEnd/routes/auth.js:315-316 | the schema's save (validation, hash hook, unique index) of the new document succeeds exactly when the route's account conditions hold |
| AuthRoutes.Login | BackEnd/routes/auth.js:332-370 | a missing field gives 400. An unknown normalised e-mail and a wrong password give the same 400 "Invalid Credentials". A comparison or signing failure gives 500 "Internal Server Error during Login". Otherwise 200 with the signed token and the account |
| AuthRoutes.UpdateSettings | BackEnd/routes/auth.js:256-294 | 401 without an owner and 404 for an unknown one, both with no change. Otherwise only the given name and spreadsheet ID change, each trimmed; a blank name gives 500 and no change |
| AuthRoutes.Profile | BackEnd/routes/auth.js:230-253 | 401 "Invalid token payload", 404 "User no longer exists", or the account without its password |
| AuthRoutes.RegisteredEmailsStayUnique | BackEnd/routes/auth.js:307-316 | registering only after the lookup found no holder keeps one account per normalised e-mail |
| AuthRoutes.UpdateKeepsCredentials | BackEnd/routes/auth.js:275-276 | a settings update never changes the e-mail or the password hash, nor a field that was not given |
| ErrorHandler.HandleError | BackEnd/middleware/errorHandler.js:1-39 | the status defaults to `statusCode` or 500 and the message to `message` or "Internal Server Error". ValidationError gives 400 with the joined messages, code 11000 gives 400 with the duplicate keys, and the two JWT errors give 401. The last matching check decides. `success` is always false; the stack is sent only in development |
| GoogleSheets.TargetId | BackEnd/services/googleSheets.js:27 | a non-empty environment ID overrides the caller's; the chosen ID is trimmed, and "" when neither is given |
| GoogleSheets.BuildRow | BackEnd/services/googleSheets.js:36-43 | the row has six cells and ends with the time stamp |
| GoogleSheets.RowCellsFromFields | BackEnd/services/googleSheets.js:37-41 | each cell is the field itself exactly when the field is non-empty (the total when it is non-zero); otherwise "N/A" for number, date and sender, the text "0.00" for the total and "Airtel" for the vendor |
| GoogleSheets.ZeroTotalWrittenAsText | BackEnd/services/googleSheets.js:39 | a zero total is written as the text "0.00" |
| GoogleSheets.AppendInvoice | BackEnd/services/googleSheets.js:24-75 | an empty target fails with "Spreadsheet ID is missing from .env" before any call. Otherwise one request for Sheet1!A:F with one row; an API failure is rethrown with the API's message, else the error's own |
| GoogleSheets.StoredInvoiceRow | BackEnd/services/googleSheets.js:40-41 | for a stored invoice, the sender-e-mail and vendor cells are never placeholders |
| Upload.SafeFilePath | BackEnd/routes/upload.js:32 | every backslash becomes '/' and every other character is kept |
| Upload.SenderEmail | BackEnd/routes/upload.js:33 | the body's e-mail, or "unknown@vendor.com" when it is missing or empty, trimmed and lower-cased (in normal form) |
| Upload.UnknownSenderIsNormal | BackEnd/routes/upload.js:33 | the fallback sender is already in normal form |
| Upload.FindTemplate | BackEnd/routes/upload.js:48-52 | a found template matches owner, sender e-mail and vendor name; an undefined vendor name finds nothing |
| Upload.Resolve | BackEnd/routes/upload.js:54-69 | a template gives its name, confidence 100 and no mapping. Otherwise the extractor's vendor and confidence are kept, and a mapping is needed iff confidence is below 70 |
| Upload.ResolveVendor | BackEnd/routes/upload.js:54-69 | the reassigned `let` variables end as `Resolve` says |
| Upload.AmountText | BackEnd/routes/upload.js:72 | cleaning keeps only digits, '.' and '-', each as often as in the total |
| Upload.AmountTextInOrder | BackEnd/routes/upload.js:72 | cleaning works character by character: the cleaned text of a concatenation is the concatenation of the cleaned parts, so kept characters stay in order |
| Upload.AmountTextKeepsCleanTotal | BackEnd/routes/upload.js:72 | a total that is already clean is unchanged |
| Upload.CleanTotal | BackEnd/routes/upload.js:72 | an unparseable cleaned total becomes 0; otherwise the parsed number |
| Upload.UploadInput | BackEnd/routes/upload.js:76-88 | status is "pending" iff a mapping is needed, else "processed"; an empty invoice number or date becomes "N/A" |
| Upload.UploadCreateSucceeds | BackEnd/routes/upload.js:76-88 | for a normalised sender the upload's create succeeds exactly when the sender and the file path are non-empty |
| Upload.UploadCreateFields | BackEnd/routes/upload.js:76-88 | a successful create stores the owner, sender, path, default vendor, the extracted number and date or "N/A", the cleaned total, the confidence, needsMapping iff below 70, the matching status, the raw text and the time |
| Upload.SheetFor | BackEnd/routes/upload.js:102 | the account's spreadsheet ID when set, else the environment's |
| Upload.StoreInvoice | BackEnd/routes/upload.js:43-116 | a refused create gives 500 with the validation message and no change. Otherwise exactly the created invoice is stored and mailed; for a normalised sender the create succeeds iff sender and path are non-empty, and the stored invoice has the fields `StoredFromUpload` lists. The Sheets append is attempted iff no mapping is needed, and its result never changes the reply |
| Upload.HandleUpload | BackEnd/routes/upload.js:22-122 | no file gives 400 first; no owner, an unknown owner and an unreadable PDF give 500 with their messages. After a read, the reply is Uploaded iff the normalised sender and the path are non-empty, and exactly that invoice is appended; otherwise 500 with the validation message. A stored invoice has the owner, normalised sender, safe path, vendor "Unknown Vendor", the extracted fields, the cleaned total, needsMapping iff confidence < 70 and the matching status. Nothing is stored unless the reply is a success |
| Upload.TemplateNeverFound | BackEnd/routes/upload.js:48-52 | with the extractor's undefined vendor the lookup never finds a template, and no vendor name is resolved |
| Upload.NoMappingIffNumberAndTotalFound | BackEnd/routes/upload.js:63 | without a template, no mapping is needed exactly when both the invoice number and the total matched |
| Upload.PendingIffNeedsMapping | BackEnd/routes/upload.js:86-87 | with a non-blank sender and a non-empty path the create succeeds, and the stored status is pending exactly when the stored invoice needs a mapping |
| Upload.UploadedRowVendorCell | BackEnd/services/googleSheets.js:41 | an uploaded invoice's row shows "Unknown Vendor" in the vendor cell, never "Airtel" |
| History.Filtered | FrontEnd/invoice-extractor-system/src/components/History.jsx:40-44 | exactly the kept invoices, each as often as before, and every one satisfies the predicate |
| History.FilteredIsSubsequence | FrontEnd/invoice-extractor-system/src/components/History.jsx:40-44 | the result keeps the original order |
| History.FilterIdempotent | FrontEnd/invoice-extractor-system/src/components/History.jsx:40-44 | filtering the result again with the same search changes nothing |
| History.SearchIsCaseInsensitive | FrontEnd/invoice-extractor-system/src/components/History.jsx:42-43 | searches that agree in lower case give the same list |
| History.UpperCaseSearchIgnored | FrontEnd/invoice-extractor-system/src/components/History.jsx:42-43 | a search and its lower-case form give the same list |
| History.EmptySearchKeepsItemsWithAField | FrontEnd/invoice-extractor-system/src/components/History.jsx:41-43 | an empty search keeps an invoice iff it has a vendor or an invoice number |
| PdfViewer.ZoomedOut | FrontEnd/invoice-extractor-system/src/components/PDFViewer.jsx:15 | zooming out subtracts 10 down to a floor of 50 and keeps the zoom reachable |
| PdfViewer.ZoomedIn | FrontEnd/invoice-extractor-system/src/components/PDFViewer.jsx:22 | zooming in adds 10 up to a ceiling of 150 and keeps the zoom reachable |
| PdfViewer.RunStaysReachable | FrontEnd/invoice-extractor-system/src/components/PDFViewer.jsx:15-22 | any click sequence keeps the zoom in 50..150 and a multiple of 10 |
| PdfViewer.AnyClicksFromStart | FrontEnd/invoice-extractor-system/src/components/PDFViewer.jsx:4-22 | from the initial 100, every click sequence stays in range |
| PdfViewer.ClampedAtBounds | FrontEnd/invoice-extractor-system/src/components/PDFViewer.jsx:15-22 | at a bound, the click towards it leaves the zoom unchanged |
| PdfViewer.OppositeClicksCancel | FrontEnd/invoice-extractor-system/src/components/PDFViewer.jsx:15-22 | away from the bounds, a click is undone by the opposite click |
| PdfViewer.ZoomState.constructor | FrontEnd/invoice-extractor-system/src/components/PDFViewer.jsx:4 | the zoom starts at 100 |
| PdfViewer.ZoomState.ClickOut | FrontEnd/invoice-extractor-system/src/components/PDFViewer.jsx:15 | the state becomes `ZoomedOut` of the old zoom and stays reachable |
| PdfViewer.ZoomState.ClickIn | FrontEnd/invoice-extractor-system/src/components/PDFViewer.jsx:22 | the state becomes `ZoomedIn` of the old zoom and stays reachable |
| ResetPassword.Validate | FrontEnd/invoice-extractor-system/src/pages/ResetPassword.jsx:21-26 | a mismatch is reported first, then a password shorter than 6; there is no error iff the two match and have at least 6 characters |
| ResetPassword.MismatchReportedBeforeLength | FrontEnd/invoice-extractor-system/src/pages/ResetPassword.jsx:21-26 | a short mismatched pair reports the mismatch |
| ResetPassword.ResetPasswordForm.Submit | FrontEnd/invoice-extractor-system/src/pages/ResetPassword.jsx:17-50 | a failed check sets its message and sends nothing. Otherwise loading is true and error empty while the request is out. Afterwards loading is false, and either success is set or error holds the server's message or the fixed fallback |

## Left out

- Foreign calls are parameters, with no properties assumed about them: the regular-expression engine (`Extractor.Matcher`), `jwt.verify`/`jwt.sign`, `bcrypt.hash`/`bcrypt.compare`, `readPDF`, `parseFloat` and the Sheets API call. So are the clock (`now`, the row time stamp) and `process.env` values. `jwt.sign`, `bcrypt.hash`, `bcrypt.compare`, `readPDF` and the Sheets call may fail, and their failures take the routes' error paths.
- The mail sent after an upload is recorded only as its recipient (`mailedTo`). Its HTML body and transport are not part of this model, and its failure is swallowed by the route anyway.
- Passport Google OAuth routes, password-reset e-mails, the server wiring, multer, the `/invoices/history` query and the Reports page: framework plumbing, database queries or floating-point display code.
- Mongoose's `_id` values are modelled as indexes into the collection. A `findById` with a malformed id throws a CastError, which the routes turn into a 500; that path is not modelled.
- `timestamps: true` fields and `createdAt` ordering are reduced to a creation-time parameter.
- Invoice totals and the confidence are exact numbers: the total is a `real` and the confidence is in integer hundredths. JavaScript doubles agree on the values used (0.35 + 0.35 reaches 0.70).
- `toLowerCase` is modelled for ASCII letters only. `length` counts characters, not UTF-16 code units. `trim` uses JavaScript's whitespace set.
- Request bodies are modelled as strings or absent. A non-string body value, such as a number passed where `.trim()` is called, would throw; that path is not modelled.
- The error middleware receives the messages of a ValidationError's `errors` object and the keys of `keyValue` as sequences. Key-order details of `Object.keys` are not modelled.
- ErrorHandler.HandleError: the code-11000 branch is given the keys of `keyValue` as a sequence, so it assumes `keyValue` is present. An error with code 11000 and no `keyValue` would make `Object.keys` throw inside the handler; that path is not modelled.
- Concurrency between requests is not modelled: each route runs alone against the stores.
- The three-second redirect after a successful password reset is not modelled; it is a timer and a navigation.
- UserModel.FindByEmail: matches the e-mail exactly. Every caller passes an already normalised e-mail, on which the schema's query setters change nothing.
- AuthRoutes.UpdateSettings: its success condition also requires a non-empty stored password. Every stored account has one, but the model's store invariant does not record it.
- Upload.FindTemplate: an undefined `vendorName` in the filter is read as null, which no stored (string) name equals.
- VendorRoutes.SaveMapping: the create branch's refusal is a rejected promise in the source, which Express 4 leaves unanswered. The model returns the rejection instead of a reply.
