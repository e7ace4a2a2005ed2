# UK immigration case tool — a verified model of its core

The tool is a browser application in which a caseworker takes in a client's
details for a UK visa application, tracks the case's deadlines, collects the
client's documents, looks over a table of cases, sends the client a WhatsApp
message and exports a PDF summary. This project models the logic behind
those screens in Dafny:

- **Deadline engine** (`deadlines.dfy`): up to four dated form fields become
  the deadline list. The days remaining to each deadline are classified red,
  amber or green and written as a countdown. The list is sorted by date, and
  the earliest deadline is shown on the dashboard. A calendar link is built
  from the date. An urgent deadline is marked once in the shown-warnings set.
- **Documents** (`documents.dfy`): the size and type gate on uploads, the
  uploaded-file list and its persistence, file removal, the type label and
  size text, the required documents of the chosen route, and the
  `completed/total` progress.
- **Keyword matching** (`matching.dfy`): the rule that a required document
  counts as uploaded. The tool states it three times, in the document
  manager, the application controller and the PDF exporter; here it is
  stated once and shared.
- **Intake** (`intake.dfy`, `catalog.dfy`): the catalogue of seven visa
  routes and their documents, and the field rules (required, email, UK phone,
  UK postcode, required checkbox). It also covers form validation, and the
  submission that saves the client data, rebuilds the deadlines and sets the
  required documents.
- **Case table** (`dashboard.dfy`): filtering, sorting with direction toggling,
  pagination, the status counters and HTML escaping.
- **Store** (`storage.dfy`): the in-memory key–value store, whose loads turn a
  falsy value into `null`, and its typed accessors.
- **Application controller** (`app.dfy`): demo mode and its sample data, the
  WhatsApp message and the phone number of its link.
- **PDF export** (`pdf_export.dfy`): the early exits, the page-break rule of
  the y cursor, the rows of each section, the page footers and the file name.

Shared helpers: `wrappers.dfy` (Option), `strings.dfy` (the JavaScript string
operations the tool uses), `json.dfy` (JSON values and JavaScript truthiness),
`seqs.dfy` (order-preserving filter, stable sort), `records.dfy` (the stored
deadline and file records and their JSON encoding) and `dates.dfy` (ISO dates
as day numbers).

State that the tool changes in place is a Dafny `class`:
`Storage.StorageManager`, `Deadlines.DeadlineManager`,
`Documents.DocumentManager`, `Dashboard.CaseTable`, `App.AppManager` and the
PDF document `PdfExport.PdfDocument`. Each loop of the tool is a `method` with
invariants, proved against a specification function about which the lemmas
are stated.

`getUrgencyClass` (immigration-ops/deadlines.js:90-95) returns `red` for every
countdown of seven days or less, overdue included. So `Deadlines.UrgencyClass`
has three classes, red, amber and green. `Deadlines.UrgentIsRed` records that
overdue deadlines are red but raise no warning.

Ids made from the clock and a random number are modelled as a counter
(`nextId`) that gives every new deadline or file a fresh id. Calls into code
outside the model are parameters:

- the current day is `today`, a day number;
- `toLocaleDateString` is `formatDate`;
- `toLocaleString` is `generatedAt`;
- the ISO date of the export is `isoDate`;
- `encodeURIComponent` is `encode`;
- `toFixed(1)` is `fixed`;
- jsPDF's `splitTextToSize` is `splitText`;
- whether the PDF library loaded is `libraryLoaded`;
- the consent flag is `featuresEnabled`.

## Model

| member | source | states |
|---|---|---|
| Storage.LoadFrom | immigration-ops/storage.js:41-48 | a load returns the stored value when it is truthy and `null` otherwise; it is truthy exactly when the key holds a truthy value |
| Storage.SaveThenLoad | immigration-ops/storage.js:26-48 | after a save, the key loads as the saved value if truthy and as `null` if falsy; every other key loads as before |
| Storage.RemoveThenLoad | immigration-ops/storage.js:41-62 | after a remove the key loads as `null`; every other key loads as before |
| Storage.ConsentIn | immigration-ops/storage.js:108-111 | consent holds exactly when the stored record is an object whose `consented` is exactly `true` |
| Storage.ConsentRoundTrip | immigration-ops/storage.js:97-111 | after saving consent `c`, consent reads back as `c`, so a refusal reads back as no consent |
| Storage.ListIn | immigration-ops/storage.js:125-127 | a list load gives `[]` for a missing key and the stored value for a truthy one; the result is never falsy |
| Storage.DemoModeIn | immigration-ops/storage.js:159-161 | demo mode is on exactly when the stored value is exactly `true` |
| Storage.DemoModeRoundTrip | immigration-ops/storage.js:151-161 | saving a demo-mode value makes it read back unchanged |
| Storage.ClearedStore | immigration-ops/storage.js:67-75 | in the cleared store every key loads as `null`, both lists load as `[]`, and neither consent nor demo mode holds |
| Storage.SaveKeepsOthers | immigration-ops/storage.js:26-34 | saving the client data or the deadlines changes no other key |
| Storage.StorageManager.constructor | immigration-ops/storage.js:10 | the store starts empty |
| Storage.StorageManager.Save | immigration-ops/storage.js:26-34 | the key now holds the value, every other key is unchanged, and the save reports success |
| Storage.StorageManager.Remove | immigration-ops/storage.js:54-62 | the key is deleted, the others are kept, and the key now loads as `null` |
| Storage.StorageManager.ClearAll | immigration-ops/storage.js:67-75 | the store is emptied and every key loads as `null` |
| Storage.StorageManager.SaveClientData | immigration-ops/storage.js:81-83 | the client data key now holds the data; nothing else changes |
| Storage.StorageManager.SaveGdprConsent | immigration-ops/storage.js:97-102 | the consent record is stored, and consent now reads back as the saved value |
| Storage.StorageManager.SaveDeadlines | immigration-ops/storage.js:117-119 | the deadlines key now holds the list; nothing else changes |
| Storage.StorageManager.SaveUploadedFiles | immigration-ops/storage.js:135-137 | the uploaded-files key now holds the list; nothing else changes |
| Storage.StorageManager.SaveDemoMode | immigration-ops/storage.js:151-153 | the demo-mode key holds the flag, and demo mode now reads back as the flag |
| Json.Get | immigration-ops/app.js:278-285 | a property read finds a value exactly when the value is an object with that key |
| Json.FromStrings | immigration-ops/intake.js:225-229 | the form's entries become an object with exactly the form's keys, each holding its text |
| Json.StrList | immigration-ops/documents.js:253-257 | a list of texts becomes a JSON array of the same length holding the texts in order |
| Json.StrListRoundTrip | immigration-ops/documents.js:262-265 | reading a stored list of texts back gives the same list |
| Records.FileNames | immigration-ops/documents.js:300-301 | the names of the uploaded files, one per file, in list order |
| Records.DeadlineRoundTrip | immigration-ops/deadlines.js:58-62 | a deadline record read back from its JSON is the same record |
| Records.FileRoundTrip | immigration-ops/documents.js:121-128 | a file record read back from its JSON is the same record |
| Records.EncodeDeadlines | immigration-ops/deadlines.js:37-39 | the saved deadline list is an array holding each deadline's record, in order |
| Records.EncodeFiles | immigration-ops/documents.js:163-165 | the saved file list is an array holding each file's record, in order |
| Records.DecodeDeadlineItems | immigration-ops/deadlines.js:30-32 | a decoded deadline list has one entry per stored item |
| Records.DecodeFileItems | immigration-ops/documents.js:170-173 | a decoded file list has one entry per stored item |
| Records.DeadlinesRoundTrip | immigration-ops/storage.js:117-127 | loading a saved deadline list gives back the same list |
| Records.FilesRoundTrip | immigration-ops/storage.js:135-145 | loading a saved file list gives back the same list |
| Strings.LowerStr | immigration-ops/documents.js:299-301 | lower-casing keeps the length and maps each character |
| Strings.RemoveWhitespace | immigration-ops/intake.js:138 | removing white space leaves none, never lengthens, and leaves a text without white space as it is |
| Strings.RemoveWhitespaceConcat | immigration-ops/intake.js:138 | removing white space distributes over concatenation |
| Strings.ReplaceWhitespaceRunsClean | immigration-ops/pdf-export.js:221 | replacing each white-space run with `_` leaves no white space and keeps a non-empty text non-empty |
| Strings.Trim | immigration-ops/intake.js:116 | a trimmed text is empty or starts and ends with a non-white-space character |
| Strings.TrimEmptyIff | immigration-ops/intake.js:116-121 | the trimmed text is empty exactly when every character is white space |
| Strings.RemoveChar | immigration-ops/deadlines.js:116 | removing every `-` leaves none and never lengthens |
| Strings.RemoveCharConcat | immigration-ops/deadlines.js:116 | removing a character distributes over concatenation |
| Strings.RemoveCharAbsent | immigration-ops/deadlines.js:116 | removing an absent character changes nothing |
| Strings.NatToString | immigration-ops/documents.js:321 | the decimal text of a count is non-empty and all digits |
| Strings.NatToStringRoundTrip | immigration-ops/documents.js:321 | the decimal text reads back as the number |
| Strings.NatToStringInjective | immigration-ops/deadlines.js:103-106 | distinct numbers have distinct decimal texts |
| Strings.ContainsWitness | immigration-ops/documents.js:302 | a contained text occurs at some position |
| Seqs.Filter | immigration-ops/dashboard.js:52-62 | a filter keeps only elements that pass, never lengthens, and draws from the input |
| Seqs.FilterConcat | immigration-ops/dashboard.js:52-62 | filtering distributes over concatenation, so the order is kept |
| Seqs.FilterKeepsMatches | immigration-ops/dashboard.js:52-62 | each passing element is kept as many times as it occurs |
| Seqs.FilterDisjointCount | immigration-ops/dashboard.js:237-238 | two filters with disjoint tests keep no more elements together than there are |
| Seqs.FilterPosition | immigration-ops/app.js:293-299 | a passing element sits in the filtered list after exactly the passing elements before it |
| Seqs.FilterAllIff | immigration-ops/documents.js:319-323 | a filter keeps every element exactly when every element passes |
| Seqs.FilterKeepsAll | immigration-ops/dashboard.js:53-59 | a filter that every element passes is the identity |
| Seqs.FilterDropsAll | immigration-ops/documents.js:84-90 | a filter that no element passes gives the empty list |
| Seqs.FilterWeaker | immigration-ops/documents.js:319 | a weaker test keeps at least as many elements |
| Seqs.Insert | immigration-ops/deadlines.js:137-139 | inserting adds exactly the one element |
| Seqs.KeyBound | immigration-ops/deadlines.js:61 | a number above every key in a list, so a key from there on is fresh; the deadline and file loaders draw new ids from it |
| Seqs.StableSort | immigration-ops/deadlines.js:137-139 | sorting yields a permutation of its input |
| Seqs.InsertSorted | immigration-ops/deadlines.js:137-139 | inserting into a sorted list under a total preorder keeps it sorted |
| Seqs.StableSortSorted | immigration-ops/dashboard.js:79-84 | under a total preorder, the sort's result is sorted |
| Seqs.StableSortHead | immigration-ops/deadlines.js:218-222 | the first element after sorting is a least element, and the first of the least ones in input order |
| Dates.DayOf | immigration-ops/deadlines.js:76-80 | a date text parses to a day only when it has the `YYYY-MM-DD` shape |
| Dates.NextDateIsNextDay | immigration-ops/deadlines.js:76-83 | the calendar's next date is a valid date whose day number is one more |
| Dates.DayNumberOrder | immigration-ops/deadlines.js:137-139 | a later calendar date has a larger day number |
| Dates.DayNumberWithinYear | immigration-ops/deadlines.js:76-83 | every date of a year numbers between that year's first day and the next year's |
| Dates.YearsAreConsecutive | immigration-ops/deadlines.js:76-83 | each year's first day follows the previous year's days |
| Dates.MonthsFillYear | immigration-ops/deadlines.js:76-83 | the months of a year add up to its length |
| Dates.MonthOffsets | immigration-ops/deadlines.js:76-83 | the first day of each month is the running sum of the month lengths |
| Dates.MonthBounds | immigration-ops/deadlines.js:76-83 | each month lies inside its year |
| Dates.MonthsIncrease | immigration-ops/deadlines.js:76-83 | a later month starts after an earlier one ends |
| Dates.YearsIncrease | immigration-ops/deadlines.js:76-83 | a later year starts no earlier |
| Catalog.RequiredDocuments | immigration-ops/documents.js:242-243 | a route has documents exactly when it is in the catalogue, and then they are its non-empty list |
| Catalog.CatalogShape | immigration-ops/intake.js:12-65 | the catalogue has seven distinct routes, its keys are exactly those routes, and each route lists at least four documents |
| Matching.TokenEnd | immigration-ops/documents.js:299 | a token runs to the next separator or the end |
| Matching.SeparatorsEnd | immigration-ops/documents.js:299 | a separator run runs to the next non-separator or the end |
| Matching.Split | immigration-ops/documents.js:299 | splitting on separator runs gives at least one piece |
| Matching.SplitSound | immigration-ops/documents.js:299 | every non-empty piece of the split is a maximal run without separators |
| Matching.SplitComplete | immigration-ops/documents.js:299 | every maximal run without separators is a piece of the split |
| Matching.SplitFromSound | immigration-ops/documents.js:299 | the split from a token start yields only maximal runs |
| Matching.SplitFromComplete | immigration-ops/documents.js:299 | the split from a position yields every maximal run after it |
| Matching.NameMatchesIff | immigration-ops/documents.js:297-304 | a file name satisfies a label exactly when it contains some maximal run of the lower-cased label longer than two characters |
| Matching.ShortLabelNeverMatches | immigration-ops/documents.js:302 | a label of at most two characters is never satisfied |
| Matching.UploadedMonotone | immigration-ops/documents.js:300 | more uploads never unsatisfy a label |
| Matching.UploadedIffSomeName | immigration-ops/documents.js:300-303 | a label is satisfied exactly when a single uploaded name satisfies it |
| Matching.RunMatches | immigration-ops/documents.js:302 | a file name containing a long enough run of the label satisfies it |
| Matching.SingleName | immigration-ops/documents.js:300 | a name that matches the label satisfies it on its own |
| Matching.PassportExample | immigration-ops/documents.js:297-304 | "my_passport_scan.pdf" satisfies "Valid Passport" |
| Matching.PhotoIsNoPassport | immigration-ops/documents.js:297-304 | "photo.jpg" does not satisfy "Valid Passport", since neither "valid" nor "passport" occurs in it |
| Deadlines.FieldDeadlinesFromSetFields | immigration-ops/deadlines.js:45-64 | the rebuilt list has at most one entry per field, each from a non-empty field with that field's label and date, and the ids count up from the next id |
| Deadlines.SetFieldsListed | immigration-ops/deadlines.js:56-63 | every non-empty field gives an entry with its label and date |
| Deadlines.SlotsFollowFieldOrder | immigration-ops/deadlines.js:56 | entries appear in field order |
| Deadlines.FieldDeadlinesIds | immigration-ops/deadlines.js:61 | the new entries get consecutive fresh ids |
| Deadlines.FieldDeadlinesSnoc | immigration-ops/deadlines.js:56-64 | one more field adds its entry at the end exactly when it is non-empty |
| Deadlines.DaysRemaining | immigration-ops/deadlines.js:76-83 | the days remaining are the deadline's day number minus today's; they exist exactly when the date parses |
| Deadlines.DaysRemainingNextDay | immigration-ops/deadlines.js:76-83 | a deadline one calendar day later has one more day remaining |
| Deadlines.UrgencyClass | immigration-ops/deadlines.js:90-95 | red exactly for at most 7 days, overdue included; amber exactly for 8 to 30; green exactly above 30 or for an unparsable date |
| Deadlines.CountdownShape | immigration-ops/deadlines.js:102-107 | the countdown ends in "overdue", "Today!" or "remaining" exactly for a negative, zero or positive count |
| Deadlines.CountdownInjective | immigration-ops/deadlines.js:102-107 | different day counts give different countdowns |
| Deadlines.SuffixInjective | immigration-ops/deadlines.js:103-106 | two numbers with the same suffix written after them are equal |
| Deadlines.CalendarStamp | immigration-ops/deadlines.js:114-119 | for a parsable date the link's dates parameter is the eight-digit date without dashes, written twice as `d/d`, between the encoded title and details |
| Deadlines.SortByDate | immigration-ops/deadlines.js:137-139 | the sorted copy is a permutation of the list |
| Deadlines.DateLePreorder | immigration-ops/deadlines.js:138 | comparing parsable dates is a total preorder |
| Deadlines.SortByDateOrdered | immigration-ops/deadlines.js:137-139 | the sorted copy is a permutation ordered by ascending day number |
| Deadlines.Views | immigration-ops/deadlines.js:142-161 | one rendered item per deadline, in the order given |
| Deadlines.UrgentIds | immigration-ops/deadlines.js:166-168 | the warned ids are exactly the ids of deadlines 0 to 7 days away |
| Deadlines.UrgentIsRed | immigration-ops/deadlines.js:90-95 | every warned deadline is red; overdue deadlines are red but not warned |
| Deadlines.DashboardSummary | immigration-ops/deadlines.js:211-215 | the dashboard says "None" exactly when there are no deadlines |
| Deadlines.NextDeadlineIsEarliest | immigration-ops/deadlines.js:218-233 | the dashboard shows a deadline with the least date, the first such in stored order, with its countdown and colour |
| Deadlines.StoredDeadlinesRoundTrip | immigration-ops/deadlines.js:30-39 | loading the saved list gives it back, and an empty store gives `[]` |
| Deadlines.DeadlineManager.constructor | immigration-ops/deadlines.js:6-9 | the manager starts with no deadlines and no shown warnings |
| Deadlines.DeadlineManager.LoadDeadlines | immigration-ops/deadlines.js:30-32 | the list becomes the stored list, and later ids stay fresh |
| Deadlines.DeadlineManager.ShowUrgentWarning | immigration-ops/deadlines.js:191-199 | the deadline's id is marked; marking it again changes nothing |
| Deadlines.DeadlineManager.Render | immigration-ops/deadlines.js:125-170 | the items are those of the date-sorted copy, and exactly the urgent ids are added to the shown warnings |
| Deadlines.DeadlineManager.RenderEach | immigration-ops/deadlines.js:142-169 | the render loop yields one item per deadline and marks exactly the urgent ones |
| Deadlines.DeadlineManager.CollectDeadlines | immigration-ops/deadlines.js:46-64 | the list is replaced by the entries of the non-empty fields |
| Deadlines.DeadlineManager.UpdateFromForm | immigration-ops/deadlines.js:45-69 | the list is rebuilt from the form and saved; the render and the dashboard summary follow from it |
| Deadlines.CollectFields | immigration-ops/deadlines.js:56-64 | the field loop builds exactly the list of entries of the non-empty fields |
| Deadlines.UrgentIdsBelow | immigration-ops/deadlines.js:191-196 | every marked id is an id of the list |
| Deadlines.SameUrgentIds | immigration-ops/deadlines.js:137-168 | rendering the sorted copy marks the same ids as the stored list |
| Documents.Validate | immigration-ops/documents.js:97-111 | a file is too large exactly above 20 MiB; otherwise it is unsupported exactly when its type is not allowed; otherwise it is accepted |
| Documents.AcceptedIff | immigration-ops/documents.js:97-111 | a file is accepted exactly when it is at most 20971520 bytes and PDF, JPEG, JPG or PNG |
| Documents.AdmittedFromAccepted | immigration-ops/documents.js:84-90 | the admitted entries come only from accepted files, with consecutive fresh ids |
| Documents.AcceptedAdmitted | immigration-ops/documents.js:84-90 | every accepted file is admitted, in its place among the accepted ones |
| Documents.RejectedAdmitNothing | immigration-ops/documents.js:84-90 | a batch with no accepted file admits nothing |
| Documents.AdmittedSnoc | immigration-ops/documents.js:85-88 | one more file adds its entry at the end exactly when it is accepted |
| Documents.GateAfterDecisions | immigration-ops/gdpr.js:116-143 | after the decisions taken since the page loaded, uploads are enabled exactly when the latest decision accepted, or, with none, when an acceptance is stored; the file input is disabled exactly when the latest decision refused, or, with none, when the markup disables it and no acceptance is stored; enabled uploads always come with an enabled input |
| Documents.KeyboardSkipsConsent | immigration-ops/documents.js:72-77 | as written, Enter or Space reaches the upload without consent exactly when no acceptance is stored, no decision has been taken since the page loaded, and the markup leaves the file input enabled; click and drop never reach it without consent |
| Documents.GatedUploadIsConsent | immigration-ops/documents.js:37-69 | with consent checked on every path, as the click and drop handlers do, each trigger reaches the upload exactly when consent is in force |
| Documents.ButtonRemovesNothing | immigration-ops/documents.js:151-152 | as written, removing by the text id the button passes removes nothing |
| Documents.RemoveById | immigration-ops/documents.js:151-152 | removal keeps only entries whose id differs, drawn from the list |
| Documents.ButtonRemovesEntry | immigration-ops/documents.js:151-152 | with the ids compared as the button passes them, the entry goes and every other entry stays |
| Documents.FileTypeLabel | immigration-ops/documents.js:218-223 | PDF exactly for PDF, JPG exactly for JPEG or JPG, PNG exactly for PNG, and File exactly for every other type |
| Documents.AcceptedLabelled | immigration-ops/documents.js:218-223 | an accepted file is labelled PDF, JPG or PNG |
| Documents.FormatFileSize | immigration-ops/documents.js:230-234 | the size text ends in its unit |
| Documents.FileSizeUnits | immigration-ops/documents.js:230-234 | B exactly below 1024, KB exactly up to 1 MiB, MB above, and below 1024 the exact count of bytes |
| Documents.WithRequiredDocs | immigration-ops/documents.js:253-257 | the client data holds the required documents and keeps every other field |
| Documents.RequiredDocsRoundTrip | immigration-ops/documents.js:253-268 | the saved required documents load back unchanged |
| Documents.DocsProgress | immigration-ops/documents.js:316-329 | progress reads `completed/total` with completed at most total, and shows success exactly when all of a non-empty list are done |
| Documents.ProgressComplete | immigration-ops/documents.js:319-324 | success shows exactly when the list is non-empty and every required document is satisfied |
| Documents.ProgressMonotone | immigration-ops/documents.js:319 | more uploads never lower the completed count |
| Documents.StoredFilesRoundTrip | immigration-ops/documents.js:163-173 | loading the saved files gives them back, and an empty store gives `[]` |
| Documents.StoredBatchStep | immigration-ops/documents.js:130-131 | within a batch, each admitted file saves the grown list |
| Documents.DocumentManager.constructor | immigration-ops/documents.js:6-14 | the manager starts with no files and no required documents |
| Documents.DocumentManager.LoadUploadedFiles | immigration-ops/documents.js:170-173 | the list becomes the stored list |
| Documents.DocumentManager.LoadRequiredDocs | immigration-ops/documents.js:262-268 | the required documents become the stored ones when present, and are otherwise kept |
| Documents.DocumentManager.AddFile | immigration-ops/documents.js:117-131 | one entry with the file's details and a fresh id is appended, and the list is saved |
| Documents.DocumentManager.HandleFiles | immigration-ops/documents.js:84-90 | exactly the accepted files are appended, in order, and saved |
| Documents.DocumentManager.HandleFile | immigration-ops/documents.js:85-88 | an accepted file is appended and saved; a rejected one changes nothing |
| Documents.DocumentManager.Upload | immigration-ops/documents.js:37-69 | without consent nothing changes: the list, the id counter and the store stay as they were; with consent the admitted files are appended with consecutive fresh ids, the counter moves past them, and the store holds the new list exactly when something was admitted |
| Documents.DocumentManager.RemoveFile | immigration-ops/documents.js:151-158 | the corrected removal of the first Findings row: the entries whose id the button carries are removed, the others kept, and the list is saved (the removal as written is `Documents.RemoveAsWritten`, which removes nothing, see `Documents.ButtonRemovesNothing`) |
| Documents.DocumentManager.SaveRequiredDocs | immigration-ops/documents.js:253-257 | the client data is saved with the required documents |
| Documents.DocumentManager.UpdateRequiredDocuments | immigration-ops/documents.js:240-248 | a catalogued route sets and saves its documents; any other leaves the documents and the store unchanged |
| Intake.EmailMatchesIff | immigration-ops/intake.js:127-133 | an email passes exactly when it has a non-empty local part, one `@`, and a domain with a `.` neither first nor last, all without white space |
| Intake.EmailMatchesShape | immigration-ops/intake.js:128 | a passing email has that shape |
| Intake.ShapeMatches | immigration-ops/intake.js:128 | an email of that shape passes |
| Intake.EmailOneAt | immigration-ops/intake.js:128 | a passing email has exactly one `@`, neither first nor last, and no white space |
| Intake.PhoneRule | immigration-ops/intake.js:136-142 | a phone passes exactly when, without white space, it is `+44` and 9 to 13 digits, or `0` and 9 to 13 digits |
| Intake.PostcodeMatchesIff | immigration-ops/intake.js:145-151 | the postcode pattern accepts exactly the texts a left-to-right scan accepts: digit, letter, letter at the end, at most one white-space character before them, and before that one or two letters, one or two digits and at most one letter |
| Intake.PostcodeShape | immigration-ops/intake.js:145-151 | a passing postcode is 5 to 9 characters, starts with a letter, and ends with a digit and two letters |
| Intake.PostcodeExample | immigration-ops/intake.js:149 | the example postcode passes |
| Intake.Message | immigration-ops/intake.js:121-157 | every rule has a non-empty message |
| Intake.RuleStep | immigration-ops/intake.js:117-157 | each rule can only clear validity, and a failing rule's message replaces the earlier one |
| Intake.PassesAllIff | immigration-ops/intake.js:117-157 | a field is valid exactly when no rule fails |
| Intake.MessageEmptyIff | immigration-ops/intake.js:117-157 | the message is empty exactly when every rule passes |
| Intake.MessageIsLastFailure | immigration-ops/intake.js:117-157 | the message is that of the last failing rule |
| Intake.FieldValidIff | immigration-ops/intake.js:115-167 | a field is valid exactly when no rule fails, and exactly when its message is empty |
| Intake.BlankRequiredFails | immigration-ops/intake.js:116-124 | a required field of only white space is invalid |
| Intake.CheckRule | immigration-ops/intake.js:121-157 | one rule step clears validity exactly when the rule fails, and then sets its message |
| Intake.ValidateField | immigration-ops/intake.js:115-167 | the rule sequence returns validity exactly when no rule fails, with the last failure's message |
| Intake.RequiredFieldsListed | immigration-ops/intake.js:200 | all listed required fields are valid exactly when every required field is |
| Intake.ReportedStep | immigration-ops/intake.js:203-207 | one more field adds its message and conjoins its validity |
| Intake.ValidateForm | immigration-ops/intake.js:199-210 | the form is valid exactly when every required field is; each required field is validated and reports its message |
| Intake.EvidenceChecklist | immigration-ops/intake.js:262-281 | no route gives the hint, a catalogued route gives its documents, and any other route gives the no-requirements text |
| Intake.SaveSubmission | immigration-ops/intake.js:225-242 | the form is saved as the client data, the deadlines are rebuilt and saved, the route's documents are set, and no other key changes |
| Intake.HandleSubmit | immigration-ops/intake.js:215-256 | it saves exactly when the form is valid; an invalid form changes nothing; a valid one stores the client data (with the route's documents when the route is catalogued), rebuilds and stores the deadlines, sets the documents, and keeps every other key |
| Dashboard.FilteredExactly | immigration-ops/dashboard.js:52-62 | the filtered list holds exactly the cases that pass all three filters, each as often as in the full list |
| Dashboard.EmptyFiltersKeepAll | immigration-ops/dashboard.js:53-59 | with every filter empty, every case is shown in order |
| Dashboard.StatusFilterExact | immigration-ops/dashboard.js:58 | a status filter keeps exactly the cases with that status |
| Dashboard.StrLessIrreflexive | immigration-ops/dashboard.js:82 | no text is less than itself |
| Dashboard.StrLessAsymmetric | immigration-ops/dashboard.js:82 | two texts are never each less than the other |
| Dashboard.StrLessTotal | immigration-ops/dashboard.js:82 | of two different texts, one is less |
| Dashboard.StrLessTransitive | immigration-ops/dashboard.js:82 | text order is transitive |
| Dashboard.StrLeTotal | immigration-ops/dashboard.js:82 | any two texts are comparable |
| Dashboard.StrLeTransitive | immigration-ops/dashboard.js:82 | non-strict text order is transitive |
| Dashboard.ColumnLePreorder | immigration-ops/dashboard.js:79-84 | the column comparison is a total preorder in either direction |
| Dashboard.SortByColumn | immigration-ops/dashboard.js:79-84 | sorting is a permutation |
| Dashboard.SortByColumnOrdered | immigration-ops/dashboard.js:79-84 | the sorted list is ordered by the column, missing values as empty, ascending or descending |
| Dashboard.CeilPages | immigration-ops/dashboard.js:251 | the page count is the least number of pages that hold every case |
| Dashboard.MaxPages | immigration-ops/dashboard.js:274 | the shown page count is at least 1 |
| Dashboard.PageOf | immigration-ops/dashboard.js:93-95 | a page holds at most a page size of cases, each the case at its offset |
| Dashboard.PageCovers | immigration-ops/dashboard.js:93-95 | every case appears on its page at its offset |
| Dashboard.PageEmptyIff | immigration-ops/dashboard.js:102-110 | a page in range is empty exactly when no case passes the filters |
| Dashboard.PendingCompletedBound | immigration-ops/dashboard.js:237-238 | pending and completed together never exceed the total |
| Dashboard.CountStep | immigration-ops/dashboard.js:234-239 | one more case adds one to a count exactly when it qualifies |
| Dashboard.Escape | immigration-ops/dashboard.js:301-305 | escaping never shortens, and the empty text escapes to the empty text |
| Dashboard.EscapeNoRawMarkup | immigration-ops/dashboard.js:301-305 | an escaped text holds no raw `<`, `>`, `"` or `'` |
| Dashboard.UnescapeChar | immigration-ops/dashboard.js:301-305 | each of the five entities decodes to the character it replaced, and any other character stands for itself |
| Dashboard.EscapeRoundTrip | immigration-ops/dashboard.js:301-305 | decoding the entities of an escaped text gives the text back |
| Dashboard.CaseTable.constructor | immigration-ops/dashboard.js:7-12 | the table starts empty on page 1, 25 per page, sorted by Case ID ascending |
| Dashboard.CaseTable.ApplyFilters | immigration-ops/dashboard.js:47-66 | the shown list becomes the filtered full list, with the search lower-cased, and the page resets to 1 |
| Dashboard.CaseTable.ReceiveCases | immigration-ops/dashboard.js:29-40 | received cases replace the list and are filtered again |
| Dashboard.CaseTable.SortTable | immigration-ops/dashboard.js:71-87 | the same column flips the direction and a new column sorts ascending; the shown list is sorted by it |
| Dashboard.CaseTable.RenderTable | immigration-ops/dashboard.js:92-110 | the table shows the current page, or "No cases found" exactly when no case passes |
| Dashboard.CaseTable.NextPage | immigration-ops/dashboard.js:250-257 | the page advances only while a later page exists |
| Dashboard.CaseTable.PreviousPage | immigration-ops/dashboard.js:259-265 | the page goes back only from after the first |
| Dashboard.CaseTable.ChangePageSize | immigration-ops/dashboard.js:267-271 | the size is set and the page resets to 1 |
| Dashboard.CaseTable.UpdatePagination | immigration-ops/dashboard.js:273-278 | each button is disabled exactly when its move would do nothing, and the text names the page and the count |
| Dashboard.CaseTable.UpdateStats | immigration-ops/dashboard.js:231-245 | the counters are the total and the numbers of urgent, pending and completed cases, and pending plus completed is at most the total |
| App.DemoFields | immigration-ops/app.js:18-22 | the sample data's route and four deadline fields |
| App.ThreeFieldsKept | immigration-ops/deadlines.js:49-57 | with the first three fields set and the fourth empty, exactly the first three are kept |
| App.ThreeDatedFields | immigration-ops/deadlines.js:49-64 | such a form gives the three labelled deadlines with consecutive ids |
| App.ThreeEntries | immigration-ops/deadlines.js:58-62 | the first three fields give their labelled entries |
| App.DemoDeadlines | immigration-ops/app.js:19-22 | the sample data gives three deadlines: submission, biometrics and decision |
| App.DemoRoute | immigration-ops/app.js:213-215 | the sample route is the Spouse Visa, which is catalogued |
| App.AppRuleAgrees | immigration-ops/app.js:333-340 | the controller's rule agrees with the document manager's on a present list and is false for a missing one |
| App.FieldLine | immigration-ops/app.js:278-285 | a client line is written exactly when its field is truthy (a stored empty text writes no line) |
| App.HelpList | immigration-ops/app.js:299 | the help list is the first three missing documents, or all of them when fewer |
| App.WhatsAppMessage | immigration-ops/app.js:271-308 | the message starts with the greeting and ends with the closing question |
| App.EmptyStoreMessage | immigration-ops/app.js:271-308 | with nothing stored the message is the greeting and the closing question |
| App.ClientLinesShown | immigration-ops/app.js:278-285 | a truthy name or route shows up as its line in the message |
| App.NextDeadlineIsStoredFirst | immigration-ops/app.js:287-290 | the deadline line names the first stored deadline, not the earliest, and is absent when there is none |
| App.HelpListIsFirstMissing | immigration-ops/app.js:292-302 | the help list has at most three entries, the first missing documents in catalogue order, each unsatisfied; when three or fewer are missing, all are listed |
| App.AppendHelp | immigration-ops/app.js:297-302 | the help loop appends the heading and one bullet per listed document |
| App.WhatsAppPhone | immigration-ops/app.js:314-315 | the phone has no white space, and is the default number without an input |
| App.PhoneIgnoresSpacing | immigration-ops/app.js:315 | white space anywhere in the input does not change the phone |
| App.AppManager.constructor | immigration-ops/app.js:6-8 | the controller starts with demo mode off |
| App.AppManager.SetupDemoMode | immigration-ops/app.js:143 | demo mode is read from the store |
| App.AppManager.LoadDemoData | immigration-ops/app.js:183-221 | the sample data is saved with the Spouse Visa's documents, its three deadlines are saved, and no other key changes |
| App.AppManager.ToggleDemoMode | immigration-ops/app.js:154-165 | the flag is negated and saved; switching on stores the sample client data, its deadlines and the spouse checklist and keeps every other key; switching off changes nothing else |
| App.AppManager.GenerateWhatsAppMessage | immigration-ops/app.js:271-308 | the message is the one built from the stored client data, deadlines and uploads |
| App.AppManager.OpenWhatsApp | immigration-ops/app.js:313-317 | the link carries the cleaned phone and the encoded message |
| PdfExport.PdfDocument.constructor | immigration-ops/pdf-export.js:35 | a new document has one empty page |
| PdfExport.PdfDocument.Text | immigration-ops/pdf-export.js:45 | a text call adds one row on the current page |
| PdfExport.PdfDocument.AddPage | immigration-ops/pdf-export.js:119 | a new last page becomes current |
| PdfExport.PdfDocument.SetPage | immigration-ops/pdf-export.js:209 | the chosen page becomes current |
| PdfExport.CursorStaysOnPage | immigration-ops/pdf-export.js:133-144 | started on the page, the list cursor stays between 20 and 280 |
| PdfExport.ListPaging | immigration-ops/pdf-export.js:133-144 | from the top, a list breaks the page every 38 rows |
| PdfExport.ListRows | immigration-ops/pdf-export.js:133-144 | the list loop writes each text in order at the cursor, and adds the breaks the cursor rule gives |
| PdfExport.ListRow | immigration-ops/pdf-export.js:137-143 | one row is written, the cursor moves down a line, and a page is added past 280 |
| PdfExport.NoteRows | immigration-ops/pdf-export.js:195-203 | every note line is written in order between 20 and 280 |
| PdfExport.NoteRow | immigration-ops/pdf-export.js:196-202 | a page break comes before a line when the cursor is past 280 |
| PdfExport.DeadlineRows | immigration-ops/pdf-export.js:102-111 | the deadline rows go one line apart with no page break |
| PdfExport.Footers | immigration-ops/pdf-export.js:207-218 | one footer per page, in page order, 10 above the bottom edge |
| PdfExport.AddFooters | immigration-ops/pdf-export.js:207-218 | every page gets its footer and nothing else changes |
| PdfExport.PdfRuleAgrees | immigration-ops/pdf-export.js:237-243 | the exporter's rule agrees with the controller's on every list |
| PdfExport.RequiredRowMarks | immigration-ops/pdf-export.js:135-137 | a required row starts with `[✓]` exactly when the document is satisfied, followed by the document's name |
| PdfExport.FileNameOfClient | immigration-ops/pdf-export.js:221 | the file name carries the client name with each white-space run replaced by `_` |
| PdfExport.WriteHeader | immigration-ops/pdf-export.js:37-89 | appends exactly the header rows on the current page and keeps the earlier rows, the page count and the current page; the cursor ends 13 lines below the top |
| PdfExport.HeaderLayout | immigration-ops/pdf-export.js:42-88 | the title is first, at the top margin; every header row is on one page within 20 and 97, going down the page; each personal detail's label and value share a line, one line per detail in the listed order |
| PdfExport.WriteDetails | immigration-ops/pdf-export.js:70-76 | the loop writes each label and its value on one line, one line per entry in order, and moves the cursor down one line per entry |
| PdfExport.ListSection | immigration-ops/pdf-export.js:117-147 | past line 250 the section starts a new page with its heading at the top margin, otherwise the heading goes at the cursor on the current page; then the rows follow in order one line apart with their page breaks, each between 20 and 280, and the earlier rows are kept |
| PdfExport.WriteSections | immigration-ops/pdf-export.js:92-204 | the sections leave the cursor on the page |
| PdfExport.GeneratePdf | immigration-ops/pdf-export.js:20-229 | no library or no client name produces nothing; otherwise the export is saved under the file name, or fails for a non-text name, and every page ends with its footer |

## Left out

- The network parts of the tool are not modelled: the remote case service and the dashboard's `loadCases` fetch, `updateField` and `sendReminder`. `Dashboard.CaseTable.ReceiveCases` models only what a successful load does to the table.
- `Dates.DayOf` reads a `YYYY-MM-DD` text as a day number and parses nothing else. The UTC parse, the local `setHours` and daylight-saving days of `getDaysRemaining` are not modelled. The NaN an invalid date gives the sort comparator is modelled by its effect: `Deadlines.DateLe` holds both ways for such a date, so the sort treats it as equal to every date, as a comparator result of NaN does.
- Date and number formatting are parameters: `toLocaleDateString`, `toLocaleString` and the KB/MB branches of `toFixed(1)`.
- `encodeURIComponent` and jsPDF's `splitTextToSize` are parameters.
- Strings.LowerStr: lower-cases ASCII letters only, because full Unicode case mapping is outside the model.
- Catalog.RequiredDocuments, Intake.EvidenceChecklist and Documents.DocumentManager.UpdateRequiredDocuments: the route is taken to be one of the selector's options or some other plain text, never a name inherited from `Object.prototype`. The source looks the route up on a plain object, so a route such as "constructor" or "toString" finds a truthy function there. On such a name the checklist render throws in `documents.map`, and `updateRequiredDocuments` sets the checklist to that function and re-saves the client data, whose JSON copy then drops the checklist. The same holds for `Intake.SaveSubmission` and `Intake.HandleSubmit`, which reach these lookups with the submitted route. The model treats such a name as an uncatalogued route.
- Dashboard.MatchesFilters and Dashboard.SortByColumn: a case is a map from column to text, so every cell is taken to be text. The sheet behind the case service can deliver numbers. A numeric `Case ID`, `Name` or `Email` would throw in `toLowerCase` while a search is active. A numeric `Status` or `Urgency` never equals the selected filter text. A numeric column sorts by number, and a cell of 0 sorts as the empty text. None of that is modelled.
- Intake.HandleSubmit and Intake.SaveSubmission: the `FormData` read of the form is not modelled. The map of submitted texts `data` is a parameter, assumed to agree with the field values the validation reads.
- Dashboard.StrLess: compares characters by code point, which matches JavaScript only for characters inside the Basic Multilingual Plane.
- PdfExport.GeneratePdf: jsPDF itself is left out, including fonts, sizes, x positions, the page size and `doc.save`. The document is its rows, pages and current page. The only library error modelled is the one the file name raises for a client name that is not text.
- PdfExport.WriteSections: states only that the cursor stays on the page and the document stays well formed. The rows of each section are stated by the members it calls (`PdfExport.DeadlineRows`, `PdfExport.ListSection`, `PdfExport.NoteRows`), and are not restated for the four sections together.
- The async `FileReader` callback of `addFile` is not modelled. A file is appended as soon as it is admitted, and its data URL and upload time are not kept.
- Files whose stored list or stored required documents cannot be read back as lists: `Deadlines.StoredDeadlines`, `Documents.StoredFiles` and `Documents.StoredRequiredDocs` read them as empty or absent.
- Deadlines.DeadlineManager.ShowUrgentWarning: the one-minute quiet window after start-up only ends the function early, and no notification follows it, so the mark is the only effect modelled.
- Timers are left out: the one-minute re-render, the 30-second refresh and the one-and-a-half-second move to the documents section. Each tick is a call of the method it runs.
- DOM rendering and events are left out: `innerHTML` templates, the file icon, the checklist markup, `updateDemoModeUI`, navigation, the rules and help panels, modals, toasts and notifications.
- `loadSavedData`, `resetForm` and the intake `updateDashboard` only copy values into the page and are not modelled. `storage.getStorageInfo` measures sizes with `Blob` and is not modelled either.
- App.WhatsAppMessage: a stored deadline list whose first item is not a record would throw, and so would stored required documents that are not a list. The model writes `undefined` for the missing fields and skips the help section.
- Of the consent manager, only what the drop zone sees is modelled: the `featuresEnabled` flag and the `disabled` attribute of the file input, after start-up and after each decision (`Documents.GateAfter`). Its modal, notifications, privacy notice and data clearing are not. The page markup is not part of this model, so whether the file input starts disabled is the parameter `markupDisabled`.
- Documents.DocumentManager.RemoveFile: models the corrected removal, comparing the id the button carries. As written, `removeFile` removes nothing when called from the button (first Findings row, `Documents.RemoveAsWritten`).
- Dashboard.CaseTable.ChangePageSize: takes the selected size as a positive number, since the page-size menu offers only positive sizes. A `parseInt` that fails is not modelled.
- The remote-service wrapper and the page-check script are not modelled. They are network I/O and DOM inspection.

## Findings

| source | as written | input that shows it | evidently intended | confidence | as-written member | corrected member |
|---|---|---|---|---|---|---|
| immigration-ops/documents.js:151-152, 194 | the remove button passes the file id as text, while stored ids are numbers, and `!==` compares without conversion | any uploaded file whose delete button is pressed: the filter keeps every entry, so nothing is removed | the entry whose id the button carries is removed and every other entry is kept | not executed | Documents.ButtonRemovesNothing | Documents.ButtonRemovesEntry |
| immigration-ops/documents.js:72-76 | pressing Enter or Space on the drop zone opens the file picker without checking consent | a page load with no acceptance stored and no consent decision taken since, and page markup that leaves `#fileInput` enabled (the markup is not part of this model); key Enter on the drop zone: the picker opens and the chosen files are handled. After a refusal on the page the input is disabled and the path is closed | the keyboard path checks consent like the click (line 38) and drop (line 64) paths | not executed | Documents.KeyboardSkipsConsent | Documents.DocumentManager.Upload |
