# BIZEASE business portal — a verified model of the application and compliance workflow

BIZEASE is a Django portal where a business registers a profile and then:

- applies for government approvals;
- uploads supporting documents and signs them;
- tracks compliance obligations.

This project models the portal's workflow in Dafny and proves what each request handler does to the store.

The model has three modules:

- `Models` (`models.dfy`) holds the records of `eodb/business_portal/models.py`:
  - one datatype per stored entity;
  - the `choices` enumerations with their stored codes;
  - the document file-extension allow-list, with the extension semantics of Django's `FileExtensionValidator`, which is the final path component's suffix after the last dot, lower-cased;
  - the uniqueness and reference constraints of the database.
- `Views` (`views.dfy`) holds the request handlers of `eodb/business_portal/views.py`.
  - The database is the class `Portal`: one map per table, keyed by primary key, and an `outbox` sequence of the mails handed to the mail service.
  - Each handler is a method. Its `modifies` clause names the tables it may change. Its `ensures` clauses give every outcome: not found, invalid form, no documents, success. They also give the complete new state of each table it touches.
  - Every handler keeps `Valid()`, the conjunction of the database constraints.
  - The pure parts are functions with their own lemmas: number generation, the status JSON, and the specification of the reminder sweep (`DueIds`, `Swept`, `ReminderMails`).
- `Text` (`text.dfy`) holds the string operations the file and form checks use. These are ASCII lower-casing, `endswith`, the last index of a character, and `strip`, which removes the characters Python's `str.isspace` accepts.

These are parameters of the handlers:

- the authenticated requester (user id and e-mail address);
- the current instant (`now`) and the current day (`today`);
- the random eight-character draw of the number generator;
- the image library's verdict on an uploaded signature's content, and the set of file extensions the image library registers (given to the store's constructor).

## Model

| member | source | states |
|---|---|---|
| Views.Portal.SubmitApplication | eodb/business_portal/views.py:135-157 | Someone who does not own the application gets not-found, and nothing changes. With no attached document the result is NoDocuments, and the applications and outbox are unchanged. Otherwise the application, whatever its prior status, becomes `submitted` with submission date `now`, every other record is kept, and exactly one confirmation mail to the requester is appended. The store constraints are kept. |
| Views.Portal.DocumentCount | eodb/business_portal/views.py:138-141 | The count is the number of documents attached to the application. It is zero exactly when none is attached. |
| Views.Portal.UploadDocument | eodb/business_portal/views.py:167-186 | Someone who does not own the application gets not-found. An invalid form gets InvalidForm. In both cases no document is created. A valid form (see `DocumentFormValid`) adds exactly one document under a fresh key. That document is linked to the application, and no other document changes. |
| Views.UploadedDocument | eodb/business_portal/views.py:174-181 | The stored document lies under `application_documents/` and keeps the uploaded file's extension. It is verified, with the note "Automatically verified as PDF", exactly when the validator saw the extension `pdf`. Otherwise it keeps the unverified default and has no note. |
| Models.PdfSuffixMatchesExtension | eodb/business_portal/models.py:93-96 | For an accepted upload, the handler's test "the lower-cased stored name ends in `.pdf`" holds exactly when the validator's extension is `pdf`. |
| Models.PdfSuffixUnderDirectory | eodb/business_portal/models.py:93-96 | The same equivalence holds for an accepted file placed under any directory. |
| Models.StoredNameKeepsExtension | eodb/business_portal/models.py:93-95 | Placing an upload under the storage directory does not change the extension the validator sees. |
| Models.ExtensionIsPathSuffix | eodb/business_portal/models.py:95 | The extension the validator checks is the lower-cased text after a dot near the end of the name. That dot is neither the name's first character nor right after a `/`. The extension holds no `.` and no `/`. |
| Models.ComponentExtensionIsSuffix | eodb/business_portal/models.py:95 | A path component has an extension exactly when it holds a dot that is neither its first nor its last character and has no dot after it. The extension is the lower-cased text after that dot, with no dot and no capital letter. |
| Models.FinalComponentIsLastComponent | eodb/business_portal/models.py:95 | The final component holds no `/` and is the tail of the path. It is either the whole path or preceded by a `/`. |
| Views.DocumentFormValid | eodb/business_portal/views.py:172-173 | A document form is accepted exactly when all of these hold: the type is one of the five choice codes; the file name is non-empty and at most 100 characters; the file is not empty; the validator's extension is one of the six allowed. |
| Views.SignatureFormValid | eodb/business_portal/views.py:193-194 | A signature form is accepted exactly when all of these hold: the image has a non-empty name of at most 100 characters; the file is not empty; the name's extension, as the extension validator computes it, is one the image library registers; the image library accepts the content. |
| Views.ComplianceFormValid | eodb/business_portal/views.py:230-231 | A compliance form is rejected when the title or the description is blank (whitespace only), when either holds a NUL character, or when the stripped title is longer than 255 characters. Otherwise it is accepted. |
| Views.CompleteCompliance | eodb/business_portal/views.py:248-251 | The result is completed. An already completed compliance is returned as it is. An open one gets `today` as its completion date. No field other than the two completion fields changes. |
| Views.ReminderMails | eodb/business_portal/views.py:86-92 | There is one mail per listed compliance, in the listed order. Each goes from the configured sender to the requester alone, with subject "Compliance Reminder: " plus the title, and names that compliance's title and due date. |
| Views.SweptStep | eodb/business_portal/views.py:85-94 | One loop step: the table the sweep leaves after identifier `i` is the table before it, with `reminder_sent` set on `i` when `i` is selected. Until it is visited, `i` is untouched. |
| Views.ReminderMailsSnoc | eodb/business_portal/views.py:86-92 | Selecting one more compliance appends exactly its reminder to the mails. |
| Text.StripBlank | eodb/business_portal/views.py:231 | Stripping a text leaves nothing exactly when every character is whitespace in the sense of Python's `str.isspace`. |
| Models.FinalComponentUnderDirectory | eodb/business_portal/models.py:93-95 | Prefixing a directory path leaves a file name's final component unchanged. |
| Views.Portal.AddSignature | eodb/business_portal/views.py:188-205 | Someone who does not own the document gets not-found. A form without a valid image gets InvalidForm. In both cases neither table changes. Otherwise one signature is added under a fresh key, naming the requester and the document, with `is_valid` true. The document becomes verified with the note "Document signed by user", whatever its prior state. |
| Views.Portal.Dashboard | eodb/business_portal/views.py:67-94 | A user without a business profile is redirected, and nothing changes. Otherwise the reminded compliances are exactly those of the requester's business that are open, due by today + 7 (overdue included) and not yet reminded. The compliance table becomes the swept table and one reminder per reminded compliance is appended to the outbox. |
| Views.Portal.SendReminders | eodb/business_portal/views.py:85-94 | The loop returns the selected identifiers in visiting order. It leaves the compliance table equal to `Swept` of the old table and appends exactly their reminder mails, one each, in that order. |
| Views.DueIds | eodb/business_portal/views.py:78-83 | Every selected identifier names a stored compliance of this business that is due soon. |
| Views.DueIdsExact | eodb/business_portal/views.py:78-83 | An identifier is selected if and only if its compliance is stored and meets all four conditions of the query. |
| Views.DueIdsIncreasing | eodb/business_portal/views.py:85 | The selection is strictly increasing, so no compliance is reminded twice in one sweep. |
| Views.SweptFlipsExactlyTheSelected | eodb/business_portal/views.py:93-94 | The sweep keeps every key. `reminder_sent` becomes true exactly on the selected compliances, and no other field of any record changes. |
| Views.SecondSweepSelectsNothing | eodb/business_portal/views.py:78-94 | A second sweep on the same day selects nothing, queues no mail and leaves the table as the first one left it. |
| Views.DueIdsNone | eodb/business_portal/views.py:78-83 | When nothing below the bound is due soon, the selection is empty. |
| Views.Portal.MarkComplianceComplete | eodb/business_portal/views.py:245-253 | Someone who does not own the compliance gets not-found, and nothing changes. An already completed compliance, including its completion date, stays as it is. An open one becomes completed on `today`. No other compliance changes. |
| Views.CompleteIsIdempotent | eodb/business_portal/views.py:248-251 | Marking complete a second time, on any later day, changes nothing. A marked compliance is always completed. |
| Views.Portal.CreateApplication | eodb/business_portal/views.py:107-121 | An unknown approval type, or a user without a profile, gets not-found. An invalid form gets InvalidForm: the chosen type is unknown, or the notes hold a NUL character. A generated number already in use makes the insert fail. In each of these cases nothing changes. Otherwise exactly one application is added under a fresh key, with these fields: the business is the requester's profile; the approval type is the one from the URL, not the form's; the number is `APP-` plus the draw; the status is `draft`; the submission date, approval date and rejection reason are absent; the notes are the form's notes, stripped. Application numbers stay unique. |
| Views.GenerateApplicationNumber | eodb/business_portal/views.py:130-133 | The result is 12 characters long: `APP-` followed by eight characters from A–Z and 0–9, which are the random draw. |
| Views.EveryNumberIsGenerated | eodb/business_portal/views.py:130-133 | Every string of that format is the number generated from its last eight characters. |
| Views.Portal.ApplicationStatus | eodb/business_portal/views.py:265-280 | A non-GET request gets 400 and an error body. An unknown number gets 404 and "Application not found". A known number gets 200 and the status data of the one application carrying it. |
| Views.StatusData | eodb/business_portal/views.py:270-276 | The body carries the application's number and approval-type name, and a status code that reads back as the stored status. Each date is null exactly when the stored date is null. |
| Views.Portal.AddCompliance | eodb/business_portal/views.py:224-236 | A user without a profile gets not-found. A form without a title or description gets InvalidForm. In both cases nothing changes. Otherwise one compliance of the requester's business is added under a fresh key. It has the stripped title and description and the form's due date. It is open, has no completion date and is not reminded. |
| Views.Portal.FindProfile | eodb/business_portal/views.py:69-72 | The result is the user's profile exactly when the user has one. Since a user owns at most one profile, it is the only profile the user owns. |
| Views.Portal.constructor | eodb/business_portal/models.py:6-26 | A store holding the given profiles and catalogue, with no applications, documents, compliances, signatures or mails, satisfies the constraints. The mail sender and the image extensions are fixed for the store's lifetime. |
| Models.StatusFromCode | eodb/business_portal/models.py:59-71 | Exactly the six status codes are accepted. Each is read back as the status that stores it. |
| Models.StatusCodeRoundTrip | eodb/business_portal/models.py:59-66 | Every status survives the trip through its stored code. |
| Models.DocumentTypeFromCode | eodb/business_portal/models.py:83-89 | Exactly the five document-type codes are accepted. Each is read back as its type. |
| Models.FreshNumberKeepsUnique | eodb/business_portal/models.py:70 | Adding an application whose number no stored application carries keeps application numbers unique. |
| Models.ApplicationUpdateKeepsConstraints | eodb/business_portal/models.py:68-70 | Rewriting an application without changing its number, business or type keeps uniqueness and references. |
| Models.DocumentUpdateKeepsConstraints | eodb/business_portal/models.py:91-96 | Rewriting a document without changing its application or file keeps references and the allow-list. |
| Views.SweptKeepsConstraints | eodb/business_portal/models.py:105 | The sweep keeps every compliance's reference to a stored business and the key bound. |
| Text.LastIndexOfConcat | eodb/business_portal/models.py:95 | The last occurrence of a character in a concatenation lies in the right part when it occurs there, and otherwise in the left part. |
| Text.LowerEndsWithSuffix | eodb/business_portal/views.py:178 | Whether a lower-cased name ends in a given suffix depends only on its last characters. |

## Left out

- GET branches, template rendering, flash messages, login redirects and CSRF handling are not modelled. The GET branches only build an empty form or render a page. Handlers return a result value instead of a page.
- The dashboard's two listings (the five latest applications and the five earliest open compliances) are not modelled. They are reads rendered to the template and change nothing.
- The read-only listing views (home, approval types, schemes, news) are not modelled. Neither are registration, login and the business-profile form: these are account handling and framework form saving. Profiles and the approval-type catalogue are given to the store's constructor.
- `send_mail` is called with `fail_silently=True`, so its outcome never affects the handler. A mail is modelled as an append to `outbox`, and delivery failures are not modelled.
- Views.ComplianceForm: the due date is taken as an already parsed date. Parsing the posted date text is not modelled.
- Mail bodies are kept as structured values (number and type name; title and due date) rather than the formatted text.
- `datetime.now()` and `random.choices` are parameters. The draw is required to be eight characters from A–Z and 0–9, which is what `random.choices` guarantees. Instants and days are integers. `strftime` formatting in the status endpoint is kept abstract: the date is returned as the stored instant.
- Views.Portal.SubmitApplication: sets `updated_at` to `now` for the `auto_now` column. `updated_at` on profiles is not modelled, because no modelled handler saves a profile.
- Views.UploadedDocument: the stored name is `application_documents/` followed by the uploaded name. The file storage's renaming is not modelled. The storage drops characters other than letters, digits, `-`, `_` and `.`, adds a random suffix on a name collision, and truncates long names. For most accepted names the stored name keeps the extension, but not for all:
  - After the storage drops characters, the final component may have nothing but dots before its last dot. For example, `#.pdf` is stored as `.pdf`. The stored name then has no extension, so the allow-list invariant `Models.DocumentFilesAllowed` in `Valid()` does not hold of the name the storage keeps. The model's stored name keeps the extension `pdf`.
  - If the final component has nothing but dots before its last dot, as in `..pdf`, the validator still sees the extension `pdf`, but the storage's own splitting finds none. A colliding upload is then stored with the random suffix at the very end, for example `..pdf_abc1234`. The `.pdf` test fails and the document stays unverified, while the model verifies it.
- Views.SignatureFormValid: the image decoding done by `ImageField` is a parameter, `isImage`. The extensions the image library registers depend on its installed version, so they are a parameter of the store, `imageExtensions`.
- Views.Portal.AddSignature: the stored image name is `digital_signatures/` followed by the uploaded name. The file storage's renaming is not modelled. It drops characters other than letters, digits, `-`, `_` and `.`, adds a random suffix on a name collision, and truncates long names. Nothing in the handler reads the stored image name back.
- Views.DocumentFormValid: lower-casing covers ASCII letters only. `str.lower` on other letters is not modelled.
- Views.Portal.CreateApplication: the source does not retry when the generated number is already taken. The database's unique constraint then rejects the insert, which in the source is a server error. The model returns `DuplicateApplicationNumber` and changes nothing.
- Views.Portal.Dashboard: the source's query has no ordering, so the order of the reminders is the database's. The model visits compliances in increasing primary-key order. The set of reminded compliances and the one-mail-per-compliance property do not depend on the order.
- Views.Portal.SubmitApplication: re-submitting resets the status to `submitted` and the submission date to `now`, whatever the prior status. The code allows this and the model follows it.
- Admin-only fields (`approval_date`, `rejection_reason`) are never written by a modelled handler; they are carried in the records as optional values.
- Concurrent requests are not modelled. Every handler runs to completion before the next one starts.
- Cascading deletes are not modelled, because no modelled handler deletes.
