/**
 * The request handlers of the business portal (eodb/business_portal/views.py)
 * over an in-memory store.
 *
 * The database becomes the class `Portal`: one map per table, keyed by
 * primary key, plus the sequence of mails handed to the mail service. Each
 * handler is a method that receives the authenticated requester, the
 * current instant and the current day as parameters, changes only the
 * tables its `modifies` clause names, and returns what the handler would
 * report (a redirect target, a form error, a not-found page).
 */
module Views {
  import opened Text
  import opened Models

  /** The authenticated user making a request. */
  datatype Requester = Requester(user: UserId, email: string)

  /**
   * A file received with a form. `isImage` is the image library's verdict on
   * the content: whether it opens and verifies the file as an image. An
   * image field also checks the name's extension, separately.
   */
  datatype UploadedFile = UploadedFile(name: string, size: nat, isImage: bool)

  /**
   * The two fields of the application form, as posted: the chosen approval
   * type and the notes text (empty when the field is left out).
   */
  datatype ApplicationForm = ApplicationForm(approvalType: ApprovalTypeId, notes: string)

  /** The three fields of the compliance form, as posted, before the form strips the texts. */
  datatype ComplianceForm = ComplianceForm(title: string, description: string, dueDate: Date)

  datatype MailBody =
    | SubmissionConfirmation(applicationNumber: string, approvalTypeName: string)
    | ComplianceReminder(title: string, dueDate: Date)

  datatype Mail = Mail(subject: string, body: MailBody, sender: string, recipients: seq<string>)

  datatype Failure = NotFound | NoProfile | InvalidForm | NoDocuments | DuplicateApplicationNumber

  datatype Outcome = Done | Failed(failure: Failure)

  datatype Result<T> = Ok(value: T) | Err(failure: Failure)

  /** What the dashboard shows after its reminder sweep. */
  datatype DashboardView = DashboardView(business: ProfileId, reminded: seq<ComplianceId>)

  datatype JsonBody =
    | StatusBody(
        applicationNumber: string,
        approvalType: string,
        status: string,
        submissionDate: Option<Instant>,
        approvalDate: Option<Instant>)
    | ErrorBody(error: string)

  datatype JsonResponse = JsonResponse(httpStatus: nat, body: JsonBody)

  const PdfVerificationNote := "Automatically verified as PDF"
  const SignatureVerificationNote := "Document signed by user"
  const SubmissionSubject := "Application Submitted Successfully"
  const ReminderSubjectPrefix := "Compliance Reminder: "
  /** The longest file name a file or image field accepts (the model field's default `max_length`). */
  const FileNameMaxLength := 100
  /** The longest compliance title the form accepts, after stripping. */
  const TitleMaxLength := 255

  /** A compliance is due soon when its due date is at most this many days from today. */
  const ReminderWindowDays := 7

  // ---------------------------------------------------------------- application numbers

  const ApplicationNumberPrefix := "APP"
  /** Upper-case ASCII letters followed by the decimal digits. */
  const CodeAlphabet := "ABCDEFGHIJKLMNOPQRSTUVWXYZ0123456789"
  const CodeLength := 8

  /** A random draw of the generator: eight characters from the alphabet. */
  predicate IsCode(code: string)
  {
    |code| == CodeLength && forall c :: c in code ==> c in CodeAlphabet
  }

  /** "APP-" followed by eight characters from A-Z and 0-9. */
  predicate IsApplicationNumber(s: string)
  {
    |s| == 12 && s[..4] == "APP-" && forall i :: 4 <= i < 12 ==> s[i] in CodeAlphabet
  }

  /** Builds an application number from the random draw `code`. */
  function GenerateApplicationNumber(code: string): (number: string)
    requires IsCode(code)
    ensures IsApplicationNumber(number)
    ensures number[4..] == code
  {
    ApplicationNumberPrefix + "-" + code
  }

  /** Every well-formed number is the one generated from its last eight characters. */
  lemma EveryNumberIsGenerated(number: string)
    requires IsApplicationNumber(number)
    ensures IsCode(number[4..]) && GenerateApplicationNumber(number[4..]) == number
  {
    assert forall c :: c in number[4..] ==> c in CodeAlphabet by {
      forall c | c in number[4..] ensures c in CodeAlphabet {
        var k :| 0 <= k < 8 && number[4..][k] == c;
        assert number[4 + k] == c;
      }
    }
    assert number == number[..4] + number[4..];
  }

  /** Some stored application already carries `number`. */
  predicate NumberTaken(applications: map<ApplicationId, ApprovalApplication>, number: string)
  {
    exists a :: a in applications && applications[a].applicationNumber == number
  }

  // ---------------------------------------------------------------- mails

  function SubmissionMail(sender: string, to: string, app: ApprovalApplication, approvalTypeName: string): Mail
  {
    Mail(SubmissionSubject, SubmissionConfirmation(app.applicationNumber, approvalTypeName), sender, [to])
  }

  function ReminderMail(sender: string, to: string, c: Compliance): Mail
  {
    Mail(ReminderSubjectPrefix + c.title, ComplianceReminder(c.title, c.dueDate), sender, [to])
  }

  /** One reminder per listed compliance, in the order listed. */
  function ReminderMails(cs: map<ComplianceId, Compliance>, ids: seq<ComplianceId>, sender: string, to: string)
    : (mails: seq<Mail>)
    requires forall k :: 0 <= k < |ids| ==> ids[k] in cs
    ensures |mails| == |ids|
    ensures forall k :: 0 <= k < |ids| ==>
      && mails[k].sender == sender && mails[k].recipients == [to]
      && mails[k].subject == ReminderSubjectPrefix + cs[ids[k]].title
      && mails[k].body == ComplianceReminder(cs[ids[k]].title, cs[ids[k]].dueDate)
  {
    seq(|ids|, k requires 0 <= k < |ids| => ReminderMail(sender, to, cs[ids[k]]))
  }

  // ---------------------------------------------------------------- the reminder sweep

  /** The dashboard's selection: this business, not completed, due within the window, not yet reminded. */
  predicate DueSoon(c: Compliance, business: ProfileId, today: Date)
  {
    && c.business == business
    && !c.isCompleted
    && c.dueDate <= today + ReminderWindowDays
    && !c.reminderSent
  }

  /** The identifiers below `n` that the sweep selects, in increasing order. */
  function DueIds(cs: map<ComplianceId, Compliance>, business: ProfileId, today: Date, n: nat)
    : (ids: seq<ComplianceId>)
    ensures forall k :: 0 <= k < |ids| ==> ids[k] < n && ids[k] in cs && DueSoon(cs[ids[k]], business, today)
  {
    if n == 0 then []
    else
      DueIds(cs, business, today, n - 1)
      + (if n - 1 in cs && DueSoon(cs[n - 1], business, today) then [n - 1] else [])
  }

  /** The sweep visits identifiers in increasing order, so `DueIds` is strictly increasing. */
  lemma {:induction false} DueIdsIncreasing(
    cs: map<ComplianceId, Compliance>, business: ProfileId, today: Date, n: nat)
    ensures forall k, l :: 0 <= k < l < |DueIds(cs, business, today, n)| ==>
      DueIds(cs, business, today, n)[k] < DueIds(cs, business, today, n)[l]
  {
    if n > 0 {
      DueIdsIncreasing(cs, business, today, n - 1);
    }
  }

  /** No selected compliance below `n` is missing from `DueIds`. */
  lemma {:induction false} DueIdsComplete(
    cs: map<ComplianceId, Compliance>, business: ProfileId, today: Date, n: nat, id: ComplianceId)
    requires id < n && id in cs && DueSoon(cs[id], business, today)
    ensures id in DueIds(cs, business, today, n)
  {
    if id < n - 1 {
      DueIdsComplete(cs, business, today, n - 1, id);
    }
  }

  /** `DueIds` holds exactly the selected compliances below `n`. */
  lemma DueIdsExact(cs: map<ComplianceId, Compliance>, business: ProfileId, today: Date, n: nat, id: ComplianceId)
    ensures id in DueIds(cs, business, today, n) <==> id < n && id in cs && DueSoon(cs[id], business, today)
  {
    if id < n && id in cs && DueSoon(cs[id], business, today) {
      DueIdsComplete(cs, business, today, n, id);
    }
  }

  /** The compliance table after the sweep has handled every identifier below `n`. */
  function Swept(cs: map<ComplianceId, Compliance>, business: ProfileId, today: Date, n: nat)
    : map<ComplianceId, Compliance>
  {
    map id | id in cs :: if id < n && DueSoon(cs[id], business, today) then cs[id].(reminderSent := true) else cs[id]
  }

  /** Handling identifier `i` extends the sweep from `i` to `i + 1`; the sweep leaves `i` untouched before that. */
  lemma SweptStep(cs: map<ComplianceId, Compliance>, business: ProfileId, today: Date, i: nat)
    ensures i in cs ==> i in Swept(cs, business, today, i) && Swept(cs, business, today, i)[i] == cs[i]
    ensures Swept(cs, business, today, i + 1) ==
      if i in cs && DueSoon(cs[i], business, today)
      then Swept(cs, business, today, i)[i := cs[i].(reminderSent := true)]
      else Swept(cs, business, today, i)
  {
  }

  /** Appending an identifier appends its reminder. */
  lemma ReminderMailsSnoc(
    cs: map<ComplianceId, Compliance>, ids: seq<ComplianceId>, id: ComplianceId, sender: string, to: string)
    requires forall k :: 0 <= k < |ids| ==> ids[k] in cs
    requires id in cs
    ensures ReminderMails(cs, ids + [id], sender, to) == ReminderMails(cs, ids, sender, to) + [ReminderMail(sender, to, cs[id])]
  {
    assert (ids + [id])[..|ids|] == ids;
  }

  /**
   * The sweep sets `reminderSent` on exactly the selected compliances and
   * changes no other field of any record.
   */
  lemma SweptFlipsExactlyTheSelected(
    cs: map<ComplianceId, Compliance>, business: ProfileId, today: Date, n: nat)
    ensures Swept(cs, business, today, n).Keys == cs.Keys
    ensures forall id :: id in cs ==>
      Swept(cs, business, today, n)[id].reminderSent == (cs[id].reminderSent || id in DueIds(cs, business, today, n))
    ensures forall id :: id in cs ==>
      Swept(cs, business, today, n)[id] == cs[id].(reminderSent := Swept(cs, business, today, n)[id].reminderSent)
  {
    forall id | id in cs
      ensures Swept(cs, business, today, n)[id].reminderSent == (cs[id].reminderSent || id in DueIds(cs, business, today, n))
    {
      DueIdsExact(cs, business, today, n, id);
    }
  }

  /** The sweep keeps every compliance's key and business, so it keeps the store's constraints. */
  lemma SweptKeepsConstraints(
    cs: map<ComplianceId, Compliance>, profiles: map<ProfileId, BusinessProfile>,
    business: ProfileId, today: Date, n: nat, bound: nat)
    requires CompliancesReferToStore(cs, profiles)
    requires forall c :: c in cs ==> c < bound
    ensures CompliancesReferToStore(Swept(cs, business, today, n), profiles)
    ensures forall c :: c in Swept(cs, business, today, n) ==> c < bound
  {
  }

  /**
   * A second sweep on the same day, over the table the first one left,
   * selects nothing, so it queues no mail and leaves the table as it is.
   */
  lemma {:induction false} SecondSweepSelectsNothing(
    cs: map<ComplianceId, Compliance>, business: ProfileId, today: Date, n: nat, sender: string, to: string)
    ensures DueIds(Swept(cs, business, today, n), business, today, n) == []
    ensures ReminderMails(Swept(cs, business, today, n), DueIds(Swept(cs, business, today, n), business, today, n), sender, to) == []
    ensures Swept(Swept(cs, business, today, n), business, today, n) == Swept(cs, business, today, n)
  {
    DueIdsNone(Swept(cs, business, today, n), business, today, n);
  }

  /** When nothing below `n` is due, the sweep selects nothing. */
  lemma {:induction false} DueIdsNone(cs: map<ComplianceId, Compliance>, business: ProfileId, today: Date, n: nat)
    requires forall id :: id < n && id in cs ==> !DueSoon(cs[id], business, today)
    ensures DueIds(cs, business, today, n) == []
  {
    if n > 0 {
      DueIdsNone(cs, business, today, n - 1);
    }
  }

  // ---------------------------------------------------------------- marking a compliance complete

  /** A compliance after "mark complete" on day `today`. */
  function CompleteCompliance(c: Compliance, today: Date): (done: Compliance)
    ensures done.isCompleted
    ensures c.isCompleted ==> done == c
    ensures !c.isCompleted ==> done.completedDate == Some(today)
    ensures done.(isCompleted := c.isCompleted, completedDate := c.completedDate) == c
  {
    if c.isCompleted then c else c.(isCompleted := true, completedDate := Some(today))
  }

  /** Marking complete a second time, on any day, changes nothing. */
  lemma CompleteIsIdempotent(c: Compliance, today: Date, later: Date)
    ensures CompleteCompliance(CompleteCompliance(c, today), later) == CompleteCompliance(c, today)
    ensures CompleteCompliance(c, today).isCompleted
    ensures c.isCompleted ==> CompleteCompliance(c, today) == c
  {
  }

  // ---------------------------------------------------------------- the public status endpoint

  /** The JSON object the status endpoint returns for a stored application. */
  function StatusData(app: ApprovalApplication, approvalTypeName: string): (body: JsonBody)
    ensures body.StatusBody?
    ensures body.applicationNumber == app.applicationNumber && body.approvalType == approvalTypeName
    ensures StatusFromCode(body.status) == Some(app.status)
    ensures body.submissionDate.None? <==> app.submissionDate.None?
    ensures body.approvalDate.None? <==> app.approvalDate.None?
  {
    StatusCodeRoundTrip(app.status);
    StatusBody(
      app.applicationNumber,
      approvalTypeName,
      app.status.Code(),
      if app.submissionDate.Some? then Some(app.submissionDate.value) else None,
      if app.approvalDate.Some? then Some(app.approvalDate.value) else None)
  }

  // ---------------------------------------------------------------- forms

  /** A required file field: the file has a name no longer than the limit and is not empty. */
  predicate FileFieldAccepts(file: UploadedFile)
  {
    file.name != "" && |file.name| <= FileNameMaxLength && file.size > 0
  }

  /**
   * The document form: the type is one of the five choices, the file passes
   * the file field, and the validator finds an allowed extension.
   */
  predicate DocumentFormValid(documentType: string, file: UploadedFile): (valid: bool)
    ensures valid <==>
      && (exists t: DocumentType :: t.Code() == documentType)
      && 0 < |file.name| <= FileNameMaxLength && file.size > 0
      && Extension(file.name) in {"pdf", "doc", "docx", "jpg", "jpeg", "png"}
  {
    var kind := DocumentTypeFromCode(documentType);
    assert kind.Some? ==> kind.value.Code() == documentType;
    kind.Some? && FileFieldAccepts(file) && HasAllowedExtension(file.name)
  }

  /**
   * The signature form: the image passes the file field, its name has an
   * extension the image library registers (`imageExtensions`, lower-case),
   * and the image library accepts its content.
   */
  predicate SignatureFormValid(image: UploadedFile, imageExtensions: set<string>): (valid: bool)
    ensures valid <==>
      && 0 < |image.name| <= FileNameMaxLength && image.size > 0
      && Extension(image.name) in imageExtensions && image.isImage
  {
    FileFieldAccepts(image) && Extension(image.name) in imageExtensions && image.isImage
  }

  /**
   * The compliance form: after stripping, the title and the description
   * must be non-empty and the title no longer than its limit; neither may
   * hold a NUL character; the due date is a parsed date.
   */
  predicate ComplianceFormValid(form: ComplianceForm): (valid: bool)
    ensures valid <==>
      && !Blank(form.title) && !Blank(form.description) && |Strip(form.title)| <= TitleMaxLength
      && (forall i :: 0 <= i < |form.title| ==> form.title[i] != '\0')
      && (forall i :: 0 <= i < |form.description| ==> form.description[i] != '\0')
  {
    StripBlank(form.title);
    StripBlank(form.description);
    && Strip(form.title) != "" && Strip(form.description) != "" && |Strip(form.title)| <= TitleMaxLength
    && '\0' !in form.title && '\0' !in form.description
  }

  // ---------------------------------------------------------------- uploaded documents

  /**
   * The record the upload handler keeps for an accepted file: saved
   * unverified under the documents directory, then marked verified with a
   * note when the lower-cased stored name ends in ".pdf". That happens
   * exactly when the validator saw the extension pdf.
   */
  function UploadedDocument(application: ApplicationId, kind: DocumentType, name: string, now: Instant)
    : (doc: ApplicationDocument)
    requires HasAllowedExtension(name)
    ensures FileAllowed(doc)
    ensures doc.application == application && doc.documentType == kind && doc.uploadedAt == now
    ensures doc.file == StoredDocumentName(name) && Extension(doc.file) == Extension(name)
    ensures doc.isVerified <==> Extension(name) == "pdf"
    ensures doc.verificationNotes == if doc.isVerified then Some(PdfVerificationNote) else None
  {
    StoredNameKeepsExtension(name);
    PdfSuffixMatchesExtension(name);
    var saved := ApplicationDocument(application, kind, StoredDocumentName(name), false, None, now);
    if EndsWith(Lower(saved.file), ".pdf") then
      saved.(isVerified := true, verificationNotes := Some(PdfVerificationNote))
    else
      saved
  }

  // ---------------------------------------------------------------- the store and its handlers

  class Portal {
    /** The configured sender address of every mail. */
    const sender: string
    /** The lower-case file extensions the image library registers. */
    const imageExtensions: set<string>

    var profiles: map<ProfileId, BusinessProfile>
    var approvalTypes: map<ApprovalTypeId, ApprovalType>
    var applications: map<ApplicationId, ApprovalApplication>
    var documents: map<DocumentId, ApplicationDocument>
    var compliances: map<ComplianceId, Compliance>
    var signatures: map<SignatureId, DigitalSignature>
    /** Every mail handed to the mail service, oldest first. */
    var outbox: seq<Mail>

    var nextApplicationId: nat
    var nextDocumentId: nat
    var nextComplianceId: nat
    var nextSignatureId: nat

    /** The database constraints, and every stored key below its table's next key. */
    ghost predicate Valid()
      reads this
    {
      && UniqueRegistrationNumbers(profiles)
      && OneProfilePerUser(profiles)
      && UniqueApplicationNumbers(applications)
      && ApplicationsReferToStore(applications, profiles, approvalTypes)
      && DocumentsReferToStore(documents, applications)
      && DocumentFilesAllowed(documents)
      && CompliancesReferToStore(compliances, profiles)
      && SignaturesReferToStore(signatures, documents)
      && (forall a :: a in applications ==> a < nextApplicationId)
      && (forall d :: d in documents ==> d < nextDocumentId)
      && (forall c :: c in compliances ==> c < nextComplianceId)
      && (forall g :: g in signatures ==> g < nextSignatureId)
    }

    /** A store holding the given profiles and catalogue and nothing else. */
    constructor (
      sender: string, imageExtensions: set<string>,
      profiles: map<ProfileId, BusinessProfile>, approvalTypes: map<ApprovalTypeId, ApprovalType>)
      requires UniqueRegistrationNumbers(profiles) && OneProfilePerUser(profiles)
      ensures Valid()
      ensures this.sender == sender && this.imageExtensions == imageExtensions
      ensures this.profiles == profiles && this.approvalTypes == approvalTypes
      ensures applications == map[] && documents == map[] && compliances == map[] && signatures == map[]
      ensures outbox == []
    {
      this.sender := sender;
      this.imageExtensions := imageExtensions;
      this.profiles := profiles;
      this.approvalTypes := approvalTypes;
      applications, documents, compliances, signatures := map[], map[], map[], map[];
      outbox := [];
      nextApplicationId, nextDocumentId, nextComplianceId, nextSignatureId := 0, 0, 0, 0;
    }

    // ------------------------------------------------------------ ownership

    predicate OwnsProfile(user: UserId, p: ProfileId)
      reads this
    {
      p in profiles && profiles[p].user == user
    }

    predicate HasProfile(user: UserId)
      reads this
    {
      exists p :: p in profiles && profiles[p].user == user
    }

    predicate OwnsApplication(user: UserId, a: ApplicationId)
      reads this
    {
      a in applications && OwnsProfile(user, applications[a].business)
    }

    predicate OwnsDocument(user: UserId, d: DocumentId)
      reads this
    {
      d in documents && OwnsApplication(user, documents[d].application)
    }

    predicate OwnsCompliance(user: UserId, c: ComplianceId)
      reads this
    {
      c in compliances && OwnsProfile(user, compliances[c].business)
    }

    predicate HasDocuments(a: ApplicationId)
      reads this
    {
      exists d :: d in documents && documents[d].application == a
    }

    /** The user's business profile, if the user has one; there is never more than one. */
    method FindProfile(user: UserId) returns (r: Option<ProfileId>)
      requires Valid()
      ensures r.Some? <==> HasProfile(user)
      ensures r.Some? ==> OwnsProfile(user, r.value)
      ensures forall p: ProfileId :: OwnsProfile(user, p) ==> r == Some(p)
    {
      if exists p :: p in profiles && profiles[p].user == user {
        var p :| p in profiles && profiles[p].user == user;
        forall q | q in profiles && profiles[q].user == user ensures q == p {
          assert UserOf(profiles, q) == UserOf(profiles, p);
        }
        r := Some(p);
      } else {
        r := None;
      }
    }

    /** How many documents are attached to application `a`. */
    method DocumentCount(a: ApplicationId) returns (count: nat)
      ensures count == |set d | d in documents && documents[d].application == a|
      ensures count == 0 <==> !HasDocuments(a)
    {
      var attached := set d | d in documents && documents[d].application == a;
      if HasDocuments(a) {
        var d :| d in documents && documents[d].application == a;
        assert d in attached;
      }
      count := |attached|;
    }

    // ------------------------------------------------------------ handlers

    /**
     * The submit button of the application page: an application with at
     * least one document becomes submitted, stamped with `now`, and a
     * confirmation is mailed to the requester.
     */
    method SubmitApplication(requester: Requester, id: ApplicationId, now: Instant) returns (r: Outcome)
      requires Valid()
      modifies this`applications, this`outbox
      ensures Valid()
      ensures !old(OwnsApplication(requester.user, id)) ==> r == Failed(NotFound)
      ensures old(OwnsApplication(requester.user, id)) && !HasDocuments(id) ==> r == Failed(NoDocuments)
      ensures old(OwnsApplication(requester.user, id)) && HasDocuments(id) ==> r == Done
      ensures r.Failed? ==> applications == old(applications) && outbox == old(outbox)
      ensures r.Done? ==>
        var app := old(applications)[id];
        && applications == old(applications)[id := app.(status := Submitted, submissionDate := Some(now), updatedAt := now)]
        && outbox == old(outbox) + [SubmissionMail(sender, requester.email, app, approvalTypes[app.approvalType].name)]
    {
      if !OwnsApplication(requester.user, id) {
        return Failed(NotFound);
      }
      var app := applications[id];
      var attached := DocumentCount(id);
      if attached < 1 {
        r := Failed(NoDocuments);
      } else {
        ApplicationUpdateKeepsConstraints(
          applications, profiles, approvalTypes, id, app.(status := Submitted, submissionDate := Some(now), updatedAt := now));
        applications := applications[id := app.(status := Submitted, submissionDate := Some(now), updatedAt := now)];
        outbox := outbox + [SubmissionMail(sender, requester.email, app, approvalTypes[app.approvalType].name)];
        r := Done;
      }
    }

    /**
     * Attaches an uploaded file to an application. A file whose stored name
     * ends in ".pdf", in any letter case, is verified on the spot.
     */
    method UploadDocument(
      requester: Requester, applicationId: ApplicationId, documentType: string, file: UploadedFile, now: Instant)
      returns (r: Result<DocumentId>)
      requires Valid()
      modifies this`documents, this`nextDocumentId
      ensures Valid()
      ensures !old(OwnsApplication(requester.user, applicationId)) ==> r == Err(NotFound)
      ensures old(OwnsApplication(requester.user, applicationId)) && !DocumentFormValid(documentType, file) ==>
        r == Err(InvalidForm)
      ensures old(OwnsApplication(requester.user, applicationId)) && DocumentFormValid(documentType, file) ==> r.Ok?
      ensures r.Err? ==> documents == old(documents) && nextDocumentId == old(nextDocumentId)
      ensures r.Ok? ==>
        && DocumentFormValid(documentType, file)
        && r.value !in old(documents)
        && documents == old(documents)[r.value :=
             UploadedDocument(applicationId, DocumentTypeFromCode(documentType).value, file.name, now)]
    {
      if !OwnsApplication(requester.user, applicationId) {
        return Err(NotFound);
      }
      var kind := DocumentTypeFromCode(documentType);
      if kind.None? || !FileFieldAccepts(file) || !HasAllowedExtension(file.name) {
        return Err(InvalidForm);
      }
      var doc := UploadedDocument(applicationId, kind.value, file.name, now);
      var id := nextDocumentId;
      documents := documents[id := doc];
      nextDocumentId := nextDocumentId + 1;
      r := Ok(id);
    }

    /**
     * Records the requester's signature on a document and marks the document
     * verified, whatever its earlier state and note.
     */
    method AddSignature(requester: Requester, documentId: DocumentId, image: UploadedFile, now: Instant)
      returns (r: Result<SignatureId>)
      requires Valid()
      modifies this`signatures, this`documents, this`nextSignatureId
      ensures Valid()
      ensures !old(OwnsDocument(requester.user, documentId)) ==> r == Err(NotFound)
      ensures old(OwnsDocument(requester.user, documentId)) && !SignatureFormValid(image, imageExtensions) ==> r == Err(InvalidForm)
      ensures old(OwnsDocument(requester.user, documentId)) && SignatureFormValid(image, imageExtensions) ==> r.Ok?
      ensures r.Err? ==>
        signatures == old(signatures) && documents == old(documents) && nextSignatureId == old(nextSignatureId)
      ensures r.Ok? ==>
        && r.value !in old(signatures)
        && signatures == old(signatures)[r.value :=
             DigitalSignature(requester.user, documentId, SignatureUploadDir + image.name, now, true)]
        && documents == old(documents)[documentId :=
             old(documents)[documentId].(isVerified := true, verificationNotes := Some(SignatureVerificationNote))]
    {
      if !OwnsDocument(requester.user, documentId) {
        return Err(NotFound);
      }
      if !SignatureFormValid(image, imageExtensions) {
        return Err(InvalidForm);
      }
      var id := nextSignatureId;
      signatures := signatures[id := DigitalSignature(requester.user, documentId, SignatureUploadDir + image.name, now, true)];
      nextSignatureId := nextSignatureId + 1;
      var doc := documents[documentId];
      DocumentUpdateKeepsConstraints(
        documents, applications, documentId, doc.(isVerified := true, verificationNotes := Some(SignatureVerificationNote)));
      documents := documents[documentId := doc.(isVerified := true, verificationNotes := Some(SignatureVerificationNote))];
      r := Ok(id);
    }

    /**
     * The dashboard's reminder sweep: every compliance of the requester's
     * business that is open, due within the window (overdue ones included)
     * and not yet reminded gets one reminder mail and is marked reminded.
     */
    method Dashboard(requester: Requester, today: Date) returns (r: Result<DashboardView>)
      requires Valid()
      modifies this`compliances, this`outbox
      ensures Valid()
      ensures r.Err? <==> !HasProfile(requester.user)
      ensures r.Err? ==> r.failure == NoProfile && compliances == old(compliances) && outbox == old(outbox)
      ensures r.Ok? ==>
        var business, reminded := r.value.business, r.value.reminded;
        && OwnsProfile(requester.user, business)
        && reminded == DueIds(old(compliances), business, today, nextComplianceId)
        && compliances == Swept(old(compliances), business, today, nextComplianceId)
        && outbox == old(outbox) + ReminderMails(old(compliances), reminded, sender, requester.email)
      ensures r.Ok? ==> forall c :: c in old(compliances) ==>
        (c in r.value.reminded <==> DueSoon(old(compliances)[c], r.value.business, today))
    {
      var found := FindProfile(requester.user);
      if found.None? {
        return Err(NoProfile);
      }
      var business := found.value;
      ghost var before := compliances;
      var reminded := SendReminders(business, requester.email, today);
      SweptKeepsConstraints(before, profiles, business, today, nextComplianceId, nextComplianceId);
      r := Ok(DashboardView(business, reminded));
      forall c | c in before ensures c in reminded <==> DueSoon(before[c], business, today) {
        DueIdsExact(before, business, today, nextComplianceId, c);
      }
    }

    /**
     * The loop of the sweep: visits the compliance identifiers in increasing
     * order, mailing and marking each one due soon for `business`.
     */
    method SendReminders(business: ProfileId, to: string, today: Date) returns (reminded: seq<ComplianceId>)
      modifies this`compliances, this`outbox
      ensures reminded == DueIds(old(compliances), business, today, nextComplianceId)
      ensures compliances == Swept(old(compliances), business, today, nextComplianceId)
      ensures outbox == old(outbox) + ReminderMails(old(compliances), reminded, sender, to)
    {
      ghost var before := compliances;
      ghost var sentBefore := outbox;
      reminded := [];
      var i := 0;
      while i < nextComplianceId
        invariant 0 <= i <= nextComplianceId
        invariant compliances == Swept(before, business, today, i)
        invariant reminded == DueIds(before, business, today, i)
        invariant outbox == sentBefore + ReminderMails(before, reminded, sender, to)
      {
        SweptStep(before, business, today, i);
        if i in compliances && DueSoon(compliances[i], business, today) {
          var c := compliances[i];
          assert c == before[i];
          ReminderMailsSnoc(before, reminded, i, sender, to);
          outbox := outbox + [ReminderMail(sender, to, c)];
          compliances := compliances[i := c.(reminderSent := true)];
          reminded := reminded + [i];
        }
        i := i + 1;
      }
    }

    /** Marks one of the requester's compliances completed on `today`, unless it already is. */
    method MarkComplianceComplete(requester: Requester, id: ComplianceId, today: Date) returns (r: Result<bool>)
      requires Valid()
      modifies this`compliances
      ensures Valid()
      ensures r.Err? <==> !old(OwnsCompliance(requester.user, id))
      ensures r.Err? ==> r.failure == NotFound && compliances == old(compliances)
      ensures r.Ok? ==> r.value == !old(compliances)[id].isCompleted
      ensures r.Ok? ==> compliances == old(compliances)[id := CompleteCompliance(old(compliances)[id], today)]
    {
      if !OwnsCompliance(requester.user, id) {
        return Err(NotFound);
      }
      var c := compliances[id];
      if !c.isCompleted {
        compliances := compliances[id := c.(isCompleted := true, completedDate := Some(today))];
        r := Ok(true);
      } else {
        r := Ok(false);
      }
    }

    /**
     * Creates a draft application of approval type `typeId` for the
     * requester's business, numbered from the random draw `code`. The type
     * chosen in the form is checked but then replaced by `typeId`; notes
   * holding a NUL character make the form invalid. A number
     * already in use makes the insert fail.
     */
    method CreateApplication(
      requester: Requester, typeId: ApprovalTypeId, form: ApplicationForm, code: string, now: Instant)
      returns (r: Result<ApplicationId>)
      requires Valid()
      requires IsCode(code)
      modifies this`applications, this`nextApplicationId
      ensures Valid()
      ensures typeId !in approvalTypes || !HasProfile(requester.user) ==> r == Err(NotFound)
      ensures
        && typeId in approvalTypes && HasProfile(requester.user)
        && (form.approvalType !in approvalTypes || '\0' in form.notes)
        ==> r == Err(InvalidForm)
      ensures
        && typeId in approvalTypes && HasProfile(requester.user)
        && form.approvalType in approvalTypes && '\0' !in form.notes
        ==>
        if NumberTaken(old(applications), GenerateApplicationNumber(code)) then r == Err(DuplicateApplicationNumber)
        else r.Ok?
      ensures r.Err? ==> applications == old(applications) && nextApplicationId == old(nextApplicationId)
      ensures r.Ok? ==> r.value !in old(applications) && r.value in applications && applications == old(applications)[r.value := applications[r.value]]
      ensures r.Ok? ==>
        var app := applications[r.value];
        && OwnsProfile(requester.user, app.business)
        && app.approvalType == typeId
        && app.applicationNumber == GenerateApplicationNumber(code)
        && IsApplicationNumber(app.applicationNumber)
        && app.status == Draft
        && app.submissionDate.None? && app.approvalDate.None? && app.rejectionReason.None?
        && app.notes == Some(Strip(form.notes))
        && app.createdAt == now && app.updatedAt == now
    {
      if typeId !in approvalTypes {
        return Err(NotFound);
      }
      var found := FindProfile(requester.user);
      if found.None? {
        return Err(NotFound);
      }
      if form.approvalType !in approvalTypes || '\0' in form.notes {
        return Err(InvalidForm);
      }
      var number := GenerateApplicationNumber(code);
      if exists a :: a in applications && applications[a].applicationNumber == number {
        return Err(DuplicateApplicationNumber);
      }
      var app := ApprovalApplication(found.value, typeId, number, Draft, None, None, None, Some(Strip(form.notes)), now, now);
      var id := nextApplicationId;
      FreshNumberKeepsUnique(applications, id, app);
      applications := applications[id := app];
      nextApplicationId := nextApplicationId + 1;
      r := Ok(id);
    }

    /** Adds a compliance obligation to the requester's business; it starts open and not reminded. */
    method AddCompliance(requester: Requester, form: ComplianceForm, now: Instant) returns (r: Result<ComplianceId>)
      requires Valid()
      modifies this`compliances, this`nextComplianceId
      ensures Valid()
      ensures !HasProfile(requester.user) ==> r == Err(NotFound)
      ensures HasProfile(requester.user) && !ComplianceFormValid(form) ==> r == Err(InvalidForm)
      ensures HasProfile(requester.user) && ComplianceFormValid(form) ==> r.Ok?
      ensures r.Err? ==> compliances == old(compliances) && nextComplianceId == old(nextComplianceId)
      ensures r.Ok? ==> r.value !in old(compliances) && r.value in compliances && compliances == old(compliances)[r.value := compliances[r.value]]
      ensures r.Ok? ==>
        var c := compliances[r.value];
        && OwnsProfile(requester.user, c.business)
        && c.title == Strip(form.title) && c.description == Strip(form.description) && c.dueDate == form.dueDate
        && !c.isCompleted && c.completedDate.None? && !c.reminderSent
        && c.createdAt == now
    {
      var found := FindProfile(requester.user);
      if found.None? {
        return Err(NotFound);
      }
      if !ComplianceFormValid(form) {
        return Err(InvalidForm);
      }
      var id := nextComplianceId;
      compliances := compliances[id := Compliance(found.value, Strip(form.title), Strip(form.description), form.dueDate, false, None, false, now)];
      nextComplianceId := nextComplianceId + 1;
      r := Ok(id);
    }

    /** The public status endpoint: looks an application up by its number; no login needed. */
    method ApplicationStatus(requestMethod: string, number: string) returns (r: JsonResponse)
      requires Valid()
      ensures requestMethod != "GET" ==> r == JsonResponse(400, ErrorBody("Invalid request method"))
      ensures requestMethod == "GET" && !NumberTaken(applications, number) ==>
        r == JsonResponse(404, ErrorBody("Application not found"))
      ensures requestMethod == "GET" ==> forall a :: a in applications && applications[a].applicationNumber == number ==>
        r == JsonResponse(200, StatusData(applications[a], approvalTypes[applications[a].approvalType].name))
    {
      if requestMethod != "GET" {
        return JsonResponse(400, ErrorBody("Invalid request method"));
      }
      if a :| a in applications && applications[a].applicationNumber == number {
        var app := applications[a];
        forall b | b in applications && applications[b].applicationNumber == number ensures b == a {
          assert NumberOf(applications, b) == NumberOf(applications, a);
        }
        r := JsonResponse(200, StatusData(app, approvalTypes[app.approvalType].name));
      } else {
        r := JsonResponse(404, ErrorBody("Application not found"));
      }
    }
  }
}
