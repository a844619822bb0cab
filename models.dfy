/**
 * The record shapes of the business portal (eodb/business_portal/models.py):
 * one datatype per stored entity, the enumerations behind the `choices`
 * fields with their stored codes, the file-extension allow-list for
 * documents, and the uniqueness and reference constraints of the store.
 *
 * Nullable columns are `Option`s; every other column is required.
 * Identifiers are the database's integer primary keys.
 */
module Models {
  import opened Text

  datatype Option<T> = None | Some(value: T)

  type UserId = nat
  type ProfileId = nat
  type ApprovalTypeId = nat
  type ApplicationId = nat
  type DocumentId = nat
  type ComplianceId = nat
  type SignatureId = nat

  /** A `DateTimeField` value; its calendar structure is not modelled. */
  type Instant = int
  /** A `DateField` value, as a day number. */
  type Date = int

  // ---------------------------------------------------------------- choices

  datatype BusinessType = Retail | Manufacturing | Service | InformationTechnology | Hospitality | OtherBusiness

  /** The workflow state of an approval application. */
  datatype Status = Draft | Submitted | UnderReview | Approved | Rejected | AdditionalInfoRequired
  {
    /** The code stored in the `status` column. */
    function Code(): string
    {
      match this
      case Draft => "draft"
      case Submitted => "submitted"
      case UnderReview => "under_review"
      case Approved => "approved"
      case Rejected => "rejected"
      case AdditionalInfoRequired => "additional_info_required"
    }
  }

  /** Reads a stored status code back; only the six codes of the choice list are accepted. */
  function StatusFromCode(code: string): (r: Option<Status>)
    ensures r.Some? ==> r.value.Code() == code
    ensures r.None? ==> forall s: Status :: s.Code() != code
  {
    match code
    case "draft" => Some(Draft)
    case "submitted" => Some(Submitted)
    case "under_review" => Some(UnderReview)
    case "approved" => Some(Approved)
    case "rejected" => Some(Rejected)
    case "additional_info_required" => Some(AdditionalInfoRequired)
    case _ => None
  }

  /** Every status survives the trip through its stored code. */
  lemma StatusCodeRoundTrip(s: Status)
    ensures StatusFromCode(s.Code()) == Some(s)
  {
  }

  datatype DocumentType = Pan | AddressProof | BusinessRegistration | IdProof | OtherDocument
  {
    function Code(): string
    {
      match this
      case Pan => "pan"
      case AddressProof => "address"
      case BusinessRegistration => "registration"
      case IdProof => "id"
      case OtherDocument => "other"
    }
  }

  /** The choice field of the document form: only the five codes are accepted. */
  function DocumentTypeFromCode(code: string): (r: Option<DocumentType>)
    ensures r.Some? ==> r.value.Code() == code
    ensures r.None? ==> forall t: DocumentType :: t.Code() != code
  {
    match code
    case "pan" => Some(Pan)
    case "address" => Some(AddressProof)
    case "registration" => Some(BusinessRegistration)
    case "id" => Some(IdProof)
    case "other" => Some(OtherDocument)
    case _ => None
  }

  // ---------------------------------------------------------------- records

  datatype BusinessProfile = BusinessProfile(
    user: UserId,
    businessName: string,
    businessType: BusinessType,
    registrationNumber: string,
    address: string,
    contactPerson: string,
    contactNumber: string,
    email: string,
    dateEstablished: Date,
    createdAt: Instant,
    updatedAt: Instant)

  /** Catalogue entry; `fees` is a two-decimal amount, kept in hundredths. */
  datatype ApprovalType = ApprovalType(
    name: string,
    description: string,
    department: string,
    processingTime: string,
    feesInHundredths: int,
    requiredDocuments: string,
    isActive: bool)

  datatype ApprovalApplication = ApprovalApplication(
    business: ProfileId,
    approvalType: ApprovalTypeId,
    applicationNumber: string,
    status: Status,
    submissionDate: Option<Instant>,
    approvalDate: Option<Instant>,
    rejectionReason: Option<string>,
    notes: Option<string>,
    createdAt: Instant,
    updatedAt: Instant)

  /** `file` is the name the file storage keeps for the upload. */
  datatype ApplicationDocument = ApplicationDocument(
    application: ApplicationId,
    documentType: DocumentType,
    file: string,
    isVerified: bool,
    verificationNotes: Option<string>,
    uploadedAt: Instant)

  datatype Compliance = Compliance(
    business: ProfileId,
    title: string,
    description: string,
    dueDate: Date,
    isCompleted: bool,
    completedDate: Option<Date>,
    reminderSent: bool,
    createdAt: Instant)

  datatype DigitalSignature = DigitalSignature(
    user: UserId,
    document: DocumentId,
    signatureImage: string,
    signedAt: Instant,
    isValid: bool)

  // ---------------------------------------------------------------- document files

  /** The directory the file storage puts application documents in. */
  const DocumentUploadDir := "application_documents/"
  /** The directory the file storage puts signature images in. */
  const SignatureUploadDir := "digital_signatures/"

  /** The extensions the document field's validator accepts (compared lower-cased). */
  const AllowedExtensions: set<string> := {"pdf", "doc", "docx", "jpg", "jpeg", "png"}

  /** The last path component of a file name. */
  function FinalComponent(path: string): string
  {
    Suffix(path, |path| - LastIndexOf(path, '/') - 1)
  }

  /**
   * The extension of one path component: its suffix after the last dot,
   * lower-cased, where a leading dot (a hidden file) or a trailing dot gives
   * no extension at all.
   */
  function ComponentExtension(base: string): string
  {
    var i := LastIndexOf(base, '.');
    if 0 < i < |base| - 1 then Lower(Suffix(base, |base| - i - 1)) else ""
  }

  /** The extension the validator checks: that of the final component. */
  function Extension(name: string): string
  {
    ComponentExtension(FinalComponent(name))
  }

  predicate HasAllowedExtension(name: string)
  {
    Extension(name) in AllowedExtensions
  }

  /** The name under which the storage keeps an uploaded document. */
  function StoredDocumentName(uploaded: string): string
  {
    DocumentUploadDir + uploaded
  }

  /** Putting a file under a directory does not change its final component. */
  lemma {:induction false} FinalComponentUnderDirectory(dir: string, name: string)
    requires dir != [] && dir[|dir| - 1] == '/'
    ensures FinalComponent(dir + name) == FinalComponent(name)
  {
    var s := dir + name;
    LastIndexOfConcat(dir, name, '/');
    var k := LastIndexOf(name, '/');
    if k < 0 {
      LastIndexOfUnique(dir, '/', |dir| - 1);
    }
    // in both cases the component is what follows position k of `name`
    SuffixOfAppend(dir, name, |name| - k - 1);
  }

  /** Putting an upload under the storage directory does not change its extension. */
  lemma StoredNameKeepsExtension(name: string)
    ensures Extension(StoredDocumentName(name)) == Extension(name)
  {
    FinalComponentUnderDirectory(DocumentUploadDir, name);
  }

  /**
   * Within one path component with a proper extension, ending in ".pdf"
   * after lower-casing is the same as having the lower-cased extension pdf.
   */
  lemma {:induction false} PdfSuffixOfComponent(base: string)
    requires 0 < LastIndexOf(base, '.') < |base| - 1
    ensures EndsWith(Lower(base), ".pdf") <==>
      Lower(Suffix(base, |base| - LastIndexOf(base, '.') - 1)) == "pdf"
  {
    var i, m := LastIndexOf(base, '.'), |base|;
    var L, ext := Lower(base), Lower(base[i + 1..]);
    SuffixIsSlice(base, m - i - 1);
    LastIndexOfIsLast(base, '.');
    if ext == "pdf" {
      SuffixIsSlice(L, 4);
      assert i == m - 4;
      assert L[m - 4] == '.';
      assert L[m - 3] == ext[0] && L[m - 2] == ext[1] && L[m - 1] == ext[2];
      assert L[m - 4..] == ".pdf";
    }
    if EndsWith(L, ".pdf") {
      SuffixIsSlice(L, 4);
      assert L[m - 4] == '.' && L[m - 3] == 'p' && L[m - 2] == 'd' && L[m - 1] == 'f';
      assert base[m - 4] == '.' && base[m - 3] != '.' && base[m - 2] != '.' && base[m - 1] != '.';
      LastIndexOfUnique(base, '.', m - 4);
      assert ext[0] == L[m - 3] && ext[1] == L[m - 2] && ext[2] == L[m - 1];
    }
  }

  /**
   * For a file with an allowed extension put under any directory, the
   * lower-cased path ends in ".pdf" exactly when the extension is pdf.
   */
  lemma PdfSuffixUnderDirectory(dir: string, name: string)
    requires HasAllowedExtension(name)
    ensures EndsWith(Lower(dir + name), ".pdf") <==> Extension(name) == "pdf"
  {
    var base := FinalComponent(name);
    var m := |base|;
    // every allowed extension has at least three letters, so the component has at least five
    assert |Extension(name)| >= 3;
    SuffixOfAppend(dir, name, m);
    LowerEndsWithSuffix(dir + name, m, ".pdf");
    PdfSuffixOfComponent(base);
  }

  /**
   * For a file the validator accepts, the upload handler's test "the
   * lower-cased stored name ends in .pdf" holds exactly when the validator
   * saw the extension pdf.
   */
  lemma PdfSuffixMatchesExtension(name: string)
    requires HasAllowedExtension(name)
    ensures EndsWith(Lower(StoredDocumentName(name)), ".pdf") <==> Extension(name) == "pdf"
  {
    PdfSuffixUnderDirectory(DocumentUploadDir, name);
  }

  /**
   * The final component holds no '/', is the tail of the path, and is
   * either the whole path or preceded by a '/'.
   */
  lemma FinalComponentIsLastComponent(path: string)
    ensures '/' !in FinalComponent(path)
    ensures FinalComponent(path) == path[|path| - |FinalComponent(path)|..]
    ensures |FinalComponent(path)| < |path| ==> path[|path| - |FinalComponent(path)| - 1] == '/'
  {
    var k := LastIndexOf(path, '/');
    var base := FinalComponent(path);
    SuffixIsSlice(path, |path| - k - 1);
    LastIndexOfIsLast(path, '/');
    assert forall j :: 0 <= j < |base| ==> base[j] == path[k + 1 + j];
  }

  /**
   * A component has an extension exactly when it holds a dot that is neither
   * its first nor its last character and has no dot after it; the extension
   * is then the lower-cased text after that dot, so it holds no dot and no
   * capital letter.
   */
  lemma ComponentExtensionIsSuffix(base: string)
    ensures '.' !in ComponentExtension(base)
    ensures forall k :: 0 <= k < |ComponentExtension(base)| ==> !('A' <= ComponentExtension(base)[k] <= 'Z')
    ensures ComponentExtension(base) != [] <==>
      exists i :: 0 < i < |base| - 1 && base[i] == '.' && forall j :: i < j < |base| ==> base[j] != '.'
    ensures ComponentExtension(base) != [] ==>
      && |ComponentExtension(base)| + 1 < |base|
      && base[|base| - |ComponentExtension(base)| - 1] == '.'
      && Lower(base[|base| - |ComponentExtension(base)|..]) == ComponentExtension(base)
  {
    var i := LastIndexOf(base, '.');
    var ext := ComponentExtension(base);
    LastIndexOfIsLast(base, '.');
    if 0 < i < |base| - 1 {
      SuffixIsSlice(base, |base| - i - 1);
      assert forall k :: 0 <= k < |ext| ==> ext[k] == LowerChar(base[i + 1 + k]);
    } else {
      forall i' | 0 < i' < |base| - 1 && base[i'] == '.'
        ensures exists j :: i' < j < |base| && base[j] == '.'
      {
        assert i' <= i;
        assert i == |base| - 1;
      }
    }
  }

  /**
   * The validator's extension is the lower-cased text after a dot near the
   * end of the name; that dot is neither the name's first character nor
   * right after a '/', and the extension holds no '.' and no '/'.
   */
  lemma ExtensionIsPathSuffix(name: string)
    ensures '.' !in Extension(name) && '/' !in Extension(name)
    ensures Extension(name) != [] ==>
      && |Extension(name)| + 2 <= |name|
      && name[|name| - |Extension(name)| - 1] == '.'
      && name[|name| - |Extension(name)| - 2] != '/'
      && Lower(name[|name| - |Extension(name)|..]) == Extension(name)
  {
    FinalComponentIsLastComponent(name);
    ComponentExtensionIsSuffix(FinalComponent(name));
    SuffixWithinTail(name, FinalComponent(name), Extension(name));
  }

  /** The facts of `ExtensionIsPathSuffix`, moved from a '/'-free tail of the name to the whole name. */
  lemma SuffixWithinTail(name: string, base: string, ext: string)
    requires |base| <= |name| && base == name[|name| - |base|..] && '/' !in base
    requires ext != [] ==>
      |ext| + 1 < |base| && base[|base| - |ext| - 1] == '.' && Lower(base[|base| - |ext|..]) == ext
    ensures '/' !in ext
    ensures ext != [] ==>
      && |ext| + 2 <= |name|
      && name[|name| - |ext| - 1] == '.'
      && name[|name| - |ext| - 2] != '/'
      && Lower(name[|name| - |ext|..]) == ext
  {
    if ext != [] {
      var off := |name| - |base|;
      var tail := base[|base| - |ext|..];
      assert base[|base| - |ext| - 1] == name[|name| - |ext| - 1];
      assert base[|base| - |ext| - 2] == name[|name| - |ext| - 2];
      assert base[|base| - |ext| - 2] in base;
      assert tail == name[|name| - |ext|..];
      forall k | 0 <= k < |ext| ensures ext[k] != '/' {
        assert ext[k] == LowerChar(tail[k]);
        assert tail[k] == base[|base| - |ext| + k];
      }
    }
  }

  // ---------------------------------------------------------------- constraints of the store

  /*
   * The uniqueness constraints compare two records through these accessors,
   * so that they are only instantiated where a proof names an accessor.
   */
  function RegistrationNumberOf(profiles: map<ProfileId, BusinessProfile>, p: ProfileId): string
    requires p in profiles
  {
    profiles[p].registrationNumber
  }

  function UserOf(profiles: map<ProfileId, BusinessProfile>, p: ProfileId): UserId
    requires p in profiles
  {
    profiles[p].user
  }

  function NumberOf(applications: map<ApplicationId, ApprovalApplication>, a: ApplicationId): string
    requires a in applications
  {
    applications[a].applicationNumber
  }

  /** `registration_number` is unique across business profiles. */
  predicate UniqueRegistrationNumbers(profiles: map<ProfileId, BusinessProfile>)
  {
    forall p, q {:trigger RegistrationNumberOf(profiles, p), RegistrationNumberOf(profiles, q)} ::
      p in profiles && q in profiles && p != q ==> RegistrationNumberOf(profiles, p) != RegistrationNumberOf(profiles, q)
  }

  /** `user` is a one-to-one field: no user owns two profiles. */
  predicate OneProfilePerUser(profiles: map<ProfileId, BusinessProfile>)
  {
    forall p, q {:trigger UserOf(profiles, p), UserOf(profiles, q)} ::
      p in profiles && q in profiles && p != q ==> UserOf(profiles, p) != UserOf(profiles, q)
  }

  /** `application_number` is unique across applications. */
  predicate UniqueApplicationNumbers(applications: map<ApplicationId, ApprovalApplication>)
  {
    forall a, b {:trigger NumberOf(applications, a), NumberOf(applications, b)} ::
      a in applications && b in applications && a != b ==> NumberOf(applications, a) != NumberOf(applications, b)
  }

  /** Every application references one stored business and one stored approval type. */
  predicate ApplicationsReferToStore(
    applications: map<ApplicationId, ApprovalApplication>,
    profiles: map<ProfileId, BusinessProfile>,
    approvalTypes: map<ApprovalTypeId, ApprovalType>)
  {
    forall a :: a in applications ==>
      applications[a].business in profiles && applications[a].approvalType in approvalTypes
  }

  /** Every document references a stored application. */
  predicate DocumentsReferToStore(
    documents: map<DocumentId, ApplicationDocument>,
    applications: map<ApplicationId, ApprovalApplication>)
  {
    forall d :: d in documents ==> documents[d].application in applications
  }

  /** The document's file has an extension from the allow-list. */
  predicate FileAllowed(doc: ApplicationDocument)
  {
    HasAllowedExtension(doc.file)
  }

  /** Every stored document file has an extension from the allow-list. */
  predicate DocumentFilesAllowed(documents: map<DocumentId, ApplicationDocument>)
  {
    forall d {:trigger FileAllowed(documents[d])} :: d in documents ==> FileAllowed(documents[d])
  }

  predicate CompliancesReferToStore(
    compliances: map<ComplianceId, Compliance>,
    profiles: map<ProfileId, BusinessProfile>)
  {
    forall c :: c in compliances ==> compliances[c].business in profiles
  }

  predicate SignaturesReferToStore(
    signatures: map<SignatureId, DigitalSignature>,
    documents: map<DocumentId, ApplicationDocument>)
  {
    forall g :: g in signatures ==> signatures[g].document in documents
  }

  /**
   * Rewriting a stored application without touching its number, business or
   * approval type keeps the application constraints.
   */
  lemma ApplicationUpdateKeepsConstraints(
    applications: map<ApplicationId, ApprovalApplication>,
    profiles: map<ProfileId, BusinessProfile>,
    approvalTypes: map<ApprovalTypeId, ApprovalType>,
    id: ApplicationId, app: ApprovalApplication)
    requires UniqueApplicationNumbers(applications) && ApplicationsReferToStore(applications, profiles, approvalTypes)
    requires id in applications
    requires app.applicationNumber == applications[id].applicationNumber
    requires app.business == applications[id].business && app.approvalType == applications[id].approvalType
    ensures applications[id := app].Keys == applications.Keys
    ensures UniqueApplicationNumbers(applications[id := app])
    ensures ApplicationsReferToStore(applications[id := app], profiles, approvalTypes)
  {
    var updated := applications[id := app];
    forall a, b | a in updated && b in updated && a != b ensures NumberOf(updated, a) != NumberOf(updated, b) {
      assert NumberOf(updated, a) == NumberOf(applications, a) && NumberOf(updated, b) == NumberOf(applications, b);
    }
  }

  /**
   * Rewriting a stored document without touching its application or file
   * keeps the document constraints.
   */
  lemma DocumentUpdateKeepsConstraints(
    documents: map<DocumentId, ApplicationDocument>,
    applications: map<ApplicationId, ApprovalApplication>,
    id: DocumentId, doc: ApplicationDocument)
    requires DocumentsReferToStore(documents, applications) && DocumentFilesAllowed(documents)
    requires id in documents
    requires doc.application == documents[id].application && doc.file == documents[id].file
    ensures documents[id := doc].Keys == documents.Keys
    ensures DocumentsReferToStore(documents[id := doc], applications)
    ensures DocumentFilesAllowed(documents[id := doc])
  {
    assert FileAllowed(documents[id]);
  }

  /** Adding an application whose number no stored application carries keeps numbers unique. */
  lemma FreshNumberKeepsUnique(
    applications: map<ApplicationId, ApprovalApplication>, id: ApplicationId, app: ApprovalApplication)
    requires UniqueApplicationNumbers(applications)
    requires forall a :: a in applications ==> applications[a].applicationNumber != app.applicationNumber
    ensures UniqueApplicationNumbers(applications[id := app])
  {
    var updated := applications[id := app];
    forall a, b | a in updated && b in updated && a != b ensures NumberOf(updated, a) != NumberOf(updated, b) {
      if a != id && b != id {
        assert NumberOf(applications, a) != NumberOf(applications, b);
      }
    }
  }
}
