/** The acceptance rules for an upload (the analysis form's schema): the
    resume must be a non-empty file of at most 10 MB and of an accepted
    media type; a non-empty job-description file must be of an accepted
    type and at most 10 MB; job-description text or a non-empty
    job-description file must be present. Every rule is checked on its own
    and its message is filed under the field it names. */
module Schemas {
  import opened Outcomes
  import opened Text

  newtype byte = b: int | 0 <= b < 256

  /** A browser `File`: its declared media type (`file.type`) and its
      content; `file.size` is the number of bytes. */
  datatype File = File(mediaType: string, bytes: seq<byte>) {
    function Size(): nat {
      |bytes|
    }
  }

  /** What `formData.get(name)` yields: nothing (`null`), a string or a file. */
  datatype FormEntry = Absent | StringEntry(text: string) | FileEntry(file: File)

  /** `entry instanceof File && entry.size > 0`. */
  predicate NonEmptyFile(entry: FormEntry) {
    entry.FileEntry? && entry.file.Size() > 0
  }

  /** JavaScript truthiness of an entry: a file is an object and always true. */
  predicate Truthy(entry: FormEntry) {
    match entry
    case Absent => false
    case StringEntry(s) => s != ""
    case FileEntry(_) => true
  }

  /** `!!text` for the optional job-description text. */
  predicate TextGiven(text: Option<string>) {
    text.Some? && text.value != ""
  }

  /** The object the schema parses. */
  datatype FormFields = FormFields(
    resume: FormEntry,
    jobDescriptionText: Option<string>,
    jobDescriptionFile: FormEntry)

  const MAX_FILE_SIZE: nat := 10 * 1024 * 1024

  const PDF := "application/pdf"
  /** "vnd.openxmlformats-officedocument.wordprocessingml.document", written
      in four pieces so that the verifier can see it holds no `/`. */
  const DOCX_SUBTYPE := "vnd.openxmlformats" + "-officedocument" + ".wordprocessingml" + ".document"
  const DOCX := "application/" + DOCX_SUBTYPE
  const PLAIN_TEXT := "text/plain"
  const JPEG := "image/jpeg"
  const PNG := "image/png"

  const ACCEPTED_RESUME_TYPES: seq<string> := [PDF, DOCX, PLAIN_TEXT]
  const ACCEPTED_JD_TYPES: seq<string> := ACCEPTED_RESUME_TYPES + [JPEG, PNG]

  const FILE_REQUIRED := "File is required."
  const MAX_SIZE_MESSAGE := "Max file size is 10MB."
  const JD_TYPE_MESSAGE := "Unsupported file type. Accepted types are: " + Join(ACCEPTED_JD_TYPES, ", ")
  const JD_REQUIRED_MESSAGE := "Either job description text or a file is required."

  /** `t.split('/')[1]`: the text between the first and the second `/`; the
      empty string when `t` has no `/` (`join` prints `undefined` as ""). */
  function Subtype(t: string): string {
    if t == [] then ""
    else if t[0] == '/' then UpTo(t[1..], '/')
    else Subtype(t[1..])
  }

  /** For a media type `type/subtype` with a single `/`, the subtype. */
  lemma {:induction false} SubtypeOfMediaType(a: string, b: string)
    requires '/' !in a && '/' !in b
    ensures Subtype(a + "/" + b) == b
    decreases |a|
  {
    var t := a + "/" + b;
    if a == [] {
      assert t[0] == '/' && t[1..] == b;
      UpToOfFree(b, "", '/');
      assert b + "" == b;
    } else {
      assert a[0] in a;
      assert t[0] == a[0] && t[1..] == a[1..] + "/" + b;
      assert '/' !in a[1..] by {
        forall c | c in a[1..] ensures c != '/' { assert c in a; }
      }
      SubtypeOfMediaType(a[1..], b);
    }
  }

  /** `acceptedTypes.map(t => t.split('/')[1])`. */
  function Subtypes(types: seq<string>): (r: seq<string>)
    ensures |r| == |types|
    ensures forall i :: 0 <= i < |types| ==> r[i] == Subtype(types[i])
  {
    if types == [] then [] else [Subtype(types[0])] + Subtypes(types[1..])
  }

  /** The type message of `fileSchema(acceptedTypes)`. */
  function AcceptedTypesMessage(acceptedTypes: seq<string>): string {
    "Accepted file types: " + Join(Subtypes(acceptedTypes), ", ")
  }

  lemma DocxSubtypeSlashFree()
    ensures '/' !in DOCX_SUBTYPE
  {
    assert '/' !in "vnd.openxmlformats" && '/' !in "-officedocument";
    assert '/' !in ".wordprocessingml" && '/' !in ".document";
  }

  lemma PdfSubtype()
    ensures Subtype(PDF) == "pdf"
  {
    SubtypeOfMediaType("application", "pdf");
    assert "application" + "/" + "pdf" == PDF;
  }

  lemma DocxSubtype()
    ensures Subtype(DOCX) == DOCX_SUBTYPE
  {
    DocxSubtypeSlashFree();
    SubtypeOfMediaType("application", DOCX_SUBTYPE);
    assert "application" + "/" + DOCX_SUBTYPE == DOCX;
  }

  lemma PlainTextSubtype()
    ensures Subtype(PLAIN_TEXT) == "plain"
  {
    SubtypeOfMediaType("text", "plain");
    assert "text" + "/" + "plain" == PLAIN_TEXT;
  }

  /** The subtypes of the three accepted resume types. */
  lemma ResumeSubtypes()
    ensures Subtypes(ACCEPTED_RESUME_TYPES) == ["pdf", DOCX_SUBTYPE, "plain"]
  {
    PdfSubtype();
    DocxSubtype();
    PlainTextSubtype();
  }

  /** The resume's type message lists the subtypes of the accepted resume
      types, in list order, separated by ", ". */
  lemma ResumeTypeMessageText()
    ensures AcceptedTypesMessage(ACCEPTED_RESUME_TYPES)
         == "Accepted file types: " + ("pdf" + ", " + DOCX_SUBTYPE + ", " + "plain")
  {
    ResumeSubtypes();
    JoinOfThree("pdf", DOCX_SUBTYPE, "plain", ", ");
  }

  lemma JobDescriptionTypesJoined()
    ensures Join(ACCEPTED_JD_TYPES, ", ") == PDF + ", " + DOCX + ", " + PLAIN_TEXT + ", " + JPEG + ", " + PNG
  {
    assert ACCEPTED_JD_TYPES == [PDF, DOCX, PLAIN_TEXT, JPEG, PNG];
    JoinOfFive(PDF, DOCX, PLAIN_TEXT, JPEG, PNG, ", ");
  }

  /** The job-description type message names every accepted type in full,
      in list order, separated by ", ". */
  lemma JobDescriptionTypeMessageText()
    ensures JD_TYPE_MESSAGE
         == "Unsupported file type. Accepted types are: "
          + (PDF + ", " + DOCX + ", " + PLAIN_TEXT + ", " + JPEG + ", " + PNG)
  {
    JobDescriptionTypesJoined();
  }

  lemma JobDescriptionMessagesDistinct()
    ensures JD_TYPE_MESSAGE != MAX_SIZE_MESSAGE
  {
    assert JD_TYPE_MESSAGE[0] == 'U';
  }

  lemma AcceptedTypesMessageDistinct(acceptedTypes: seq<string>)
    ensures AcceptedTypesMessage(acceptedTypes) != FILE_REQUIRED
    ensures AcceptedTypesMessage(acceptedTypes) != MAX_SIZE_MESSAGE
  {
    assert AcceptedTypesMessage(acceptedTypes)[0] == 'A';
  }

  /** `fileSchema(acceptedTypes)` on one entry: the message of every check
      the entry fails. A non-file fails `instanceof File` and nothing else
      can be asked of it; a file is put to the three refinements
      independently (size > 0, size <= 10 MB, accepted type). */
  function FileMessages(entry: FormEntry, acceptedTypes: seq<string>): (ms: seq<string>)
    ensures FILE_REQUIRED in ms <==> !NonEmptyFile(entry)
    ensures MAX_SIZE_MESSAGE in ms <==> entry.FileEntry? && entry.file.Size() > MAX_FILE_SIZE
    ensures AcceptedTypesMessage(acceptedTypes) in ms <==>
              entry.FileEntry? && entry.file.mediaType !in acceptedTypes
    ensures forall i :: 0 <= i < |ms| ==>
              ms[i] == FILE_REQUIRED || ms[i] == MAX_SIZE_MESSAGE || ms[i] == AcceptedTypesMessage(acceptedTypes)
    ensures ms == [] <==>
              NonEmptyFile(entry) && entry.file.Size() <= MAX_FILE_SIZE && entry.file.mediaType in acceptedTypes
  {
    AcceptedTypesMessageDistinct(acceptedTypes);
    match entry
    case FileEntry(f) =>
      (if f.Size() > 0 then [] else [FILE_REQUIRED])
      + (if f.Size() <= MAX_FILE_SIZE then [] else [MAX_SIZE_MESSAGE])
      + (if f.mediaType in acceptedTypes then [] else [AcceptedTypesMessage(acceptedTypes)])
    case _ => [FILE_REQUIRED]
  }

  /** The two object-level refinements on the job-description file: they
      apply only to a non-empty file, and each that fails adds its message. */
  function JobDescriptionFileMessages(entry: FormEntry): (ms: seq<string>)
    ensures JD_TYPE_MESSAGE in ms <==> NonEmptyFile(entry) && entry.file.mediaType !in ACCEPTED_JD_TYPES
    ensures MAX_SIZE_MESSAGE in ms <==> NonEmptyFile(entry) && entry.file.Size() > MAX_FILE_SIZE
    ensures forall i :: 0 <= i < |ms| ==> ms[i] == JD_TYPE_MESSAGE || ms[i] == MAX_SIZE_MESSAGE
    ensures !NonEmptyFile(entry) ==> ms == []
  {
    JobDescriptionMessagesDistinct();
    if NonEmptyFile(entry) then
      (if entry.file.mediaType in ACCEPTED_JD_TYPES then [] else [JD_TYPE_MESSAGE])
      + (if entry.file.Size() <= MAX_FILE_SIZE then [] else [MAX_SIZE_MESSAGE])
    else []
  }

  /** The presence rule: text, or a non-empty file. */
  predicate JobDescriptionPresent(text: Option<string>, file: FormEntry) {
    TextGiven(text) || NonEmptyFile(file)
  }

  /** A failed check: the field it is reported on and its message. */
  datatype Issue = Issue(field: string, message: string)

  function OnField(field: string, messages: seq<string>): (r: seq<Issue>)
    ensures |r| == |messages|
    ensures forall i :: 0 <= i < |r| ==> r[i] == Issue(field, messages[i])
  {
    if messages == [] then [] else [Issue(field, messages[0])] + OnField(field, messages[1..])
  }

  /** Every check of the schema, in declaration order. */
  function Issues(form: FormFields): seq<Issue> {
    OnField("resume", FileMessages(form.resume, ACCEPTED_RESUME_TYPES))
    + OnField("jobDescriptionFile", JobDescriptionFileMessages(form.jobDescriptionFile))
    + (if JobDescriptionPresent(form.jobDescriptionText, form.jobDescriptionFile) then [] else [Issue("jobDescriptionText", JD_REQUIRED_MESSAGE)])
  }

  /** The messages of the issues reported on `field`, in order. */
  function MessagesOn(issues: seq<Issue>, field: string): seq<string> {
    if issues == [] then []
    else (if issues[0].field == field then [issues[0].message] else []) + MessagesOn(issues[1..], field)
  }

  lemma {:induction false} MessagesOnAppend(a: seq<Issue>, b: seq<Issue>, field: string)
    ensures MessagesOn(a + b, field) == MessagesOn(a, field) + MessagesOn(b, field)
    decreases |a|
  {
    if a == [] {
      assert a + b == b;
    } else {
      assert (a + b)[0] == a[0];
      assert (a + b)[1..] == a[1..] + b;
      MessagesOnAppend(a[1..], b, field);
    }
  }

  lemma {:induction false} MessagesOnField(field: string, messages: seq<string>, other: string)
    ensures MessagesOn(OnField(field, messages), other) == if field == other then messages else []
    decreases |messages|
  {
    if messages != [] {
      MessagesOnField(field, messages[1..], other);
    }
  }

  /** `error.flatten().fieldErrors`: for each field that has an issue, the
      messages reported on it in order; no other key. */
  function FieldErrors(issues: seq<Issue>): (m: map<string, seq<string>>)
    ensures forall k :: k in m <==> MessagesOn(issues, k) != []
    ensures forall k :: k in m ==> m[k] == MessagesOn(issues, k)
    decreases |issues|
  {
    if issues == [] then map[]
    else
      var rest := FieldErrors(issues[1..]);
      var first := issues[0];
      rest[first.field := [first.message] + (if first.field in rest then rest[first.field] else [])]
  }

  /** What the schema yields on success. */
  datatype ValidatedForm = ValidatedForm(
    resume: File,
    jobDescriptionText: Option<string>,
    jobDescriptionFile: FormEntry)

  /** `safeParse`: the parsed data, or the field errors. */
  datatype Validation = Accepted(data: ValidatedForm) | Rejected(fieldErrors: map<string, seq<string>>)

  /** The acceptance rules, stated directly. */
  predicate Acceptable(form: FormFields) {
    && form.resume.FileEntry?
    && 0 < form.resume.file.Size() <= MAX_FILE_SIZE
    && form.resume.file.mediaType in ACCEPTED_RESUME_TYPES
    && (NonEmptyFile(form.jobDescriptionFile) ==>
          form.jobDescriptionFile.file.mediaType in ACCEPTED_JD_TYPES
          && form.jobDescriptionFile.file.Size() <= MAX_FILE_SIZE)
    && (TextGiven(form.jobDescriptionText) || NonEmptyFile(form.jobDescriptionFile))
  }

  /** `AnalysisFormSchema.safeParse`: accepts exactly the acceptable forms,
      passing their fields through unchanged. */
  function Validate(form: FormFields): (v: Validation)
    ensures v.Accepted? <==> Acceptable(form)
    ensures v.Accepted? ==>
              v.data == ValidatedForm(form.resume.file, form.jobDescriptionText, form.jobDescriptionFile)
    ensures v.Rejected? ==> |v.fieldErrors| > 0
  {
    var issues := Issues(form);
    if issues == [] then
      Accepted(ValidatedForm(form.resume.file, form.jobDescriptionText, form.jobDescriptionFile))
    else
      var m := FieldErrors(issues);
      assert issues[0].field in m;
      Rejected(m)
  }

  /** The messages a validation reports on one field. */
  function ErrorsOn(v: Validation, field: string): seq<string> {
    if v.Rejected? && field in v.fieldErrors then v.fieldErrors[field] else []
  }

  /** What a validation reports on a field is exactly the messages of the
      issues filed under it (none when the form is accepted). */
  lemma ErrorsAreIssueMessages(form: FormFields, field: string)
    ensures ErrorsOn(Validate(form), field) == MessagesOn(Issues(form), field)
  {
    if Issues(form) == [] {
      assert MessagesOn(Issues(form), field) == [];
    }
  }

  /** The messages on one field, check by check. */
  lemma ErrorsOnDecompose(form: FormFields, field: string)
    ensures ErrorsOn(Validate(form), field)
         == (if field == "resume" then FileMessages(form.resume, ACCEPTED_RESUME_TYPES) else [])
          + (if field == "jobDescriptionFile" then JobDescriptionFileMessages(form.jobDescriptionFile) else [])
          + (if field == "jobDescriptionText" && !JobDescriptionPresent(form.jobDescriptionText, form.jobDescriptionFile) then [JD_REQUIRED_MESSAGE] else [])
  {
    var rm := FileMessages(form.resume, ACCEPTED_RESUME_TYPES);
    var jm := JobDescriptionFileMessages(form.jobDescriptionFile);
    var r := OnField("resume", rm);
    var j := OnField("jobDescriptionFile", jm);
    var t: seq<Issue> := if JobDescriptionPresent(form.jobDescriptionText, form.jobDescriptionFile) then [] else [Issue("jobDescriptionText", JD_REQUIRED_MESSAGE)];
    assert Issues(form) == r + j + t;
    ErrorsAreIssueMessages(form, field);
    MessagesOnAppend(r + j, t, field);
    MessagesOnAppend(r, j, field);
    MessagesOnField("resume", rm, field);
    MessagesOnField("jobDescriptionFile", jm, field);
  }

  /** Each field is reported exactly the messages of its own checks:
      the resume the file checks, the job-description file its type and size
      refinements (and only when it is a non-empty file), the text field the
      presence rule; no other field is reported. */
  lemma ErrorsByField(form: FormFields, other: string)
    requires other !in {"resume", "jobDescriptionFile", "jobDescriptionText"}
    ensures ErrorsOn(Validate(form), "resume") == FileMessages(form.resume, ACCEPTED_RESUME_TYPES)
    ensures ErrorsOn(Validate(form), "jobDescriptionFile") == JobDescriptionFileMessages(form.jobDescriptionFile)
    ensures ErrorsOn(Validate(form), "jobDescriptionText")
         == if JobDescriptionPresent(form.jobDescriptionText, form.jobDescriptionFile) then [] else [JD_REQUIRED_MESSAGE]
    ensures ErrorsOn(Validate(form), other) == []
  {
    ErrorsOnDecompose(form, "resume");
    ErrorsOnDecompose(form, "jobDescriptionFile");
    ErrorsOnDecompose(form, "jobDescriptionText");
    ErrorsOnDecompose(form, other);
  }

  /** The size limit is inclusive: an otherwise valid resume passes exactly
      when it has at most 10485760 bytes. */
  lemma ResumeSizeLimit(f: File)
    requires f.Size() > 0 && f.mediaType in ACCEPTED_RESUME_TYPES
    ensures FileMessages(FileEntry(f), ACCEPTED_RESUME_TYPES) == [] <==> f.Size() <= 10485760
  {
  }

  /** An empty resume file is refused with "File is required." on the
      resume field. */
  lemma EmptyResumeRefused(form: FormFields)
    requires form.resume.FileEntry? && form.resume.file.Size() == 0
    ensures Validate(form).Rejected?
    ensures FILE_REQUIRED in ErrorsOn(Validate(form), "resume")
  {
    ErrorsByField(form, "");
  }

  /** The two image types are accepted for a job description but not for
      a resume. */
  lemma ImagesOnlyForJobDescriptions()
    ensures JPEG !in ACCEPTED_RESUME_TYPES && PNG !in ACCEPTED_RESUME_TYPES
    ensures JPEG in ACCEPTED_JD_TYPES && PNG in ACCEPTED_JD_TYPES
  {
    assert JPEG[0] != PDF[0] && JPEG[0] != DOCX[0] && JPEG[0] != PLAIN_TEXT[0];
    assert PNG[0] != PDF[0] && PNG[0] != DOCX[0] && PNG[0] != PLAIN_TEXT[0];
  }
}
