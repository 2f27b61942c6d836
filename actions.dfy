/** The two server actions: the analysis of an upload (validate, ingest the
    documents, parse them, derive the resume text, score) and the re-scoring
    of an edited resume. The AI flows and the libraries they lean on are
    given as an `Oracles` value, so every property below holds for every
    behaviour those collaborators may have. */
module Actions {
  import opened Outcomes
  import opened Text
  import opened Types
  import opened Schemas

  /** The collaborators the actions call without seeing into them. The
      ones that may throw return an `Outcome`. */
  datatype Oracles = Oracles(
    extractRawText: seq<byte> -> Outcome<string>,                  // mammoth.extractRawText(...).value
    decodeUtf8: seq<byte> -> string,                               // buffer.toString('utf8')
    encodeBase64: seq<byte> -> string,                             // buffer.toString('base64')
    parseResume: string -> Outcome<ParsedResume>,
    parseJobDescription: string -> Outcome<ParsedJobDescription>,
    scoreResume: (string, string) -> Outcome<ScoreOutput>,         // (resumeText, jobDescriptionText)
    rescoreResume: (string, string) -> Outcome<ScoreOutput>)

  const DATA_URI_SCHEME := "data:"
  const BASE64_MARKER := ";base64,"

  const EXPERIENCE_HEADING := "Experience:"
  const EDUCATION_HEADING := "Education:"
  const SKILLS_HEADING := "Skills:"

  const INVALID_FORM_MESSAGE := "Invalid form data. Please check your inputs."
  const ANALYSIS_FALLBACK_MESSAGE := "An unexpected error occurred during analysis."
  /** What the runtime throws when `fileToTextOrDataUri` is handed a string:
      a string has no `arrayBuffer` method. */
  const NOT_A_FILE_MESSAGE := "file.arrayBuffer is not a function"
  const MISSING_RESCORE_DATA_MESSAGE := "Missing data for re-scoring."
  const RESCORE_FAILED_MESSAGE := "Failed to re-score resume."

  // ---------------------------------------------------------------------
  // Ingestion

  /** `data:<type>;base64,<payload>`. */
  function DataUri(mediaType: string, payload: string): string {
    DATA_URI_SCHEME + mediaType + BASE64_MARKER + payload
  }

  /** `fileToTextOrDataUri`: a word-processing document is reduced to its
      raw text (which may throw); otherwise any `text/` type is decoded as
      UTF-8; anything else becomes a base64 data URI. */
  function FileToTextOrDataUri(o: Oracles, file: File): (r: Outcome<string>)
    ensures file.mediaType == DOCX ==> r == o.extractRawText(file.bytes)
    ensures file.mediaType != DOCX && StartsWith(file.mediaType, "text/") ==>
              r == Ok(o.decodeUtf8(file.bytes))
    ensures file.mediaType != DOCX && !StartsWith(file.mediaType, "text/") ==>
              r == Ok(DataUri(file.mediaType, o.encodeBase64(file.bytes)))
    ensures file.mediaType != DOCX ==> r.Ok?
  {
    if file.mediaType == DOCX then o.extractRawText(file.bytes)
    else if StartsWith(file.mediaType, "text/") then Ok(o.decodeUtf8(file.bytes))
    else Ok(DataUri(file.mediaType, o.encodeBase64(file.bytes)))
  }

  /** Reads a data URI back into its media type and base64 payload; the
      media type ends at the first `;`. */
  function ParseDataUri(s: string): Option<(string, string)> {
    if !StartsWith(s, DATA_URI_SCHEME) then None
    else
      var rest := s[|DATA_URI_SCHEME|..];
      var mediaType := UpTo(rest, ';');
      var tail := rest[|mediaType|..];
      if StartsWith(tail, BASE64_MARKER) then Some((mediaType, tail[|BASE64_MARKER|..])) else None
  }

  /** A data URI starts with "data:" and carries the media type verbatim
      right after it, whatever the media type. */
  lemma DataUriShape(mediaType: string, payload: string)
    ensures StartsWith(DataUri(mediaType, payload), DATA_URI_SCHEME)
    ensures DataUri(mediaType, payload)[5..5 + |mediaType|] == mediaType
  {
    var s := DataUri(mediaType, payload);
    assert s == DATA_URI_SCHEME + (mediaType + BASE64_MARKER + payload);
  }

  /** A data URI reads back into the same media type and payload whenever
      the media type holds no `;`. */
  lemma DataUriRoundTrip(mediaType: string, payload: string)
    requires ';' !in mediaType
    ensures ParseDataUri(DataUri(mediaType, payload)) == Some((mediaType, payload))
  {
    var s := DataUri(mediaType, payload);
    DataUriShape(mediaType, payload);
    var rest := s[|DATA_URI_SCHEME|..];
    assert rest == mediaType + (BASE64_MARKER + payload);
    UpToOfFree(mediaType, BASE64_MARKER + payload, ';');
    assert UpTo(BASE64_MARKER + payload, ';') == "";
    assert rest[|mediaType|..] == BASE64_MARKER + payload;
  }

  /** Where each accepted media type goes: the word-processing document to
      text extraction, plain text to UTF-8 decoding, PDF and the two image
      types to a data URI; only text extraction can fail. */
  lemma IngestionOfAcceptedTypes(o: Oracles, bytes: seq<byte>)
    ensures FileToTextOrDataUri(o, File(DOCX, bytes)) == o.extractRawText(bytes)
    ensures FileToTextOrDataUri(o, File(PLAIN_TEXT, bytes)) == Ok(o.decodeUtf8(bytes))
    ensures FileToTextOrDataUri(o, File(PDF, bytes)) == Ok(DataUri(PDF, o.encodeBase64(bytes)))
    ensures FileToTextOrDataUri(o, File(JPEG, bytes)) == Ok(DataUri(JPEG, o.encodeBase64(bytes)))
    ensures FileToTextOrDataUri(o, File(PNG, bytes)) == Ok(DataUri(PNG, o.encodeBase64(bytes)))
  {
    assert DOCX[0] != PLAIN_TEXT[0];
    assert StartsWith(PLAIN_TEXT, "text/");
    assert PDF[0] != 't' && DOCX[0] != 't' && JPEG[0] != 't' && PNG[0] != 't';
    assert PDF[1] != DOCX[12] && JPEG[0] != DOCX[0] && PNG[0] != DOCX[0];
  }

  // ---------------------------------------------------------------------
  // The analysis action

  /** The raw form entries, as `formData.get` returns them. */
  datatype Submission = Submission(
    resume: FormEntry,
    jobDescriptionText: Option<string>,
    jobDescriptionFile: FormEntry)

  /** The object handed to the schema: `formData.get('jobDescriptionText')
      || undefined` turns an empty text into an absent one. */
  function SchemaInput(s: Submission): (f: FormFields)
    ensures f.resume == s.resume && f.jobDescriptionFile == s.jobDescriptionFile
    ensures f.jobDescriptionText.Some? <==> TextGiven(s.jobDescriptionText)
    ensures f.jobDescriptionText.Some? ==> f.jobDescriptionText == s.jobDescriptionText
  {
    FormFields(s.resume, if TextGiven(s.jobDescriptionText) then s.jobDescriptionText else None, s.jobDescriptionFile)
  }

  /** The job description's content: the file entry is ingested whenever
      it is truthy, whatever its size and whether or not text was pasted;
      otherwise the pasted text is used unchanged. */
  function JobDescriptionContent(o: Oracles, data: ValidatedForm): (r: Outcome<string>)
    requires JobDescriptionPresent(data.jobDescriptionText, data.jobDescriptionFile)
    ensures data.jobDescriptionFile.FileEntry? ==> r == FileToTextOrDataUri(o, data.jobDescriptionFile.file)
    ensures data.jobDescriptionFile.StringEntry? && Truthy(data.jobDescriptionFile) ==> r == Thrown(NOT_A_FILE_MESSAGE)
    ensures !Truthy(data.jobDescriptionFile) ==> r == Ok(data.jobDescriptionText.value) && r.value != ""
  {
    match data.jobDescriptionFile
    case FileEntry(f) => FileToTextOrDataUri(o, f)
    case StringEntry(s) => if s != "" then Thrown(NOT_A_FILE_MESSAGE) else Ok(data.jobDescriptionText.value)
    case Absent => Ok(data.jobDescriptionText.value)
  }

  /** The resume text rebuilt from the parsed fields, for a resume that was
      sent to the parser as a data URI: the template
      `name, email, phone, blank, "Experience:", experience joined by blank
      lines, blank, "Education:", education joined by blank lines, blank,
      "Skills:", skills joined by ", "`, one item per line. */
  function ReconstructedResume(r: ParsedResume): string {
    Join(ReconstructedResumeLines(r), "\n")
  }

  function ReconstructedResumeLines(r: ParsedResume): seq<string> {
    [r.name, r.email, r.phone, "", EXPERIENCE_HEADING, Join(r.experience, "\n\n"),
     "", EDUCATION_HEADING, Join(r.education, "\n\n"),
     "", SKILLS_HEADING, Join(r.skills, ", ")]
  }

  /** A blank line and a heading line, joined onto what precedes them by
      line breaks, are the section break written as one literal. */
  lemma SectionBreak(p: string, heading: string, literal: string)
    requires literal == "\n\n" + heading + "\n"
    ensures p + "\n" + "" + "\n" + heading + "\n" == p + literal
  {
  }

  lemma SectionBreakLiterals()
    ensures "\n\nExperience:\n" == "\n\n" + EXPERIENCE_HEADING + "\n"
    ensures "\n\nEducation:\n" == "\n\n" + EDUCATION_HEADING + "\n"
    ensures "\n\nSkills:\n" == "\n\n" + SKILLS_HEADING + "\n"
  {
  }

  /** The rebuilt resume is the template literal of the code, for every
      parsed resume: no single-line premise is needed. */
  lemma ReconstructedResumeTemplate(r: ParsedResume)
    ensures ReconstructedResume(r)
         == r.name + "\n" + r.email + "\n" + r.phone
          + "\n\nExperience:\n" + Join(r.experience, "\n\n")
          + "\n\nEducation:\n" + Join(r.education, "\n\n")
          + "\n\nSkills:\n" + Join(r.skills, ", ")
  {
    var e := Join(r.experience, "\n\n");
    var d := Join(r.education, "\n\n");
    var k := Join(r.skills, ", ");
    var a1 := [r.name];
    var a2 := a1 + [r.email];
    var a3 := a2 + [r.phone];
    var a4 := a3 + [""];
    var a5 := a4 + [EXPERIENCE_HEADING];
    var a6 := a5 + [e];
    var a7 := a6 + [""];
    var a8 := a7 + [EDUCATION_HEADING];
    var a9 := a8 + [d];
    var a10 := a9 + [""];
    var a11 := a10 + [SKILLS_HEADING];
    assert a11 + [k] == ReconstructedResumeLines(r);
    assert Join(a1, "\n") == r.name;
    JoinSnoc(a1, r.email, "\n");
    JoinSnoc(a2, r.phone, "\n");
    JoinSnoc(a3, "", "\n");
    JoinSnoc(a4, EXPERIENCE_HEADING, "\n");
    JoinSnoc(a5, e, "\n");
    JoinSnoc(a6, "", "\n");
    JoinSnoc(a7, EDUCATION_HEADING, "\n");
    JoinSnoc(a8, d, "\n");
    JoinSnoc(a9, "", "\n");
    JoinSnoc(a10, SKILLS_HEADING, "\n");
    JoinSnoc(a11, k, "\n");
    SectionBreakLiterals();
    var p3 := r.name + "\n" + r.email + "\n" + r.phone;
    SectionBreak(p3, EXPERIENCE_HEADING, "\n\nExperience:\n");
    var p6 := p3 + "\n\nExperience:\n" + e;
    SectionBreak(p6, EDUCATION_HEADING, "\n\nEducation:\n");
    var p9 := p6 + "\n\nEducation:\n" + d;
    SectionBreak(p9, SKILLS_HEADING, "\n\nSkills:\n");
  }

  /** `rawResumeText`: the ingested content verbatim, unless it starts with
      "data:", in which case the parsed fields are written out instead. */
  function RawResumeText(content: string, parsed: ParsedResume): (raw: string)
    ensures !StartsWith(content, DATA_URI_SCHEME) ==> raw == content
    ensures StartsWith(content, DATA_URI_SCHEME) ==> raw == ReconstructedResume(parsed)
  {
    if StartsWith(content, DATA_URI_SCHEME) then ReconstructedResume(parsed) else content
  }

  /** Twelve segments joined by line breaks, the sixth and ninth joined
      from entries by blank lines, split back into lines. */
  lemma {:induction false} SectionedLines(head: seq<string>, e: seq<string>, mid: seq<string>, d: seq<string>, tail: seq<string>)
    requires |head| == 5 && |mid| == 2 && |tail| == 3
    requires AllSingleLine(head) && AllSingleLine(mid) && AllSingleLine(tail)
    requires AllSingleLine(e) && AllSingleLine(d)
    ensures Lines(Join(head + [Join(e, "\n\n")] + mid + [Join(d, "\n\n")] + tail, "\n"))
         == head + Paragraphs(e) + mid + Paragraphs(d) + tail
  {
    var je := [Join(e, "\n\n")];
    var jd := [Join(d, "\n\n")];
    LinesOfJoin(head + je + mid + jd + tail);
    FlatLinesOfSections(head, je, mid, jd, tail);
    FlatLinesOfSingleLines(head);
    FlatLinesOfSingleLines(mid);
    FlatLinesOfSingleLines(tail);
    FlatLinesOfOne(je[0]);
    FlatLinesOfOne(jd[0]);
    LinesOfParagraphs(e);
    LinesOfParagraphs(d);
  }

  lemma HeadingsSingleLine()
    ensures SingleLine("") && SingleLine(EXPERIENCE_HEADING) && SingleLine(EDUCATION_HEADING) && SingleLine(SKILLS_HEADING)
  {
  }

  /** The rebuilt resume, line by line: name, email and phone on lines of
      their own, then each section under its heading, experience and
      education entries separated by blank lines, the skills on one line. */
  lemma ReconstructedResumeText(r: ParsedResume)
    requires SingleLine(r.name) && SingleLine(r.email) && SingleLine(r.phone)
    requires AllSingleLine(r.experience) && AllSingleLine(r.education) && AllSingleLine(r.skills)
    ensures Lines(ReconstructedResume(r))
         == [r.name, r.email, r.phone, "", EXPERIENCE_HEADING] + Paragraphs(r.experience)
          + ["", EDUCATION_HEADING] + Paragraphs(r.education)
          + ["", SKILLS_HEADING, Join(r.skills, ", ")]
  {
    var head := [r.name, r.email, r.phone, "", EXPERIENCE_HEADING];
    var mid := ["", EDUCATION_HEADING];
    var tail := ["", SKILLS_HEADING, Join(r.skills, ", ")];
    assert ReconstructedResumeLines(r)
        == head + [Join(r.experience, "\n\n")] + mid + [Join(r.education, "\n\n")] + tail;
    JoinSingleLine(r.skills, ", ");
    HeadingsSingleLine();
    SectionedLines(head, r.experience, mid, r.education, tail);
  }

  /** The analysis after validation: both documents are ingested (a failure
      of either aborts, the resume's reported first), both are parsed (the
      same), the resume text is derived, and the scoring receives that text
      and the job description's extracted text. Nothing partial is ever
      returned. */
  function RunAnalysis(o: Oracles, data: ValidatedForm): (r: Outcome<AnalysisResult>)
    requires JobDescriptionPresent(data.jobDescriptionText, data.jobDescriptionFile)
    ensures r.Ok? ==>
      && FileToTextOrDataUri(o, data.resume).Ok?
      && JobDescriptionContent(o, data).Ok?
      && o.parseResume(FileToTextOrDataUri(o, data.resume).value) == Ok(r.value.resume)
      && o.parseJobDescription(JobDescriptionContent(o, data).value) == Ok(r.value.jd)
      && r.value.rawResume == RawResumeText(FileToTextOrDataUri(o, data.resume).value, r.value.resume)
      && o.scoreResume(r.value.rawResume, r.value.jd.extractedText) == Ok(r.value.score)
  {
    var resumeContent :- FileToTextOrDataUri(o, data.resume);
    var jdContent :- JobDescriptionContent(o, data);
    var resume :- o.parseResume(resumeContent);
    var jd :- o.parseJobDescription(jdContent);
    var rawResume := RawResumeText(resumeContent, resume);
    var score :- o.scoreResume(rawResume, jd.extractedText);
    Ok(AnalysisResult(score, resume, jd, rawResume))
  }

  /** When every collaborator succeeds the analysis does too, and when one
      throws the analysis fails with the message of the first that threw. */
  lemma RunAnalysisOutcome(o: Oracles, data: ValidatedForm)
    requires JobDescriptionPresent(data.jobDescriptionText, data.jobDescriptionFile)
    ensures var rc := FileToTextOrDataUri(o, data.resume);
            var jc := JobDescriptionContent(o, data);
            if rc.Thrown? then RunAnalysis(o, data) == Thrown(rc.message)
            else if jc.Thrown? then RunAnalysis(o, data) == Thrown(jc.message)
            else
              var pr := o.parseResume(rc.value);
              var pj := o.parseJobDescription(jc.value);
              if pr.Thrown? then RunAnalysis(o, data) == Thrown(pr.message)
              else if pj.Thrown? then RunAnalysis(o, data) == Thrown(pj.message)
              else
                var raw := RawResumeText(rc.value, pr.value);
                var sc := o.scoreResume(raw, pj.value.extractedText);
                RunAnalysis(o, data) == if sc.Thrown? then Thrown(sc.message)
                                        else Ok(AnalysisResult(sc.value, pr.value, pj.value, raw))
  {
  }

  /** `e.message || fallback`: the message of what was thrown, or the
      fallback text when it has none. */
  function ErrorText(message: string): (t: string)
    ensures t != ""
    ensures message != "" ==> t == message
    ensures message == "" ==> t == ANALYSIS_FALLBACK_MESSAGE
  {
    if message != "" then message else ANALYSIS_FALLBACK_MESSAGE
  }

  /** `analyzeResumeAction`: a rejected form gets the fixed message and the
      field errors; an accepted one the result of the analysis or the
      error text of what it threw. A reply never carries both an error and
      a result, and always carries one of them. */
  function AnalyzeResumeAction(o: Oracles, s: Submission): (reply: ActionState)
    ensures !(reply.error.Some? && reply.result.Some?)
    ensures reply.error.Some? || reply.result.Some?
    ensures reply.error.Some? ==> reply.error.value != ""
    ensures Validate(SchemaInput(s)).Rejected? ==>
              reply == ActionState(Some(INVALID_FORM_MESSAGE), None, Some(Validate(SchemaInput(s)).fieldErrors))
    ensures Validate(SchemaInput(s)).Accepted? ==>
              && JobDescriptionPresent(Validate(SchemaInput(s)).data.jobDescriptionText, Validate(SchemaInput(s)).data.jobDescriptionFile)
              && reply.errors.None?
              && var r := RunAnalysis(o, Validate(SchemaInput(s)).data);
                 (r.Ok? ==> reply.result == Some(r.value))
                 && (r.Thrown? ==> reply.error == Some(ErrorText(r.message)))
  {
    match Validate(SchemaInput(s))
    case Rejected(fieldErrors) => ActionState(Some(INVALID_FORM_MESSAGE), None, Some(fieldErrors))
    case Accepted(data) =>
      match RunAnalysis(o, data)
      case Ok(result) => ActionState(None, Some(result), None)
      case Thrown(message) => ActionState(Some(ErrorText(message)), None, None)
  }

  /** A resume uploaded as a PDF is scored, and kept, as the text rebuilt
      from its parsed fields. */
  lemma EmbeddedResumeIsRebuilt(o: Oracles, data: ValidatedForm)
    requires JobDescriptionPresent(data.jobDescriptionText, data.jobDescriptionFile) && data.resume.mediaType == PDF
    requires RunAnalysis(o, data).Ok?
    ensures var r := RunAnalysis(o, data).value;
            r.rawResume == ReconstructedResume(r.resume)
            && o.scoreResume(ReconstructedResume(r.resume), r.jd.extractedText) == Ok(r.score)
  {
    IngestionOfAcceptedTypes(o, data.resume.bytes);
    DataUriShape(PDF, o.encodeBase64(data.resume.bytes));
  }

  /** A plain-text resume is scored, and kept, verbatim as decoded, unless
      the decoded text itself starts with "data:". */
  lemma TextResumeIsVerbatim(o: Oracles, data: ValidatedForm)
    requires JobDescriptionPresent(data.jobDescriptionText, data.jobDescriptionFile) && data.resume.mediaType == PLAIN_TEXT
    requires RunAnalysis(o, data).Ok?
    ensures var r := RunAnalysis(o, data).value;
            var text := o.decodeUtf8(data.resume.bytes);
            r.rawResume == (if StartsWith(text, DATA_URI_SCHEME) then ReconstructedResume(r.resume) else text)
  {
    IngestionOfAcceptedTypes(o, data.resume.bytes);
  }

  // ---------------------------------------------------------------------
  // The re-scoring action

  /** The reply of the re-scoring action. */
  datatype RescoreReply = RescoreReply(error: Option<string>, score: Option<ScoreOutput>)

  /** `rescoreResumeAction`: empty input is refused without calling the
      scorer; otherwise the scorer's output, or a fixed message if it
      throws. Exactly one of error and score is set, and an error is never
      empty. */
  function RescoreResumeAction(o: Oracles, resumeText: string, jobDescriptionText: string): (reply: RescoreReply)
    ensures reply.error.Some? != reply.score.Some?
    ensures reply.error.Some? ==> reply.error.value != ""
    ensures resumeText == "" || jobDescriptionText == "" ==>
              reply == RescoreReply(Some(MISSING_RESCORE_DATA_MESSAGE), None)
    ensures resumeText != "" && jobDescriptionText != "" ==>
              reply == match o.rescoreResume(resumeText, jobDescriptionText)
                       case Ok(score) => RescoreReply(None, Some(score))
                       case Thrown(_) => RescoreReply(Some(RESCORE_FAILED_MESSAGE), None)
  {
    if resumeText == "" || jobDescriptionText == "" then
      RescoreReply(Some(MISSING_RESCORE_DATA_MESSAGE), None)
    else
      match o.rescoreResume(resumeText, jobDescriptionText)
      case Ok(score) => RescoreReply(None, Some(score))
      case Thrown(_) => RescoreReply(Some(RESCORE_FAILED_MESSAGE), None)
  }
}
