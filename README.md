# Clyptus Rank: a verified model of the upload, analysis and refinement logic

Clyptus Rank is a web application. A user uploads a resume and a job description, as pasted text or a file. The application:

- parses both with an AI service;
- scores the resume against the job description;
- lets the user add missing skills to the resume text and re-score it.

This project models the three pieces of checkable logic around the AI service and proves properties about them:

- **The upload schema** (`Schemas`). It decides when an upload is acceptable, sets out the rules each file must pass, and says which message is filed under which form field.
- **The server actions** (`Actions`):
  - ingestion of an uploaded file: word-processing text extraction, UTF-8 decoding, or a base64 `data:` URI;
  - the choice of the job-description source;
  - the derivation of the resume text that gets scored;
  - how failures map to replies, for the analysis and for the re-scoring.
- **The dashboard** (`Dashboard`):
  - its state cells, as a class whose methods add a skill and apply a re-scoring reply;
  - the skills tables' Add buttons and the enabling of the updated-resume download;
  - the plain-text report.

The collaborators the actions call are not modelled; they become an `Actions.Oracles` value of function-typed fields, so every property holds for every behaviour they may have. These are the AI flows (resume and job-description parsing, scoring, re-scoring), the word-processing text extractor, and UTF-8 and base64 encoding. A call that can throw returns an `Outcome`, either `Ok(value)` or `Thrown(message)`.

Supporting modules:

- `Outcomes`: `Option` and `Outcome`.
- `Text`: the JavaScript string operations the code relies on, with their laws. These are `startsWith`, `join`, `split('/')` (as `UpTo`) and integer rendering in template literals. `Lines` models `split('\n')`, which the code does not call, so that the line layout of the rebuilt resume and of the report can be stated.
- `Types`: the records passed between the pieces.

Two behaviours of the code worth knowing:

- Scores are not checked against the 0–100 range. Scoring output reaches the result unchanged.
- When the job-description file entry is present (truthy), it is used even if it is empty and text was pasted.

## Model

| member | source | states |
|---|---|---|
| Schemas.Subtypes | src/lib/schemas.ts:12 | each entry is the part after `/` of the corresponding media type |
| Schemas.SubtypeOfMediaType | src/lib/schemas.ts:12 | `split('/')[1]` of `a/b` is `b` when `b` holds no `/` |
| Schemas.ResumeSubtypes | src/lib/schemas.ts:4 | the accepted resume types' subtypes are `pdf`, the docx subtype and `plain`, in list order |
| Schemas.ResumeTypeMessageText | src/lib/schemas.ts:12 | the resume type message (`AcceptedTypesMessage` of the resume types) is "Accepted file types: " followed by those subtypes joined by ", " |
| Schemas.JobDescriptionTypeMessageText | src/lib/schemas.ts:26 | the job-description type message lists the five accepted media types in full, joined by ", " |
| Schemas.ImagesOnlyForJobDescriptions | src/lib/schemas.ts:4-5 | JPEG and PNG are accepted for a job description and not for a resume |
| Schemas.FileMessages | src/lib/schemas.ts:7-13 | "File is required." iff the entry is not a non-empty file; the size message iff larger than 10 MB; the type message iff the type is not accepted; no other message; no message iff all three checks pass |
| Schemas.ResumeSizeLimit | src/lib/schemas.ts:3-9 | a non-empty resume of an accepted type passes iff its size is at most 10485760 bytes, so the limit is inclusive |
| Schemas.EmptyResumeRefused | src/lib/schemas.ts:7-8 | a zero-size resume is rejected, with "File is required." on `resume` |
| Schemas.JobDescriptionFileMessages | src/lib/schemas.ts:20-37 | the type and size messages are each reported iff the entry is a non-empty file failing that check; nothing is reported for an absent, string or empty entry |
| Schemas.OnField | src/lib/schemas.ts:27 | every message of a check is filed under that check's path, in order |
| Schemas.FieldErrors | src/app/actions.ts:40 | the map has a key exactly for each field with an issue, holding that field's messages in order |
| Schemas.Validate | src/lib/schemas.ts:15-41 | accepted iff the upload rules hold (resume a non-empty accepted file ≤ 10 MB; a non-empty job-description file accepted and ≤ 10 MB; text or a non-empty file present, both allowed); accepted data is the input unchanged; a rejection has at least one field error |
| Schemas.ErrorsAreIssueMessages | src/lib/schemas.ts:15-41 | a field's reported errors are exactly the messages of the failed checks filed under it |
| Schemas.ErrorsOnDecompose | src/lib/schemas.ts:15-41 | a field's errors are the resume checks', then the job-description file checks', then the presence rule's, each contributing only on its own field |
| Schemas.ErrorsByField | src/lib/schemas.ts:15-41 | `resume` gets the file checks' messages; `jobDescriptionFile` gets its two refinements' messages; `jobDescriptionText` gets the presence message iff neither text nor a non-empty file is given; no other field gets errors |
| Actions.FileToTextOrDataUri | src/app/actions.ts:11-25 | the docx type goes to text extraction, checked before the `text/` prefix; other `text/` types are UTF-8 decoded; every other type becomes `data:<type>;base64,<payload>`; only the docx branch can fail |
| Actions.DataUriShape | src/app/actions.ts:24 | a `DataUri` starts with "data:" and carries the media type verbatim at offset 5, for every type and payload |
| Actions.DataUriRoundTrip | src/app/actions.ts:24 | a `DataUri` whose media type holds no `;` parses back to the same type and payload |
| Actions.IngestionOfAcceptedTypes | src/app/actions.ts:14-24 | docx is extracted, `text/plain` is decoded, and PDF, JPEG and PNG become data URIs |
| Actions.SchemaInput | src/app/actions.ts:31-35 | the schema sees the entries as submitted, except that empty pasted text becomes absent |
| Actions.JobDescriptionContent | src/app/actions.ts:48-50 | a file entry is ingested whenever it is truthy, whatever its size; a non-empty string under the file name throws; otherwise the pasted text is used unchanged and is non-empty |
| Actions.RawResumeText | src/app/actions.ts:62-64 | the resume content is kept verbatim unless it starts with "data:", in which case it is rebuilt from the parsed fields |
| Actions.ReconstructedResumeTemplate | src/app/actions.ts:63 | `ReconstructedResume` is the code's template literal: name, email and phone separated by line breaks, then "\n\nExperience:\n", the entries joined by "\n\n", "\n\nEducation:\n", the entries likewise, "\n\nSkills:\n" and the skills joined by ", ", for every parsed resume |
| Actions.ReconstructedResumeText | src/app/actions.ts:63 | for single-line fields, the lines of `ReconstructedResume` are name, email, phone, blank, "Experience:", the entries separated by blank lines, blank, "Education:", the entries likewise, blank, "Skills:", the skills joined by ", " |
| Actions.RunAnalysis | src/app/actions.ts:46-80 | on success, the parses are the parser outputs for the ingested contents, `rawResume` is the derived text, and the score is the scorer's output for that text and the job description's extracted text |
| Actions.RunAnalysisOutcome | src/app/actions.ts:46-80 | the analysis fails with the message of the first stage that throws, and otherwise returns exactly the assembled result |
| Actions.ErrorText | src/app/actions.ts:84 | the thrown message if non-empty, the fallback text otherwise; never empty |
| Actions.AnalyzeResumeAction | src/app/actions.ts:27-87 | a rejected form gets the fixed message and the field errors; an accepted one the analysis result, or the error text of what was thrown; never both error and result, always one, and an error is non-empty |
| Actions.EmbeddedResumeIsRebuilt | src/app/actions.ts:62-71 | a PDF resume is scored, and kept, as the text rebuilt from its parsed fields |
| Actions.TextResumeIsVerbatim | src/app/actions.ts:62-71 | a plain-text resume is scored, and kept, as decoded, unless the decoded text starts with "data:" |
| Actions.RescoreResumeAction | src/app/actions.ts:89-107 | empty input gives "Missing data for re-scoring." and the scorer's result is not used; a throw gives "Failed to re-score resume."; success gives the score; exactly one of error and score is set |
| Dashboard.MarkersAppend | src/components/dashboard.tsx:89-91 | the markers of skills added in two runs are those of the first run followed by those of the second |
| Dashboard.MarkersAround | src/components/dashboard.tsx:89-91 | each skill's marker sits after the markers of the skills added before it and before those added after it |
| Dashboard.MarkersLength | src/components/dashboard.tsx:89 | each added skill lengthens the text by the marker head and the skill's name |
| Dashboard.WorkingTextAfterAdds | src/components/dashboard.tsx:89-90 | the resume text is a prefix of the working text, which is 29 characters plus the name longer per added skill |
| Dashboard.ApplyRescoreReply | src/components/dashboard.tsx:95-100 | a truthy error, or a reply without a score, leaves the analysis as it was; otherwise only the score is replaced; resume, job description and resume text never change |
| Dashboard.RescoreOutcome | src/components/dashboard.tsx:94-100 | through the re-scoring action, the score changes to the scorer's output exactly when both texts are non-empty and the scorer succeeds |
| Dashboard.DashboardState.constructor | src/components/dashboard.tsx:72-75 | the shown analysis is the given one, the working text its resume text, no skill added, nothing in flight, so `CanDownloadUpdatedResume` (the `disabled={addedSkills.length === 0}` of dashboard.tsx:205) is false |
| Dashboard.DashboardState.Reset | src/components/dashboard.tsx:78-82 | a new analysis resets the shown analysis, the working text and the added skills, not the in-flight flag; `CanDownloadUpdatedResume` (dashboard.tsx:205) is false again |
| Dashboard.DashboardState.AddSkill | src/components/dashboard.tsx:88-94 | appends the marker and the name, keeping duplicates; the request carries the new working text and the unchanged extracted job-description text; `CanDownloadUpdatedResume` (dashboard.tsx:205) becomes true; the invariant is kept |
| Dashboard.DashboardState.FinishRescore | src/components/dashboard.tsx:95-100 | the reply is applied to the shown analysis; the working text, the added skills and the download enabling are not rolled back; after a scored reply without a truthy error the report's fifth and sixth lines show the new overall and ATS scores; the report's document half stays that of the analysis before; a failed reply leaves the report unchanged |
| Dashboard.DashboardState.HandleAddSkill | src/components/dashboard.tsx:88-102 | adding a skill and awaiting its re-scoring: text and list extended, the analysis changed only as the reply dictates, `CanDownloadUpdatedResume` (dashboard.tsx:205) true, the invariant kept |
| Dashboard.DashboardState.ReportContent | src/components/dashboard.tsx:105-137 | the downloaded report's lines are the scoring half of the shown score followed by the document half of the shown resume and requirements; lines five and six show the shown overall and ATS scores |
| Dashboard.SkillRows | src/components/dashboard.tsx:40-64 | one row per skill, in order; Add is offered iff the resume lacks the skill, and is enabled iff no re-scoring is in flight |
| Dashboard.EnabledAddButtons | src/components/dashboard.tsx:51-56 | an enabled Add button appears exactly on the skills the resume lacks, and only while nothing is in flight |
| Dashboard.SkillLines | src/components/dashboard.tsx:118 | one `name: ✓`/`name: ✗` line per skill, in order |
| Dashboard.ReportHalves | src/components/dashboard.tsx:105-137 | the lines of `Report` are those of its scoring pieces followed by those of its document pieces, whatever line breaks the fields hold |
| Dashboard.ReportScoreLines | src/components/dashboard.tsx:109-110 | lines five and six of `Report` are "Overall Score: n/100" and "ATS Friendliness: m/100" for the analysis's scores, whatever the other fields hold |
| Dashboard.ReportText | src/components/dashboard.tsx:105-137 | for single-line fields, the lines of `Report` are the fixed headings and underlines, the two scores, the breakdown's own lines, one line per primary and per secondary skill, the name and contact lines, one `- ` line per experience, education and requirement entry, and the skills joined by ", " |
| Text.NatToStringDenotes | src/components/dashboard.tsx:109-110 | a rendered non-negative score is a canonical decimal numeral (digits only, no leading zero unless it is "0") denoting the number |
| Text.CanonicalDigitsUnique | src/components/dashboard.tsx:109-110 | two canonical numerals with the same value are equal, so with `NatToStringDenotes` the rendering is the one canonical numeral of its number |
| Text.IntToStringDenotes | src/components/dashboard.tsx:109-110 | a rendered score starts with `-` exactly when it is negative, and the rest is the canonical numeral of its magnitude |
| Text.LinesOfJoinedLines | src/components/dashboard.tsx:118 | joining single-line strings with line breaks and splitting again gives back exactly those strings |
| Text.LinesOfParagraphs | src/app/actions.ts:63 | joining single-line entries with blank lines puts each on its own line, with an empty line between neighbours |

## Left out

- Schemas.FileMessages, Schemas.ErrorsByField: every check is evaluated on its own. In the schema library, a `resume` entry that fails `instanceof File` is a fatal issue: parsing stops, the object-level refinements (src/lib/schemas.ts:20-41) never run, and only the resume's message is reported. The model still files the job-description type, size and presence messages in that case, so `ErrorsByField` then reports a superset of the library's messages. The verdict is the same, and the library's issue order is not modelled.
- A `File` submitted under the `jobDescriptionText` name is not modelled; that entry is text or absent.
- Failure of reading a file's bytes (`arrayBuffer`) is not modelled.
- The `console.error` logging in both actions' error handlers (`src/app/actions.ts:82`, `src/app/actions.ts:105`) is console I/O and is left out.
- Actions.RunAnalysis: both pairs of concurrent calls are modelled sequentially, resume first. When both sides of a pair fail, the model reports the resume's error, whereas at run time the first rejection wins.
- React scheduling is not modelled: transitions, stale closures, and clicks faster than a re-render. `HandleAddSkill` awaits its re-scoring in place.
- Scores are unbounded integers. Non-integral numbers fall outside the model. So do two limits of JavaScript numbers: `${n}` switches to exponent form (`1e+21`) at |n| ≥ 10²¹, where `IntToString` keeps printing digits, and above 2⁵³ not every integer is a JavaScript number. These affect only the report's score lines, and only for absurd scores.
- Strings are sequences of Unicode scalar values, not UTF-16 code units, so lengths of text with astral characters differ.
- The AI flows, the word-processing extractor, and UTF-8 and base64 encoding are arbitrary functions passed in. Their prompts and internals are not part of this model.
- The file download, Blob and DOM handling, PDF rendering of the updated resume, and toast notifications are browser I/O and are left out.
- The presentation components and the score dial's animation are left out. The dial uses floating point.
- The duplicate re-scoring flow in `src/ai/flows/rescore-resume.ts` is not used by the actions and is not part of this model.
