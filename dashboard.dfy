/** The dashboard shown after an analysis: its state cells and the way
    adding a missing skill and re-scoring update them, the skills tables'
    Add buttons, the enabling of the updated-resume download, and the
    plain-text report. */
module Dashboard {
  import opened Outcomes
  import opened Text
  import opened Types
  import Actions

  // ---------------------------------------------------------------------
  // Added-skill markers

  /** What adding a skill appends to the working resume text, before the
      skill's name. */
  const MARKER_HEAD := "\n\n# Added by Clyptus Rank:\n- "

  function SkillMarker(skillName: string): string {
    MARKER_HEAD + skillName
  }

  /** The markers of the given skills, in the order they were added. */
  function Markers(skills: seq<string>): string {
    if skills == [] then "" else Markers(skills[..|skills| - 1]) + SkillMarker(skills[|skills| - 1])
  }

  /** The total number of characters in the names. */
  function TotalLength(names: seq<string>): nat {
    if names == [] then 0 else |names[0]| + TotalLength(names[1..])
  }

  lemma MarkersSnoc(skills: seq<string>, skillName: string)
    ensures Markers(skills + [skillName]) == Markers(skills) + SkillMarker(skillName)
  {
    assert (skills + [skillName])[..|skills|] == skills;
  }

  /** Adding skills one list after the other appends their markers one
      after the other. */
  lemma {:induction false} MarkersAppend(xs: seq<string>, ys: seq<string>)
    ensures Markers(xs + ys) == Markers(xs) + Markers(ys)
    decreases |ys|
  {
    if ys == [] {
      assert xs + ys == xs;
    } else {
      var init := ys[..|ys| - 1];
      var last := ys[|ys| - 1];
      assert ys == init + [last];
      assert xs + ys == (xs + init) + [last];
      MarkersSnoc(xs + init, last);
      MarkersAppend(xs, init);
      MarkersSnoc(init, last);
    }
  }

  /** The order of the markers is the order the skills were added in: a
      skill's marker sits between the markers of the skills added before
      it and those of the skills added after it. */
  lemma MarkersAround(before: seq<string>, skillName: string, after: seq<string>)
    ensures Markers(before + [skillName] + after) == Markers(before) + SkillMarker(skillName) + Markers(after)
  {
    MarkersAppend(before + [skillName], after);
    MarkersSnoc(before, skillName);
  }

  lemma {:induction false} TotalLengthSnoc(names: seq<string>, name: string)
    ensures TotalLength(names + [name]) == TotalLength(names) + |name|
    decreases |names|
  {
    if names != [] {
      assert (names + [name])[1..] == names[1..] + [name];
      TotalLengthSnoc(names[1..], name);
    }
  }

  /** Each added skill lengthens the markers by the fixed head and the
      skill's name. */
  lemma {:induction false} MarkersLength(skills: seq<string>)
    ensures |Markers(skills)| == 29 * |skills| + TotalLength(skills)
    decreases |skills|
  {
    MarkerHeadLength();
    if skills != [] {
      var init := skills[..|skills| - 1];
      assert skills == init + [skills[|skills| - 1]];
      MarkersLength(init);
      TotalLengthSnoc(init, skills[|skills| - 1]);
    }
  }

  lemma MarkerHeadLength()
    ensures |MARKER_HEAD| == 29
  {
  }

  /** The working text after adding skills to a resume text keeps that
      text as its prefix and grows by 29 characters plus the name for each
      skill. */
  lemma WorkingTextAfterAdds(rawResume: string, skills: seq<string>)
    ensures StartsWith(rawResume + Markers(skills), rawResume)
    ensures |rawResume + Markers(skills)| == |rawResume| + 29 * |skills| + TotalLength(skills)
  {
    MarkersLength(skills);
    assert (rawResume + Markers(skills))[..|rawResume|] == rawResume;
  }

  // ---------------------------------------------------------------------
  // The outcome of a re-scoring

  /** The current analysis after a re-scoring reply: a truthy error, or a
      reply without a score, leaves it as it was; otherwise only its score
      is replaced. */
  function ApplyRescoreReply(current: AnalysisResult, reply: Actions.RescoreReply): (next: AnalysisResult)
    ensures next.resume == current.resume && next.jd == current.jd && next.rawResume == current.rawResume
    ensures (reply.error.Some? && reply.error.value != "") || reply.score.None? ==> next == current
    ensures !(reply.error.Some? && reply.error.value != "") && reply.score.Some? ==> next.score == reply.score.value
  {
    if reply.error.Some? && reply.error.value != "" then current
    else if reply.score.Some? then current.(score := reply.score.value)
    else current
  }

  /** Re-scoring through the action changes the score to the scorer's
      output exactly when both texts are non-empty and the scorer
      succeeds; in every other case the analysis stays as it was. */
  lemma RescoreOutcome(o: Actions.Oracles, current: AnalysisResult, resumeText: string, jobDescriptionText: string)
    ensures var next := ApplyRescoreReply(current, Actions.RescoreResumeAction(o, resumeText, jobDescriptionText));
            var scored := o.rescoreResume(resumeText, jobDescriptionText);
            if resumeText != "" && jobDescriptionText != "" && scored.Ok? then next == current.(score := scored.value)
            else next == current
  {
  }

  // ---------------------------------------------------------------------
  // The dashboard's state

  /** The state cells of one dashboard: the analysis it was given, the
      analysis as currently shown, the working resume text, the skills
      added so far and whether a re-scoring is in flight. */
  class DashboardState {
    var analysis: AnalysisResult
    var currentAnalysis: AnalysisResult
    var updatedResumeText: string
    var addedSkills: seq<string>
    var isRescoring: bool

    /** The shown analysis differs from the given one in its score at most,
        and the working text is the given resume text followed by one
        marker per added skill, in order. */
    ghost predicate Valid()
      reads this
    {
      && currentAnalysis.resume == analysis.resume
      && currentAnalysis.jd == analysis.jd
      && currentAnalysis.rawResume == analysis.rawResume
      && updatedResumeText == analysis.rawResume + Markers(addedSkills)
    }

    constructor (analysis: AnalysisResult)
      ensures this.analysis == analysis && currentAnalysis == analysis
      ensures updatedResumeText == analysis.rawResume && addedSkills == []
      ensures !isRescoring && !CanDownloadUpdatedResume()
      ensures Valid()
    {
      this.analysis := analysis;
      currentAnalysis := analysis;
      updatedResumeText := analysis.rawResume;
      addedSkills := [];
      isRescoring := false;
    }

    /** The effect that runs when a new analysis arrives. */
    method Reset(analysis: AnalysisResult)
      modifies this
      ensures this.analysis == analysis && currentAnalysis == analysis
      ensures updatedResumeText == analysis.rawResume && addedSkills == []
      ensures isRescoring == old(isRescoring)
      ensures !CanDownloadUpdatedResume()
      ensures Valid()
    {
      this.analysis := analysis;
      currentAnalysis := analysis;
      updatedResumeText := analysis.rawResume;
      addedSkills := [];
    }

    /** The synchronous part of adding a skill: the marker is appended to
        the working text, the skill to the list (duplicates included), and
        a re-scoring starts with the new text and the job description's
        extracted text. */
    method AddSkill(skillName: string) returns (resumeText: string, jobDescriptionText: string)
      requires Valid()
      modifies this
      ensures updatedResumeText == old(updatedResumeText) + SkillMarker(skillName)
      ensures addedSkills == old(addedSkills) + [skillName]
      ensures analysis == old(analysis) && currentAnalysis == old(currentAnalysis)
      ensures isRescoring && CanDownloadUpdatedResume()
      ensures resumeText == updatedResumeText
      ensures jobDescriptionText == analysis.jd.extractedText
      ensures Valid()
    {
      resumeText := updatedResumeText + SkillMarker(skillName);
      updatedResumeText := resumeText;
      MarkersSnoc(addedSkills, skillName);
      addedSkills := addedSkills + [skillName];
      isRescoring := true;
      jobDescriptionText := currentAnalysis.jd.extractedText;
    }

    /** The end of a re-scoring: the reply is applied to the shown analysis;
        the working text and the added skills are kept whatever the reply.
        A scored reply without a truthy error puts its scores on the
        report's score lines; the report's document half never changes, and
        a failed reply leaves the whole report as it was. */
    method FinishRescore(reply: Actions.RescoreReply)
      requires Valid()
      modifies this
      ensures currentAnalysis == ApplyRescoreReply(old(currentAnalysis), reply)
      ensures analysis == old(analysis)
      ensures updatedResumeText == old(updatedResumeText) && addedSkills == old(addedSkills)
      ensures !isRescoring && CanDownloadUpdatedResume() == old(CanDownloadUpdatedResume())
      ensures Lines(ReportContent()) == FlatLines(ScorePieces(currentAnalysis.score))
                + FlatLines(DetailsPieces(old(currentAnalysis).resume, old(currentAnalysis).jd.requirements))
      ensures !(reply.error.Some? && reply.error.value != "") && reply.score.Some? ==>
                && Lines(ReportContent())[4] == "Overall Score: " + IntToString(reply.score.value.score) + "/100"
                && Lines(ReportContent())[5] == "ATS Friendliness: " + IntToString(reply.score.value.atsScore) + "/100"
      ensures (reply.error.Some? && reply.error.value != "") || reply.score.None? ==>
                ReportContent() == old(ReportContent())
      ensures Valid()
    {
      currentAnalysis := ApplyRescoreReply(currentAnalysis, reply);
      isRescoring := false;
    }

    /** `handleAddSkill`, with the re-scoring awaited in place. */
    method HandleAddSkill(o: Actions.Oracles, skillName: string)
      requires Valid()
      modifies this
      ensures updatedResumeText == old(updatedResumeText) + SkillMarker(skillName)
      ensures addedSkills == old(addedSkills) + [skillName]
      ensures analysis == old(analysis)
      ensures currentAnalysis == ApplyRescoreReply(old(currentAnalysis),
                Actions.RescoreResumeAction(o, updatedResumeText, analysis.jd.extractedText))
      ensures !isRescoring && CanDownloadUpdatedResume()
      ensures Valid()
    {
      var resumeText, jobDescriptionText := AddSkill(skillName);
      var reply := Actions.RescoreResumeAction(o, resumeText, jobDescriptionText);
      FinishRescore(reply);
    }

    /** "Download Updated Resume" is enabled once a skill has been added. */
    function CanDownloadUpdatedResume(): bool
      reads this
    {
      addedSkills != []
    }

    /** The report of the analysis as currently shown: its lines are the
        scoring half of the shown score and the document half of the shown
        resume and requirements, with the two scores on lines five and six. */
    function ReportContent(): (report: string)
      reads this
      ensures Lines(report) == FlatLines(ScorePieces(currentAnalysis.score))
                + FlatLines(DetailsPieces(currentAnalysis.resume, currentAnalysis.jd.requirements))
      ensures |Lines(report)| >= 9
      ensures Lines(report)[4] == "Overall Score: " + IntToString(currentAnalysis.score.score) + "/100"
      ensures Lines(report)[5] == "ATS Friendliness: " + IntToString(currentAnalysis.score.atsScore) + "/100"
    {
      ReportHalves(currentAnalysis);
      ReportScoreLines(currentAnalysis);
      Report(currentAnalysis)
    }
  }

  // ---------------------------------------------------------------------
  // The skills tables

  /** The Action cell of a skills row: no button, or an Add button that is
      enabled or not. */
  datatype AddControl = NoButton | AddButton(enabled: bool)

  datatype SkillRow = SkillRow(name: string, inResume: bool, add: AddControl)

  /** The rows of a skills table: one per skill, in order; Add is offered
      for exactly the skills the resume lacks and is enabled exactly while
      no re-scoring is in flight. */
  function SkillRows(skills: seq<SkillAssessment>, isRescoring: bool): (rows: seq<SkillRow>)
    ensures |rows| == |skills|
    ensures forall i :: 0 <= i < |skills| ==>
              && rows[i].name == skills[i].name
              && rows[i].inResume == skills[i].hasSkill
              && (rows[i].add.AddButton? <==> !skills[i].hasSkill)
              && (rows[i].add.AddButton? ==> (rows[i].add.enabled <==> !isRescoring))
  {
    if skills == [] then []
    else
      var s := skills[0];
      [SkillRow(s.name, s.hasSkill, if s.hasSkill then NoButton else AddButton(!isRescoring))]
      + SkillRows(skills[1..], isRescoring)
  }

  /** While a re-scoring is in flight no Add button in a table is enabled;
      otherwise the skills with an enabled Add button are exactly the ones
      the resume lacks. */
  lemma EnabledAddButtons(skills: seq<SkillAssessment>, isRescoring: bool)
    ensures var rows := SkillRows(skills, isRescoring);
            forall i :: 0 <= i < |skills| ==>
              (rows[i].add == AddButton(true) <==> !isRescoring && !skills[i].hasSkill)
  {
  }

  // ---------------------------------------------------------------------
  // The plain-text report

  const REPORT_TITLE := "Clyptus Rank Analysis Report"
  const BREAKDOWN_HEADING := "AI Breakdown:"
  const PRIMARY_HEADING := "Primary Skills Match:"
  const SECONDARY_HEADING := "Secondary Skills Match:"
  const DETAILS_HEADING := "Extracted Resume Details:"
  const REQUIREMENTS_HEADING := "Job Description Requirements:"
  const CHECK_MARK := "\U{2713}"
  const CROSS_MARK := "\U{2717}"

  /** A line of `n` copies of `c`, underlining a heading. */
  function Rule(c: char, n: nat): (r: string)
    ensures |r| == n && forall i :: 0 <= i < n ==> r[i] == c
  {
    seq(n, _ => c)
  }

  /** `${name}: ✓` for a skill the resume has, `${name}: ✗` otherwise. */
  function SkillLine(s: SkillAssessment): string {
    s.name + ": " + (if s.hasSkill then CHECK_MARK else CROSS_MARK)
  }

  function SkillLines(skills: seq<SkillAssessment>): (lines: seq<string>)
    ensures |lines| == |skills|
    ensures forall i :: 0 <= i < |skills| ==> lines[i] == SkillLine(skills[i])
  {
    if skills == [] then [] else [SkillLine(skills[0])] + SkillLines(skills[1..])
  }

  /** The report's lines before the breakdown. */
  function ReportHead(sc: ScoreOutput): seq<string> {
    ["", REPORT_TITLE, Rule('=', 29), "",
     "Overall Score: " + IntToString(sc.score) + "/100",
     "ATS Friendliness: " + IntToString(sc.atsScore) + "/100",
     "", BREAKDOWN_HEADING, Rule('-', 16)]
  }

  function PrimaryHead(): seq<string> {
    ["", PRIMARY_HEADING, Rule('-', 21)]
  }

  function SecondaryHead(): seq<string> {
    ["", SECONDARY_HEADING, Rule('-', 23)]
  }

  function DetailsHead(r: ParsedResume): seq<string> {
    ["", DETAILS_HEADING, Rule('-', 25),
     "Name: " + r.name,
     "Contact: " + r.email + " | " + r.phone,
     "Experience:"]
  }

  function RequirementsHead(r: ParsedResume): seq<string> {
    ["Skills: " + Join(r.skills, ", "), "", REQUIREMENTS_HEADING, Rule('-', 29)]
  }

  /** The pieces `handleDownloadReport` puts on the report's lines; a list
      section is its entries joined by line breaks, so one piece. The
      first half shows the scoring, the second the parsed documents. */
  function ScorePieces(sc: ScoreOutput): seq<string> {
    ReportHead(sc) + [sc.breakdown]
    + PrimaryHead() + [Join(SkillLines(sc.primarySkills), "\n")]
    + SecondaryHead() + [Join(SkillLines(sc.secondarySkills), "\n")]
  }

  function DetailsPieces(r: ParsedResume, requirements: seq<string>): seq<string> {
    DetailsHead(r) + [Join(PrefixAll("- ", r.experience), "\n")]
    + ["Education:"] + [Join(PrefixAll("- ", r.education), "\n")]
    + RequirementsHead(r) + [Join(PrefixAll("- ", requirements), "\n")]
    + [""]
  }

  function ReportPieces(a: AnalysisResult): seq<string> {
    ScorePieces(a.score) + DetailsPieces(a.resume, a.jd.requirements)
  }

  /** `handleDownloadReport`'s text for an analysis. */
  function Report(a: AnalysisResult): string {
    Join(ReportPieces(a), "\n")
  }

  /** What the report shows, line by line: the breakdown as it is; one line
      per primary and per secondary skill, in order, with its mark; one
      `- ` line per experience, education and requirement entry; an empty
      list leaves one empty line. */
  function ReportLines(a: AnalysisResult): seq<string> {
    ScoreLines(a.score) + DetailsLines(a.resume, a.jd.requirements)
  }

  function ScoreLines(sc: ScoreOutput): seq<string> {
    ReportHead(sc) + Lines(sc.breakdown)
    + PrimaryHead() + ListLines(SkillLines(sc.primarySkills))
    + SecondaryHead() + ListLines(SkillLines(sc.secondarySkills))
  }

  function DetailsLines(r: ParsedResume, requirements: seq<string>): seq<string> {
    DetailsHead(r) + ListLines(PrefixAll("- ", r.experience))
    + ["Education:"] + ListLines(PrefixAll("- ", r.education))
    + RequirementsHead(r) + ListLines(PrefixAll("- ", requirements))
    + [""]
  }

  /** The fields the report shows hold no line breaks (the breakdown
      may). */
  predicate ReportFieldsSingleLine(a: AnalysisResult) {
    && SingleLine(a.resume.name) && SingleLine(a.resume.email) && SingleLine(a.resume.phone)
    && AllSingleLine(a.resume.experience) && AllSingleLine(a.resume.education)
    && AllSingleLine(a.resume.skills) && AllSingleLine(a.jd.requirements)
    && SkillNamesSingleLine(a.score.primarySkills) && SkillNamesSingleLine(a.score.secondarySkills)
  }

  predicate SkillNamesSingleLine(skills: seq<SkillAssessment>) {
    forall i :: 0 <= i < |skills| ==> SingleLine(skills[i].name)
  }

  /** Splitting three runs of line-broken pieces, each followed by one
      variable piece. */
  lemma FlatLinesOfScorePieces(c0: seq<string>, x0: string, c1: seq<string>, x1: string, c2: seq<string>, x2: string)
    ensures FlatLines(c0 + [x0] + c1 + [x1] + c2 + [x2])
         == FlatLines(c0) + Lines(x0) + FlatLines(c1) + Lines(x1) + FlatLines(c2) + Lines(x2)
  {
    var q1 := c0 + [x0];
    var q2 := q1 + c1;
    var q3 := q2 + [x1];
    var q4 := q3 + c2;
    FlatLinesAppend(c0, [x0]);
    FlatLinesAppend(q1, c1);
    FlatLinesAppend(q2, [x1]);
    FlatLinesAppend(q3, c2);
    FlatLinesAppend(q4, [x2]);
    FlatLinesOfOne(x0);
    FlatLinesOfOne(x1);
    FlatLinesOfOne(x2);
  }

  /** The same with a closing run of line-broken pieces. */
  lemma FlatLinesOfDetailsPieces(c3: seq<string>, x3: string, c4: seq<string>, x4: string, c5: seq<string>, x5: string, c6: seq<string>)
    ensures FlatLines(c3 + [x3] + c4 + [x4] + c5 + [x5] + c6)
         == FlatLines(c3) + Lines(x3) + FlatLines(c4) + Lines(x4) + FlatLines(c5) + Lines(x5) + FlatLines(c6)
  {
    FlatLinesOfScorePieces(c3, x3, c4, x4, c5, x5);
    FlatLinesAppend(c3 + [x3] + c4 + [x4] + c5 + [x5], c6);
  }

  lemma RuleSingleLine(c: char, n: nat)
    requires c != '\n'
    ensures SingleLine(Rule(c, n))
  {
  }

  lemma ReportHeadingsSingleLine()
    ensures SingleLine(REPORT_TITLE) && SingleLine(BREAKDOWN_HEADING) && SingleLine(PRIMARY_HEADING)
    ensures SingleLine(SECONDARY_HEADING) && SingleLine(DETAILS_HEADING) && SingleLine(REQUIREMENTS_HEADING)
  {
    HeadingSingleLine(REPORT_TITLE);
    HeadingSingleLine(BREAKDOWN_HEADING);
    HeadingSingleLine(PRIMARY_HEADING);
    HeadingSingleLine(SECONDARY_HEADING);
    HeadingSingleLine(DETAILS_HEADING);
    HeadingSingleLine(REQUIREMENTS_HEADING);
  }

  lemma HeadingSingleLine(h: string)
    requires h in {REPORT_TITLE, BREAKDOWN_HEADING, PRIMARY_HEADING, SECONDARY_HEADING, DETAILS_HEADING, REQUIREMENTS_HEADING}
    ensures SingleLine(h)
  {
  }

  lemma SkillLineSingleLine(s: SkillAssessment)
    requires SingleLine(s.name)
    ensures SingleLine(SkillLine(s))
  {
    var mark := if s.hasSkill then CHECK_MARK else CROSS_MARK;
    assert SingleLine(mark);
    SingleLineConcat(s.name, ": ");
    SingleLineConcat(s.name + ": ", mark);
  }

  lemma ScoreLineSingleLine(caption: string, n: int)
    requires SingleLine(caption)
    ensures SingleLine(caption + IntToString(n) + "/100")
  {
    IntToStringSingleLine(n);
    SingleLineConcat(caption, IntToString(n));
    SingleLineConcat(caption + IntToString(n), "/100");
  }

  lemma ReportHeadSingleLine(sc: ScoreOutput)
    ensures AllSingleLine(ReportHead(sc))
  {
    ReportHeadingsSingleLine();
    RuleSingleLine('=', 29);
    RuleSingleLine('-', 16);
    ScoreLineSingleLine("Overall Score: ", sc.score);
    ScoreLineSingleLine("ATS Friendliness: ", sc.atsScore);
  }

  lemma SectionHeadsSingleLine()
    ensures AllSingleLine(PrimaryHead()) && AllSingleLine(SecondaryHead()) && AllSingleLine(["Education:"]) && AllSingleLine([""])
  {
    ReportHeadingsSingleLine();
    RuleSingleLine('-', 21);
    RuleSingleLine('-', 23);
  }

  lemma DetailsHeadSingleLine(r: ParsedResume)
    requires SingleLine(r.name) && SingleLine(r.email) && SingleLine(r.phone)
    ensures AllSingleLine(DetailsHead(r))
  {
    ReportHeadingsSingleLine();
    RuleSingleLine('-', 25);
    SingleLineConcat("Name: ", r.name);
    SingleLineConcat("Contact: ", r.email);
    SingleLineConcat("Contact: " + r.email, " | ");
    SingleLineConcat("Contact: " + r.email + " | ", r.phone);
  }

  lemma RequirementsHeadSingleLine(r: ParsedResume)
    requires AllSingleLine(r.skills)
    ensures AllSingleLine(RequirementsHead(r))
  {
    ReportHeadingsSingleLine();
    RuleSingleLine('-', 29);
    JoinSingleLine(r.skills, ", ");
    SingleLineConcat("Skills: ", Join(r.skills, ", "));
  }

  lemma SkillLinesSingleLine(skills: seq<SkillAssessment>)
    requires SkillNamesSingleLine(skills)
    ensures AllSingleLine(SkillLines(skills))
  {
    forall i | 0 <= i < |skills| ensures SingleLine(SkillLines(skills)[i]) {
      SkillLineSingleLine(skills[i]);
    }
  }

  lemma BulletsSingleLine(xs: seq<string>)
    requires AllSingleLine(xs)
    ensures AllSingleLine(PrefixAll("- ", xs))
  {
    forall i | 0 <= i < |xs| ensures SingleLine(PrefixAll("- ", xs)[i]) {
      SingleLineConcat("- ", xs[i]);
    }
  }

  /** The report's lines are those of its scoring half followed by those of
      its document half, whatever line breaks the fields hold: a re-scoring,
      which replaces only the score, leaves the second half as it was. */
  lemma ReportHalves(a: AnalysisResult)
    ensures Lines(Report(a)) == FlatLines(ScorePieces(a.score)) + FlatLines(DetailsPieces(a.resume, a.jd.requirements))
  {
    LinesOfJoin(ReportPieces(a));
    FlatLinesAppend(ScorePieces(a.score), DetailsPieces(a.resume, a.jd.requirements));
  }

  /** The scoring half's lines start with the nine lines of its head,
      whatever the breakdown holds. */
  lemma ScoreLinesStartWithHead(sc: ScoreOutput)
    ensures FlatLines(ScorePieces(sc)) == ReportHead(sc) + FlatLines(ScorePieces(sc)[9..])
  {
    var head := ReportHead(sc);
    var rest := ScorePieces(sc)[9..];
    assert ScorePieces(sc) == head + rest;
    FlatLinesAppend(head, rest);
    ReportHeadSingleLine(sc);
    FlatLinesOfSingleLines(head);
  }

  /** Lines five and six of the report show the overall and the ATS score,
      whatever the breakdown and the other fields hold. */
  lemma ReportScoreLines(a: AnalysisResult)
    ensures |Lines(Report(a))| >= 9
    ensures Lines(Report(a))[4] == "Overall Score: " + IntToString(a.score.score) + "/100"
    ensures Lines(Report(a))[5] == "ATS Friendliness: " + IntToString(a.score.atsScore) + "/100"
  {
    ReportHalves(a);
    ScoreLinesStartWithHead(a.score);
    var head := ReportHead(a.score);
    assert |head| == 9 && head[4] == "Overall Score: " + IntToString(a.score.score) + "/100";
    assert head[5] == "ATS Friendliness: " + IntToString(a.score.atsScore) + "/100";
  }

  lemma ScoreText(sc: ScoreOutput)
    requires SkillNamesSingleLine(sc.primarySkills) && SkillNamesSingleLine(sc.secondarySkills)
    ensures FlatLines(ScorePieces(sc)) == ScoreLines(sc)
  {
    var primary := SkillLines(sc.primarySkills);
    var secondary := SkillLines(sc.secondarySkills);
    FlatLinesOfScorePieces(ReportHead(sc), sc.breakdown, PrimaryHead(), Join(primary, "\n"),
      SecondaryHead(), Join(secondary, "\n"));
    ReportHeadSingleLine(sc);
    SectionHeadsSingleLine();
    FlatLinesOfSingleLines(ReportHead(sc));
    FlatLinesOfSingleLines(PrimaryHead());
    FlatLinesOfSingleLines(SecondaryHead());
    SkillLinesSingleLine(sc.primarySkills);
    SkillLinesSingleLine(sc.secondarySkills);
    LinesOfJoinedLines(primary);
    LinesOfJoinedLines(secondary);
  }

  lemma DetailsText(r: ParsedResume, requirements: seq<string>)
    requires SingleLine(r.name) && SingleLine(r.email) && SingleLine(r.phone)
    requires AllSingleLine(r.experience) && AllSingleLine(r.education)
    requires AllSingleLine(r.skills) && AllSingleLine(requirements)
    ensures FlatLines(DetailsPieces(r, requirements)) == DetailsLines(r, requirements)
  {
    var experience := PrefixAll("- ", r.experience);
    var education := PrefixAll("- ", r.education);
    var bullets := PrefixAll("- ", requirements);
    FlatLinesOfDetailsPieces(DetailsHead(r), Join(experience, "\n"), ["Education:"], Join(education, "\n"),
      RequirementsHead(r), Join(bullets, "\n"), [""]);
    SectionHeadsSingleLine();
    DetailsHeadSingleLine(r);
    RequirementsHeadSingleLine(r);
    FlatLinesOfSingleLines(DetailsHead(r));
    FlatLinesOfSingleLines(["Education:"]);
    FlatLinesOfSingleLines(RequirementsHead(r));
    FlatLinesOfSingleLines([""]);
    BulletsSingleLine(r.experience);
    BulletsSingleLine(r.education);
    BulletsSingleLine(requirements);
    LinesOfJoinedLines(experience);
    LinesOfJoinedLines(education);
    LinesOfJoinedLines(bullets);
  }

  /** Splitting the report at line breaks gives exactly its intended
      lines. */
  lemma ReportText(a: AnalysisResult)
    requires ReportFieldsSingleLine(a)
    ensures Lines(Report(a)) == ReportLines(a)
  {
    ReportHalves(a);
    ScoreText(a.score);
    DetailsText(a.resume, a.jd.requirements);
  }
}
