/** The records the analysis passes around: the outputs of the three AI
    flows and the analysis result handed to the dashboard. */
module Types {
  import opened Outcomes

  /** Output of the resume parser (`ParseResumeOutput`). */
  datatype ParsedResume = ParsedResume(
    name: string,
    email: string,
    phone: string,
    experience: seq<string>,
    education: seq<string>,
    skills: seq<string>)

  /** Output of the job-description parser (`ParseJobDescriptionOutput`). */
  datatype ParsedJobDescription = ParsedJobDescription(
    requirements: seq<string>,
    skills: seq<string>,
    extractedText: string)

  /** One row of a skills table: a skill the job asks for and whether the
      resume has it. */
  datatype SkillAssessment = SkillAssessment(name: string, hasSkill: bool)

  /** Output of the scoring flows (`ScoreResumeOutput`). Nothing constrains
      the two scores to 0..100. */
  datatype ScoreOutput = ScoreOutput(
    score: int,
    atsScore: int,
    breakdown: string,
    primarySkills: seq<SkillAssessment>,
    secondarySkills: seq<SkillAssessment>)

  /** `AnalysisResult`: one scoring, the two parses and the resume text that
      was scored. */
  datatype AnalysisResult = AnalysisResult(
    score: ScoreOutput,
    resume: ParsedResume,
    jd: ParsedJobDescription,
    rawResume: string)

  /** `ActionState`: the reply of the analysis action. */
  datatype ActionState = ActionState(
    error: Option<string>,
    result: Option<AnalysisResult>,
    errors: Option<map<string, seq<string>>>)
}
