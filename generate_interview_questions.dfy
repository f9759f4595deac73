/**
 * The interview-question flow: a prompt embedding the resume and the job
 * description; the reply reduced to one `interviewQuestion` string, an object
 * being replaced by its `text`, `content` or `question` member.
 */
module InterviewQuestions {
  import opened Wrappers
  import opened Json
  import opened Errors
  import Reply
  import Template

  datatype Input = Input(resumeText: string, jobDescriptionText: string)

  datatype Output = Output(interviewQuestion: string)

  const Field: string := "interviewQuestion"
  const Aliases: seq<string> := ["text", "content", "question"]

  const Lit0: string :=
    "You are an expert career coach specializing in helping candidates prepare for job interviews.\n" +
    "\n" +
    "You will generate a single, relevant interview question tailored to the job description and the candidate's resume. The goal is to assess the candidate's suitability for the role based on their skills and experience.\n" +
    "\n" +
    "The question should be insightful and drawn from the intersection of the resume and the job description.\n" +
    "\n" +
    "Resume:\n"
  const Lit1: string :=
    "\n" +
    "\n" +
    "Job Description:\n"
  const Lit2: string :=
    "\n" +
    "\n" +
    "Generate the question in JSON format:\n" +
    "{\n" +
    "  \"interviewQuestion\": \"Your generated question here.\"\n" +
    "}\n"

  const Lits: seq<string> := [Lit0, Lit1, Lit2]

  /** The prompt opens with the instructions and embeds the resume, then the job description, verbatim. */
  function Prompt(input: Input): (p: string)
    ensures |p| >= |Lit0| && p[..|Lit0|] == Lit0
    ensures Template.EmbedsInOrder(p, [input.resumeText, input.jobDescriptionText])
  {
    var vals := [input.resumeText, input.jobDescriptionText];
    Template.InterpolateEmbeds(Lits, vals);
    Template.Interpolate(Lits, vals)
  }

  /** The reply handling: empty check, parse, alias coercion of `interviewQuestion`, string check. */
  function Normalize(raw: Option<string>, parse: string -> Option<Json>, stringify: Json -> string): (r: Result<Output, Error>)
    ensures raw == None || raw == Some("") ==> r == Err(EmptyResponse)
    ensures raw.Some? && raw.value != "" && parse(raw.value) == None ==> r == Err(MalformedReply)
    ensures raw.Some? && raw.value != "" && parse(raw.value) == Some(JNull) ==> r == Err(NullProperty(Field))
    ensures forall s :: r == Ok(Output(s)) <==> Reply.AcceptedAs(raw, parse, stringify, Field, Aliases, s)
    ensures r.Err? ==> r.error in {EmptyResponse, MalformedReply, NullProperty(Field), Reply.NotAString(Field)}
  {
    var s :- Reply.NormalizeStringReply(raw, parse, stringify, Field, Aliases);
    Ok(Output(s))
  }

  /** `generateInterviewQuestions`: the reply to the prompt, normalised. */
  function Generate(input: Input, complete: string -> Option<string>, parse: string -> Option<Json>,
                    stringify: Json -> string): (r: Result<Output, Error>)
    ensures r == Normalize(complete(Prompt(input)), parse, stringify)
    ensures complete(Prompt(input)) in {None, Some("")} ==> r == Err(EmptyResponse)
    ensures var raw := complete(Prompt(input));
      raw.Some? && raw.value != "" && parse(raw.value) == None ==> r == Err(MalformedReply)
    ensures forall s :: r == Ok(Output(s)) <==> Reply.AcceptedAs(complete(Prompt(input)), parse, stringify, Field, Aliases, s)
  {
    Normalize(complete(Prompt(input)), parse, stringify)
  }

  /**
   * `{"interviewQuestion": {"content": "Describe a time you resolved a conflict."}}`
   * normalises to that question.
   */
  lemma ContentAliasScenario(raw: Option<string>, parse: string -> Option<Json>, stringify: Json -> string)
    requires raw.Some? && raw.value != ""
    requires parse(raw.value) == Some(JObject(map["interviewQuestion" :=
                                         JObject(map["content" := JString("Describe a time you resolved a conflict.")])]))
    ensures Normalize(raw, parse, stringify) == Ok(Output("Describe a time you resolved a conflict."))
  {
    var o := JObject(map["content" := JString("Describe a time you resolved a conflict.")]);
    assert Get(o, Aliases[0]) == None;
    assert Get(o, Aliases[1]) == Some(JString("Describe a time you resolved a conflict."));
    assert Reply.SelectsAlias(o, Aliases, 1);
    Reply.FirstTruthyAliasTaken(raw, parse, stringify, Field, Aliases, parse(raw.value).value, o, 1);
  }
}
