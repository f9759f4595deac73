/**
 * The suggested-answer flow: a prompt embedding the job description and the
 * question; the reply reduced to one `suggestedAnswer` string, an object being
 * replaced by its `text`, `content` or `answer` member.
 */
module SuggestedAnswers {
  import opened Wrappers
  import opened Json
  import opened Errors
  import Reply
  import Template

  datatype Input = Input(jobDescription: string, interviewQuestion: string)

  datatype Output = Output(suggestedAnswer: string)

  const Field: string := "suggestedAnswer"
  const Aliases: seq<string> := ["text", "content", "answer"]

  const Lit0: string :=
    "You are an expert career coach helping candidates prepare for interviews.\n" +
    "\n" +
    "You will be given a job description and an interview question. Your task is to generate a suggested answer to the interview question based on the job description.\n" +
    "\n" +
    "Provide the answer as clean, unformatted text. Do not use any markdown formatting (like **, *, or #).\n" +
    "\n" +
    "Job Description: "
  const Lit1: string :=
    "\n" +
    "Interview Question: "
  const Lit2: string :=
    "\n" +
    "\n" +
    "Suggested Answer in JSON format:\n" +
    "{\n" +
    "  \"suggestedAnswer\": \"Your detailed suggested answer here.\"\n" +
    "}\n"

  const Lits: seq<string> := [Lit0, Lit1, Lit2]

  /** The prompt opens with the instructions and embeds the job description, then the question, verbatim. */
  function Prompt(input: Input): (p: string)
    ensures |p| >= |Lit0| && p[..|Lit0|] == Lit0
    ensures Template.EmbedsInOrder(p, [input.jobDescription, input.interviewQuestion])
  {
    var vals := [input.jobDescription, input.interviewQuestion];
    Template.InterpolateEmbeds(Lits, vals);
    Template.Interpolate(Lits, vals)
  }

  /** The reply handling: empty check, parse, alias coercion of `suggestedAnswer`, string check. */
  function Normalize(raw: Option<string>, parse: string -> Option<Json>, stringify: Json -> string): (r: Result<Output, Error>)
    ensures raw == None || raw == Some("") ==> r == Err(EmptyResponse)
    ensures raw.Some? && raw.value != "" && parse(raw.value) == None ==> r == Err(MalformedReply)
    ensures raw.Some? && raw.value != "" && parse(raw.value) == Some(JNull) ==> r == Err(NullProperty(Field))
    ensures forall s :: r == Ok(Output(s)) <==> Reply.AcceptedAs(raw, parse, stringify, Field, Aliases, s)
    ensures r.Err? ==> r.error in {EmptyResponse, MalformedReply, NullProperty(Field), Reply.NotAString(Field)}
  {
    var s :- Reply.NormalizeStringReply(raw, parse, stringify, Field, Aliases);
    Ok(Output(s))
  }

  /** `generateSuggestedAnswers`: the reply to the prompt, normalised. */
  function Generate(input: Input, complete: string -> Option<string>, parse: string -> Option<Json>,
                    stringify: Json -> string): (r: Result<Output, Error>)
    ensures r == Normalize(complete(Prompt(input)), parse, stringify)
    ensures complete(Prompt(input)) in {None, Some("")} ==> r == Err(EmptyResponse)
    ensures var raw := complete(Prompt(input));
      raw.Some? && raw.value != "" && parse(raw.value) == None ==> r == Err(MalformedReply)
    ensures forall s :: r == Ok(Output(s)) <==> Reply.AcceptedAs(complete(Prompt(input)), parse, stringify, Field, Aliases, s)
  {
    Normalize(complete(Prompt(input)), parse, stringify)
  }

  /**
   * Coercion goes one level deep: `{"suggestedAnswer": {"answer": {"text": t}}}`
   * takes the inner object as it is and then fails the string check.
   */
  lemma NestedAliasRejected(raw: Option<string>, parse: string -> Option<Json>, stringify: Json -> string, t: string)
    requires raw.Some? && raw.value != ""
    requires parse(raw.value) == Some(JObject(map["suggestedAnswer" :=
                                         JObject(map["answer" := JObject(map["text" := JString(t)])])]))
    ensures Normalize(raw, parse, stringify) == Err(SchemaValidation([Issue([Key("suggestedAnswer")], InvalidType)]))
  {
    var o := JObject(map["answer" := JObject(map["text" := JString(t)])]);
    assert Get(o, Aliases[0]) == None && Get(o, Aliases[1]) == None;
    assert Get(o, Aliases[2]) == Some(JObject(map["text" := JString(t)]));
    assert Reply.SelectsAlias(o, Aliases, 2);
    Reply.FirstTruthyAliasTaken(raw, parse, stringify, Field, Aliases, parse(raw.value).value, o, 2);
  }
}
