/**
 * The answer-critique flow: a prompt embedding the job description, the
 * question and the candidate's answer; the model's reply reduced to one
 * `critique` string, an object being replaced by its `text`, `content` or
 * `feedback` member.
 *
 * The chat completion is the parameter `complete` (None when the reply carries
 * no content); `parse` and `stringify` stand for `JSON.parse` and `JSON.stringify`.
 */
module AnswerCritique {
  import opened Wrappers
  import opened Json
  import opened Errors
  import Reply
  import Template

  datatype Input = Input(jobDescriptionText: string, interviewQuestion: string, userAnswer: string)

  /** The output schema has the one key `critique`; nothing else of the reply survives. */
  datatype Output = Output(critique: string)

  const Field: string := "critique"
  const Aliases: seq<string> := ["text", "content", "feedback"]

  /**
   * The template's literal pieces. The `\n` escapes inside the example JSON of
   * the last piece are escapes of the template literal, so the prompt holds real
   * line breaks there.
   */
  const Lit0: string :=
    "You are an expert career coach and technical interviewer. Your task is to provide constructive feedback on a candidate's answer to an interview question.\n" +
    "\n" +
    "Analyze the user's answer in the context of the provided job description and the question asked.\n" +
    "\n" +
    "Format your feedback as well-structured markdown with the following sections:\n" +
    "1. **Strengths** - What was good about the answer (bullet points)\n" +
    "2. **Areas for Improvement** - Specific, actionable suggestions (numbered list with sub-bullets for details)\n" +
    "3. **Overall Assessment** - Brief summary\n" +
    "\n" +
    "Use proper markdown formatting: headers (##), bold (**text**), bullet points (-), and numbered lists (1.).\n" +
    "\n" +
    "Job Description:\n"
  const Lit1: string :=
    "\n" +
    "\n" +
    "Interview Question:\n"
  const Lit2: string :=
    "\n" +
    "\n" +
    "User's Answer:\n"
  const Lit3: string :=
    "\n" +
    "\n" +
    "Return ONLY the critique text formatted in markdown inside a JSON object:\n" +
    "{\n" +
    "  \"critique\": \"## Strengths\n" +
    "\n" +
    "- Point 1\n" +
    "- Point 2\n" +
    "\n" +
    "## Areas for Improvement\n" +
    "\n" +
    "1. Suggestion 1\n" +
    "   - Detail about suggestion 1\n" +
    "\n" +
    "## Overall Assessment\n" +
    "\n" +
    "Your summary here.\"\n" +
    "}\n"

  const Lits: seq<string> := [Lit0, Lit1, Lit2, Lit3]

  /** The prompt opens with the instructions and embeds the job description, the question and the answer verbatim, in that order. */
  function Prompt(input: Input): (p: string)
    ensures |p| >= |Lit0| && p[..|Lit0|] == Lit0
    ensures Template.EmbedsInOrder(p, [input.jobDescriptionText, input.interviewQuestion, input.userAnswer])
  {
    var vals := [input.jobDescriptionText, input.interviewQuestion, input.userAnswer];
    Template.InterpolateEmbeds(Lits, vals);
    Template.Interpolate(Lits, vals)
  }

  /** The reply handling: empty check, parse, alias coercion of `critique`, string check. */
  function Normalize(raw: Option<string>, parse: string -> Option<Json>, stringify: Json -> string): (r: Result<Output, Error>)
    ensures raw == None || raw == Some("") ==> r == Err(EmptyResponse)
    ensures raw.Some? && raw.value != "" && parse(raw.value) == None ==> r == Err(MalformedReply)
    ensures raw.Some? && raw.value != "" && parse(raw.value) == Some(JNull) ==> r == Err(NullProperty(Field))
    ensures forall s :: r == Ok(Output(s)) <==> Reply.AcceptedAs(raw, parse, stringify, Field, Aliases, s)
    ensures r.Err? ==> r.error in {EmptyResponse, MalformedReply, NullProperty(Field), Reply.NotAString(Field)}
  {
    var s :- Reply.NormalizeStringReply(raw, parse, stringify, Field, Aliases);
    Ok(Output(s))
  }

  /** `answerCritique`: the reply to the prompt, normalised. */
  function Critique(input: Input, complete: string -> Option<string>, parse: string -> Option<Json>,
                    stringify: Json -> string): (r: Result<Output, Error>)
    ensures r == Normalize(complete(Prompt(input)), parse, stringify)
    ensures complete(Prompt(input)) in {None, Some("")} ==> r == Err(EmptyResponse)
    ensures var raw := complete(Prompt(input));
      raw.Some? && raw.value != "" && parse(raw.value) == None ==> r == Err(MalformedReply)
    ensures forall s :: r == Ok(Output(s)) <==> Reply.AcceptedAs(complete(Prompt(input)), parse, stringify, Field, Aliases, s)
  {
    Normalize(complete(Prompt(input)), parse, stringify)
  }

  /** `{"critique": 123}` is not coerced and fails with an issue at the path `critique`. */
  lemma NumericCritiqueRejected(raw: Option<string>, parse: string -> Option<Json>, stringify: Json -> string)
    requires raw.Some? && raw.value != ""
    requires parse(raw.value) == Some(JObject(map["critique" := JNumber(123.0)]))
    ensures Normalize(raw, parse, stringify) == Err(SchemaValidation([Issue([Key("critique")], InvalidType)]))
  {
    Reply.ScalarFieldRejected(raw, parse, stringify, Field, Aliases, parse(raw.value).value);
  }

  /** An empty `text` is skipped: `{"critique": {"text": "", "content": c, "feedback": f}}` yields `c`. */
  lemma EmptyTextAliasSkipped(raw: Option<string>, parse: string -> Option<Json>, stringify: Json -> string,
                              c: string, f: string)
    requires c != ""
    requires raw.Some? && raw.value != ""
    requires parse(raw.value) == Some(JObject(map["critique" := JObject(map["text" := JString(""), "content" := JString(c), "feedback" := JString(f)])]))
    ensures Normalize(raw, parse, stringify) == Ok(Output(c))
  {
    var o := JObject(map["text" := JString(""), "content" := JString(c), "feedback" := JString(f)]);
    assert Get(o, Aliases[1]) == Some(JString(c));
    assert Reply.SelectsAlias(o, Aliases, 1);
    Reply.FirstTruthyAliasTaken(raw, parse, stringify, Field, Aliases, parse(raw.value).value, o, 1);
  }
}
