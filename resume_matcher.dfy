/**
 * The resume-matcher flow: both PDFs are turned into text, resume first; the
 * prompt embeds the two texts; the parsed reply is spread into a new object
 * whose `resumeText` and `jobDescriptionText` are then set to the extracted
 * texts, and that object is validated against the output schema.
 */
module ResumeMatcher {
  import opened Wrappers
  import opened Json
  import opened Errors
  import opened Schema
  import Reply
  import Template
  import PdfParser

  datatype Input = Input(resumeDataUri: string, jobDescriptionDataUri: string)

  datatype Output = Output(matchScore: real, highlights: seq<string>, resumeText: string, jobDescriptionText: string)

  const Lit0: string :=
    "You are an AI resume matcher. You will be provided with a resume and a job description.\n" +
    "\n" +
    "  Analyze the resume and job description and provide a match score (0-100) indicating how well the resume matches the job description.\n" +
    "  Also, identify 4-6 specific areas of the resume that align with the job description and provide them as highlights.\n" +
    "\n" +
    "  Format each highlight using markdown for readability:\n" +
    "  - Use **bold** for key skills, technologies, or important terms\n" +
    "  - Use *italics* for project names or specific accomplishments\n" +
    "  - Keep each highlight as a single, clear sentence or brief paragraph\n" +
    "  - Focus on concrete skills, experiences, and achievements that match the job requirements\n" +
    "\n" +
    "  Resume Text:\n" +
    "  "
  const Lit1: string :=
    "\n" +
    "\n" +
    "  Job Description Text:\n" +
    "  "
  const Lit2: string :=
    "\n" +
    "\n" +
    "  Provide the analysis in a JSON format like this:\n" +
    "  {\n" +
    "    \"matchScore\": 85,\n" +
    "    \"highlights\": [\n" +
    "      \"Strong foundation in **C++ and Python**, which aligns with the preferred training mentioned in the job description.\",\n" +
    "      \"Experience with **software development methodologies** through projects like *TriageFlow*, demonstrating structured development processes.\",\n" +
    "      \"Leadership skills evidenced by role as **Junior Core at RVCE Coding Club**, showcasing teamwork and communication abilities.\"\n" +
    "    ]\n" +
    "  }\n" +
    "  "

  const Lits: seq<string> := [Lit0, Lit1, Lit2]

  /** The prompt opens with the instructions and embeds the resume text, then the job-description text, verbatim. */
  function Prompt(resumeText: string, jobDescriptionText: string): (p: string)
    ensures |p| >= |Lit0| && p[..|Lit0|] == Lit0
    ensures Template.EmbedsInOrder(p, [resumeText, jobDescriptionText])
  {
    var vals := [resumeText, jobDescriptionText];
    Template.InterpolateEmbeds(Lits, vals);
    Template.Interpolate(Lits, vals)
  }

  const SchemaKeys: set<string> := {"matchScore", "highlights", "resumeText", "jobDescriptionText"}

  /** A value of the output schema, stated directly on the JSON value. */
  ghost predicate Conforms(j: Json)
  {
    && j.JObject?
    && Get(j, "matchScore").Some? && Get(j, "matchScore").value.JNumber?
    && Get(j, "highlights").Some? && Get(j, "highlights").value.JArray?
    && (forall k :: 0 <= k < |Get(j, "highlights").value.items| ==> Get(j, "highlights").value.items[k].JString?)
    && Get(j, "resumeText").Some? && Get(j, "resumeText").value.JString?
    && Get(j, "jobDescriptionText").Some? && Get(j, "jobDescriptionText").value.JString?
  }

  /** The JSON object holding exactly the output's four fields. */
  function Encode(o: Output): Json
  {
    JObject(map[
      "matchScore" := JNumber(o.matchScore),
      "highlights" := JArray(seq(|o.highlights|, k requires 0 <= k < |o.highlights| => JString(o.highlights[k]))),
      "resumeText" := JString(o.resumeText),
      "jobDescriptionText" := JString(o.jobDescriptionText)])
  }

  /**
   * `ResumeMatcherOutputSchema.parse`: succeeds exactly on conforming values and
   * then keeps exactly their four schema fields (other members are stripped);
   * otherwise reports at least one issue.
   */
  function DecodeOutput(j: Json): (r: Decoded<Output>)
    ensures r.Ok? <==> Conforms(j)
    ensures r.Ok? ==> forall k :: k in SchemaKeys ==> Get(Encode(r.value), k) == Get(j, k)
    ensures r.Err? ==> r.error != []
  {
    if !j.JObject? then Err([Issue([], InvalidType)])
    else
      var score := DecodeNumber(Get(j, "matchScore"), [Key("matchScore")]);
      var highlights := DecodeArray(Get(j, "highlights"), [Key("highlights")], StringElement);
      var resumeText := DecodeString(Get(j, "resumeText"), [Key("resumeText")]);
      var jobText := DecodeString(Get(j, "jobDescriptionText"), [Key("jobDescriptionText")]);
      if score.Ok? && highlights.Ok? && resumeText.Ok? && jobText.Ok? then
        var o := Output(score.value, highlights.value, resumeText.value, jobText.value);
        var items := j.fields["highlights"].items;
        assert forall k :: 0 <= k < |items| ==> StringElement(items[k], [Key("highlights")] + [Index(0 + k)]).Ok?;
        assert Get(Encode(o), "highlights").value.items == items;
        Ok(o)
      else
        Err(IssuesOf(score) + IssuesOf(highlights) + IssuesOf(resumeText) + IssuesOf(jobText))
  }

  /**
   * A failed validation reports every offending field at its own path: a
   * non-object at the root, otherwise each schema key whose value has the
   * wrong type or is missing, and each highlight that is not a string at its
   * index below `highlights`.
   */
  lemma DecodeOutputIssues(j: Json)
    ensures !j.JObject? ==> DecodeOutput(j) == Err([Issue([], InvalidType)])
    ensures j.JObject? && !(Get(j, "matchScore").Some? && Get(j, "matchScore").value.JNumber?) ==>
              Issue([Key("matchScore")], InvalidType) in IssuesOf(DecodeOutput(j))
    ensures j.JObject? && !(Get(j, "highlights").Some? && Get(j, "highlights").value.JArray?) ==>
              Issue([Key("highlights")], InvalidType) in IssuesOf(DecodeOutput(j))
    ensures j.JObject? && Get(j, "highlights").Some? && Get(j, "highlights").value.JArray? ==>
              forall k :: 0 <= k < |Get(j, "highlights").value.items| && !Get(j, "highlights").value.items[k].JString? ==>
                Issue([Key("highlights"), Index(k)], InvalidType) in IssuesOf(DecodeOutput(j))
    ensures j.JObject? && !(Get(j, "resumeText").Some? && Get(j, "resumeText").value.JString?) ==>
              Issue([Key("resumeText")], InvalidType) in IssuesOf(DecodeOutput(j))
    ensures j.JObject? && !(Get(j, "jobDescriptionText").Some? && Get(j, "jobDescriptionText").value.JString?) ==>
              Issue([Key("jobDescriptionText")], InvalidType) in IssuesOf(DecodeOutput(j))
  {
    if j.JObject? {
      var score := DecodeNumber(Get(j, "matchScore"), [Key("matchScore")]);
      var highlights := DecodeArray(Get(j, "highlights"), [Key("highlights")], StringElement);
      var resumeText := DecodeString(Get(j, "resumeText"), [Key("resumeText")]);
      var jobText := DecodeString(Get(j, "jobDescriptionText"), [Key("jobDescriptionText")]);
      var all := IssuesOf(score) + IssuesOf(highlights) + IssuesOf(resumeText) + IssuesOf(jobText);
      assert IssuesOf(DecodeOutput(j)) == all;
      if Get(j, "highlights").Some? && Get(j, "highlights").value.JArray? {
        var items := Get(j, "highlights").value.items;
        StringItemIssues(items, [Key("highlights")]);
        forall k | 0 <= k < |items| && !items[k].JString?
          ensures Issue([Key("highlights"), Index(k)], InvalidType) in IssuesOf(highlights)
        {
          assert [Key("highlights")] + [Index(k)] == [Key("highlights"), Index(k)];
        }
      }
    }
  }

  /** A well-shaped value validates to itself: validation adds, drops and coerces nothing. */
  lemma DecodeEncode(o: Output)
    ensures DecodeOutput(Encode(o)) == Ok(o)
  {
    var j := Encode(o);
    assert Conforms(j);
    var r := DecodeOutput(j);
    assert Get(Encode(r.value), "highlights") == Get(j, "highlights");
    assert r.value.highlights == o.highlights;
  }

  /**
   * The own members `{...parsed}` copies: those of an object; none of null, a
   * boolean or a number.
   */
  function Spread(parsed: Json): (r: map<string, Json>)
    ensures forall k :: Get(JObject(r), k) == Get(parsed, k)
    ensures !parsed.JObject? ==> r == map[]
  {
    if parsed.JObject? then parsed.fields else map[]
  }

  /** `{...parsed, resumeText, jobDescriptionText}`. */
  function WithExtractedTexts(parsed: Json, resumeText: string, jobDescriptionText: string): (r: Json)
    ensures r.JObject?
    ensures Get(r, "resumeText") == Some(JString(resumeText))
    ensures Get(r, "jobDescriptionText") == Some(JString(jobDescriptionText))
    ensures forall k :: k != "resumeText" && k != "jobDescriptionText" ==> Get(r, k) == Get(JObject(Spread(parsed)), k)
  {
    JObject(Spread(parsed)["resumeText" := JString(resumeText)]["jobDescriptionText" := JString(jobDescriptionText)])
  }

  /**
   * `resumeMatcher`. `load` decodes and loads a PDF payload, `complete` is the
   * chat completion and `parse` is `JSON.parse`.
   */
  function Match(input: Input, load: string -> Option<PdfParser.Document>, complete: string -> Option<string>,
                 parse: string -> Option<Json>): (r: Result<Output, Error>)
    ensures var resumeText := PdfParser.ExtractedText(input.resumeDataUri, load);
      var jobDescriptionText := PdfParser.ExtractedText(input.jobDescriptionDataUri, load);
      && (resumeText.Err? ==> r == Err(resumeText.error))
      && (resumeText.Ok? && jobDescriptionText.Err? ==> r == Err(jobDescriptionText.error))
      && (r.Ok? ==> Ok(r.value.resumeText) == resumeText && Ok(r.value.jobDescriptionText) == jobDescriptionText)
  {
    var resumeText := PdfParser.ExtractedText(input.resumeDataUri, load);
    var jobDescriptionText := PdfParser.ExtractedText(input.jobDescriptionDataUri, load);
    if resumeText.Err? then Err(resumeText.error)
    else if jobDescriptionText.Err? then Err(jobDescriptionText.error)
    else MatchTexts(resumeText.value, jobDescriptionText.value, complete, parse)
  }

  /** With both texts extracted, an empty completion or an unparsable reply is the flow's failure. */
  lemma MatchReplyErrors(input: Input, load: string -> Option<PdfParser.Document>, complete: string -> Option<string>,
                         parse: string -> Option<Json>, resumeText: string, jobDescriptionText: string)
    requires PdfParser.ExtractedText(input.resumeDataUri, load) == Ok(resumeText)
    requires PdfParser.ExtractedText(input.jobDescriptionDataUri, load) == Ok(jobDescriptionText)
    ensures var raw := complete(Prompt(resumeText, jobDescriptionText));
      && (raw == None || raw == Some("") ==> Match(input, load, complete, parse) == Err(EmptyResponse))
      && (raw.Some? && raw.value != "" && parse(raw.value) == None ==> Match(input, load, complete, parse) == Err(MalformedReply))
  {
  }

  /**
   * The flow once both texts are extracted: the completion of the prompt,
   * parsed, merged with the two texts and validated. A validated result
   * carries the extracted texts, whatever the reply said about them.
   */
  function MatchTexts(resumeText: string, jobDescriptionText: string, complete: string -> Option<string>,
                      parse: string -> Option<Json>): (r: Result<Output, Error>)
    ensures var raw := complete(Prompt(resumeText, jobDescriptionText));
      && (raw == None || raw == Some("") ==> r == Err(EmptyResponse))
      && (raw.Some? && raw.value != "" && parse(raw.value) == None ==> r == Err(MalformedReply))
    ensures r.Ok? ==> r.value.resumeText == resumeText && r.value.jobDescriptionText == jobDescriptionText
  {
    var parsed := Reply.ParseReply(complete(Prompt(resumeText, jobDescriptionText)), parse);
    if parsed.Err? then Err(parsed.error)
    else
      var d := DecodeOutput(WithExtractedTexts(parsed.value, resumeText, jobDescriptionText));
      if d.Ok? then Ok(d.value) else Err(SchemaValidation(d.error))
  }

  /** What the reply itself must supply: a number `matchScore` and an array of strings `highlights`. */
  ghost predicate ReplyConforms(j: Json)
  {
    && j.JObject?
    && Get(j, "matchScore").Some? && Get(j, "matchScore").value.JNumber?
    && Get(j, "highlights").Some? && Get(j, "highlights").value.JArray?
    && (forall k :: 0 <= k < |Get(j, "highlights").value.items| ==> Get(j, "highlights").value.items[k].JString?)
  }

  /**
   * With both texts extracted and a reply that parses to `j`: the result is
   * `j`'s score and highlights with the extracted texts, exactly when `j`
   * supplies a number score and string highlights, whatever `j` says about the
   * texts; otherwise validation fails with at least one issue.
   */
  lemma MatchOutcome(input: Input, load: string -> Option<PdfParser.Document>, complete: string -> Option<string>,
                     parse: string -> Option<Json>, resumeText: string, jobDescriptionText: string, j: Json)
    requires PdfParser.ExtractedText(input.resumeDataUri, load) == Ok(resumeText)
    requires PdfParser.ExtractedText(input.jobDescriptionDataUri, load) == Ok(jobDescriptionText)
    requires Reply.ParseReply(complete(Prompt(resumeText, jobDescriptionText)), parse) == Ok(j)
    ensures Match(input, load, complete, parse).Ok? <==> ReplyConforms(j)
    ensures ReplyConforms(j) ==>
      (Match(input, load, complete, parse).value ==
       Output(j.fields["matchScore"].n, ItemStrings(j.fields["highlights"].items), resumeText, jobDescriptionText))
    ensures !ReplyConforms(j) ==>
      (&& Match(input, load, complete, parse).Err?
       && Match(input, load, complete, parse).error.SchemaValidation?
       && Match(input, load, complete, parse).error.issues != [])
  {
    var w := WithExtractedTexts(j, resumeText, jobDescriptionText);
    assert Conforms(w) <==> ReplyConforms(j);
    if ReplyConforms(j) {
      var o := DecodeOutput(w).value;
      assert Get(Encode(o), "highlights") == Get(j, "highlights");
      var items := j.fields["highlights"].items;
      assert |o.highlights| == |items|;
      assert forall k :: 0 <= k < |items| ==> o.highlights[k] == items[k].s by {
        forall k | 0 <= k < |items| ensures o.highlights[k] == items[k].s {
          assert Get(Encode(o), "highlights").value.items[k] == JString(o.highlights[k]);
        }
      }
    }
  }

  /**
   * With both texts extracted and a reply that parses to `j`, a validation
   * failure carries exactly the issues of validating the merged object.
   */
  lemma MatchIssues(input: Input, load: string -> Option<PdfParser.Document>, complete: string -> Option<string>,
                    parse: string -> Option<Json>, resumeText: string, jobDescriptionText: string, j: Json)
    requires PdfParser.ExtractedText(input.resumeDataUri, load) == Ok(resumeText)
    requires PdfParser.ExtractedText(input.jobDescriptionDataUri, load) == Ok(jobDescriptionText)
    requires Reply.ParseReply(complete(Prompt(resumeText, jobDescriptionText)), parse) == Ok(j)
    ensures !ReplyConforms(j) ==>
      Match(input, load, complete, parse) == Err(SchemaValidation(DecodeOutput(WithExtractedTexts(j, resumeText, jobDescriptionText)).error))
  {
    assert Conforms(WithExtractedTexts(j, resumeText, jobDescriptionText)) <==> ReplyConforms(j);
  }

  /**
   * The merged object's issues name the offending members of the reply: a
   * score that is not a number, a `highlights` that is not an array, and each
   * highlight that is not a string, whatever the reply is.
   */
  lemma ReplyIssues(j: Json, resumeText: string, jobDescriptionText: string)
    ensures var issues := IssuesOf(DecodeOutput(WithExtractedTexts(j, resumeText, jobDescriptionText)));
      && (!(Get(j, "matchScore").Some? && Get(j, "matchScore").value.JNumber?) ==>
            Issue([Key("matchScore")], InvalidType) in issues)
      && (!(Get(j, "highlights").Some? && Get(j, "highlights").value.JArray?) ==>
            Issue([Key("highlights")], InvalidType) in issues)
      && (Get(j, "highlights").Some? && Get(j, "highlights").value.JArray? ==>
            forall k :: 0 <= k < |Get(j, "highlights").value.items| && !Get(j, "highlights").value.items[k].JString? ==>
              Issue([Key("highlights"), Index(k)], InvalidType) in issues)
  {
    var w := WithExtractedTexts(j, resumeText, jobDescriptionText);
    assert Get(w, "matchScore") == Get(j, "matchScore") && Get(w, "highlights") == Get(j, "highlights");
    DecodeOutputIssues(w);
  }

  function ItemStrings(items: seq<Json>): seq<string>
  {
    seq(|items|, k requires 0 <= k < |items| => if items[k].JString? then items[k].s else "")
  }

  /** Both documents are extracted before the model is asked: a failed extraction makes the reply irrelevant. */
  lemma ExtractionBeforeCompletion(input: Input, load: string -> Option<PdfParser.Document>,
                                   complete1: string -> Option<string>, complete2: string -> Option<string>,
                                   parse: string -> Option<Json>)
    requires PdfParser.ExtractedText(input.resumeDataUri, load).Err? || PdfParser.ExtractedText(input.jobDescriptionDataUri, load).Err?
    ensures Match(input, load, complete1, parse) == Match(input, load, complete2, parse)
    ensures Match(input, load, complete1, parse).Err? && Match(input, load, complete1, parse).error.DocumentParse?
  {
  }

  /** `"85"` is not a number: a string score is rejected, with an issue at `matchScore`. */
  lemma NumericStringScoreRejected(resumeText: string, jobDescriptionText: string, highlights: seq<Json>)
    ensures DecodeOutput(WithExtractedTexts(JObject(map["matchScore" := JString("85"), "highlights" := JArray(highlights)]),
                                            resumeText, jobDescriptionText)).Err?
    ensures Issue([Key("matchScore")], InvalidType) in
      DecodeOutput(WithExtractedTexts(JObject(map["matchScore" := JString("85"), "highlights" := JArray(highlights)]),
                                      resumeText, jobDescriptionText)).error
  {
  }

  /** The score is not range-checked: any number, negative or above 100 included, is accepted. */
  lemma AnyScoreAccepted(score: real, resumeText: string, jobDescriptionText: string)
    ensures DecodeOutput(WithExtractedTexts(JObject(map["matchScore" := JNumber(score), "highlights" := JArray([])]),
                                            resumeText, jobDescriptionText))
         == Ok(Output(score, [], resumeText, jobDescriptionText))
  {
  }
}
