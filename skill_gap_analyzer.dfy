/**
 * The skill-gap flow: a prompt embedding the job description, the resume and
 * the two catalogs serialised as JSON; the parsed reply validated against
 * nested schemas of missing skills, each with an optional or null course and
 * practice problem. Nothing is added to the validated reply.
 *
 * The catalogs are opaque JSON values, `stringify` is `JSON.stringify` and
 * `isUrl` is zod's URL test.
 */
module SkillGapAnalyzer {
  import opened Wrappers
  import opened Json
  import opened Errors
  import opened Schema
  import Reply
  import Template

  datatype Input = Input(resumeText: string, jobDescriptionText: string)

  datatype Course = Course(id: string, skill: string, title: string, provider: string, url: string)

  datatype DsaProblem = DsaProblem(id: string, skill: string, title: string, url: string)

  datatype MissingSkill = MissingSkill(skill: string, recommendedCourse: Nullish<Course>,
                                       recommendedDSAProblem: Nullish<DsaProblem>)

  datatype Output = Output(missingHardSkills: seq<MissingSkill>, missingSoftSkills: seq<MissingSkill>)

  const Lit0: string :=
    "You are an expert career development coach. Your task is to identify the hard and soft skills that are present in the job description but are missing from the candidate's resume.\n" +
    "\n" +
    "For each missing skill you identify, you must search the provided JSON datasets to find a relevant online course and, if applicable, a DSA problem.\n" +
    "\n" +
    "**IMPORTANT INSTRUCTIONS:**\n" +
    "- For EVERY missing skill (hard or soft), ALWAYS try to find the best matching course from the 'Available Courses' JSON below.\n" +
    "- Match courses by skill name OR related technology. For example:\n" +
    "  - If the missing skill is \"JavaScript frameworks\", match to \"React\", \"Angular\", or \"Vue.js\" courses\n" +
    "  - If the missing skill is \"Backend development\", match to \"Node.js\", \"Python\", or relevant courses\n" +
    "  - If the missing skill is \"Database management\", match to \"SQL\", \"MongoDB\", \"PostgreSQL\" courses\n" +
    "  - If the missing skill is \"Cloud services\", match to \"AWS\", \"Azure\", or \"GCP\" courses\n" +
    "- For missing HARD skills that are related to programming, algorithms, or data structures, ALSO find the best matching problem from the 'Available DSA Problems' JSON.\n" +
    "- When you find a match, include the entire JSON object for that course or problem in your response.\n" +
    "- Be flexible with matching - find the closest relevant course even if the skill name doesn't match exactly.\n" +
    "- If you absolutely cannot find any relevant course, you may omit the recommendedCourse field for that skill.\n" +
    "\n" +
    "Present your findings clearly, separating missing hard skills and soft skills. Your entire output must be a single JSON object matching this format:\n" +
    "{\n" +
    "  \"missingHardSkills\": [\n" +
    "    {\n" +
    "      \"skill\": \"Skill name\",\n" +
    "      \"recommendedCourse\": { ... full course object from JSON ... },\n" +
    "      \"recommendedDSAProblem\": { ... full DSA object from JSON ... } // optional\n" +
    "    }\n" +
    "  ],\n" +
    "  \"missingSoftSkills\": [\n" +
    "    {\n" +
    "      \"skill\": \"Skill name\",\n" +
    "      \"recommendedCourse\": { ... full course object from JSON ... }\n" +
    "    }\n" +
    "  ]\n" +
    "}\n" +
    "\n" +
    "Job Description:\n"
  const Lit1: string :=
    "\n" +
    "\n" +
    "Resume:\n"
  const Lit2: string :=
    "\n" +
    "\n" +
    "Available Courses (JSON):\n"
  const Lit3: string :=
    "\n" +
    "\n" +
    "Available DSA Problems (JSON):\n"
  const Lit4: string :=
    "\n"

  const Lits: seq<string> := [Lit0, Lit1, Lit2, Lit3, Lit4]

  /**
   * The prompt opens with the instructions and embeds, verbatim and in this
   * order, the job description, the resume, the serialised course catalog and
   * the serialised practice-problem catalog.
   */
  function Prompt(input: Input, courses: Json, dsa: Json, stringify: Json -> string): (p: string)
    ensures |p| >= |Lit0| && p[..|Lit0|] == Lit0
    ensures Template.EmbedsInOrder(p, [input.jobDescriptionText, input.resumeText, stringify(courses), stringify(dsa)])
  {
    var vals := [input.jobDescriptionText, input.resumeText, stringify(courses), stringify(dsa)];
    Template.InterpolateEmbeds(Lits, vals);
    Template.Interpolate(Lits, vals)
  }

  predicate IsStringAt(j: Json, key: string)
  {
    Get(j, key).Some? && Get(j, key).value.JString?
  }

  predicate IsUrlAt(j: Json, key: string, isUrl: string -> bool)
  {
    IsStringAt(j, key) && isUrl(Get(j, key).value.s)
  }

  /** `CourseSchema`, stated directly on the JSON value. */
  ghost predicate IsCourse(j: Json, isUrl: string -> bool)
  {
    j.JObject? && IsStringAt(j, "id") && IsStringAt(j, "skill") && IsStringAt(j, "title")
    && IsStringAt(j, "provider") && IsUrlAt(j, "url", isUrl)
  }

  /** `DSASchema`: a course without a provider. */
  ghost predicate IsDsaProblem(j: Json, isUrl: string -> bool)
  {
    j.JObject? && IsStringAt(j, "id") && IsStringAt(j, "skill") && IsStringAt(j, "title") && IsUrlAt(j, "url", isUrl)
  }

  /** `MissingSkillSchema`: a string skill; each recommendation absent, null or well-formed. */
  ghost predicate IsMissingSkill(j: Json, isUrl: string -> bool)
  {
    && j.JObject? && IsStringAt(j, "skill")
    && (Get(j, "recommendedCourse") in {None, Some(JNull)} || IsCourse(Get(j, "recommendedCourse").value, isUrl))
    && (Get(j, "recommendedDSAProblem") in {None, Some(JNull)} || IsDsaProblem(Get(j, "recommendedDSAProblem").value, isUrl))
  }

  ghost predicate IsMissingSkillList(v: Option<Json>, isUrl: string -> bool)
  {
    v.Some? && v.value.JArray? && forall k :: 0 <= k < |v.value.items| ==> IsMissingSkill(v.value.items[k], isUrl)
  }

  /** `SkillGapAnalyzerOutputSchema`: two present arrays, either possibly empty. */
  ghost predicate IsOutput(j: Json, isUrl: string -> bool)
  {
    j.JObject? && IsMissingSkillList(Get(j, "missingHardSkills"), isUrl) && IsMissingSkillList(Get(j, "missingSoftSkills"), isUrl)
  }

  function DecodeCourse(j: Json, path: Path, isUrl: string -> bool): (r: Decoded<Course>)
    ensures r.Ok? <==> IsCourse(j, isUrl)
    ensures r.Ok? ==> r.value == Course(j.fields["id"].s, j.fields["skill"].s, j.fields["title"].s,
                                        j.fields["provider"].s, j.fields["url"].s)
    ensures r.Err? ==> r.error != []
    ensures Under(IssuesOf(r), path)
    ensures !j.JObject? ==> r == Err([Issue(path, InvalidType)])
    ensures j.JObject? ==> forall f :: f in {"id", "skill", "title", "provider"} && !IsStringAt(j, f) ==>
              Issue(path + [Key(f)], InvalidType) in IssuesOf(r)
    ensures j.JObject? && !IsUrlAt(j, "url", isUrl) ==>
              Issue(path + [Key("url")], if IsStringAt(j, "url") then InvalidUrl else InvalidType) in IssuesOf(r)
  {
    if !j.JObject? then Err([Issue(path, InvalidType)])
    else
      var id := DecodeString(Get(j, "id"), path + [Key("id")]);
      var skill := DecodeString(Get(j, "skill"), path + [Key("skill")]);
      var title := DecodeString(Get(j, "title"), path + [Key("title")]);
      var provider := DecodeString(Get(j, "provider"), path + [Key("provider")]);
      var url := DecodeUrl(Get(j, "url"), path + [Key("url")], isUrl);
      if id.Ok? && skill.Ok? && title.Ok? && provider.Ok? && url.Ok?
      then Ok(Course(id.value, skill.value, title.value, provider.value, url.value))
      else
        UnderParent(IssuesOf(id), path, Key("id"));
        UnderParent(IssuesOf(skill), path, Key("skill"));
        UnderParent(IssuesOf(title), path, Key("title"));
        UnderParent(IssuesOf(provider), path, Key("provider"));
        UnderParent(IssuesOf(url), path, Key("url"));
        Err(IssuesOf(id) + IssuesOf(skill) + IssuesOf(title) + IssuesOf(provider) + IssuesOf(url))
  }

  function DecodeDsaProblem(j: Json, path: Path, isUrl: string -> bool): (r: Decoded<DsaProblem>)
    ensures r.Ok? <==> IsDsaProblem(j, isUrl)
    ensures r.Ok? ==> r.value == DsaProblem(j.fields["id"].s, j.fields["skill"].s, j.fields["title"].s, j.fields["url"].s)
    ensures r.Err? ==> r.error != []
    ensures Under(IssuesOf(r), path)
    ensures !j.JObject? ==> r == Err([Issue(path, InvalidType)])
    ensures j.JObject? ==> forall f :: f in {"id", "skill", "title"} && !IsStringAt(j, f) ==>
              Issue(path + [Key(f)], InvalidType) in IssuesOf(r)
    ensures j.JObject? && !IsUrlAt(j, "url", isUrl) ==>
              Issue(path + [Key("url")], if IsStringAt(j, "url") then InvalidUrl else InvalidType) in IssuesOf(r)
  {
    if !j.JObject? then Err([Issue(path, InvalidType)])
    else
      var id := DecodeString(Get(j, "id"), path + [Key("id")]);
      var skill := DecodeString(Get(j, "skill"), path + [Key("skill")]);
      var title := DecodeString(Get(j, "title"), path + [Key("title")]);
      var url := DecodeUrl(Get(j, "url"), path + [Key("url")], isUrl);
      if id.Ok? && skill.Ok? && title.Ok? && url.Ok?
      then Ok(DsaProblem(id.value, skill.value, title.value, url.value))
      else
        UnderParent(IssuesOf(id), path, Key("id"));
        UnderParent(IssuesOf(skill), path, Key("skill"));
        UnderParent(IssuesOf(title), path, Key("title"));
        UnderParent(IssuesOf(url), path, Key("url"));
        Err(IssuesOf(id) + IssuesOf(skill) + IssuesOf(title) + IssuesOf(url))
  }

  /** `CourseSchema` and `DSASchema` as the inner schemas of nullish fields. */
  function CourseDecoder(isUrl: string -> bool): (Json, Path) -> Decoded<Course>
  {
    (e: Json, p: Path) => DecodeCourse(e, p, isUrl)
  }

  function DsaProblemDecoder(isUrl: string -> bool): (Json, Path) -> Decoded<DsaProblem>
  {
    (e: Json, p: Path) => DecodeDsaProblem(e, p, isUrl)
  }

  function DecodeMissingSkill(j: Json, path: Path, isUrl: string -> bool): (r: Decoded<MissingSkill>)
    ensures r.Ok? <==> IsMissingSkill(j, isUrl)
    ensures r.Ok? ==> r.value.skill == j.fields["skill"].s
    ensures r.Ok? ==> (r.value.recommendedCourse == Absent <==> Get(j, "recommendedCourse") == None)
    ensures r.Ok? ==> (r.value.recommendedCourse == Null <==> Get(j, "recommendedCourse") == Some(JNull))
    ensures r.Ok? ==> (r.value.recommendedDSAProblem == Absent <==> Get(j, "recommendedDSAProblem") == None)
    ensures r.Ok? ==> (r.value.recommendedDSAProblem == Null <==> Get(j, "recommendedDSAProblem") == Some(JNull))
    ensures r.Ok? && r.value.recommendedCourse.Present? ==>
              r.value.recommendedCourse.value
              == DecodeCourse(j.fields["recommendedCourse"], path + [Key("recommendedCourse")], isUrl).value
    ensures r.Ok? && r.value.recommendedDSAProblem.Present? ==>
              r.value.recommendedDSAProblem.value
              == DecodeDsaProblem(j.fields["recommendedDSAProblem"], path + [Key("recommendedDSAProblem")], isUrl).value
    ensures r.Err? ==> r.error != []
    ensures Under(IssuesOf(r), path)
    ensures !j.JObject? ==> r == Err([Issue(path, InvalidType)])
    ensures j.JObject? && !IsStringAt(j, "skill") ==> Issue(path + [Key("skill")], InvalidType) in IssuesOf(r)
    ensures j.JObject? && Get(j, "recommendedCourse") !in {None, Some(JNull)}
            && !IsCourse(Get(j, "recommendedCourse").value, isUrl) ==>
              ReportsAt(IssuesOf(r), path + [Key("recommendedCourse")])
    ensures j.JObject? && Get(j, "recommendedDSAProblem") !in {None, Some(JNull)}
            && !IsDsaProblem(Get(j, "recommendedDSAProblem").value, isUrl) ==>
              ReportsAt(IssuesOf(r), path + [Key("recommendedDSAProblem")])
  {
    if !j.JObject? then Err([Issue(path, InvalidType)])
    else
      var skill := DecodeString(Get(j, "skill"), path + [Key("skill")]);
      var course := DecodeNullish(Get(j, "recommendedCourse"), path + [Key("recommendedCourse")],
                                  CourseDecoder(isUrl));
      var dsa := DecodeNullish(Get(j, "recommendedDSAProblem"), path + [Key("recommendedDSAProblem")],
                               DsaProblemDecoder(isUrl));
      if skill.Ok? && course.Ok? && dsa.Ok?
      then Ok(MissingSkill(skill.value, course.value, dsa.value))
      else
        UnderParent(IssuesOf(skill), path, Key("skill"));
        UnderParent(IssuesOf(course), path, Key("recommendedCourse"));
        UnderParent(IssuesOf(dsa), path, Key("recommendedDSAProblem"));
        UnderReports(IssuesOf(course), path + [Key("recommendedCourse")]);
        UnderReports(IssuesOf(dsa), path + [Key("recommendedDSAProblem")]);
        Err(IssuesOf(skill) + IssuesOf(course) + IssuesOf(dsa))
  }

  /** `MissingSkillSchema` as the element schema of an array. */
  function MissingSkillDecoder(isUrl: string -> bool): (Json, Path) -> Decoded<MissingSkill>
  {
    (e: Json, p: Path) => DecodeMissingSkill(e, p, isUrl)
  }

  function DecodeMissingSkills(v: Option<Json>, path: Path, isUrl: string -> bool): (r: Decoded<seq<MissingSkill>>)
    ensures r.Ok? <==> IsMissingSkillList(v, isUrl)
    ensures r.Ok? ==> |r.value| == |v.value.items|
    ensures r.Ok? ==> forall k :: 0 <= k < |r.value| ==>
              r.value[k] == DecodeMissingSkill(v.value.items[k], path + [Index(k)], isUrl).value
    ensures r.Err? ==> r.error != []
    ensures Under(IssuesOf(r), path)
    ensures !(v.Some? && v.value.JArray?) ==> r == Err([Issue(path, InvalidType)])
    ensures v.Some? && v.value.JArray? ==> forall k :: 0 <= k < |v.value.items| && !IsMissingSkill(v.value.items[k], isUrl) ==>
              ReportsAt(IssuesOf(r), path + [Index(k)])
  {
    var elem := MissingSkillDecoder(isUrl);
    var r := DecodeArray(v, path, elem);
    assert v.Some? && v.value.JArray? ==> forall k :: 0 <= k < |v.value.items| ==>
      (elem(v.value.items[k], path + [Index(0 + k)]).Ok? <==> IsMissingSkill(v.value.items[k], isUrl));
    if v.Some? && v.value.JArray? then MissingSkillsIssues(v, path, isUrl); r else r
  }

  /** Where the issues of a list of missing skills lie: below the list, and below every element that fails. */
  lemma MissingSkillsIssues(v: Option<Json>, path: Path, isUrl: string -> bool)
    requires v.Some? && v.value.JArray?
    ensures var r := DecodeArray(v, path, MissingSkillDecoder(isUrl));
      && Under(IssuesOf(r), path)
      && forall k :: 0 <= k < |v.value.items| && !IsMissingSkill(v.value.items[k], isUrl) ==>
           ReportsAt(IssuesOf(r), path + [Index(k)])
  {
    var elem := MissingSkillDecoder(isUrl);
    var r := DecodeArray(v, path, elem);
    var items := v.value.items;
    ItemIssuesReported(items, path, 0, elem);
    ItemIssuesOrigin(items, path, 0, elem);
    forall i | i in IssuesOf(r) ensures path <= i.path {
      var k :| 0 <= k < |items| && i in IssuesOf(elem(items[k], path + [Index(0 + k)]));
      UnderParent(IssuesOf(elem(items[k], path + [Index(0 + k)])), path, Index(k));
    }
    forall k | 0 <= k < |items| && !IsMissingSkill(items[k], isUrl) ensures ReportsAt(IssuesOf(r), path + [Index(k)]) {
      var es := IssuesOf(elem(items[k], path + [Index(0 + k)]));
      UnderReports(es, path + [Index(k)]);
      var i :| i in es && path + [Index(k)] <= i.path;
      assert i in IssuesOf(r);
    }
  }

  /** `SkillGapAnalyzerOutputSchema.parse`: succeeds exactly on conforming values, else reports at least one issue. */
  function DecodeOutput(j: Json, isUrl: string -> bool): (r: Decoded<Output>)
    ensures r.Ok? <==> IsOutput(j, isUrl)
    ensures r.Ok? ==>
              r.value == Output(DecodeMissingSkills(Get(j, "missingHardSkills"), [Key("missingHardSkills")], isUrl).value,
                                DecodeMissingSkills(Get(j, "missingSoftSkills"), [Key("missingSoftSkills")], isUrl).value)
    ensures r.Err? ==> r.error != []
    ensures !j.JObject? ==> r == Err([Issue([], InvalidType)])
    ensures j.JObject? ==> forall i :: i in IssuesOf(DecodeMissingSkills(Get(j, "missingHardSkills"), [Key("missingHardSkills")], isUrl))
                                       ==> i in IssuesOf(r)
    ensures j.JObject? ==> forall i :: i in IssuesOf(DecodeMissingSkills(Get(j, "missingSoftSkills"), [Key("missingSoftSkills")], isUrl))
                                       ==> i in IssuesOf(r)
    ensures j.JObject? && !IsMissingSkillList(Get(j, "missingHardSkills"), isUrl) ==>
              ReportsAt(IssuesOf(r), [Key("missingHardSkills")])
    ensures j.JObject? && !IsMissingSkillList(Get(j, "missingSoftSkills"), isUrl) ==>
              ReportsAt(IssuesOf(r), [Key("missingSoftSkills")])
  {
    if !j.JObject? then Err([Issue([], InvalidType)])
    else
      var hard := DecodeMissingSkills(Get(j, "missingHardSkills"), [Key("missingHardSkills")], isUrl);
      var soft := DecodeMissingSkills(Get(j, "missingSoftSkills"), [Key("missingSoftSkills")], isUrl);
      if hard.Ok? && soft.Ok? then Ok(Output(hard.value, soft.value))
      else
        UnderReports(IssuesOf(hard), [Key("missingHardSkills")]);
        UnderReports(IssuesOf(soft), [Key("missingSoftSkills")]);
        Err(IssuesOf(hard) + IssuesOf(soft))
  }

  /** `skillGapAnalyzer`: the validated reply to the prompt, and nothing more. */
  function Analyze(input: Input, courses: Json, dsa: Json, complete: string -> Option<string>,
                   parse: string -> Option<Json>, stringify: Json -> string, isUrl: string -> bool): (r: Result<Output, Error>)
    ensures var raw := complete(Prompt(input, courses, dsa, stringify));
      && (raw == None || raw == Some("") ==> r == Err(EmptyResponse))
      && (raw.Some? && raw.value != "" && parse(raw.value) == None ==> r == Err(MalformedReply))
      && (r.Ok? <==> raw.Some? && raw.value != "" && parse(raw.value).Some? && IsOutput(parse(raw.value).value, isUrl))
      && (r.Ok? ==> r.value == DecodeOutput(parse(raw.value).value, isUrl).value)
      && (raw.Some? && raw.value != "" && parse(raw.value).Some? && !IsOutput(parse(raw.value).value, isUrl) ==>
            r == Err(SchemaValidation(DecodeOutput(parse(raw.value).value, isUrl).error)))
  {
    var parsed :- Reply.ParseReply(complete(Prompt(input, courses, dsa, stringify)), parse);
    var d := DecodeOutput(parsed, isUrl);
    if d.Ok? then Ok(d.value) else Err(SchemaValidation(d.error))
  }

  function EncodeCourse(c: Course): Json
  {
    JObject(map["id" := JString(c.id), "skill" := JString(c.skill), "title" := JString(c.title),
                "provider" := JString(c.provider), "url" := JString(c.url)])
  }

  function EncodeDsaProblem(d: DsaProblem): Json
  {
    JObject(map["id" := JString(d.id), "skill" := JString(d.skill), "title" := JString(d.title), "url" := JString(d.url)])
  }

  /** An absent recommendation has no member; a null one is the member null. */
  function EncodeMissingSkill(m: MissingSkill): Json
  {
    var course := match m.recommendedCourse
      case Absent => map[]
      case Null => map["recommendedCourse" := JNull]
      case Present(c) => map["recommendedCourse" := EncodeCourse(c)];
    var dsa := match m.recommendedDSAProblem
      case Absent => map[]
      case Null => map["recommendedDSAProblem" := JNull]
      case Present(d) => map["recommendedDSAProblem" := EncodeDsaProblem(d)];
    JObject(map["skill" := JString(m.skill)] + course + dsa)
  }

  function EncodeMissingSkills(ms: seq<MissingSkill>): Json
  {
    JArray(seq(|ms|, k requires 0 <= k < |ms| => EncodeMissingSkill(ms[k])))
  }

  function EncodeOutput(o: Output): Json
  {
    JObject(map["missingHardSkills" := EncodeMissingSkills(o.missingHardSkills),
                "missingSoftSkills" := EncodeMissingSkills(o.missingSoftSkills)])
  }

  /** Every URL of a value passes the URL test. */
  predicate ValidMissingSkill(m: MissingSkill, isUrl: string -> bool)
  {
    && (m.recommendedCourse.Present? ==> isUrl(m.recommendedCourse.value.url))
    && (m.recommendedDSAProblem.Present? ==> isUrl(m.recommendedDSAProblem.value.url))
  }

  predicate ValidOutput(o: Output, isUrl: string -> bool)
  {
    && (forall k :: 0 <= k < |o.missingHardSkills| ==> ValidMissingSkill(o.missingHardSkills[k], isUrl))
    && (forall k :: 0 <= k < |o.missingSoftSkills| ==> ValidMissingSkill(o.missingSoftSkills[k], isUrl))
  }

  lemma DecodeEncodeMissingSkill(m: MissingSkill, path: Path, isUrl: string -> bool)
    requires ValidMissingSkill(m, isUrl)
    ensures DecodeMissingSkill(EncodeMissingSkill(m), path, isUrl) == Ok(m)
  {
    var j := EncodeMissingSkill(m);
    assert Get(j, "skill") == Some(JString(m.skill));
    match m.recommendedCourse {
      case Absent => assert Get(j, "recommendedCourse") == None;
      case Null => assert Get(j, "recommendedCourse") == Some(JNull);
      case Present(c) =>
        assert Get(j, "recommendedCourse") == Some(EncodeCourse(c));
        DecodeEncodeCourse(c, path + [Key("recommendedCourse")], isUrl);
    }
    match m.recommendedDSAProblem {
      case Absent => assert Get(j, "recommendedDSAProblem") == None;
      case Null => assert Get(j, "recommendedDSAProblem") == Some(JNull);
      case Present(d) =>
        assert Get(j, "recommendedDSAProblem") == Some(EncodeDsaProblem(d));
        DecodeEncodeDsaProblem(d, path + [Key("recommendedDSAProblem")], isUrl);
    }
    var r := DecodeMissingSkill(j, path, isUrl);
    assert r.Ok?;
    assert r.value.skill == m.skill;
  }

  /** A course with a valid URL decodes back from its encoding. */
  lemma DecodeEncodeCourse(c: Course, path: Path, isUrl: string -> bool)
    requires isUrl(c.url)
    ensures IsCourse(EncodeCourse(c), isUrl) && DecodeCourse(EncodeCourse(c), path, isUrl) == Ok(c)
  {
    var j := EncodeCourse(c);
    assert Get(j, "id") == Some(JString(c.id));
    assert Get(j, "url") == Some(JString(c.url));
  }

  /** A DSA problem with a valid URL decodes back from its encoding. */
  lemma DecodeEncodeDsaProblem(d: DsaProblem, path: Path, isUrl: string -> bool)
    requires isUrl(d.url)
    ensures IsDsaProblem(EncodeDsaProblem(d), isUrl) && DecodeDsaProblem(EncodeDsaProblem(d), path, isUrl) == Ok(d)
  {
    var j := EncodeDsaProblem(d);
    assert Get(j, "id") == Some(JString(d.id));
    assert Get(j, "url") == Some(JString(d.url));
  }

  lemma DecodeEncodeMissingSkills(ms: seq<MissingSkill>, path: Path, isUrl: string -> bool)
    requires forall k :: 0 <= k < |ms| ==> ValidMissingSkill(ms[k], isUrl)
    ensures DecodeMissingSkills(Some(EncodeMissingSkills(ms)), path, isUrl) == Ok(ms)
  {
    var items := EncodeMissingSkills(ms).items;
    var elem := MissingSkillDecoder(isUrl);
    forall k | 0 <= k < |ms| ensures elem(items[k], path + [Index(0 + k)]) == Ok(ms[k]) {
      DecodeEncodeMissingSkill(ms[k], path + [Index(0 + k)], isUrl);
    }
    var r := DecodeItems(items, path, 0, elem);
    assert r.Ok?;
    assert r.value == ms;
    assert DecodeArray(Some(EncodeMissingSkills(ms)), path, elem) == r;
  }

  /**
   * The result is the validated reply alone: a reply that is the encoding of a
   * well-formed output yields exactly that output, with no field added or lost.
   */
  lemma AnalyzeReturnsReply(input: Input, courses: Json, dsa: Json, complete: string -> Option<string>,
                            parse: string -> Option<Json>, stringify: Json -> string, isUrl: string -> bool, o: Output)
    requires ValidOutput(o, isUrl)
    requires var raw := complete(Prompt(input, courses, dsa, stringify));
      raw.Some? && raw.value != "" && parse(raw.value) == Some(EncodeOutput(o))
    ensures Analyze(input, courses, dsa, complete, parse, stringify, isUrl) == Ok(o)
  {
    DecodeEncodeOutput(o, isUrl);
  }

  /** A well-formed output decodes back from its encoding. */
  lemma DecodeEncodeOutput(o: Output, isUrl: string -> bool)
    requires ValidOutput(o, isUrl)
    ensures DecodeOutput(EncodeOutput(o), isUrl) == Ok(o)
  {
    var j := EncodeOutput(o);
    DecodeEncodeMissingSkills(o.missingHardSkills, [Key("missingHardSkills")], isUrl);
    DecodeEncodeMissingSkills(o.missingSoftSkills, [Key("missingSoftSkills")], isUrl);
    assert Get(j, "missingHardSkills") == Some(EncodeMissingSkills(o.missingHardSkills));
    assert Get(j, "missingSoftSkills") == Some(EncodeMissingSkills(o.missingSoftSkills));
  }

  /** Both lists may be empty, but neither may be missing. */
  lemma ListsRequiredButMayBeEmpty(isUrl: string -> bool)
    ensures DecodeOutput(JObject(map["missingHardSkills" := JArray([]), "missingSoftSkills" := JArray([])]), isUrl)
         == Ok(Output([], []))
    ensures DecodeOutput(JObject(map["missingHardSkills" := JArray([])]), isUrl)
         == Err([Issue([Key("missingSoftSkills")], InvalidType)])
  {
    var j := JObject(map["missingHardSkills" := JArray([])]);
    assert Get(j, "missingSoftSkills") == None;
    var hard := DecodeMissingSkills(Get(j, "missingHardSkills"), [Key("missingHardSkills")], isUrl);
    var soft := DecodeMissingSkills(Get(j, "missingSoftSkills"), [Key("missingSoftSkills")], isUrl);
    assert hard.Ok? && IssuesOf(hard) == [];
    assert soft == Err([Issue([Key("missingSoftSkills")], InvalidType)]);
    assert IssuesOf(hard) + IssuesOf(soft) == [Issue([Key("missingSoftSkills")], InvalidType)];
    assert DecodeOutput(j, isUrl) == Err(IssuesOf(hard) + IssuesOf(soft));
  }

  /**
   * An object with `id`, `skill`, `title` and a valid `url` but no `provider` is
   * a practice problem but not a course; the course issue names `provider`.
   */
  lemma ProviderRequiredOnlyForCourses(id: string, skill: string, title: string, url: string, path: Path,
                                       isUrl: string -> bool)
    requires isUrl(url)
    ensures var j := JObject(map["id" := JString(id), "skill" := JString(skill), "title" := JString(title), "url" := JString(url)]);
      && DecodeDsaProblem(j, path, isUrl) == Ok(DsaProblem(id, skill, title, url))
      && DecodeCourse(j, path, isUrl) == Err([Issue(path + [Key("provider")], InvalidType)])
  {
    var j := JObject(map["id" := JString(id), "skill" := JString(skill), "title" := JString(title), "url" := JString(url)]);
    assert Get(j, "provider") == None;
    assert Get(j, "url") == Some(JString(url));
    assert IssuesOf(DecodeString(Get(j, "id"), path + [Key("id")])) == [];
    assert IssuesOf(DecodeString(Get(j, "skill"), path + [Key("skill")])) == [];
    assert IssuesOf(DecodeString(Get(j, "title"), path + [Key("title")])) == [];
    assert IssuesOf(DecodeUrl(Get(j, "url"), path + [Key("url")], isUrl)) == [];
    var provider := DecodeString(Get(j, "provider"), path + [Key("provider")]);
    assert IssuesOf(provider) == [Issue(path + [Key("provider")], InvalidType)];
    assert [] + [] + [] + IssuesOf(provider) + [] == IssuesOf(provider);
    assert DecodeCourse(j, path, isUrl) == Err(IssuesOf(provider));
  }

  /** A skill with no recommendations, or with null ones, is valid; the two are told apart. */
  lemma RecommendationsOptional(skill: string, path: Path, isUrl: string -> bool)
    ensures DecodeMissingSkill(JObject(map["skill" := JString(skill)]), path, isUrl)
         == Ok(MissingSkill(skill, Absent, Absent))
    ensures DecodeMissingSkill(JObject(map["skill" := JString(skill), "recommendedCourse" := JNull,
                                           "recommendedDSAProblem" := JNull]), path, isUrl)
         == Ok(MissingSkill(skill, Null, Null))
  {
    var j := JObject(map["skill" := JString(skill)]);
    assert Get(j, "recommendedCourse") == None && Get(j, "recommendedDSAProblem") == None;
  }

  /**
   * A course copied whole from the catalog, with members the schema does not
   * name, is accepted; only the five schema fields are kept.
   */
  lemma CatalogCourseAccepted(c: Course, extra: map<string, Json>, path: Path, isUrl: string -> bool)
    requires isUrl(c.url)
    requires forall k :: k in extra ==> k !in {"id", "skill", "title", "provider", "url"}
    ensures DecodeCourse(JObject(EncodeCourse(c).fields + extra), path, isUrl) == Ok(c)
  {
    var j := JObject(EncodeCourse(c).fields + extra);
    assert Get(j, "id") == Some(JString(c.id));
    assert Get(j, "skill") == Some(JString(c.skill));
    assert Get(j, "title") == Some(JString(c.title));
    assert Get(j, "provider") == Some(JString(c.provider));
    assert Get(j, "url") == Some(JString(c.url));
  }
}
