# Mintfolio interview-prep core, modelled in Dafny

Mintfolio is an interview-preparation tool. It extracts the text of a resume
and a job description from PDF data URIs. It sends one JSON-mode chat prompt
per task to a hosted language model. It then normalises and validates the
reply against a zod schema. This project models the part of that pipeline that
does not depend on the network or on a UI:

- the five flows under `src/ai/flows`:
  - the prompt templates, with every literal copied exactly;
  - the empty-reply check and the `JSON.parse` failure;
  - the `||` alias fallback of the three string-reply flows (critique, interview
    question, suggested answer);
  - the zod output schemas, including the nullable-and-optional nested skill-gap
    schemas and the resume matcher's spread-then-override of the extracted texts;
- `extractTextFromPdf`: the payload split at the first comma and the
  accumulating loop over pages (an imperative `method` proved against a
  specification function);
- the sidebar's `getInitials`, the `displayName ?? email` choice and the
  exact-match active menu entry;
- the Python RAG pipeline's `_construct_prompt`, its fixed-result
  `VectorDatabase.search` and the argument flow of `generate_feedback`.

Built-ins whose internals are out of reach are function PARAMETERS, so each
contract holds for every implementation of them:
- `parse` stands for `JSON.parse`; `None` means it threw.
- `stringify` stands for `JSON.stringify`.
- `isUrl` stands for zod's `.url()` check.
- `complete` is the chat completion; `None` means the content was missing.
- `load` stands for base64 decoding plus pdfjs loading; `None` means the PDF
  was unreadable.
- `upper` stands for `toUpperCase`.
- `embed` is `_embed_text`, which is random in the source.
- `generate` is the LLM client's `generate`.

JSON values are the `Json` datatype; an object is a `map` from keys to values.
Reading a property follows JavaScript: reading from `null` throws a TypeError
(`NullProperty`), and reading from any other non-object gives `undefined`
(`None`). Truthiness follows section 7.1.2 (ToBoolean) of ECMA-262. A zod
failure is modelled as the list of issues, each with its field path and kind,
in schema order.

Modules and files:
- `wrappers.dfy`: `Option` and `Result`.
- `strings.dfy`: `split`, `join` and `charAt`.
- `json.dfy`: JSON values and truthiness.
- `errors.dfy`: paths, issues and the error taxonomy.
- `template.dfy`: template-literal interpolation.
- `reply.dfy`: the normaliser shared by the three string-reply flows.
- `schema.dfy`: the zod combinators.
- One file per flow.
- `pdf_parser.dfy`, `sidebar.dfy` and `rag_pipeline.dfy`.

Behaviour a reader might not expect, as the code has it:
- The alias fallback takes the first TRUTHY alias, not the first present one. An
  empty-string `text` is skipped (`AnswerCritique.EmptyTextAliasSkipped`).
- Extracted text ends every page with a newline, the last page included. So the
  text is not merely "pages separated by newlines" (`PdfParser.TextLines`).
- A data URI without a comma makes `Buffer.from(undefined)` throw. That failure
  is modelled as `DocumentParse(MissingPayload)`.
- A reply that parses to `null` makes the three string flows throw a TypeError
  (`NullProperty`) rather than a schema error.
- Only the three string-reply flows coerce. The resume matcher and the skill-gap
  analyser validate the parsed reply as it is.

## Model

| member | source | states |
|---|---|---|
| Json.IsObjectLike | src/ai/flows/answer-critique.ts:78 | `typeof v === 'object' && v !== null` holds exactly for values that are neither null nor a boolean, number or string |
| Json.Get | src/ai/flows/answer-critique.ts:77 | reading `obj.key` on a non-null value: undefined for anything but an object; for an object, defined exactly when the member exists, and then that member |
| Json.Truthy | src/ai/flows/answer-critique.ts:80 | ToBoolean (section 7.1.2 of ECMA-262): falsy exactly for undefined, null, false, 0 and ""; every array and object is truthy |
| Strings.Split | src/components/dashboard/sidebar.tsx:53 | `split(' ')` gives at least one piece, and no piece contains the separator |
| Strings.CharAt | src/components/dashboard/sidebar.tsx:54 | `charAt(i)` is the one character at `i`, or exactly "" when `i` is past the end |
| Strings.Join | src/lib/pdf-parser.ts:36 | `join`: no parts give "", one part gives that part unchanged; `Strings.JoinEnds` and `Strings.SplitJoin` state the rest |
| Strings.JoinEnds | aiml_pipeline/rag_pipeline.py:58 | a join begins with its first part and ends with its last, whatever the separator |
| Template.Interpolate | aiml_pipeline/rag_pipeline.py:59 | a template literal or f-string is exactly as long as its literal pieces and values together: nothing is added or dropped |
| Template.InterpolateJoin | aiml_pipeline/rag_pipeline.py:58 | a `"\n".join` spliced into an f-string is the interpolation of the joined parts with the separator as the literal pieces between them |
| Template.InterpolateEmbeds | src/ai/flows/answer-critique.ts:38-62 | an interpolated template starts with its first literal and contains every value verbatim, at increasing, non-overlapping offsets |
| Reply.ReplyText | src/ai/flows/answer-critique.ts:70-73 | a reply text fails exactly when it is missing or empty, and then with EmptyResponse; otherwise it is the non-empty reply |
| Reply.ParseReply | src/ai/flows/answer-critique.ts:70-74 | an empty or missing reply gives EmptyResponse before parsing; a reply the parser rejects gives MalformedReply; otherwise the result is the parsed value |
| Reply.ReadProperty | src/ai/flows/answer-critique.ts:77 | `parsedOutput.critique` throws a TypeError exactly when the reply parsed to null, and otherwise reads the member as `Json.Get` does |
| Reply.FirstTruthy | src/ai/flows/answer-critique.ts:80 | the chain of logical ors over the aliases, ending in the fallback, yields the fallback or a truthy value; with no aliases the fallback, and a truthy first alias is taken |
| Reply.Coerce | src/ai/flows/answer-critique.ts:78-81 | a value that is not an array or object, and undefined, is left as it is; an array or object becomes a truthy alias member or the string `JSON.stringify` gives |
| Reply.FirstTruthySelects | src/ai/flows/answer-critique.ts:80 | when alias `i` is truthy and every earlier alias is falsy, the `\|\|` chain yields alias `i`'s value |
| Reply.FirstTruthyFallback | src/ai/flows/answer-critique.ts:80 | when no alias is truthy, the chain yields the serialised fallback |
| Reply.FirstTruthyExhaustive | src/ai/flows/answer-critique.ts:80 | either no alias is truthy or some alias is the first truthy one: the two lemmas above cover every object |
| Reply.ValidateString | src/ai/flows/answer-critique.ts:28-32 | `z.string()` accepts exactly a present string and returns it; anything else gives one type issue at the field |
| Reply.CoerceAndValidate | src/ai/flows/answer-critique.ts:77-83 | the field validates as `s` exactly when it is the string `s`, or is an object or array whose first truthy alias is the string `s`, or has no truthy alias and serialises to `s` |
| Reply.CoerceMeaning | src/ai/flows/answer-critique.ts:78-81 | the coerced value is the string `s` exactly in the three cases the declarative description lists |
| Reply.NormalizeStringReply | src/ai/flows/answer-critique.ts:70-83 | empty gives EmptyResponse, unparseable gives MalformedReply, a `null` reply gives a `NullProperty` TypeError, success happens exactly on the accepted strings, any other failure of a parsed non-null reply is the `z.string()` issue at the field, and no other error is possible |
| Reply.StringFieldUnchanged | src/ai/flows/answer-critique.ts:77-83 | a field that is already a string is returned unchanged |
| Reply.FirstTruthyAliasTaken | src/ai/flows/answer-critique.ts:78-83 | an object field takes its first truthy alias; it is accepted when that alias is a string and rejected at the field otherwise |
| Reply.NoAliasStringified | src/ai/flows/answer-critique.ts:80-83 | an object field with no truthy alias becomes its own serialisation and is never dropped |
| Reply.ScalarFieldRejected | src/ai/flows/answer-critique.ts:77-83 | a missing, null, boolean or numeric field is not coerced and fails validation at the field |
| Reply.OtherMembersIgnored | src/ai/flows/answer-critique.ts:77-83 | two replies with the same field normalise identically, whatever their other members |
| AnswerCritique.Prompt | src/ai/flows/answer-critique.ts:38-62 | the prompt opens with the instructions and embeds the job description, the question and the answer verbatim, in that order |
| AnswerCritique.Normalize | src/ai/flows/answer-critique.ts:70-83 | the `critique` normaliser with aliases text, content, feedback: EmptyResponse, MalformedReply and the `null`-reply TypeError, acceptance exactly of the accepted strings, and no other error |
| AnswerCritique.Critique | src/ai/flows/answer-critique.ts:35-84 | `answerCritique` is the normalised completion of its own prompt: EmptyResponse on an empty completion, MalformedReply on an unparseable one, and success exactly on the accepted strings |
| AnswerCritique.NumericCritiqueRejected | src/ai/flows/answer-critique.ts:77-83 | `{"critique": 123}` fails with one type issue whose path is `critique` |
| AnswerCritique.EmptyTextAliasSkipped | src/ai/flows/answer-critique.ts:80 | an empty `text` alias is skipped in favour of a non-empty `content` |
| InterviewQuestions.Prompt | src/ai/flows/generate-interview-questions.ts:44-60 | the prompt embeds the resume and then the job description, verbatim |
| InterviewQuestions.Normalize | src/ai/flows/generate-interview-questions.ts:68-80 | the `interviewQuestion` normaliser with aliases text, content, question: the same error cases and accepted strings as the critique normaliser |
| InterviewQuestions.Generate | src/ai/flows/generate-interview-questions.ts:41-81 | the normalised completion of the prompt: EmptyResponse on an empty completion, MalformedReply on an unparseable one, and success exactly on the accepted strings |
| InterviewQuestions.ContentAliasScenario | src/ai/flows/generate-interview-questions.ts:75-80 | `{"interviewQuestion":{"content":"Describe a time you resolved a conflict."}}` yields that sentence |
| SuggestedAnswers.Prompt | src/ai/flows/generate-suggested-answers.ts:41-54 | the prompt embeds the job description and then the question, verbatim |
| SuggestedAnswers.Normalize | src/ai/flows/generate-suggested-answers.ts:62-74 | the `suggestedAnswer` normaliser with aliases text, content, answer: the same error cases and accepted strings as the critique normaliser |
| SuggestedAnswers.Generate | src/ai/flows/generate-suggested-answers.ts:38-75 | the normalised completion of the prompt: EmptyResponse on an empty completion, MalformedReply on an unparseable one, and success exactly on the accepted strings |
| SuggestedAnswers.NestedAliasRejected | src/ai/flows/generate-suggested-answers.ts:69-74 | an alias that is itself an object is taken, because it is truthy, and then fails validation; coercion goes only one level deep |
| Schema.DecodeString | src/ai/flows/skill-gap-analyzer.ts:34 | `z.string()` accepts exactly strings and returns them; otherwise one type issue at the path, so every issue lies under the path |
| Schema.DecodeNumber | src/ai/flows/resume-matcher.ts:35 | `z.number()` accepts exactly numbers (a numeric string is rejected); otherwise one type issue at the path, so every issue lies under the path |
| Schema.DecodeUrl | src/ai/flows/skill-gap-analyzer.ts:38 | `z.string().url()` accepts strings passing the URL test; a non-URL string is a URL issue and a non-string is a type issue, both at the path |
| Schema.DecodeNullish | src/ai/flows/skill-gap-analyzer.ts:50-51 | `.nullable().optional()`: absent gives Absent, null gives Null, anything else is the inner schema's result |
| Schema.DecodeArray | src/ai/flows/skill-gap-analyzer.ts:55-56 | `z.array`: a non-array is one type issue; an array is decoded element by element |
| Schema.DecodeItems | src/ai/flows/skill-gap-analyzer.ts:55-56 | elements succeed exactly when each one does, keeping order and length with element paths indexed from the start; otherwise there is at least one issue |
| Schema.ItemIssuesReported | src/ai/flows/skill-gap-analyzer.ts:55-56 | every issue of every element, reported at that element's indexed path, is among the array's issues |
| Schema.ItemIssuesOrigin | src/ai/flows/skill-gap-analyzer.ts:55-56 | every issue of the array is an issue of some element, at that element's indexed path |
| Schema.StringItemIssues | src/ai/flows/resume-matcher.ts:36 | in `z.array(z.string())`, each element that is not a string gives a type issue at its own index |
| PdfParser.Payload | src/lib/pdf-parser.ts:26 | `split(',')[1]` is missing exactly when there is no comma, and it never contains a comma |
| PdfParser.PayloadExists | src/lib/pdf-parser.ts:26 | a split on ',' has a second piece exactly when the URI contains a comma |
| PdfParser.PayloadAfterFirstComma | src/lib/pdf-parser.ts:26 | the payload is what lies between the first and the second comma, or after the only comma |
| PdfParser.ItemText | src/lib/pdf-parser.ts:36 | an item with `str` gives that string, an item without one gives "" |
| PdfParser.ItemTexts | src/lib/pdf-parser.ts:36 | a page's items map one-to-one to their strings, with "" for items that carry no `str` |
| PdfParser.PageText | src/lib/pdf-parser.ts:36 | a page with no items gives "", a page with one item gives that item's text |
| PdfParser.Text | src/lib/pdf-parser.ts:32-38 | the accumulated `fullText` is empty exactly when there are no pages, and has at least one character per page |
| PdfParser.AssembleText | src/lib/pdf-parser.ts:32-40 | the page loop's accumulated `fullText` equals the specification text of the whole document |
| PdfParser.ExtractedText | src/lib/pdf-parser.ts:25-41 | a URI without a comma gives MissingPayload, a payload the loader rejects gives UnreadablePdf, and a readable payload always gives the text of its pages |
| PdfParser.ExtractTextFromPdf | src/lib/pdf-parser.ts:25-41 | the method computes exactly the specified extraction result |
| PdfParser.TextAppend | src/lib/pdf-parser.ts:32-38 | the text of two concatenated page runs is the concatenation of their texts |
| PdfParser.TextCons | src/lib/pdf-parser.ts:32-38 | the text is the first page's text, a newline, then the rest |
| PdfParser.TextLines | src/lib/pdf-parser.ts:32-38 | with no newline inside items, the text's lines are the page texts in page order, followed by one empty line from the final newline |
| PdfParser.PageTextSlots | src/lib/pdf-parser.ts:36 | with no space inside items, splitting a page's text at spaces gives back its item strings in order |
| ResumeMatcher.Prompt | src/ai/flows/resume-matcher.ts:47-73 | the prompt embeds the resume text and then the job-description text, verbatim |
| ResumeMatcher.DecodeOutput | src/ai/flows/resume-matcher.ts:34-39 | the output schema accepts exactly conforming objects, keeps every schema field's value, and otherwise reports at least one issue |
| ResumeMatcher.DecodeOutputIssues | src/ai/flows/resume-matcher.ts:34-39 | a failure names each offender at its own path: a non-object at the root, a missing or mistyped field at its key, a non-string highlight at its index below `highlights` |
| ResumeMatcher.DecodeEncode | src/ai/flows/resume-matcher.ts:34-39 | every output value, once encoded, decodes back to itself |
| ResumeMatcher.Spread | src/ai/flows/resume-matcher.ts:88 | `{...parsedOutput}` has exactly the members reading `parsedOutput` would see, and none for a reply that is not an object |
| ResumeMatcher.WithExtractedTexts | src/ai/flows/resume-matcher.ts:87-91 | the spread object carries the two extracted texts and every other member of the reply unchanged |
| ResumeMatcher.Match | src/ai/flows/resume-matcher.ts:43-92 | resume extraction fails first, then job-description extraction; a result always carries the two extracted texts |
| ResumeMatcher.MatchReplyErrors | src/ai/flows/resume-matcher.ts:75-85 | after both texts are extracted, an empty completion gives EmptyResponse before parsing and an unparseable one gives MalformedReply |
| ResumeMatcher.MatchTexts | src/ai/flows/resume-matcher.ts:75-91 | from extracted texts: an empty completion gives EmptyResponse, an unparseable one MalformedReply, and a result carries the given texts whatever the reply said |
| ResumeMatcher.MatchOutcome | src/ai/flows/resume-matcher.ts:81-91 | given both texts and a parsed reply, success happens exactly when the reply's score and highlights conform, and the result holds the reply's score and highlights |
| ResumeMatcher.MatchIssues | src/ai/flows/resume-matcher.ts:87-91 | given both texts and a parsed reply that does not conform, the error carries exactly the issues of validating the merged object |
| ResumeMatcher.ReplyIssues | src/ai/flows/resume-matcher.ts:34-36 | the merged object's issues name the reply's own offenders: a score that is not a number, a `highlights` that is not an array, and each highlight that is not a string at its index |
| ResumeMatcher.ExtractionBeforeCompletion | src/ai/flows/resume-matcher.ts:44-45 | when an extraction fails, the completion is never consulted and the error is a document error |
| ResumeMatcher.NumericStringScoreRejected | src/ai/flows/resume-matcher.ts:34-39 | a `matchScore` of the string "85" is rejected with an issue at `matchScore` |
| ResumeMatcher.AnyScoreAccepted | src/ai/flows/resume-matcher.ts:35 | any number is accepted as a score; no range is enforced |
| SkillGapAnalyzer.Prompt | src/ai/flows/skill-gap-analyzer.ts:65-109 | the prompt embeds the job description, the resume and the two serialised catalogs, verbatim and in that order |
| SkillGapAnalyzer.DecodeCourse | src/ai/flows/skill-gap-analyzer.ts:33-39 | `CourseSchema` accepts exactly objects with string id, skill, title and provider and a URL, and returns those fields; a non-object is one type issue at the path, each missing or non-string field is a type issue at its key, a bad `url` is a URL issue (for a string) or a type issue at `url`, and every issue lies under the path |
| SkillGapAnalyzer.DecodeDsaProblem | src/ai/flows/skill-gap-analyzer.ts:41-46 | `DSASchema` accepts exactly objects with string id, skill and title and a URL, and returns those fields; a non-object is one type issue at the path, each missing or non-string field is a type issue at its key, a bad `url` is a URL issue (for a string) or a type issue at `url`, and every issue lies under the path |
| SkillGapAnalyzer.DecodeMissingSkill | src/ai/flows/skill-gap-analyzer.ts:48-52 | `MissingSkillSchema` accepts exactly a string skill with absent, null or valid recommendations; it keeps the skill, keeps absent and null apart, and a present course or problem is the one decoded from the reply's member; a non-object is one type issue at the path, a bad skill is a type issue at `skill`, an invalid course or problem is reported below its key, and every issue lies under the path |
| SkillGapAnalyzer.DecodeMissingSkills | src/ai/flows/skill-gap-analyzer.ts:55-56 | an array of missing skills is accepted exactly when every element is; the result has the same length and each element is the decoded element of the reply at the same index; a non-array is one type issue at the path, each invalid element is reported below its index, and every issue lies under the path |
| SkillGapAnalyzer.MissingSkillsIssues | src/ai/flows/skill-gap-analyzer.ts:55-56 | the issues of an array of missing skills lie under the array's path, and every invalid element is reported below its own index |
| SkillGapAnalyzer.DecodeOutput | src/ai/flows/skill-gap-analyzer.ts:54-57 | the output schema accepts exactly objects with two conforming arrays, and the value holds the two decoded lists; otherwise there is at least one issue: a non-object is one type issue at the root, the issues of both lists are kept, and a non-conforming list is reported below its key |
| SkillGapAnalyzer.Analyze | src/ai/flows/skill-gap-analyzer.ts:62-124 | an empty completion gives EmptyResponse, an unparseable one MalformedReply, a non-conforming one the schema issues; success happens exactly when the parsed reply conforms, with the decoded reply as the value |
| SkillGapAnalyzer.DecodeEncodeMissingSkill | src/ai/flows/skill-gap-analyzer.ts:48-52 | a missing skill whose URLs are valid decodes back from its encoding, nullness included |
| SkillGapAnalyzer.DecodeEncodeMissingSkills | src/ai/flows/skill-gap-analyzer.ts:55-56 | a list of such missing skills decodes back from its encoding |
| SkillGapAnalyzer.AnalyzeReturnsReply | src/ai/flows/skill-gap-analyzer.ts:121-123 | a reply that is a well-formed output is returned exactly, with nothing added |
| SkillGapAnalyzer.ListsRequiredButMayBeEmpty | src/ai/flows/skill-gap-analyzer.ts:54-57 | two empty lists are accepted, and a missing soft-skill list fails with one type issue at `missingSoftSkills` |
| SkillGapAnalyzer.ProviderRequiredOnlyForCourses | src/ai/flows/skill-gap-analyzer.ts:33-46 | an object without `provider` is a valid practice problem but not a course, and the one issue names `provider` |
| SkillGapAnalyzer.CatalogCourseAccepted | src/ai/flows/skill-gap-analyzer.ts:33-39 | a course copied whole from the catalog, with members the schema does not name, is accepted and keeps only the five schema fields |
| SkillGapAnalyzer.RecommendationsOptional | src/ai/flows/skill-gap-analyzer.ts:50-51 | absent and null recommendations are both accepted, and they stay distinct |
| Sidebar.AvatarName | src/components/dashboard/sidebar.tsx:110 | `displayName ?? email`: the email is used only when the display name is missing |
| Sidebar.InitialLetters | src/components/dashboard/sidebar.tsx:51-56 | at most two characters are used, and every one of them comes from the name |
| Sidebar.GetInitials | src/components/dashboard/sidebar.tsx:51-56 | a missing or empty name gives "U"; otherwise the result is the upper-cased initials |
| Sidebar.NoSpace | src/components/dashboard/sidebar.tsx:54 | a name without spaces gives its first character, upper-cased |
| Sidebar.FirstInitialIsFirstCharacter | src/components/dashboard/sidebar.tsx:53-55 | a name not starting with a space contributes its first character first |
| Sidebar.TwoTokens | src/components/dashboard/sidebar.tsx:55 | two tokens give the first character of each |
| Sidebar.MiddleIgnored | src/components/dashboard/sidebar.tsx:53-55 | the first and last tokens decide; tokens in between are ignored |
| Sidebar.TrailingSpace | src/components/dashboard/sidebar.tsx:53-55 | a trailing space makes the last token empty, leaving only the first initial |
| Sidebar.EmptyDisplayNameKept | src/components/dashboard/sidebar.tsx:110 | an empty display name is not replaced by the email, and it gives "U" |
| Sidebar.ActiveFlags | src/components/dashboard/sidebar.tsx:87-91 | there is one flag per menu entry, in order, and a flag is set exactly when the path equals that entry's href |
| Sidebar.AtMostOneActive | src/components/dashboard/sidebar.tsx:34-38 | the hrefs are distinct, so at most one entry is active |
| Sidebar.ExactMatchOnly | src/components/dashboard/sidebar.tsx:91 | matching is exact: a trailing slash or a prefix activates nothing extra |
| RagPipeline.Search | aiml_pipeline/rag_pipeline.py:22-27 | the search returns the two sample contexts, best score first, whatever the query and `k` |
| RagPipeline.Texts | aiml_pipeline/rag_pipeline.py:58 | the context texts, one per retrieved context, in order |
| RagPipeline.ConstructPrompt | aiml_pipeline/rag_pipeline.py:57-59 | the prompt starts with the context header, ends with the answer instruction, and holds every context text and then the query verbatim, in retrieval order, whatever characters they contain |
| RagPipeline.PromptEmbeds | aiml_pipeline/rag_pipeline.py:57-59 | the f-string is an interpolation of the context texts and the query between fixed pieces, with newlines between texts as the inner pieces |
| RagPipeline.PromptLines | aiml_pipeline/rag_pipeline.py:57-59 | line by line, the prompt is the header, each context text in retrieval order, a blank line, the query header, the query, a blank line and the instruction |
| RagPipeline.ScoresAndSourcesIgnored | aiml_pipeline/rag_pipeline.py:58 | relevance scores and source ids do not affect the prompt |
| RagPipeline.GenerateFeedback | aiml_pipeline/rag_pipeline.py:38-51 | the feedback is the model's answer to the prompt whose query is the resume text alone, over the sample contexts |
| RagPipeline.JobDescriptionDoesNotMatter | aiml_pipeline/rag_pipeline.py:40-46 | the job description, the store and the embedding never change the feedback |
| RagPipeline.SamplePromptLines | aiml_pipeline/rag_pipeline.py:57-59 | the lines of the prompt over the sample contexts, written out |

## Left out

- The chat completion calls are left out: model names, the JSON response format, the 120-second timeout, the API key and transport failures (ModelUnavailableError). The completion is a parameter returning the reply content or `None`.
- `JSON.parse`, `JSON.stringify`, zod's URL check and `toUpperCase` are built-ins, so they are parameters. The model does not capture duplicate-key handling, key order or Unicode case mapping.
- Base64 decoding, pdfjs (`getDocument`, `getPage`, `getTextContent`), the `Promise.withResolvers` polyfill and the worker path are library and environment code. Loading is a parameter that returns the pages' items or `None`.
- Zod's issue messages and its issue codes other than "invalid type" and "invalid URL" are not modelled. An issue keeps only its path and kind. Unknown-key stripping is modelled: the decoded values hold only schema fields.
- JSON numbers are exact reals (`JNumber(n: real)`). IEEE-754 doubles are not modelled. So rounding is not modelled, and neither is the Infinity that `JSON.parse("1e400")` produces and `z.number()` accepts.
- ResumeMatcher.Spread, ResumeMatcher.WithExtractedTexts: `{...parsedOutput}` on an array or a string copies its index keys ("0", "1", ...); the model copies none, so such a reply contributes no members. No schema key is an index, so validation and its result are the same either way.
- Strings are sequences of characters, not UTF-16 code units. So `charAt` on a character outside the BMP differs from JavaScript.
- `add_documents` only prints, and `VectorDatabase.index` is never used, so both are left out. `_embed_text` draws random numbers and is the parameter `embed`.
- The React UI, the chatbot's state handling, the file uploader, Firebase sign-out and routing, and the Python ML modules (semantic engine, contrastive learning, NER) are not part of this model.
