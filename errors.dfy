/**
 * The failures a flow surfaces to its caller, and the issues of a failed
 * schema validation (a ZodError lists one issue per offending value, each with
 * the path from the validated root to that value).
 */
module Errors {

  datatype PathSegment = Key(name: string) | Index(i: nat)

  type Path = seq<PathSegment>

  /** zod's `invalid_type` (wrong type or missing) and `invalid_string` for `.url()`. */
  datatype IssueCode = InvalidType | InvalidUrl

  datatype Issue = Issue(path: Path, code: IssueCode)

  /** Why a PDF data URI yields no text. */
  datatype DocumentFault =
    | MissingPayload   // `split(',')[1]` is undefined, which `Buffer.from` rejects
    | UnreadablePdf    // the payload does not load as a PDF document

  datatype Error =
    | DocumentParse(fault: DocumentFault)
    | EmptyResponse                        // 'No response from Mistral AI'
    | MalformedReply                       // `JSON.parse` throws
    | NullProperty(key: string)            // reading `key` of a reply that parsed to null
    | SchemaValidation(issues: seq<Issue>) // `Schema.parse` throws a ZodError
}
