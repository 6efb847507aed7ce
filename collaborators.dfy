/** The code the performer calls but does not own, seen only at its interface:
    the environment expander, the per-format report parsers, the credential
    store and the GitLab commenting client. Each is a parameter of the model;
    what the performer asks of it is recorded in the outcome. */
module Collaborators {
  import opened Java
  import opened Config

  /** A finding of a static-analysis tool; passed through, never inspected. */
  datatype Violation = Violation(file: string, startLine: int, reporter: Reporter, severity: string, message: string)

  /** One parser invocation: findAll(reporter).inFolder(folder).withPattern(pattern). */
  datatype ParseRequest = ParseRequest(reporter: Reporter, folder: string, pattern: string)

  /** What a parser invocation yields: its violations, or an exception. */
  datatype ParseResult = Parsed(violations: seq<Violation>) | ParseFailed

  type Parser = ParseRequest -> ParseResult

  /** findApiTokenCredentials(id): the secret, an absent Optional, or an exception. */
  datatype CredentialLookup = Found(secret: string) | NotFound | StoreFailed

  type CredentialStore = string -> CredentialLookup

  /** EnvVars.expand. */
  type Expander = JString -> JString

  /** build.getEnvironment(listener): the build's variables, or an exception. */
  datatype Environment = Environment(expand: Expander) | EnvironmentFailed

  datatype TokenType = PrivateToken | AccessToken

  datatype AuthMethod = Header | UrlParameter

  /** Everything handed to violationCommentsToGitLabApi() before toPullRequest(). */
  datatype PublishCall = PublishCall(
    hostUrl: JString,
    projectId: int,
    mergeRequestId: int,
    apiToken: string,
    tokenType: TokenType,
    authMethod: AuthMethod,
    commentOnlyChangedContent: bool,
    createCommentWithAllSingleFileComments: bool,
    ignoreCertificateErrors: bool,
    violations: seq<Violation>)

  /** How toPullRequest() ends: normally, or with an exception. */
  datatype ClientResult = Delivered | Rejected

  type Client = PublishCall -> ClientResult
}
