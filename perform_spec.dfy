/** The performer as functions of its inputs: what each step of a run computes,
    which collaborators it asks, what it writes to the build log and where an
    exception ends up. The methods of module JvctglPerformer are proved equal
    to these functions; the lemmas of module PerformerProperties are about them. */
module PerformSpec {
  import opened Java
  import opened Config
  import opened Collaborators

  /** The configuration fields that logConfiguration prints. */
  datatype Field =
    | GitLabUrlField | ProjectIdField | MergeRequestIdField
    | UseApiTokenField | ApiTokenField
    | UseApiTokenCredentialsField | ApiTokenCredentialsIdField
    | IgnoreCertificateErrorsField | ApiTokenPrivateField | AuthMethodHeaderField
    | CreateCommentWithAllSingleFileCommentsField | CommentOnlyChangedContentField

  /** The exceptions a run can meet. */
  datatype Failure =
    | EnvironmentUnavailable           // build.getEnvironment throws
    | CredentialStoreUnavailable       // findApiTokenCredentials throws
    | ParserCrashed(reporter: Reporter) // a violations-lib parser throws
    | ApiTokenMissing                  // checkNotNull(emptyToNull(apiToken)) throws
    | ProjectIdNotNumeric              // Integer.parseInt(projectId) throws
    | MergeRequestIdNotNumeric         // Integer.parseInt(mergeRequestId) throws
    | CommentingFailed                 // toPullRequest() throws

  /** One line (or group of lines) written to the build log. */
  datatype LogEvent =
    | NoMergeRequestIdDefined
    | FoundViolations(count: nat, from: ViolationConfig)
    | WillCommentPr(hostUrl: JString, projectId: JString, mergeRequestId: JString)
    | ExceptionReported(failure: Failure)
    | Banner
    | ConfigValue(field: Field, value: JString)
    | ConfigFlag(field: Field, flag: bool)
    | SecretIsSet(field: Field, isSet: bool)
    | ReporterWithPattern(reporter: Reporter, pattern: JString)
    | UsingCredentialsToken
    | CredentialsNotFound
    | CredentialsNotSelected
    | WillComment(mergeRequestId: JString)
    | WorkspaceAt(folder: string)

  /** How doPerform ends: the early exit, a delivered comment, an exception its
      own handler caught, or an exception that leaves it. */
  datatype PerformResult =
    | NoMergeRequest
    | Commented
    | CaughtInside(failure: Failure)
    | Escaped(failure: Failure)

  /** doPerform's result with everything it did on the way. */
  datatype Performed = Performed(
    result: PerformResult,
    log: seq<LogEvent>,
    parserCalls: seq<ParseRequest>,
    publishCalls: seq<PublishCall>)

  /** The state of the collection loop: the violations gathered so far, the
      log lines, the parser invocations, and the reporter whose parser threw. */
  datatype Collection = Collection(
    violations: seq<Violation>,
    log: seq<LogEvent>,
    calls: seq<ParseRequest>,
    crashed: Option<Reporter>)

  /** setApiTokenCredentials' effect: the token afterwards, its log lines, the
      identifiers it looked up, and whether the store threw. */
  datatype Resolution = Resolution(
    apiToken: JString,
    log: seq<LogEvent>,
    lookups: seq<string>,
    storeFailed: bool)

  /** How jvctsPerform ends: always a normal return, either with doPerform's
      result or after its catch-all handler suppressed a failure. */
  datatype RunStatus = Returned(result: PerformResult) | Suppressed(failure: Failure)

  datatype RunOutcome = RunOutcome(
    status: RunStatus,
    log: seq<LogEvent>,
    lookups: seq<string>,
    parserCalls: seq<ParseRequest>,
    publishCalls: seq<PublishCall>)

  // ----- expand -----------------------------------------------------------

  /** e is c with the URL, both identifiers and every pattern passed through
      the expander, and every other field, every reporter and the order and
      number of violation configs kept. */
  predicate ExpandsTo(c: ConfigData, expand: Expander, e: ConfigData) {
    && e.gitLabUrl == expand(c.gitLabUrl)
    && e.projectId == expand(c.projectId)
    && e.mergeRequestId == expand(c.mergeRequestId)
    && e.useApiToken == c.useApiToken
    && e.apiToken == c.apiToken
    && e.useApiTokenCredentials == c.useApiTokenCredentials
    && e.apiTokenCredentialsId == c.apiTokenCredentialsId
    && e.authMethodHeader == c.authMethodHeader
    && e.apiTokenPrivate == c.apiTokenPrivate
    && e.ignoreCertificateErrors == c.ignoreCertificateErrors
    && e.commentOnlyChangedContent == c.commentOnlyChangedContent
    && e.createCommentWithAllSingleFileComments == c.createCommentWithAllSingleFileComments
    && |e.violationConfigs| == |c.violationConfigs|
    && forall i :: 0 <= i < |c.violationConfigs| ==>
         e.violationConfigs[i] == ViolationConfig(c.violationConfigs[i].reporter, expand(c.violationConfigs[i].pattern))
  }

  function ExpandViolationConfigs(vcs: seq<ViolationConfig>, expand: Expander): (r: seq<ViolationConfig>)
    ensures |r| == |vcs|
    ensures forall i :: 0 <= i < |vcs| ==> r[i].reporter == vcs[i].reporter && r[i].pattern == expand(vcs[i].pattern)
  {
    if vcs == [] then []
    else [ViolationConfig(vcs[0].reporter, expand(vcs[0].pattern))] + ExpandViolationConfigs(vcs[1..], expand)
  }

  /** The configuration expand returns. */
  function Expanded(c: ConfigData, expand: Expander): (e: ConfigData)
    ensures ExpandsTo(c, expand, e)
  {
    c.(gitLabUrl := expand(c.gitLabUrl),
       projectId := expand(c.projectId),
       mergeRequestId := expand(c.mergeRequestId),
       violationConfigs := ExpandViolationConfigs(c.violationConfigs, expand))
  }

  // ----- logConfiguration ---------------------------------------------------

  /** The log lines of logConfiguration: values of the URL and identifiers,
      the flags, only whether the token and the credentials id are set, and
      one line per violation config. */
  function ConfigurationLog(c: ConfigData): (log: seq<LogEvent>)
    ensures |log| == 12 + |c.violationConfigs|
    ensures forall i :: 12 <= i < |log| ==>
              log[i] == ReporterWithPattern(c.violationConfigs[i - 12].reporter, c.violationConfigs[i - 12].pattern)
  {
    [ ConfigValue(GitLabUrlField, c.gitLabUrl),
      ConfigValue(ProjectIdField, c.projectId),
      ConfigValue(MergeRequestIdField, c.mergeRequestId),
      ConfigFlag(UseApiTokenField, c.useApiToken),
      SecretIsSet(ApiTokenField, !IsNullOrEmpty(c.apiToken)),
      ConfigFlag(UseApiTokenCredentialsField, c.useApiTokenCredentials),
      SecretIsSet(ApiTokenCredentialsIdField, !IsNullOrEmpty(c.apiTokenCredentialsId)),
      ConfigFlag(IgnoreCertificateErrorsField, c.ignoreCertificateErrors),
      ConfigFlag(ApiTokenPrivateField, c.apiTokenPrivate),
      ConfigFlag(AuthMethodHeaderField, c.authMethodHeader),
      ConfigFlag(CreateCommentWithAllSingleFileCommentsField, c.createCommentWithAllSingleFileComments),
      ConfigFlag(CommentOnlyChangedContentField, c.commentOnlyChangedContent) ]
    + seq(|c.violationConfigs|, i requires 0 <= i < |c.violationConfigs| =>
            ReporterWithPattern(c.violationConfigs[i].reporter, c.violationConfigs[i].pattern))
  }

  // ----- setApiTokenCredentials ----------------------------------------------

  /** The credentials flag is on and a credentials id is given. */
  predicate CredentialsSelected(c: ConfigData) {
    c.useApiTokenCredentials && !IsNullOrEmpty(c.apiTokenCredentialsId)
  }

  function ResolveCredentials(c: ConfigData, store: CredentialStore): (r: Resolution)
    ensures r.apiToken != c.apiToken ==>
              CredentialsSelected(c) && store(c.apiTokenCredentialsId.value).Found?
              && r.apiToken == Some(store(c.apiTokenCredentialsId.value).secret)
    ensures CredentialsSelected(c) && store(c.apiTokenCredentialsId.value).Found? ==>
              r.apiToken == Some(store(c.apiTokenCredentialsId.value).secret)
    ensures r.lookups == if CredentialsSelected(c) then [c.apiTokenCredentialsId.value] else []
    ensures r.storeFailed <==> CredentialsSelected(c) && store(c.apiTokenCredentialsId.value).StoreFailed?
  {
    if !c.useApiTokenCredentials then Resolution(c.apiToken, [], [], false)
    else if IsNullOrEmpty(c.apiTokenCredentialsId) then Resolution(c.apiToken, [CredentialsNotSelected], [], false)
    else
      var id := c.apiTokenCredentialsId.value;
      match store(id)
      case Found(secret) => Resolution(Some(secret), [UsingCredentialsToken], [id], false)
      case NotFound => Resolution(c.apiToken, [CredentialsNotFound], [id], false)
      case StoreFailed => Resolution(c.apiToken, [], [id], true)
  }

  // ----- the collection loop of doPerform -------------------------------------

  function RequestFor(vc: ViolationConfig, folder: string): ParseRequest
    requires !IsNullOrEmpty(vc.pattern)
  {
    ParseRequest(vc.reporter, folder, vc.pattern.value)
  }

  /** The collection loop after it has visited vcs, in order; once a parser
      has thrown, nothing further happens. Every parser call but a throwing
      one is followed by one "found" line. */
  function Collect(vcs: seq<ViolationConfig>, folder: string, parse: Parser): (r: Collection)
    ensures |r.calls| <= |vcs|
    ensures |r.log| + (if r.crashed.Some? then 1 else 0) == |r.calls|
    decreases |vcs|
  {
    if vcs == [] then Collection([], [], [], None)
    else
      var prev := Collect(vcs[..|vcs| - 1], folder, parse);
      var vc := vcs[|vcs| - 1];
      if prev.crashed.Some? || IsNullOrEmpty(vc.pattern) then prev
      else
        var req := RequestFor(vc, folder);
        match parse(req)
        case ParseFailed => prev.(calls := prev.calls + [req], crashed := Some(vc.reporter))
        case Parsed(vs) =>
          prev.(violations := prev.violations + vs,
                log := prev.log + [FoundViolations(|vs|, vc)],
                calls := prev.calls + [req])
  }

  // ----- doPerform ------------------------------------------------------------

  function TokenTypeOf(c: ConfigData): (t: TokenType)
    ensures t == PrivateToken <==> c.apiTokenPrivate
  {
    if c.apiTokenPrivate then PrivateToken else AccessToken
  }

  function AuthMethodOf(c: ConfigData): (m: AuthMethod)
    ensures m == Header <==> c.authMethodHeader
  {
    if c.authMethodHeader then Header else UrlParameter
  }

  function Perform(c: ConfigData, folder: string, parse: Parser, client: Client): (p: Performed)
    ensures |p.publishCalls| <= 1
    ensures p.result == NoMergeRequest <==> c.mergeRequestId.None?
    ensures p.result.CaughtInside? ==> |p.log| > 0 && p.log[|p.log| - 1] == ExceptionReported(p.result.failure)
  {
    if c.mergeRequestId.None? then Performed(NoMergeRequest, [NoMergeRequestIdDefined], [], [])
    else
      var col := Collect(c.violationConfigs, folder, parse);
      if col.crashed.Some? then Performed(Escaped(ParserCrashed(col.crashed.value)), col.log, col.calls, [])
      else if IsNullOrEmpty(c.apiToken) then Performed(Escaped(ApiTokenMissing), col.log, col.calls, [])
      else
        var log := col.log + [WillCommentPr(c.gitLabUrl, c.projectId, c.mergeRequestId)];
        var projectId := ParseInt(c.projectId);
        var mergeRequestId := ParseInt(c.mergeRequestId);
        if projectId.None? then
          Performed(CaughtInside(ProjectIdNotNumeric), log + [ExceptionReported(ProjectIdNotNumeric)], col.calls, [])
        else if mergeRequestId.None? then
          Performed(CaughtInside(MergeRequestIdNotNumeric), log + [ExceptionReported(MergeRequestIdNotNumeric)], col.calls, [])
        else
          var call := PublishCall(c.gitLabUrl, projectId.value, mergeRequestId.value, c.apiToken.value,
                                  TokenTypeOf(c), AuthMethodOf(c), c.commentOnlyChangedContent,
                                  c.createCommentWithAllSingleFileComments, c.ignoreCertificateErrors,
                                  col.violations);
          match client(call)
          case Delivered => Performed(Commented, log, col.calls, [call])
          case Rejected =>
            Performed(CaughtInside(CommentingFailed), log + [ExceptionReported(CommentingFailed)], col.calls, [call])
  }

  // ----- jvctsPerform ---------------------------------------------------------

  /** The outcome of the outer catch-all handler for failure f. */
  function Suppress(f: Failure, log: seq<LogEvent>, lookups: seq<string>,
                    parserCalls: seq<ParseRequest>, publishCalls: seq<PublishCall>): (r: RunOutcome)
    ensures r.status == Suppressed(f) && |r.log| > 0 && r.log[|r.log| - 1] == ExceptionReported(f)
  {
    RunOutcome(Suppressed(f), log + [ExceptionReported(f)], lookups, parserCalls, publishCalls)
  }

  function Run(raw: ConfigData, env: Environment, folder: string, store: CredentialStore,
               parse: Parser, client: Client): (r: RunOutcome)
    ensures !(r.status.Returned? && r.status.result.Escaped?)
    ensures r.status.Suppressed? ==> |r.log| > 0 && r.log[|r.log| - 1] == ExceptionReported(r.status.failure)
    ensures |r.publishCalls| <= 1 && |r.lookups| <= 1
  {
    match env
    case EnvironmentFailed => Suppress(EnvironmentUnavailable, [], [], [], [])
    case Environment(expand) =>
      var c := Expanded(raw, expand);
      var res := ResolveCredentials(c, store);
      var log := [Banner] + ConfigurationLog(c) + res.log;
      if res.storeFailed then Suppress(CredentialStoreUnavailable, log, res.lookups, [], [])
      else
        var resolved := c.(apiToken := res.apiToken);
        var p := Perform(resolved, folder, parse, client);
        Conclude(p, log + [WillComment(resolved.mergeRequestId), WorkspaceAt(folder)] + p.log, res.lookups)
  }

  /** How jvctsPerform ends once doPerform has run: an exception escaping
      doPerform is reported by the outer handler and the run returns normally. */
  function Conclude(p: Performed, log: seq<LogEvent>, lookups: seq<string>): (r: RunOutcome)
    ensures !(r.status.Returned? && r.status.result.Escaped?)
    ensures r.status.Suppressed? <==> p.result.Escaped?
    ensures r.status.Suppressed? ==> r.status.failure == p.result.failure && r.log == log + [ExceptionReported(p.result.failure)]
    ensures r.status.Returned? ==> r.status.result == p.result && r.log == log
    ensures r.lookups == lookups && r.parserCalls == p.parserCalls && r.publishCalls == p.publishCalls
  {
    if p.result.Escaped? then Suppress(p.result.failure, log, lookups, p.parserCalls, p.publishCalls)
    else RunOutcome(Returned(p.result), log, lookups, p.parserCalls, p.publishCalls)
  }
}
