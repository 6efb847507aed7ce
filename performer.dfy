/** The static methods of JvctglPerformer, step by step as the Java code runs
    them, each proved to compute what module PerformSpec says it does. The
    remote FilePath.act hop is a direct call; the build log is returned as
    the sequence of lines each method writes. */
module JvctglPerformer {
  import opened Java
  import opened Config
  import opened Collaborators
  import opened PerformSpec
  import PerformerProperties

  /** expand: a fresh bean holding the URL and both identifiers passed through
      the environment and every other scalar field copied, to whose list of
      violation configs each config, its pattern expanded, is appended in
      order. The input is not modified. */
  method Expand(config: ViolationsToGitLabConfig, environment: Expander) returns (expanded: ViolationsToGitLabConfig)
    ensures fresh(expanded)
    ensures expanded.Snapshot() == Expanded(config.Snapshot(), environment)
  {
    var c := config.Snapshot();
    expanded := new ViolationsToGitLabConfig(ConfigData(
      environment(c.gitLabUrl), environment(c.projectId), environment(c.mergeRequestId),
      c.useApiToken, c.apiToken,
      c.useApiTokenCredentials, c.apiTokenCredentialsId,
      c.authMethodHeader, c.apiTokenPrivate, c.ignoreCertificateErrors,
      c.commentOnlyChangedContent, c.createCommentWithAllSingleFileComments,
      []));
    var vcs := c.violationConfigs;
    ghost var target := ExpandViolationConfigs(vcs, environment);
    ghost var before := expanded.Snapshot();
    for i := 0 to |vcs|
      modifies expanded`violationConfigs
      invariant expanded.violationConfigs == target[..i]
    {
      var violationConfig := vcs[i];
      var p := ViolationConfig(violationConfig.reporter, environment(violationConfig.pattern));
      expanded.violationConfigs := expanded.violationConfigs + [p];
    }
    assert target[..|vcs|] == target;
    assert expanded.Snapshot() == before.(violationConfigs := target);
  }

  /** logConfiguration: the lines it writes. */
  method LogConfiguration(config: ViolationsToGitLabConfig) returns (log: seq<LogEvent>)
    ensures log == ConfigurationLog(config.Snapshot())
  {
    log := [ ConfigValue(GitLabUrlField, config.gitLabUrl),
             ConfigValue(ProjectIdField, config.projectId),
             ConfigValue(MergeRequestIdField, config.mergeRequestId),
             ConfigFlag(UseApiTokenField, config.useApiToken),
             SecretIsSet(ApiTokenField, !IsNullOrEmpty(config.apiToken)),
             ConfigFlag(UseApiTokenCredentialsField, config.useApiTokenCredentials),
             SecretIsSet(ApiTokenCredentialsIdField, !IsNullOrEmpty(config.apiTokenCredentialsId)),
             ConfigFlag(IgnoreCertificateErrorsField, config.ignoreCertificateErrors),
             ConfigFlag(ApiTokenPrivateField, config.apiTokenPrivate),
             ConfigFlag(AuthMethodHeaderField, config.authMethodHeader),
             ConfigFlag(CreateCommentWithAllSingleFileCommentsField, config.createCommentWithAllSingleFileComments),
             ConfigFlag(CommentOnlyChangedContentField, config.commentOnlyChangedContent) ];
    var vcs := config.violationConfigs;
    for i := 0 to |vcs|
      invariant |log| == 12 + i
      invariant log[..12] == ConfigurationLog(config.Snapshot())[..12]
      invariant forall k :: 12 <= k < |log| ==> log[k] == ReporterWithPattern(vcs[k - 12].reporter, vcs[k - 12].pattern)
    {
      log := log + [ReporterWithPattern(vcs[i].reporter, vcs[i].pattern)];
    }
  }

  /** setApiTokenCredentials: overwrites the token in place when the selected
      credentials are found; otherwise leaves the configuration as it is. */
  method SetApiTokenCredentials(configExpanded: ViolationsToGitLabConfig, store: CredentialStore)
    returns (log: seq<LogEvent>, lookups: seq<string>, storeFailed: bool)
    modifies configExpanded
    ensures var r := ResolveCredentials(old(configExpanded.Snapshot()), store);
            && configExpanded.Snapshot() == old(configExpanded.Snapshot()).(apiToken := r.apiToken)
            && log == r.log && lookups == r.lookups && storeFailed == r.storeFailed
  {
    log, lookups, storeFailed := [], [], false;
    if configExpanded.useApiTokenCredentials {
      var credentialsId := configExpanded.apiTokenCredentialsId;
      if !IsNullOrEmpty(credentialsId) {
        lookups := [credentialsId.value];
        var credentials := store(credentialsId.value);
        match credentials
        case Found(secret) =>
          configExpanded.apiToken := Some(secret);
          log := [UsingCredentialsToken];
        case NotFound =>
          log := [CredentialsNotFound];
          return;
        case StoreFailed =>
          storeFailed := true;
      } else {
        log := [CredentialsNotSelected];
        return;
      }
    }
  }

  /** doPerform: the early exit, the collection loop, the token check, the
      identifier parsing and the one call to the commenting client. */
  method DoPerform(config: ViolationsToGitLabConfig, workspace: string, parse: Parser, client: Client)
    returns (p: Performed)
    ensures p == Perform(config.Snapshot(), workspace, parse, client)
  {
    if config.mergeRequestId.None? {
      return Performed(NoMergeRequest, [NoMergeRequestIdDefined], [], []);
    }

    var vcs := config.violationConfigs;
    var allParsedViolations: seq<Violation> := [];
    var log: seq<LogEvent> := [];
    var calls: seq<ParseRequest> := [];
    for i := 0 to |vcs|
      invariant Collect(vcs[..i], workspace, parse) == Collection(allParsedViolations, log, calls, None)
    {
      assert vcs[..i + 1][..i] == vcs[..i];
      var violationConfig := vcs[i];
      if !IsNullOrEmpty(violationConfig.pattern) {
        var request := ParseRequest(violationConfig.reporter, workspace, violationConfig.pattern.value);
        calls := calls + [request];
        var parsed := parse(request);
        if parsed.ParseFailed? {
          PerformerProperties.CollectKeepsCrash(vcs, i + 1, workspace, parse);
          assert vcs[..|vcs|] == vcs;
          return Performed(Escaped(ParserCrashed(violationConfig.reporter)), log, calls, []);
        }
        var parsedViolations := parsed.violations;
        allParsedViolations := allParsedViolations + parsedViolations;
        log := log + [FoundViolations(|parsedViolations|, violationConfig)];
      }
    }
    assert vcs[..|vcs|] == vcs;

    if IsNullOrEmpty(config.apiToken) {
      return Performed(Escaped(ApiTokenMissing), log, calls, []);
    }
    var apiToken := config.apiToken.value;
    var hostUrl := config.gitLabUrl;
    var projectId := config.projectId;
    var mergeRequestId := config.mergeRequestId;
    log := log + [WillCommentPr(hostUrl, projectId, mergeRequestId)];

    var tokenType := if config.apiTokenPrivate then PrivateToken else AccessToken;
    var authMethod := if config.authMethodHeader then Header else UrlParameter;
    var projectIdInteger := ParseInt(projectId);
    if projectIdInteger.None? {
      return Performed(CaughtInside(ProjectIdNotNumeric), log + [ExceptionReported(ProjectIdNotNumeric)], calls, []);
    }
    var mergeRequestIdInteger := ParseInt(mergeRequestId);
    if mergeRequestIdInteger.None? {
      return Performed(CaughtInside(MergeRequestIdNotNumeric), log + [ExceptionReported(MergeRequestIdNotNumeric)], calls, []);
    }
    var call := PublishCall(hostUrl, projectIdInteger.value, mergeRequestIdInteger.value, apiToken,
                            tokenType, authMethod, config.commentOnlyChangedContent,
                            config.createCommentWithAllSingleFileComments, config.ignoreCertificateErrors,
                            allParsedViolations);
    var delivery := client(call);
    if delivery.Rejected? {
      return Performed(CaughtInside(CommentingFailed), log + [ExceptionReported(CommentingFailed)], calls, [call]);
    }
    p := Performed(Commented, log, calls, [call]);
  }

  /** jvctsPerform: expand, log the configuration, resolve credentials, run
      doPerform on the workspace, and turn every exception into a logged,
      normal return (Suppress where the Java code throws before doPerform,
      Conclude for what escapes doPerform). */
  method JvctsPerform(configUnexpanded: ViolationsToGitLabConfig, environment: Environment, workspace: string,
                      store: CredentialStore, parse: Parser, client: Client)
    returns (run: RunOutcome)
    ensures run == Run(configUnexpanded.Snapshot(), environment, workspace, store, parse, client)
  {
    ghost var raw := configUnexpanded.Snapshot();
    if environment.EnvironmentFailed? {
      return Suppress(EnvironmentUnavailable, [], [], [], []);
    }
    var configExpanded := Expand(configUnexpanded, environment.expand);
    ghost var c := Expanded(raw, environment.expand);
    ghost var res := ResolveCredentials(c, store);
    var log := [Banner];
    var configurationLog := LogConfiguration(configExpanded);
    log := log + configurationLog;

    var credentialsLog, lookups, storeFailed := SetApiTokenCredentials(configExpanded, store);
    assert configUnexpanded.Snapshot() == raw;
    log := log + credentialsLog;
    assert log == [Banner] + ConfigurationLog(c) + res.log;
    if storeFailed {
      return Suppress(CredentialStoreUnavailable, log, lookups, [], []);
    }

    ghost var resolved := c.(apiToken := res.apiToken);
    assert configExpanded.Snapshot() == resolved;
    log := log + [WillComment(configExpanded.mergeRequestId), WorkspaceAt(workspace)];
    var performed := DoPerform(configExpanded, workspace, parse, client);
    log := log + performed.log;
    run := Conclude(performed, log, lookups);
  }
}
