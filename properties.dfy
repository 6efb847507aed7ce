/** What the performer promises, proved about module PerformSpec: the
    collected violations, the early exit, the token check, the arguments of
    the publish call, credential substitution, expansion, secret masking
    and error containment. */
module PerformerProperties {
  import opened Java
  import opened Config
  import opened Collaborators
  import opened PerformSpec

  // ----- reference definitions ------------------------------------------------

  /** A violation config whose pattern is set and whose parser throws. */
  predicate Crashes(vc: ViolationConfig, folder: string, parse: Parser) {
    !IsNullOrEmpty(vc.pattern) && parse(RequestFor(vc, folder)).ParseFailed?
  }

  /** What one violation config adds to the combined list. */
  function Contribution(vc: ViolationConfig, folder: string, parse: Parser): seq<Violation> {
    if IsNullOrEmpty(vc.pattern) then []
    else match parse(RequestFor(vc, folder))
         case Parsed(vs) => vs
         case ParseFailed => []
  }

  /** The in-order concatenation of every config's contribution. */
  function AllViolations(vcs: seq<ViolationConfig>, folder: string, parse: Parser): seq<Violation> {
    if vcs == [] then [] else Contribution(vcs[0], folder, parse) + AllViolations(vcs[1..], folder, parse)
  }

  /** One parser request per config with a pattern, in order. */
  function ParserRequests(vcs: seq<ViolationConfig>, folder: string): seq<ParseRequest> {
    if vcs == [] then []
    else (if IsNullOrEmpty(vcs[0].pattern) then [] else [RequestFor(vcs[0], folder)]) + ParserRequests(vcs[1..], folder)
  }

  /** The token in force after credential substitution. */
  function EffectiveToken(c: ConfigData, store: CredentialStore): JString {
    if CredentialsSelected(c) && store(c.apiTokenCredentialsId.value).Found?
    then Some(store(c.apiTokenCredentialsId.value).secret)
    else c.apiToken
  }

  // ----- the collection loop ----------------------------------------------------

  lemma {:induction false} AllViolationsAppend(a: seq<ViolationConfig>, b: seq<ViolationConfig>, folder: string, parse: Parser)
    ensures AllViolations(a + b, folder, parse) == AllViolations(a, folder, parse) + AllViolations(b, folder, parse)
  {
    if a != [] {
      assert (a + b)[1..] == a[1..] + b;
      AllViolationsAppend(a[1..], b, folder, parse);
    } else {
      assert a + b == b;
    }
  }

  /** Two lists of violation configs yielding N1 and N2 violations yield N1 + N2
      violations when one follows the other. */
  lemma CountsAdd(a: seq<ViolationConfig>, b: seq<ViolationConfig>, folder: string, parse: Parser)
    ensures |AllViolations(a + b, folder, parse)| == |AllViolations(a, folder, parse)| + |AllViolations(b, folder, parse)|
  {
    AllViolationsAppend(a, b, folder, parse);
  }

  lemma {:induction false} ParserRequestsAppend(a: seq<ViolationConfig>, b: seq<ViolationConfig>, folder: string)
    ensures ParserRequests(a + b, folder) == ParserRequests(a, folder) + ParserRequests(b, folder)
  {
    if a != [] {
      assert (a + b)[1..] == a[1..] + b;
      ParserRequestsAppend(a[1..], b, folder);
    } else {
      assert a + b == b;
    }
  }

  /** Once a parser has thrown, the rest of the loop changes nothing. */
  lemma {:induction false} CollectKeepsCrash(vcs: seq<ViolationConfig>, n: nat, folder: string, parse: Parser)
    requires n <= |vcs|
    requires Collect(vcs[..n], folder, parse).crashed.Some?
    ensures Collect(vcs, folder, parse) == Collect(vcs[..n], folder, parse)
  {
    if n < |vcs| {
      var init := vcs[..|vcs| - 1];
      assert init[..n] == vcs[..n];
      CollectKeepsCrash(init, n, folder, parse);
    } else {
      assert vcs[..n] == vcs;
    }
  }

  /** When no parser throws, the loop gathers exactly the in-order
      concatenation of the contributions and asks one parser per config
      with a pattern. */
  lemma {:induction false} CollectSucceeds(vcs: seq<ViolationConfig>, folder: string, parse: Parser)
    requires forall i :: 0 <= i < |vcs| ==> !Crashes(vcs[i], folder, parse)
    ensures Collect(vcs, folder, parse).crashed == None
    ensures Collect(vcs, folder, parse).violations == AllViolations(vcs, folder, parse)
    ensures Collect(vcs, folder, parse).calls == ParserRequests(vcs, folder)
  {
    if vcs != [] {
      var init, last := vcs[..|vcs| - 1], vcs[|vcs| - 1];
      assert vcs == init + [last];
      assert forall i :: 0 <= i < |init| ==> init[i] == vcs[i];
      CollectSucceeds(init, folder, parse);
      AllViolationsAppend(init, [last], folder, parse);
      ParserRequestsAppend(init, [last], folder);
      assert [last][1..] == [];
    }
  }

  /** When the parser of config k is the first to throw, the loop stops there:
      the parsers of configs 0..k have been asked, no later ones. */
  lemma {:induction false} CollectStopsAtFirstCrash(vcs: seq<ViolationConfig>, k: nat, folder: string, parse: Parser)
    requires k < |vcs| && Crashes(vcs[k], folder, parse)
    requires forall i :: 0 <= i < k ==> !Crashes(vcs[i], folder, parse)
    ensures Collect(vcs, folder, parse).crashed == Some(vcs[k].reporter)
    ensures Collect(vcs, folder, parse).calls == ParserRequests(vcs[..k + 1], folder)
    ensures Collect(vcs, folder, parse).violations == AllViolations(vcs[..k], folder, parse)
  {
    var init := vcs[..k];
    assert forall i :: 0 <= i < |init| ==> init[i] == vcs[i];
    CollectSucceeds(init, folder, parse);
    assert vcs[..k + 1][..k] == init;
    ParserRequestsAppend(init, [vcs[k]], folder);
    assert vcs[..k + 1] == init + [vcs[k]];
    assert [vcs[k]][1..] == [];
    CollectKeepsCrash(vcs, k + 1, folder, parse);
  }

  /** The loop fails exactly when some parser with a pattern throws. */
  lemma {:induction false} CollectCrashesIff(vcs: seq<ViolationConfig>, folder: string, parse: Parser)
    ensures Collect(vcs, folder, parse).crashed.Some? <==> exists i :: 0 <= i < |vcs| && Crashes(vcs[i], folder, parse)
  {
    if exists i :: 0 <= i < |vcs| && Crashes(vcs[i], folder, parse) {
      var k :| 0 <= k < |vcs| && Crashes(vcs[k], folder, parse);
      while exists i :: 0 <= i < k && Crashes(vcs[i], folder, parse)
        invariant 0 <= k < |vcs| && Crashes(vcs[k], folder, parse)
        decreases k
      {
        var j :| 0 <= j < k && Crashes(vcs[j], folder, parse);
        k := j;
      }
      CollectStopsAtFirstCrash(vcs, k, folder, parse);
    } else {
      CollectSucceeds(vcs, folder, parse);
    }
  }

  // ----- doPerform ----------------------------------------------------------------

  /** Without a merge request id no parser is asked and nothing is published. */
  lemma NoMergeRequestIdNoCalls(c: ConfigData, folder: string, parse: Parser, client: Client)
    requires c.mergeRequestId.None?
    ensures var p := Perform(c, folder, parse, client);
            p.result == NoMergeRequest && p.parserCalls == [] && p.publishCalls == []
            && p.log == [NoMergeRequestIdDefined]
  {
  }

  /** A publish call carries the concatenation of every config's parser
      result, after every parser with a pattern has run. */
  lemma PublishedViolations(c: ConfigData, folder: string, parse: Parser, client: Client)
    ensures var p := Perform(c, folder, parse, client);
            p.publishCalls != [] ==>
              && p.publishCalls[0].violations == AllViolations(c.violationConfigs, folder, parse)
              && p.parserCalls == ParserRequests(c.violationConfigs, folder)
  {
    var p := Perform(c, folder, parse, client);
    if p.publishCalls != [] {
      CollectCrashesIff(c.violationConfigs, folder, parse);
      CollectSucceeds(c.violationConfigs, folder, parse);
    }
  }

  /** A null or empty token fails doPerform with no publish call; the failure
      comes after every parser has run and leaves doPerform. */
  lemma MissingTokenFailsAfterParsing(c: ConfigData, folder: string, parse: Parser, client: Client)
    requires c.mergeRequestId.Some? && IsNullOrEmpty(c.apiToken)
    requires forall i :: 0 <= i < |c.violationConfigs| ==> !Crashes(c.violationConfigs[i], folder, parse)
    ensures var p := Perform(c, folder, parse, client);
            && p.result == Escaped(ApiTokenMissing)
            && p.publishCalls == []
            && p.parserCalls == ParserRequests(c.violationConfigs, folder)
  {
    CollectSucceeds(c.violationConfigs, folder, parse);
  }

  /** Whatever the parsers do, a null or empty token means no publish call and
      an exception that leaves doPerform. */
  lemma MissingTokenNeverPublishes(c: ConfigData, folder: string, parse: Parser, client: Client)
    requires c.mergeRequestId.Some? && IsNullOrEmpty(c.apiToken)
    ensures var p := Perform(c, folder, parse, client);
            p.result.Escaped? && p.publishCalls == []
  {
  }

  /** The arguments of the publish call, and exactly when it happens. */
  lemma PublishCallArguments(c: ConfigData, folder: string, parse: Parser, client: Client)
    ensures var p := Perform(c, folder, parse, client);
            |p.publishCalls| == 1 <==>
              && c.mergeRequestId.Some?
              && (forall i :: 0 <= i < |c.violationConfigs| ==> !Crashes(c.violationConfigs[i], folder, parse))
              && !IsNullOrEmpty(c.apiToken)
              && ParseInt(c.projectId).Some?
              && ParseInt(c.mergeRequestId).Some?
    ensures var p := Perform(c, folder, parse, client);
            forall call | call in p.publishCalls ::
              && call.hostUrl == c.gitLabUrl
              && Some(call.apiToken) == c.apiToken
              && ParseInt(c.projectId) == Some(call.projectId)
              && ParseInt(c.mergeRequestId) == Some(call.mergeRequestId)
              && (call.tokenType == PrivateToken <==> c.apiTokenPrivate)
              && (call.authMethod == Header <==> c.authMethodHeader)
              && call.commentOnlyChangedContent == c.commentOnlyChangedContent
              && call.createCommentWithAllSingleFileComments == c.createCommentWithAllSingleFileComments
              && call.ignoreCertificateErrors == c.ignoreCertificateErrors
              && call.violations == AllViolations(c.violationConfigs, folder, parse)
  {
    CollectCrashesIff(c.violationConfigs, folder, parse);
    PublishedViolations(c, folder, parse, client);
  }

  /** An identifier that does not parse, an empty one included, aborts
      publishing; doPerform's own handler catches and logs it. */
  lemma UnparsableIdAborts(c: ConfigData, folder: string, parse: Parser, client: Client)
    requires c.mergeRequestId.Some? && !IsNullOrEmpty(c.apiToken)
    requires forall i :: 0 <= i < |c.violationConfigs| ==> !Crashes(c.violationConfigs[i], folder, parse)
    requires ParseInt(c.projectId).None? || ParseInt(c.mergeRequestId).None?
    ensures var p := Perform(c, folder, parse, client);
            && p.publishCalls == []
            && p.result.CaughtInside?
            && p.result.failure == (if ParseInt(c.projectId).None? then ProjectIdNotNumeric else MergeRequestIdNotNumeric)
            && p.log[|p.log| - 1] == ExceptionReported(p.result.failure)
  {
    CollectSucceeds(c.violationConfigs, folder, parse);
  }

  // ----- expand ---------------------------------------------------------------------

  /** Expansion leaves the configuration as it is when the expander fixes the
      URL, both identifiers and every pattern. */
  lemma ExpandWithoutReferences(c: ConfigData, expand: Expander)
    requires expand(c.gitLabUrl) == c.gitLabUrl
    requires expand(c.projectId) == c.projectId
    requires expand(c.mergeRequestId) == c.mergeRequestId
    requires forall i :: 0 <= i < |c.violationConfigs| ==> expand(c.violationConfigs[i].pattern) == c.violationConfigs[i].pattern
    ensures Expanded(c, expand) == c
  {
  }

  /** The expanded configuration is the only one ExpandsTo admits. */
  lemma ExpandsToUnique(c: ConfigData, expand: Expander, e: ConfigData)
    requires ExpandsTo(c, expand, e)
    ensures e == Expanded(c, expand)
  {
  }

  // ----- logConfiguration -----------------------------------------------------------

  /** The logged configuration depends on the token and on the credentials id
      only through whether each is set. */
  lemma ConfigurationLogMasksSecrets(c: ConfigData, apiToken: JString, credentialsId: JString)
    requires IsNullOrEmpty(apiToken) == IsNullOrEmpty(c.apiToken)
    requires IsNullOrEmpty(credentialsId) == IsNullOrEmpty(c.apiTokenCredentialsId)
    ensures ConfigurationLog(c.(apiToken := apiToken, apiTokenCredentialsId := credentialsId)) == ConfigurationLog(c)
  {
  }

  // ----- setApiTokenCredentials --------------------------------------------------

  /** Missing or unselected credentials do not stop the run: the inline token
      stays in force and the reason is logged. */
  lemma CredentialsUnavailableKeepInlineToken(c: ConfigData, store: CredentialStore)
    requires c.useApiTokenCredentials
    requires IsNullOrEmpty(c.apiTokenCredentialsId) || store(c.apiTokenCredentialsId.value).NotFound?
    ensures var r := ResolveCredentials(c, store);
            && r.apiToken == c.apiToken && !r.storeFailed
            && r.log == [if IsNullOrEmpty(c.apiTokenCredentialsId) then CredentialsNotSelected else CredentialsNotFound]
  {
  }

  // ----- jvctsPerform -----------------------------------------------------------

  /** Given an environment, the run suppresses exactly the failures that
      escape: the credential store, a parser, and the token check. */
  lemma RunSuppressesEscapes(raw: ConfigData, expand: Expander, folder: string, store: CredentialStore,
                             parse: Parser, client: Client)
    ensures var c := Expanded(raw, expand);
            var r := Run(raw, Environment(expand), folder, store, parse, client);
            var p := Perform(c.(apiToken := EffectiveToken(c, store)), folder, parse, client);
            r.status == (if CredentialsSelected(c) && store(c.apiTokenCredentialsId.value).StoreFailed?
                         then Suppressed(CredentialStoreUnavailable)
                         else if p.result.Escaped? then Suppressed(p.result.failure)
                         else Returned(p.result))
  {
  }

  /** Without an expanded merge request id, a run asks no parser and
      publishes nothing. */
  lemma RunWithoutMergeRequestId(raw: ConfigData, env: Environment, folder: string, store: CredentialStore,
                                 parse: Parser, client: Client)
    requires env.Environment? ==> env.expand(raw.mergeRequestId).None?
    ensures var r := Run(raw, env, folder, store, parse, client);
            r.parserCalls == [] && r.publishCalls == []
  {
  }

  /** What a run publishes, in terms of the unexpanded configuration: the URL
      and identifiers after expansion, the token in force after credential
      substitution (never expanded), and the violations of the expanded
      patterns. */
  lemma RunPublishCall(raw: ConfigData, expand: Expander, folder: string, store: CredentialStore,
                       parse: Parser, client: Client)
    ensures var r := Run(raw, Environment(expand), folder, store, parse, client);
            forall call | call in r.publishCalls ::
              && call.hostUrl == expand(raw.gitLabUrl)
              && Some(call.apiToken) == EffectiveToken(raw, store)
              && ParseInt(expand(raw.projectId)) == Some(call.projectId)
              && ParseInt(expand(raw.mergeRequestId)) == Some(call.mergeRequestId)
              && (call.tokenType == PrivateToken <==> raw.apiTokenPrivate)
              && (call.authMethod == Header <==> raw.authMethodHeader)
              && call.commentOnlyChangedContent == raw.commentOnlyChangedContent
              && call.createCommentWithAllSingleFileComments == raw.createCommentWithAllSingleFileComments
              && call.ignoreCertificateErrors == raw.ignoreCertificateErrors
              && call.violations == AllViolations(Expanded(raw, expand).violationConfigs, folder, parse)
  {
    var c := Expanded(raw, expand);
    var res := ResolveCredentials(c, store);
    PublishCallArguments(c.(apiToken := res.apiToken), folder, parse, client);
  }

  // ----- scenarios -------------------------------------------------------------

  const FindBugs := Reporter("FINDBUGS")

  function ScenarioConfig(useCredentials: bool, apiToken: JString): ConfigData {
    ConfigData(Some("https://gitlab.example"), Some("7"), Some("42"), !useCredentials, apiToken,
               useCredentials, if useCredentials then Some("cred1") else None,
               false, false, false, true, false,
               [ViolationConfig(FindBugs, Some("**/findbugs.xml"))])
  }

  /** Identifiers "42" and "7", one findbugs pattern and the inline token
      "abc": exactly one publish call with those values and the parser's
      violations. */
  lemma ScenarioInlineToken(vs: seq<Violation>, folder: string, store: CredentialStore, parse: Parser, client: Client)
    requires parse(ParseRequest(FindBugs, folder, "**/findbugs.xml")) == Parsed(vs)
    ensures var r := Run(ScenarioConfig(false, Some("abc")), Environment(x => x), folder, store, parse, client);
            r.publishCalls == [PublishCall(Some("https://gitlab.example"), 7, 42, "abc", AccessToken, UrlParameter,
                                           true, false, false, vs)]
            && r.parserCalls == [ParseRequest(FindBugs, folder, "**/findbugs.xml")]
            && r.lookups == []
  {
    var cfg := ScenarioConfig(false, Some("abc"));
    ExpandWithoutReferences(cfg, x => x);
    var res := ResolveCredentials(cfg, store);
    assert res.apiToken == cfg.apiToken && res.lookups == [];
    assert cfg.(apiToken := res.apiToken) == cfg;
    ScenarioCollect(vs, folder, parse);
    ScenarioIdentifiers();
    var p := Perform(cfg, folder, parse, client);
    assert p.publishCalls == [PublishCall(Some("https://gitlab.example"), 7, 42, "abc", AccessToken, UrlParameter,
                                          true, false, false, vs)];
  }

  /** The scenario's identifiers parse to 7 and 42. */
  lemma ScenarioIdentifiers()
    ensures ParseInt(Some("7")) == Some(7) && ParseInt(Some("42")) == Some(42)
  {
  }

  /** The scenario's one findbugs pattern is parsed once, in the workspace. */
  lemma ScenarioCollect(vs: seq<Violation>, folder: string, parse: Parser)
    requires parse(ParseRequest(FindBugs, folder, "**/findbugs.xml")) == Parsed(vs)
    ensures var vc := ViolationConfig(FindBugs, Some("**/findbugs.xml"));
            Collect([vc], folder, parse)
              == Collection(vs, [FoundViolations(|vs|, vc)], [ParseRequest(FindBugs, folder, "**/findbugs.xml")], None)
  {
  }

  /** As above but the parser throws: the run returns normally, the failure is
      logged last, and nothing is published. */
  lemma ScenarioParserThrows(folder: string, store: CredentialStore, parse: Parser, client: Client)
    requires parse(ParseRequest(FindBugs, folder, "**/findbugs.xml")) == ParseFailed
    ensures var r := Run(ScenarioConfig(false, Some("abc")), Environment(x => x), folder, store, parse, client);
            && r.status == Suppressed(ParserCrashed(FindBugs))
            && r.log[|r.log| - 1] == ExceptionReported(ParserCrashed(FindBugs))
            && r.publishCalls == []
  {
  }

  /** Credentials "cred1" selected but not in the store and no inline token:
      "not found" is logged and nothing is published. */
  lemma ScenarioCredentialsNotFound(folder: string, store: CredentialStore, parse: Parser, client: Client)
    requires store("cred1") == NotFound
    ensures var r := Run(ScenarioConfig(true, None), Environment(x => x), folder, store, parse, client);
            && CredentialsNotFound in r.log
            && r.lookups == ["cred1"]
            && r.publishCalls == []
  {
  }

  /** Credentials "cred1" selected but not in the store, with an inline token
      left in the configuration: the run still publishes, with that token. */
  lemma ScenarioCredentialsNotFoundInlineToken(vs: seq<Violation>, folder: string, store: CredentialStore,
                                               parse: Parser, client: Client)
    requires store("cred1") == NotFound
    requires parse(ParseRequest(FindBugs, folder, "**/findbugs.xml")) == Parsed(vs)
    ensures var r := Run(ScenarioConfig(true, Some("abc")), Environment(x => x), folder, store, parse, client);
            |r.publishCalls| == 1 && r.publishCalls[0].apiToken == "abc"
  {
  }
}
