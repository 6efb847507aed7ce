# Violation Comments to GitLab: the performer

A model of `JvctglPerformer`, the build step of the Jenkins plugin
"Violation Comments to GitLab". Given a `ViolationsToGitLabConfig`, a run:

- expands Jenkins variables in the GitLab URL, the project id, the merge
  request id and every report pattern;
- prints the configuration, showing only *whether* the API token and the
  credentials id are set;
- may replace the inline API token with a secret from the Jenkins credential
  store;
- runs one violations-lib parser per report format whose pattern is set, and
  concatenates what they find in configuration order;
- checks that a token is present;
- parses both ids as 32-bit decimal integers;
- hands everything to the GitLab commenting client in exactly one call.

An exception is caught either by `doPerform`'s own handler or by
`jvctsPerform`'s catch-all handler. Either way the build step returns
normally.

The model has six modules, one file each:

| file | module | contents |
|---|---|---|
| `java.dfy` | `Java` | Nullable strings (`JString = Option<string>`), Guava `isNullOrEmpty`, `Integer.parseInt` in radix 10 with its 32-bit range check, and `Integer.toString` as its inverse. |
| `config.dfy` | `Config` | The configuration. `ViolationConfig` is a value. `ViolationsToGitLabConfig` is a class whose fields change in place. `ConfigData` is the value of all its fields at one moment (`Snapshot()`). |
| `collaborators.dfy` | `Collaborators` | The code the performer calls but does not own, seen only at its interface: the environment expander, the parsers, the credential store and the commenting client. Each is a function-typed parameter. |
| `perform_spec.dfy` | `PerformSpec` | Functions giving what each step computes. Every effect on the outside world is a returned value: the sequence of log events, the parser invocations, the credential lookups, the publish calls, and where an exception ends up. |
| `performer.dfy` | `JvctglPerformer` | Five of the six methods of the Java class, written step by step (loops, in-place updates, early returns). Each is proved equal to its function in `PerformSpec`. |
| `properties.dfy` | `PerformerProperties` | Independent reference definitions, and lemmas connecting them to the specification functions. |

Four places where the code behaves differently from what its structure suggests:

- **Early exit.** The exit for a null merge request id happens inside
  `doPerform` (`JvctglPerformer.java:65-70`). By then the configuration has
  been expanded and logged, and, when credentials are selected, the
  credential store has been consulted.
- **Missing credentials.** Credentials that are not selected or not found
  only log a line (`JvctglPerformer.java:256-263`). The run goes on with
  whatever inline token the configuration holds. So "nothing is published
  when the credentials are not found" holds only when no inline token is
  set (compare `ScenarioCredentialsNotFound` with
  `ScenarioCredentialsNotFoundInlineToken`).
- **Unparsable ids.** A `NumberFormatException` from either id is caught by
  `doPerform`'s own handler (`:121-126`), not by the outer one.
- **Missing token.** The token check (`:89-90`) sits outside that handler,
  so its exception reaches the outer handler (`:196-201`).

## Model

| member | source | states |
|---|---|---|
| Java.IsNullOrEmpty | src/main/java/org/jenkinsci/plugins/jvctgl/perform/JvctglPerformer.java:74 | Guava's `isNullOrEmpty`: null or the empty string. It is also the test behind `emptyToNull` at :90 and the masking at :212 and :220, and the credentials id test at :248. `ParseInt` proves that such a string never parses, and `ConfigurationLogMasksSecrets` that the log depends on the token only through this test. |
| Java.ParseInt | src/main/java/org/jenkinsci/plugins/jvctgl/perform/JvctglPerformer.java:102-103 | `Integer.parseInt` succeeds only on a non-null, non-empty string. That string is an optional sign followed by at least one character, every one an ASCII digit. A negative result needs a leading '-', and a leading '-' gives a result that is not positive. The result lies in the 32-bit range. null and "" always fail. |
| Java.ParseIntAccepts | src/main/java/org/jenkinsci/plugins/jvctgl/perform/JvctglPerformer.java:102-103 | The value of a successful parse: the digits after the sign, leading zeros removed, are the decimal writing of its magnitude. The value is negative exactly when the sign is '-' and the value is not zero. |
| Java.ParseIntRejectsJunk | src/main/java/org/jenkinsci/plugins/jvctgl/perform/JvctglPerformer.java:102-103 | "7a", "4 2", "1e3", " 7" and a lone sign do not parse. |
| Java.DecimalValue | src/main/java/org/jenkinsci/plugins/jvctgl/perform/JvctglPerformer.java:102-103 | The digits of the decimal writing of n have the value n. |
| Java.ParseIntToString | src/main/java/org/jenkinsci/plugins/jvctgl/perform/JvctglPerformer.java:102-103 | Every 32-bit integer, written in decimal, parses back to itself. So every id the GitLab API can take has a string form that `doPerform` accepts. |
| Config.ViolationsToGitLabConfig.constructor | src/main/java/org/jenkinsci/plugins/jvctgl/perform/JvctglPerformer.java:133-150 | A fresh bean holds exactly the field values that the setter calls give it. |
| PerformSpec.ExpandViolationConfigs | src/main/java/org/jenkinsci/plugins/jvctgl/perform/JvctglPerformer.java:152-157 | The expanded list has the input's length. Entry i keeps entry i's reporter and has entry i's pattern passed through the expander. |
| PerformSpec.Expanded | src/main/java/org/jenkinsci/plugins/jvctgl/perform/JvctglPerformer.java:131-159 | The expanded configuration is related to its input by `ExpandsTo`: only the URL, the two ids and each pattern go through the expander. Token, credentials id, every flag and every reporter are copied. The violation configs keep their number and order. |
| PerformSpec.ConfigurationLog | src/main/java/org/jenkinsci/plugins/jvctgl/perform/JvctglPerformer.java:205-242 | Twelve configuration lines, then one line per violation config, in order, giving its reporter and pattern. |
| PerformSpec.ResolveCredentials | src/main/java/org/jenkinsci/plugins/jvctgl/perform/JvctglPerformer.java:244-265 | The token changes only if the credentials flag is set, the id is non-empty and the store finds it; then the token is the secret (both directions). The store is consulted exactly when credentials are selected. A store failure is reported exactly when a selected lookup throws. |
| PerformSpec.CredentialsSelected | src/main/java/org/jenkinsci/plugins/jvctgl/perform/JvctglPerformer.java:246-248 | The credentials flag is set and the credentials id is not null or empty. `ResolveCredentials` proves that the store is consulted exactly when this holds, and that only then can the token change. |
| PerformSpec.Collect | src/main/java/org/jenkinsci/plugins/jvctgl/perform/JvctglPerformer.java:72-87 | The collection loop over a prefix of the violation configs. In total it makes no more parser calls than there are configs, and it writes one "found" line for each parser call except a final one that throws. `CollectSucceeds`, `CollectStopsAtFirstCrash`, `CollectKeepsCrash` and `CollectCrashesIff` tie it to the independent `AllViolations` and `ParserRequests`, and state when and where it stops. |
| PerformSpec.TokenTypeOf | src/main/java/org/jenkinsci/plugins/jvctgl/perform/JvctglPerformer.java:100 | The token type is PRIVATE exactly when `apiTokenPrivate` is set, otherwise ACCESS. |
| PerformSpec.AuthMethodOf | src/main/java/org/jenkinsci/plugins/jvctgl/perform/JvctglPerformer.java:101 | The auth method is HEADER exactly when `authMethodHeader` is set, otherwise URL_PARAMETER. |
| PerformSpec.Perform | src/main/java/org/jenkinsci/plugins/jvctgl/perform/JvctglPerformer.java:62-127 | `doPerform` makes at most one publish call. It ends in the early exit exactly when the merge request id is null. An exception its own handler catches is the last thing it logs. |
| PerformSpec.Suppress | src/main/java/org/jenkinsci/plugins/jvctgl/perform/JvctglPerformer.java:196-201 | The outer handler ends the run normally, with the failure written last to the log. |
| PerformSpec.Run | src/main/java/org/jenkinsci/plugins/jvctgl/perform/JvctglPerformer.java:161-203 | `jvctsPerform` never lets an exception escape. A suppressed failure is the last log line. At most one credential lookup and at most one publish call happen. |
| PerformSpec.Conclude | src/main/java/org/jenkinsci/plugins/jvctgl/perform/JvctglPerformer.java:179-201 | After `doPerform`, the run is suppressed exactly when an exception escaped `doPerform`. Otherwise `doPerform`'s result is returned. Lookups, parser calls and publish calls pass through unchanged. |
| JvctglPerformer.Expand | src/main/java/org/jenkinsci/plugins/jvctgl/perform/JvctglPerformer.java:131-159 | The bean is fresh and its new state is `Expanded` of the input's state. The loop appends the expanded violation configs in order. |
| JvctglPerformer.LogConfiguration | src/main/java/org/jenkinsci/plugins/jvctgl/perform/JvctglPerformer.java:205-242 | Writes exactly `ConfigurationLog` of the bean's state. |
| JvctglPerformer.SetApiTokenCredentials | src/main/java/org/jenkinsci/plugins/jvctgl/perform/JvctglPerformer.java:244-265 | The bean's new state is its old state with the token of `ResolveCredentials`; no other field changes. The log lines, lookups and store failure are those of `ResolveCredentials`. |
| JvctglPerformer.DoPerform | src/main/java/org/jenkinsci/plugins/jvctgl/perform/JvctglPerformer.java:62-127 | The outcome, log, parser calls and publish calls are exactly `Perform` of the bean's state. The loop invariant ties the collected violations to `Collect` of the prefix visited so far. |
| JvctglPerformer.JvctsPerform | src/main/java/org/jenkinsci/plugins/jvctgl/perform/JvctglPerformer.java:161-203 | The outcome is exactly `Run` of the unexpanded bean's state. |
| PerformerProperties.AllViolationsAppend | src/main/java/org/jenkinsci/plugins/jvctgl/perform/JvctglPerformer.java:72-87 | The combined violation list of two config lists, one after the other, is the concatenation of their combined lists. |
| PerformerProperties.ParserRequestsAppend | src/main/java/org/jenkinsci/plugins/jvctgl/perform/JvctglPerformer.java:72-87 | The parser requests of two config lists, one after the other, are the concatenation of their requests. |
| PerformerProperties.CountsAdd | src/main/java/org/jenkinsci/plugins/jvctgl/perform/JvctglPerformer.java:72-87 | The number of collected violations adds up over concatenated config lists. |
| PerformerProperties.CollectKeepsCrash | src/main/java/org/jenkinsci/plugins/jvctgl/perform/JvctglPerformer.java:72-87 | Once a parser has thrown, the rest of the loop changes nothing: no further parser runs and nothing more is logged. |
| PerformerProperties.CollectSucceeds | src/main/java/org/jenkinsci/plugins/jvctgl/perform/JvctglPerformer.java:72-87 | When no parser throws, the collected list is the in-order concatenation of every config's parser result. Each config with a pattern is parsed once, in order. A null or empty pattern contributes nothing and causes no parser call. |
| PerformerProperties.CollectStopsAtFirstCrash | src/main/java/org/jenkinsci/plugins/jvctgl/perform/JvctglPerformer.java:72-87 | When parser k is the first to throw, the loop reports reporter k. It has run the parsers of configs 0..k, and holds the violations of configs 0..k-1. |
| PerformerProperties.CollectCrashesIff | src/main/java/org/jenkinsci/plugins/jvctgl/perform/JvctglPerformer.java:72-87 | The loop ends with a thrown parser if and only if some config with a pattern has a throwing parser. |
| PerformerProperties.NoMergeRequestIdNoCalls | src/main/java/org/jenkinsci/plugins/jvctgl/perform/JvctglPerformer.java:65-70 | A null merge request id: one log line, no parser call, no publish call. |
| PerformerProperties.PublishedViolations | src/main/java/org/jenkinsci/plugins/jvctgl/perform/JvctglPerformer.java:72-87 | A publish call carries the in-order concatenation of every config's parser result. Every config with a pattern was parsed. |
| PerformerProperties.MissingTokenFailsAfterParsing | src/main/java/org/jenkinsci/plugins/jvctgl/perform/JvctglPerformer.java:89-90 | With a null or empty token and no throwing parser, every parser still runs. Then the token check throws past `doPerform`'s own handler, and nothing is published. |
| PerformerProperties.MissingTokenNeverPublishes | src/main/java/org/jenkinsci/plugins/jvctgl/perform/JvctglPerformer.java:89-90 | With a set merge request id and a null or empty token, nothing is published, whatever the parsers do, and the exception leaves `doPerform`. |
| PerformerProperties.PublishCallArguments | src/main/java/org/jenkinsci/plugins/jvctgl/perform/JvctglPerformer.java:98-120 | A publish call happens if and only if all of these hold: the merge request id is set, no parser throws, the token is non-empty and both ids parse. It carries the URL and token, the parsed ids, PRIVATE exactly when `apiTokenPrivate`, HEADER exactly when `authMethodHeader`, the three flags unchanged, and the collected violations. |
| PerformerProperties.UnparsableIdAborts | src/main/java/org/jenkinsci/plugins/jvctgl/perform/JvctglPerformer.java:102-103 | An id that does not parse (the empty string included) means no publish call. The project id is checked first. Its exception is caught by `doPerform`'s own handler and logged last. |
| PerformerProperties.ExpandWithoutReferences | src/main/java/org/jenkinsci/plugins/jvctgl/perform/JvctglPerformer.java:131-159 | If the expander fixes the URL, both ids and every pattern, expansion returns the configuration unchanged. |
| PerformerProperties.ExpandsToUnique | src/main/java/org/jenkinsci/plugins/jvctgl/perform/JvctglPerformer.java:131-159 | `Expanded` is the only configuration that `ExpandsTo` admits. |
| PerformerProperties.ConfigurationLogMasksSecrets | src/main/java/org/jenkinsci/plugins/jvctgl/perform/JvctglPerformer.java:212-220 | Two configurations that differ only in the token and the credentials id, and agree on whether each is set, log the same lines. |
| PerformerProperties.CredentialsUnavailableKeepInlineToken | src/main/java/org/jenkinsci/plugins/jvctgl/perform/JvctglPerformer.java:256-263 | Credentials not selected or not found: the inline token stays, the run goes on, and the reason is logged. |
| PerformerProperties.RunSuppressesEscapes | src/main/java/org/jenkinsci/plugins/jvctgl/perform/JvctglPerformer.java:166-201 | A run is suppressed on a store failure, or on whatever escapes `doPerform` under the effective token. Otherwise it returns `doPerform`'s outcome. |
| PerformerProperties.RunWithoutMergeRequestId | src/main/java/org/jenkinsci/plugins/jvctgl/perform/JvctglPerformer.java:65-70 | If the expanded merge request id is null, a run asks no parser and publishes nothing. |
| PerformerProperties.RunPublishCall | src/main/java/org/jenkinsci/plugins/jvctgl/perform/JvctglPerformer.java:161-203 | In terms of the unexpanded configuration, a run's publish call carries the expanded URL and ids and the effective token, which is never expanded. It also carries the token type, the auth method, the three flags unchanged, and the violations of the expanded patterns. |
| PerformerProperties.ScenarioIdentifiers | src/main/java/org/jenkinsci/plugins/jvctgl/perform/JvctglPerformer.java:102-103 | "7" and "42" parse to 7 and 42. |
| PerformerProperties.ScenarioCollect | src/main/java/org/jenkinsci/plugins/jvctgl/perform/JvctglPerformer.java:72-87 | One findbugs pattern: one parser call in the workspace, its violations, one "found" line. |
| PerformerProperties.ScenarioInlineToken | src/main/java/org/jenkinsci/plugins/jvctgl/perform/JvctglPerformer.java:161-203 | Ids "7" and "42", one findbugs pattern and inline token "abc". Exactly one publish call, with 7, 42, "abc" and the parser's violations. One parser call, no lookup. |
| PerformerProperties.ScenarioParserThrows | src/main/java/org/jenkinsci/plugins/jvctgl/perform/JvctglPerformer.java:166-201 | The same run with a throwing parser returns normally. The failure is logged last and nothing is published. |
| PerformerProperties.ScenarioCredentialsNotFound | src/main/java/org/jenkinsci/plugins/jvctgl/perform/JvctglPerformer.java:256-259 | Credentials "cred1" are selected but not in the store, and there is no inline token. "Not found" is logged, one lookup happens, and nothing is published. |
| PerformerProperties.ScenarioCredentialsNotFoundInlineToken | src/main/java/org/jenkinsci/plugins/jvctgl/perform/JvctglPerformer.java:256-259 | Credentials are not found but an inline token is set. The run still publishes, with the inline token. |

## Left out

- Jenkins remoting: `FilePath.act`, `FileCallable`, `VirtualChannel` and `RoleChecker` (`:179-195`) are transport. The callable's `invoke` is modelled as a direct call; the workspace is its path string.
- `setupFindBugsMessages` (`:267-277`) reads a classpath resource into global parser state. It is assumed to succeed, so its exception is not modelled.
- `EnvVars.expand` is a function parameter with no assumed behaviour, not even on null.
- The parsers (`violationsReporterApi`), the GitLab client (`violationCommentsToGitLabApi`) and `findApiTokenCredentials` are function parameters. Each may fail, and that failure stands for any exception. The client's network protocol is not modelled.
- Logging: `java.util.logging`, stack-trace text and the exact wording of log lines are not modelled. The build log is a sequence of abstract events. The three banner lines are one `Banner` event; "Running Violation Comments To GitLab" and "Will comment …" are one `WillComment` event.
- `ViolationConfig.toString` and the reporter's `toString` appear as the values themselves, not as text.
- `ViolationsToGitLabConfig` and `ViolationConfig` are not part of this model beyond their fields, getters and setters. The getters are field reads.
- The boolean flags (`getApiTokenPrivate()`, `getAuthMethodHeader()` at `:100-101`, `getCommentOnlyChangedContent()` at `:111` and the others) are assumed non-null and are modelled as `bool`. If the bean declares them as `java.lang.Boolean`, a null flag would throw inside `doPerform`'s inner `try`; the model cannot express that.
- Java.ParseInt: accepts only ASCII digits. `Integer.parseInt` also accepts other Unicode decimal digits.
- JvctglPerformer.Expand: the bean's scalar fields are given by one constructor call, not twelve setter calls. The order of those setter calls is not observable.
- A `null` violation-config list and `null` entries in it are not modelled; a Java `NullPointerException` there is outside the model.
- Concurrency and build interruption (`InterruptedException`) are not modelled.
