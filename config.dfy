/** The configuration the performer works on: one ViolationConfig per report
    format, and the ViolationsToGitLabConfig bean whose fields are set one by
    one while it is expanded and whose token is overwritten in place. */
module Config {
  import opened Java

  /** A violations-lib report format (FINDBUGS, CHECKSTYLE, ...), kept opaque. */
  datatype Reporter = Reporter(name: string)

  /** One report format together with the file pattern to scan for it; a null
      or empty pattern disables it. */
  datatype ViolationConfig = ViolationConfig(reporter: Reporter, pattern: JString)

  /** The value of every field of a ViolationsToGitLabConfig at one moment. */
  datatype ConfigData = ConfigData(
    gitLabUrl: JString,
    projectId: JString,
    mergeRequestId: JString,
    useApiToken: bool,
    apiToken: JString,
    useApiTokenCredentials: bool,
    apiTokenCredentialsId: JString,
    authMethodHeader: bool,
    apiTokenPrivate: bool,
    ignoreCertificateErrors: bool,
    commentOnlyChangedContent: bool,
    createCommentWithAllSingleFileComments: bool,
    violationConfigs: seq<ViolationConfig>)

  class ViolationsToGitLabConfig {
    var gitLabUrl: JString
    var projectId: JString
    var mergeRequestId: JString
    var useApiToken: bool
    var apiToken: JString
    var useApiTokenCredentials: bool
    var apiTokenCredentialsId: JString
    var authMethodHeader: bool
    var apiTokenPrivate: bool
    var ignoreCertificateErrors: bool
    var commentOnlyChangedContent: bool
    var createCommentWithAllSingleFileComments: bool
    var violationConfigs: seq<ViolationConfig>

    /** A fresh bean whose fields hold the values of d: the no-argument
        constructor followed by one setter call per field. */
    constructor (d: ConfigData)
      ensures Snapshot() == d
    {
      gitLabUrl, projectId, mergeRequestId := d.gitLabUrl, d.projectId, d.mergeRequestId;
      useApiToken, apiToken := d.useApiToken, d.apiToken;
      useApiTokenCredentials, apiTokenCredentialsId := d.useApiTokenCredentials, d.apiTokenCredentialsId;
      authMethodHeader, apiTokenPrivate, ignoreCertificateErrors := d.authMethodHeader, d.apiTokenPrivate, d.ignoreCertificateErrors;
      commentOnlyChangedContent, createCommentWithAllSingleFileComments := d.commentOnlyChangedContent, d.createCommentWithAllSingleFileComments;
      violationConfigs := d.violationConfigs;
    }

    /** The current value of every field. */
    function Snapshot(): ConfigData
      reads this
    {
      ConfigData(gitLabUrl, projectId, mergeRequestId, useApiToken, apiToken,
                 useApiTokenCredentials, apiTokenCredentialsId, authMethodHeader,
                 apiTokenPrivate, ignoreCertificateErrors, commentOnlyChangedContent,
                 createCommentWithAllSingleFileComments, violationConfigs)
    }
  }
}
