/** Reading and validating the provider configuration (`parseConfig` and the
    checks of `New`). */
module ProviderConfig {
  import opened Common
  import opened Text
  import opened Json

  datatype Config = Config(
    source: string,
    apiToken: string,
    apiURL: string,
    projectKey: string,
    defaultIssueType: string)

  const DefaultSource := "jira"
  const DefaultAPIURL := "https://your-domain.atlassian.net"
  const DefaultIssueType := "Task"

  datatype ConfigError = MissingAPIToken | MissingProjectKey | MissingAPIURL

  /** The entry under `key` when it is a string; absent and non-string
      entries are both ignored. */
  function StringEntry(raw: map<string, Value>, key: string): Option<string>
  {
    if key in raw && raw[key].Str? then Some(raw[key].s) else None
  }

  /** The entry under `key` is a string with at least one non-space character. */
  predicate HasText(raw: map<string, Value>, key: string)
  {
    StringEntry(raw, key).Some? && !AllSpace(StringEntry(raw, key).value)
  }

  /** The entry under `key` is a non-empty string, so it replaces the default. */
  predicate Given(raw: map<string, Value>, key: string)
  {
    StringEntry(raw, key).Some? && StringEntry(raw, key).value != ""
  }

  /** The trimmed string entry under `key`, or "" when there is none. */
  function TrimmedEntry(raw: map<string, Value>, key: string): (r: string)
    ensures r == "" <==> !HasText(raw, key)
    ensures r != "" ==> !IsSpace(r[0]) && !IsSpace(r[|r| - 1])
  {
    match StringEntry(raw, key)
    case Some(v) => TrimSpace(v)
    case None => ""
  }

  /** `parseConfig`: defaults for source, URL and issue type; the token, the
      URL and the project key are trimmed, the source and the issue type are
      not. */
  function ParseConfig(raw: map<string, Value>): (c: Config)
    ensures c.source != "" && c.defaultIssueType != ""
    ensures c.source == if Given(raw, "source") then StringEntry(raw, "source").value else DefaultSource
    ensures c.defaultIssueType ==
      if Given(raw, "defaultIssueType") then StringEntry(raw, "defaultIssueType").value else DefaultIssueType
    ensures c.apiURL == if Given(raw, "apiURL") then TrimmedEntry(raw, "apiURL") else DefaultAPIURL
    ensures c.apiToken == "" <==> !HasText(raw, "apiToken")
    ensures c.projectKey == "" <==> !HasText(raw, "projectKey")
    ensures c.apiURL == "" <==> Given(raw, "apiURL") && !HasText(raw, "apiURL")
    ensures c.apiToken == TrimmedEntry(raw, "apiToken") && c.projectKey == TrimmedEntry(raw, "projectKey")
  {
    Config(
      source := if Given(raw, "source") then StringEntry(raw, "source").value else DefaultSource,
      apiToken := TrimmedEntry(raw, "apiToken"),
      apiURL := if Given(raw, "apiURL") then TrimmedEntry(raw, "apiURL") else DefaultAPIURL,
      projectKey := TrimmedEntry(raw, "projectKey"),
      defaultIssueType := if Given(raw, "defaultIssueType") then StringEntry(raw, "defaultIssueType").value else DefaultIssueType)
  }

  /** The validation of `New`: the token, then the project key, then the URL
      must be non-empty after parsing; the first missing one is reported. */
  function New(raw: map<string, Value>): (r: Result<Config, ConfigError>)
    ensures r.Success? ==> r.value == ParseConfig(raw)
    ensures r.Success? ==> r.value.apiToken != "" && r.value.projectKey != "" && r.value.apiURL != ""
    ensures r == Failure(MissingAPIToken) <==> !HasText(raw, "apiToken")
    ensures r == Failure(MissingProjectKey) <==> HasText(raw, "apiToken") && !HasText(raw, "projectKey")
  {
    var c := ParseConfig(raw);
    if c.apiToken == "" then Failure(MissingAPIToken)
    else if c.projectKey == "" then Failure(MissingProjectKey)
    else if c.apiURL == "" then Failure(MissingAPIURL)
    else Success(c)
  }

  /** Construction succeeds exactly when the token and the project key carry
      text and the URL, if given as a non-empty string, carries text too. An
      absent URL is never an error: the default URL fills it. */
  lemma NewSucceedsIff(raw: map<string, Value>)
    ensures New(raw).Success? <==>
      && HasText(raw, "apiToken")
      && HasText(raw, "projectKey")
      && (Given(raw, "apiURL") ==> HasText(raw, "apiURL"))
  {
  }
}
