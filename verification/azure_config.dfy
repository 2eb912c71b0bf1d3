/** The environment-derived settings of the application and their start-up check.

    Every setting is read once from an environment variable, so each is a
    possibly-null string; the speech locale and voice are fixed constants. */
module AzureConfig {
  import opened Wrappers

  // Names of the environment variables the settings are read from.
  const OpenAiEndpointVar := "AZURE_OPENAI_ENDPOINT"
  const OpenAiApiKeyVar := "AZURE_OPENAI_API_KEY"
  const OpenAiDeploymentNameVar := "AZURE_OPENAI_DEPLOYMENT_NAME"
  const SpeechKeyVar := "AZURE_SPEECH_KEY"
  const SpeechRegionVar := "AZURE_SPEECH_REGION"
  const AiProjectEndpointVar := "AZURE_AI_PROJECT_ENDPOINT"
  const AiProjectKeyVar := "AZURE_AI_PROJECT_KEY"
  const BingConnectionNameVar := "BING_CONNECTION_NAME"

  /** Recognition language and synthesis voice: constants, not settings. */
  const SpeechRecognitionLanguage := "zh-CN"
  const SpeechSynthesisVoice := "zh-CN-XiaoxiaoNeural"

  /** The eight configurable values; `None` is an unset environment variable. */
  datatype Config = Config(
    openAiEndpoint: Option<string>,
    openAiApiKey: Option<string>,
    openAiDeploymentName: Option<string>,
    speechKey: Option<string>,
    speechRegion: Option<string>,
    aiProjectEndpoint: Option<string>,
    aiProjectKey: Option<string>,
    bingConnectionName: Option<string>)

  /** `System.getenv`: the variable's value, or null when it is unset. */
  function GetEnv(env: map<string, string>, name: string): (v: Option<string>)
    ensures v.Some? <==> name in env
    ensures v.Some? ==> v.value == env[name]
  {
    if name in env then Some(env[name]) else None
  }

  /** The configuration as the class initialiser reads it from the environment. */
  function FromEnvironment(env: map<string, string>): (c: Config)
    ensures c.openAiEndpoint == GetEnv(env, OpenAiEndpointVar)
    ensures c.openAiApiKey == GetEnv(env, OpenAiApiKeyVar)
    ensures c.openAiDeploymentName == GetEnv(env, OpenAiDeploymentNameVar)
    ensures c.speechKey == GetEnv(env, SpeechKeyVar)
    ensures c.speechRegion == GetEnv(env, SpeechRegionVar)
    ensures c.aiProjectEndpoint == GetEnv(env, AiProjectEndpointVar)
    ensures c.aiProjectKey == GetEnv(env, AiProjectKeyVar)
    ensures c.bingConnectionName == GetEnv(env, BingConnectionNameVar)
  {
    Config(
      GetEnv(env, OpenAiEndpointVar), GetEnv(env, OpenAiApiKeyVar),
      GetEnv(env, OpenAiDeploymentNameVar),
      GetEnv(env, SpeechKeyVar), GetEnv(env, SpeechRegionVar),
      GetEnv(env, AiProjectEndpointVar), GetEnv(env, AiProjectKeyVar),
      GetEnv(env, BingConnectionNameVar))
  }

  /** The three pairs of settings the start-up check insists on. */
  datatype Group = OpenAi | Speech | AiProject

  /** One required pair, with the values it currently holds. */
  datatype Requirement = Requirement(group: Group, first: Option<string>, second: Option<string>)

  predicate Satisfied(q: Requirement) {
    q.first.Some? && q.second.Some?
  }

  /** The required pairs in the order they are checked. */
  function Requirements(c: Config): (qs: seq<Requirement>)
    ensures |qs| == 3
  {
    [ Requirement(OpenAi, c.openAiEndpoint, c.openAiApiKey),
      Requirement(Speech, c.speechKey, c.speechRegion),
      Requirement(AiProject, c.aiProjectEndpoint, c.aiProjectKey) ]
  }

  /** The names of the two environment variables of a group. */
  function VariableNames(g: Group): (string, string) {
    match g
    case OpenAi => (OpenAiEndpointVar, OpenAiApiKeyVar)
    case Speech => (SpeechKeyVar, SpeechRegionVar)
    case AiProject => (AiProjectEndpointVar, AiProjectKeyVar)
  }

  /** The message of the `IllegalStateException` raised for a missing group. */
  function ErrorMessage(g: Group): (msg: string)
    ensures Mentions(msg, VariableNames(g).0) && Mentions(msg, VariableNames(g).1)
  {
    var (a, b) := VariableNames(g);
    var msg := "请设置 " + a + " 和 " + b + " 环境变量";
    assert OccursAt(msg, a, 4);
    assert OccursAt(msg, b, 7 + |a|);
    msg
  }

  /** `name` occurs as a contiguous part of `msg`. */
  ghost predicate Mentions(msg: string, name: string) {
    exists k :: OccursAt(msg, name, k)
  }

  /** `name` occurs in `msg` starting at index `k`. */
  predicate OccursAt(msg: string, name: string, k: int) {
    0 <= k <= |msg| - |name| && msg[k..k + |name|] == name
  }

  /** `validate()`: raises for the first group, in checking order, that has an
      unset value; the deployment name and search connection name are not checked. */
  function Validate(c: Config): (r: Outcome<Group>)
    ensures r.Pass? <==> forall i :: 0 <= i < |Requirements(c)| ==> Satisfied(Requirements(c)[i])
    ensures r.Fail? ==> exists i :: 0 <= i < |Requirements(c)| &&
                          Requirements(c)[i].group == r.error &&
                          !Satisfied(Requirements(c)[i]) &&
                          forall j :: 0 <= j < i ==> Satisfied(Requirements(c)[j])
  {
    var qs := Requirements(c);
    if c.openAiEndpoint.None? || c.openAiApiKey.None? then
      assert !Satisfied(qs[0]);
      Fail(OpenAi)
    else if c.speechKey.None? || c.speechRegion.None? then
      assert Satisfied(qs[0]) && !Satisfied(qs[1]);
      Fail(Speech)
    else if c.aiProjectEndpoint.None? || c.aiProjectKey.None? then
      assert Satisfied(qs[0]) && Satisfied(qs[1]) && !Satisfied(qs[2]);
      Fail(AiProject)
    else
      Pass
  }

  /** The check passes exactly when all six required values are set. */
  lemma ValidatePassesIffSixSet(c: Config)
    ensures Validate(c).Pass? <==>
            && c.openAiEndpoint.Some? && c.openAiApiKey.Some?
            && c.speechKey.Some? && c.speechRegion.Some?
            && c.aiProjectEndpoint.Some? && c.aiProjectKey.Some?
  {
  }

  /** The failing group is uniquely determined: it is the first unsatisfied one,
      so a later missing pair is reported only when every earlier pair is set. */
  lemma ValidateReportsFirstMissing(c: Config, i: nat)
    requires i < |Requirements(c)|
    requires !Satisfied(Requirements(c)[i])
    requires forall j :: 0 <= j < i ==> Satisfied(Requirements(c)[j])
    ensures Validate(c) == Fail(Requirements(c)[i].group)
  {
  }

  /** Neither the deployment name nor the search connection name affects the check. */
  lemma ValidateIgnoresUncheckedSettings(c: Config, deployment: Option<string>, connection: Option<string>)
    ensures Validate(c.(openAiDeploymentName := deployment, bingConnectionName := connection)) == Validate(c)
  {
  }

  /** An environment that sets all six required variables passes the check,
      whatever it holds for the other two. */
  lemma CompleteEnvironmentValidates(env: map<string, string>)
    requires OpenAiEndpointVar in env && OpenAiApiKeyVar in env
    requires SpeechKeyVar in env && SpeechRegionVar in env
    requires AiProjectEndpointVar in env && AiProjectKeyVar in env
    ensures Validate(FromEnvironment(env)) == Pass
  {
  }
}
