/** The household's configuration file, as far as members, spaces, endpoints and tier chains go. */
module Configuration {
  import opened Text

  datatype Mode = Simple | Isolated | OtherMode

  datatype Source = Source(env: string, file: string)

  datatype EndpointConfig = EndpointConfig(
    name: string, model: string, goodUrl: bool, tags: seq<string>,
    contextWindow: int, maxTokens: int, apiKey: Source)

  datatype PersonaConfig = PersonaConfig(agentName: string, language: string, tone: string, character: string)

  datatype MemberConfig = MemberConfig(
    id: string, privateSpace: string, telegramId: int, sharedOnly: bool, tiers: seq<string>,
    botToken: Source, passphrase: Source, persona: PersonaConfig)

  datatype Config = Config(
    mode: Mode, sharedSpace: string, groupChatId: int, tiers: seq<string>,
    botToken: Source, sessionPassphrase: Source, linkKey: Source,
    members: seq<MemberConfig>, endpoints: seq<EndpointConfig>)

  predicate Blank(s: string) { TrimSpace(s) == "" }

  /** Whether a tier chain names any of an endpoint's tags. */
  predicate ChainReaches(chain: seq<string>, tags: seq<string>) {
    exists t, tag :: t in chain && tag in tags && TrimSpace(t) == TrimSpace(tag)
  }
}
