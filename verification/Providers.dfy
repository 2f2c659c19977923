/** The provider types of package types that the engine and the chain share. */
module Providers {

  datatype ProviderConfig = ProviderConfig(name: string, url: string, rps: real, retries: int, vertical: string)

  datatype Provider = Provider(name: string, config: ProviderConfig)

  /** What a chain entry is made of: a provider with the rate and retries of a configuration entry. */
  datatype EntrySpec = EntrySpec(provider: Provider, rps: real, retries: int)
}
