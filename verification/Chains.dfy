/** The chains the registry knows (packages/core/src/chain-registry). */
module Chains {
  import opened Wrappers

  /** The two families the schema and the event contract admit. */
  datatype ChainFamily = Eip155 | Solana

  datatype Tier = Full | Basic

  datatype ChainEntry = ChainEntry(canonicalSlug: string, tier: Tier)

  function FamilyText(family: ChainFamily): string {
    match family
    case Eip155 => "eip155"
    case Solana => "solana"
  }

  const EVM_CHAINS: map<int, string> := map[
    1 := "ethereum", 8453 := "base", 42161 := "arbitrum", 10 := "optimism", 137 := "polygon", 4663 := "robinhood",
    130 := "unichain", 143 := "monad", 999 := "hyperevm", 56 := "bsc", 43114 := "avalanche", 59144 := "linea",
    5000 := "mantle", 80094 := "berachain", 146 := "sonic", 9745 := "plasma", 2020 := "ronin", 4326 := "megaeth"]

  /** Providers number Solana each in its own way. */
  const SOLANA_CHAINS: map<(string, int), string> := map[
    ("khalani", 20011000000) := "solana", ("relay", 792703809) := "solana", ("jupiter", 20011000000) := "solana"]

  function ResolveChain(protocol: string, family: ChainFamily, chainId: int): Option<ChainEntry> {
    match family
    case Eip155 => if chainId in EVM_CHAINS then Some(ChainEntry(EVM_CHAINS[chainId], Full)) else None
    case Solana =>
      if (protocol, chainId) in SOLANA_CHAINS then Some(ChainEntry(SOLANA_CHAINS[(protocol, chainId)], Basic)) else None
  }

  function TierOf(protocol: string, family: ChainFamily, chainId: int): Option<Tier> {
    var entry := ResolveChain(protocol, family, chainId);
    if entry.None? then None else Some(entry.value.tier)
  }

  /** Bridge legs name Solana by the provider's own number, and any other chain by its EVM id. */
  function ResolveBridgeChain(protocol: string, chainId: int): Option<ChainEntry> {
    var providerNativeEntry := ResolveChain(protocol, Solana, chainId);
    if providerNativeEntry.Some? then providerNativeEntry else ResolveChain(protocol, Eip155, chainId)
  }

  /** Chains of the first family are fully verified and named by their number alone, those of the other one basically
      and by the provider's own number. */
  lemma TierIsByFamily(protocol: string, other: string, family: ChainFamily, chainId: int)
    ensures TierOf(protocol, family, chainId).Some? <==> ResolveChain(protocol, family, chainId).Some?
    ensures TierOf(protocol, family, chainId).Some? ==>
              TierOf(protocol, family, chainId) == Some(if family.Eip155? then Full else Basic)
    ensures family.Eip155? ==> ResolveChain(protocol, family, chainId) == ResolveChain(other, family, chainId)
  {
    hide EVM_CHAINS, SOLANA_CHAINS;
  }

  /** A bridge leg is on the provider's own chain of that number, when it has one, and else on the chain of that
      number. */
  lemma BridgeChainMeaning(protocol: string, chainId: int)
    ensures var own, common := ResolveChain(protocol, Solana, chainId), ResolveChain(protocol, Eip155, chainId);
            && (own.Some? ==> ResolveBridgeChain(protocol, chainId) == own)
            && (own.None? ==> ResolveBridgeChain(protocol, chainId) == common)
  {
  }

  /** No chain of the registry has a number below one, and no slug holds the route separator. */
  lemma KnownChains(protocol: string, family: ChainFamily, chainId: int)
    ensures ResolveChain(protocol, family, chainId).Some? ==>
              chainId >= 1 && '>' !in ResolveChain(protocol, family, chainId).value.canonicalSlug
  {
    assert forall id | id in EVM_CHAINS :: id >= 1 && '>' !in EVM_CHAINS[id];
    assert forall key | key in SOLANA_CHAINS :: key.1 >= 1 && '>' !in SOLANA_CHAINS[key];
  }
}
