/** The token listing over the database (LISTED_LEGS_CTE in apps/server/src/repos/token-repo.ts). */
module TokenListing {
  import opened Wrappers
  import opened Ordering
  import opened Activities
  import opened Database
  import opened Listings
  import opened Protocol
  import opened Provenance
  import Chains

  /** The token addresses an activity declared for its two legs, in lower case; the contract of the events asks
      that no address be empty. */
  type TokensOf = nat -> set<string>

  /** The activities with a leg in the group: verified, deploying capital, in the window, on this chain. */
  function GroupOf(db: Tables, tokensOf: TokensOf, inWindow: nat -> bool, family: Chains.ChainFamily, chainId: int,
                   address: string): set<nat>
  {
    set id | id in db.activities && IsVerified(db.activities[id]) && DeploysCapital(db.activities[id].eventRole)
             && inWindow(id) && db.activities[id].chainFamily == family && db.activities[id].chainId == chainId
             && address in tokensOf(id)
  }

  /** What GROUP BY makes of one group: COUNT(DISTINCT activity_id) and array_agg(DISTINCT protocol) over it. */
  ghost predicate Summarizes(row: TokenStat, db: Tables, ids: set<nat>) {
    && ids != {} && ids <= db.activities.Keys && row.txCount == |ids|
    && (forall protocol ::
          protocol in row.protocols <==> exists id | id in ids :: db.activities[id].protocol == protocol)
  }

  ghost predicate RowOfGroup(row: TokenStat, db: Tables, tokensOf: TokensOf, inWindow: nat -> bool) {
    exists family :: row.chainFamily == Chains.FamilyText(family)
                     && Summarizes(row, db, GroupOf(db, tokensOf, inWindow, family, row.chainId, row.address))
  }

  /** The rows of the listing, one for each group that is not empty. */
  ghost predicate IsListing(table: seq<TokenStat>, db: Tables, tokensOf: TokensOf, inWindow: nat -> bool) {
    && OneRowPerToken(table)
    && (forall row | row in table :: RowOfGroup(row, db, tokensOf, inWindow))
    && (forall family, chainId, address | GroupOf(db, tokensOf, inWindow, family, chainId, address) != {} ::
          exists row | row in table ::
            (row.chainFamily, row.chainId, row.address) == (Chains.FamilyText(family), chainId, address))
  }

  lemma VerifiedChainResolves(row: Activity)
    requires ChainIsKnown(row) && IsVerified(row)
    ensures RegistrySlug(row.protocol, Chains.FamilyText(row.chainFamily), row.chainId).Some?
  {
    hide Chains.ResolveChain;
  }

  lemma GroupsAreListed(row: TokenStat, db: Tables, tokensOf: TokensOf, inWindow: nat -> bool)
    requires ChainsAreKnown(db) && (forall id :: "" !in tokensOf(id))
    requires RowOfGroup(row, db, tokensOf, inWindow)
    ensures ListedRow(row)
  {
    hide RegistrySlug, ChainIsKnown, DeploysCapital;
    var family :| row.chainFamily == Chains.FamilyText(family)
                  && Summarizes(row, db, GroupOf(db, tokensOf, inWindow, family, row.chainId, row.address));
    var ids := GroupOf(db, tokensOf, inWindow, family, row.chainId, row.address);
    var one :| one in ids;
    assert db.activities[one].protocol in row.protocols && |ids| >= 1;
    forall protocol | protocol in row.protocols
      ensures RegistrySlug(protocol, row.chainFamily, row.chainId).Some?
    {
      var id :| id in ids && db.activities[id].protocol == protocol;
      VerifiedChainResolves(db.activities[id]);
    }
  }

  /** Over every database an honest run can reach, and for every page size, the pages a client follows are the
      whole listing in order, each token once, and no page drops a token for want of a chain. */
  lemma EveryListingIsReadWhole(moments: seq<Moment>, quarantineStrikes: int, tokensOf: TokensOf, inWindow: nat -> bool,
                                collate: Collation, table: seq<TokenStat>, pageSize: nat)
    requires Honest(moments, quarantineStrikes) && (forall id :: "" !in tokensOf(id))
    requires IsListing(table, Run(moments, quarantineStrikes).db, tokensOf, inWindow)
    requires StrictTotalOrder(collate) && pageSize > 0
    ensures var (rows, complete) := FollowTokens(collate, table, pageSize);
            && complete && multiset(rows) == multiset(table)
            && (forall i, j | 0 <= i < j < |rows| :: IsListedBefore(collate, rows[i], rows[j]))
            && |Listed(rows, RegistrySlug)| == |rows| == |table|
            && (forall i | 0 <= i < |table| :: Listed(rows, RegistrySlug)[i].stat == rows[i])
  {
    hide RowOfGroup, ListedRow, ChainsAreKnown, Honest;
    var db := Run(moments, quarantineStrikes).db;
    SettledOnKnownChains(moments, quarantineStrikes);
    forall row | row in table
      ensures ListedRow(row)
    {
      GroupsAreListed(row, db, tokensOf, inWindow);
    }
    TokenPagingIsComplete(collate, table, pageSize);
    TokensAreReadInOrder(collate, table, pageSize);
    SortKeepsElements((a, b) => TokenBefore(collate, a, b), table);
    ListedRowsAreShown(TokensInOrder(collate, table));
  }
}
