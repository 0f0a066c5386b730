/** The three public listings and their cursors
    (apps/server/src/repos/token-repo.ts, read-repo.ts and apps/server/src/routes/public). */
module Listings {
  import opened Wrappers
  import opened Ordering
  import opened Paging
  import Chains

  /** The collation of the database: any fixed strict total order on texts. */
  type Collation = (string, string) -> bool

  /** The slug of a protocol's chain, by family and number. */
  type ResolveChain = (string, string, int) -> Option<string>

  function FamilyOf(chainFamily: string): Chains.ChainFamily {
    if chainFamily == "solana" then Chains.Solana else Chains.Eip155
  }

  /** The registry the server is wired with. */
  function RegistrySlug(protocol: string, chainFamily: string, chainId: int): Option<string> {
    var entry := Chains.ResolveChain(protocol, FamilyOf(chainFamily), chainId);
    if entry.None? then None else Some(entry.value.canonicalSlug)
  }

  datatype TokenStat = TokenStat(chainFamily: string, chainId: int, address: string, volumeUsd: real, txCount: int,
                                 protocols: seq<string>)

  datatype TokenCursor = TokenCursor(volumeUsd: real, txCount: int, address: string, chainFamily: string, chainId: int)

  function TokenCursorOf(row: TokenStat): TokenCursor {
    TokenCursor(row.volumeUsd, row.txCount, row.address, row.chainFamily, row.chainId)
  }

  /** The checks of `decodeTokenCursor`. */
  predicate AcceptsTokenCursor(c: TokenCursor) {
    && c.txCount >= 0
    && c.address != ""
    && (c.chainFamily == "eip155" || c.chainFamily == "solana")
    && c.chainId >= 0
  }

  /** The WHERE clause, branch by branch. */
  predicate TokenPast(collate: Collation, c: TokenCursor, row: TokenStat) {
    || row.volumeUsd < c.volumeUsd
    || (row.volumeUsd == c.volumeUsd && row.txCount < c.txCount)
    || (row.volumeUsd == c.volumeUsd && row.txCount == c.txCount && collate(c.address, row.address))
    || (row.volumeUsd == c.volumeUsd && row.txCount == c.txCount && row.address == c.address
        && collate(c.chainFamily, row.chainFamily))
    || (row.volumeUsd == c.volumeUsd && row.txCount == c.txCount && row.address == c.address
        && row.chainFamily == c.chainFamily && row.chainId > c.chainId)
  }

  /** ORDER BY volume DESC, transactions DESC, address, chain family, chain id. */
  predicate TokenBefore(collate: Collation, a: TokenStat, b: TokenStat) {
    if a.volumeUsd != b.volumeUsd then a.volumeUsd > b.volumeUsd
    else if a.txCount != b.txCount then a.txCount > b.txCount
    else if a.address != b.address then collate(a.address, b.address)
    else if a.chainFamily != b.chainFamily then collate(a.chainFamily, b.chainFamily)
    else a.chainId < b.chainId
  }

  /** GROUP BY chain family, chain id and address gives each token one row. */
  ghost predicate OneRowPerToken(table: seq<TokenStat>) {
    forall i, j | 0 <= i < j < |table| ::
      (table[i].chainFamily, table[i].chainId, table[i].address)
      != (table[j].chainFamily, table[j].chainId, table[j].address)
  }

  lemma TokenOrderIsSound(collate: Collation, table: seq<TokenStat>)
    requires StrictTotalOrder(collate) && OneRowPerToken(table)
    ensures Sound((a, b) => TokenBefore(collate, a, b), (c, r) => TokenPast(collate, c, r), TokenCursorOf)
    ensures Separates((a, b) => TokenBefore(collate, a, b), table)
  {
    TokenOrderIsStrict(collate);
  }

  lemma TokenOrderIsStrict(collate: Collation)
    requires StrictTotalOrder(collate)
    ensures StrictOrder((a, b) => TokenBefore(collate, a, b))
  {
  }

  /** The tokens as the database orders them. */
  function TokensInOrder(collate: Collation, table: seq<TokenStat>): seq<TokenStat> {
    Sort((a, b) => TokenBefore(collate, a, b), table)
  }

  function FollowTokens(collate: Collation, table: seq<TokenStat>, pageSize: nat): (seq<TokenStat>, bool)
    requires StrictTotalOrder(collate) && OneRowPerToken(table)
  {
    TokenOrderIsSound(collate, table);
    Follow(table, (a, b) => TokenBefore(collate, a, b), (c, r) => TokenPast(collate, c, r), TokenCursorOf,
           AcceptsTokenCursor, None, pageSize)
  }

  /** What the schema, the contract of the events and the registry promise of a row: a known family, an address,
      a transaction, and a chain the registry resolves for every protocol seen on it. */
  ghost predicate ListedRow(row: TokenStat) {
    && (row.chainFamily == "eip155" || row.chainFamily == "solana")
    && row.address != "" && row.txCount >= 1 && row.protocols != []
    && (forall protocol | protocol in row.protocols :: RegistrySlug(protocol, row.chainFamily, row.chainId).Some?)
  }

  /** The cursor check never refuses the cursor of a listed row. */
  lemma ListedRowsAreAccepted(row: TokenStat)
    requires ListedRow(row)
    ensures AcceptsTokenCursor(TokenCursorOf(row))
  {
    assert row.protocols[0] in row.protocols;
    Chains.KnownChains(row.protocols[0], FamilyOf(row.chainFamily), row.chainId);
  }

  /** Following cursors returns the whole sorted list, each token once, for every page size. */
  lemma TokenPagingIsComplete(collate: Collation, table: seq<TokenStat>, pageSize: nat)
    requires StrictTotalOrder(collate) && OneRowPerToken(table) && pageSize > 0
    requires forall row | row in table :: ListedRow(row)
    ensures FollowTokens(collate, table, pageSize) == (TokensInOrder(collate, table), true)
  {
    hide ListedRow, AcceptsTokenCursor;
    var before, past := (a, b) => TokenBefore(collate, a, b), (c, r) => TokenPast(collate, c, r);
    TokenOrderIsSound(collate, table);
    SortKeepsElements(before, table);
    forall row | row in table
      ensures AcceptsTokenCursor(TokenCursorOf(row))
    {
      ListedRowsAreAccepted(row);
    }
    AcceptedIsUnbroken(TokensInOrder(collate, table), TokenCursorOf, AcceptsTokenCursor, 0, pageSize);
    FollowReadsEverything(table, before, past, TokenCursorOf, AcceptsTokenCursor, pageSize);
  }

  /** Largest volume first; of one volume the most transactions; then address, chain family and chain in order. */
  ghost predicate IsListedBefore(collate: Collation, a: TokenStat, b: TokenStat) {
    || a.volumeUsd > b.volumeUsd
    || (&& a.volumeUsd == b.volumeUsd
        && (|| a.txCount > b.txCount
            || (&& a.txCount == b.txCount
                && (|| collate(a.address, b.address)
                    || (&& a.address == b.address
                        && (|| collate(a.chainFamily, b.chainFamily)
                            || (a.chainFamily == b.chainFamily && a.chainId < b.chainId)))))))
  }

  /** What a client reads is the table, in that order. */
  lemma TokensAreReadInOrder(collate: Collation, table: seq<TokenStat>, pageSize: nat)
    requires StrictTotalOrder(collate) && OneRowPerToken(table) && pageSize > 0
    requires forall row | row in table :: ListedRow(row)
    ensures var rows := FollowTokens(collate, table, pageSize).0;
            && multiset(rows) == multiset(table)
            && forall i, j | 0 <= i < j < |rows| :: IsListedBefore(collate, rows[i], rows[j])
  {
    hide ListedRow, FollowTokens;
    var before := (a, b) => TokenBefore(collate, a, b);
    TokenPagingIsComplete(collate, table, pageSize);
    TokenOrderIsSound(collate, table);
    SortPermutes(before, table);
    SortAscends(before, table);
  }

  datatype TokenDto = TokenDto(chainSlug: string, stat: TokenStat)

  /** The canonical slug of the first protocol whose chain is known. */
  function ChainSlugFrom(protocols: seq<string>, chainFamily: string, chainId: int, resolve: ResolveChain)
    : Option<string>
  {
    if protocols == [] then None
    else
      var slug := resolve(protocols[0], chainFamily, chainId);
      if slug.Some? then slug else ChainSlugFrom(protocols[1..], chainFamily, chainId, resolve)
  }

  function ChainSlugOf(row: TokenStat, resolve: ResolveChain): Option<string> {
    ChainSlugFrom(row.protocols, if row.chainFamily == "solana" then "solana" else "eip155", row.chainId, resolve)
  }

  /** A token is shown under the slug of its first protocol whose chain is known, and not at all when there is none. */
  lemma {:induction false} SlugOfFirstKnown(protocols: seq<string>, chainFamily: string, chainId: int,
                                            resolve: ResolveChain)
    ensures ChainSlugFrom(protocols, chainFamily, chainId, resolve).None? <==>
              forall i | 0 <= i < |protocols| :: resolve(protocols[i], chainFamily, chainId).None?
    ensures forall slug :: ChainSlugFrom(protocols, chainFamily, chainId, resolve) == Some(slug) ==>
              exists i | 0 <= i < |protocols| ::
                && resolve(protocols[i], chainFamily, chainId) == Some(slug)
                && forall j | 0 <= j < i :: resolve(protocols[j], chainFamily, chainId).None?
  {
    if protocols != [] {
      SlugOfFirstKnown(protocols[1..], chainFamily, chainId, resolve);
      assert protocols == [protocols[0]] + protocols[1..];
      var found := ChainSlugFrom(protocols, chainFamily, chainId, resolve);
      if resolve(protocols[0], chainFamily, chainId).None? && found.Some? {
        var slug := found.value;
        var i :| 0 <= i < |protocols| - 1 && resolve(protocols[1..][i], chainFamily, chainId) == Some(slug)
                 && forall j | 0 <= j < i :: resolve(protocols[1..][j], chainFamily, chainId).None?;
        assert resolve(protocols[i + 1], chainFamily, chainId) == Some(slug);
        forall j | 0 <= j < i + 1
          ensures resolve(protocols[j], chainFamily, chainId).None?
        {
          assert j > 0 ==> protocols[j] == protocols[1..][j - 1];
        }
      }
    }
  }

  function Listed(rows: seq<TokenStat>, resolve: ResolveChain): seq<TokenDto> {
    if rows == [] then []
    else
      var front, last := Listed(rows[..|rows| - 1], resolve), rows[|rows| - 1];
      match ChainSlugOf(last, resolve)
      case None => front
      case Some(slug) => front + [TokenDto(slug, last)]
  }

  method ListedTokens(rows: seq<TokenStat>, resolve: ResolveChain) returns (listed: seq<TokenDto>)
    ensures listed == Listed(rows, resolve)
  {
    listed := [];
    for i := 0 to |rows|
      invariant listed == Listed(rows[..i], resolve)
    {
      assert rows[..i + 1][..i] == rows[..i];
      var chainSlug := ChainSlugOf(rows[i], resolve);
      if chainSlug.None? {
        continue;
      }
      listed := listed + [TokenDto(chainSlug.value, rows[i])];
    }
    assert rows[..|rows|] == rows;
  }

  /** Dropping tokens of unknown chains page by page drops them from the whole list: the cursor is
      taken from the rows that were read, not from the items that were listed. */
  lemma {:induction false} ListingSplits(front: seq<TokenStat>, back: seq<TokenStat>, resolve: ResolveChain)
    ensures Listed(front + back, resolve) == Listed(front, resolve) + Listed(back, resolve)
  {
    if back == [] {
      assert front + back == front;
    } else {
      var n := |back| - 1;
      assert (front + back)[..|front + back| - 1] == front + back[..n];
      ListingSplits(front, back[..n], resolve);
    }
  }

  lemma FirstProtocolIsKnown(row: TokenStat)
    requires ListedRow(row)
    ensures row.protocols != []
    ensures ChainSlugOf(row, RegistrySlug) == RegistrySlug(row.protocols[0], row.chainFamily, row.chainId)
    ensures ChainSlugOf(row, RegistrySlug).Some?
  {
    hide RegistrySlug;
    assert row.protocols[0] in row.protocols;
  }

  /** Of listed rows none is dropped, and each is shown under the slug of the first protocol it was seen with. */
  lemma {:induction false} ListedRowsAreShown(rows: seq<TokenStat>)
    requires forall row | row in rows :: ListedRow(row)
    ensures |Listed(rows, RegistrySlug)| == |rows|
    ensures forall i | 0 <= i < |rows| ::
              var dto, row := Listed(rows, RegistrySlug)[i], rows[i];
              && dto.stat == row && row.protocols != []
              && Some(dto.chainSlug) == RegistrySlug(row.protocols[0], row.chainFamily, row.chainId)
  {
    hide RegistrySlug, ListedRow, ChainSlugOf;
    if rows != [] {
      assert forall row | row in rows[..|rows| - 1] :: row in rows;
      ListedRowsAreShown(rows[..|rows| - 1]);
      FirstProtocolIsKnown(rows[|rows| - 1]);
    }
  }

  datatype AgentVolume = AgentVolume(agentHash: string, volumeUsd: real)

  datatype AgentCursor = AgentCursor(volumeUsd: real, agentHash: string)

  function AgentCursorOf(row: AgentVolume): AgentCursor {
    AgentCursor(row.volumeUsd, row.agentHash)
  }

  /** The pattern `decodeAgentCursor` asks of a hash, which the schema asks of every agent as well. */
  predicate IsAgentHash(hash: string) {
    |hash| == 64 && forall i | 0 <= i < 64 :: '0' <= hash[i] <= '9' || 'a' <= hash[i] <= 'f'
  }

  predicate AcceptsAgentCursor(c: AgentCursor) {
    IsAgentHash(c.agentHash)
  }

  predicate AgentPast(collate: Collation, c: AgentCursor, row: AgentVolume) {
    row.volumeUsd < c.volumeUsd || (row.volumeUsd == c.volumeUsd && collate(c.agentHash, row.agentHash))
  }

  predicate AgentBefore(collate: Collation, a: AgentVolume, b: AgentVolume) {
    if a.volumeUsd != b.volumeUsd then a.volumeUsd > b.volumeUsd else collate(a.agentHash, b.agentHash)
  }

  ghost predicate AgentTable(table: seq<AgentVolume>) {
    && (forall r | r in table :: IsAgentHash(r.agentHash))
    && (forall i, j | 0 <= i < j < |table| :: table[i].agentHash != table[j].agentHash)
  }

  lemma AgentOrderIsSound(collate: Collation, table: seq<AgentVolume>)
    requires StrictTotalOrder(collate) && AgentTable(table)
    ensures Sound((a, b) => AgentBefore(collate, a, b), (c, r) => AgentPast(collate, c, r), AgentCursorOf)
    ensures Separates((a, b) => AgentBefore(collate, a, b), table)
  {
  }

  /** Leaderboard paging returns every agent once, in order, for any page size. */
  lemma AgentPagingIsComplete(collate: Collation, table: seq<AgentVolume>, pageSize: nat)
    requires StrictTotalOrder(collate) && AgentTable(table) && pageSize > 0
    ensures Sound((a, b) => AgentBefore(collate, a, b), (c, r) => AgentPast(collate, c, r), AgentCursorOf)
    ensures Follow(table, (a, b) => AgentBefore(collate, a, b), (c, r) => AgentPast(collate, c, r), AgentCursorOf,
                   AcceptsAgentCursor, None, pageSize)
            == (Sort((a, b) => AgentBefore(collate, a, b), table), true)
  {
    var before, past := (a, b) => AgentBefore(collate, a, b), (c, r) => AgentPast(collate, c, r);
    AgentOrderIsSound(collate, table);
    SortKeepsElements(before, table);
    AcceptedIsUnbroken(Sort(before, table), AgentCursorOf, AcceptsAgentCursor, 0, pageSize);
    FollowReadsEverything(table, before, past, AgentCursorOf, AcceptsAgentCursor, pageSize);
  }

  /** Largest volume first, and of one volume by hash. */
  lemma AgentsAreReadInOrder(collate: Collation, table: seq<AgentVolume>, pageSize: nat)
    requires StrictTotalOrder(collate) && AgentTable(table) && pageSize > 0
    ensures Sound((a, b) => AgentBefore(collate, a, b), (c, r) => AgentPast(collate, c, r), AgentCursorOf)
    ensures var rows := Follow(table, (a, b) => AgentBefore(collate, a, b), (c, r) => AgentPast(collate, c, r),
                               AgentCursorOf, AcceptsAgentCursor, None, pageSize).0;
            && multiset(rows) == multiset(table)
            && forall i, j | 0 <= i < j < |rows| ::
                 || rows[i].volumeUsd > rows[j].volumeUsd
                 || (rows[i].volumeUsd == rows[j].volumeUsd && collate(rows[i].agentHash, rows[j].agentHash))
  {
    hide Follow;
    var before := (a, b) => AgentBefore(collate, a, b);
    AgentOrderIsSound(collate, table);
    AgentPagingIsComplete(collate, table, pageSize);
    SortPermutes(before, table);
    SortAscends(before, table);
  }

  /** What a client may not send: a token cursor with a negative count or chain, no address or another family, and an
      agent cursor whose hash is not 64 hexadecimal digits in lower case. */
  lemma CursorsAreRefusedExactlyWhen(token: TokenCursor, agent: AgentCursor)
    ensures !AcceptsTokenCursor(token) <==>
              || token.txCount < 0 || token.chainId < 0 || |token.address| == 0
              || token.chainFamily !in {"eip155", "solana"}
    ensures !AcceptsAgentCursor(agent) <==>
              || |agent.agentHash| != 64
              || exists i | 0 <= i < |agent.agentHash| :: agent.agentHash[i] !in "0123456789abcdef"
  {
    forall c: char
      ensures c in "0123456789abcdef" <==> '0' <= c <= '9' || 'a' <= c <= 'f'
    {
      HexDigits(c);
    }
  }

  lemma HexDigits(c: char)
    ensures c in "0123456789abcdef" <==> '0' <= c <= '9' || 'a' <= c <= 'f'
  {
    var digits := "0123456789abcdef";
    if '0' <= c <= '9' {
      assert digits[c as int - '0' as int] == c;
    }
    if 'a' <= c <= 'f' {
      assert digits[c as int - 'a' as int + 10] == c;
    }
  }

  /** A feed row's event time is kept in microseconds by the database. */
  datatype FeedRow = FeedRow(id: int, eventTimeMicros: int)

  /** A cursor carries whole milliseconds, all that a JavaScript date holds. */
  datatype FeedCursor = FeedCursor(eventTimeMs: int, id: int)

  /** `date_trunc('milliseconds', ...)` */
  function EventTimeMs(row: FeedRow): int {
    row.eventTimeMicros / 1000
  }

  function FeedCursorOf(row: FeedRow): FeedCursor {
    FeedCursor(EventTimeMs(row), row.id)
  }

  predicate AcceptsFeedCursor(c: FeedCursor) {
    true
  }

  /** `(event_time, id) < (cursor time, cursor id)` on truncated times */
  predicate FeedPast(c: FeedCursor, row: FeedRow) {
    EventTimeMs(row) < c.eventTimeMs || (EventTimeMs(row) == c.eventTimeMs && row.id < c.id)
  }

  predicate FeedBefore(a: FeedRow, b: FeedRow) {
    if EventTimeMs(a) != EventTimeMs(b) then EventTimeMs(a) > EventTimeMs(b) else a.id > b.id
  }

  ghost predicate DistinctIds(table: seq<FeedRow>) {
    forall i, j | 0 <= i < j < |table| :: table[i].id != table[j].id
  }

  lemma FeedOrderIsSound(table: seq<FeedRow>)
    requires DistinctIds(table)
    ensures Sound(FeedBefore, FeedPast, FeedCursorOf)
    ensures Separates(FeedBefore, table)
  {
  }

  /** Feed paging returns every row once, in order of truncated time and id, for any page size that
      is not zero; a page size of zero, which the configuration allows, shows nothing at all. */
  lemma FeedPagingIsComplete(table: seq<FeedRow>, pageSize: nat)
    requires DistinctIds(table)
    ensures Sound(FeedBefore, FeedPast, FeedCursorOf)
    ensures Follow(table, FeedBefore, FeedPast, FeedCursorOf, AcceptsFeedCursor, None, pageSize)
            == (if pageSize == 0 then [] else Sort(FeedBefore, table), true)
  {
    FeedOrderIsSound(table);
    if pageSize == 0 {
      EmptyPageEndsTheWalk(table, FeedBefore, FeedPast, FeedCursorOf, AcceptsFeedCursor);
    } else {
      AcceptedIsUnbroken(Sort(FeedBefore, table), FeedCursorOf, AcceptsFeedCursor, 0, pageSize);
      FollowReadsEverything(table, FeedBefore, FeedPast, FeedCursorOf, AcceptsFeedCursor, pageSize);
    }
  }

  /** Newest millisecond first, and within one the largest id. */
  lemma FeedIsReadInOrder(table: seq<FeedRow>, pageSize: nat)
    requires DistinctIds(table) && pageSize > 0
    ensures Sound(FeedBefore, FeedPast, FeedCursorOf)
    ensures var rows := Follow(table, FeedBefore, FeedPast, FeedCursorOf, AcceptsFeedCursor, None, pageSize).0;
            && multiset(rows) == multiset(table)
            && forall i, j | 0 <= i < j < |rows| ::
                 || rows[i].eventTimeMicros / 1000 > rows[j].eventTimeMicros / 1000
                 || (rows[i].eventTimeMicros / 1000 == rows[j].eventTimeMicros / 1000 && rows[i].id > rows[j].id)
  {
    hide Follow;
    FeedOrderIsSound(table);
    FeedPagingIsComplete(table, pageSize);
    SortPermutes(FeedBefore, table);
    SortAscends(FeedBefore, table);
  }

  /** The order on whole microseconds, which the cursor cannot carry. */
  predicate FineBefore(a: FeedRow, b: FeedRow) {
    if a.eventTimeMicros != b.eventTimeMicros then a.eventTimeMicros > b.eventTimeMicros else a.id > b.id
  }

  /** Had the ordering kept microseconds, two pages over two rows of one millisecond would show the later row and,
      exactly when the other one has the larger id, lose that one for good. */
  lemma UntruncatedOrderWouldLoseRows(a: FeedRow, b: FeedRow)
    requires EventTimeMs(a) == EventTimeMs(b) && a.eventTimeMicros > b.eventTimeMicros && a.id != b.id
    ensures var table := [a, b];
            var first := PageAfter(table, FineBefore, FeedPast, FeedCursorOf, None, 1);
            && first == Page([a], Some(FeedCursorOf(a)))
            && PageAfter(table, FineBefore, FeedPast, FeedCursorOf, first.nextCursor, 1)
               == Page(if a.id < b.id then [] else [b], None)
  {
    var table, all := [a, b], (row: FeedRow) => Past(FeedPast, None, row);
    var rest := (row: FeedRow) => Past(FeedPast, Some(FeedCursorOf(a)), row);
    assert table[1..] == [b] && [b][1..] == [];
    assert Filter(all, [b]) == [b] && Filter(all, table) == table;
    assert Filter(rest, [b]) == (if a.id < b.id then [] else [b]);
    assert Filter(rest, table) == Filter(rest, [b]);
    assert Sort(FineBefore, [b]) == [b];
    assert Sort(FineBefore, table) == Insert(FineBefore, a, [b]) == table;
  }
}
