/** Judging a transaction receipt against what an agent declared
    (packages/core/src/verification/evaluate.ts). */
module Receipt {
  import opened Wrappers
  import opened Ordering
  import opened Arithmetic
  import opened AddressText
  import opened Chains

  /** Raw amounts are unsigned integers on both sides of the comparison. */
  datatype Transfer = Transfer(token: string, from: string, to: string, amount: nat)

  /** `logCount` is the number of logs the reader saw, None when it reports no logs at all. */
  datatype ReceiptView = ReceiptView(reverted: bool, blockTimestampMs: int, erc20Transfers: seq<Transfer>,
                                     transactionValue: Option<nat>, logCount: Option<nat>)

  datatype VerificationInput = VerificationInput(clientConfirmedAtMs: Option<int>, executedIn: Option<nat>,
                                                 executedOut: Option<nat>,
                                                 tokenInAddress: Option<string>, tokenOutAddress: Option<string>,
                                                 tier: Tier,
                                                 timeToleranceMin: int, amountTolerancePct: real)

  datatype StrikeReason = TxReverted | AmountMismatch | TimeMismatch | TxNotFound

  datatype Verdict =
    | VerifiedFull(blockTimestampMs: int)
    | VerifiedBasic(blockTimestampMs: int)
    | Strike(reason: StrikeReason)
    | Unverifiable
    | Retry(message: string)

  /** The verdicts that settle a job. */
  type TerminalVerdict = v: Verdict | v.VerifiedFull? || v.VerifiedBasic? || v.Strike? witness Strike(TxReverted)

  datatype Side = FromSide | ToSide

  datatype Judgement = Matches | Mismatch | Unprovable

  function PartyOf(t: Transfer, side: Side): string {
    ToLower(if side.FromSide? then t.from else t.to)
  }

  /** `Math.round` */
  function Rounded(x: real): int {
    (x + 0.5).Floor
  }

  function Difference(a: int, b: int): nat {
    if a > b then a - b else b - a
  }

  predicate WithinTolerance(actual: nat, declared: nat, tolerancePct: real) {
    Difference(actual, declared) * 10_000 <= declared * Rounded(tolerancePct * 100.0)
  }

  predicate SameAddress(a: string, b: string) {
    ToLower(a) == ToLower(b)
  }

  /** `c.repeat(n)` */
  function Repeat(c: char, n: nat): (s: string)
    ensures |s| == n && forall i | 0 <= i < n :: s[i] == c
  {
    seq(n, _ => c)
  }

  const NATIVE_ADDRESS := "0x" + Repeat('0', 40)
  const NATIVE_SENTINEL := "0x" + Repeat('e', 40)

  predicate IsNativeToken(address: Option<string>) {
    address.Some? && (ToLower(address.value) == NATIVE_ADDRESS || ToLower(address.value) == NATIVE_SENTINEL)
  }

  predicate ReaderCouldNotReadTransfers(receipt: ReceiptView) {
    |receipt.erc20Transfers| == 0 && (receipt.logCount.None? || receipt.logCount.value > 0)
  }

  function TransfersOf(receipt: ReceiptView, token: string): seq<Transfer> {
    Filter((t: Transfer) => SameAddress(t.token, token), receipt.erc20Transfers)
  }

  function AmountBy(t: Transfer, side: Side, party: string): nat {
    if PartyOf(t, side) == party then t.amount else 0
  }

  /** All that one party moved, over every transfer it is named in. */
  function TotalMoved(transfers: seq<Transfer>, side: Side, party: string): nat {
    if transfers == [] then 0
    else TotalMoved(transfers[..|transfers| - 1], side, party) + AmountBy(transfers[|transfers| - 1], side, party)
  }

  predicate SomeTransferMatches(transfers: seq<Transfer>, declared: nat, tolerancePct: real) {
    exists t | t in transfers :: WithinTolerance(t.amount, declared, tolerancePct)
  }

  predicate SomeTotalMatches(transfers: seq<Transfer>, side: Side, declared: nat, tolerancePct: real) {
    exists t | t in transfers :: WithinTolerance(TotalMoved(transfers, side, PartyOf(t, side)), declared, tolerancePct)
  }

  /** The Map holds each named party's total, and no one else. */
  ghost predicate TalliedByParty(totals: map<string, nat>, transfers: seq<Transfer>, side: Side) {
    && (forall t | t in transfers :: PartyOf(t, side) in totals)
    && (forall party | party in totals :: exists t | t in transfers :: PartyOf(t, side) == party)
    && (forall party | party in totals :: totals[party] == TotalMoved(transfers, side, party))
  }

  lemma {:induction false} UnnamedPartyMovedNothing(transfers: seq<Transfer>, side: Side, party: string)
    requires forall t | t in transfers :: PartyOf(t, side) != party
    ensures TotalMoved(transfers, side, party) == 0
  {
    if transfers == [] {
    } else {
      UnnamedPartyMovedNothing(transfers[..|transfers| - 1], side, party);
    }
  }

  function WithAmount(totals: map<string, nat>, key: string, amount: nat): map<string, nat> {
    totals[key := (if key in totals then totals[key] else 0) + amount]
  }

  lemma TotalGrows(totals: map<string, nat>, transfers: seq<Transfer>, t: Transfer, side: Side, party: string)
    requires TalliedByParty(totals, transfers, side)
    requires party in WithAmount(totals, PartyOf(t, side), t.amount)
    ensures WithAmount(totals, PartyOf(t, side), t.amount)[party] == TotalMoved(transfers + [t], side, party)
  {
    hide TotalMoved, PartyOf;
    TotalOfAppend(transfers, t, side, party);
    if party !in totals {
      UnnamedPartyMovedNothing(transfers, side, party);
    }
  }

  lemma NamedPartyGrows(totals: map<string, nat>, transfers: seq<Transfer>, t: Transfer, side: Side, party: string)
    requires TalliedByParty(totals, transfers, side)
    requires party in WithAmount(totals, PartyOf(t, side), t.amount)
    ensures exists u | u in transfers + [t] :: PartyOf(u, side) == party
  {
    if party in totals {
      var u :| u in transfers && PartyOf(u, side) == party;
      assert u in transfers + [t];
    } else {
      assert t in transfers + [t];
    }
  }

  lemma TallyOneMore(totals: map<string, nat>, transfers: seq<Transfer>, t: Transfer, side: Side)
    requires TalliedByParty(totals, transfers, side)
    ensures TalliedByParty(WithAmount(totals, PartyOf(t, side), t.amount), transfers + [t], side)
  {
    forall party | party in WithAmount(totals, PartyOf(t, side), t.amount)
      ensures exists u | u in transfers + [t] :: PartyOf(u, side) == party
      ensures WithAmount(totals, PartyOf(t, side), t.amount)[party] == TotalMoved(transfers + [t], side, party)
    {
      TotalGrows(totals, transfers, t, side, party);
      NamedPartyGrows(totals, transfers, t, side, party);
    }
  }

  lemma SomeTotalInTally(totals: map<string, nat>, transfers: seq<Transfer>, side: Side, declared: nat,
                         tolerancePct: real)
    requires TalliedByParty(totals, transfers, side)
    ensures SomeTotalMatches(transfers, side, declared, tolerancePct)
            <==> exists party | party in totals :: WithinTolerance(totals[party], declared, tolerancePct)
  {
    if party :| party in totals && WithinTolerance(totals[party], declared, tolerancePct) {
      var t :| t in transfers && PartyOf(t, side) == party;
    }
  }

  lemma EmptyTally(side: Side)
    ensures TalliedByParty(map[], [], side)
  {
  }

  /** The loop that adds amounts up in a Map by party. */
  method SomeCounterpartyMovedTheDeclaredTotal(transfers: seq<Transfer>, side: Side, declared: nat, tolerancePct: real)
    returns (moved: bool)
    ensures moved <==> SomeTotalMatches(transfers, side, declared, tolerancePct)
  {
    hide TalliedByParty, TotalMoved, WithAmount, PartyOf, WithinTolerance;
    var totals: map<string, nat> := map[];
    EmptyTally(side);
    for i := 0 to |transfers|
      invariant TalliedByParty(totals, transfers[..i], side)
    {
      TallyOneMore(totals, transfers[..i], transfers[i], side);
      assert transfers[..i + 1] == transfers[..i] + [transfers[i]];
      totals := WithAmount(totals, PartyOf(transfers[i], side), transfers[i].amount);
    }
    assert transfers[..|transfers|] == transfers;
    SomeTotalInTally(totals, transfers, side, declared, tolerancePct);
    moved := exists party | party in totals :: WithinTolerance(totals[party], declared, tolerancePct);
  }

  function DeclaredLegJudgement(receipt: ReceiptView, token: Option<string>, declared: Option<nat>, tolerancePct: real,
                                side: Side): Judgement
  {
    if token.None? || declared.None? then Matches
    else if ReaderCouldNotReadTransfers(receipt) then Unprovable
    else if SomeTransferMatches(TransfersOf(receipt, token.value), declared.value, tolerancePct) then Matches
    else if SomeTotalMatches(TransfersOf(receipt, token.value), side, declared.value, tolerancePct) then Matches
    else Mismatch
  }

  predicate NativeInputMismatch(receipt: ReceiptView, declared: Option<nat>, tolerancePct: real) {
    && declared.Some? && receipt.transactionValue.Some?
    && !WithinTolerance(receipt.transactionValue.value, declared.value, tolerancePct)
  }

  function DeclaredInputJudgement(receipt: ReceiptView, input: VerificationInput): Judgement {
    if IsNativeToken(input.tokenInAddress) then
      if NativeInputMismatch(receipt, input.executedIn, input.amountTolerancePct) then Mismatch else Matches
    else DeclaredLegJudgement(receipt, input.tokenInAddress, input.executedIn, input.amountTolerancePct, FromSide)
  }

  function DeclaredOutputJudgement(receipt: ReceiptView, input: VerificationInput): Judgement {
    if IsNativeToken(input.tokenOutAddress) then Matches
    else DeclaredLegJudgement(receipt, input.tokenOutAddress, input.executedOut, input.amountTolerancePct, ToSide)
  }

  function JudgeDeclaredAmounts(receipt: ReceiptView, input: VerificationInput): Judgement {
    var inputLeg, outputLeg := DeclaredInputJudgement(receipt, input), DeclaredOutputJudgement(receipt, input);
    if inputLeg.Mismatch? || outputLeg.Mismatch? then Mismatch
    else if inputLeg.Unprovable? || outputLeg.Unprovable? then Unprovable
    else Matches
  }

  predicate BlockTimeOutsideTolerance(receipt: ReceiptView, input: VerificationInput) {
    && input.clientConfirmedAtMs.Some?
    && Difference(receipt.blockTimestampMs, input.clientConfirmedAtMs.value) > input.timeToleranceMin * 60_000
  }

  function EvaluateVerification(receipt: Option<ReceiptView>, input: VerificationInput): Verdict {
    if receipt.None? then Retry("receipt_not_found")
    else if receipt.value.reverted then Strike(TxReverted)
    else if BlockTimeOutsideTolerance(receipt.value, input) then Strike(TimeMismatch)
    else if input.tier.Basic? then VerifiedBasic(receipt.value.blockTimestampMs)
    else match JudgeDeclaredAmounts(receipt.value, input)
      case Mismatch => Strike(AmountMismatch)
      case Unprovable => Unverifiable
      case Matches => VerifiedFull(receipt.value.blockTimestampMs)
  }

  // Order of the transfers

  lemma TotalOfAppend(transfers: seq<Transfer>, last: Transfer, side: Side, party: string)
    ensures TotalMoved(transfers + [last], side, party)
            == TotalMoved(transfers, side, party) + AmountBy(last, side, party)
  {
    assert (transfers + [last])[..|transfers|] == transfers;
  }

  lemma {:induction false} TotalMoveToEnd(before: seq<Transfer>, t: Transfer, after: seq<Transfer>, side: Side,
                                          party: string)
    ensures TotalMoved(before + [t] + after, side, party)
            == TotalMoved(before + after, side, party) + AmountBy(t, side, party)
  {
    if after == [] {
      assert before + [t] + after == before + [t] && before + after == before;
      TotalOfAppend(before, t, side, party);
    } else {
      var rest, last := after[..|after| - 1], after[|after| - 1];
      TotalMoveToEnd(before, t, rest, side, party);
      assert before + [t] + after == (before + [t] + rest) + [last];
      assert before + after == (before + rest) + [last];
      TotalOfAppend(before + [t] + rest, last, side, party);
      TotalOfAppend(before + rest, last, side, party);
    }
  }

  lemma {:induction false} TotalIgnoresOrder(s: seq<Transfer>, t: seq<Transfer>, side: Side, party: string)
    requires multiset(s) == multiset(t)
    ensures TotalMoved(s, side, party) == TotalMoved(t, side, party)
  {
    assert |s| == |multiset(s)| == |multiset(t)| == |t|;
    if s == [] {
    } else {
      var i := FindInArrangement(s, t);
      TotalIgnoresOrder(s[..|s| - 1], t[..i] + t[i + 1..], side, party);
      TotalMoveToEnd(t[..i], t[i], t[i + 1..], side, party);
    }
  }

  lemma {:induction false} FilterCounts<T>(p: T -> bool, s: seq<T>, x: T)
    ensures multiset(Filter(p, s))[x] == if p(x) then multiset(s)[x] else 0
  {
    if s == [] {
    } else {
      FilterCounts(p, s[1..], x);
      assert s == [s[0]] + s[1..];
    }
  }

  lemma FilterIgnoresOrder<T(!new)>(p: T -> bool, s: seq<T>, t: seq<T>)
    requires multiset(s) == multiset(t)
    ensures multiset(Filter(p, s)) == multiset(Filter(p, t))
  {
    forall x
      ensures multiset(Filter(p, s))[x] == multiset(Filter(p, t))[x]
    {
      FilterCounts(p, s, x);
      FilterCounts(p, t, x);
    }
  }

  lemma MatchesIgnoreOrder(s: seq<Transfer>, t: seq<Transfer>, side: Side, declared: nat, tolerancePct: real)
    requires multiset(s) == multiset(t)
    ensures SomeTransferMatches(s, declared, tolerancePct) == SomeTransferMatches(t, declared, tolerancePct)
    ensures SomeTotalMatches(s, side, declared, tolerancePct) == SomeTotalMatches(t, side, declared, tolerancePct)
  {
    forall x: Transfer
      ensures x in s <==> x in t
    {
      assert x in s <==> x in multiset(s);
      assert x in t <==> x in multiset(t);
    }
    forall party
      ensures TotalMoved(s, side, party) == TotalMoved(t, side, party)
    {
      TotalIgnoresOrder(s, t, side, party);
    }
  }

  lemma LegIgnoresOrder(r: ReceiptView, transfers: seq<Transfer>, token: Option<string>, declared: Option<nat>,
                        tolerancePct: real, side: Side)
    requires multiset(r.erc20Transfers) == multiset(transfers)
    ensures DeclaredLegJudgement(r, token, declared, tolerancePct, side)
            == DeclaredLegJudgement(r.(erc20Transfers := transfers), token, declared, tolerancePct, side)
  {
    assert |multiset(r.erc20Transfers)| == |multiset(transfers)|;
    if token.Some? && declared.Some? {
      var p := (t: Transfer) => SameAddress(t.token, token.value);
      FilterIgnoresOrder(p, r.erc20Transfers, transfers);
      MatchesIgnoreOrder(TransfersOf(r, token.value), TransfersOf(r.(erc20Transfers := transfers), token.value), side,
                         declared.value, tolerancePct);
    }
  }

  /** The verdict does not depend on the order of the transfers in the receipt. */
  lemma VerdictIgnoresTransferOrder(r: ReceiptView, transfers: seq<Transfer>, input: VerificationInput)
    requires multiset(r.erc20Transfers) == multiset(transfers)
    ensures EvaluateVerification(Some(r), input) == EvaluateVerification(Some(r.(erc20Transfers := transfers)), input)
  {
    hide DeclaredLegJudgement, WithinTolerance, IsNativeToken;
    LegIgnoresOrder(r, transfers, input.tokenInAddress, input.executedIn, input.amountTolerancePct, FromSide);
    LegIgnoresOrder(r, transfers, input.tokenOutAddress, input.executedOut, input.amountTolerancePct, ToSide);
  }

  // Letter case and unit

  /** A change made to every transfer that keeps amounts and addresses up to case, times a factor. */
  ghost predicate Alike(s: seq<Transfer>, t: seq<Transfer>, k: nat) {
    && |s| == |t|
    && forall i | 0 <= i < |s| ::
         && SameAddress(s[i].token, t[i].token) && SameAddress(s[i].from, t[i].from) && SameAddress(s[i].to, t[i].to)
         && t[i].amount == k * s[i].amount
  }

  ghost predicate AlikeOption(a: Option<nat>, b: Option<nat>, k: nat) {
    b == if a.None? then None else Some(k * a.value)
  }

  ghost predicate SameAddressOption(a: Option<string>, b: Option<string>) {
    (a.None? && b.None?) || (a.Some? && b.Some? && SameAddress(a.value, b.value))
  }

  ghost predicate AlikeReceipts(r: ReceiptView, r': ReceiptView, k: nat) {
    && r'.reverted == r.reverted && r'.blockTimestampMs == r.blockTimestampMs && r'.logCount == r.logCount
    && Alike(r.erc20Transfers, r'.erc20Transfers, k)
    && AlikeOption(r.transactionValue, r'.transactionValue, k)
  }

  ghost predicate AlikeInputs(i: VerificationInput, i': VerificationInput, k: nat) {
    && i'.clientConfirmedAtMs == i.clientConfirmedAtMs && i'.tier == i.tier
    && i'.timeToleranceMin == i.timeToleranceMin && i'.amountTolerancePct == i.amountTolerancePct
    && AlikeOption(i.executedIn, i'.executedIn, k) && AlikeOption(i.executedOut, i'.executedOut, k)
    && SameAddressOption(i.tokenInAddress, i'.tokenInAddress)
    && SameAddressOption(i.tokenOutAddress, i'.tokenOutAddress)
  }

  lemma ToleranceScales(actual: nat, declared: nat, tolerancePct: real, k: nat)
    requires k > 0
    ensures WithinTolerance(k * actual, k * declared, tolerancePct) == WithinTolerance(actual, declared, tolerancePct)
  {
    hide Difference, Rounded;
    var basisPoints := Rounded(tolerancePct * 100.0);
    var left, right := Difference(actual, declared) * 10_000, declared * basisPoints;
    DifferenceScales(actual, declared, k);
    Regroup(k, Difference(actual, declared), 10_000, left);
    Regroup(k, declared, basisPoints, right);
    CancelFactor(left, right, k);
  }

  lemma Regroup(k: int, a: int, b: int, product: int)
    requires product == a * b
    ensures (k * a) * b == product * k
  {
  }

  lemma DifferenceScales(a: nat, b: nat, k: nat)
    ensures Difference(k * a, k * b) == k * Difference(a, b)
  {
    assert a > b ==> k * a >= k * b;
    assert a <= b ==> k * a <= k * b;
  }

  lemma {:induction false} TotalScales(s: seq<Transfer>, t: seq<Transfer>, side: Side, party: string, k: nat)
    requires Alike(s, t, k)
    ensures TotalMoved(t, side, party) == k * TotalMoved(s, side, party)
  {
    if s == [] {
    } else {
      var n := |s| - 1;
      TotalScales(s[..n], t[..n], side, party, k);
      assert PartyOf(s[n], side) == PartyOf(t[n], side);
      assert k * (TotalMoved(s[..n], side, party) + s[n].amount)
          == k * TotalMoved(s[..n], side, party) + k * s[n].amount;
    }
  }

  lemma {:induction false} FilterAlike(s: seq<Transfer>, t: seq<Transfer>, token: string, token': string, k: nat)
    requires Alike(s, t, k) && SameAddress(token, token')
    ensures Alike(Filter((x: Transfer) => SameAddress(x.token, token), s),
                  Filter((x: Transfer) => SameAddress(x.token, token'), t), k)
  {
    hide ToLower;
    if s == [] {
    } else {
      FilterAlike(s[1..], t[1..], token, token', k);
    }
  }

  lemma MatchAlike(s: seq<Transfer>, t: seq<Transfer>, n: nat, side: Side, declared: nat, tolerancePct: real, k: nat)
    requires Alike(s, t, k) && k > 0 && n < |s|
    ensures WithinTolerance(s[n].amount, declared, tolerancePct)
            == WithinTolerance(t[n].amount, k * declared, tolerancePct)
    ensures WithinTolerance(TotalMoved(s, side, PartyOf(s[n], side)), declared, tolerancePct)
            == WithinTolerance(TotalMoved(t, side, PartyOf(t[n], side)), k * declared, tolerancePct)
  {
    var party := PartyOf(s[n], side);
    assert party == PartyOf(t[n], side);
    TotalScales(s, t, side, party, k);
    ToleranceScales(s[n].amount, declared, tolerancePct, k);
    ToleranceScales(TotalMoved(s, side, party), declared, tolerancePct, k);
  }

  lemma TransferMatchesAlike(s: seq<Transfer>, t: seq<Transfer>, side: Side, declared: nat, tolerancePct: real, k: nat)
    requires Alike(s, t, k) && k > 0
    ensures SomeTransferMatches(s, declared, tolerancePct) == SomeTransferMatches(t, k * declared, tolerancePct)
  {
    if SomeTransferMatches(s, declared, tolerancePct) {
      var n :| 0 <= n < |s| && WithinTolerance(s[n].amount, declared, tolerancePct);
      MatchAlike(s, t, n, side, declared, tolerancePct, k);
      assert t[n] in t;
    }
    if SomeTransferMatches(t, k * declared, tolerancePct) {
      var n :| 0 <= n < |t| && WithinTolerance(t[n].amount, k * declared, tolerancePct);
      MatchAlike(s, t, n, side, declared, tolerancePct, k);
      assert s[n] in s;
    }
  }

  lemma TotalMatchesAlike(s: seq<Transfer>, t: seq<Transfer>, side: Side, declared: nat, tolerancePct: real, k: nat)
    requires Alike(s, t, k) && k > 0
    ensures SomeTotalMatches(s, side, declared, tolerancePct) == SomeTotalMatches(t, side, k * declared, tolerancePct)
  {
    if SomeTotalMatches(s, side, declared, tolerancePct) {
      var n :| 0 <= n < |s| && WithinTolerance(TotalMoved(s, side, PartyOf(s[n], side)), declared, tolerancePct);
      MatchAlike(s, t, n, side, declared, tolerancePct, k);
      assert t[n] in t;
    }
    if SomeTotalMatches(t, side, k * declared, tolerancePct) {
      var n :| 0 <= n < |t| && WithinTolerance(TotalMoved(t, side, PartyOf(t[n], side)), k * declared, tolerancePct);
      MatchAlike(s, t, n, side, declared, tolerancePct, k);
      assert s[n] in s;
    }
  }

  lemma LegAlike(r: ReceiptView, r': ReceiptView, token: Option<string>, token': Option<string>, declared: Option<nat>,
                 declared': Option<nat>, tolerancePct: real, side: Side, k: nat)
    requires AlikeReceipts(r, r', k) && k > 0
    requires SameAddressOption(token, token') && AlikeOption(declared, declared', k)
    ensures DeclaredLegJudgement(r, token, declared, tolerancePct, side)
            == DeclaredLegJudgement(r', token', declared', tolerancePct, side)
  {
    if token.Some? && declared.Some? {
      FilterAlike(r.erc20Transfers, r'.erc20Transfers, token.value, token'.value, k);
      TransferMatchesAlike(TransfersOf(r, token.value), TransfersOf(r', token'.value), side, declared.value,
                           tolerancePct, k);
      TotalMatchesAlike(TransfersOf(r, token.value), TransfersOf(r', token'.value), side, declared.value, tolerancePct,
                        k);
    }
  }

  lemma InputAlike(r: ReceiptView, r': ReceiptView, i: VerificationInput, i': VerificationInput, k: nat)
    requires AlikeReceipts(r, r', k) && AlikeInputs(i, i', k) && k > 0
    ensures DeclaredInputJudgement(r, i) == DeclaredInputJudgement(r', i')
  {
    LegAlike(r, r', i.tokenInAddress, i'.tokenInAddress, i.executedIn, i'.executedIn, i.amountTolerancePct, FromSide,
             k);
    if i.executedIn.Some? && r.transactionValue.Some? {
      ToleranceScales(r.transactionValue.value, i.executedIn.value, i.amountTolerancePct, k);
    }
  }

  lemma OutputAlike(r: ReceiptView, r': ReceiptView, i: VerificationInput, i': VerificationInput, k: nat)
    requires AlikeReceipts(r, r', k) && AlikeInputs(i, i', k) && k > 0
    ensures DeclaredOutputJudgement(r, i) == DeclaredOutputJudgement(r', i')
  {
    LegAlike(r, r', i.tokenOutAddress, i'.tokenOutAddress, i.executedOut, i'.executedOut, i.amountTolerancePct, ToSide,
             k);
  }

  /** Writing addresses in another case, or counting every raw amount in another unit, changes no verdict. */
  lemma VerdictIgnoresCaseAndUnit(r: ReceiptView, r': ReceiptView, i: VerificationInput, i': VerificationInput, k: nat)
    requires AlikeReceipts(r, r', k) && AlikeInputs(i, i', k) && k > 0
    ensures EvaluateVerification(Some(r), i) == EvaluateVerification(Some(r'), i')
  {
    InputAlike(r, r', i, i', k);
    OutputAlike(r, r', i, i', k);
  }

  // Tolerance

  /** Within so many basis points of the declared amount, on either side, both ends included. */
  ghost predicate Near(actual: nat, declared: nat, basisPoints: int) {
    && (actual - declared) * 10_000 <= declared * basisPoints
    && (declared - actual) * 10_000 <= declared * basisPoints
  }

  /** The whole number of basis points a tolerance in percent comes to, halves up. */
  ghost predicate IsNearest(basisPoints: int, tolerancePct: real) {
    basisPoints as real - 0.5 <= tolerancePct * 100.0 < basisPoints as real + 0.5
  }

  lemma ToleranceMeansBasisPoints(actual: nat, declared: nat, tolerancePct: real, basisPoints: int)
    requires IsNearest(basisPoints, tolerancePct)
    ensures WithinTolerance(actual, declared, tolerancePct) <==> Near(actual, declared, basisPoints)
  {
    assert Rounded(tolerancePct * 100.0) == basisPoints;
  }

  /** A tolerance of n percent is n hundredths of the declared amount, both ends included. */
  lemma ToleranceMeansPercent(actual: nat, declared: nat, percent: int)
    ensures WithinTolerance(actual, declared, percent as real) <==>
              && 100 * (actual - declared) <= declared * percent
              && 100 * (declared - actual) <= declared * percent
    ensures percent >= 0 ==> WithinTolerance(declared, declared, percent as real)
    ensures percent == 0 ==> (WithinTolerance(actual, declared, 0.0) <==> actual == declared)
  {
    assert Rounded(percent as real * 100.0) == 100 * percent;
    assert declared * (100 * percent) == 100 * (declared * percent);
  }

  lemma WiderToleranceAdmits(actual: nat, declared: nat, narrow: real, wide: real)
    requires narrow <= wide
    requires WithinTolerance(actual, declared, narrow)
    ensures WithinTolerance(actual, declared, wide)
  {
    var a, b := Rounded(narrow * 100.0), Rounded(wide * 100.0);
    assert a <= b;
    assert declared * (b - a) >= 0;
  }

  lemma LegKeepsMatching(r: ReceiptView, token: Option<string>, declared: Option<nat>, narrow: real, wide: real,
                         side: Side)
    requires narrow <= wide
    requires DeclaredLegJudgement(r, token, declared, narrow, side).Matches?
    ensures DeclaredLegJudgement(r, token, declared, wide, side).Matches?
  {
    if token.Some? && declared.Some? {
      var transfers := TransfersOf(r, token.value);
      if SomeTransferMatches(transfers, declared.value, narrow) {
        var t :| t in transfers && WithinTolerance(t.amount, declared.value, narrow);
        WiderToleranceAdmits(t.amount, declared.value, narrow, wide);
      } else {
        var t :| t in transfers
                 && WithinTolerance(TotalMoved(transfers, side, PartyOf(t, side)), declared.value, narrow);
        WiderToleranceAdmits(TotalMoved(transfers, side, PartyOf(t, side)), declared.value, narrow, wide);
      }
    }
  }

  /** Raising the amount tolerance never takes a full verification back. */
  lemma WiderToleranceKeepsVerified(r: ReceiptView, input: VerificationInput, wide: real)
    requires input.amountTolerancePct <= wide
    requires EvaluateVerification(Some(r), input).VerifiedFull?
    ensures EvaluateVerification(Some(r), input.(amountTolerancePct := wide)) == EvaluateVerification(Some(r), input)
  {
    var narrow := input.amountTolerancePct;
    if IsNativeToken(input.tokenInAddress) {
      if input.executedIn.Some? && r.transactionValue.Some? {
        WiderToleranceAdmits(r.transactionValue.value, input.executedIn.value, narrow, wide);
      }
    } else {
      LegKeepsMatching(r, input.tokenInAddress, input.executedIn, narrow, wide, FromSide);
    }
    if !IsNativeToken(input.tokenOutAddress) {
      LegKeepsMatching(r, input.tokenOutAddress, input.executedOut, narrow, wide, ToSide);
    }
  }

  /** An amount strike on a declared token rests on transfers that were read: none of them, and no
      party's total, comes near what was declared. */
  lemma LegMismatchIsProven(r: ReceiptView, token: Option<string>, declared: Option<nat>, tolerancePct: real,
                            side: Side)
    ensures DeclaredLegJudgement(r, token, declared, tolerancePct, side).Mismatch? <==>
            && token.Some? && declared.Some? && !ReaderCouldNotReadTransfers(r)
            && forall t | t in TransfersOf(r, token.value) ::
                 && !WithinTolerance(t.amount, declared.value, tolerancePct)
                 && !WithinTolerance(TotalMoved(TransfersOf(r, token.value), side, PartyOf(t, side)), declared.value,
                                     tolerancePct)
  {
  }

  /** What a receipt must show for one declared leg: a transfer of that token near the declared amount, or a
      party on the leg's side that moved near it in all. */
  ghost predicate LegIsShown(r: ReceiptView, token: Option<string>, declared: Option<nat>, tolerancePct: real,
                             side: Side)
  {
    token.Some? && declared.Some? ==>
      && !ReaderCouldNotReadTransfers(r)
      && exists i | 0 <= i < |r.erc20Transfers| && SameAddress(r.erc20Transfers[i].token, token.value) ::
           || WithinTolerance(r.erc20Transfers[i].amount, declared.value, tolerancePct)
           || WithinTolerance(TotalMoved(TransfersOf(r, token.value), side, PartyOf(r.erc20Transfers[i], side)),
                              declared.value, tolerancePct)
  }

  lemma LegMatchesWhenShown(r: ReceiptView, token: Option<string>, declared: Option<nat>, tolerancePct: real,
                            side: Side)
    ensures DeclaredLegJudgement(r, token, declared, tolerancePct, side).Matches? <==>
        LegIsShown(r, token, declared, tolerancePct, side)
  {
    if token.Some? && declared.Some? {
      var p := (t: Transfer) => SameAddress(t.token, token.value);
      forall t: Transfer
        ensures t in TransfersOf(r, token.value) <==> t in r.erc20Transfers && SameAddress(t.token, token.value)
      {
        FilterElements(p, r.erc20Transfers, t);
      }
    }
  }

  /** A full verification is exactly an unreverted receipt, in time, that shows both declared legs: what was paid
      on the sending side, what was received on the receiving side. */
  lemma FullVerificationIsShown(r: ReceiptView, input: VerificationInput)
    ensures EvaluateVerification(Some(r), input).VerifiedFull? <==>
            && input.tier.Full? && !r.reverted && !BlockTimeOutsideTolerance(r, input)
            && (if IsNativeToken(input.tokenInAddress)
                then !NativeInputMismatch(r, input.executedIn, input.amountTolerancePct)
                else LegIsShown(r, input.tokenInAddress, input.executedIn, input.amountTolerancePct, FromSide))
            && (IsNativeToken(input.tokenOutAddress)
                || LegIsShown(r, input.tokenOutAddress, input.executedOut, input.amountTolerancePct, ToSide))
  {
    LegMatchesWhenShown(r, input.tokenInAddress, input.executedIn, input.amountTolerancePct, FromSide);
    LegMatchesWhenShown(r, input.tokenOutAddress, input.executedOut, input.amountTolerancePct, ToSide);
  }

  // In plain fields

  /** The native coin: forty zeros, or forty times the letter e in either case. */
  ghost predicate IsNativeAddress(address: string) {
    && |address| == 42 && address[0] == '0' && (address[1] == 'x' || address[1] == 'X')
    && (|| (forall i | 2 <= i < 42 :: address[i] == '0')
        || (forall i | 2 <= i < 42 :: address[i] == 'e' || address[i] == 'E'))
  }

  lemma NativeAddresses(address: string)
    ensures IsNativeToken(Some(address)) <==> IsNativeAddress(address)
  {
    NativeText(address, '0');
    NativeText(address, 'e');
  }

  lemma NativeText(address: string, c: char)
    requires c == '0' || c == 'e'
    ensures ToLower(address) == "0x" + Repeat(c, 40) <==>
              && |address| == 42 && address[0] == '0' && (address[1] == 'x' || address[1] == 'X')
              && forall i | 2 <= i < 42 :: SameLetter(address[i], c)
  {
    var text := "0x" + Repeat(c, 40);
    assert forall i | 2 <= i < 42 :: text[i] == c;
    assert ToLower(text) == text;
    SameLowerCase(address, text);
  }

  /** All that one party sent, or received, of one token, whatever the case of the addresses. */
  ghost function MovedBy(transfers: seq<Transfer>, token: string, sent: bool, party: string): nat {
    if transfers == [] then 0
    else
      var last := transfers[|transfers| - 1];
      MovedBy(transfers[..|transfers| - 1], token, sent, party)
      + if ToLower(last.token) == ToLower(token) && ToLower(if sent then last.from else last.to) == ToLower(party)
        then last.amount else 0
  }

  lemma OneTransfer(p: Transfer -> bool, front: seq<Transfer>, last: Transfer)
    ensures Filter(p, front + [last]) == if p(last) then Filter(p, front) + [last] else Filter(p, front)
  {
    FilterAppend(p, front, [last]);
    assert [last][1..] == [] && Filter(p, [last]) == if p(last) then [last] else [];
  }

  lemma {:induction false} TotalIsMovedBy(transfers: seq<Transfer>, token: string, side: Side, party: string)
    ensures TotalMoved(Filter((t: Transfer) => SameAddress(t.token, token), transfers), side, ToLower(party))
            == MovedBy(transfers, token, side.FromSide?, party)
  {
    hide Filter, ToLower, TotalMoved, MovedBy, AmountBy;
    var p := (t: Transfer) => SameAddress(t.token, token);
    if transfers == [] {
      NoTransfers(p, token, side, party);
    } else {
      var front, last := transfers[..|transfers| - 1], transfers[|transfers| - 1];
      TotalIsMovedBy(front, token, side, party);
      assert transfers == front + [last];
      OneTransfer(p, front, last);
      TotalOfAppend(Filter(p, front), last, side, ToLower(party));
      OneMoreMoved(front, last, token, side, party);
    }
  }

  lemma OneMoreMoved(front: seq<Transfer>, last: Transfer, token: string, side: Side, party: string)
    ensures MovedBy(front + [last], token, side.FromSide?, party)
            == MovedBy(front, token, side.FromSide?, party)
               + if SameAddress(last.token, token) then AmountBy(last, side, ToLower(party)) else 0
  {
    hide ToLower;
    assert (front + [last])[..|front|] == front;
  }

  lemma NoTransfers(p: Transfer -> bool, token: string, side: Side, party: string)
    ensures TotalMoved(Filter(p, []), side, ToLower(party)) == MovedBy([], token, side.FromSide?, party)
  {
  }

  /** A transfer of the token is near the declared amount, or all that its sender sent, or its receiver received. */
  ghost predicate TransferIsNear(r: ReceiptView, t: Transfer, token: string, sent: bool, declared: nat,
                                 basisPoints: int)
  {
    && ToLower(t.token) == ToLower(token)
    && (|| Near(t.amount, declared, basisPoints)
        || Near(MovedBy(r.erc20Transfers, token, sent, if sent then t.from else t.to), declared, basisPoints))
  }

  /** What the judgement of a declared leg comes to. */
  lemma LegJudgementMeaning(r: ReceiptView, token: string, declared: nat, tolerancePct: real, side: Side,
                            basisPoints: int)
    requires IsNearest(basisPoints, tolerancePct)
    ensures var judgement := DeclaredLegJudgement(r, Some(token), Some(declared), tolerancePct, side);
            var near := exists t | t in r.erc20Transfers ::
              TransferIsNear(r, t, token, side.FromSide?, declared, basisPoints);
            && (judgement.Matches? <==> near)
            && (judgement.Mismatch? <==> !near && (r.erc20Transfers != [] || r.logCount == Some(0)))
  {
    var transfers, p := TransfersOf(r, token), (t: Transfer) => SameAddress(t.token, token);
    forall t: Transfer
      ensures t in transfers <==> t in r.erc20Transfers && SameAddress(t.token, token)
      ensures WithinTolerance(t.amount, declared, tolerancePct) <==> Near(t.amount, declared, basisPoints)
      ensures var party := if side.FromSide? then t.from else t.to;
              var total := MovedBy(r.erc20Transfers, token, side.FromSide?, party);
              && TotalMoved(transfers, side, PartyOf(t, side)) == total
              && (WithinTolerance(total, declared, tolerancePct) <==> Near(total, declared, basisPoints))
    {
      FilterElements(p, r.erc20Transfers, t);
      ToleranceMeansBasisPoints(t.amount, declared, tolerancePct, basisPoints);
      var party := if side.FromSide? then t.from else t.to;
      TotalIsMovedBy(r.erc20Transfers, token, side, party);
      ToleranceMeansBasisPoints(MovedBy(r.erc20Transfers, token, side.FromSide?, party), declared, tolerancePct,
                                basisPoints);
    }
  }
}
