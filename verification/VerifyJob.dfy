/** What one claimed verification job comes to (apps/server/src/worker/verify-job.ts). */
module VerifyJob {
  import opened Wrappers
  import opened Backoff
  import opened DigitText
  import opened Chains
  import opened Receipt

  datatype Kind = Swap | Bridge | Lend | Prediction | Wrap | Yield | Launch | Claim

  datatype ClaimedJob = ClaimedJob(attempts: nat, firstAttemptMs: int, txHash: Option<string>, kind: Kind,
                                   clientConfirmedAtMs: Option<int>, executedIn: Option<nat>, executedOut: Option<nat>,
                                   tokenInAddress: Option<string>, tokenOutAddress: Option<string>)

  datatype Config = Config(unknownChainBackoffMin: string, backoffSchedule: seq<string>, maxAgeDays: int,
                           timeToleranceMin: int, amountTolerancePct: real)

  /** What the chain reader answers when asked for the receipt. */
  datatype ReceiptRead = ReceiptFound(receipt: ReceiptView) | ReceiptNotFound | ReadError(message: string)

  datatype MissingReceiptCorroboration = Missing | Found | Unknown

  /** A reader may lack the second opinion, or fail to give it. */
  datatype CorroborationReply = NotOffered | Threw | Answered(corroboration: MissingReceiptCorroboration)

  /** The answers the outside world gives to one visit: whether the registry knows the chain and at which tier,
      the receipt, the second opinion on a missing receipt, and the time. */
  datatype World = World(chainTier: Option<Tier>, read: ReceiptRead, corroboration: CorroborationReply, nowMs: int)

  datatype CloseReason =
    | NoTxHash
    | ChainNotInRegistry
    | NoTransfersDecoded
    | MissingReceiptNotCorroborated
    | MissingReceiptSeenElsewhere
    | VerificationWindowExhausted

  datatype JobOutcome =
    | Reschedule(delayMs: nat, lastError: string)
    | CloseUnverifiable(closeReason: CloseReason)
    | Finalize(verdict: TerminalVerdict)

  function ResolveVerificationTier(kind: Kind, chainTier: Tier): Tier {
    if kind.Wrap? || kind.Launch? then Tier.Basic else chainTier
  }

  function VerificationInputFrom(job: ClaimedJob, chainTier: Tier, config: Config): VerificationInput {
    VerificationInput(job.clientConfirmedAtMs, job.executedIn, job.executedOut, job.tokenInAddress, job.tokenOutAddress,
                      ResolveVerificationTier(job.kind, chainTier), config.timeToleranceMin, config.amountTolerancePct)
  }

  function VerdictFrom(read: ReceiptRead, job: ClaimedJob, chainTier: Tier, config: Config): Verdict {
    match read
    case ReadError(message) => Retry(message)
    case ReceiptFound(receipt) => EvaluateVerification(Some(receipt), VerificationInputFrom(job, chainTier, config))
    case ReceiptNotFound => EvaluateVerification(None, VerificationInputFrom(job, chainTier, config))
  }

  function CorroborateMissing(reply: CorroborationReply): MissingReceiptCorroboration {
    match reply
    case Answered(corroboration) => corroboration
    case _ => Unknown
  }

  function ResolveUnknownChain(job: ClaimedJob, config: Config, nowMs: int): Result<JobOutcome, Failure> {
    var step :- NextBackoff(job.attempts, [config.unknownChainBackoffMin + "m"], job.firstAttemptMs,
                            config.maxAgeDays, nowMs);
    match step
    case Delay(delayMs) => Ok(Reschedule(delayMs, "chain_not_in_registry"))
    case GiveUp => Ok(CloseUnverifiable(ChainNotInRegistry))
  }

  function ResolveUnsettled(job: ClaimedJob, config: Config, world: World, verdict: Verdict)
    : Result<JobOutcome, Failure>
    requires verdict.Retry? || verdict.Unverifiable?
  {
    var step :- NextBackoff(job.attempts, config.backoffSchedule, job.firstAttemptMs, config.maxAgeDays, world.nowMs);
    Ok(if step.Delay? then
      Reschedule(step.delayMs, if verdict.Unverifiable? then "no_transfers_decoded" else verdict.message)
    else if verdict.Unverifiable? then
      CloseUnverifiable(NoTransfersDecoded)
    else if world.read.ReceiptNotFound? then
      match CorroborateMissing(world.corroboration)
      case Found => CloseUnverifiable(MissingReceiptSeenElsewhere)
      case Unknown => CloseUnverifiable(MissingReceiptNotCorroborated)
      case Missing => Finalize(Strike(TxNotFound))
    else
      CloseUnverifiable(VerificationWindowExhausted))
  }

  function ResolveJobOutcome(job: ClaimedJob, config: Config, world: World): Result<JobOutcome, Failure> {
    if world.chainTier.None? then ResolveUnknownChain(job, config, world.nowMs)
    else if job.txHash.None? then Ok(CloseUnverifiable(NoTxHash))
    else
      var verdict := VerdictFrom(world.read, job, world.chainTier.value, config);
      if !verdict.Retry? && !verdict.Unverifiable? then Ok(Finalize(verdict))
      else ResolveUnsettled(job, config, world, verdict)
  }

  // What a job and a receipt say of each other, in their own fields

  /** The block is no further from the client's moment than the tolerance, when the client named one. */
  ghost predicate InTime(job: ClaimedJob, config: Config, r: ReceiptView) {
    job.clientConfirmedAtMs.Some? ==>
      && r.blockTimestampMs - job.clientConfirmedAtMs.value <= config.timeToleranceMin * 60_000
      && job.clientConfirmedAtMs.value - r.blockTimestampMs <= config.timeToleranceMin * 60_000
  }

  ghost predicate SomeTransferIsNear(r: ReceiptView, token: string, sent: bool, declared: nat, basisPoints: int) {
    exists t | t in r.erc20Transfers :: TransferIsNear(r, t, token, sent, declared, basisPoints)
  }

  /** The receipt shows what the job says was spent: the value of the transaction for the native coin, when it is
      known, and a transfer on the sending side for any other token. */
  ghost predicate SpentIsShown(job: ClaimedJob, r: ReceiptView, basisPoints: int) {
    job.tokenInAddress.Some? && job.executedIn.Some? ==>
      if IsNativeAddress(job.tokenInAddress.value)
      then r.transactionValue.Some? ==> Near(r.transactionValue.value, job.executedIn.value, basisPoints)
      else SomeTransferIsNear(r, job.tokenInAddress.value, true, job.executedIn.value, basisPoints)
  }

  /** And what it says was received, on the receiving side; the native coin leaves no transfer to look for. */
  ghost predicate ReceivedIsShown(job: ClaimedJob, r: ReceiptView, basisPoints: int) {
    job.tokenOutAddress.Some? && job.executedOut.Some? && !IsNativeAddress(job.tokenOutAddress.value) ==>
      SomeTransferIsNear(r, job.tokenOutAddress.value, false, job.executedOut.value, basisPoints)
  }

  /** The transfers could be read: there are some, or there was nothing to read. */
  ghost predicate TransfersWereRead(r: ReceiptView) {
    r.erc20Transfers != [] || r.logCount == Some(0)
  }

  ghost predicate SpentIsRefuted(job: ClaimedJob, r: ReceiptView, basisPoints: int) {
    && !SpentIsShown(job, r, basisPoints)
    && (IsNativeAddress(job.tokenInAddress.value) || TransfersWereRead(r))
  }

  ghost predicate ReceivedIsRefuted(job: ClaimedJob, r: ReceiptView, basisPoints: int) {
    !ReceivedIsShown(job, r, basisPoints) && TransfersWereRead(r)
  }

  /** The amounts of this job are judged: its chain allows it and its kind is no wrap and no launch. */
  ghost predicate AmountsCount(job: ClaimedJob, world: World) {
    world.chainTier == Some(Tier.Full) && !job.kind.Wrap? && !job.kind.Launch?
  }

  /** A receipt of a successful transaction was read for a job that names one. */
  ghost predicate ReceiptCounts(job: ClaimedJob, config: Config, world: World) {
    && world.chainTier.Some? && job.txHash.Some? && world.read.ReceiptFound?
    && !world.read.receipt.reverted && InTime(job, config, world.read.receipt)
  }

  lemma JudgementsMeaning(job: ClaimedJob, config: Config, world: World, basisPoints: int)
    requires ReceiptCounts(job, config, world) && IsNearest(basisPoints, config.amountTolerancePct)
    ensures var r, input := world.read.receipt, VerificationInputFrom(job, world.chainTier.value, config);
            && (DeclaredInputJudgement(r, input).Matches? <==> SpentIsShown(job, r, basisPoints))
            && (DeclaredInputJudgement(r, input).Mismatch? <==> SpentIsRefuted(job, r, basisPoints))
            && (DeclaredOutputJudgement(r, input).Matches? <==> ReceivedIsShown(job, r, basisPoints))
            && (DeclaredOutputJudgement(r, input).Mismatch? <==> ReceivedIsRefuted(job, r, basisPoints))
  {
    hide TransferIsNear, DeclaredLegJudgement, WithinTolerance, Near, IsNativeAddress, IsNativeToken;
    SpentJudgement(job, config, world, basisPoints);
    ReceivedJudgement(job, config, world, basisPoints);
  }

  lemma SpentJudgement(job: ClaimedJob, config: Config, world: World, basisPoints: int)
    requires ReceiptCounts(job, config, world) && IsNearest(basisPoints, config.amountTolerancePct)
    ensures var r, input := world.read.receipt, VerificationInputFrom(job, world.chainTier.value, config);
            && (DeclaredInputJudgement(r, input).Matches? <==> SpentIsShown(job, r, basisPoints))
            && (DeclaredInputJudgement(r, input).Mismatch? <==> SpentIsRefuted(job, r, basisPoints))
  {
    hide TransferIsNear, WithinTolerance, Near, IsNativeAddress;
    var r := world.read.receipt;
    if job.tokenInAddress.Some? {
      NativeAddresses(job.tokenInAddress.value);
      if job.executedIn.Some? {
        LegJudgementMeaning(r, job.tokenInAddress.value, job.executedIn.value, config.amountTolerancePct, FromSide,
                            basisPoints);
        if r.transactionValue.Some? {
          ToleranceMeansBasisPoints(r.transactionValue.value, job.executedIn.value, config.amountTolerancePct,
                                    basisPoints);
        }
      }
    }
  }

  lemma ReceivedJudgement(job: ClaimedJob, config: Config, world: World, basisPoints: int)
    requires ReceiptCounts(job, config, world) && IsNearest(basisPoints, config.amountTolerancePct)
    ensures var r, input := world.read.receipt, VerificationInputFrom(job, world.chainTier.value, config);
            && (DeclaredOutputJudgement(r, input).Matches? <==> ReceivedIsShown(job, r, basisPoints))
            && (DeclaredOutputJudgement(r, input).Mismatch? <==> ReceivedIsRefuted(job, r, basisPoints))
  {
    hide TransferIsNear, WithinTolerance, Near, IsNativeAddress;
    if job.tokenOutAddress.Some? {
      NativeAddresses(job.tokenOutAddress.value);
      if job.executedOut.Some? {
        LegJudgementMeaning(world.read.receipt, job.tokenOutAddress.value, job.executedOut.value,
                            config.amountTolerancePct, ToSide, basisPoints);
      }
    }
  }

  /** An activity is verified in full exactly when its amounts count and a receipt that counts shows both what was
      spent and what was received, and with the time of that block. */
  lemma FullVerificationExactlyWhen(job: ClaimedJob, config: Config, world: World, basisPoints: int, blockMs: int)
    requires IsNearest(basisPoints, config.amountTolerancePct)
    ensures ResolveJobOutcome(job, config, world) == Ok(Finalize(VerifiedFull(blockMs))) <==>
              && ReceiptCounts(job, config, world) && AmountsCount(job, world)
              && SpentIsShown(job, world.read.receipt, basisPoints)
              && ReceivedIsShown(job, world.read.receipt, basisPoints)
              && blockMs == world.read.receipt.blockTimestampMs
  {
    hide SpentIsShown, ReceivedIsShown, DeclaredInputJudgement, DeclaredOutputJudgement;
    if ReceiptCounts(job, config, world) {
      JudgementsMeaning(job, config, world, basisPoints);
    }
  }

  /** And basically exactly when a receipt counts and its amounts do not. */
  lemma BasicVerificationExactlyWhen(job: ClaimedJob, config: Config, world: World, blockMs: int)
    ensures ResolveJobOutcome(job, config, world) == Ok(Finalize(VerifiedBasic(blockMs))) <==>
              && ReceiptCounts(job, config, world) && !AmountsCount(job, world)
              && blockMs == world.read.receipt.blockTimestampMs
  {
    hide DeclaredInputJudgement, DeclaredOutputJudgement;
  }

  // Never guess

  /** The receipt was read and by itself shows the fault. */
  ghost predicate ProvenByReceipt(job: ClaimedJob, config: Config, world: World, basisPoints: int,
                                  reason: StrikeReason) {
    && world.chainTier.Some? && job.txHash.Some? && world.read.ReceiptFound?
    && var r := world.read.receipt;
       match reason
       case TxReverted => r.reverted
       case TimeMismatch => !r.reverted && !InTime(job, config, r)
       case AmountMismatch =>
         && !r.reverted && InTime(job, config, r) && AmountsCount(job, world)
         && (SpentIsRefuted(job, r, basisPoints) || ReceivedIsRefuted(job, r, basisPoints))
       case TxNotFound => false
  }

  /** The reader looked and found nothing, the job's time is over, and a second opinion says the same. */
  ghost predicate ProvenMissing(job: ClaimedJob, config: Config, world: World) {
    && world.chainTier.Some? && job.txHash.Some? && world.read.ReceiptNotFound?
    && world.nowMs - job.firstAttemptMs > config.maxAgeDays * 86_400_000
    && world.corroboration == Answered(Missing)
  }

  /** An agent is struck for exactly these two kinds of proof; a reader that fails proves nothing. */
  lemma StrikesAreProven(job: ClaimedJob, config: Config, world: World, basisPoints: int, reason: StrikeReason)
    requires IsNearest(basisPoints, config.amountTolerancePct)
    ensures ResolveJobOutcome(job, config, world) == Ok(Finalize(Strike(reason))) <==>
            || ProvenByReceipt(job, config, world, basisPoints, reason)
            || (reason == TxNotFound && ProvenMissing(job, config, world))
    ensures world.read.ReadError? ==> ResolveJobOutcome(job, config, world) != Ok(Finalize(Strike(reason)))
  {
    hide SpentIsRefuted, ReceivedIsRefuted, DeclaredInputJudgement, DeclaredOutputJudgement;
    if ReceiptCounts(job, config, world) {
      JudgementsMeaning(job, config, world, basisPoints);
    }
  }

  /** Only a found receipt that the evaluation accepts verifies an activity. */
  lemma SuccessIsReadFromTheReceipt(job: ClaimedJob, config: Config, world: World, verdict: TerminalVerdict)
    requires ResolveJobOutcome(job, config, world) == Ok(Finalize(verdict))
    requires !verdict.Strike?
    ensures world.read.ReceiptFound? && !world.read.receipt.reverted
    ensures verdict.blockTimestampMs == world.read.receipt.blockTimestampMs
    ensures verdict.VerifiedFull? ==> world.chainTier == Some(Tier.Full) && !job.kind.Wrap? && !job.kind.Launch?
  {
  }

  // Always finish

  ghost predicate PositiveConfig(config: Config) {
    PositiveSchedule(config.backoffSchedule) && PositiveInterval(config.unknownChainBackoffMin + "m")
  }

  /** Past the maximum age no visit puts the job back, whatever the reader does and however the schedules are
      written; before it, a job is only ever put back by at least a second. */
  lemma ExpiredJobFinishes(job: ClaimedJob, config: Config, world: World)
    ensures world.nowMs - job.firstAttemptMs > config.maxAgeDays * DAY_MS ==>
              ResolveJobOutcome(job, config, world).Ok? && !ResolveJobOutcome(job, config, world).value.Reschedule?
    ensures PositiveConfig(config) ==>
              && ResolveJobOutcome(job, config, world).Ok?
              && (ResolveJobOutcome(job, config, world).value.Reschedule? ==>
                    && world.nowMs - job.firstAttemptMs <= config.maxAgeDays * DAY_MS
                    && ResolveJobOutcome(job, config, world).value.delayMs >= SECOND_MS)
  {
    var unknownChain := [config.unknownChainBackoffMin + "m"];
    BackoffAlwaysAnswers(job.attempts, unknownChain, job.firstAttemptMs, config.maxAgeDays, world.nowMs);
    BackoffAlwaysAnswers(job.attempts, config.backoffSchedule, job.firstAttemptMs, config.maxAgeDays, world.nowMs);
    assert PositiveConfig(config) ==> PositiveSchedule(unknownChain);
  }

  /** What each closing reason says of the world. All but the missing hash need the job's time to be over. */
  ghost predicate Deserves(job: ClaimedJob, config: Config, world: World, basisPoints: int, reason: CloseReason) {
    var expired := world.nowMs - job.firstAttemptMs > config.maxAgeDays * 86_400_000;
    var readable := world.chainTier.Some? && job.txHash.Some?;
    match reason
    case NoTxHash => world.chainTier.Some? && job.txHash.None?
    case ChainNotInRegistry => world.chainTier.None? && expired
    case NoTransfersDecoded =>
      && expired && ReceiptCounts(job, config, world) && AmountsCount(job, world)
      && !SpentIsRefuted(job, world.read.receipt, basisPoints)
      && !ReceivedIsRefuted(job, world.read.receipt, basisPoints)
      && !(SpentIsShown(job, world.read.receipt, basisPoints) && ReceivedIsShown(job, world.read.receipt, basisPoints))
    case MissingReceiptSeenElsewhere => readable && expired && world.read.ReceiptNotFound?
        && world.corroboration == Answered(Found)
    case MissingReceiptNotCorroborated =>
      && readable && expired && world.read.ReceiptNotFound?
      && world.corroboration != Answered(Found) && world.corroboration != Answered(Missing)
    case VerificationWindowExhausted => readable && expired && world.read.ReadError?
  }

  /** A job is closed for a reason exactly when the reason holds, so no two of them ever do. */
  lemma ClosesAreDeserved(job: ClaimedJob, config: Config, world: World, basisPoints: int, reason: CloseReason)
    requires IsNearest(basisPoints, config.amountTolerancePct)
    ensures ResolveJobOutcome(job, config, world) == Ok(CloseUnverifiable(reason)) <==>
            Deserves(job, config, world, basisPoints, reason)
  {
    hide SpentIsRefuted, ReceivedIsRefuted, SpentIsShown, ReceivedIsShown, DeclaredInputJudgement,
      DeclaredOutputJudgement;
    if ReceiptCounts(job, config, world) {
      JudgementsMeaning(job, config, world, basisPoints);
    }
    if world.chainTier.Some? && job.txHash.Some? {
      BackoffAlwaysAnswers(job.attempts, config.backoffSchedule, job.firstAttemptMs, config.maxAgeDays, world.nowMs);
    } else {
      var unknownChain := [config.unknownChainBackoffMin + "m"];
      BackoffAlwaysAnswers(job.attempts, unknownChain, job.firstAttemptMs, config.maxAgeDays, world.nowMs);
    }
  }

  /** A job that is put back waits for what the schedule says of its attempts so far; where the chain is not known, for
      so many minutes each time. */
  lemma RetriesFollowTheSchedule(job: ClaimedJob, config: Config, world: World, delayMs: nat, lastError: string)
    requires ResolveJobOutcome(job, config, world) == Ok(Reschedule(delayMs, lastError))
    ensures world.nowMs - job.firstAttemptMs <= config.maxAgeDays * 86_400_000
    ensures world.chainTier.Some? ==>
              job.txHash.Some? && BackoffDelayMs(job.attempts, config.backoffSchedule) == Ok(delayMs)
    ensures forall minutes: nat | world.chainTier.None? && config.unknownChainBackoffMin == TextOf(minutes) ::
              delayMs == minutes * 60_000
    ensures world.chainTier.None? ==> lastError == "chain_not_in_registry"
    ensures world.chainTier.Some? && world.read.ReadError? ==> lastError == world.read.message
    ensures world.chainTier.Some? && world.read.ReceiptNotFound? ==> lastError == "receipt_not_found"
    ensures world.chainTier.Some? && world.read.ReceiptFound? ==> lastError == "no_transfers_decoded"
  {
    hide TextOf, EvaluateVerification;
    if world.chainTier.None? {
      forall minutes: nat | config.unknownChainBackoffMin == TextOf(minutes)
        ensures delayMs == minutes * 60_000
      {
        IntervalIsCountOfUnits(minutes);
      }
    } else {
      hide BackoffDelayMs;
      ReadsComeTo(world.read, job, world.chainTier.value, config);
    }
  }

  lemma ReadsComeTo(read: ReceiptRead, job: ClaimedJob, chainTier: Tier, config: Config)
    ensures read.ReadError? ==> VerdictFrom(read, job, chainTier, config) == Retry(read.message)
    ensures read.ReceiptNotFound? ==> VerdictFrom(read, job, chainTier, config) == Retry("receipt_not_found")
    ensures read.ReceiptFound? ==> !VerdictFrom(read, job, chainTier, config).Retry?
  {
  }
}
