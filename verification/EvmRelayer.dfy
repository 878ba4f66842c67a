/**
 * The EVM (qETH/qUSDC) side of the bridge relayer. Every dependency may give any answer or throw: the
 * environment is a family of answers indexed by the number of calls made so far, and `None` is a throw.
 * At every call other steps of the same process, over other withdrawals, may come in between.
 */
module EvmRelayer {
  import opened Common
  import opened EvmTrace
  import opened Landing

  datatype Env = Env(
    processed: nat -> Option<bool>,
    release: nat -> Option<Hash>,
    nonce: nat -> bool,
    awaitReceipt: nat -> Option<Receipt>,
    receipt: nat -> Option<Option<Receipt>>,
    head: nat -> Option<nat>,
    timelock: nat -> Option<Timelock>,
    hashes: nat -> Option<seq<Hash>>,
    requestIds: nat -> Option<seq<nat>>,
    queuedAfter: nat -> Option<Option<nat>>,
    cancelled: nat -> Option<bool>,
    fulfil: nat -> Option<bool>,
    report: nat -> Option<bool>,
    refund: nat -> Option<bool>,
    saves: nat -> bool,
    others: nat -> seq<Event>)

  datatype Route = ToXrge | ToEth | ToUsdc | ToBtc | Unsupported

  /** Case-insensitive on the protocol assets; `symbol` is trimmed and in lower case. */
  function PayoutRoute(symbol: string): Route {
    if symbol == "xrge" then ToXrge
    else if symbol == "qeth" then ToEth
    else if symbol == "qusdc" then ToUsdc
    else if symbol == "qbtc" then ToBtc
    else Unsupported
  }

  /** `recipient` is `None` when the address is not valid. */
  datatype Withdrawal = Withdrawal(tx: TxId, recipient: Option<Address>, units: int, symbol: string)

  const MAX_SAFE_INTEGER: int := 0x1f_ffff_ffff_ffff
  const WEI_PER_UNIT: nat := 1_000_000_000_000

  function OwedAmount(asset: Asset, units: nat): nat {
    if asset == Eth then units * WEI_PER_UNIT else units
  }

  predicate Payable(w: Withdrawal) {
    w.recipient.Some? && 0 < w.units <= MAX_SAFE_INTEGER && PayoutRoute(w.symbol) in {ToEth, ToUsdc}
  }

  function Expected(cfg: Config, w: Withdrawal): Release
    requires Payable(w)
  {
    var asset := if PayoutRoute(w.symbol) == ToEth then Eth else Usdc;
    Release(asset, w.recipient.value, OwedAmount(asset, w.units), cfg.idOf(w.tx))
  }

  datatype Outcome =
    | AwaitingConfirmations | Observed | Fulfilled | NowQueued | ReconciledPaid | ReconciledQueued
    | CancelledRefundCandidate | NowAmbiguous | SkippedUnsupported | SkippedInvalid | SkippedNoBridge
    | SkippedQueued | SkippedRpc | FulfilRejected | Failed | Refunded | Threw

  // ---------------------------------------------------------------- pure decisions

  datatype Class = IsPaid | IsQueued | IsCancelled | IsAmbiguous

  /** `classifyProcessed`. */
  function ClassifyProcessed(cfg: Config, verified: bool, record: Option<Timelock>, exp: Release,
                             executeAfter: int): Class {
    if verified then IsPaid
    else if record.Some? && Binds(cfg, record.value, exp, executeAfter) then
      if record.value.executed then IsAmbiguous
      else if record.value.cancelled then IsCancelled
      else IsQueued
    else IsAmbiguous
  }

  datatype RefundDecision = NormalAnalysis | Forbidden | AfterCancellationProof

  function DecideRefund(processed: bool, cls: Option<Class>): RefundDecision {
    if !processed then NormalAnalysis
    else if cls == Some(IsCancelled) then AfterCancellationProof
    else Forbidden
  }

  datatype CancelStep = Wait | Candidate | MakeAmbiguous

  /**
   * The end of a poll of one queued record: its state on chain, whether a cancellation event was found
   * (`None`: the scan failed) and the second read (`None`: it failed).
   */
  function DecideCancel(cfg: Config, onchain: Timelock, scan: Option<bool>, again: Option<Timelock>, exp: Release,
                        executeAfter: int): CancelStep {
    if !(onchain.cancelled || scan == Some(true)) || again.None? then Wait
    else if again.value.cancelled && !again.value.executed && Binds(cfg, again.value, exp, executeAfter) then Candidate
    else if scan == Some(true) && !again.value.cancelled then Wait
    else MakeAmbiguous
  }

  function StepOutcome(step: CancelStep): Outcome {
    match step
    case Wait => SkippedQueued
    case Candidate => CancelledRefundCandidate
    case MakeAmbiguous => NowAmbiguous
  }

  /**
   * A failed cancellation scan still changes the record exactly when the entry itself said cancelled and could be
   * read again.
   */
  lemma FailedCancelScan(cfg: Config, onchain: Timelock, again: Option<Timelock>, exp: Release, executeAfter: int)
    ensures DecideCancel(cfg, onchain, None, again, exp, executeAfter) != Wait <==> onchain.cancelled && again.Some?
  {
  }

  /**
   * So a failed scan does not always leave the record alone. One entry that reads as cancelled is enough: read again
   * as cancelled, the record becomes a refund candidate; read again as anything else, it becomes ambiguous.
   */
  lemma FailedCancelScanMayRecord(cfg: Config, exp: Release, executeAfter: nat)
    ensures exists onchain, again :: DecideCancel(cfg, onchain, None, again, exp, executeAfter) == Candidate
    ensures exists onchain, again :: DecideCancel(cfg, onchain, None, again, exp, executeAfter) == MakeAmbiguous
  {
    var token := if exp.asset == Eth then ZERO_ADDRESS else cfg.usdc;
    var entry := Timelock(token, exp.recipient, exp.amount, exp.id, executeAfter, false, true);
    assert DecideCancel(cfg, entry, None, Some(entry), exp, executeAfter) == Candidate;
    assert DecideCancel(cfg, entry, None, Some(entry.(cancelled := false)), exp, executeAfter) == MakeAmbiguous;
  }

  datatype Reconciled = Reconciled(cls: Class, paid: Option<Hash>, requestId: Option<nat>, executeAfter: Option<nat>,
                                   scanFailed: bool)

  /** What a reconciliation says is what the step read. */
  ghost predicate Sound(cfg: Config, st: Step, r: Reconciled) {
    && (r.cls == IsPaid ==> r.paid.Some? && PaidBy(cfg, st, r.paid.value))
    && (r.cls in {IsQueued, IsCancelled} ==>
          && r.requestId.Some? && r.executeAfter.Some?
          && Bound(cfg, st, r.requestId.value, r.executeAfter.value, r.cls == IsCancelled))
  }

  ghost predicate Bound(cfg: Config, st: Step, requestId: nat, executeAfter: nat, cancelled: bool) {
    exists p | p in st.timelocks ::
      p.0 == requestId && Binds(cfg, p.1, st.owed, executeAfter) && !p.1.executed && p.1.cancelled == cancelled
  }

  /** Only reads were added. */
  ghost predicate Gathers(a: Step, b: Step) {
    && b.(receipts := a.receipts, heads := a.heads, timelocks := a.timelocks, entry := a.entry,
          cancelScan := a.cancelScan) == a
    && b.cancelScan in {a.cancelScan, ReadAgain(a.cancelScan)}
    && a.receipts <= b.receipts && a.heads <= b.heads && a.timelocks <= b.timelocks
  }

  /** The same, and perhaps a scan failed. */
  ghost predicate Scans(a: Step, b: Step) {
    (a.scanFailed ==> b.scanFailed) && Gathers(a, b.(scanFailed := a.scanFailed))
  }

  /** Reads alone were added. */
  ghost predicate ReadsOnly(a: Trace, b: Trace) {
    a <= b && forall i | |a| <= i < |b| :: !IsEffect(b[i])
  }

  /** Nothing was released, reported as failed or refunded. */
  ghost predicate Harmless(a: Trace, b: Trace) {
    a <= b && forall i | |a| <= i < |b| :: !b[i].Submit? && !b[i].Report? && !b[i].Refund?
  }

  /** A record was written. */
  ghost predicate Records(a: Trace, b: Trace) {
    a <= b && exists i :: |a| <= i < |b| && b[i].Persist?
  }

  /** The trace of the same process grew. */
  ghost predicate Grows(a: Trace, b: Trace) {
    a <= b && forall i | |a| <= i < |b| :: !b[i].Restart?
  }

  lemma Chain(a: Trace, b: Trace, c: Trace)
    ensures Harmless(a, a) && ReadsOnly(a, a)
    ensures Harmless(a, b) && Harmless(b, c) ==> Harmless(a, c)
    ensures ReadsOnly(a, b) && ReadsOnly(b, c) ==> ReadsOnly(a, c)
    ensures ReadsOnly(a, b) ==> Harmless(a, b)
  {
  }

  /** What a step relies on: its own state, the record of its withdrawal, and whether that is marked. */
  datatype Share = Share(step: Option<Step>, record: Option<Record>, marked: bool)

  function RecordOf(cfg: Config, s: Seen, tx: TxId): Option<Record> {
    if cfg.idOf(tx) in s.queued then Some(s.queued[cfg.idOf(tx)]) else None
  }

  function ShareOf(cfg: Config, s: Seen, tx: TxId): Share {
    Share(if tx in s.steps then Some(s.steps[tx]) else None, RecordOf(cfg, s, tx), tx in s.processed)
  }

  /** The same record and mark. */
  ghost predicate SameMemory(cfg: Config, a: Seen, b: Seen, tx: TxId) {
    RecordOf(cfg, b, tx) == RecordOf(cfg, a, tx) && (tx in b.processed <==> tx in a.processed)
  }

  lemma OthersKeepShare(cfg: Config, s: Seen, e: Event, tx: TxId)
    requires InStep(cfg, s) && Allowed(cfg, s, e) && !Of(e, tx) && !e.Restart?
    ensures ShareOf(cfg, Next(s, e), tx) == ShareOf(cfg, s, tx)
  {
    hide Allowed, Next, Keyed, FlagsAgree, DropsAreMarked;
    OtherStepsKeepStep(s, e, tx);
    OtherStepsKeepRecord(cfg, s, e, tx);
  }

  /** What an outcome means for the record of the withdrawal and for its mark. */
  predicate MemoryAfter(out: Outcome, tx: TxId, exp: Release, r0: Option<Record>, m0: bool, r1: Option<Record>,
                        m1: bool) {
    match out
    case Fulfilled => r1 == r0 && m1
    case Refunded => r1 == r0 && m1
    case ReconciledPaid => r1.None? && m1
    case NowQueued => Recorded(tx, exp, Queued, r1) && m1 == m0
    case ReconciledQueued => Recorded(tx, exp, Queued, r1) && m1 == m0
    case CancelledRefundCandidate => Recorded(tx, exp, Cancelled, r1) && m1 == m0
    case NowAmbiguous => Recorded(tx, exp, Ambiguous, r1) && m1 == m0
    case _ => r1 == r0 && m1 == m0
  }

  predicate Recorded(tx: TxId, exp: Release, status: Status, r: Option<Record>) {
    r.Some? && r.value.tx == tx && r.value.release == exp && r.value.status == status
  }

  lemma StillPaid(cfg: Config, a: Step, b: Step, hash: Hash)
    requires PaidBy(cfg, a, hash) && a.receipts <= b.receipts && a.owed == b.owed
    ensures PaidBy(cfg, b, hash)
  {
    hide VerifyReleaseLogs;
  }

  /** A receipt that proves the release, deep enough under head `h`. */
  ghost predicate Proves(cfg: Config, exp: Release, r: Receipt, h: nat) {
    r.success && VerifyReleaseLogs(cfg, r.logs, exp) && r.block.Some? && Depth(h, r.block.value) >= RequiredDepth(cfg)
  }

  /** The head can be read and the daemon accepts. */
  ghost predicate Accepting(env: Env, h: nat) {
    forall t: nat :: env.head(t) == Some(h) && env.fulfil(t) == Some(true)
  }

  /** Nothing was released yet, and the release goes through. */
  ghost predicate Smooth(cfg: Config, env: Env, exp: Release, r: Receipt, h: nat) {
    && Proves(cfg, exp, r, h) && Accepting(env, h)
    && forall t: nat :: env.processed(t) == Some(false) && env.nonce(t) && env.release(t).Some?
        && env.awaitReceipt(t) == Some(r)
  }

  /** Every scan finds transactions, and every receipt read is `r`. */
  ghost predicate Findable(env: Env, r: Receipt) {
    forall t: nat :: env.hashes(t).Some? && env.hashes(t).value != [] && env.receipt(t) == Some(Some(r))
  }

  /** The bridge processed the id before, and the payment can be found. */
  ghost predicate PaidBefore(cfg: Config, env: Env, exp: Release, r: Receipt, h: nat) {
    Proves(cfg, exp, r, h) && Accepting(env, h) && Findable(env, r) && forall t: nat :: env.processed(t) == Some(true)
  }

  /** No release can be sent, the bridge says so whenever asked, and the daemon wants a refund. */
  ghost predicate Hopeless(env: Env) {
    forall t: nat :: env.processed(t) == Some(false) && env.release(t).None? && env.report(t) == Some(true)
        && env.refund(t) == Some(true)
  }

  /** Every receipt read names block `b`. */
  ghost predicate BlockRead(env: Env, b: nat) {
    forall t: nat :: env.receipt(t).Some? && env.receipt(t).value.Some? && env.receipt(t).value.value.block == Some(b)
  }

  function AfterOrSentinel(executeAfter: Option<nat>): int {
    if executeAfter.Some? then executeAfter.value else -1
  }

  /** A class is justified by the payment and the timelock entry it was drawn from. */
  lemma ClassIsSound(cfg: Config, st: Step, paid: Option<Hash>, requestId: Option<nat>, executeAfter: Option<nat>,
                     record: Option<Timelock>, scanFailed: bool)
    requires paid.Some? ==> PaidBy(cfg, st, paid.value)
    requires record.Some? ==> requestId.Some? && (requestId.value, record.value) in st.timelocks
    ensures var cls := ClassifyProcessed(cfg, paid.Some?, record, st.owed, AfterOrSentinel(executeAfter));
            Sound(cfg, st, Reconciled(cls, paid, requestId, executeAfter, scanFailed))
  {
    hide VerifyReleaseLogs, PaidBy;
    if record.Some? { assert (requestId.value, record.value).1 == record.value; }
  }

  class Relayer {
    const cfg: Config
    const env: Env
    const hasBridge: bool
    const autoRefund: bool
    const observeOnly: bool
    const maxRetries: int

    var clock: nat
    var queued: map<Id, Record>
    var processed: set<TxId>
    var queueFile: map<Id, Record>
    var processedFile: set<TxId>

    /** The withdrawal the step in hand is about. */
    var held: Option<TxId>

    /** Everything that happened so far, and what it established; `mine` is what the steps modelled here did. */
    var log: Trace
    var seen: Seen
    ghost var mine: Trace

    /** The very first start, with no files. Every later start is a `Restart` of the same trace. */
    constructor (cfg: Config, env: Env, hasBridge: bool, autoRefund: bool, observeOnly: bool, maxRetries: int)
      ensures Idle() && log == []
    {
      this.cfg, this.env, this.hasBridge := cfg, env, hasBridge;
      this.autoRefund, this.observeOnly, this.maxRetries := autoRefund, observeOnly, maxRetries;
      clock, queued, processed, queueFile, processedFile := 0, map[], {}, map[], {};
      held, log, seen, mine := None, [], Start(), [];
    }

    ghost predicate Traced()
      reads this
    {
      Accepts(cfg, log) && seen == Run(log)
    }

    ghost predicate Valid()
      reads this
    {
      && Traced() && seen.queued == queued && seen.processed == processed
      && seen.queueFile == queueFile && seen.processedFile == processedFile
    }

    ghost predicate Idle()
      reads this
    {
      Valid() && held.None?
    }

    /** In the midst of a step over `tx`. */
    ghost predicate At(tx: TxId)
      reads this
    {
      Valid() && held == Some(tx) && tx in seen.steps
    }

    /** At the end of one, which may be closed already. */
    ghost predicate Closing(tx: TxId)
      reads this
    {
      Valid() && held == Some(tx) && (tx in seen.steps && seen.steps[tx].ended == Repaid ==> tx in seen.processed)
    }

    method Emit(e: Event)
      requires Traced() && Allowed(cfg, seen, e)
      modifies this`log, this`seen, this`mine
      ensures Traced() && seen == Next(old(seen), e) && log == old(log) + [e] && mine == old(mine) + [e]
    {
      hide Allowed, Next, Run, Accepts;
      Append(cfg, log, e);
      log, seen, mine := log + [e], Next(seen, e), mine + [e];
    }

    /** At an await, other steps do what they may. None of them is about the withdrawal in hand. */
    method Others(t: nat)
      requires Valid()
      modifies this`queued, this`processed, this`queueFile, this`processedFile, this`log, this`seen
      ensures Valid() && Grows(old(log), log)
      ensures held.Some? ==> ShareOf(cfg, seen, held.value) == old(ShareOf(cfg, seen, held.value))
    {
      hide Allowed, Next, Run, Accepts;
      var es := env.others(t);
      for i := 0 to |es|
        invariant Valid() && Grows(old(log), log)
        invariant held.Some? ==> ShareOf(cfg, seen, held.value) == old(ShareOf(cfg, seen, held.value))
      {
        if !es[i].Restart? && !(held.Some? && Of(es[i], held.value)) && Allowed(cfg, seen, es[i]) {
          AlwaysInStep(cfg, log);
          if held.Some? { OthersKeepShare(cfg, seen, es[i], held.value); }
          Append(cfg, log, es[i]);
          log, seen := log + [es[i]], Next(seen, es[i]);
          queued, processed, queueFile, processedFile := seen.queued, seen.processed, seen.queueFile,
              seen.processedFile;
        }
      }
    }

    method Tick() returns (t: nat)
      requires Valid()
      modifies this`clock, this`queued, this`processed, this`queueFile, this`processedFile, this`log, this`seen
      ensures t == old(clock) && clock == t + 1 && Valid() && Grows(old(log), log)
      ensures held.Some? ==> ShareOf(cfg, seen, held.value) == old(ShareOf(cfg, seen, held.value))
    {
      t := clock;
      clock := clock + 1;
      Others(t);
    }

    // ---------------------------------------------------------------- reads

    method ReadProcessedFlag(tx: TxId) returns (a: Option<bool>)
      requires At(tx)
      modifies this
      ensures At(tx) && Grows(old(log), log) && ReadsOnly(old(mine), mine) && SameMemory(cfg, old(seen), seen, tx)
      ensures seen.steps[tx] == Advance(old(seen).steps[tx], ReadProcessed(tx, a))
      ensures a == env.processed(old(clock))
    {
      hide Accepts, Run;
      var t := Tick();
      a := env.processed(t);
      Emit(ReadProcessed(tx, a));
    }

    method GetReceipt(tx: TxId, hash: Hash) returns (r: Option<Option<Receipt>>)
      requires At(tx)
      modifies this
      ensures At(tx) && Grows(old(log), log) && ReadsOnly(old(mine), mine) && SameMemory(cfg, old(seen), seen, tx)
      ensures Gathers(old(seen).steps[tx], seen.steps[tx])
      ensures r.Some? && r.value.Some? ==> (hash, r.value.value) in seen.steps[tx].receipts
      ensures r == env.receipt(old(clock))
    {
      hide Accepts, Run;
      var t := Tick();
      r := env.receipt(t);
      if r.Some? && r.value.Some? {
        Emit(ReadReceipt(tx, hash, r.value.value));
      }
    }

    method ReadTimelockEntry(tx: TxId, requestId: nat) returns (r: Option<Timelock>)
      requires At(tx)
      modifies this
      ensures At(tx) && Grows(old(log), log) && ReadsOnly(old(mine), mine) && SameMemory(cfg, old(seen), seen, tx)
      ensures Gathers(old(seen).steps[tx], seen.steps[tx])
      ensures r.Some? ==>
                && (requestId, r.value) in seen.steps[tx].timelocks && seen.steps[tx].entry == r
                && seen.steps[tx].cancelScan == ReadAgain(old(seen).steps[tx].cancelScan)
      ensures r == env.timelock(old(clock))
    {
      hide Accepts, Run;
      var t := Tick();
      r := env.timelock(t);
      if r.Some? {
        Emit(ReadTimelock(tx, requestId, r.value));
      }
    }

    /** The first of these transactions that is a verified payment; `ok` is false when a read threw. */
    method FindPaid(tx: TxId, hashes: seq<Hash>) returns (ok: bool, paid: Option<Hash>)
      requires At(tx)
      modifies this
      ensures At(tx) && Grows(old(log), log) && ReadsOnly(old(mine), mine) && SameMemory(cfg, old(seen), seen, tx)
      ensures Gathers(old(seen).steps[tx], seen.steps[tx])
      ensures paid.Some? ==> ok && paid.value in hashes && PaidBy(cfg, seen.steps[tx], paid.value)
      ensures forall r | Findable(env, r) && r.success && VerifyReleaseLogs(cfg, r.logs, old(seen).steps[tx].owed)
              && hashes != [] ::
                paid.Some?
    {
      hide Accepts, Run, VerifyReleaseLogs;
      ok, paid := true, None;
      var i := 0;
      while i < |hashes| && ok && paid.None?
        invariant 0 <= i <= |hashes|
        invariant At(tx) && Grows(old(log), log) && ReadsOnly(old(mine), mine) && SameMemory(cfg, old(seen), seen, tx)
        invariant Gathers(old(seen).steps[tx], seen.steps[tx])
        invariant paid.Some? ==> ok && paid.value in hashes && PaidBy(cfg, seen.steps[tx], paid.value)
        invariant forall r | Findable(env, r) && r.success
                  && VerifyReleaseLogs(cfg, r.logs, old(seen).steps[tx].owed) ::
                    ok && (i > 0 ==> paid.Some?)
        decreases |hashes| - i
      {
        var r := GetReceipt(tx, hashes[i]);
        if r.None? {
          ok := false;
        } else if r.value.Some? && r.value.value.success
            && VerifyReleaseLogs(cfg, r.value.value.logs, seen.steps[tx].owed) {
          assert (hashes[i], r.value.value).1 == r.value.value;
          paid := Some(hashes[i]);
        }
        i := i + 1;
      }
    }

    /** The release-log scan. */
    method ScanReleases(tx: TxId) returns (ok: bool, paid: Option<Hash>)
      requires At(tx)
      modifies this
      ensures At(tx) && Grows(old(log), log) && ReadsOnly(old(mine), mine) && SameMemory(cfg, old(seen), seen, tx)
      ensures Gathers(old(seen).steps[tx], seen.steps[tx])
      ensures paid.Some? ==> ok && PaidBy(cfg, seen.steps[tx], paid.value)
      ensures forall r | Findable(env, r) && r.success && VerifyReleaseLogs(cfg, r.logs, old(seen).steps[tx].owed) ::
                paid.Some?
    {
      hide Accepts, Run, PaidBy;
      var t := Tick();
      var hashes := env.hashes(t);
      if hashes.None? {
        ok, paid := false, None;
      } else {
        ok, paid := FindPaid(tx, hashes.value);
      }
    }

    /** The scan of timelock entries for one that carries the id. */
    method ScanTimelocks(tx: TxId, exp: Release) returns (ok: bool, requestId: Option<nat>, executeAfter: Option<nat>)
      requires At(tx)
      modifies this
      ensures At(tx) && Grows(old(log), log) && ReadsOnly(old(mine), mine) && SameMemory(cfg, old(seen), seen, tx)
      ensures Gathers(old(seen).steps[tx], seen.steps[tx])
    {
      hide Accepts, Run;
      ok, requestId, executeAfter := true, None, None;
      var t := Tick();
      var rids := env.requestIds(t);
      if rids.None? {
        ok := false;
      } else {
        var i := 0;
        while i < |rids.value| && ok && requestId.None?
          invariant 0 <= i <= |rids.value|
          invariant At(tx) && Grows(old(log), log) && ReadsOnly(old(mine), mine) && SameMemory(cfg, old(seen), seen, tx)
          invariant Gathers(old(seen).steps[tx], seen.steps[tx])
          decreases |rids.value| - i
        {
          var rid := rids.value[i];
          var rec := ReadTimelockEntry(tx, rid);
          if rec.None? {
            ok := false;
          } else if rec.value.id == exp.id {
            requestId := Some(rid);
            var u := Tick();
            var ev := env.queuedAfter(u);
            if ev.None? {
              ok := false;
            } else {
              executeAfter := ev.value;
            }
          }
          i := i + 1;
        }
      }
    }

    // ---------------------------------------------------------------- reconciliation

    /** The request bound to this id: from the local record, or else by scanning. */
    method LocateRequest(tx: TxId, exp: Release, verified: bool)
      returns (ok: bool, requestId: Option<nat>, executeAfter: Option<nat>)
      requires At(tx)
      modifies this
      ensures At(tx) && Grows(old(log), log) && ReadsOnly(old(mine), mine) && SameMemory(cfg, old(seen), seen, tx)
      ensures Gathers(old(seen).steps[tx], seen.steps[tx]) && (verified ==> ok)
    {
      if exp.id in queued && queued[exp.id].requestId.Some? && queued[exp.id].executeAfter.Some? {
        ok, requestId, executeAfter := true, queued[exp.id].requestId, queued[exp.id].executeAfter;
      } else if !verified {
        ok, requestId, executeAfter := ScanTimelocks(tx, exp);
      } else {
        ok, requestId, executeAfter := true, None, None;
      }
    }

    method NoteFailedScan(tx: TxId, failed: bool)
      requires At(tx)
      modifies this`log, this`seen, this`mine
      ensures At(tx) && Grows(old(log), log) && ReadsOnly(old(mine), mine) && SameMemory(cfg, old(seen), seen, tx)
      ensures seen.steps[tx] == old(seen).steps[tx].(scanFailed := old(seen).steps[tx].scanFailed || failed)
    {
      hide Accepts, Run;
      if failed { Emit(ScanFailed(tx)); }
    }

    method Reconcile(tx: TxId, exp: Release) returns (r: Reconciled)
      requires At(tx) && !seen.steps[tx].scanFailed && seen.steps[tx].owed == exp
      modifies this
      ensures At(tx) && Grows(old(log), log) && ReadsOnly(old(mine), mine) && SameMemory(cfg, old(seen), seen, tx)
      ensures Scans(old(seen).steps[tx], seen.steps[tx])
      ensures r.scanFailed == seen.steps[tx].scanFailed && Sound(cfg, seen.steps[tx], r)
      ensures forall rc | Findable(env, rc) && rc.success && VerifyReleaseLogs(cfg, rc.logs, exp) ::
                r.cls == IsPaid && !r.scanFailed
    {
      hide Accepts, Run, VerifyReleaseLogs, Binds, Sound, Next, Allowed, PaidBy, SameMemory;
      var scanned, paid := ScanReleases(tx);
      ghost var first := seen;
      NoteFailedScan(tx, !scanned);
      MemoryChains(cfg, old(seen), first, seen, tx);
      ghost var second := seen;
      var located, requestId, executeAfter := LocateRequest(tx, exp, paid.Some?);
      MemoryChains(cfg, old(seen), second, seen, tx);
      ghost var third := seen;
      NoteFailedScan(tx, !located);
      MemoryChains(cfg, old(seen), third, seen, tx);
      ghost var fourth := seen;
      var scanFailed := !scanned || !located;
      var record: Option<Timelock> := None;
      if requestId.Some? {
        record := ReadTimelockEntry(tx, requestId.value);
        MemoryChains(cfg, old(seen), fourth, seen, tx);
      }
      if paid.Some? { StillPaid(cfg, first.steps[tx], seen.steps[tx], paid.value); }
      ClassIsSound(cfg, seen.steps[tx], paid, requestId, executeAfter, record, scanFailed);
      var cls := ClassifyProcessed(cfg, paid.Some?, record, exp, AfterOrSentinel(executeAfter));
      r := Reconciled(cls, paid, requestId, executeAfter, scanFailed && cls != IsPaid);
    }

    /** Observation mode: classify and look, nothing else. */
    method Observe(tx: TxId, exp: Release, flag: bool) returns (out: Outcome)
      requires At(tx) && Clear(seen.steps[tx]) && seen.steps[tx].owed == exp
      modifies this
      ensures Closing(tx) && Grows(old(log), log) && ReadsOnly(old(mine), mine) && SameMemory(cfg, old(seen), seen, tx)
      ensures out == Observed
    {
      hide Accepts, Run, Sound;
      if flag {
        var r := Reconcile(tx, exp);
      }
      out := Observed;
    }

    // ---------------------------------------------------------------- fulfilment

    /** `payoutDeepEnough`: true only with the block and a head that were both read. */
    method IsDeepEnough(tx: TxId, hash: Hash, known: Option<nat>) returns (deep: bool)
      requires At(tx)
      requires known.Some? ==> exists p | p in seen.steps[tx].receipts :: p.0 == hash && p.1.block == known
      modifies this
      ensures At(tx) && Grows(old(log), log) && ReadsOnly(old(mine), mine) && SameMemory(cfg, old(seen), seen, tx)
      ensures Gathers(old(seen).steps[tx], seen.steps[tx])
      ensures deep ==> DeepEnough(cfg, seen.steps[tx], hash)
      ensures forall h, b: nat | Accepting(env, h) && Depth(h, b) >= RequiredDepth(cfg)
                                 && (known == Some(b) || (known.None? && BlockRead(env, b))) :: deep
    {
      hide Accepts, Run;
      deep := false;
      var block := known;
      if known.None? {
        var r := GetReceipt(tx, hash);
        if r.Some? && r.value.Some? {
          assert (hash, r.value.value).1 == r.value.value;
          block := r.value.value.block;
        }
      }
      if block.Some? {
        ghost var p :| p in seen.steps[tx].receipts && p.0 == hash && p.1.block == block;
        var t := Tick();
        var head := env.head(t);
        if head.Some? {
          Emit(ReadHead(tx, head.value));
          assert p in seen.steps[tx].receipts && head.value in seen.steps[tx].heads;
          deep := Depth(head.value, block.value) >= RequiredDepth(cfg);
        }
      }
    }

    /** The daemon call; `None` when it threw. */
    method FulfilWith(tx: TxId, exp: Release, hash: Hash) returns (a: Option<bool>)
      requires At(tx) && Clear(seen.steps[tx]) && seen.steps[tx].owed == exp
      requires PaidBy(cfg, seen.steps[tx], hash) && DeepEnough(cfg, seen.steps[tx], hash)
      modifies this
      ensures At(tx) && Grows(old(log), log) && Harmless(old(mine), mine) && SameMemory(cfg, old(seen), seen, tx)
      ensures seen.steps[tx] == (if a == Some(true) then old(seen).steps[tx].(ended := Paid) else old(seen).steps[tx])
      ensures a == env.fulfil(old(clock))
    {
      hide Accepts, Run, PaidBy, DeepEnough;
      var t := Tick();
      a := env.fulfil(t);
      Emit(Fulfil(tx, hash, exp, a == Some(true)));
    }

    /** The queue file is replaced, or the write fails and the old one stays. */
    method SaveQueued()
      requires Valid()
      modifies this
      ensures Valid() && held == old(held) && Grows(old(log), log) && ReadsOnly(old(mine), mine)
      ensures held.Some? ==> ShareOf(cfg, seen, held.value) == old(ShareOf(cfg, seen, held.value))
      ensures env.saves(old(clock)) ==> queueFile == queued
    {
      hide Accepts, Run;
      var t := Tick();
      if env.saves(t) {
        queueFile := queued;
        Emit(SaveQueue);
      }
    }

    method SaveMarks()
      requires Valid()
      modifies this
      ensures Valid() && held == old(held) && Grows(old(log), log) && ReadsOnly(old(mine), mine)
      ensures held.Some? ==> ShareOf(cfg, seen, held.value) == old(ShareOf(cfg, seen, held.value))
      ensures env.saves(old(clock)) ==> processedFile == processed
    {
      hide Accepts, Run;
      var t := Tick();
      if env.saves(t) {
        processedFile := processed;
        Emit(SaveProcessed);
      }
    }

    method MarkProcessed(tx: TxId)
      requires At(tx) && seen.steps[tx].ended != Open
      modifies this
      ensures At(tx) && Grows(old(log), log) && Harmless(old(mine), mine)
      ensures seen.steps[tx] == old(seen).steps[tx] && RecordOf(cfg, seen, tx) == RecordOf(cfg, old(seen), tx)
              && tx in processed
      ensures env.saves(old(clock)) ==> tx in processedFile
    {
      hide Accepts, Run;
      processed := processed + {tx};
      Emit(Mark(tx));
      SaveMarks();
    }

    method DropRecord(tx: TxId)
      requires At(tx) && seen.steps[tx].ended == Paid && tx in processed && StillQueued(seen, cfg.idOf(tx))
      modifies this
      ensures At(tx) && Grows(old(log), log) && Harmless(old(mine), mine)
      ensures seen.steps[tx] == old(seen).steps[tx] && RecordOf(cfg, seen, tx).None? && tx in processed
      ensures env.saves(old(clock)) ==> cfg.idOf(tx) !in queueFile
    {
      hide Accepts, Run, StillQueued;
      queued := queued - {cfg.idOf(tx)};
      Emit(Drop(tx, cfg.idOf(tx)));
      SaveQueued();
    }

    /** `persistQueued`. */
    method PersistQueued(tx: TxId, rec: Record)
      requires At(tx) && Allowed(cfg, seen, Persist(tx, rec)) && rec.release.id == cfg.idOf(tx)
      modifies this
      ensures Closing(tx) && Grows(old(log), log) && Harmless(old(mine), mine) && Records(old(mine), mine)
      ensures RecordOf(cfg, seen, tx) == Some(rec) && (tx in processed <==> tx in old(processed))
      ensures env.saves(old(clock)) ==> cfg.idOf(tx) in queueFile && queueFile[cfg.idOf(tx)] == rec
    {
      hide Accepts, Run, StillQueued, Witnessed, MayRecord;
      queued := queued[rec.release.id := rec];
      Emit(Persist(tx, rec));
      assert mine[|old(mine)|].Persist?;
      SaveQueued();
    }

    function SubmissionOf(id: Id): Option<Hash>
      reads this
    {
      if id in queued then queued[id].submission else None
    }

    /** The step in hand is about this withdrawal, whose record (if any) is still open. */
    ghost predicate Handling(tx: TxId, exp: Release)
      reads this
    {
      && At(tx) && seen.steps[tx].ended == Open && seen.steps[tx].owed == exp && exp.id == cfg.idOf(tx)
      && StillQueued(seen, exp.id)
    }

    /** The same, and no scan in it failed. */
    ghost predicate Free(tx: TxId, exp: Release)
      reads this
    {
      Handling(tx, exp) && Clear(seen.steps[tx])
    }

    /** What the outcome did to the record and the mark, since `s`. */
    ghost predicate Did(out: Outcome, tx: TxId, exp: Release, s: Seen)
      reads this
    {
      MemoryAfter(out, tx, exp, RecordOf(cfg, s, tx), tx in s.processed, RecordOf(cfg, seen, tx), tx in seen.processed)
    }

    /** Fulfil a verified payment once it is deep enough. */
    method FulfilPaid(tx: TxId, exp: Release, hash: Hash, known: Option<nat>, done: Outcome) returns (out: Outcome)
      requires Free(tx, exp) && PaidBy(cfg, seen.steps[tx], hash)
      requires known.Some? ==> exists p | p in seen.steps[tx].receipts :: p.0 == hash && p.1.block == known
      requires done in {Fulfilled, ReconciledPaid} && (done == Fulfilled ==> exp.id !in queued)
      modifies this
      ensures Closing(tx) && Grows(old(log), log) && Harmless(old(mine), mine)
      ensures out in {AwaitingConfirmations, FulfilRejected, Threw, done} && Did(out, tx, exp, old(seen))
      ensures forall h, b: nat | Accepting(env, h) && Depth(h, b) >= RequiredDepth(cfg)
                                 && (known == Some(b) || (known.None? && BlockRead(env, b))) :: out == done
    {
      hide Accepts, Run, PaidBy, DeepEnough;
      ghost var before := seen;
      var deep := IsDeepEnough(tx, hash, known);
      if !deep {
        out := AwaitingConfirmations;
      } else {
        StillPaid(cfg, before.steps[tx], seen.steps[tx], hash);
        var a := FulfilWith(tx, exp, hash);
        if a == Some(true) {
          MarkProcessed(tx);
          if done == ReconciledPaid { DropRecord(tx); }
          out := done;
        } else {
          out := if a.None? then Threw else FulfilRejected;
        }
      }
    }

    /** `applyReconciliation`: fulfil, keep a record, or wait. Never refunds and never reports a failure. */
    method ApplyReconciliation(tx: TxId, exp: Release, r: Reconciled) returns (out: Outcome)
      requires Handling(tx, exp) && r.scanFailed == seen.steps[tx].scanFailed && Sound(cfg, seen.steps[tx], r)
      requires !r.scanFailed ==> if r.cls == IsPaid then Clear(seen.steps[tx]) else MayRecord(seen.steps[tx])
      modifies this
      ensures Closing(tx) && Grows(old(log), log) && Harmless(old(mine), mine) && Did(out, tx, exp, old(seen))
      ensures r.scanFailed ==> out == SkippedRpc && log == old(log) && mine == old(mine)
      ensures !r.scanFailed ==> out in OutcomesOf(r.cls) && (r.cls != IsPaid ==> Records(old(mine), mine))
      ensures forall h, b: nat | Accepting(env, h) && Depth(h, b) >= RequiredDepth(cfg) && BlockRead(env, b)
                                 && r.cls == IsPaid && !r.scanFailed :: out == ReconciledPaid
    {
      hide Accepts, Run, PaidBy, DeepEnough, Binds;
      if r.scanFailed {
        out := SkippedRpc;
      } else if r.cls == IsPaid {
        out := FulfilPaid(tx, exp, r.paid.value, None, ReconciledPaid);
      } else {
        var status := if r.cls == IsQueued then Queued else if r.cls == IsCancelled then Cancelled else Ambiguous;
        var rec := Record(tx, exp, r.requestId, r.executeAfter, SubmissionOf(exp.id), status);
        PersistQueued(tx, rec);
        out := if r.cls == IsQueued then ReconciledQueued
               else if r.cls == IsCancelled then CancelledRefundCandidate else NowAmbiguous;
      }
    }

    // ---------------------------------------------------------------- failures and refunds

    /** `guardedRefund` for a routed withdrawal with a configured bridge; `None` when the daemon threw. */
    method GuardedRefund(tx: TxId, exp: Release) returns (refunded: Option<bool>)
      requires Free(tx, exp) && seen.steps[tx].falseReads >= 1 && exp.id !in queued
      modifies this
      ensures Closing(tx) && Grows(old(log), log) && old(mine) <= mine
      ensures Did(if refunded == Some(true) then Refunded else Failed, tx, exp, old(seen))
      ensures Hopeless(env) ==> refunded == Some(true)
      ensures env.processed(old(clock)) != Some(false) ==> Harmless(old(mine), mine) && refunded == Some(false)
    {
      hide Accepts, Run, Sound;
      refunded := Some(false);
      var flag := ReadProcessedFlag(tx);
      var cls: Option<Class> := None;
      if flag == Some(true) {
        var r := Reconcile(tx, exp);
        cls := Some(r.cls);
      }
      if flag.Some? && DecideRefund(flag.value, cls) == NormalAnalysis {
        refunded := RefundNow(tx, exp);
      }
    }

    /** The refund itself, an alert that is waited for, and only then the mark. */
    method RefundNow(tx: TxId, exp: Release) returns (refunded: Option<bool>)
      requires Free(tx, exp) && seen.steps[tx].falseReads >= 2 && exp.id !in queued
      modifies this
      ensures Closing(tx) && Grows(old(log), log) && old(mine) <= mine
      ensures Did(if refunded == Some(true) then Refunded else Failed, tx, exp, old(seen))
      ensures refunded == env.refund(old(clock))
    {
      hide Accepts, Run;
      var t := Tick();
      refunded := env.refund(t);
      Emit(Refund(tx, refunded == Some(true)));
      if refunded == Some(true) {
        var u := Tick();
        MarkProcessed(tx);
      }
    }

    /** `handleEvmFailure`: only a withdrawal proven not processed is reported as failed. */
    method HandleFailure(tx: TxId, exp: Release) returns (out: Outcome)
      requires Free(tx, exp) && exp.id !in queued
      modifies this
      ensures Closing(tx) && Grows(old(log), log) && old(mine) <= mine && Did(out, tx, exp, old(seen))
      ensures Hopeless(env) && autoRefund ==> out == Refunded
      ensures env.processed(old(clock)) != Some(false) ==> Harmless(old(mine), mine)
    {
      hide Accepts, Run, Sound, Allowed, Next;
      var flag := ReadProcessedFlag(tx);
      if flag.None? {
        out := SkippedRpc;
      } else if flag.value {
        var r := Reconcile(tx, exp);
        out := ApplyReconciliation(tx, exp, r);
      } else {
        out := ReportFailure(tx, exp);
      }
    }

    method ReportFailure(tx: TxId, exp: Release) returns (out: Outcome)
      requires Free(tx, exp) && seen.steps[tx].falseReads >= 1 && exp.id !in queued
      modifies this
      ensures Closing(tx) && Grows(old(log), log) && old(mine) <= mine && Did(out, tx, exp, old(seen))
      ensures Hopeless(env) && autoRefund ==> out == Refunded
    {
      hide Accepts, Run;
      var t := Tick();
      Emit(Report(tx));
      var shouldRefund := env.report(t);
      if shouldRefund.None? {
        out := Threw;
      } else if shouldRefund.value && autoRefund {
        var refunded := GuardedRefund(tx, exp);
        out := if refunded.None? then Threw else if refunded.value then Refunded else Failed;
      } else {
        out := Failed;
      }
    }

    // ---------------------------------------------------------------- releases

    /** The bounded retry loop: the processed flag is read again before every re-send. */
    method SubmitRelease(tx: TxId, exp: Release) returns (hash: Option<Hash>)
      requires Free(tx, exp) && seen.steps[tx].falseReads >= 1 && exp.id !in queued
      modifies this
      ensures Free(tx, exp) && Grows(old(log), log) && old(mine) <= mine && SameMemory(cfg, old(seen), seen, tx)
      ensures (forall t: nat :: env.nonce(t) && env.release(t).Some?) ==> hash.Some?
      ensures (forall t: nat :: env.release(t).None?) ==> hash.None?
    {
      hide Accepts, Run;
      hash := None;
      var limit := if maxRetries > 1 then maxRetries else 1;
      var attempt, going := 1, true;
      while going && attempt <= limit
        invariant 1 <= attempt <= limit + 1 && Free(tx, exp)
        invariant Grows(old(log), log) && old(mine) <= mine && SameMemory(cfg, old(seen), seen, tx)
        invariant attempt == 1 ==> seen.steps[tx].falseReads >= 1
        invariant (forall t: nat :: env.nonce(t) && env.release(t).Some?) ==> (attempt == 1 && going) || hash.Some?
        invariant (forall t: nat :: env.release(t).None?) ==> hash.None?
        decreases limit + 1 - attempt, going
      {
        if attempt > 1 {
          var flag := ReadProcessedFlag(tx);
          going := flag == Some(false);
        }
        if going {
          var t := Tick();
          if env.nonce(t) {
            hash := SendOnce(tx, exp);
            going := hash.None?;
          }
          attempt := attempt + 1;
        }
      }
    }

    method SendOnce(tx: TxId, exp: Release) returns (hash: Option<Hash>)
      requires Free(tx, exp) && seen.steps[tx].falseReads >= 1 && exp.id !in queued
      modifies this
      ensures Free(tx, exp) && Grows(old(log), log) && old(mine) <= mine && SameMemory(cfg, old(seen), seen, tx)
      ensures hash == env.release(old(clock))
    {
      hide Accepts, Run;
      var u := Tick();
      hash := env.release(u);
      Emit(Submit(tx, exp));
    }

    /** `classifyReleaseReceipt`. */
    method ClassifyReceipt(tx: TxId, logs: seq<LogEntry>, exp: Release) returns (c: ReceiptClass)
      requires At(tx) && seen.steps[tx].owed == exp
      modifies this
      ensures At(tx) && Grows(old(log), log) && ReadsOnly(old(mine), mine) && SameMemory(cfg, old(seen), seen, tx)
      ensures Gathers(old(seen).steps[tx], seen.steps[tx])
      ensures c.Verified? <==> VerifyReleaseLogs(cfg, logs, exp)
      ensures c.QueuedAt? ==> QueuedEvents(cfg, logs) == [(c.requestId, c.executeAfter)]
                              && Bound(cfg, seen.steps[tx], c.requestId, c.executeAfter, false)
    {
      hide Accepts, Run, VerifyReleaseLogs, Binds;
      var found := QueuedEvents(cfg, logs);
      if VerifyReleaseLogs(cfg, logs, exp) {
        c := Verified;
      } else if |found| != 1 {
        c := Unclear(None);
      } else {
        var (requestId, executeAfter) := found[0];
        var rec := ReadTimelockEntry(tx, requestId);
        if rec.None? || !Binds(cfg, rec.value, exp, executeAfter) || rec.value.executed || rec.value.cancelled {
          c := Unclear(Some(requestId));
        } else {
          assert (requestId, rec.value).1 == rec.value;
          c := QueuedAt(requestId, executeAfter);
        }
      }
    }

    /** A mined, successful release: classify it, and fulfil or record it. */
    method SettleReceipt(tx: TxId, exp: Release, hash: Hash, rcpt: Receipt) returns (out: Outcome)
      requires Free(tx, exp) && exp.id !in queued && rcpt.success && (hash, rcpt) in seen.steps[tx].receipts
      modifies this
      ensures Closing(tx) && Grows(old(log), log) && old(mine) <= mine && Did(out, tx, exp, old(seen))
              && out != Refunded
      ensures forall h: nat | Proves(cfg, exp, rcpt, h) && Accepting(env, h) :: out == Fulfilled
    {
      hide Accepts, Run, VerifyReleaseLogs, Binds, Next;
      var c := ClassifyReceipt(tx, rcpt.logs, exp);
      assert (hash, rcpt).1 == rcpt;
      if c.Verified? {
        out := FulfilPaid(tx, exp, hash, rcpt.block, Fulfilled);
      } else {
        var rec := if c.QueuedAt? then Record(tx, exp, Some(c.requestId), Some(c.executeAfter), Some(hash), Queued)
                   else Record(tx, exp, c.known, None, Some(hash), Ambiguous);
        PersistQueued(tx, rec);
        out := if c.QueuedAt? then NowQueued else NowAmbiguous;
      }
    }

    method AwaitReceipt(tx: TxId, hash: Hash) returns (r: Option<Receipt>)
      requires At(tx)
      modifies this
      ensures At(tx) && Grows(old(log), log) && ReadsOnly(old(mine), mine) && SameMemory(cfg, old(seen), seen, tx)
      ensures Gathers(old(seen).steps[tx], seen.steps[tx])
      ensures r.Some? ==> (hash, r.value) in seen.steps[tx].receipts
      ensures r == env.awaitReceipt(old(clock))
    {
      hide Accepts, Run;
      var t := Tick();
      r := env.awaitReceipt(t);
      if r.Some? { Emit(ReadReceipt(tx, hash, r.value)); }
    }

    /** After a release went out. */
    method SettleRelease(tx: TxId, exp: Release, hash: Hash) returns (out: Outcome)
      requires Free(tx, exp) && exp.id !in queued
      modifies this
      ensures Closing(tx) && Grows(old(log), log) && old(mine) <= mine && Did(out, tx, exp, old(seen))
      ensures forall r, h: nat | Smooth(cfg, env, exp, r, h) :: out == Fulfilled
    {
      hide Accepts, Run, Next, Allowed, MemoryAfter;
      var r := AwaitReceipt(tx, hash);
      if r.None? || !r.value.success {
        out := HandleFailure(tx, exp);
      } else {
        out := SettleReceipt(tx, exp, hash, r.value);
      }
    }

    /** From the pre-release check on. */
    method PayOrReconcile(tx: TxId, exp: Release) returns (out: Outcome)
      requires Free(tx, exp) && exp.id !in queued
      modifies this
      ensures Closing(tx) && Grows(old(log), log) && old(mine) <= mine && Did(out, tx, exp, old(seen))
      ensures observeOnly ==> ReadsOnly(old(mine), mine)
      ensures !observeOnly ==> forall r, h: nat | Smooth(cfg, env, exp, r, h) :: out == Fulfilled
      ensures !observeOnly ==> forall r, h: nat | PaidBefore(cfg, env, exp, r, h) :: out == ReconciledPaid
      ensures !observeOnly && Hopeless(env) && autoRefund ==> out == Refunded
    {
      hide Accepts, Run, Sound, Allowed;
      var flag := ReadProcessedFlag(tx);
      if flag.None? {
        out := SkippedRpc;
      } else if observeOnly {
        out := Observe(tx, exp, flag.value);
      } else if flag.value {
        var r := Reconcile(tx, exp);
        out := ApplyReconciliation(tx, exp, r);
      } else {
        var hash := SubmitRelease(tx, exp);
        if hash.None? {
          out := HandleFailure(tx, exp);
        } else {
          out := SettleRelease(tx, exp, hash.value);
        }
      }
    }

    method TakeUp(tx: TxId, exp: Release)
      requires Idle() && tx !in processed && tx !in seen.steps && exp.id == cfg.idOf(tx) && exp.id !in queued
      modifies this
      ensures Free(tx, exp) && Grows(old(log), log) && ReadsOnly(old(mine), mine)
              && SameMemory(cfg, old(seen), seen, tx)
      ensures clock == old(clock)
    {
      hide Accepts, Run;
      Emit(Begin(tx, exp));
      held := Some(tx);
    }

    /** The step is over, if it is not closed already. */
    method Finish(tx: TxId)
      requires Closing(tx)
      modifies this
      ensures Idle() && Grows(old(log), log) && ReadsOnly(old(mine), mine) && SameMemory(cfg, old(seen), seen, tx)
    {
      hide Accepts, Run;
      if tx in seen.steps { Emit(End(tx)); }
      held := None;
    }

    /** `processEvmWithdrawal`, for a withdrawal the poll loop did not skip as processed or in flight. */
    method ProcessEvmWithdrawal(w: Withdrawal) returns (out: Outcome)
      requires Idle() && w.tx !in processed && w.tx !in seen.steps
      modifies this
      ensures Idle() && Grows(old(log), log) && old(mine) <= mine
      ensures !Payable(w) ==> out in {SkippedUnsupported, SkippedInvalid}
      ensures Payable(w) ==> Did(out, w.tx, Expected(cfg, w), old(seen))
      ensures !Payable(w) || cfg.idOf(w.tx) in old(queued) || !hasBridge ==> log == old(log) && mine == old(mine)
      ensures Payable(w) && cfg.idOf(w.tx) in old(queued) ==> out == SkippedQueued
      ensures observeOnly ==> ReadsOnly(old(mine), mine)
      ensures Payable(w) && cfg.idOf(w.tx) !in old(queued) && hasBridge && !observeOnly ==>
                && (forall r, h: nat | Smooth(cfg, env, Expected(cfg, w), r, h) :: out == Fulfilled)
                && (forall r, h: nat | PaidBefore(cfg, env, Expected(cfg, w), r, h) :: out == ReconciledPaid)
                && (Hopeless(env) && autoRefund ==> out == Refunded)
    {
      hide Accepts, Run, Allowed, Next;
      if PayoutRoute(w.symbol) !in {ToEth, ToUsdc} {
        out := SkippedUnsupported;
      } else if w.recipient.None? || !(0 < w.units <= MAX_SAFE_INTEGER) {
        out := SkippedInvalid;
      } else {
        var exp := Expected(cfg, w);
        if exp.id in queued {
          out := SkippedQueued;
        } else if !hasBridge {
          out := SkippedNoBridge;
        } else {
          TakeUp(w.tx, exp);
          out := PayOrReconcile(w.tx, exp);
          Finish(w.tx);
        }
      }
    }

    // ---------------------------------------------------------------- the timelock queue

    /** An executed entry: find the payment among the execution's transactions, then among all releases. */
    method FindExecution(tx: TxId) returns (ok: bool, paid: Option<Hash>)
      requires At(tx)
      modifies this
      ensures At(tx) && Grows(old(log), log) && ReadsOnly(old(mine), mine) && SameMemory(cfg, old(seen), seen, tx)
      ensures Gathers(old(seen).steps[tx], seen.steps[tx])
      ensures paid.Some? ==> ok && PaidBy(cfg, seen.steps[tx], paid.value)
      ensures forall r | Findable(env, r) && r.success && VerifyReleaseLogs(cfg, r.logs, old(seen).steps[tx].owed) ::
                paid.Some?
    {
      hide Accepts, Run, PaidBy;
      var t := Tick();
      var hashes := env.hashes(t);
      if hashes.None? { return false, None; }
      ok, paid := FindPaid(tx, hashes.value);
      if ok && paid.None? {
        ok, paid := ScanReleases(tx);
      }
    }

    method PollExecuted(rec: Record) returns (out: Outcome)
      requires Free(rec.tx, rec.release)
      modifies this
      ensures Closing(rec.tx) && Grows(old(log), log) && Harmless(old(mine), mine)
              && Did(out, rec.tx, rec.release, old(seen))
      ensures out in {SkippedRpc, AwaitingConfirmations, FulfilRejected, Threw, ReconciledPaid, NowAmbiguous}
      ensures forall r, h: nat | Proves(cfg, rec.release, r, h) && Accepting(env, h) && Findable(env, r) ::
                out == ReconciledPaid
    {
      hide Accepts, Run, PaidBy;
      var ok, paid := FindExecution(rec.tx);
      if !ok {
        NoteFailedScan(rec.tx, true);
        out := SkippedRpc;
      } else {
        var cls := if paid.Some? then IsPaid else IsAmbiguous;
        out := ApplyReconciliation(rec.tx, rec.release, Reconciled(cls, paid, rec.requestId, rec.executeAfter, false));
      }
    }

    /**
     * A failed scan counts as no event found; the record is then written exactly when the entry said cancelled and
     * could be read again.
     */
    method PollCancelled(rec: Record, onchain: Timelock) returns (out: Outcome)
      requires Free(rec.tx, rec.release) && rec.requestId.Some? && rec.executeAfter.Some?
      requires seen.steps[rec.tx].entry == Some(onchain)
      modifies this
      ensures Closing(rec.tx) && Grows(old(log), log) && Harmless(old(mine), mine)
              && Did(out, rec.tx, rec.release, old(seen))
      ensures out in {SkippedQueued, CancelledRefundCandidate, NowAmbiguous}
      ensures var scan := env.cancelled(old(clock));
              var again := if onchain.cancelled || scan == Some(true) then env.timelock(old(clock) + 1) else None;
              out == StepOutcome(DecideCancel(cfg, onchain, scan, again, rec.release, rec.executeAfter.value))
      ensures env.cancelled(old(clock)).None? ==>
                && old(mine) + [CancelScanFailed(rec.tx)] <= mine
                && (Records(old(mine), mine) <==> onchain.cancelled && env.timelock(old(clock) + 1).Some?)
    {
      hide Accepts, Run, PaidBy, Binds, Witnessed;
      var scan := ScanCancelled(rec.tx);
      var again: Option<Timelock> := None;
      if onchain.cancelled || scan == Some(true) {
        again := ReadTimelockEntry(rec.tx, rec.requestId.value);
      }
      var step := DecideCancel(cfg, onchain, scan, again, rec.release, rec.executeAfter.value);
      if step == Wait {
        out := SkippedQueued;
      } else {
        assert step == Candidate ==> again.Some?;
        assert again.Some? ==> (rec.requestId.value, again.value).1 == again.value;
        var cls := if step == Candidate then IsCancelled else IsAmbiguous;
        out := ApplyReconciliation(rec.tx, rec.release, Reconciled(cls, None, rec.requestId, rec.executeAfter, false));
      }
    }

    /** The scan for a cancellation event; `None` when it failed. */
    method ScanCancelled(tx: TxId) returns (scan: Option<bool>)
      requires At(tx) && Clear(seen.steps[tx])
      modifies this
      ensures At(tx) && Grows(old(log), log) && ReadsOnly(old(mine), mine) && SameMemory(cfg, old(seen), seen, tx)
      ensures scan == env.cancelled(old(clock)) && clock == old(clock) + 1
      ensures mine == if scan.None? then old(mine) + [CancelScanFailed(tx)] else old(mine)
      ensures seen.steps[tx] == if scan.None? then Advance(old(seen).steps[tx], CancelScanFailed(tx))
              else old(seen).steps[tx]
    {
      hide Accepts, Run;
      var t := Tick();
      scan := env.cancelled(t);
      if scan.None? {
        Emit(CancelScanFailed(tx));
      }
    }

    method TakeUpRecord(id: Id)
      requires Idle() && id in queued && queued[id].status == Queued && queued[id].tx !in seen.steps
      modifies this
      ensures Free(old(queued)[id].tx, old(queued)[id].release) && Grows(old(log), log) && ReadsOnly(old(mine), mine)
      ensures SameMemory(cfg, old(seen), seen, old(queued)[id].tx) && clock == old(clock)
              && id == cfg.idOf(old(queued)[id].tx)
    {
      hide Accepts, Run;
      AlwaysInStep(cfg, log);
      var tx := queued[id].tx;
      Emit(Resume(tx, id));
      held := Some(tx);
    }

    /** The stored binding no longer holds: `rec.status = "ambiguous"`. */
    method Unbind(rec: Record)
      requires Free(rec.tx, rec.release)
      modifies this
      ensures Closing(rec.tx) && Grows(old(log), log) && Harmless(old(mine), mine)
      ensures Did(NowAmbiguous, rec.tx, rec.release, old(seen))
    {
      hide Accepts, Run, Next;
      PersistQueued(rec.tx, rec.(status := Ambiguous));
    }

    /** One record that is polled, from the moment it is taken up. */
    method PollRecord(rec: Record) returns (out: Outcome)
      requires Free(rec.tx, rec.release) && rec.requestId.Some? && rec.executeAfter.Some?
      modifies this
      ensures Closing(rec.tx) && Grows(old(log), log) && Harmless(old(mine), mine)
              && Did(out, rec.tx, rec.release, old(seen))
      ensures observeOnly ==> ReadsOnly(old(mine), mine)
      ensures out !in {Refunded, Fulfilled, NowQueued, ReconciledQueued}
      ensures var entry := env.timelock(old(clock));
              entry.Some? && !observeOnly ==>
                && (!Binds(cfg, entry.value, rec.release, rec.executeAfter.value) ==> out == NowAmbiguous)
                && (Binds(cfg, entry.value, rec.release, rec.executeAfter.value) && entry.value.executed ==>
                      forall r, h: nat | Proves(cfg, rec.release, r, h) && Accepting(env, h) && Findable(env, r) ::
                        out == ReconciledPaid)
    {
      hide Accepts, Run, PaidBy, Binds, Allowed, Next, Harmless, ReadsOnly;
      ghost var m0 := mine;
      var onchain := ReadTimelockEntry(rec.tx, rec.requestId.value);
      ghost var m1 := mine;
      Chain(m0, m0, m1);
      if onchain.None? {
        out := SkippedRpc;
      } else if observeOnly {
        out := Observed;
      } else if !Binds(cfg, onchain.value, rec.release, rec.executeAfter.value) {
        Unbind(rec);
        out := NowAmbiguous;
      } else if onchain.value.executed {
        out := PollExecuted(rec);
      } else {
        out := PollCancelled(rec, onchain.value);
      }
      Chain(m0, m1, mine);
    }

    /** One iteration of `pollQueuedWithdrawals`; `Threw` ends the poll. */
    method PollOne(id: Id) returns (out: Outcome)
      requires Idle() && id in queued && queued[id].tx !in seen.steps
      modifies this
      ensures Idle() && Grows(old(log), log) && Harmless(old(mine), mine)
      ensures old(queued)[id].status != Queued ==> log == old(log)
      ensures Did(out, old(queued)[id].tx, old(queued)[id].release, old(seen))
      ensures observeOnly ==> ReadsOnly(old(mine), mine)
      ensures out !in {Refunded, Fulfilled, NowQueued, ReconciledQueued}
      ensures var rec := old(queued)[id];
              var entry := env.timelock(old(clock));
              rec.status == Queued && rec.requestId.Some? && rec.executeAfter.Some? && entry.Some? && !observeOnly ==>
                && (!Binds(cfg, entry.value, rec.release, rec.executeAfter.value) ==> out == NowAmbiguous)
                && (Binds(cfg, entry.value, rec.release, rec.executeAfter.value) && entry.value.executed ==>
                      forall r, h: nat | Proves(cfg, rec.release, r, h) && Accepting(env, h) && Findable(env, r) ::
                        out == ReconciledPaid)
    {
      hide Accepts, Run, PaidBy, Binds, Allowed, Next, Harmless, ReadsOnly;
      ghost var m0 := mine;
      Chain(m0, m0, m0);
      var rec := queued[id];
      if rec.status != Queued || rec.requestId.None? || rec.executeAfter.None? {
        out := SkippedQueued;
      } else {
        TakeUpRecord(id);
        ghost var m1 := mine;
        out := PollRecord(rec);
        Chain(m0, m1, mine);
        ghost var m2 := mine;
        Finish(rec.tx);
        Chain(m2, mine, mine);
        Chain(m0, m2, mine);
      }
    }

    /**
     * The poll of all records. A record is read when its turn comes; the code goes on with the copy it made at the
     * start, which is the same unless another poll worked on that record meanwhile.
     */
    method PollQueuedWithdrawals()
      requires Idle()
      modifies this
      ensures Idle() && Grows(old(log), log) && Harmless(old(mine), mine)
      ensures forall id | id in old(queued) && old(queued)[id].status != Queued ::
                id in queued && queued[id] == old(queued)[id]
      ensures observeOnly ==> ReadsOnly(old(mine), mine)
    {
      Chain(mine, mine, mine);
      var left, threw := if hasBridge then queued.Keys else {}, false;
      while left != {} && !threw
        invariant Idle() && Grows(old(log), log) && Harmless(old(mine), mine)
        invariant observeOnly ==> ReadsOnly(old(mine), mine)
        decreases left
      {
        hide Accepts, Run, Allowed, Next, MemoryAfter, Harmless, ReadsOnly;
        var id :| id in left;
        if id in queued && queued[id].tx !in seen.steps {
          ghost var sofar := mine;
          var out := PollOne(id);
          Chain(old(mine), sofar, mine);
          threw := out == Threw;
        }
        left := left - {id};
      }
      FlagsLast(old(log), log);
    }

    lemma FlagsLast(before: Trace, after: Trace)
      requires Accepts(cfg, after) && Grows(before, after)
      ensures forall id | Flagged(Run(before).queued, id) ::
                id in Run(after).queued && Run(after).queued[id] == Run(before).queued[id]
    {
      hide Accepts, Run;
      assert after[..|before|] == before;
      forall id | Flagged(Run(before).queued, id)
          ensures id in Run(after).queued && Run(after).queued[id] == Run(before).queued[id] {
        FlaggedUntilRestart(cfg, after, |before|, id);
      }
    }

    // ---------------------------------------------------------------- runs

    /**
     * The process is killed when only `keep` events of its trace have happened, and the next process loads what was
     * on file then.
     */
    method Kill(keep: nat)
      requires Idle() && keep <= |log|
      modifies this
      ensures Idle() && log == old(log)[..keep] + [Restart] && mine == old(mine)
      ensures queued == queueFile == Run(old(log)[..keep]).queueFile
      ensures processed == processedFile == Run(old(log)[..keep]).processedFile
    {
      hide Accepts, Run, Allowed;
      assert Accepts(cfg, log[..keep]) by {
        if keep < |log| { EveryPrefix(cfg, log, keep); } else { assert log[..keep] == log; }
      }
      assert Allowed(cfg, Run(log[..keep]), Restart) by { RestartIsAllowed(cfg, Run(log[..keep])); }
      Append(cfg, log[..keep], Restart);
      var files := Run(log[..keep]);
      log, seen := log[..keep] + [Restart], Next(files, Restart);
      queueFile, processedFile := files.queueFile, files.processedFile;
      queued, processed := queueFile, processedFile;
    }

    method Do(job: Job)
      requires Idle()
      modifies this
      ensures Idle() && Grows(old(log), log) && old(mine) <= mine
      ensures observeOnly ==> ReadsOnly(old(mine), mine)
    {
      hide Accepts, Run, Allowed, Next;
      var t := Tick();
      match job {
        case Poll => PollQueuedWithdrawals();
        case Feed(w) =>
          if w.tx != "" && w.tx !in processed && w.tx !in seen.steps {
            var out := ProcessEvmWithdrawal(w);
          }
        case SaveNow =>
          if !observeOnly {
            SaveMarks();
            SaveQueued();
          }
      }
    }

    /**
     * Any schedule, over any lists the daemon gives, with other steps coming in at every await and the process killed
     * anywhere: the whole trace, over all the processes, keeps the discipline. What the other steps do is what the
     * discipline allows them, as these steps do.
     */
    method Operate(schedule: seq<Turn>)
      requires Idle()
      modifies this
      ensures Idle() && old(log) <= log
      ensures observeOnly ==> ReadsOnly(old(mine), mine)
    {
      for i := 0 to |schedule|
        invariant Idle() && old(log) <= log
        invariant observeOnly ==> ReadsOnly(old(mine), mine)
      {
        hide Accepts, Run, Allowed, Next;
        var start := |log|;
        Do(schedule[i].job);
        if schedule[i].Killed? {
          Kill(if start + schedule[i].after <= |log| then start + schedule[i].after else |log|);
        }
      }
    }
  }

  lemma MemoryChains(cfg: Config, a: Seen, b: Seen, c: Seen, tx: TxId)
    ensures SameMemory(cfg, a, b, tx) && SameMemory(cfg, b, c, tx) ==> SameMemory(cfg, a, c, tx)
  {
  }

  lemma RestartIsAllowed(cfg: Config, s: Seen)
    ensures Allowed(cfg, s, Restart)
  {
  }

  datatype Job = Poll | Feed(w: Withdrawal) | SaveNow

  /** A job that runs to its end, or one killed after so many events. */
  datatype Turn = Whole(job: Job) | Killed(job: Job, after: nat)

  datatype ReceiptClass = Verified | QueuedAt(requestId: nat, executeAfter: nat) | Unclear(known: Option<nat>)

  /** The bridge's own TimelockQueued events in a receipt. */
  function QueuedEvents(cfg: Config, logs: seq<LogEntry>): seq<(nat, nat)> {
    if logs == [] then []
    else
      var rest := QueuedEvents(cfg, logs[1..]);
      if logs[0].emitter == cfg.bridge && logs[0].event.TimelockQueued?
      then [(logs[0].event.requestId, logs[0].event.executeAfter)] + rest
      else rest
  }

  /** What a reconciliation of each class can come to. */
  function OutcomesOf(cls: Class): set<Outcome> {
    match cls
    case IsPaid => {AwaitingConfirmations, FulfilRejected, Threw, ReconciledPaid}
    case IsQueued => {ReconciledQueued}
    case IsCancelled => {CancelledRefundCandidate}
    case IsAmbiguous => {NowAmbiguous}
  }
}
