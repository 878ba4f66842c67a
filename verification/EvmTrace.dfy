/**
 * What the EVM bridge relayer may do, as a discipline on the trace of everything it read, did and saved over any
 * number of processes, and what every trace that keeps the discipline guarantees.
 */
module EvmTrace {
  import opened Common
  import opened Landing

  type TxId = string
  type Id = string
  type Address = string
  type Hash = nat

  datatype Asset = Eth | Usdc

  /** Addresses and hex ids are compared without case: here they are already in lower case. */
  datatype Release = Release(asset: Asset, recipient: Address, amount: nat, id: Id)

  datatype ChainEvent =
    | ReleaseEth(recipient: Address, amount: nat, id: Id)
    | ReleaseErc20(recipient: Address, token: Address, amount: nat, id: Id)
    | TimelockQueued(requestId: nat, executeAfter: nat)
    | Transfer(from: Address, to: Address, value: nat)
    | Unknown
  datatype LogEntry = LogEntry(emitter: Address, event: ChainEvent)
  datatype Receipt = Receipt(success: bool, logs: seq<LogEntry>, block: Option<nat>)

  datatype Timelock = Timelock(token: Address, to: Address, amount: nat, id: Id, executeAfter: nat, executed: bool,
                               cancelled: bool)

  datatype Status = Queued | Cancelled | Ambiguous
  datatype Record = Record(tx: TxId, release: Release, requestId: Option<nat>, executeAfter: Option<nat>,
                           submission: Option<Hash>, status: Status)

  ghost predicate Injective(f: TxId -> Id) {
    forall a, b :: f(a) == f(b) ==> a == b
  }

  /** The hash that makes a bridge id of a stored transaction id; no two transactions share one. */
  type IdOf = f: TxId -> Id | Injective(f) ghost witness (x: TxId) => x

  /** `usdc` and `bridge` are the configured contracts. */
  datatype Config = Config(bridge: Address, usdc: Address, confirmations: nat, daemonMinimum: nat, idOf: IdOf)

  function RequiredDepth(cfg: Config): nat {
    EffectiveDepth(cfg.confirmations, cfg.daemonMinimum)
  }

  const ZERO_ADDRESS: Address := "0x0000000000000000000000000000000000000000"

  // ---------------------------------------------------------------- evidence

  /** The bridge's own release event for this id, recipient and at least this amount; for USDC also the transfer. */
  predicate VerifyReleaseLogs(cfg: Config, logs: seq<LogEntry>, exp: Release) {
    match exp.asset
    case Eth => exists i :: 0 <= i < |logs| && IsEthRelease(cfg, logs[i], exp)
    case Usdc =>
      && (exists i :: 0 <= i < |logs| && IsUsdcRelease(cfg, logs[i], exp))
      && (exists i :: 0 <= i < |logs| && IsUsdcTransfer(cfg, logs[i], exp))
  }

  predicate IsEthRelease(cfg: Config, e: LogEntry, exp: Release) {
    && e.emitter == cfg.bridge && e.event.ReleaseEth?
    && e.event.recipient == exp.recipient && e.event.amount >= exp.amount && e.event.id == exp.id
  }

  predicate IsUsdcRelease(cfg: Config, e: LogEntry, exp: Release) {
    && e.emitter == cfg.bridge && e.event.ReleaseErc20? && e.event.token == cfg.usdc
    && e.event.recipient == exp.recipient && e.event.amount >= exp.amount && e.event.id == exp.id
  }

  predicate IsUsdcTransfer(cfg: Config, e: LogEntry, exp: Release) {
    && e.emitter == cfg.usdc && e.event.Transfer?
    && e.event.from == cfg.bridge && e.event.to == exp.recipient && e.event.value >= exp.amount
  }

  /** `timelockRecordMatches` against `expectedTimelockFor`. */
  predicate Binds(cfg: Config, t: Timelock, exp: Release, executeAfter: int) {
    && t.token == (if exp.asset == Eth then ZERO_ADDRESS else cfg.usdc)
    && t.to == exp.recipient && t.amount == exp.amount && t.id == exp.id && t.executeAfter == executeAfter
  }

  // ---------------------------------------------------------------- traces

  /**
   * Each event but the last three belongs to a step over one withdrawal, and steps over different withdrawals may
   * interleave. `SaveQueue` and `SaveProcessed` are writes that succeeded; a write that fails leaves no event.
   * `Restart` is the end of the process, however it came, and the start of the next one.
   */
  datatype Event =
    | Begin(tx: TxId, owed: Release)
    | Resume(tx: TxId, id: Id)
    | ReadProcessed(tx: TxId, processed: Option<bool>)
    | ReadReceipt(tx: TxId, hash: Hash, receipt: Receipt)
    | ReadHead(tx: TxId, head: nat)
    | ReadTimelock(tx: TxId, requestId: nat, timelock: Timelock)
    | ScanFailed(tx: TxId)
    | CancelScanFailed(tx: TxId)
    | Submit(tx: TxId, release: Release)
    | Persist(tx: TxId, record: Record)
    | Drop(tx: TxId, id: Id)
    | Fulfil(tx: TxId, hash: Hash, release: Release, accepted: bool)
    | Report(tx: TxId)
    | Refund(tx: TxId, done: bool)
    | Mark(tx: TxId)
    | End(tx: TxId)
    | SaveQueue
    | SaveProcessed
    | Restart
  type Trace = seq<Event>

  predicate IsGlobal(e: Event) {
    e.SaveQueue? || e.SaveProcessed? || e.Restart?
  }

  /** An event of a step over `tx`. */
  predicate Of(e: Event, tx: TxId) {
    !IsGlobal(e) && e.tx == tx
  }

  /** The scan for a cancellation event failed; what the entry read before it said, and whether it was read again. */
  datatype CancelScan = NotFailed | Blind(cancelled: bool, reread: bool)

  /** What an open step has read and done. */
  datatype Step = Step(
    owed: Release, falseReads: nat, scanFailed: bool, entry: Option<Timelock>, cancelScan: CancelScan, ended: Ending,
    receipts: set<(Hash, Receipt)>, heads: set<nat>, timelocks: set<(nat, Timelock)>)

  /** What a trace has established. `queueFile` and `processedFile` are what a restart would load. */
  datatype Seen = Seen(
    steps: map<TxId, Step>, queued: map<Id, Record>, processed: set<TxId>, queueFile: map<Id, Record>,
    processedFile: set<TxId>)

  function Start(): Seen {
    Seen(map[], map[], {}, map[], {})
  }

  function Opened(owed: Release): Step {
    Step(owed, 0, false, None, NotFailed, Open, {}, {}, {})
  }

  /** What an event does within its step. */
  function Advance(st: Step, e: Event): Step {
    match e
    case ReadProcessed(_, processed) => st.(falseReads := if processed == Some(false) then st.falseReads + 1 else 0)
    case ReadReceipt(_, hash, receipt) => st.(receipts := st.receipts + {(hash, receipt)})
    case ReadHead(_, head) => st.(heads := st.heads + {head})
    case ReadTimelock(_, requestId, timelock) =>
      st.(timelocks := st.timelocks + {(requestId, timelock)}, entry := Some(timelock),
          cancelScan := ReadAgain(st.cancelScan))
    case ScanFailed(_) => st.(scanFailed := true)
    case CancelScanFailed(_) => st.(cancelScan := Blind(st.entry.Some? && st.entry.value.cancelled, false))
    case Submit(_, _) => st.(falseReads := 0)
    case Fulfil(_, _, _, accepted) => if accepted then st.(ended := Paid) else st
    case Refund(_, done) => if done then st.(ended := Repaid) else st
    case _ => st
  }

  /** Writing a record is the last thing a step does. */
  function Next(s: Seen, e: Event): Seen {
    match e
    case Begin(tx, owed) => s.(steps := s.steps[tx := Opened(owed)])
    case Resume(tx, id) => if id in s.queued then s.(steps := s.steps[tx := Opened(s.queued[id].release)]) else s
    case Persist(tx, record) => s.(steps := s.steps - {tx}, queued := s.queued[record.release.id := record])
    case Drop(_, id) => s.(queued := s.queued - {id})
    case Mark(tx) => s.(processed := s.processed + {tx})
    case End(tx) => s.(steps := s.steps - {tx})
    case SaveQueue => s.(queueFile := s.queued)
    case SaveProcessed => s.(processedFile := s.processed)
    case Restart => Seen(map[], s.queueFile, s.processedFile, s.queueFile, s.processedFile)
    case _ => if e.tx in s.steps then s.(steps := s.steps[e.tx := Advance(s.steps[e.tx], e)]) else s
  }

  function ReadAgain(c: CancelScan): CancelScan {
    if c.Blind? then c.(reread := true) else c
  }

  /** The step read a successful transaction whose logs release exactly what is owed. */
  predicate PaidBy(cfg: Config, st: Step, hash: Hash) {
    exists p | p in st.receipts :: p.0 == hash && p.1.success && VerifyReleaseLogs(cfg, p.1.logs, st.owed)
  }

  /** It read the transaction's block and a head at least `depth` blocks on (itself included). */
  predicate DeepEnough(cfg: Config, st: Step, hash: Hash) {
    exists p, head | p in st.receipts && head in st.heads ::
      p.0 == hash && p.1.block.Some? && Depth(head, p.1.block.value) >= RequiredDepth(cfg)
  }

  /** It read a timelock entry that binds to this withdrawal in this state. */
  predicate Witnessed(cfg: Config, st: Step, r: Record, cancelled: bool) {
    && r.requestId.Some? && r.executeAfter.Some?
    && exists p | p in st.timelocks ::
         p.0 == r.requestId.value && Binds(cfg, p.1, r.release, r.executeAfter.value) && !p.1.executed
             && p.1.cancelled == cancelled
  }

  predicate StillQueued(s: Seen, id: Id) {
    id in s.queued ==> s.queued[id].status == Queued
  }

  /** The step is still open, and no scan in it failed. */
  predicate Clear(st: Step) {
    st.ended == Open && !st.scanFailed && st.cancelScan == NotFailed
  }

  /**
   * After a failed scan for a cancellation event a record is written only if the entry itself read as cancelled and
   * was read again.
   */
  predicate MayRecord(st: Step) {
    st.ended == Open && !st.scanFailed && (st.cancelScan.Blind? ==> st.cancelScan.cancelled && st.cancelScan.reread)
  }

  /** What a step may do next. */
  predicate Fits(cfg: Config, s: Seen, st: Step, e: Event) {
    match e
    case CancelScanFailed(_) => st.cancelScan == NotFailed
    case Submit(_, release) => Clear(st) && release == st.owed && st.falseReads >= 1 && release.id !in s.queued
    case Persist(tx, record) =>
      && MayRecord(st) && record.tx == tx && record.release == st.owed && StillQueued(s, st.owed.id)
      && (record.status == Queued ==> Witnessed(cfg, st, record, false))
      && (record.status == Cancelled ==> Witnessed(cfg, st, record, true))
    case Drop(tx, id) => st.ended == Paid && tx in s.processed && id == cfg.idOf(tx) && StillQueued(s, id)
    case Fulfil(_, hash, release, _) => Clear(st) && release == st.owed && PaidBy(cfg, st, hash)
        && DeepEnough(cfg, st, hash)
    case Report(_) => Clear(st) && st.falseReads >= 1 && st.owed.id !in s.queued
    case Refund(_, _) => Clear(st) && st.falseReads >= 2 && st.owed.id !in s.queued
    case Mark(_) => st.ended != Open
    case End(tx) => st.ended == Repaid ==> tx in s.processed
    case _ => true
  }

  /**
   * What may happen next. There is never more than one open step over a withdrawal: for two feeds the relayer sees to
   * it, a feed and a poll exclude each other by the record, and for two polls of one record it is assumed.
   */
  predicate Allowed(cfg: Config, s: Seen, e: Event) {
    match e
    case Begin(tx, owed) => tx !in s.steps && tx !in s.processed && owed.id == cfg.idOf(tx) && owed.id !in s.queued
    case Resume(tx, id) =>
      tx !in s.steps && id == cfg.idOf(tx) && id in s.queued && s.queued[id].status == Queued && s.queued[id].tx == tx
    case SaveQueue => true
    case SaveProcessed => true
    case Restart => true
    case _ => e.tx in s.steps && Fits(cfg, s, s.steps[e.tx], e)
  }

  function Run(log: Trace): Seen {
    if log == [] then Start() else Next(Run(log[..|log| - 1]), log[|log| - 1])
  }

  ghost predicate Accepts(cfg: Config, log: Trace) {
    log == [] || (Accepts(cfg, log[..|log| - 1]) && Allowed(cfg, Run(log[..|log| - 1]), log[|log| - 1]))
  }

  lemma Append(cfg: Config, log: Trace, e: Event)
    requires Accepts(cfg, log) && Allowed(cfg, Run(log), e)
    ensures Accepts(cfg, log + [e]) && Run(log + [e]) == Next(Run(log), e)
  {
    hide Allowed, Next;
    assert (log + [e])[..|log|] == log;
  }

  lemma {:induction false} EveryPrefix(cfg: Config, log: Trace, i: nat)
    requires Accepts(cfg, log) && i < |log|
    ensures Accepts(cfg, log[..i]) && Allowed(cfg, Run(log[..i]), log[i])
            && Run(log[..i + 1]) == Next(Run(log[..i]), log[i])
    decreases |log|
  {
    hide Allowed, Next;
    var front := log[..|log| - 1];
    assert log[..i + 1][..i] == log[..i];
    if i < |log| - 1 {
      EveryPrefix(cfg, front, i);
      assert front[..i] == log[..i];
    } else {
      assert log[..i + 1] == log;
    }
  }

  // ---------------------------------------------------------------- steps do not disturb each other

  lemma OtherStepsKeepStep(s: Seen, e: Event, tx: TxId)
    requires !Of(e, tx) && !e.Restart?
    ensures (tx in Next(s, e).steps <==> tx in s.steps) && (tx in s.steps ==> Next(s, e).steps[tx] == s.steps[tx])
    ensures tx in Next(s, e).processed <==> tx in s.processed
  {
    hide Advance;
  }

  /** What happens to a step when one of its own events is allowed. */
  lemma OwnStep(cfg: Config, s: Seen, e: Event, tx: TxId)
    requires Allowed(cfg, s, e) && Of(e, tx) && tx in Next(s, e).steps && !e.Begin? && !e.Resume?
    ensures tx in s.steps && Fits(cfg, s, s.steps[tx], e) && Next(s, e).steps[tx] == Advance(s.steps[tx], e)
  {
    hide Advance, Fits;
    if e.Mark? || e.Drop? { assert Advance(s.steps[tx], e) == s.steps[tx] by { IdleEvents(s.steps[tx], e); } }
  }

  lemma IdleEvents(st: Step, e: Event)
    requires e.Mark? || e.Drop? || e.Report?
    ensures Advance(st, e) == st
  {
  }

  // ---------------------------------------------------------------- reads before submissions and refunds

  predicate StartsStep(e: Event, tx: TxId) {
    e.Restart? || (Of(e, tx) && (e.Begin? || e.Resume?))
  }

  /** No submission, no new step and no answer but "not processed". */
  predicate KeepsFalse(e: Event, tx: TxId) {
    !StartsStep(e, tx) && (Of(e, tx) ==> !e.Submit? && (e.ReadProcessed? ==> e.processed == Some(false)))
  }

  ghost predicate OnlyFalseSince(log: Trace, j: nat, tx: TxId) {
    forall k | j <= k < |log| :: KeepsFalse(log[k], tx)
  }

  ghost predicate FalseReadAt(log: Trace, j: nat, tx: TxId) {
    j < |log| && log[j] == ReadProcessed(tx, Some(false)) && OnlyFalseSince(log, j, tx)
  }

  /** How many answers "not processed" the step has had in a row. */
  function FalseReads(s: Seen, tx: TxId): nat {
    if tx in s.steps then s.steps[tx].falseReads else 0
  }

  lemma CountStep(cfg: Config, s: Seen, e: Event, tx: TxId)
    requires Allowed(cfg, s, e) && FalseReads(Next(s, e), tx) >= 1
    ensures KeepsFalse(e, tx)
    ensures FalseReads(Next(s, e), tx) == FalseReads(s, tx) + if e == ReadProcessed(tx, Some(false)) then 1 else 0
  {
    hide Fits;
    if Of(e, tx) {
      if !e.Begin? && !e.Resume? { OwnStep(cfg, s, e, tx); }
    } else if !e.Restart? {
      OtherStepsKeepStep(s, e, tx);
    }
  }

  lemma StillFalse(front: Trace, e: Event, j: nat, tx: TxId)
    requires FalseReadAt(front, j, tx) && KeepsFalse(e, tx)
    ensures FalseReadAt(front + [e], j, tx)
  {
  }

  /** As many answers "not processed" as the monitor counted really precede, uninterrupted. */
  lemma {:induction false} FalseReadsAreReal(cfg: Config, log: Trace, tx: TxId)
    requires Accepts(cfg, log) && FalseReads(Run(log), tx) >= 1
    ensures exists j: nat :: FalseReadAt(log, j, tx)
    ensures FalseReads(Run(log), tx) >= 2 ==>
              exists i: nat, j: nat :: i < j && FalseReadAt(log, i, tx) && FalseReadAt(log, j, tx)
  {
    hide Allowed, Next, FalseReads, KeepsFalse;
    assert log != [] by { NoReadsAtStart(tx); }
    var front, e := log[..|log| - 1], log[|log| - 1];
    assert log == front + [e];
    CountStep(cfg, Run(front), e, tx);
    if FalseReads(Run(front), tx) >= 1 {
      FalseReadsAreReal(cfg, front, tx);
      var j: nat :| FalseReadAt(front, j, tx);
      StillFalse(front, e, j, tx);
      if FalseReads(Run(front), tx) >= 2 {
        var a: nat, b: nat :| a < b && FalseReadAt(front, a, tx) && FalseReadAt(front, b, tx);
        StillFalse(front, e, a, tx);
        StillFalse(front, e, b, tx);
      }
      if e == ReadProcessed(tx, Some(false)) { assert FalseReadAt(log, |front|, tx) && j < |front|; }
    } else {
      assert FalseReadAt(log, |front|, tx);
    }
  }

  lemma NoReadsAtStart(tx: TxId)
    ensures FalseReads(Run([]), tx) == 0
  {
  }

  lemma CountIsEnough(cfg: Config, s: Seen, e: Event)
    requires Allowed(cfg, s, e)
    ensures e.Submit? || e.Report? || e.Refund? ==> FalseReads(s, e.tx) >= 1
    ensures e.Refund? ==> FalseReads(s, e.tx) >= 2
  {
  }

  /** Every submission, retries included, follows a "not processed" answer in the same step. */
  lemma SubmitFollowsAFalseRead(cfg: Config, log: Trace, i: nat)
    requires Accepts(cfg, log) && i < |log| && log[i].Submit?
    ensures exists j: nat :: FalseReadAt(log[..i], j, log[i].tx)
  {
    hide Accepts, Run, Next, Allowed, FalseReads;
    EveryPrefix(cfg, log, i);
    CountIsEnough(cfg, Run(log[..i]), log[i]);
    FalseReadsAreReal(cfg, log[..i], log[i].tx);
  }

  /** A refund follows two such answers, a failure report one. */
  lemma RefundFollowsTwoFalseReads(cfg: Config, log: Trace, i: nat)
    requires Accepts(cfg, log) && i < |log| && (log[i].Refund? || log[i].Report?)
    ensures exists j: nat :: FalseReadAt(log[..i], j, log[i].tx)
    ensures log[i].Refund? ==>
              exists j: nat, k: nat ::
                    j < k && FalseReadAt(log[..i], j, log[i].tx) && FalseReadAt(log[..i], k, log[i].tx)
  {
    hide Accepts, Run, Next, Allowed, FalseReads;
    EveryPrefix(cfg, log, i);
    CountIsEnough(cfg, Run(log[..i]), log[i]);
    FalseReadsAreReal(cfg, log[..i], log[i].tx);
  }

  // ---------------------------------------------------------------- memory and files

  /** Records are filed under the id of their own withdrawal. */
  ghost predicate Keyed(cfg: Config, q: map<Id, Record>) {
    forall id | id in q :: cfg.idOf(q[id].tx) == id && q[id].release.id == id
  }

  /** A record on file that needs an operator is in memory too, and the same. */
  ghost predicate FlagsAgree(s: Seen) {
    forall id | id in s.queueFile && s.queueFile[id].status != Queued ::
          id in s.queued && s.queued[id] == s.queueFile[id]
  }

  /** A record that is on file and no longer in memory is that of a processed withdrawal. */
  ghost predicate DropsAreMarked(s: Seen) {
    forall id | id in s.queueFile :: id in s.queued || s.queueFile[id].tx in s.processed
  }

  /** A step owes its own withdrawal, and while it is open and there is no record the withdrawal is not processed. */
  ghost predicate StepsOk(cfg: Config, s: Seen) {
    forall tx | tx in s.steps ::
      && s.steps[tx].owed.id == cfg.idOf(tx)
      && (s.steps[tx].ended == Open && cfg.idOf(tx) !in s.queued ==> tx !in s.processed)
  }

  ghost predicate InStep(cfg: Config, s: Seen) {
    && Keyed(cfg, s.queued) && Keyed(cfg, s.queueFile) && FlagsAgree(s) && s.processedFile <= s.processed
    && StepsOk(cfg, s) && DropsAreMarked(s)
  }

  lemma RecordsStayKeyed(cfg: Config, s: Seen, e: Event)
    requires Keyed(cfg, s.queued) && Keyed(cfg, s.queueFile) && StepsOk(cfg, s) && Allowed(cfg, s, e)
    ensures Keyed(cfg, Next(s, e).queued) && Keyed(cfg, Next(s, e).queueFile)
  {
    hide PaidBy, DeepEnough, Witnessed, Advance, StillQueued;
  }

  lemma FlagsStayAgreed(cfg: Config, s: Seen, e: Event)
    requires StepsOk(cfg, s) && FlagsAgree(s) && Allowed(cfg, s, e)
    ensures FlagsAgree(Next(s, e))
  {
    hide PaidBy, DeepEnough, Witnessed, Advance;
  }

  /** Another step leaves the record alone. */
  lemma OtherStepsKeepRecord(cfg: Config, s: Seen, e: Event, tx: TxId)
    requires StepsOk(cfg, s) && Allowed(cfg, s, e) && !Of(e, tx) && !e.Restart?
    ensures cfg.idOf(tx) in Next(s, e).queued <==> cfg.idOf(tx) in s.queued
    ensures cfg.idOf(tx) in s.queued ==> Next(s, e).queued[cfg.idOf(tx)] == s.queued[cfg.idOf(tx)]
  {
    hide PaidBy, DeepEnough, Witnessed, Advance, StillQueued;
    assert forall a :: cfg.idOf(a) == cfg.idOf(tx) ==> a == tx;
  }

  ghost predicate StepOk(cfg: Config, s: Seen, tx: TxId) {
    tx in s.steps ==>
      && s.steps[tx].owed.id == cfg.idOf(tx)
      && (s.steps[tx].ended == Open && cfg.idOf(tx) !in s.queued ==> tx !in s.processed)
  }

  lemma StepStaysOk(cfg: Config, s: Seen, e: Event, tx: TxId)
    requires Keyed(cfg, s.queued) && StepsOk(cfg, s) && Allowed(cfg, s, e)
    ensures StepOk(cfg, Next(s, e), tx)
  {
    if !e.Restart? && !Of(e, tx) {
      hide Allowed, Next, Keyed;
      OtherStepsKeepStep(s, e, tx);
      OtherStepsKeepRecord(cfg, s, e, tx);
    } else {
      hide PaidBy, DeepEnough, Witnessed, StillQueued;
      assert tx in s.steps ==> StepOk(cfg, s, tx);
    }
  }

  lemma StepsStayInStep(cfg: Config, s: Seen, e: Event)
    requires Keyed(cfg, s.queued) && StepsOk(cfg, s) && Allowed(cfg, s, e)
    ensures StepsOk(cfg, Next(s, e))
  {
    hide Allowed, Next, Keyed;
    forall tx | tx in Next(s, e).steps ensures StepOk(cfg, Next(s, e), tx) { StepStaysOk(cfg, s, e, tx); }
  }

  lemma MarksStayInStep(cfg: Config, s: Seen, e: Event)
    requires s.processedFile <= s.processed
    ensures Next(s, e).processedFile <= Next(s, e).processed
  {
    hide Advance;
  }

  lemma DropsStayMarked(cfg: Config, s: Seen, e: Event)
    requires Keyed(cfg, s.queueFile) && DropsAreMarked(s) && Allowed(cfg, s, e)
    ensures DropsAreMarked(Next(s, e))
  {
    hide PaidBy, DeepEnough, Witnessed, StillQueued, Advance;
    if e.Drop? { assert forall a :: cfg.idOf(a) == cfg.idOf(e.tx) ==> a == e.tx; }
  }

  lemma StaysInStep(cfg: Config, s: Seen, e: Event)
    requires InStep(cfg, s) && Allowed(cfg, s, e)
    ensures InStep(cfg, Next(s, e))
  {
    hide Allowed, Next, Keyed, FlagsAgree, StepsOk, DropsAreMarked;
    RecordsStayKeyed(cfg, s, e);
    FlagsStayAgreed(cfg, s, e);
    StepsStayInStep(cfg, s, e);
    MarksStayInStep(cfg, s, e);
    DropsStayMarked(cfg, s, e);
  }

  /** Memory and files agree in this way after every run, whatever saves failed and wherever the process was killed. */
  lemma {:induction false} AlwaysInStep(cfg: Config, log: Trace)
    requires Accepts(cfg, log)
    ensures InStep(cfg, Run(log))
  {
    hide Allowed, Next, InStep;
    if log == [] {
      assert InStep(cfg, Start()) by { StartInStep(cfg); }
    } else {
      AlwaysInStep(cfg, log[..|log| - 1]);
      StaysInStep(cfg, Run(log[..|log| - 1]), log[|log| - 1]);
    }
  }

  lemma StartInStep(cfg: Config)
    ensures InStep(cfg, Start())
  {
  }

  /** Whatever a step owes, and whatever a record in memory or on file owes, the daemon once listed. */
  ghost predicate AllListed(log: Trace, s: Seen) {
    StepsListed(log, s) && RecordsListed(log, s.queued) && RecordsListed(log, s.queueFile)
  }

  ghost predicate StepsListed(log: Trace, s: Seen) {
    forall tx | tx in s.steps :: Begin(tx, s.steps[tx].owed) in log
  }

  ghost predicate RecordsListed(log: Trace, q: map<Id, Record>) {
    forall id | id in q :: Begin(q[id].tx, q[id].release) in log
  }

  lemma StepsStayListed(cfg: Config, log: Trace, s: Seen, e: Event)
    requires StepsListed(log, s) && RecordsListed(log, s.queued) && Allowed(cfg, s, e)
    ensures StepsListed(log + [e], Next(s, e))
  {
    hide Fits;
    assert forall x | x in log :: x in log + [e];
    assert e in log + [e];
    assert forall st: Step, x: Event :: Advance(st, x).owed == st.owed;
  }

  lemma RecordsStayListed(cfg: Config, log: Trace, s: Seen, e: Event)
    requires AllListed(log, s) && Allowed(cfg, s, e)
    ensures RecordsListed(log + [e], Next(s, e).queued) && RecordsListed(log + [e], Next(s, e).queueFile)
  {
    hide PaidBy, DeepEnough, Witnessed, StillQueued, Advance;
    assert forall x | x in log :: x in log + [e];
  }

  lemma {:induction false} OwedIsListed(cfg: Config, log: Trace)
    requires Accepts(cfg, log)
    ensures AllListed(log, Run(log))
  {
    hide Allowed, Next, StepsListed, RecordsListed;
    if log == [] {
      assert AllListed([], Start()) by { NothingIsListed(); }
    } else {
      var front, e := log[..|log| - 1], log[|log| - 1];
      OwedIsListed(cfg, front);
      StepsStayListed(cfg, front, Run(front), e);
      RecordsStayListed(cfg, front, Run(front), e);
      assert log == front + [e];
    }
  }

  lemma NothingIsListed()
    ensures AllListed([], Start())
  {
  }

  lemma SubmitsHaveNoRecord(cfg: Config, s: Seen, e: Event)
    requires InStep(cfg, s) && Allowed(cfg, s, e) && (e.Submit? || e.Report? || e.Refund?)
    ensures cfg.idOf(e.tx) !in s.queued && cfg.idOf(e.tx) !in s.queueFile && e.tx !in s.processed
  {
    hide PaidBy, DeepEnough, Witnessed, FlagsAgree;
    assert forall a :: cfg.idOf(a) == cfg.idOf(e.tx) ==> a == e.tx;
  }

  /** A withdrawal with a record, in memory or on file, is never submitted, reported as failed or refunded. */
  lemma RecordedIsNeitherSubmittedNorRefunded(cfg: Config, log: Trace, i: nat)
    requires Accepts(cfg, log) && i < |log| && (log[i].Submit? || log[i].Report? || log[i].Refund?)
    ensures cfg.idOf(log[i].tx) !in Run(log[..i]).queued && cfg.idOf(log[i].tx) !in Run(log[..i]).queueFile
  {
    hide Accepts, Run, Next, Allowed, InStep;
    EveryPrefix(cfg, log, i);
    AlwaysInStep(cfg, log[..i]);
    SubmitsHaveNoRecord(cfg, Run(log[..i]), log[i]);
  }

  // ---------------------------------------------------------------- queue records

  lemma QueueStep(cfg: Config, s: Seen, e: Event, id: Id)
    requires Allowed(cfg, s, e) && id in s.queued
    ensures s.queued[id].status != Queued && !e.Restart? ==>
              id in Next(s, e).queued && Next(s, e).queued[id] == s.queued[id]
    ensures id !in Next(s, e).queued ==>
              e.Restart? || (e.Drop? && e.id == id && cfg.idOf(e.tx) == id && e.tx in s.steps
                             && s.steps[e.tx].ended == Paid)
  {
    hide PaidBy, DeepEnough, Witnessed, Advance;
  }

  ghost predicate Flagged(q: map<Id, Record>, id: Id) {
    id in q && q[id].status != Queued
  }

  lemma FileStep(cfg: Config, s: Seen, e: Event, id: Id)
    requires InStep(cfg, s) && Allowed(cfg, s, e) && Flagged(s.queueFile, id)
    ensures id in Next(s, e).queueFile && Next(s, e).queueFile[id] == s.queueFile[id]
  {
    hide Fits, Advance, Keyed, StepsOk, DropsAreMarked;
  }

  /**
   * A record on file that needs an operator is never changed or dropped again, on file or in memory, by this process or
   * any later one, however the steps over the withdrawals interleave.
   */
  lemma {:induction false} FlaggedForever(cfg: Config, log: Trace, i: nat, id: Id)
    requires Accepts(cfg, log) && i <= |log| && Flagged(Run(log[..i]).queueFile, id)
    ensures id in Run(log).queueFile && Run(log).queueFile[id] == Run(log[..i]).queueFile[id]
    ensures id in Run(log).queued && Run(log).queued[id] == Run(log).queueFile[id]
    decreases |log|
  {
    hide Allowed, Next;
    AlwaysInStep(cfg, log);
    if i == |log| {
      assert log[..i] == log;
    } else {
      var front := log[..|log| - 1];
      assert front[..i] == log[..i];
      FlaggedForever(cfg, front, i, id);
      AlwaysInStep(cfg, front);
      FileStep(cfg, Run(front), log[|log| - 1], id);
    }
  }

  /** In memory it stays until the process ends. */
  lemma {:induction false} FlaggedUntilRestart(cfg: Config, log: Trace, i: nat, id: Id)
    requires Accepts(cfg, log) && i <= |log| && Flagged(Run(log[..i]).queued, id)
    requires forall k | i <= k < |log| :: !log[k].Restart?
    ensures id in Run(log).queued && Run(log).queued[id] == Run(log[..i]).queued[id]
    decreases |log|
  {
    hide Allowed, Next;
    if i == |log| {
      assert log[..i] == log;
    } else {
      var front := log[..|log| - 1];
      assert front[..i] == log[..i];
      FlaggedUntilRestart(cfg, front, i, id);
      QueueStep(cfg, Run(front), log[|log| - 1], id);
    }
  }

  /** Over a restart it is kept if and only if it is on file as it is in memory. */
  lemma FlagSurvivesIffSaved(cfg: Config, log: Trace, id: Id)
    requires Accepts(cfg, log) && Flagged(Run(log).queued, id)
    ensures (id in Run(log + [Restart]).queued && Run(log + [Restart]).queued[id] == Run(log).queued[id])
       <==> Flagged(Run(log).queueFile, id)
  {
    hide Accepts, Run, Keyed, StepsOk, DropsAreMarked;
    AlwaysInStep(cfg, log);
    assert Run(log + [Restart]) == Next(Run(log), Restart) by { OneMore(log, Restart); }
  }

  lemma OneMore(log: Trace, e: Event)
    ensures Run(log + [e]) == Next(Run(log), e)
  {
    hide Next;
    assert (log + [e])[..|log|] == log;
  }

  // Two polls of one record. The timer does not wait for a poll that is still under way, and nothing keeps two polls
  // from working on the same record.

  function Sample(cfg: Config, tx: TxId): Release {
    Release(Eth, "", 0, cfg.idOf(tx))
  }

  function SampleRecord(cfg: Config, tx: TxId, status: Status): Record {
    Record(tx, Sample(cfg, tx), Some(0), Some(0), None, status)
  }

  function SampleReceipt(cfg: Config, tx: TxId): Receipt {
    Receipt(true, [LogEntry(cfg.bridge, ReleaseEth("", 0, cfg.idOf(tx)))], Some(0))
  }

  /** A withdrawal whose release was put under the timelock. */
  function QueuedRun(cfg: Config, tx: TxId): Trace {
    [Begin(tx, Sample(cfg, tx)), ReadTimelock(tx, 0, Timelock(ZERO_ADDRESS, "", 0, cfg.idOf(tx), 0, false, false)),
     Persist(tx, SampleRecord(cfg, tx, Queued))]
  }

  /** One poll finds it executed, fulfils it and drops the record. */
  function FulfillingPoll(cfg: Config, tx: TxId): Trace {
    [Resume(tx, cfg.idOf(tx)), ReadReceipt(tx, 0, SampleReceipt(cfg, tx)), ReadHead(tx, RequiredDepth(cfg)),
     Fulfil(tx, 0, Sample(cfg, tx), true), Mark(tx), Drop(tx, cfg.idOf(tx))]
  }

  /** Another poll finds the entry changed and hands the record to an operator. */
  function FlaggingPoll(cfg: Config, tx: TxId): Trace {
    [Resume(tx, cfg.idOf(tx)), Persist(tx, SampleRecord(cfg, tx, Ambiguous))]
  }

  lemma FlaggingPollIsAccepted(cfg: Config, tx: TxId)
    ensures Accepts(cfg, QueuedRun(cfg, tx) + FlaggingPoll(cfg, tx))
  {
    hide Accepts, Run, DeepEnough, PaidBy, Witnessed;
    var q, b := QueuedRun(cfg, tx), FlaggingPoll(cfg, tx);
    QueuedRunIsAccepted(cfg, tx);
    Append(cfg, q, b[0]);
    Append(cfg, q + [b[0]], b[1]);
    assert q + [b[0]] + [b[1]] == q + b;
  }

  lemma FulfillingPollIsAccepted(cfg: Config, tx: TxId)
    ensures Accepts(cfg, QueuedRun(cfg, tx) + FulfillingPoll(cfg, tx))
  {
    hide Accepts, Run, DeepEnough, PaidBy, Witnessed;
    var q, a := QueuedRun(cfg, tx), FulfillingPoll(cfg, tx);
    QueuedRunIsAccepted(cfg, tx);
    Append(cfg, q, a[0]);
    Append(cfg, q + [a[0]], a[1]);
    Append(cfg, q + [a[0]] + [a[1]], a[2]);
    var read := q + [a[0]] + [a[1]] + [a[2]];
    FulfilsAndDrops(cfg, tx, read);
    assert read + [a[3]] + [a[4]] + [a[5]] == q + a;
  }

  lemma FulfilsAndDrops(cfg: Config, tx: TxId, read: Trace)
    requires Accepts(cfg, read) && tx in Run(read).steps && cfg.idOf(tx) in Run(read).queued
    requires Run(read).queued[cfg.idOf(tx)].status == Queued && Clear(Run(read).steps[tx])
    requires Run(read).steps[tx].owed == Sample(cfg, tx) && (0, SampleReceipt(cfg, tx)) in Run(read).steps[tx].receipts
    requires RequiredDepth(cfg) in Run(read).steps[tx].heads
    ensures var a := FulfillingPoll(cfg, tx); Accepts(cfg, read + [a[3]] + [a[4]] + [a[5]])
  {
    hide Accepts, Run, DeepEnough, PaidBy, Witnessed;
    var a := FulfillingPoll(cfg, tx);
    ReceiptSuffices(cfg, Run(read).steps[tx], tx);
    Append(cfg, read, a[3]);
    Append(cfg, read + [a[3]], a[4]);
    Append(cfg, read + [a[3]] + [a[4]], a[5]);
  }

  lemma ReceiptSuffices(cfg: Config, st: Step, tx: TxId)
    requires (0, SampleReceipt(cfg, tx)) in st.receipts && RequiredDepth(cfg) in st.heads && st.owed == Sample(cfg, tx)
    ensures PaidBy(cfg, st, 0) && DeepEnough(cfg, st, 0)
  {
    var paid := SampleReceipt(cfg, tx);
    assert IsEthRelease(cfg, paid.logs[0], Sample(cfg, tx));
    assert Depth(RequiredDepth(cfg), 0) >= RequiredDepth(cfg);
    assert (0, paid).1.block == Some(0);
  }

  lemma QueuedRunIsAccepted(cfg: Config, tx: TxId)
    ensures var s := Run(QueuedRun(cfg, tx));
            && Accepts(cfg, QueuedRun(cfg, tx)) && tx !in s.steps
            && cfg.idOf(tx) in s.queued && s.queued[cfg.idOf(tx)] == SampleRecord(cfg, tx, Queued)
  {
    hide Accepts, Run;
    var q := QueuedRun(cfg, tx);
    assert Accepts(cfg, []) && Run([]) == Start() by { EmptyRun(cfg); }
    Append(cfg, [], q[0]);
    assert [] + [q[0]] == [q[0]];
    Append(cfg, [q[0]], q[1]);
    var read := [q[0]] + [q[1]];
    assert (0, q[1].timelock) in Run(read).steps[tx].timelocks;
    assert Witnessed(cfg, Run(read).steps[tx], SampleRecord(cfg, tx, Queued), false);
    Append(cfg, read, q[2]);
    assert read + [q[2]] == q;
  }

  lemma EmptyRun(cfg: Config)
    ensures Accepts(cfg, []) && Run([]) == Start()
  {
  }

  /** Steps over two withdrawals interleave: the second begins and reads while the first is under way. */
  lemma TwoWithdrawalsInterleave(cfg: Config, a: TxId, b: TxId)
    requires a != b
    ensures Accepts(cfg, [Begin(a, Sample(cfg, a)), ReadProcessed(a, Some(false)), Begin(b, Sample(cfg, b)),
                          ReadProcessed(b, Some(false)), Submit(a, Sample(cfg, a)), Submit(b, Sample(cfg, b))])
  {
    hide Accepts, Run;
    var q := [Begin(a, Sample(cfg, a)), ReadProcessed(a, Some(false)), Begin(b, Sample(cfg, b)),
              ReadProcessed(b, Some(false)), Submit(a, Sample(cfg, a)), Submit(b, Sample(cfg, b))];
    EmptyRun(cfg);
    Append(cfg, [], q[0]);
    assert [] + [q[0]] == q[..1];
    Append(cfg, q[..1], q[1]);
    assert q[..1] + [q[1]] == q[..2];
    Append(cfg, q[..2], q[2]);
    assert q[..2] + [q[2]] == q[..3];
    Append(cfg, q[..3], q[3]);
    assert q[..3] + [q[3]] == q[..4];
    Append(cfg, q[..4], q[4]);
    assert q[..4] + [q[4]] == q[..5];
    Append(cfg, q[..5], q[5]);
    assert q[..5] + [q[5]] == q;
  }

  /**
   * Why two polls must not hold one record: each of the two alone keeps the discipline, but when the second runs
   * between the first one's status check and the rest of it, a record that needs an operator is dropped.
   */
  lemma OverlappingPollsDropAFlag(cfg: Config, tx: TxId)
    ensures var (q, a, b, id) := (QueuedRun(cfg, tx), FulfillingPoll(cfg, tx), FlaggingPoll(cfg, tx), cfg.idOf(tx));
            && Accepts(cfg, q + a) && Accepts(cfg, q + b)
            && Flagged(Run(q + a[..1] + b).queued, id) && id !in Run(q + a[..1] + b + a[1..]).queued
  {
    var q, a, b := QueuedRun(cfg, tx), FulfillingPoll(cfg, tx), FlaggingPoll(cfg, tx);
    FlaggingPollIsAccepted(cfg, tx);
    FulfillingPollIsAccepted(cfg, tx);
    var flagged, all := q + a[..1] + b, q + a[..1] + b + a[1..];
    assert flagged[|flagged| - 1] == b[1] && all[|all| - 1] == a[5];
  }

  /** The daemon accepted the fulfilment of `tx` at `j`, and the same step is still in hand. */
  ghost predicate AcceptedAt(log: Trace, j: nat, tx: TxId) {
    && j < |log| && log[j].Fulfil? && log[j].tx == tx && log[j].accepted
    && forall k | j < k < |log| :: !StartsStep(log[k], tx)
  }

  ghost predicate PaidStep(s: Seen, tx: TxId) {
    tx in s.steps && s.steps[tx].ended == Paid
  }

  lemma AcceptStep(cfg: Config, s: Seen, e: Event, tx: TxId)
    requires Allowed(cfg, s, e) && PaidStep(Next(s, e), tx)
    ensures !StartsStep(e, tx) && (!PaidStep(s, tx) ==> e.Fulfil? && e.tx == tx && e.accepted)
  {
    hide Fits;
    if Of(e, tx) {
      if !e.Begin? && !e.Resume? { OwnStep(cfg, s, e, tx); }
    } else if !e.Restart? {
      OtherStepsKeepStep(s, e, tx);
    }
  }

  lemma {:induction false} AcceptanceIsReal(cfg: Config, log: Trace, tx: TxId)
    requires Accepts(cfg, log) && PaidStep(Run(log), tx)
    ensures exists j: nat :: AcceptedAt(log, j, tx)
  {
    hide Allowed, Next, PaidStep;
    assert log != [] by { StartIsNotPaid(tx); }
    var front, e := log[..|log| - 1], log[|log| - 1];
    AcceptStep(cfg, Run(front), e, tx);
    if !PaidStep(Run(front), tx) {
      assert AcceptedAt(log, |front|, tx);
    } else {
      AcceptanceIsReal(cfg, front, tx);
      var j: nat :| AcceptedAt(front, j, tx);
      assert AcceptedAt(log, j, tx);
    }
  }

  lemma StartIsNotPaid(tx: TxId)
    ensures !PaidStep(Run([]), tx)
  {
  }

  /** A record leaves memory only in a step in which the daemon accepted its fulfilment, or at a restart. */
  lemma DroppedOnlyWhenFulfilled(cfg: Config, log: Trace, i: nat, id: Id)
    requires Accepts(cfg, log) && i < |log| && id in Run(log[..i]).queued && id !in Run(log[..i + 1]).queued
    ensures log[i].Restart? || exists j: nat, tx :: AcceptedAt(log[..i], j, tx) && cfg.idOf(tx) == id
  {
    hide Allowed, Next;
    EveryPrefix(cfg, log, i);
    QueueStep(cfg, Run(log[..i]), log[i], id);
    if !log[i].Restart? { AcceptanceIsReal(cfg, log[..i], log[i].tx); }
  }

  // ---------------------------------------------------------------- fulfilment

  ghost predicate SameStep(log: Trace, tx: TxId, i: nat, j: nat) {
    forall k | i < k < j && k < |log| :: !StartsStep(log[k], tx)
  }

  /** The event is in the trace, in the step over `tx` that is still in hand. */
  ghost predicate InHand(log: Trace, tx: TxId, e: Event) {
    exists j: nat :: j < |log| && log[j] == e && SameStep(log, tx, j, |log|)
  }

  lemma StaysInHand(log: Trace, tx: TxId, e: Event, next: Event)
    requires !StartsStep(next, tx)
    ensures InHand(log, tx, e) ==> InHand(log + [next], tx, e)
    ensures InHand(log + [next], tx, next)
  {
    var more := log + [next];
    assert more[|log|] == next && SameStep(more, tx, |log|, |more|);
    if InHand(log, tx, e) {
      var j: nat :| j < |log| && log[j] == e && SameStep(log, tx, j, |log|);
      assert more[j] == e && SameStep(more, tx, j, |more|);
    }
  }

  /** What a step has read, it has read. */
  ghost predicate ReadInHand(log: Trace, s: Seen, tx: TxId) {
    tx in s.steps ==>
      && (forall p | p in s.steps[tx].receipts :: InHand(log, tx, ReadReceipt(tx, p.0, p.1)))
      && (forall n | n in s.steps[tx].heads :: InHand(log, tx, ReadHead(tx, n)))
  }

  lemma ReadStep(cfg: Config, s: Seen, e: Event, tx: TxId)
    requires Allowed(cfg, s, e) && tx in Next(s, e).steps
    ensures StartsStep(e, tx) ==> Next(s, e).steps[tx].receipts == {} && Next(s, e).steps[tx].heads == {}
    ensures !StartsStep(e, tx) ==>
              && tx in s.steps
              && (forall p | p in Next(s, e).steps[tx].receipts ::
                  p in s.steps[tx].receipts || e == ReadReceipt(tx, p.0, p.1))
              && (forall n | n in Next(s, e).steps[tx].heads :: n in s.steps[tx].heads || e == ReadHead(tx, n))
  {
    hide Fits;
    if Of(e, tx) {
      if !e.Begin? && !e.Resume? { OwnStep(cfg, s, e, tx); }
    } else if !e.Restart? {
      OtherStepsKeepStep(s, e, tx);
    }
  }

  lemma {:induction false} ReadsAreReal(cfg: Config, log: Trace, tx: TxId)
    requires Accepts(cfg, log)
    ensures ReadInHand(log, Run(log), tx)
  {
    hide Allowed, Next, InHand;
    if log != [] {
      var front, e := log[..|log| - 1], log[|log| - 1];
      ReadsAreReal(cfg, front, tx);
      assert log == front + [e];
      var s, t := Run(front), Run(log);
      if tx in t.steps {
        ReadStep(cfg, s, e, tx);
        if !StartsStep(e, tx) {
          forall p | p in t.steps[tx].receipts ensures InHand(log, tx, ReadReceipt(tx, p.0, p.1)) {
            StaysInHand(front, tx, ReadReceipt(tx, p.0, p.1), e);
          }
          forall n | n in t.steps[tx].heads ensures InHand(log, tx, ReadHead(tx, n)) {
            StaysInHand(front, tx, ReadHead(tx, n), e);
          }
        }
      }
    }
  }

  /** The receipts and head that justify a fulfilment, all read in the step in hand. */
  ghost predicate Justifies(cfg: Config, log: Trace, tx: TxId, exp: Release, hash: Hash, paid: Receipt, mined: Receipt,
                            head: nat) {
    && InHand(log, tx, ReadReceipt(tx, hash, paid)) && paid.success && VerifyReleaseLogs(cfg, paid.logs, exp)
    && InHand(log, tx, ReadReceipt(tx, hash, mined)) && mined.block.Some?
    && InHand(log, tx, ReadHead(tx, head)) && Depth(head, mined.block.value) >= RequiredDepth(cfg)
  }

  /** Each fulfilment names a verified, deep enough payment of what that withdrawal is owed, read in that same step. */
  lemma FulfilmentIsSound(cfg: Config, log: Trace, i: nat)
    requires Accepts(cfg, log) && i < |log| && log[i].Fulfil?
    ensures log[i].release.id == cfg.idOf(log[i].tx) && Begin(log[i].tx, log[i].release) in log[..i]
    ensures exists paid, mined, head: nat ::
              Justifies(cfg, log[..i], log[i].tx, log[i].release, log[i].hash, paid, mined, head)
    ensures RequiredDepth(cfg) >= cfg.confirmations && RequiredDepth(cfg) >= cfg.daemonMinimum
  {
    hide Accepts, Run, Next, VerifyReleaseLogs, InHand;
    EveryPrefix(cfg, log, i);
    AlwaysInStep(cfg, log[..i]);
    OwedIsListed(cfg, log[..i]);
    ReadsAreReal(cfg, log[..i], log[i].tx);
    var st, hash := Run(log[..i]).steps[log[i].tx], log[i].hash;
    var p :| p in st.receipts && p.0 == hash && p.1.success && VerifyReleaseLogs(cfg, p.1.logs, st.owed);
    var q, head: nat :| q in st.receipts && head in st.heads && q.0 == hash && q.1.block.Some?
                        && Depth(head, q.1.block.value) >= RequiredDepth(cfg);
    assert Justifies(cfg, log[..i], log[i].tx, log[i].release, hash, p.1, q.1, head);
  }

  // ---------------------------------------------------------------- failed scans

  /** An event that moves money or state. */
  predicate IsEffect(e: Event) {
    MovesMoney(e) || e.Persist?
  }

  predicate MovesMoney(e: Event) {
    e.Submit? || e.Fulfil? || e.Report? || e.Refund?
  }

  /** After a failed scan nothing is released, fulfilled, persisted, reported or refunded in that step. */
  lemma FailedScanIsQuiet(cfg: Config, log: Trace, i: nat, j: nat)
    requires Accepts(cfg, log) && i < j < |log| && log[i].ScanFailed? && Of(log[j], log[i].tx)
             && SameStep(log, log[i].tx, i, j)
    ensures !IsEffect(log[j])
  {
    hide Allowed, Next, Accepts, Run;
    EveryPrefix(cfg, log, j);
    StaysFailed(cfg, log, i, j);
    FailStep(cfg, Run(log[..j]), log[j], log[i].tx);
  }

  /** If the step is still in hand, a scan in it failed. */
  ghost predicate Failed(s: Seen, tx: TxId) {
    tx in s.steps ==> s.steps[tx].scanFailed
  }

  lemma FailStep(cfg: Config, s: Seen, e: Event, tx: TxId)
    requires Allowed(cfg, s, e)
    ensures Failed(s, tx) && Of(e, tx) && !StartsStep(e, tx) ==> !IsEffect(e)
    ensures e == ScanFailed(tx) || (Failed(s, tx) && !StartsStep(e, tx)) ==> Failed(Next(s, e), tx)
  {
    hide PaidBy, DeepEnough, Witnessed, StillQueued;
    if !Of(e, tx) && !e.Restart? { OtherStepsKeepStep(s, e, tx); }
  }

  lemma {:induction false} StaysFailed(cfg: Config, log: Trace, i: nat, j: nat)
    requires Accepts(cfg, log) && i < j <= |log| && log[i].ScanFailed? && SameStep(log, log[i].tx, i, j)
    ensures Failed(Run(log[..j]), log[i].tx)
    decreases j
  {
    hide Allowed, Next, Accepts, Run, Failed;
    EveryPrefix(cfg, log, j - 1);
    FailStep(cfg, Run(log[..j - 1]), log[j - 1], log[i].tx);
    if i < j - 1 { StaysFailed(cfg, log, i, j - 1); }
  }

  /** The last timelock entry read before `i`, in the step over `tx` in hand then, is `t`, read at `a`. */
  ghost predicate LastEntry(log: Trace, tx: TxId, a: nat, i: nat, t: Timelock) {
    && a < i <= |log| && Of(log[a], tx) && log[a].ReadTimelock? && log[a].timelock == t
    && forall k | a < k < i :: !(Of(log[k], tx) && log[k].ReadTimelock?) && !StartsStep(log[k], tx)
  }

  function EntryOf(s: Seen, tx: TxId): Option<Timelock> {
    if tx in s.steps then s.steps[tx].entry else None
  }

  lemma EntryStep(cfg: Config, s: Seen, e: Event, tx: TxId)
    requires Allowed(cfg, s, e) && EntryOf(Next(s, e), tx).Some?
    ensures !StartsStep(e, tx)
    ensures EntryOf(Next(s, e), tx) == if Of(e, tx) && e.ReadTimelock? then Some(e.timelock) else EntryOf(s, tx)
  {
    hide Fits;
    if Of(e, tx) {
      if !e.Begin? && !e.Resume? { OwnStep(cfg, s, e, tx); }
    } else if !e.Restart? {
      OtherStepsKeepStep(s, e, tx);
    }
  }

  lemma {:induction false} EntryIsReal(cfg: Config, log: Trace, i: nat, tx: TxId)
    requires Accepts(cfg, log) && i <= |log| && EntryOf(Run(log[..i]), tx).Some?
    ensures exists a: nat :: LastEntry(log, tx, a, i, EntryOf(Run(log[..i]), tx).value)
    decreases i
  {
    hide Allowed, Next, Accepts, EntryOf;
    assert i > 0 by { NoEntryAtStart(tx); }
    EveryPrefix(cfg, log, i - 1);
    var s, e, t := Run(log[..i - 1]), log[i - 1], EntryOf(Run(log[..i]), tx).value;
    EntryStep(cfg, s, e, tx);
    if Of(e, tx) && e.ReadTimelock? {
      assert LastEntry(log, tx, i - 1, i, t);
    } else {
      EntryIsReal(cfg, log, i - 1, tx);
      var a: nat :| LastEntry(log, tx, a, i - 1, t);
      assert LastEntry(log, tx, a, i, t);
    }
  }

  lemma NoEntryAtStart(tx: TxId)
    ensures EntryOf(Run([]), tx).None?
  {
  }

  /** If the step is still in hand, its scan for a cancellation event failed. */
  ghost predicate IsBlind(s: Seen, tx: TxId, cancelled: bool, reread: bool) {
    tx in s.steps ==> s.steps[tx].cancelScan == Blind(cancelled, reread)
  }

  lemma BlindStep(cfg: Config, s: Seen, e: Event, tx: TxId, cancelled: bool, reread: bool)
    requires Allowed(cfg, s, e) && !StartsStep(e, tx)
    ensures e == CancelScanFailed(tx) ==>
              IsBlind(Next(s, e), tx, EntryOf(s, tx).Some? && EntryOf(s, tx).value.cancelled, false)
    ensures IsBlind(s, tx, cancelled, reread) && Of(e, tx) ==> !MovesMoney(e) && (e.Persist? ==> cancelled && reread)
    ensures IsBlind(s, tx, cancelled, reread) ==>
              IsBlind(Next(s, e), tx, cancelled, reread || (Of(e, tx) && e.ReadTimelock?))
  {
    hide PaidBy, DeepEnough, Witnessed, StillQueued;
    if !Of(e, tx) { OtherStepsKeepStep(s, e, tx); }
  }

  lemma {:induction false} StaysBlind(cfg: Config, log: Trace, i: nat, j: nat, tx: TxId) returns (reread: bool)
    requires Accepts(cfg, log) && i < j <= |log| && log[i] == CancelScanFailed(tx) && SameStep(log, tx, i, j)
    ensures var before := EntryOf(Run(log[..i]), tx);
            IsBlind(Run(log[..j]), tx, before.Some? && before.value.cancelled, reread)
    ensures reread ==> exists k :: i < k < j && Of(log[k], tx) && log[k].ReadTimelock?
    decreases j
  {
    hide Allowed, Next, Accepts, Run, IsBlind, EntryOf;
    EveryPrefix(cfg, log, j - 1);
    var before := EntryOf(Run(log[..i]), tx);
    reread := false;
    if i < j - 1 { reread := StaysBlind(cfg, log, i, j - 1, tx); }
    BlindStep(cfg, Run(log[..j - 1]), log[j - 1], tx, before.Some? && before.value.cancelled, reread);
    if i < j - 1 { reread := reread || (Of(log[j - 1], tx) && log[j - 1].ReadTimelock?); }
  }

  /**
   * After a failed scan for a cancellation event nothing is released, fulfilled, reported or refunded in that
   * step either. A record is written only if the entry read before the scan said cancelled and an entry was read
   * after it.
   */
  lemma FailedCancelScanMovesNothing(cfg: Config, log: Trace, i: nat, j: nat, tx: TxId)
    requires Accepts(cfg, log) && i < j < |log| && log[i] == CancelScanFailed(tx) && Of(log[j], tx)
             && SameStep(log, tx, i, j + 1)
    ensures !MovesMoney(log[j])
    ensures log[j].Persist? ==>
              && (exists a: nat, t :: LastEntry(log, tx, a, i, t) && t.cancelled)
              && (exists k :: i < k < j && Of(log[k], tx) && log[k].ReadTimelock?)
  {
    hide Allowed, Next, Accepts, Run, IsBlind, EntryOf;
    EveryPrefix(cfg, log, j);
    var reread := StaysBlind(cfg, log, i, j, tx);
    var before := EntryOf(Run(log[..i]), tx);
    BlindStep(cfg, Run(log[..j]), log[j], tx, before.Some? && before.value.cancelled, reread);
    if log[j].Persist? {
      EntryIsReal(cfg, log, i, tx);
      var a: nat :| LastEntry(log, tx, a, i, before.value);
    }
  }

  // ---------------------------------------------------------------- paid or refunded, never both

  function SightOf(e: Event): Sight {
    match e
    case ReadProcessed(tx, processed) => Asked(tx, processed)
    case Submit(tx, _) => Sent(tx)
    case _ => Other
  }

  /** What the trace shows of releases that landed, by withdrawal. */
  function View(log: Trace): seq<Sight> {
    seq(|log|, i requires 0 <= i < |log| => SightOf(log[i]))
  }

  /**
   * `landed` could be what the bridge accepted: its answers were true, and nothing that it accepted was in flight
   * unseen.
   */
  ghost predicate Explains(log: Trace, landed: Landings) {
    Truthful(View(log), landed) && NoneInFlight(View(log), landed)
  }

  ghost predicate RefundedAt(log: Trace, r: nat, tx: TxId) {
    r < |log| && log[r] == Refund(tx, true)
  }

  /** The withdrawal was taken up again at `b`: the daemon listed it, and it was not marked. */
  ghost predicate TakenUpAt(log: Trace, b: nat, tx: TxId) {
    b < |log| && log[b].Begin? && log[b].tx == tx
  }

  /** Nothing the relayer holds, in memory or on file, lets it act for `tx` before it takes it up again. */
  ghost predicate Done(cfg: Config, s: Seen, tx: TxId) {
    cfg.idOf(tx) !in s.queued && cfg.idOf(tx) !in s.queueFile && (tx in s.steps ==> s.steps[tx].ended != Open)
  }

  lemma DoneHasNoRecord(cfg: Config, s: Seen, e: Event, tx: TxId)
    requires StepsOk(cfg, s) && Allowed(cfg, s, e) && Done(cfg, s, tx)
    ensures cfg.idOf(tx) !in Next(s, e).queued && cfg.idOf(tx) !in Next(s, e).queueFile
  {
    hide PaidBy, DeepEnough, Witnessed, StillQueued;
    assert forall a :: cfg.idOf(a) == cfg.idOf(tx) ==> a == tx;
  }

  lemma DoneStaysOver(cfg: Config, s: Seen, e: Event, tx: TxId)
    requires Allowed(cfg, s, e) && Done(cfg, s, tx) && !(e.Begin? && e.tx == tx)
    ensures tx in Next(s, e).steps ==> Next(s, e).steps[tx].ended != Open
    ensures !(e.Submit? && e.tx == tx)
  {
    hide PaidBy, DeepEnough, Witnessed, StillQueued;
    if !Of(e, tx) && !e.Restart? { OtherStepsKeepStep(s, e, tx); }
  }

  lemma DoneStep(cfg: Config, s: Seen, e: Event, tx: TxId)
    requires InStep(cfg, s) && Allowed(cfg, s, e) && Done(cfg, s, tx) && !(e.Begin? && e.tx == tx)
    ensures Done(cfg, Next(s, e), tx) && !(e.Submit? && e.tx == tx)
  {
    hide Allowed, Next, StepsOk, Keyed, FlagsAgree, DropsAreMarked;
    DoneHasNoRecord(cfg, s, e, tx);
    DoneStaysOver(cfg, s, e, tx);
  }

  lemma RefundIsDone(cfg: Config, s: Seen, tx: TxId)
    requires InStep(cfg, s) && Allowed(cfg, s, Refund(tx, true))
    ensures Done(cfg, Next(s, Refund(tx, true)), tx)
  {
    hide InStep, Fits;
    SubmitsHaveNoRecord(cfg, s, Refund(tx, true));
  }

  lemma {:induction false} DoneUntilTakenUp(cfg: Config, log: Trace, r: nat, n: nat, tx: TxId)
    requires Accepts(cfg, log) && RefundedAt(log, r, tx) && r < n <= |log|
    requires forall b: nat | r < b < n :: !TakenUpAt(log, b, tx)
    ensures Done(cfg, Run(log[..n]), tx)
    decreases n
  {
    hide Allowed, Next, Accepts, Run, InStep, Done;
    EveryPrefix(cfg, log, n - 1);
    AlwaysInStep(cfg, log[..n - 1]);
    if r < n - 1 {
      assert !TakenUpAt(log, n - 1, tx);
      DoneUntilTakenUp(cfg, log, r, n - 1, tx);
      DoneStep(cfg, Run(log[..n - 1]), log[n - 1], tx);
    } else {
      RefundIsDone(cfg, Run(log[..n - 1]), tx);
    }
  }

  /** A withdrawal that was refunded and not taken up again is not paid as well. */
  lemma NeverPaidAndRefunded(cfg: Config, log: Trace, landed: Landings, r: nat, tx: TxId)
    requires Accepts(cfg, log) && Explains(log, landed) && RefundedAt(log, r, tx)
    requires forall b: nat | r < b :: !TakenUpAt(log, b, tx)
    ensures tx !in landed
  {
    hide Allowed, Accepts, Run, Next, InStep, Done;
    RefundFollowsTwoFalseReads(cfg, log, r);
    var j: nat :| FalseReadAt(log[..r], j, tx);
    assert log[j] == ReadProcessed(tx, Some(false));
    if tx in landed {
      LandsAfterASend(View(log), landed, j, tx);
      var k: nat :| SentBetween(View(log), j, k, landed[tx], tx);
      if k > r {
        EveryPrefix(cfg, log, k);
        AlwaysInStep(cfg, log[..k]);
        DoneUntilTakenUp(cfg, log, r, k, tx);
        DoneStep(cfg, Run(log[..k]), log[k], tx);
      }
    }
  }

  // ---------------------------------------------------------------- lost marks

  /** At `k` the process ended, and the mark of `tx` was not on file. */
  ghost predicate MarkLostAt(log: Trace, k: nat, tx: TxId) {
    k < |log| && log[k].Restart? && tx !in Run(log[..k]).processedFile
  }

  /** Refunded, and the mark follows in the same step or has been made. */
  ghost predicate Noted(s: Seen, tx: TxId) {
    tx in s.processed || (tx in s.steps && s.steps[tx].ended == Repaid)
  }

  lemma NotedStep(cfg: Config, s: Seen, e: Event, tx: TxId)
    requires Allowed(cfg, s, e)
    ensures e == Refund(tx, true) ==> Noted(Next(s, e), tx)
    ensures Noted(s, tx) && (e.Restart? ==> tx in s.processedFile) ==>
              Noted(Next(s, e), tx) && !(e.Begin? && e.tx == tx)
  {
    hide PaidBy, DeepEnough, Witnessed, StillQueued;
    if !Of(e, tx) && !e.Restart? { OtherStepsKeepStep(s, e, tx); }
  }

  /** A refunded withdrawal is taken up again only after a process ended before the mark was on file. */
  lemma {:induction false} TakenUpOnlyAfterALostMark(cfg: Config, log: Trace, r: nat, n: nat, tx: TxId)
    requires Accepts(cfg, log) && RefundedAt(log, r, tx) && r < n <= |log|
    ensures Noted(Run(log[..n]), tx) || exists k: nat :: r < k < n && MarkLostAt(log, k, tx)
    ensures n < |log| && TakenUpAt(log, n, tx) ==> exists k: nat :: r < k < n && MarkLostAt(log, k, tx)
    decreases n
  {
    hide Allowed, Next, Accepts, Run, Noted;
    EveryPrefix(cfg, log, n - 1);
    NotedStep(cfg, Run(log[..n - 1]), log[n - 1], tx);
    if r < n - 1 {
      TakenUpOnlyAfterALostMark(cfg, log, r, n - 1, tx);
      if log[n - 1].Restart? && tx !in Run(log[..n - 1]).processedFile {
        assert MarkLostAt(log, n - 1, tx);
      }
    }
    if n < |log| && TakenUpAt(log, n, tx) {
      EveryPrefix(cfg, log, n);
      NotedStep(cfg, Run(log[..n]), log[n], tx);
    }
  }

  lemma MarkedStep(cfg: Config, s: Seen, e: Event, tx: TxId)
    requires InStep(cfg, s) && Allowed(cfg, s, e) && tx in s.processedFile
    ensures tx in Next(s, e).processedFile && !(e.Begin? && e.tx == tx)
  {
    hide Fits, Advance;
  }

  /** A mark on file is for ever: that withdrawal is never taken up again. */
  lemma {:induction false} MarkedForever(cfg: Config, log: Trace, i: nat, n: nat, tx: TxId)
    requires Accepts(cfg, log) && i <= n <= |log| && tx in Run(log[..i]).processedFile
    ensures tx in Run(log[..n]).processedFile && !TakenUpAt(log, n, tx)
    decreases n
  {
    hide Allowed, Next, Accepts, Run, InStep;
    if i < n {
      MarkedForever(cfg, log, i, n - 1, tx);
      EveryPrefix(cfg, log, n - 1);
      AlwaysInStep(cfg, log[..n - 1]);
      MarkedStep(cfg, Run(log[..n - 1]), log[n - 1], tx);
    }
    if n < |log| {
      EveryPrefix(cfg, log, n);
      AlwaysInStep(cfg, log[..n]);
      MarkedStep(cfg, Run(log[..n]), log[n], tx);
    }
  }

  /** Some continuation of this run, with the bridge still truthful, ends with `tx` paid. */
  ghost predicate MayBePaid(cfg: Config, log: Trace, tx: TxId) {
    exists more: Trace, landed: Landings :: PaidIn(cfg, log + more, landed, tx)
  }

  ghost predicate PaidIn(cfg: Config, log: Trace, landed: Landings, tx: TxId) {
    Accepts(cfg, log) && Explains(log, landed) && tx in landed
  }

  /**
   * A process that ends before the mark is on file, a daemon that still lists the withdrawal, and the next process
   * pays it.
   */
  function PaidAgain(tx: TxId, exp: Release): Trace {
    [Restart, Begin(tx, exp), ReadProcessed(tx, Some(false)), Submit(tx, exp)]
  }

  lemma PaidAgainIsAccepted(cfg: Config, log: Trace, tx: TxId, exp: Release)
    requires Accepts(cfg, log) && exp.id == cfg.idOf(tx)
    requires tx !in Run(log).processedFile && exp.id !in Run(log).queueFile
    ensures Accepts(cfg, log + PaidAgain(tx, exp))
  {
    hide Accepts, Run, PaidBy, DeepEnough, Witnessed;
    var more := PaidAgain(tx, exp);
    Append(cfg, log, more[0]);
    assert log + [more[0]] == log + more[..1];
    Append(cfg, log + more[..1], more[1]);
    assert log + more[..1] + [more[1]] == log + more[..2];
    Append(cfg, log + more[..2], more[2]);
    assert log + more[..2] + [more[2]] == log + more[..3];
    Append(cfg, log + more[..3], more[3]);
    assert log + more[..3] + [more[3]] == log + more;
  }

  /**
   * The exact condition. A refunded withdrawal that has not been taken up again may still be paid if and only if
   * its mark is not on file: the process may end between the refund and the mark, or the save may have failed.
   */
  lemma PaidAfterRefundIff(cfg: Config, log: Trace, landed: Landings, r: nat, tx: TxId, exp: Release)
    requires Accepts(cfg, log) && Explains(log, landed) && RefundedAt(log, r, tx)
    requires forall b: nat | r < b :: !TakenUpAt(log, b, tx)
    requires exp.id == cfg.idOf(tx)
    ensures MayBePaid(cfg, log, tx) <==> tx !in Run(log).processedFile
  {
    hide Accepts, Run, Allowed, Next, Explains, Done;
    assert log[..|log|] == log;
    if tx in Run(log).processedFile {
      forall more: Trace, later: Landings | PaidIn(cfg, log + more, later, tx) ensures false {
        StaysUnpaid(cfg, log, more, later, r, tx);
      }
    } else {
      var more := PaidAgain(tx, exp);
      NeverPaidAndRefunded(cfg, log, landed, r, tx);
      assert exp.id !in Run(log).queueFile by {
        DoneUntilTakenUp(cfg, log, r, |log|, tx);
        DoneMeansOffFile(cfg, Run(log), tx);
      }
      PaidAgainIsAccepted(cfg, log, tx, exp);
      PaidAgainIsExplained(log, landed, tx, exp);
      assert PaidIn(cfg, log + more, landed[tx := |log + more|], tx);
    }
  }

  lemma DoneMeansOffFile(cfg: Config, s: Seen, tx: TxId)
    requires Done(cfg, s, tx)
    ensures cfg.idOf(tx) !in s.queueFile
  {
  }

  lemma PaidAgainIsExplained(log: Trace, landed: Landings, tx: TxId, exp: Release)
    requires Explains(log, landed) && tx !in landed
    ensures Explains(log + PaidAgain(tx, exp), landed[tx := |log + PaidAgain(tx, exp)|])
  {
    hide Truthful, NoneInFlight;
    var more := PaidAgain(tx, exp);
    assert View(log + more) == View(log) + View(more);
    assert View(more) == [Other, Other, Asked(tx, Some(false)), Sent(tx)];
    MayLandAtTheEnd(View(log), View(more), landed, tx);
  }

  lemma StaysUnpaid(cfg: Config, log: Trace, more: Trace, landed: Landings, r: nat, tx: TxId)
    requires Accepts(cfg, log + more) && Explains(log + more, landed) && RefundedAt(log, r, tx)
    requires (forall b: nat | r < b :: !TakenUpAt(log, b, tx)) && tx in Run(log).processedFile
    ensures tx !in landed
  {
    hide Accepts, Run, Allowed, Next, Explains;
    var all := log + more;
    assert all[..|log|] == log;
    forall b: nat | r < b ensures !TakenUpAt(all, b, tx) {
      if b < |log| {
        assert !TakenUpAt(log, b, tx);
      } else if b < |all| {
        MarkedForever(cfg, all, |log|, b, tx);
      }
    }
    NeverPaidAndRefunded(cfg, all, landed, r, tx);
  }
}
