/**
 * The XRGE side of the bridge relayer: release from the vault, fulfil once deep enough, report a
 * failure only when the vault says again that nothing was paid. Every dependency may give any answer
 * or throw (`None`), and at every call other steps of the same process, over other withdrawals, may come in between.
 */
module XrgeRelayer {
  import opened Common
  import opened Landing

  type TxId = string
  type Address = string
  type Hash = nat

  datatype Withdrawal = Withdrawal(tx: TxId, recipient: Address, amount: nat)
  datatype VaultLog = VaultLog(hash: Hash, block: nat, recipient: Address, amount: nat)
  datatype Payout = Payout(hash: Hash, block: nat)

  const WEI_PER_XRGE: nat := 1_000_000_000_000_000_000

  /** The payment is the only release found for this id, to this recipient, of exactly this amount. */
  predicate IsTheRelease(w: Withdrawal, hits: seq<VaultLog>, p: Payout) {
    hits == [VaultLog(p.hash, p.block, w.recipient, w.amount * WEI_PER_XRGE)]
  }

  // ---------------------------------------------------------------- traces

  datatype Event =
    | Begin(w: Withdrawal)
    | ReadProcessed(tx: TxId, processed: Option<bool>)
    | Submit(w: Withdrawal)
    | Mined(tx: TxId, payout: Payout)
    | Located(w: Withdrawal, hits: seq<VaultLog>)
    | ReadHead(tx: TxId, head: nat)
    | Fulfil(tx: TxId, payout: Payout, accepted: bool)
    | Defer(tx: TxId, payout: Payout)
    | Forget(tx: TxId)
    | Report(tx: TxId)
    | Refund(tx: TxId, done: bool)
    | Mark(tx: TxId)
    | End(tx: TxId)
    | SaveProcessed
    | Restart
  type Trace = seq<Event>

  /** The withdrawal an event is about; `None` for what concerns the whole process. */
  function TxOf(e: Event): Option<TxId> {
    match e
    case Begin(w) => Some(w.tx)
    case ReadProcessed(tx, _) => Some(tx)
    case Submit(w) => Some(w.tx)
    case Mined(tx, _) => Some(tx)
    case Located(w, _) => Some(w.tx)
    case ReadHead(tx, _) => Some(tx)
    case Fulfil(tx, _, _) => Some(tx)
    case Defer(tx, _) => Some(tx)
    case Forget(tx) => Some(tx)
    case Report(tx) => Some(tx)
    case Refund(tx, _) => Some(tx)
    case Mark(tx) => Some(tx)
    case End(tx) => Some(tx)
    case SaveProcessed => None
    case Restart => None
  }

  predicate Of(e: Event, tx: TxId) {
    TxOf(e) == Some(tx)
  }

  /** One step in hand. `free`: the latest answer since it began, or since it submitted, is "not processed". */
  datatype Step = Step(w: Withdrawal, submitted: bool, free: bool, ended: Ending, heads: set<nat>)

  function Opened(w: Withdrawal): Step {
    Step(w, false, false, Open, {})
  }

  function Advance(st: Step, e: Event): Step {
    match e
    case ReadProcessed(_, processed) => st.(free := processed == Some(false))
    case Submit(_) => st.(submitted := true, free := false)
    case ReadHead(_, head) => st.(heads := st.heads + {head})
    case Fulfil(_, _, accepted) => if accepted then st.(ended := Paid) else st
    case Refund(_, done) => if done then st.(ended := Repaid) else st
    case _ => st
  }

  /**
   * What a run has established: the steps in hand, by withdrawal, the payouts known, and what is remembered.
   * `processedFile` is what a restart would load; the pending payouts are only in memory.
   */
  datatype Seen = Seen(steps: map<TxId, Step>, known: set<(TxId, Payout)>, pending: map<TxId, Payout>,
                       processed: set<TxId>, processedFile: set<TxId>)

  function Start(): Seen {
    Seen(map[], {}, map[], {}, {})
  }

  function Next(s: Seen, e: Event): Seen {
    match e
    case Begin(w) => s.(steps := s.steps[w.tx := Opened(w)])
    case End(tx) => s.(steps := s.steps - {tx})
    case SaveProcessed => s.(processedFile := s.processed)
    case Restart => Seen(map[], s.known, map[], s.processedFile, s.processedFile)
    case _ =>
      var tx := TxOf(e).value;
      Remember(s, e).(steps := if tx in s.steps then s.steps[tx := Advance(s.steps[tx], e)] else s.steps)
  }

  function Remember(s: Seen, e: Event): Seen {
    match e
    case Mined(tx, payout) => s.(known := s.known + {(tx, payout)})
    case Located(w, hits) =>
      if |hits| == 1 && IsTheRelease(w, hits, Payout(hits[0].hash, hits[0].block))
      then s.(known := s.known + {(w.tx, Payout(hits[0].hash, hits[0].block))}) else s
    case Defer(tx, payout) => s.(pending := s.pending[tx := payout])
    case Forget(tx) => s.(pending := s.pending - {tx})
    case Mark(tx) => s.(processed := s.processed + {tx})
    case _ => s
  }

  predicate DeepEnough(depth: nat, st: Step, p: Payout) {
    exists head | head in st.heads :: Depth(head, p.block) >= depth
  }

  /** A step that refunded is over only when the refund is marked. */
  predicate Fits(depth: nat, s: Seen, st: Step, e: Event) {
    match e
    case Submit(w) => st.w == w && st.ended == Open && st.free && !st.submitted
    case Mined(_, _) => st.submitted
    case Located(w, _) => st.w == w && !st.submitted
    case Fulfil(tx, p, _) => st.ended == Open && (tx, p) in s.known && DeepEnough(depth, st, p)
    case Defer(tx, p) => (tx, p) in s.known
    case Forget(_) => st.ended == Paid
    case Report(_) => st.ended == Open && st.submitted && st.free
    case Refund(_, _) => st.ended == Open && st.submitted && st.free
    case Mark(_) => st.ended != Open
    case End(tx) => st.ended == Repaid ==> tx in s.processed
    case _ => true
  }

  /** Steps over different withdrawals come in any order between one another; one withdrawal has one step at a time. */
  predicate Allowed(depth: nat, s: Seen, e: Event) {
    match e
    case Begin(w) => w.tx !in s.steps && w.tx !in s.processed
    case SaveProcessed => true
    case Restart => true
    case _ => TxOf(e).value in s.steps && Fits(depth, s, s.steps[TxOf(e).value], e)
  }

  function Run(log: Trace): Seen {
    if log == [] then Start() else Next(Run(log[..|log| - 1]), log[|log| - 1])
  }

  ghost predicate Accepts(depth: nat, log: Trace) {
    log == [] || (Accepts(depth, log[..|log| - 1]) && Allowed(depth, Run(log[..|log| - 1]), log[|log| - 1]))
  }

  lemma Append(depth: nat, log: Trace, e: Event)
    requires Accepts(depth, log) && Allowed(depth, Run(log), e)
    ensures Accepts(depth, log + [e]) && Run(log + [e]) == Next(Run(log), e)
  {
    hide Allowed, Next;
    assert (log + [e])[..|log|] == log;
  }

  lemma {:induction false} EveryPrefix(depth: nat, log: Trace, i: nat)
    requires Accepts(depth, log) && i < |log|
    ensures Accepts(depth, log[..i]) && Allowed(depth, Run(log[..i]), log[i])
    ensures Run(log[..i + 1]) == Next(Run(log[..i]), log[i])
    decreases |log|
  {
    hide Allowed, Next;
    var front := log[..|log| - 1];
    assert log[..i + 1][..i] == log[..i];
    if i < |log| - 1 {
      EveryPrefix(depth, front, i);
      assert front[..i] == log[..i];
    } else {
      assert log[..i + 1] == log;
    }
  }

  /** What others do to a withdrawal that is in hand: nothing. */
  lemma OtherStepsKeep(s: Seen, e: Event, tx: TxId)
    requires !Of(e, tx) && !e.Restart?
    ensures tx in Next(s, e).steps <==> tx in s.steps
    ensures tx in s.steps ==> Next(s, e).steps[tx] == s.steps[tx]
    ensures tx in Next(s, e).pending <==> tx in s.pending
    ensures tx in s.pending ==> Next(s, e).pending[tx] == s.pending[tx]
    ensures (tx in Next(s, e).processed <==> tx in s.processed) && s.known <= Next(s, e).known
  {
    hide IsTheRelease;
  }

  /** A step over `tx` begins or ends here. */
  predicate Bounds(e: Event, tx: TxId) {
    e.Restart? || (Of(e, tx) && (e.Begin? || e.End?))
  }

  /** `log[k]` is an event of the step over `tx` that is in hand after all of `log`. */
  ghost predicate InHand(log: Trace, k: nat, tx: TxId) {
    k < |log| && Of(log[k], tx) && forall m | k < m < |log| :: !Bounds(log[m], tx)
  }

  /** A "not processed" answer at `j`, in the step in hand, and since then no submission or other answer for `tx`. */
  ghost predicate FreeSince(log: Trace, j: nat, tx: TxId) {
    && InHand(log, j, tx) && log[j] == ReadProcessed(tx, Some(false))
    && forall k | j < k < |log| && Of(log[k], tx) :: !log[k].Submit? && !log[k].ReadProcessed?
  }

  predicate IsFree(s: Seen, tx: TxId) {
    tx in s.steps && s.steps[tx].free
  }

  lemma FreeStep(s: Seen, e: Event, tx: TxId)
    requires IsFree(Next(s, e), tx)
    ensures !Bounds(e, tx) && !(Of(e, tx) && e.Submit?)
    ensures Of(e, tx) && e.ReadProcessed? ==> e == ReadProcessed(tx, Some(false))
    ensures !(Of(e, tx) && e.ReadProcessed?) ==> IsFree(s, tx)
  {
    hide Remember;
  }

  lemma {:induction false} FreeIsReal(log: Trace, tx: TxId)
    requires IsFree(Run(log), tx)
    ensures exists j: nat :: FreeSince(log, j, tx)
  {
    hide Next, IsFree;
    NotFreeAtStart(log, tx);
    var front, e := log[..|log| - 1], log[|log| - 1];
    FreeStep(Run(front), e, tx);
    if Of(e, tx) && e.ReadProcessed? {
      assert FreeSince(log, |front|, tx);
    } else {
      FreeIsReal(front, tx);
      var j: nat :| FreeSince(front, j, tx);
      assert FreeSince(log, j, tx);
    }
  }

  lemma NotFreeAtStart(log: Trace, tx: TxId)
    requires IsFree(Run(log), tx) || HasSubmitted(Run(log), tx)
    ensures log != []
  {
  }

  /** The step in hand submitted at `j`. */
  ghost predicate SubmittedAt(log: Trace, j: nat, tx: TxId) {
    && InHand(log, j, tx) && log[j].Submit?
    && forall k | j < k < |log| && Of(log[k], tx) :: !log[k].Submit?
  }

  predicate HasSubmitted(s: Seen, tx: TxId) {
    tx in s.steps && s.steps[tx].submitted
  }

  lemma SubmittedStep(s: Seen, e: Event, tx: TxId)
    requires HasSubmitted(Next(s, e), tx)
    ensures !Bounds(e, tx) && (HasSubmitted(s, tx) || (Of(e, tx) && e.Submit?))
  {
    hide Remember;
  }

  lemma {:induction false} SubmittedIsReal(depth: nat, log: Trace, tx: TxId)
    requires HasSubmitted(Run(log), tx)
    ensures exists j: nat :: SubmittedAt(log, j, tx)
  {
    hide Next, HasSubmitted;
    NotFreeAtStart(log, tx);
    var front, e := log[..|log| - 1], log[|log| - 1];
    SubmittedStep(Run(front), e, tx);
    if Of(e, tx) && e.Submit? {
      assert SubmittedAt(log, |front|, tx);
    } else {
      SubmittedIsReal(depth, front, tx);
      var j: nat :| SubmittedAt(front, j, tx);
      assert SubmittedAt(log, j, tx);
    }
  }

  /** Nothing is released unless the vault has just said, in the same step, that the id is not processed. */
  lemma SubmitFollowsAFalseRead(depth: nat, log: Trace, i: nat)
    requires Accepts(depth, log) && i < |log| && log[i].Submit?
    ensures exists j: nat :: FreeSince(log[..i], j, log[i].w.tx)
  {
    EveryPrefix(depth, log, i);
    FreeIsReal(log[..i], log[i].w.tx);
  }

  /** A failure report or refund follows its own release and, after that, a second "not processed" answer. */
  lemma FailureFollowsAReRead(depth: nat, log: Trace, i: nat)
    requires Accepts(depth, log) && i < |log| && (log[i].Report? || log[i].Refund?)
    ensures exists j: nat, k: nat :: j < k && SubmittedAt(log[..i], j, log[i].tx) && FreeSince(log[..i], k, log[i].tx)
  {
    EveryPrefix(depth, log, i);
    var front, tx := log[..i], log[i].tx;
    FreeIsReal(front, tx);
    SubmittedIsReal(depth, front, tx);
    var j: nat :| SubmittedAt(front, j, tx);
    var k: nat :| FreeSince(front, k, tx);
    assert Of(front[j], tx) && front[j].Submit? && front[k].ReadProcessed?;
    assert j < k && SubmittedAt(front, j, tx) && FreeSince(front, k, tx);
  }

  lemma KnownStep(s: Seen, e: Event, tx: TxId, p: Payout)
    requires (tx, p) in Next(s, e).known
    ensures (tx, p) in s.known || e == Mined(tx, p) || (e.Located? && e.w.tx == tx && IsTheRelease(e.w, e.hits, p))
  {
    hide Advance;
  }

  /** A payout is known from its own successful receipt, or as the only matching release in a full scan. */
  ghost predicate Justified(log: Trace, tx: TxId, p: Payout) {
    || Mined(tx, p) in log
    || exists j :: 0 <= j < |log| && log[j].Located? && log[j].w.tx == tx && IsTheRelease(log[j].w, log[j].hits, p)
  }

  lemma JustifiedGrows(log: Trace, e: Event, tx: TxId, p: Payout)
    requires Justified(log, tx, p)
    ensures Justified(log + [e], tx, p)
  {
    var more := log + [e];
    if Mined(tx, p) !in log {
      var j :| 0 <= j < |log| && log[j].Located? && log[j].w.tx == tx && IsTheRelease(log[j].w, log[j].hits, p);
      assert more[j] == log[j];
    }
  }

  lemma {:induction false} KnownIsReal(log: Trace, tx: TxId, p: Payout)
    requires (tx, p) in Run(log).known
    ensures Justified(log, tx, p)
  {
    hide Next, IsTheRelease;
    var front, e := log[..|log| - 1], log[|log| - 1];
    assert log == front + [e];
    KnownStep(Run(front), e, tx, p);
    if (tx, p) in Run(front).known {
      KnownIsReal(front, tx, p);
      JustifiedGrows(front, e, tx, p);
    } else {
      assert log[|front|] == e;
    }
  }

  /** This head was read in the step in hand. */
  ghost predicate HeadReadAt(log: Trace, k: nat, tx: TxId, head: nat) {
    InHand(log, k, tx) && log[k] == ReadHead(tx, head)
  }

  predicate HasHead(s: Seen, tx: TxId, head: nat) {
    tx in s.steps && head in s.steps[tx].heads
  }

  lemma HeadStep(s: Seen, e: Event, tx: TxId, head: nat)
    requires HasHead(Next(s, e), tx, head)
    ensures !Bounds(e, tx) && (HasHead(s, tx, head) || e == ReadHead(tx, head))
  {
    hide Remember;
  }

  lemma {:induction false} HeadsAreReal(log: Trace, tx: TxId, head: nat)
    requires HasHead(Run(log), tx, head)
    ensures exists k: nat :: HeadReadAt(log, k, tx, head)
  {
    hide Next, HasHead;
    assert log != [] by { assert !HasHead(Start(), tx, head) by { NoHeadAtStart(tx, head); } }
    var front, e := log[..|log| - 1], log[|log| - 1];
    HeadStep(Run(front), e, tx, head);
    if e == ReadHead(tx, head) {
      assert HeadReadAt(log, |front|, tx, head);
    } else {
      HeadsAreReal(front, tx, head);
      var k: nat :| HeadReadAt(front, k, tx, head);
      assert HeadReadAt(log, k, tx, head);
    }
  }

  lemma NoHeadAtStart(tx: TxId, head: nat)
    ensures !HasHead(Start(), tx, head)
  {
  }

  /** Every fulfilment names a payout that really happened, at the required depth below a head read in that step. */
  lemma FulfilmentIsSound(depth: nat, log: Trace, i: nat)
    requires Accepts(depth, log) && i < |log| && log[i].Fulfil?
    ensures Justified(log[..i], log[i].tx, log[i].payout)
    ensures exists k: nat, head: nat ::
              HeadReadAt(log[..i], k, log[i].tx, head) && Depth(head, log[i].payout.block) >= depth
  {
    hide Justified, Run;
    EveryPrefix(depth, log, i);
    KnownIsReal(log[..i], log[i].tx, log[i].payout);
    var st := Run(log[..i]).steps[log[i].tx];
    var head :| head in st.heads && Depth(head, log[i].payout.block) >= depth;
    HeadsAreReal(log[..i], log[i].tx, head);
  }

  lemma {:induction false} PendingIsKnown(depth: nat, log: Trace, tx: TxId)
    requires Accepts(depth, log) && tx in Run(log).pending
    ensures (tx, Run(log).pending[tx]) in Run(log).known
  {
    var front := log[..|log| - 1];
    if tx in Run(front).pending { PendingIsKnown(depth, front, tx); }
  }

  // ---------------------------------------------------------------- paid or refunded, never both

  function SightOf(e: Event): Sight {
    match e
    case ReadProcessed(tx, processed) => Asked(tx, processed)
    case Submit(w) => Sent(w.tx)
    case _ => Other
  }

  /** What the trace shows of releases that landed. */
  function View(log: Trace): seq<Sight> {
    seq(|log|, i requires 0 <= i < |log| => SightOf(log[i]))
  }

  /** `landed` could be what the vault accepted: its answers were true, and nothing it accepted was in flight unseen. */
  ghost predicate Explains(log: Trace, landed: Landings) {
    Truthful(View(log), landed) && NoneInFlight(View(log), landed)
  }

  ghost predicate RefundedAt(log: Trace, r: nat, tx: TxId) {
    r < |log| && log[r] == Refund(tx, true)
  }

  /** The withdrawal was taken up again at `b`: the daemon listed it, and it was not marked. */
  ghost predicate TakenUpAt(log: Trace, b: nat, tx: TxId) {
    b < |log| && log[b].Begin? && log[b].w.tx == tx
  }

  ghost predicate Done(s: Seen, tx: TxId) {
    tx in s.steps ==> s.steps[tx].ended != Open
  }

  lemma DoneStep(depth: nat, s: Seen, e: Event, tx: TxId)
    requires Allowed(depth, s, e) && !(e.Begin? && e.w.tx == tx)
    ensures Done(s, tx) ==> Done(Next(s, e), tx) && !(e.Submit? && e.w.tx == tx)
    ensures e == Refund(tx, true) ==> Done(Next(s, e), tx)
  {
    hide DeepEnough, Remember;
    if !Of(e, tx) && !e.Restart? { OtherStepsKeep(s, e, tx); }
  }

  lemma {:induction false} DoneUntilTakenUp(depth: nat, log: Trace, r: nat, n: nat, tx: TxId)
    requires Accepts(depth, log) && RefundedAt(log, r, tx) && r < n <= |log|
    requires forall b: nat | r < b < n :: !TakenUpAt(log, b, tx)
    ensures Done(Run(log[..n]), tx)
    decreases n
  {
    hide Allowed, Next, Accepts, Run, Done;
    EveryPrefix(depth, log, n - 1);
    assert r < n - 1 ==> !TakenUpAt(log, n - 1, tx);
    DoneStep(depth, Run(log[..n - 1]), log[n - 1], tx);
    if r < n - 1 { DoneUntilTakenUp(depth, log, r, n - 1, tx); }
  }

  /** A withdrawal that was refunded and not taken up again is not paid as well. */
  lemma NeverPaidAndRefunded(depth: nat, log: Trace, landed: Landings, r: nat, tx: TxId)
    requires Accepts(depth, log) && Explains(log, landed) && RefundedAt(log, r, tx)
    requires forall b: nat | r < b :: !TakenUpAt(log, b, tx)
    ensures tx !in landed
  {
    hide Accepts, Run, Allowed, Next, Done;
    FailureFollowsAReRead(depth, log, r);
    var j: nat, k: nat :| j < k && SubmittedAt(log[..r], j, tx) && FreeSince(log[..r], k, tx);
    assert log[k] == ReadProcessed(tx, Some(false));
    if tx in landed {
      LandsAfterASend(View(log), landed, k, tx);
      var n: nat :| SentBetween(View(log), k, n, landed[tx], tx);
      assert log[n].Submit? && Of(log[n], tx);
      if n > r {
        EveryPrefix(depth, log, n);
        DoneUntilTakenUp(depth, log, r, n, tx);
        DoneStep(depth, Run(log[..n]), log[n], tx);
      }
    }
  }

  // ---------------------------------------------------------------- lost marks

  lemma {:induction false} FileIsBehindMemory(depth: nat, log: Trace)
    requires Accepts(depth, log)
    ensures Run(log).processedFile <= Run(log).processed
  {
    if log != [] { FileIsBehindMemory(depth, log[..|log| - 1]); }
  }

  /** At `k` the process ended, and the mark of `tx` was not on file. */
  ghost predicate MarkLostAt(log: Trace, k: nat, tx: TxId) {
    k < |log| && log[k].Restart? && tx !in Run(log[..k]).processedFile
  }

  /** Refunded, and the mark follows in the same step or has been made. */
  ghost predicate Noted(s: Seen, tx: TxId) {
    tx in s.processed || (tx in s.steps && s.steps[tx].ended == Repaid)
  }

  lemma NotedStep(depth: nat, s: Seen, e: Event, tx: TxId)
    requires Allowed(depth, s, e)
    ensures e == Refund(tx, true) ==> Noted(Next(s, e), tx)
    ensures Noted(s, tx) && (e.Restart? ==> tx in s.processedFile) ==>
              Noted(Next(s, e), tx) && !(e.Begin? && e.w.tx == tx)
  {
    hide DeepEnough, IsTheRelease;
    if !Of(e, tx) && !e.Restart? { OtherStepsKeep(s, e, tx); }
  }

  /** A refunded withdrawal is taken up again only after a process ended before the mark was on file. */
  lemma {:induction false} TakenUpOnlyAfterALostMark(depth: nat, log: Trace, r: nat, n: nat, tx: TxId)
    requires Accepts(depth, log) && RefundedAt(log, r, tx) && r < n <= |log|
    ensures Noted(Run(log[..n]), tx) || exists k: nat :: r < k < n && MarkLostAt(log, k, tx)
    ensures n < |log| && TakenUpAt(log, n, tx) ==> exists k: nat :: r < k < n && MarkLostAt(log, k, tx)
    decreases n
  {
    hide Allowed, Next, Accepts, Run, Noted;
    EveryPrefix(depth, log, n - 1);
    NotedStep(depth, Run(log[..n - 1]), log[n - 1], tx);
    if r < n - 1 {
      TakenUpOnlyAfterALostMark(depth, log, r, n - 1, tx);
      if log[n - 1].Restart? && tx !in Run(log[..n - 1]).processedFile {
        assert MarkLostAt(log, n - 1, tx);
      }
    }
    if n < |log| && TakenUpAt(log, n, tx) {
      EveryPrefix(depth, log, n);
      NotedStep(depth, Run(log[..n]), log[n], tx);
    }
  }

  lemma MarkedStep(depth: nat, s: Seen, e: Event, tx: TxId)
    requires s.processedFile <= s.processed && Allowed(depth, s, e) && tx in s.processedFile
    ensures tx in Next(s, e).processedFile && !(e.Begin? && e.w.tx == tx)
  {
  }

  /** A mark on file is for ever: that withdrawal is never taken up again. */
  lemma {:induction false} MarkedForever(depth: nat, log: Trace, i: nat, n: nat, tx: TxId)
    requires Accepts(depth, log) && i <= n <= |log| && tx in Run(log[..i]).processedFile
    ensures tx in Run(log[..n]).processedFile && !TakenUpAt(log, n, tx)
    decreases n
  {
    hide Allowed, Next, Accepts, Run;
    if i < n {
      MarkedForever(depth, log, i, n - 1, tx);
      EveryPrefix(depth, log, n - 1);
      FileIsBehindMemory(depth, log[..n - 1]);
      MarkedStep(depth, Run(log[..n - 1]), log[n - 1], tx);
    }
    if n < |log| {
      EveryPrefix(depth, log, n);
      FileIsBehindMemory(depth, log[..n]);
      MarkedStep(depth, Run(log[..n]), log[n], tx);
    }
  }

  /** Some continuation of this run, with the vault still truthful, ends with `tx` paid. */
  ghost predicate MayBePaid(depth: nat, log: Trace, tx: TxId) {
    exists more: Trace, landed: Landings :: PaidIn(depth, log + more, landed, tx)
  }

  ghost predicate PaidIn(depth: nat, log: Trace, landed: Landings, tx: TxId) {
    Accepts(depth, log) && Explains(log, landed) && tx in landed
  }

  /**
   * A process that ends before the mark is on file, a daemon that still lists the withdrawal, and the next process
   * pays it.
   */
  function PaidAgain(w: Withdrawal): Trace {
    [Restart, Begin(w), ReadProcessed(w.tx, Some(false)), Submit(w)]
  }

  lemma PaidAgainIsAccepted(depth: nat, log: Trace, w: Withdrawal)
    requires Accepts(depth, log) && w.tx !in Run(log).processedFile
    ensures Accepts(depth, log + PaidAgain(w))
  {
    hide Accepts, Run;
    var more := PaidAgain(w);
    Append(depth, log, more[0]);
    assert log + [more[0]] == log + more[..1];
    Append(depth, log + more[..1], more[1]);
    assert log + more[..1] + [more[1]] == log + more[..2];
    Append(depth, log + more[..2], more[2]);
    assert log + more[..2] + [more[2]] == log + more[..3];
    Append(depth, log + more[..3], more[3]);
    assert log + more[..3] + [more[3]] == log + more;
  }

  lemma PaidAgainIsExplained(log: Trace, landed: Landings, w: Withdrawal)
    requires Explains(log, landed) && w.tx !in landed
    ensures Explains(log + PaidAgain(w), landed[w.tx := |log + PaidAgain(w)|])
  {
    hide Truthful, NoneInFlight;
    var more := PaidAgain(w);
    assert View(log + more) == View(log) + View(more);
    assert View(more) == [Other, Other, Asked(w.tx, Some(false)), Sent(w.tx)];
    MayLandAtTheEnd(View(log), View(more), landed, w.tx);
  }

  lemma StaysUnpaid(depth: nat, log: Trace, more: Trace, landed: Landings, r: nat, tx: TxId)
    requires Accepts(depth, log + more) && Explains(log + more, landed) && RefundedAt(log, r, tx)
    requires (forall b: nat | r < b :: !TakenUpAt(log, b, tx)) && tx in Run(log).processedFile
    ensures tx !in landed
  {
    hide Accepts, Run, Allowed, Next, Explains;
    var all := log + more;
    assert all[..|log|] == log;
    forall b: nat | r < b ensures !TakenUpAt(all, b, tx) {
      if b < |log| {
        assert !TakenUpAt(log, b, tx);
      } else if b < |all| {
        MarkedForever(depth, all, |log|, b, tx);
      }
    }
    NeverPaidAndRefunded(depth, all, landed, r, tx);
  }

  /**
   * The exact condition. A refunded withdrawal that has not been taken up again may still be paid if and only if
   * its mark is not on file: the process may end between the refund and the mark, or the save may have failed.
   */
  lemma PaidAfterRefundIff(depth: nat, log: Trace, landed: Landings, r: nat, w: Withdrawal)
    requires Accepts(depth, log) && Explains(log, landed) && RefundedAt(log, r, w.tx)
    requires forall b: nat | r < b :: !TakenUpAt(log, b, w.tx)
    ensures MayBePaid(depth, log, w.tx) <==> w.tx !in Run(log).processedFile
  {
    hide Accepts, Run, Allowed, Next, Explains;
    if w.tx in Run(log).processedFile {
      forall more: Trace, later: Landings | PaidIn(depth, log + more, later, w.tx) ensures false {
        StaysUnpaid(depth, log, more, later, r, w.tx);
      }
    } else {
      var more := PaidAgain(w);
      NeverPaidAndRefunded(depth, log, landed, r, w.tx);
      PaidAgainIsAccepted(depth, log, w);
      PaidAgainIsExplained(log, landed, w);
      assert PaidIn(depth, log + more, landed[w.tx := |log + more|], w.tx);
    }
  }

  // ---------------------------------------------------------------- the relayer

  datatype FulfilAnswer = Accepted | NeedsConfirmations | Rejected

  datatype Env = Env(
    processed: nat -> Option<bool>,
    release: nat -> Option<Hash>,
    receipt: nat -> Option<(bool, nat)>,
    head: nat -> Option<nat>,
    hits: nat -> Option<seq<VaultLog>>,
    fulfil: nat -> Option<FulfilAnswer>,
    report: nat -> Option<bool>,
    refund: nat -> Option<bool>,
    saves: nat -> bool,
    others: nat -> seq<Event>)

  datatype Outcome =
    | Fulfilled | ReconciledFulfilled | AwaitingConfirmations | FulfilRejected
    | SkippedRpc | NoReleaseFound | Ambiguous | Failed | Threw

  /** The head can be read and the daemon accepts. */
  ghost predicate Accepting(env: Env, h: nat) {
    forall t: nat :: env.head(t) == Some(h) && env.fulfil(t) == Some(Accepted)
  }

  /** Not released yet; the release is mined in block `b`. */
  ghost predicate Smooth(env: Env, b: nat) {
    forall t: nat :: env.processed(t) == Some(false) && env.release(t).Some? && env.receipt(t) == Some((true, b))
  }

  /** Not released, and no release goes through. */
  ghost predicate Hopeless(env: Env) {
    forall t: nat :: env.processed(t) == Some(false) && env.release(t).None? && env.report(t).Some?
        && env.refund(t).Some?
  }

  /** What a step relies on: its own state, the payout pending for its withdrawal, and whether that is marked. */
  datatype Share = Share(step: Option<Step>, pending: Option<Payout>, marked: bool)

  function PendingOf(s: Seen, tx: TxId): Option<Payout> {
    if tx in s.pending then Some(s.pending[tx]) else None
  }

  function ShareOf(s: Seen, tx: TxId): Share {
    Share(if tx in s.steps then Some(s.steps[tx]) else None, PendingOf(s, tx), tx in s.processed)
  }

  /** The same pending payout and mark, and no payout forgotten. */
  ghost predicate SameMemory(a: Seen, b: Seen, tx: TxId) {
    PendingOf(b, tx) == PendingOf(a, tx) && (tx in b.processed <==> tx in a.processed) && a.known <= b.known
  }

  /** The trace of the same process grew. */
  ghost predicate Grows(a: Trace, b: Trace) {
    a <= b && forall i | |a| <= i < |b| :: !b[i].Restart?
  }

  /** What the outcome of a fulfilment with `p` means for the pending payout and the mark. */
  ghost predicate Settles(out: Outcome, done: Outcome, p: Payout, a: Seen, b: Seen, tx: TxId) {
    if out == done then PendingOf(b, tx).None? && tx in b.processed
    else if out in {AwaitingConfirmations, FulfilRejected} then
      PendingOf(b, tx) == Some(p) && (tx in b.processed <==> tx in a.processed)
    else out == Threw && SameMemory(a, b, tx)
  }

  class Relayer {
    const depth: nat
    const env: Env
    const autoRefund: bool
    var clock: nat
    var pending: map<TxId, Payout>
    var processed: set<TxId>
    var processedFile: set<TxId>

    /** The withdrawal the step in hand is about. */
    var held: Option<TxId>

    /** Everything that happened so far, and what it established; `mine` is what the steps modelled here did. */
    var log: Trace
    var seen: Seen
    ghost var mine: Trace

    /** The very first start, with no file. Every later start is a `Restart` of the same trace. */
    constructor (confirmations: nat, daemonMinimum: nat, env: Env, autoRefund: bool)
      ensures Idle() && log == [] && depth == EffectiveDepth(confirmations, daemonMinimum)
    {
      depth, this.env, this.autoRefund := EffectiveDepth(confirmations, daemonMinimum), env, autoRefund;
      clock, pending, processed, processedFile := 0, map[], {}, {};
      held, log, seen, mine := None, [], Start(), [];
    }

    ghost predicate Traced()
      reads this
    {
      Accepts(depth, log) && seen == Run(log)
    }

    ghost predicate Valid()
      reads this
    {
      Traced() && seen.pending == pending && seen.processed == processed && seen.processedFile == processedFile
    }

    ghost predicate Idle()
      reads this
    {
      Valid() && held.None?
    }

    /** In the midst of a step over `tx`. */
    ghost predicate At(tx: TxId)
      reads this
    {
      Valid() && held == Some(tx) && tx in seen.steps
    }

    /** At the end of one. */
    ghost predicate Closing(tx: TxId)
      reads this
    {
      At(tx) && (seen.steps[tx].ended == Repaid ==> tx in seen.processed)
    }

    /** The step has neither paid nor refunded. */
    ghost predicate Undecided(tx: TxId)
      reads this
    {
      At(tx) && seen.steps[tx].ended == Open
    }

    method Emit(e: Event)
      requires Traced() && Allowed(depth, seen, e)
      modifies this`log, this`seen, this`mine
      ensures Traced() && seen == Next(old(seen), e) && log == old(log) + [e] && mine == old(mine) + [e]
    {
      hide Allowed, Next, Run, Accepts;
      Append(depth, log, e);
      log, seen, mine := log + [e], Next(seen, e), mine + [e];
    }

    /** At an await, other steps do what they may. None of them is about the withdrawal in hand. */
    method Others(t: nat)
      requires Valid()
      modifies this`pending, this`processed, this`processedFile, this`log, this`seen
      ensures Valid() && Grows(old(log), log) && old(seen).known <= seen.known
      ensures held.Some? ==> ShareOf(seen, held.value) == old(ShareOf(seen, held.value))
    {
      hide Allowed, Next, Run, Accepts;
      var es := env.others(t);
      for i := 0 to |es|
        invariant Valid() && Grows(old(log), log) && old(seen).known <= seen.known
        invariant held.Some? ==> ShareOf(seen, held.value) == old(ShareOf(seen, held.value))
      {
        if !es[i].Restart? && !(held.Some? && Of(es[i], held.value)) && Allowed(depth, seen, es[i]) {
          KnownGrows(seen, es[i]);
          if held.Some? { OtherStepsKeep(seen, es[i], held.value); }
          Append(depth, log, es[i]);
          log, seen := log + [es[i]], Next(seen, es[i]);
          pending, processed, processedFile := seen.pending, seen.processed, seen.processedFile;
        }
      }
    }

    method Tick() returns (t: nat)
      requires Valid()
      modifies this`clock, this`pending, this`processed, this`processedFile, this`log, this`seen
      ensures t == old(clock) && clock == t + 1
      ensures Valid() && Grows(old(log), log) && old(seen).known <= seen.known
      ensures held.Some? ==> ShareOf(seen, held.value) == old(ShareOf(seen, held.value))
    {
      t := clock;
      clock := clock + 1;
      Others(t);
    }

    method ProcessedOnVault(tx: TxId) returns (a: Option<bool>)
      requires At(tx)
      modifies this
      ensures At(tx) && Grows(old(log), log) && SameMemory(old(seen), seen, tx)
      ensures seen.steps[tx] == old(seen).steps[tx].(free := a == Some(false))
      ensures mine == old(mine) + [ReadProcessed(tx, a)] && a == env.processed(old(clock))
    {
      hide Accepts, Run;
      var t := Tick();
      a := env.processed(t);
      Emit(ReadProcessed(tx, a));
    }

    method SetPending(tx: TxId, p: Payout)
      requires At(tx) && (tx, p) in seen.known
      modifies this`pending, this`log, this`seen, this`mine
      ensures At(tx) && Grows(old(log), log) && old(mine) <= mine && pending == old(pending)[tx := p]
      ensures seen.steps[tx] == old(seen).steps[tx]
    {
      hide Accepts, Run;
      pending := pending[tx := p];
      Emit(Defer(tx, p));
    }

    /** The file of processed ids is replaced, or the write fails and the old one stays. */
    method SaveMarks()
      requires Valid()
      modifies this
      ensures Valid() && held == old(held) && Grows(old(log), log) && old(mine) <= mine && old(seen).known <= seen.known
      ensures held.Some? ==> ShareOf(seen, held.value) == old(ShareOf(seen, held.value))
      ensures env.saves(old(clock)) ==> processedFile == processed
    {
      hide Accepts, Run;
      var t := Tick();
      if env.saves(t) {
        processedFile := processed;
        Emit(SaveProcessed);
      }
    }

    method MarkProcessed(tx: TxId)
      requires At(tx) && seen.steps[tx].ended != Open
      modifies this
      ensures Closing(tx) && Grows(old(log), log) && old(mine) <= mine
      ensures PendingOf(seen, tx) == PendingOf(old(seen), tx) && tx in processed
      ensures env.saves(old(clock)) ==> tx in processedFile
    {
      hide Accepts, Run;
      processed := processed + {tx};
      Emit(Mark(tx));
      SaveMarks();
    }

    /** The daemon's answer to a fulfilment, and the bookkeeping that follows it. */
    method CallFulfil(tx: TxId, p: Payout, done: Outcome) returns (out: Outcome)
      requires Undecided(tx) && (tx, p) in seen.known && DeepEnough(depth, seen.steps[tx], p)
      requires done in {Fulfilled, ReconciledFulfilled}
      modifies this
      ensures Closing(tx) && Grows(old(log), log) && old(mine) <= mine
      ensures Settles(out, done, p, old(seen), seen, tx)
      ensures forall h: nat | Accepting(env, h) :: out == done
    {
      hide Accepts, Run, DeepEnough;
      var t := Tick();
      var a := env.fulfil(t);
      Emit(Fulfil(tx, p, a == Some(Accepted)));
      if a == Some(Accepted) {
        pending := pending - {tx};
        Emit(Forget(tx));
        MarkProcessed(tx);
        out := done;
      } else if a.None? {
        out := Threw;
      } else {
        SetPending(tx, p);
        out := if a.value == NeedsConfirmations then AwaitingConfirmations else FulfilRejected;
      }
    }

    /** `fulfillKnownXrgePayout`. */
    method FulfilKnownPayout(tx: TxId, p: Payout, done: Outcome) returns (out: Outcome)
      requires Undecided(tx) && (tx, p) in seen.known
      requires done in {Fulfilled, ReconciledFulfilled}
      modifies this
      ensures Closing(tx) && Grows(old(log), log) && old(mine) <= mine
      ensures Settles(out, done, p, old(seen), seen, tx)
      ensures forall h: nat | Accepting(env, h) && Depth(h, p.block) >= depth :: out == done
    {
      hide Accepts, Run;
      var t := Tick();
      var head := env.head(t);
      if head.Some? { Emit(ReadHead(tx, head.value)); }
      if head.None? || Depth(head.value, p.block) < depth {
        SetPending(tx, p);
        out := AwaitingConfirmations;
      } else {
        out := CallFulfil(tx, p, done);
      }
    }

    /** `handleWithdrawalFailure`: report, and refund when the daemon says so and refunds are on. */
    method HandleFailure(tx: TxId) returns (out: Outcome)
      requires Undecided(tx) && seen.steps[tx].submitted && seen.steps[tx].free
      modifies this
      ensures Closing(tx) && Grows(old(log), log) && old(mine) <= mine
      ensures PendingOf(seen, tx) == PendingOf(old(seen), tx) && out in {Failed, Threw}
      ensures tx in old(seen).processed || !autoRefund ==> (tx in seen.processed <==> tx in old(seen).processed)
      ensures Hopeless(env) ==> out == Failed
    {
      hide Accepts, Run;
      var t := Tick();
      Emit(Report(tx));
      var shouldRefund := env.report(t);
      out := if shouldRefund.None? then Threw else Failed;
      if shouldRefund == Some(true) && autoRefund {
        var threw := RefundNow(tx);
        if threw { out := Threw; }
      }
    }

    /** The refund itself, an alert that is waited for, and only then the mark. */
    method RefundNow(tx: TxId) returns (threw: bool)
      requires Undecided(tx) && seen.steps[tx].submitted && seen.steps[tx].free
      modifies this
      ensures Closing(tx) && Grows(old(log), log) && old(mine) <= mine
      ensures PendingOf(seen, tx) == PendingOf(old(seen), tx) && threw == env.refund(old(clock)).None?
      ensures tx in seen.processed <==> tx in old(seen).processed || env.refund(old(clock)) == Some(true)
    {
      hide Accepts, Run;
      var u := Tick();
      var done := env.refund(u);
      Emit(Refund(tx, done == Some(true)));
      if done == Some(true) {
        var v := Tick();
        MarkProcessed(tx);
      }
      threw := done.None?;
    }

    /** After a release that threw or reverted: ask the vault again before calling it a failure. */
    method FailUnlessLanded(tx: TxId) returns (out: Outcome)
      requires Undecided(tx) && seen.steps[tx].submitted
      modifies this
      ensures Closing(tx) && Grows(old(log), log) && old(mine) <= mine
      ensures PendingOf(seen, tx) == PendingOf(old(seen), tx)
              && out in {SkippedRpc, AwaitingConfirmations, Failed, Threw}
      ensures env.processed(old(clock)) != Some(false) ==>
                SameMemory(old(seen), seen, tx) && mine == old(mine) + [ReadProcessed(tx, env.processed(old(clock)))]
      ensures Hopeless(env) ==> out == Failed
    {
      hide Accepts, Run, Allowed, Next;
      var landed := ProcessedOnVault(tx);
      if landed.None? {
        out := SkippedRpc;
      } else if landed.value {
        out := AwaitingConfirmations;
      } else {
        out := HandleFailure(tx);
      }
    }

    /** Processed on the vault: never release; find the payout and fulfil with it. */
    method ReconcilePaid(w: Withdrawal) returns (out: Outcome)
      requires Undecided(w.tx) && seen.steps[w.tx].w == w && !seen.steps[w.tx].submitted
      modifies this
      ensures Closing(w.tx) && Grows(old(log), log) && old(mine) <= mine
      ensures out in {ReconciledFulfilled, AwaitingConfirmations, FulfilRejected, Threw, SkippedRpc, NoReleaseFound,
                      Ambiguous}
      ensures out in {SkippedRpc, NoReleaseFound, Ambiguous} ==> SameMemory(old(seen), seen, w.tx)
      ensures w.tx !in old(pending) && env.hits(old(clock)).Some? ==>
                var hits := env.hits(old(clock)).value;
                && (hits == [] <==> out == NoReleaseFound)
                && (out == Ambiguous <==> hits != [] && !exists p :: IsTheRelease(w, hits, p))
                && (forall h: nat, p | Accepting(env, h) && IsTheRelease(w, hits, p) && Depth(h, p.block) >= depth ::
                      out == ReconciledFulfilled)
    {
      hide Accepts, Run;
      if w.tx in pending {
        PendingIsKnown(depth, log, w.tx);
        out := FulfilKnownPayout(w.tx, pending[w.tx], ReconciledFulfilled);
      } else {
        var t := Tick();
        var hits := env.hits(t);
        if hits.None? {
          out := SkippedRpc;
        } else {
          Emit(Located(w, hits.value));
          if hits.value == [] {
            out := NoReleaseFound;
          } else if |hits.value| != 1 || hits.value[0].recipient != w.recipient
              || hits.value[0].amount != w.amount * WEI_PER_XRGE {
            out := Ambiguous;
          } else {
            out := FulfilKnownPayout(w.tx, Payout(hits.value[0].hash, hits.value[0].block), ReconciledFulfilled);
          }
        }
      }
    }

    method ReleaseAndFulfil(w: Withdrawal) returns (out: Outcome)
      requires Undecided(w.tx) && seen.steps[w.tx].w == w && !seen.steps[w.tx].submitted && seen.steps[w.tx].free
      modifies this
      ensures Closing(w.tx) && Grows(old(log), log) && old(mine) <= mine
      ensures out in {Fulfilled, AwaitingConfirmations, FulfilRejected, Threw, SkippedRpc, Failed}
      ensures forall h: nat, b: nat | Smooth(env, b) && Accepting(env, h) && Depth(h, b) >= depth :: out == Fulfilled
      ensures Hopeless(env) ==> out == Failed
    {
      hide Accepts, Run;
      var t := Tick();
      var hash := env.release(t);
      Emit(Submit(w));
      if hash.None? {
        out := FailUnlessLanded(w.tx);
      } else {
        out := AwaitAndFulfil(w.tx, hash.value);
      }
    }

    /** After a release went out. */
    method AwaitAndFulfil(tx: TxId, hash: Hash) returns (out: Outcome)
      requires Undecided(tx) && seen.steps[tx].submitted
      modifies this
      ensures Closing(tx) && Grows(old(log), log) && old(mine) <= mine
      ensures out in {Fulfilled, AwaitingConfirmations, FulfilRejected, Threw, SkippedRpc, Failed}
      ensures forall h: nat, b: nat | Smooth(env, b) && Accepting(env, h) && Depth(h, b) >= depth :: out == Fulfilled
    {
      hide Accepts, Run;
      var u := Tick();
      var rc := env.receipt(u);
      if rc.None? {
        out := AwaitingConfirmations;
      } else if !rc.value.0 {
        out := FailUnlessLanded(tx);
      } else {
        var p := Payout(hash, rc.value.1);
        Emit(Mined(tx, p));
        out := FulfilKnownPayout(tx, p, Fulfilled);
      }
    }

    method TakeUp(w: Withdrawal)
      requires Idle() && w.tx !in processed && w.tx !in seen.steps
      modifies this
      ensures Undecided(w.tx) && seen.steps[w.tx] == Opened(w) && Grows(old(log), log) && old(mine) <= mine
      ensures SameMemory(old(seen), seen, w.tx) && clock == old(clock)
    {
      hide Accepts, Run;
      Emit(Begin(w));
      held := Some(w.tx);
    }

    method Finish(tx: TxId)
      requires Closing(tx)
      modifies this
      ensures Idle() && Grows(old(log), log) && old(mine) <= mine && SameMemory(old(seen), seen, tx)
    {
      hide Accepts, Run;
      Emit(End(tx));
      held := None;
    }

    /** `processXrgeWithdrawal`, for a withdrawal the poll loop did not skip as processed or in flight. */
    method ProcessXrgeWithdrawal(w: Withdrawal) returns (out: Outcome)
      requires Idle() && w.tx !in processed && w.tx !in seen.steps
      modifies this
      ensures Idle() && Grows(old(log), log) && old(mine) <= mine
      ensures env.processed(old(clock)).None? ==> out == SkippedRpc && SameMemory(old(seen), seen, w.tx)
      ensures forall h: nat, b: nat | Smooth(env, b) && Accepting(env, h) && Depth(h, b) >= depth :: out == Fulfilled
      ensures Hopeless(env) ==> out == Failed
      ensures env.processed(old(clock)) == Some(true) ==>
                out in {ReconciledFulfilled, AwaitingConfirmations, FulfilRejected, Threw, SkippedRpc, NoReleaseFound,
                        Ambiguous}
    {
      hide Accepts, Run, Allowed, Next;
      TakeUp(w);
      var flag := ProcessedOnVault(w.tx);
      if flag.None? {
        out := SkippedRpc;
      } else if flag.value {
        out := ReconcilePaid(w);
      } else {
        out := ReleaseAndFulfil(w);
      }
      Finish(w.tx);
    }

    /**
     * The process is killed when only `keep` events of its trace have happened, and the next process loads what was
     * on file then. The pending payouts are lost.
     */
    method Kill(keep: nat)
      requires Idle() && keep <= |log|
      modifies this
      ensures Idle() && log == old(log)[..keep] + [Restart]
      ensures processed == processedFile == Run(old(log)[..keep]).processedFile && pending == map[]
    {
      hide Accepts, Run;
      assert Accepts(depth, log[..keep]) by {
        if keep < |log| { EveryPrefix(depth, log, keep); } else { assert log[..keep] == log; }
      }
      Append(depth, log[..keep], Restart);
      var files := Run(log[..keep]);
      log, seen := log[..keep] + [Restart], Next(files, Restart);
      processedFile, pending := files.processedFile, map[];
      processed := processedFile;
    }

    /** The save at shutdown, or one entry of the daemon's list: skipped when it is processed or in flight. */
    method Do(turn: Turn)
      requires Idle()
      modifies this
      ensures Idle() && Grows(old(log), log)
    {
      hide Accepts, Run, Allowed, Next;
      var t := Tick();
      if turn.SaveNow? {
        SaveMarks();
      } else if turn.w.tx !in processed && turn.w.tx !in seen.steps {
        var out := ProcessXrgeWithdrawal(turn.w);
      }
    }

    /**
     * Any feed, in any order, with other steps coming in at every await and the process killed anywhere: the whole
     * trace, over all the processes, keeps the discipline. What the other steps do is what the discipline allows them.
     */
    method Operate(feed: seq<Turn>)
      requires Idle()
      modifies this
      ensures Idle() && old(log) <= log
    {
      for i := 0 to |feed|
        invariant Idle() && old(log) <= log
      {
        hide Accepts, Run, Allowed, Next;
        var start := |log|;
        Do(feed[i]);
        if feed[i].Killed? {
          Kill(if start + feed[i].after <= |log| then start + feed[i].after else |log|);
        }
      }
    }
  }

  lemma KnownGrows(s: Seen, e: Event)
    ensures s.known <= Next(s, e).known
  {
    hide Advance, IsTheRelease;
  }

  /** A withdrawal handled to the end, one killed after so many events, or the save at shutdown. */
  datatype Turn = Whole(w: Withdrawal) | Killed(w: Withdrawal, after: nat) | SaveNow
}
