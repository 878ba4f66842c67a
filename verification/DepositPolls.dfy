/**
 * Deposit polls that overlap. The timer starts a poll without waiting for the one before, so at every
 * await another poll, the save at shutdown or the end of the process may come in between.
 */
module DepositPolls {
  import opened Common
  import opened Deposits

  /** Where a poll waits: each constructor is a point between two awaits, or the await itself. */
  datatype Poll =
    | Retrying(left: seq<Deposit>)
    | RetryAsked(left: seq<Deposit>)
    | NeedsHead
    | Scanning(lo: int, hi: int)
    | Claiming(lo: int, hi: int, found: seq<Deposit>, i: nat)
    | Asked(lo: int, hi: int, found: seq<Deposit>, i: nat)

  /** `start` and `diskStart` are where what counts begins, for memory and for the disk. */
  datatype System = System(memory: State, disk: State, polls: map<nat, Poll>, stopping: bool, start: int,
                           diskStart: int)

  datatype Event =
    | Begin(p: nat, retry: seq<Deposit>)
    | RetryAsk(p: nat)
    | RetryAnswer(p: nat, ok: bool)
    | RetryEnd(p: nat)
    | GotHead(p: nat, head: nat)
    | GotLogs(p: nat, found: seq<Deposit>)
    | Skip(p: nat)
    | Ask(p: nat)
    | Answer(p: nat, ok: bool)
    | Finish(p: nat)
    | Throw(p: nat)
    | Stop
    | Save
    | Kill

  /** `claimOne` once its answer is in: the code looks at no set before it files the deposit. */
  function File(m: State, d: Deposit, ok: bool): State {
    if ok then m.(claimed := m.claimed + {d.key}, pending := m.pending - {d.key})
    else m.(pending := m.pending[d.key := d])
  }

  /** The claim this poll waits for. */
  function Awaited(poll: Poll): Option<Deposit> {
    match poll
    case RetryAsked(left) => if left != [] then Some(left[0]) else None
    case Asked(_, _, found, i) => if i < |found| then Some(found[i]) else None
    case _ => None
  }

  /** The copy of the pending deposits that a poll goes through first. */
  ghost predicate ListsPending(m: State, retry: seq<Deposit>) {
    && (forall i | 0 <= i < |retry| :: retry[i].key in m.pending && m.pending[retry[i].key] == retry[i])
    && (forall i, j | 0 <= i < j < |retry| :: retry[i].key != retry[j].key)
    && (forall k | k in m.pending :: m.pending[k] in retry)
  }

  /** What may happen next. */
  ghost predicate Can(cfg: Config, chain: Chain, s: System, e: Event) {
    match e
    case Begin(p, retry) => p !in s.polls && ListsPending(s.memory, retry)
    case Stop => true
    case Save => true
    case Kill => true
    case _ => e.p in s.polls && CanGoOn(cfg, chain, s, s.polls[e.p], e)
  }

  ghost predicate CanGoOn(cfg: Config, chain: Chain, s: System, poll: Poll, e: Event) {
    match e
    case RetryAsk(_) => poll.Retrying? && poll.left != [] && !s.stopping
    case RetryAnswer(_, _) => poll.RetryAsked? && poll.left != []
    case RetryEnd(_) => poll.Retrying? && (poll.left == [] || s.stopping)
    case GotHead(_, _) => poll.NeedsHead?
    case GotLogs(_, found) => poll.Scanning? && FoundAll(cfg, chain, poll.lo, poll.hi, found)
    case Skip(_) => poll.Claiming? && poll.i < |poll.found| && !s.stopping && poll.found[poll.i].key in Known(s.memory)
    case Ask(_) => poll.Claiming? && poll.i < |poll.found| && !s.stopping && poll.found[poll.i].key !in Known(s.memory)
    case Answer(_, _) => poll.Asked? && poll.i < |poll.found|
    case Finish(_) => poll.Claiming? && (poll.i >= |poll.found| || s.stopping)
    case _ => true
  }

  function With(s: System, p: nat, poll: Poll): System {
    s.(polls := s.polls[p := poll])
  }

  function Without(s: System, p: nat): System {
    s.(polls := s.polls - {p})
  }

  function Step(cfg: Config, s: System, e: Event): System {
    match e
    case Begin(p, retry) => With(s, p, Retrying(retry))
    case Stop => s.(stopping := true)
    case Save => s.(disk := s.memory, diskStart := s.start)
    case Kill => System(s.disk, s.disk, map[], false, s.diskStart, s.diskStart)
    case _ => if e.p in s.polls then GoOn(cfg, s, s.polls[e.p], e) else s
  }

  function GoOn(cfg: Config, s: System, poll: Poll, e: Event): System {
    match (e, poll)
    case (RetryAsk(p), Retrying(left)) => With(s, p, RetryAsked(left))
    case (RetryAnswer(p, ok), RetryAsked(left)) =>
      if left == [] then s else With(s, p, Retrying(left[1..])).(memory := File(s.memory, left[0], ok))
    case (RetryEnd(p), _) => With(s, p, NeedsHead)
    case (GotHead(p, head), _) => AtHead(cfg, s, p, SafeHead(cfg, head))
    case (GotLogs(p, found), Scanning(lo, hi)) => With(s, p, Claiming(lo, hi, found, 0))
    case (Skip(p), Claiming(lo, hi, found, i)) => With(s, p, Claiming(lo, hi, found, i + 1))
    case (Ask(p), Claiming(lo, hi, found, i)) => With(s, p, Asked(lo, hi, found, i))
    case (Answer(p, ok), Asked(lo, hi, found, i)) =>
      if i < |found| then With(s, p, Claiming(lo, hi, found, i + 1)).(memory := File(s.memory, found[i], ok)) else s
    case (Finish(p), Claiming(_, hi, _, _)) => Without(s, p).(memory := s.memory.(lastBlock := Some(hi)))
    case (Throw(p), _) => Without(s, p)
    case _ => s
  }

  /** The cursor is read when the head is in: anchor, nothing new, or a range to scan. */
  function AtHead(cfg: Config, s: System, p: nat, safeHead: int): System {
    if safeHead <= 0 then Without(s, p)
    else if s.memory.lastBlock.None? && cfg.watchFrom.None? then
      Without(s, p).(memory := s.memory.(lastBlock := Some(safeHead)), start := safeHead + 1)
    else
      var lo := if s.memory.lastBlock.Some? then s.memory.lastBlock.value + 1 else cfg.watchFrom.value;
      if lo > safeHead then Without(s, p)
      else With(s, p, Scanning(lo, if safeHead - lo + 1 > cfg.maxSpan then lo + cfg.maxSpan - 1 else safeHead))
  }

  // ---------------------------------------------------------------- runs

  function Run(cfg: Config, s: System, es: seq<Event>): System {
    if es == [] then s else Step(cfg, Run(cfg, s, es[..|es| - 1]), es[|es| - 1])
  }

  ghost predicate Legal(cfg: Config, chain: Chain, s: System, es: seq<Event>) {
    es == [] || (Legal(cfg, chain, s, es[..|es| - 1]) && Can(cfg, chain, Run(cfg, s, es[..|es| - 1]), es[|es| - 1]))
  }

  /** No file, no poll. */
  function Fresh(cfg: Config): System {
    var none := State(None, {}, map[]);
    var start := if cfg.watchFrom.Some? then cfg.watchFrom.value else 0;
    System(none, none, map[], false, start, start)
  }

  // ---------------------------------------------------------------- coverage

  /** Every watched deposit from `start` up to `end` is among these keys. */
  ghost predicate KnownTo(cfg: Config, chain: Chain, start: int, end: int, keys: set<Key>) {
    forall i | 0 <= i < |chain| && cfg.watched(chain[i].key.token) && start <= chain[i].block <= end ::
          chain[i].key in keys
  }

  /** What a poll relies on: all below its range is known, and so is all it has gone through. */
  ghost predicate PollOk(cfg: Config, chain: Chain, s: System, poll: Poll) {
    match poll
    case Retrying(left) => Keys(left) <= Known(s.memory)
    case RetryAsked(left) => Keys(left) <= Known(s.memory)
    case NeedsHead => true
    case Scanning(lo, hi) => RangeOk(cfg, chain, s, lo, hi)
    case Claiming(lo, hi, found, i) => RangeOk(cfg, chain, s, lo, hi) && FoundOk(cfg, chain, s, lo, hi, found, i)
    case Asked(lo, hi, found, i) => RangeOk(cfg, chain, s, lo, hi) && FoundOk(cfg, chain, s, lo, hi, found, i)
  }

  ghost predicate RangeOk(cfg: Config, chain: Chain, s: System, lo: int, hi: int) {
    && (s.memory.lastBlock.Some? || cfg.watchFrom.Some?)
    && s.start <= lo <= hi && KnownTo(cfg, chain, s.start, lo - 1, Known(s.memory))
  }

  ghost predicate FoundOk(cfg: Config, chain: Chain, s: System, lo: int, hi: int, found: seq<Deposit>, i: nat) {
    FoundAll(cfg, chain, lo, hi, found) && i <= |found| && Keys(found[..i]) <= Known(s.memory)
  }

  ghost predicate Covered(cfg: Config, chain: Chain, s: System) {
    && Covers(cfg, chain, s.start, s.memory) && StartsAt(cfg, s.start, s.memory)
    && Covers(cfg, chain, s.diskStart, s.disk) && StartsAt(cfg, s.diskStart, s.disk)
    && forall p | p in s.polls :: PollOk(cfg, chain, s, s.polls[p])
  }

  /** What the poll has not gone through holds nothing new. */
  ghost predicate Complete(s: System, poll: Poll)
    requires poll.Claiming?
  {
    forall j | poll.i <= j < |poll.found| :: poll.found[j].key in Known(s.memory)
  }

  /** A poll is cut short with a deposit left that is in no set. */
  ghost predicate Loses(s: System, e: Event) {
    e.Finish? && e.p in s.polls && s.polls[e.p].Claiming? && !Complete(s, s.polls[e.p])
  }

  lemma FilingIsKnown(m: State, d: Deposit, ok: bool)
    ensures Known(File(m, d, ok)) == Known(m) + {d.key} && File(m, d, ok).lastBlock == m.lastBlock
  {
    FilesTheKey(m, d);
  }

  /** Knowing more, with the same start and a cursor, a poll relies on no less. */
  lemma StaysOk(cfg: Config, chain: Chain, s: System, t: System, poll: Poll)
    requires PollOk(cfg, chain, s, poll) && Known(s.memory) <= Known(t.memory)
    requires s.memory.lastBlock.Some? || cfg.watchFrom.Some? ==> t.start == s.start
    requires s.memory.lastBlock.Some? ==> t.memory.lastBlock.Some?
    ensures PollOk(cfg, chain, t, poll)
  {
    hide Known, FoundAll, Keys;
  }

  lemma OthersStayOk(cfg: Config, chain: Chain, s: System, t: System)
    requires forall p | p in s.polls :: PollOk(cfg, chain, s, s.polls[p])
    requires Known(s.memory) <= Known(t.memory)
    requires s.memory.lastBlock.Some? || cfg.watchFrom.Some? ==> t.start == s.start
    requires s.memory.lastBlock.Some? ==> t.memory.lastBlock.Some?
    ensures forall p | p in s.polls :: PollOk(cfg, chain, t, s.polls[p])
  {
    hide PollOk, Known;
    forall p | p in s.polls ensures PollOk(cfg, chain, t, s.polls[p]) { StaysOk(cfg, chain, s, t, s.polls[p]); }
  }

  lemma KeysTail(ds: seq<Deposit>)
    requires ds != []
    ensures Keys(ds[1..]) <= Keys(ds) && ds[0].key in Keys(ds)
  {
    forall k | k in Keys(ds[1..]) ensures k in Keys(ds) {
      var i :| 0 <= i < |ds| - 1 && ds[1..][i].key == k;
      assert ds[i + 1].key == k;
    }
  }

  /** The deposit is filed and the poll goes on. */
  lemma FilingKeepsCovered(cfg: Config, chain: Chain, s: System, p: nat, d: Deposit, ok: bool, next: Poll)
    requires Covered(cfg, chain, s) && p in s.polls
    requires PollOk(cfg, chain, With(s, p, next).(memory := File(s.memory, d, ok)), next)
    ensures Covered(cfg, chain, With(s, p, next).(memory := File(s.memory, d, ok)))
  {
    hide PollOk, Known, File;
    var t := With(s, p, next).(memory := File(s.memory, d, ok));
    FilingIsKnown(s.memory, d, ok);
    MoreIsGood(cfg, chain, s.start, s.memory, t.memory);
    OthersStayOk(cfg, chain, s, t);
  }

  lemma RetryKeepsCovered(cfg: Config, chain: Chain, s: System, p: nat, ok: bool)
    requires Covered(cfg, chain, s) && Can(cfg, chain, s, RetryAnswer(p, ok))
    ensures Covered(cfg, chain, Step(cfg, s, RetryAnswer(p, ok)))
  {
    hide Known, File, Covers, StartsAt, Keys;
    var left := s.polls[p].left;
    KeysTail(left);
    FilingIsKnown(s.memory, left[0], ok);
    FilingKeepsCovered(cfg, chain, s, p, left[0], ok, Retrying(left[1..]));
  }

  lemma AnswerKeepsCovered(cfg: Config, chain: Chain, s: System, p: nat, ok: bool)
    requires Covered(cfg, chain, s) && Can(cfg, chain, s, Answer(p, ok))
    ensures Covered(cfg, chain, Step(cfg, s, Answer(p, ok)))
  {
    hide Known, File, Covers, StartsAt, Keys, FoundAll;
    var q := s.polls[p];
    var next := Claiming(q.lo, q.hi, q.found, q.i + 1);
    var t := With(s, p, next).(memory := File(s.memory, q.found[q.i], ok));
    FilingIsKnown(s.memory, q.found[q.i], ok);
    OneMoreKey(q.found, q.i);
    StaysOk(cfg, chain, s, t, q);
    FilingKeepsCovered(cfg, chain, s, p, q.found[q.i], ok, next);
  }

  lemma HeadKeepsCovered(cfg: Config, chain: Chain, s: System, p: nat, head: nat)
    requires cfg.maxSpan > 0 && Covered(cfg, chain, s) && Can(cfg, chain, s, GotHead(p, head))
    ensures Covered(cfg, chain, Step(cfg, s, GotHead(p, head)))
  {
    hide Known, FoundAll, Keys;
    var t := Step(cfg, s, GotHead(p, head));
    assert t.memory == s.memory.(lastBlock := t.memory.lastBlock);
    KnownIgnoresCursor(s.memory, t.memory.lastBlock);
    OthersStayOk(cfg, chain, s, t);
  }

  lemma FinishKeepsCovered(cfg: Config, chain: Chain, s: System, p: nat)
    requires Covered(cfg, chain, s) && Can(cfg, chain, s, Finish(p)) && Complete(s, s.polls[p])
    ensures Covered(cfg, chain, Step(cfg, s, Finish(p)))
  {
    hide Known, Keys, PollOk;
    var t := Step(cfg, s, Finish(p));
    KnownIgnoresCursor(s.memory, t.memory.lastBlock);
    FinishCoversIff(cfg, chain, s, p);
    FinishKeepsStart(cfg, chain, s, p);
    OthersStayOk(cfg, chain, s, t);
  }

  lemma FinishKeepsStart(cfg: Config, chain: Chain, s: System, p: nat)
    requires Covered(cfg, chain, s) && Can(cfg, chain, s, Finish(p))
    ensures StartsAt(cfg, s.start, Step(cfg, s, Finish(p)).memory)
  {
    hide Known, Keys, FoundAll;
  }

  lemma InKeys(ds: seq<Deposit>, i: nat, n: nat)
    requires i < n <= |ds|
    ensures ds[i].key in Keys(ds[..n])
  {
    assert ds[..n][i] == ds[i];
  }

  /**
   * After a poll moved the cursor everything is covered if and only if it left out nothing new, whatever other polls
   * did.
   */
  lemma FinishCoversIff(cfg: Config, chain: Chain, s: System, p: nat)
    requires Covered(cfg, chain, s) && Can(cfg, chain, s, Finish(p))
    ensures Covers(cfg, chain, s.start, Step(cfg, s, Finish(p)).memory) <==> Complete(s, s.polls[p])
  {
    hide Known, Keys;
    var q, t := s.polls[p], Step(cfg, s, Finish(p));
    assert PollOk(cfg, chain, s, q);
    KnownIgnoresCursor(s.memory, t.memory.lastBlock);
    if Complete(s, q) {
      forall i | 0 <= i < |chain| && cfg.watched(chain[i].key.token) && s.start <= chain[i].block <= q.hi
        ensures chain[i].key in Known(s.memory)
      {
        if chain[i].block >= q.lo {
          assert chain[i] in q.found;
          var j :| 0 <= j < |q.found| && q.found[j] == chain[i];
          if j < q.i { InKeys(q.found, j, q.i); }
        }
      }
    } else {
      var j :| q.i <= j < |q.found| && q.found[j].key !in Known(s.memory);
      assert q.found[j] in q.found;
      var i :| 0 <= i < |chain| && chain[i] == q.found[j];
      assert !Covers(cfg, chain, s.start, t.memory);
    }
  }

  /** A poll loses a deposit only when it stops short, and it stops short only once a shutdown began. */
  lemma LossNeedsAStop(cfg: Config, chain: Chain, s: System, e: Event)
    requires Can(cfg, chain, s, e) && Loses(s, e)
    ensures s.stopping
  {
  }

  lemma PlainStepKeepsCovered(cfg: Config, chain: Chain, s: System, e: Event)
    requires Covered(cfg, chain, s) && Can(cfg, chain, s, e)
    requires e.Begin? || e.RetryAsk? || e.RetryEnd? || e.GotLogs? || e.Skip? || e.Ask? || e.Throw? || e.Stop?
             || e.Save? || e.Kill?
    ensures Covered(cfg, chain, Step(cfg, s, e))
  {
    hide Known, FoundAll, Keys, Covers, StartsAt, ListsPending;
    if e.Begin? {
      ListedIsKnown(s.memory, e.retry);
    } else if e.GotLogs? {
      NoKeys(e.found);
    } else if e.Skip? {
      OneMoreKey(s.polls[e.p].found, s.polls[e.p].i);
    }
  }

  lemma ListedIsKnown(m: State, retry: seq<Deposit>)
    requires ListsPending(m, retry)
    ensures Keys(retry) <= Known(m)
  {
  }

  /**
   * No step of any poll, no save and no kill breaks coverage, except a poll that is cut short with a deposit left
   * out.
   */
  lemma StepKeepsCovered(cfg: Config, chain: Chain, s: System, e: Event)
    requires cfg.maxSpan > 0 && Covered(cfg, chain, s) && Can(cfg, chain, s, e) && !Loses(s, e)
    ensures Covered(cfg, chain, Step(cfg, s, e))
  {
    hide Covered, Step, CanGoOn;
    match e
    case RetryAnswer(p, ok) => RetryKeepsCovered(cfg, chain, s, p, ok);
    case Answer(p, ok) => AnswerKeepsCovered(cfg, chain, s, p, ok);
    case GotHead(p, head) => HeadKeepsCovered(cfg, chain, s, p, head);
    case Finish(p) => FinishIsClaiming(cfg, chain, s, p); FinishKeepsCovered(cfg, chain, s, p);
    case _ => PlainStepKeepsCovered(cfg, chain, s, e);
  }

  lemma FinishIsClaiming(cfg: Config, chain: Chain, s: System, p: nat)
    requires Can(cfg, chain, s, Finish(p))
    ensures s.polls[p].Claiming?
  {
  }

  ghost predicate LosesNothing(cfg: Config, s: System, es: seq<Event>) {
    forall i | 0 <= i < |es| :: !Loses(Run(cfg, s, es[..i]), es[i])
  }

  lemma FreshIsCovered(cfg: Config, chain: Chain)
    ensures Covered(cfg, chain, Fresh(cfg))
  {
  }

  /**
   * In every run, however the polls overlap, wherever saves and kills fall: if no poll was cut short with a deposit
   * left out, every watched deposit up to the cursor is claimed or pending, in memory and on disk.
   */
  lemma {:induction false} AlwaysCovered(cfg: Config, chain: Chain, es: seq<Event>)
    requires cfg.maxSpan > 0 && Legal(cfg, chain, Fresh(cfg), es) && LosesNothing(cfg, Fresh(cfg), es)
    ensures Covered(cfg, chain, Run(cfg, Fresh(cfg), es))
  {
    hide Covered, Step, Can, Loses;
    if es == [] {
      FreshIsCovered(cfg, chain);
    } else {
      var front := es[..|es| - 1];
      assert forall i | 0 <= i < |front| :: front[i] == es[i] && front[..i] == es[..i];
      AlwaysCovered(cfg, chain, front);
      assert !Loses(Run(cfg, Fresh(cfg), front), es[|es| - 1]);
      StepKeepsCovered(cfg, chain, Run(cfg, Fresh(cfg), front), es[|es| - 1]);
    }
  }

  lemma Extend(cfg: Config, chain: Chain, s: System, es: seq<Event>, e: Event)
    requires Legal(cfg, chain, s, es) && Can(cfg, chain, Run(cfg, s, es), e)
    ensures Legal(cfg, chain, s, es + [e]) && Run(cfg, s, es + [e]) == Step(cfg, Run(cfg, s, es), e)
  {
    hide Can, Step;
    assert (es + [e])[..|es|] == es;
  }

  // ---------------------------------------------------------------- claimed or pending, never both

  /** The key poll `p` waits for, if it waits for a claim. */
  ghost predicate Awaits(s: System, p: nat, k: Key) {
    p in s.polls && Awaited(s.polls[p]).Some? && Awaited(s.polls[p]).value.key == k
  }

  /** No claim in flight is for a claimed deposit, and no two are for one deposit. */
  ghost predicate Solo(s: System) {
    && (forall p, k | Awaits(s, p, k) :: k !in s.memory.claimed)
    && (forall p, q, k | Awaits(s, p, k) && Awaits(s, q, k) :: p == q)
  }

  /** The claim about to be sent is for a deposit that is not claimed and that no other poll is claiming. */
  ghost predicate AsksAlone(s: System, e: Event) {
    match e
    case RetryAsk(p) => p in s.polls && s.polls[p].Retrying? && s.polls[p].left != [] ==>
          Free(s, p, s.polls[p].left[0].key)
    case Ask(p) => p in s.polls && s.polls[p].Claiming? && s.polls[p].i < |s.polls[p].found| ==>
          Free(s, p, s.polls[p].found[s.polls[p].i].key)
    case _ => true
  }

  ghost predicate Free(s: System, p: nat, k: Key) {
    k !in s.memory.claimed && forall q | Awaits(s, q, k) :: q == p
  }

  /** Filing an answer keeps the sets disjoint if and only if it is a success or the deposit is not claimed already. */
  lemma FilingKeepsTidyIff(m: State, d: Deposit, ok: bool)
    requires Tidy(m)
    ensures Tidy(File(m, d, ok)) <==> ok || d.key !in m.claimed
  {
    var t := File(m, d, ok);
    if !ok && d.key in m.claimed { assert d.key in t.claimed && d.key in t.pending; }
  }

  ghost predicate TidySystem(s: System) {
    Tidy(s.memory) && Tidy(s.disk) && Solo(s)
  }

  lemma FilingKeepsTidy(s: System, p: nat, d: Deposit, ok: bool, next: Poll)
    requires TidySystem(s) && Awaits(s, p, d.key) && Awaited(next).None?
    ensures TidySystem(With(s, p, next).(memory := File(s.memory, d, ok)))
  {
    hide File, Tidy;
    FilingKeepsTidyIff(s.memory, d, ok);
    var t := With(s, p, next).(memory := File(s.memory, d, ok));
    assert t.memory.claimed <= s.memory.claimed + {d.key} by { FilingClaims(s.memory, d, ok); }
    assert forall q, k | Awaits(t, q, k) :: Awaits(s, q, k) && q != p;
  }

  lemma FilingClaims(m: State, d: Deposit, ok: bool)
    ensures File(m, d, ok).claimed <= m.claimed + {d.key}
  {
  }

  lemma TidyStep(cfg: Config, chain: Chain, s: System, e: Event)
    requires TidySystem(s) && Can(cfg, chain, s, e) && AsksAlone(s, e)
    ensures TidySystem(Step(cfg, s, e))
  {
    hide Tidy, File, Known, FoundAll;
    if e.RetryAnswer? {
      FilingKeepsTidy(s, e.p, s.polls[e.p].left[0], e.ok, Retrying(s.polls[e.p].left[1..]));
    } else if e.Answer? {
      var q := s.polls[e.p];
      FilingKeepsTidy(s, e.p, q.found[q.i], e.ok, Claiming(q.lo, q.hi, q.found, q.i + 1));
    } else {
      QuietStepKeepsTidy(cfg, chain, s, e);
    }
  }

  lemma QuietStepKeepsTidy(cfg: Config, chain: Chain, s: System, e: Event)
    requires TidySystem(s) && Can(cfg, chain, s, e) && AsksAlone(s, e) && !e.RetryAnswer? && !e.Answer?
    ensures TidySystem(Step(cfg, s, e))
  {
    hide Known, FoundAll, File, ListsPending;
    var t := Step(cfg, s, e);
    assert e.Kill? || (t.memory.claimed == s.memory.claimed && t.memory.pending == s.memory.pending);
    if e.RetryAsk? || e.Ask? {
      assert forall q, k | Awaits(t, q, k) && q != e.p :: Awaits(s, q, k);
    } else {
      assert forall q, k | Awaits(t, q, k) :: Awaits(s, q, k);
    }
  }

  ghost predicate AllAskAlone(cfg: Config, s: System, es: seq<Event>) {
    forall i | 0 <= i < |es| :: AsksAlone(Run(cfg, s, es[..i]), es[i])
  }

  /** If every claim is sent alone, no deposit is ever both claimed and pending, in memory or on disk. */
  lemma {:induction false} TidyWhenAlone(cfg: Config, chain: Chain, s: System, es: seq<Event>)
    requires TidySystem(s) && Legal(cfg, chain, s, es) && AllAskAlone(cfg, s, es)
    ensures TidySystem(Run(cfg, s, es))
  {
    hide TidySystem, Step, Can, AsksAlone;
    if es != [] {
      var front := es[..|es| - 1];
      assert forall i | 0 <= i < |front| :: front[i] == es[i] && front[..i] == es[..i];
      TidyWhenAlone(cfg, chain, s, front);
      assert AsksAlone(Run(cfg, s, front), es[|es| - 1]);
      TidyStep(cfg, chain, Run(cfg, s, front), es[|es| - 1]);
    }
  }

  ghost predicate OnlyAnswers(es: seq<Event>) {
    forall i | 0 <= i < |es| :: es[i].Answer? || es[i].RetryAnswer?
  }

  /** Some answers to the claims now in flight leave a deposit in both sets. */
  ghost predicate MayBreak(cfg: Config, chain: Chain, s: System) {
    exists es :: OnlyAnswers(es) && Legal(cfg, chain, s, es) && !Tidy(Run(cfg, s, es).memory)
  }

  /** The answer to the claim that `p` waits for. */
  function AnswerTo(s: System, p: nat, ok: bool): Event
    requires p in s.polls
  {
    if s.polls[p].RetryAsked? then RetryAnswer(p, ok) else Answer(p, ok)
  }

  lemma AnswerFiles(cfg: Config, chain: Chain, s: System, p: nat, k: Key, ok: bool)
    requires Awaits(s, p, k)
    ensures var t := Step(cfg, s, AnswerTo(s, p, ok));
            && Can(cfg, chain, s, AnswerTo(s, p, ok)) && t.memory == File(s.memory, Awaited(s.polls[p]).value, ok)
            && (forall q | q in s.polls && q != p :: q in t.polls && t.polls[q] == s.polls[q])
  {
    hide File;
  }

  lemma LegalNothing(cfg: Config, chain: Chain, s: System)
    ensures Legal(cfg, chain, s, []) && Run(cfg, s, []) == s
  {
  }

  /**
   * The exact condition: the claims in flight can break disjointness if and only if one is for a claimed deposit or
   * two are for one.
   */
  lemma BreaksIffNotSolo(cfg: Config, chain: Chain, s: System)
    requires Tidy(s.memory) && Tidy(s.disk)
    ensures MayBreak(cfg, chain, s) <==> !Solo(s)
  {
    hide Tidy, File, Step, Can, Run, Legal;
    if Solo(s) {
      forall es | OnlyAnswers(es) && Legal(cfg, chain, s, es) ensures Tidy(Run(cfg, s, es).memory) {
        TidyWhenAlone(cfg, chain, s, es);
      }
    } else if exists p, k :: Awaits(s, p, k) && k in s.memory.claimed {
      var p, k :| Awaits(s, p, k) && k in s.memory.claimed;
      var e := AnswerTo(s, p, false);
      AnswerFiles(cfg, chain, s, p, k, false);
      LegalNothing(cfg, chain, s);
      Extend(cfg, chain, s, [], e);
      FilingKeepsTidyIff(s.memory, Awaited(s.polls[p]).value, false);
      assert OnlyAnswers([] + [e]);
    } else {
      var p, q, k :| Awaits(s, p, k) && Awaits(s, q, k) && p != q;
      TwoAnswersBreak(cfg, chain, s, p, q, k);
    }
  }

  lemma TwoAnswersBreak(cfg: Config, chain: Chain, s: System, p: nat, q: nat, k: Key)
    requires Tidy(s.memory) && Awaits(s, p, k) && Awaits(s, q, k) && p != q
    ensures MayBreak(cfg, chain, s)
  {
    hide Tidy, File, Step, Can, Run, Legal;
    var e := AnswerTo(s, p, true);
    AnswerFiles(cfg, chain, s, p, k, true);
    var t := Step(cfg, s, e);
    var f := AnswerTo(t, q, false);
    assert Awaits(t, q, k);
    AnswerFiles(cfg, chain, t, q, k, false);
    LegalNothing(cfg, chain, s);
    Extend(cfg, chain, s, [], e);
    Extend(cfg, chain, s, [] + [e], f);
    FilingKeepsTidyIff(s.memory, Awaited(s.polls[p]).value, true);
    assert k in t.memory.claimed by { SuccessClaims(s.memory, Awaited(s.polls[p]).value); }
    FilingKeepsTidyIff(t.memory, Awaited(t.polls[q]).value, false);
    assert OnlyAnswers([] + [e] + [f]);
  }

  lemma SuccessClaims(m: State, d: Deposit)
    ensures d.key in File(m, d, true).claimed
  {
  }

  // ---------------------------------------------------------------- the cursor

  ghost predicate NotBack(a: Option<int>, b: Option<int>) {
    a.Some? ==> b.Some? && b.value >= a.value
  }

  /** A poll that ends holds an older block than the cursor has reached. */
  ghost predicate HoldsOlder(s: System, e: Event) {
    && e.Finish? && e.p in s.polls && s.polls[e.p].Claiming?
    && s.memory.lastBlock.Some? && s.polls[e.p].hi < s.memory.lastBlock.value
  }

  /** While the process lives the cursor moves back exactly when a poll ends that holds an older block. */
  lemma CursorMovesBackIff(cfg: Config, chain: Chain, s: System, e: Event)
    requires Can(cfg, chain, s, e) && !e.Kill?
    ensures !NotBack(s.memory.lastBlock, Step(cfg, s, e).memory.lastBlock) <==> HoldsOlder(s, e)
  {
    hide Known, FoundAll, ListsPending;
  }

  /** Over runs: without such a poll the cursor never moves back. */
  lemma {:induction false} CursorOverRuns(cfg: Config, chain: Chain, s: System, es: seq<Event>)
    requires Legal(cfg, chain, s, es)
    requires forall i | 0 <= i < |es| :: !es[i].Kill? && !HoldsOlder(Run(cfg, s, es[..i]), es[i])
    ensures NotBack(s.memory.lastBlock, Run(cfg, s, es).memory.lastBlock)
  {
    hide Step, Can, HoldsOlder;
    if es != [] {
      var front := es[..|es| - 1];
      assert forall i | 0 <= i < |front| :: front[i] == es[i] && front[..i] == es[..i];
      CursorOverRuns(cfg, chain, s, front);
      CursorMovesBackIff(cfg, chain, Run(cfg, s, front), es[|es| - 1]);
    }
  }

  // ---------------------------------------------------------------- polls that do not overlap

  ghost predicate Apart(ds: seq<Deposit>) {
    forall i, j | 0 <= i < j < |ds| :: ds[i].key != ds[j].key
  }

  ghost predicate AllPending(m: State, ds: seq<Deposit>) {
    forall i | 0 <= i < |ds| :: ds[i].key in m.pending
  }

  /** The range of the only poll begins right after the cursor. */
  ghost predicate Follows(cfg: Config, m: State, lo: int, hi: int) {
    lo <= hi && (m.lastBlock.Some? || cfg.watchFrom.Some?) && (m.lastBlock.Some? ==> lo == m.lastBlock.value + 1)
  }

  ghost predicate LonelyPoll(cfg: Config, s: System, poll: Poll) {
    match poll
    case Retrying(left) => Apart(left) && AllPending(s.memory, left)
    case RetryAsked(left) => Apart(left) && AllPending(s.memory, left)
    case NeedsHead => true
    case Scanning(lo, hi) => Follows(cfg, s.memory, lo, hi)
    case Claiming(lo, hi, _, _) => Follows(cfg, s.memory, lo, hi)
    case Asked(lo, hi, found, i) => Follows(cfg, s.memory, lo, hi) && (i < |found| ==>
        found[i].key !in s.memory.claimed)
  }

  ghost predicate Lonely(cfg: Config, s: System) {
    && Tidy(s.memory) && Tidy(s.disk) && (forall p, q | p in s.polls && q in s.polls :: p == q)
    && (forall p | p in s.polls :: LonelyPoll(cfg, s, s.polls[p]))
  }

  lemma LonelyRetry(cfg: Config, s: System, p: nat, ok: bool)
    requires Lonely(cfg, s) && p in s.polls && s.polls[p].RetryAsked? && s.polls[p].left != []
    ensures Lonely(cfg, Step(cfg, s, RetryAnswer(p, ok)))
  {
    hide Tidy;
    var left := s.polls[p].left;
    assert left[0].key !in s.memory.claimed by { PendingIsNotClaimed(s.memory, left[0].key); }
    FilingKeepsTidyIff(s.memory, left[0], ok);
    assert forall i | 0 <= i < |left| - 1 :: left[1..][i] == left[i + 1];
  }

  lemma PendingIsNotClaimed(m: State, k: Key)
    requires Tidy(m) && k in m.pending
    ensures k !in m.claimed
  {
  }

  lemma LonelyStep(cfg: Config, chain: Chain, s: System, e: Event)
    requires cfg.maxSpan > 0 && Lonely(cfg, s) && Can(cfg, chain, s, e) && (e.Begin? ==> s.polls == map[])
    ensures Lonely(cfg, Step(cfg, s, e)) && (!e.Kill? ==> NotBack(s.memory.lastBlock, Step(cfg, s, e).memory.lastBlock))
  {
    hide FoundAll;
    if e.RetryAnswer? {
      LonelyRetry(cfg, s, e.p, e.ok);
    } else if e.Answer? {
      hide Tidy;
      FilingKeepsTidyIff(s.memory, s.polls[e.p].found[s.polls[e.p].i], e.ok);
    } else {
      LonelyQuietStep(cfg, chain, s, e);
    }
  }

  lemma LonelyQuietStep(cfg: Config, chain: Chain, s: System, e: Event)
    requires cfg.maxSpan > 0 && Lonely(cfg, s) && Can(cfg, chain, s, e) && (e.Begin? ==> s.polls == map[])
    requires !e.RetryAnswer? && !e.Answer?
    ensures Lonely(cfg, Step(cfg, s, e)) && (!e.Kill? ==> NotBack(s.memory.lastBlock, Step(cfg, s, e).memory.lastBlock))
  {
    hide FoundAll, File;
  }

  ghost predicate NoOverlap(cfg: Config, s: System, es: seq<Event>) {
    forall i | 0 <= i < |es| :: es[i].Begin? ==> Run(cfg, s, es[..i]).polls == map[]
  }

  /** Polls that do not overlap keep both: no deposit is in both sets, and the cursor moves back only at a restart. */
  lemma {:induction false} AlonePollsKeepBoth(cfg: Config, chain: Chain, es: seq<Event>)
    requires cfg.maxSpan > 0 && Legal(cfg, chain, Fresh(cfg), es) && NoOverlap(cfg, Fresh(cfg), es)
    ensures Lonely(cfg, Run(cfg, Fresh(cfg), es))
    ensures es != [] && !es[|es| - 1].Kill? ==>
              NotBack(Run(cfg, Fresh(cfg), es[..|es| - 1]).memory.lastBlock, Run(cfg, Fresh(cfg), es).memory.lastBlock)
  {
    hide Step, Can, Lonely;
    if es == [] {
      assert Lonely(cfg, Fresh(cfg)) by { FreshIsLonely(cfg); }
    } else {
      var front := es[..|es| - 1];
      assert forall i | 0 <= i < |front| :: front[i] == es[i] && front[..i] == es[..i];
      AlonePollsKeepBoth(cfg, chain, front);
      LonelyStep(cfg, chain, Run(cfg, Fresh(cfg), front), es[|es| - 1]);
    }
  }

  lemma FreshIsLonely(cfg: Config)
    ensures Lonely(cfg, Fresh(cfg))
  {
  }

  // ---------------------------------------------------------------- what overlap does

  /** From block 1, all contracts watched, no confirmations asked for. */
  function Plain(): Config {
    Config(Some(1), 0, 0, 2000, token => true)
  }

  function Sample(): Deposit {
    Deposit(Key(Eth, "0x1"), "key", 1)
  }

  /** Two polls reach the claim loop, with heads `a` and `b` and the same deposits found. */
  function TwoScans(a: nat, b: nat, found: seq<Deposit>): seq<Event> {
    [Begin(0, []), Begin(1, []), RetryEnd(0), RetryEnd(1), GotHead(0, a), GotHead(1, b), GotLogs(0, found),
     GotLogs(1, found)]
  }

  lemma TwoScansReach(a: nat, b: nat, chain: Chain)
    requires 1 <= a <= 2000 && 1 <= b <= 2000
    requires FoundAll(Plain(), chain, 1, a, chain) && FoundAll(Plain(), chain, 1, b, chain)
    ensures var t := Run(Plain(), Fresh(Plain()), TwoScans(a, b, chain));
            && Legal(Plain(), chain, Fresh(Plain()), TwoScans(a, b, chain))
            && t.memory == State(None, {}, map[]) && !t.stopping
            && t.polls == map[0 := Claiming(1, a, chain, 0), 1 := Claiming(1, b, chain, 0)]
  {
    hide FoundAll, Run, Legal;
    var cfg, s, es := Plain(), Fresh(Plain()), TwoScans(a, b, chain);
    LegalNothing(cfg, chain, s);
    Extend(cfg, chain, s, es[..0], es[0]);
    assert es[..0] + [es[0]] == es[..1];
    Extend(cfg, chain, s, es[..1], es[1]);
    assert es[..1] + [es[1]] == es[..2];
    Extend(cfg, chain, s, es[..2], es[2]);
    assert es[..2] + [es[2]] == es[..3];
    Extend(cfg, chain, s, es[..3], es[3]);
    assert es[..3] + [es[3]] == es[..4];
    ThenRanges(a, b, chain, es, Run(cfg, s, es[..4]));
  }

  lemma ThenRanges(a: nat, b: nat, chain: Chain, es: seq<Event>, mid: System)
    requires 1 <= a <= 2000 && 1 <= b <= 2000 && es == TwoScans(a, b, chain)
    requires FoundAll(Plain(), chain, 1, a, chain) && FoundAll(Plain(), chain, 1, b, chain)
    requires Legal(Plain(), chain, Fresh(Plain()), es[..4]) && mid == Run(Plain(), Fresh(Plain()), es[..4])
    requires mid.memory == State(None, {}, map[]) && !mid.stopping && mid.polls == map[0 := NeedsHead, 1 := NeedsHead]
    ensures var t := Run(Plain(), Fresh(Plain()), es);
            && Legal(Plain(), chain, Fresh(Plain()), es) && t.memory == mid.memory && !t.stopping
            && t.polls == map[0 := Claiming(1, a, chain, 0), 1 := Claiming(1, b, chain, 0)]
  {
    hide FoundAll, Run, Legal;
    var cfg, s := Plain(), Fresh(Plain());
    Extend(cfg, chain, s, es[..4], es[4]);
    assert es[..4] + [es[4]] == es[..5];
    Extend(cfg, chain, s, es[..5], es[5]);
    assert es[..5] + [es[5]] == es[..6];
    Extend(cfg, chain, s, es[..6], es[6]);
    assert es[..6] + [es[6]] == es[..7];
    Extend(cfg, chain, s, es[..7], es[7]);
    assert es[..7] + [es[7]] == es;
  }

  /** Two polls claim one new deposit; one claim succeeds, the other times out: the deposit is claimed and pending. */
  lemma OverlapBreaksDisjointness()
    ensures exists es ::
              Legal(Plain(), [Sample()], Fresh(Plain()), es)
              && !Tidy(Run(Plain(), Fresh(Plain()), es).memory)
  {
    hide FoundAll, Run, Legal, Tidy;
    var cfg, s, chain, es := Plain(), Fresh(Plain()), [Sample()], TwoScans(1, 1, [Sample()]);
    SampleIsFound();
    TwoScansReach(1, 1, chain);
    Extend(cfg, chain, s, es, Ask(0));
    Extend(cfg, chain, s, es + [Ask(0)], Ask(1));
    var both := es + [Ask(0)] + [Ask(1)];
    Extend(cfg, chain, s, both, Answer(1, true));
    Extend(cfg, chain, s, both + [Answer(1, true)], Answer(0, false));
    var all := both + [Answer(1, true)] + [Answer(0, false)];
    var m := Run(cfg, s, all).memory;
    assert Sample().key in m.claimed && Sample().key in m.pending;
    assert !Tidy(m) by { InBoth(m, Sample().key); }
  }

  lemma InBoth(m: State, k: Key)
    requires k in m.claimed && k in m.pending
    ensures !Tidy(m)
  {
  }

  lemma SampleIsFound()
    ensures FoundAll(Plain(), [Sample()], 1, 1, [Sample()])
  {
  }

  lemma NothingIsFound(hi: int)
    ensures FoundAll(Plain(), [], 1, hi, [])
  {
  }

  /** A poll that read block 20 ends after one that read block 21: the cursor moves back. */
  lemma OverlapMovesTheCursorBack()
    ensures exists es, e :: Legal(Plain(), [], Fresh(Plain()), es + [e]) && !e.Kill?
                            && Run(Plain(), Fresh(Plain()), es).memory.lastBlock == Some(21)
                            && Run(Plain(), Fresh(Plain()), es + [e]).memory.lastBlock == Some(20)
  {
    hide FoundAll, Run, Legal;
    var cfg, s, es := Plain(), Fresh(Plain()), TwoScans(20, 21, []);
    NothingIsFound(20);
    NothingIsFound(21);
    TwoScansReach(20, 21, []);
    Extend(cfg, [], s, es, Finish(1));
    Extend(cfg, [], s, es + [Finish(1)], Finish(0));
    assert Legal(cfg, [], s, (es + [Finish(1)]) + [Finish(0)]);
  }
}
