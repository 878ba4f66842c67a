/**
 * The deposit watcher: a scan cursor, the deposits already claimed and those still to be claimed, in
 * memory and on disk. Any call may fail; the process may be killed and restarted from disk at any time.
 */
module Deposits {
  import opened Common

  datatype Token = Eth | Usdc | Xrge
  datatype Key = Key(token: Token, txHash: string)
  datatype Deposit = Deposit(key: Key, pubkey: string, block: int)

  /** Deposits on chain at or below the safe head, which no longer change. */
  type Chain = seq<Deposit>

  /** `lastBlock` is the last fully scanned block. */
  datatype State = State(lastBlock: Option<int>, claimed: set<Key>, pending: map<Key, Deposit>)

  function Known(s: State): set<Key> {
    s.claimed + s.pending.Keys
  }

  /** `watchFrom` is the configured start; `watched` says which contracts are configured. */
  datatype Config = Config(watchFrom: Option<int>, confirmations: nat, daemonMinimum: nat, maxSpan: int,
                           watched: Token -> bool)

  /** `depositWatcherSafeHead`, when it is positive. */
  function SafeHead(cfg: Config, head: nat): int {
    head - EffectiveDepth(cfg.confirmations, cfg.daemonMinimum)
  }

  // ---------------------------------------------------------------- invariants

  /** Every supported deposit from `start` up to the cursor is claimed or pending. */
  ghost predicate Covers(cfg: Config, chain: Chain, start: int, s: State) {
    s.lastBlock.Some? ==>
      forall i | 0 <= i < |chain| && cfg.watched(chain[i].key.token) && start <= chain[i].block <= s.lastBlock.value ::
        chain[i].key in Known(s)
  }

  /** No deposit is both claimed and waiting, and pending deposits are filed under their own keys. */
  ghost predicate Tidy(s: State) {
    s.claimed !! s.pending.Keys && forall k | k in s.pending :: s.pending[k].key == k
  }

  /** Without a configured start, what counts begins after the block the watcher was first anchored at. */
  ghost predicate StartsAt(cfg: Config, start: int, s: State) {
    (cfg.watchFrom.Some? ==> start == cfg.watchFrom.value) && (s.lastBlock.Some? ==> start <= s.lastBlock.value + 1)
  }

  ghost predicate Sane(cfg: Config, start: int, s: State) {
    Tidy(s) && StartsAt(cfg, start, s)
  }

  ghost predicate Good(cfg: Config, chain: Chain, start: int, s: State) {
    Covers(cfg, chain, start, s) && Sane(cfg, start, s)
  }

  // ---------------------------------------------------------------- scanning

  function DepositsIn(chain: Chain, token: Token, lo: int, hi: int): (r: seq<Deposit>)
    ensures forall d :: d in r <==> d in chain && d.key.token == token && lo <= d.block <= hi
  {
    if chain == [] then []
    else
      var rest := DepositsIn(chain[1..], token, lo, hi);
      if chain[0].key.token == token && lo <= chain[0].block <= hi then [chain[0]] + rest else rest
  }

  ghost predicate FoundAll(cfg: Config, chain: Chain, lo: int, hi: int, found: seq<Deposit>) {
    forall d :: d in found <==> d in chain && cfg.watched(d.key.token) && lo <= d.block <= hi
  }

  function Keys(ds: seq<Deposit>): set<Key> {
    set i | 0 <= i < |ds| :: ds[i].key
  }

  /** What the loop over the found deposits does to the known keys. */
  lemma CursorAdvances(cfg: Config, chain: Chain, start: int, s: State, t: State, lo: int, hi: int, found: seq<Deposit>)
    requires Good(cfg, chain, start, s) && Tidy(t) && FoundAll(cfg, chain, lo, hi, found) && lo <= hi
    requires lo == (if s.lastBlock.Some? then s.lastBlock.value + 1 else start) && t.lastBlock == Some(hi)
    requires Known(s) + Keys(found) <= Known(t)
    requires s.lastBlock.None? ==> cfg.watchFrom.Some?
    ensures Good(cfg, chain, start, t)
  {
    hide Known;
    forall i | 0 <= i < |chain| && cfg.watched(chain[i].key.token) && start <= chain[i].block <= hi
      ensures chain[i].key in Known(t)
    {
      if chain[i].block >= lo {
        assert chain[i] in found;
        var j :| 0 <= j < |found| && found[j] == chain[i];
        assert found[j].key in Keys(found);
      } else {
        assert chain[i].key in Known(s);
      }
    }
  }

  /** Where a poll that meets no failure leaves the cursor. */
  function NextCursor(cfg: Config, last: Option<int>, safeHead: int): Option<int> {
    if last.None? && cfg.watchFrom.None? then Some(safeHead)
    else
      var from := if last.Some? then last.value + 1 else cfg.watchFrom.value;
      if from > safeHead then last
      else Some(if safeHead - from + 1 > cfg.maxSpan then from + cfg.maxSpan - 1 else safeHead)
  }

  // ---------------------------------------------------------------- the watcher

  /** Answers by the number of calls made so far; `None` is a throw. */
  datatype Env = Env(
    head: nat -> Option<nat>,
    answers: nat -> bool,
    claim: nat -> Option<bool>,
    stopping: nat -> bool,
    saves: nat -> bool)

  /** No call fails, and the head is `head`. */
  ghost predicate Healthy(env: Env, head: nat) {
    forall t: nat :: env.claim(t).Some? && env.answers(t) && env.head(t) == Some(head)
  }

  // ---------------------------------------------------------------- the claim loop, and what it leaves out

  datatype LoopEnd = LoopEnd(done: nat, threw: bool)

  /** How far the loop over the found deposits gets from the `i`th, called at `clock` with these keys known. */
  function ClaimLoop(env: Env, clock: nat, known: set<Key>, found: seq<Deposit>, i: nat): (end: LoopEnd)
    requires i <= |found|
    ensures i <= end.done <= |found|
    decreases |found| - i
  {
    if i == |found| || env.stopping(clock) then LoopEnd(i, false)
    else if found[i].key in known then ClaimLoop(env, clock + 1, known, found, i + 1)
    else if env.claim(clock + 1).None? then LoopEnd(i, true)
    else ClaimLoop(env, clock + 2, known + {found[i].key}, found, i + 1)
  }

  lemma LoopStep(env: Env, clock: nat, known: set<Key>, found: seq<Deposit>, i: nat)
    requires i <= |found|
    ensures ClaimLoop(env, clock, known, found, i) ==
              if i == |found| || env.stopping(clock) then LoopEnd(i, false)
              else if found[i].key in known then ClaimLoop(env, clock + 1, known, found, i + 1)
              else if env.claim(clock + 1).None? then LoopEnd(i, true)
              else ClaimLoop(env, clock + 2, known + {found[i].key}, found, i + 1)
  {
  }

  /** A claim loop that a poll reached: when, with what known, and over which deposits of which blocks. */
  datatype Loop = Loop(clock: nat, known: set<Key>, lo: int, hi: int, found: seq<Deposit>)

  /** Every deposit from the `done`th on was known before, or is one of those before it. */
  predicate Caught(known: set<Key>, found: seq<Deposit>, done: nat)
    requires done <= |found|
  {
    forall j | done <= j < |found| :: found[j].key in known + Keys(found[..done])
  }

  /** The loop threw, so that the cursor stays, or it left out nothing new. */
  predicate Kept(env: Env, l: Loop) {
    var end := ClaimLoop(env, l.clock, l.known, l.found, 0);
    end.threw || Caught(l.known, l.found, end.done)
  }

  /** A loop that meets no stop while it runs, two ticks to a deposit at most, goes through all of them or throws. */
  lemma {:induction false} RunsToTheEnd(env: Env, clock: nat, known: set<Key>, found: seq<Deposit>, i: nat)
    requires i <= |found| && forall t: nat | clock <= t <= clock + 2 * (|found| - i) :: !env.stopping(t)
    ensures var end := ClaimLoop(env, clock, known, found, i); end.threw || end.done == |found|
    decreases |found| - i
  {
    if i < |found| {
      if found[i].key in known {
        RunsToTheEnd(env, clock + 1, known, found, i + 1);
      } else if env.claim(clock + 1).Some? {
        RunsToTheEnd(env, clock + 2, known + {found[i].key}, found, i + 1);
      }
    }
  }

  class Watcher {
    const cfg: Config
    const env: Env
    const chain: Chain
    var clock: nat
    var memory: State
    var disk: State
    ghost var start: int
    ghost var diskStart: int

    constructor (cfg: Config, env: Env, chain: Chain)
      ensures Valid() && memory == State(None, {}, map[]) && disk == memory
      ensures this.cfg == cfg && this.env == env && this.chain == chain
    {
      this.cfg, this.env, this.chain := cfg, env, chain;
      clock, memory, disk := 0, State(None, {}, map[]), State(None, {}, map[]);
      start := if cfg.watchFrom.Some? then cfg.watchFrom.value else 0;
      diskStart := if cfg.watchFrom.Some? then cfg.watchFrom.value else 0;
    }

    ghost predicate Valid()
      reads this
    {
      Good(cfg, chain, start, memory) && Good(cfg, chain, diskStart, disk)
    }

    /** What no stop can break. */
    ghost predicate Orderly()
      reads this
    {
      Sane(cfg, start, memory) && Sane(cfg, diskStart, disk)
    }

    /** The process is killed and starts again. */
    method Restart()
      modifies this`memory, this`start
      ensures memory == disk && start == diskStart
      ensures Good(cfg, chain, diskStart, disk) ==> Valid()
    {
      memory, start := disk, diskStart;
    }

    method Tick() returns (t: nat)
      modifies this`clock
      ensures t == old(clock) && clock == t + 1
    {
      t := clock;
      clock := clock + 1;
    }

    /** `saveDepositState`: a failed write is only logged. */
    method Save()
      modifies this`clock, this`disk, this`diskStart
      ensures clock == old(clock) + 1
      ensures if env.saves(old(clock))
              then disk == memory && diskStart == start
              else disk == old(disk) && diskStart == old(diskStart)
    {
      var t := Tick();
      if env.saves(t) {
        disk, diskStart := memory, start;
      }
    }

    /** `claimOne`: into claimed, or into pending; false when the daemon call threw. */
    method ClaimOne(d: Deposit) returns (ok: bool)
      requires Tidy(memory) && d.key !in memory.claimed
      modifies this`clock, this`memory
      ensures Tidy(memory) && memory.lastBlock == old(memory.lastBlock) && old(memory.claimed) <= memory.claimed
      ensures clock == old(clock) + 1
      ensures Known(memory) == if ok then Known(old(memory)) + {d.key} else Known(old(memory))
      ensures ok <==> env.claim(old(clock)).Some?
      ensures env.claim(old(clock)) == Some(true) ==> d.key in memory.claimed
      ensures memory.claimed <= old(memory.claimed) + {d.key}
    {
      FilesTheKey(memory, d);
      var t := Tick();
      var a := env.claim(t);
      ok := a.Some?;
      if a.Some? && a.value {
        memory := memory.(claimed := memory.claimed + {d.key}, pending := memory.pending - {d.key});
      } else if a.Some? {
        memory := memory.(pending := memory.pending[d.key := d]);
      }
    }

    /** Retry what is pending; false when a call threw. */
    method RetryPending() returns (ok: bool)
      requires Tidy(memory)
      modifies this`clock, this`memory
      ensures Tidy(memory) && memory.lastBlock == old(memory.lastBlock) && Known(memory) == Known(old(memory))
      ensures old(memory.claimed) <= memory.claimed && old(clock) <= clock
      ensures !ok ==> exists t: nat :: env.claim(t).None?
    {
      var left := memory.pending.Keys;
      ok := true;
      var stopped := false;
      while left != {} && ok && !stopped
        invariant Tidy(memory) && memory.lastBlock == old(memory.lastBlock) && Known(memory) == Known(old(memory))
        invariant old(memory.claimed) <= memory.claimed && left <= memory.pending.Keys && old(clock) <= clock
        invariant !ok ==> exists t: nat :: env.claim(t).None?
        decreases left, !stopped
      {
        var t := Tick();
        stopped := env.stopping(t);
        if !stopped {
          var k :| k in left;
          left := left - {k};
          ok := ClaimOne(memory.pending[k]);
          assert forall j | j in left :: j in Known(memory) && j !in memory.claimed;
        }
      }
    }

    /** The log queries; `None` when one threw. */
    method Scan(lo: int, hi: int) returns (found: Option<seq<Deposit>>)
      modifies this`clock
      ensures found.Some? ==> FoundAll(cfg, chain, lo, hi, found.value)
      ensures found.None? ==> exists t: nat :: !env.answers(t)
      ensures old(clock) <= clock
    {
      var tokens := [Eth, Usdc, Xrge];
      var out: seq<Deposit> := [];
      for i := 0 to 3
        invariant old(clock) <= clock
        invariant forall d :: d in out <==>
                    d in chain && cfg.watched(d.key.token) && lo <= d.block <= hi && d.key.token in tokens[..i]
      {
        if cfg.watched(tokens[i]) {
          var t := Tick();
          if !env.answers(t) { return None; }
          out := out + DepositsIn(chain, tokens[i], lo, hi);
        }
        assert tokens[..i + 1] == tokens[..i] + [tokens[i]];
      }
      assert tokens[..3] == tokens;
      forall k: Token ensures k in tokens { assert k == Eth || k == Usdc || k == Xrge; }
      return Some(out);
    }

    /** Claim each found deposit that is not known yet, until a shutdown is noticed; `done` of them were dealt with. */
    method ClaimFound(found: seq<Deposit>) returns (ok: bool, done: nat)
      requires Tidy(memory)
      modifies this`clock, this`memory
      ensures Tidy(memory) && memory.lastBlock == old(memory.lastBlock) && old(memory.claimed) <= memory.claimed
      ensures LoopEnd(done, !ok) == ClaimLoop(env, old(clock), Known(old(memory)), found, 0)
      ensures Known(memory) == Known(old(memory)) + Keys(found[..done])
      ensures ok && done < |found| ==> exists t: nat :: old(clock) <= t < clock && env.stopping(t)
      ensures !ok ==> exists t: nat :: old(clock) <= t < clock && env.claim(t).None?
      ensures old(clock) <= clock
    {
      hide Known, ClaimLoop, Keys, Tidy;
      ok, done := true, 0;
      var stopped := false;
      NoKeys(found);
      ghost var whole := ClaimLoop(env, clock, Known(memory), found, 0);
      while done < |found| && ok && !stopped
        invariant Tidy(memory) && memory.lastBlock == old(memory.lastBlock) && old(memory.claimed) <= memory.claimed
                  && old(clock) <= clock
        invariant done <= |found| && Known(memory) == Known(old(memory)) + Keys(found[..done])
        invariant whole == if ok && !stopped then ClaimLoop(env, clock, Known(memory), found, done)
                  else LoopEnd(done, !ok)
        invariant stopped ==> ok && exists t: nat :: old(clock) <= t < clock && env.stopping(t)
        invariant !ok ==> exists t: nat :: old(clock) <= t < clock && env.claim(t).None?
        decreases |found| - done, ok, !stopped
      {
        LoopStep(env, clock, Known(memory), found, done);
        var t := Tick();
        stopped := env.stopping(t);
        if !stopped {
          var d := found[done];
          OneMoreKey(found, done);
          KnownIs(memory, d.key);
          if d.key !in memory.claimed && d.key !in memory.pending {
            ok := ClaimOne(d);
          }
          if ok { done := done + 1; }
        }
      }
      if ok && !stopped { LoopStep(env, clock, Known(memory), found, done); }
    }

    /** First run with no configured start: begin after the current safe head. */
    method Anchor(safeHead: int)
      requires Orderly() && memory.lastBlock.None? && cfg.watchFrom.None?
      modifies this
      ensures Orderly() && memory == old(memory).(lastBlock := Some(safeHead)) && old(clock) <= clock
      ensures old(Valid()) ==> Valid()
      ensures (disk == old(disk) && diskStart == old(diskStart)) || (disk == memory && diskStart == start)
      ensures env.saves(old(clock)) ==> disk == memory && diskStart == start
    {
      memory := memory.(lastBlock := Some(safeHead));
      start := safeHead + 1;
      Save();
    }

    /**
     * The claim loop, and the cursor after it. Unless the loop threw, the cursor moves over all of `found`, whether or
     * not the loop reached its end.
     */
    method ClaimAndAdvance(lo: int, hi: int, found: seq<Deposit>)
      requires Orderly() && lo <= hi && FoundAll(cfg, chain, lo, hi, found)
      requires lo == (if memory.lastBlock.Some? then memory.lastBlock.value + 1 else start)
      requires memory.lastBlock.None? ==> cfg.watchFrom.Some?
      modifies this`clock, this`memory, this`disk, this`diskStart
      ensures Orderly() && old(clock) <= clock
      ensures var end := ClaimLoop(env, old(clock), Known(old(memory)), found, 0);
              memory.lastBlock == (if end.threw then old(memory.lastBlock) else Some(hi))
              && Known(memory) == Known(old(memory)) + Keys(found[..end.done])
              && (end.threw ==> exists t: nat :: old(clock) <= t < clock && env.claim(t).None?)
      ensures old(memory.claimed) <= memory.claimed
      ensures (disk == old(disk) && diskStart == old(diskStart)) || (disk == memory && diskStart == start)
      ensures memory.lastBlock != old(memory.lastBlock) && (forall t: nat :: env.saves(t)) ==>
                disk == memory && diskStart == start
      ensures var l := Loop(old(clock), Known(old(memory)), lo, hi, found);
              && (old(Covers(cfg, chain, start, memory)) ==> (Covers(cfg, chain, start, memory) <==> Kept(env, l)))
              && (!Kept(env, l) ==> exists t: nat :: old(clock) <= t < clock && env.stopping(t))
    {
      hide Covers, Known, FoundAll;
      ghost var before := memory;
      ghost var l := Loop(clock, Known(memory), lo, hi, found);
      var ok, done := ClaimFound(found);
      if old(Covers(cfg, chain, start, memory)) { MoreIsGood(cfg, chain, start, before, memory); }
      assert !Kept(env, l) ==> ok && done < |found|;
      if ok {
        ghost var caught := memory;
        memory := memory.(lastBlock := Some(hi));
        KnownIgnoresCursor(caught, Some(hi));
        CoversIffCaught(cfg, chain, start, before, memory, lo, hi, found, done);
        Save();
      }
    }

    /** The loop of a call that began at `since` with memory `before`, over all that lies from the cursor up to `hi`. */
    ghost predicate IsLoopOf(l: Loop, since: nat, before: State, start: int)
      reads this
    {
      && FoundAll(cfg, chain, l.lo, l.hi, l.found) && l.known == Known(before) && since <= l.clock <= clock
      && l.lo == (if before.lastBlock.Some? then before.lastBlock.value + 1 else start)
    }

    /**
     * If all was covered before it, all is covered after it exactly when the loop kept everything; if not, a stop was
     * noticed in it.
     */
    ghost predicate Advances(l: Loop, covered: bool)
      reads this
    {
      && (covered ==> (Covers(cfg, chain, start, memory) <==> Kept(env, l)))
      && (!Kept(env, l) ==> exists t: nat :: l.clock <= t < clock && env.stopping(t))
    }

    /** From a safe head on: anchor, wait, or scan and claim. `loop` is the claim loop, if it was reached. */
    method ScanTo(safeHead: int) returns (ghost loop: Option<Loop>)
      requires Orderly() && cfg.maxSpan > 0
      modifies this
      ensures Orderly() && old(clock) <= clock
      ensures loop.None? && old(Valid()) ==> Valid()
      ensures loop.Some? ==> IsLoopOf(loop.value, old(clock), old(memory), start) && start == old(start)
      ensures loop.Some? ==> Advances(loop.value, old(Covers(cfg, chain, start, memory)))
      ensures memory.lastBlock != old(memory.lastBlock) && old(memory.lastBlock.Some? || cfg.watchFrom.Some?) ==>
                loop.Some?
      ensures loop.Some? ==> memory.lastBlock in {old(memory.lastBlock), Some(loop.value.hi)}
      ensures (disk == old(disk) && diskStart == old(diskStart)) || (disk == memory && diskStart == start)
      ensures memory.lastBlock != old(memory.lastBlock) && (forall t: nat :: env.saves(t)) ==>
                disk == memory && diskStart == start
      ensures memory.lastBlock.Some? || old(memory.lastBlock).None?
      ensures old(memory.lastBlock).Some? ==> memory.lastBlock.value >= old(memory.lastBlock).value
      ensures Known(old(memory)) <= Known(memory) && old(memory.claimed) <= memory.claimed
      ensures memory.lastBlock == NextCursor(cfg, old(memory.lastBlock), safeHead) || exists t: nat ::
                env.claim(t).None? || !env.answers(t)
    {
      hide Covers, Known, FoundAll, Kept, Good;
      loop := None;
      if memory.lastBlock.None? && cfg.watchFrom.None? {
        KnownIgnoresCursor(memory, Some(safeHead));
        Anchor(safeHead);
      } else {
        var fromBlock := if memory.lastBlock.Some? then memory.lastBlock.value + 1 else cfg.watchFrom.value;
        if fromBlock <= safeHead {
          var toBlock := if safeHead - fromBlock + 1 > cfg.maxSpan then fromBlock + cfg.maxSpan - 1 else safeHead;
          var found := Scan(fromBlock, toBlock);
          if found.Some? {
            loop := Some(Loop(clock, Known(memory), fromBlock, toBlock, found.value));
            ClaimAndAdvance(fromBlock, toBlock, found.value);
          }
        }
      }
    }

    /** `processDeposits`. `loop` is the claim loop, if the poll got as far as that. */
    method ProcessDeposits() returns (ghost loop: Option<Loop>)
      requires Orderly() && cfg.maxSpan > 0
      modifies this
      ensures Orderly() && old(clock) <= clock
      ensures loop.None? && old(Valid()) ==> Valid()
      ensures loop.Some? ==> IsLoopOf(loop.value, old(clock), old(memory), start) && start == old(start)
      ensures loop.Some? ==> Advances(loop.value, old(Covers(cfg, chain, start, memory)))
      ensures loop.Some? ==> memory.lastBlock in {old(memory.lastBlock), Some(loop.value.hi)}
      ensures memory.lastBlock != old(memory.lastBlock) && old(memory.lastBlock.Some? || cfg.watchFrom.Some?) ==>
                loop.Some?
      ensures (disk == old(disk) && diskStart == old(diskStart)) || (disk == memory && diskStart == start)
      ensures memory.lastBlock != old(memory.lastBlock) && (forall t: nat :: env.saves(t)) ==>
                disk == memory && diskStart == start
      ensures memory.lastBlock.Some? || old(memory.lastBlock).None?
      ensures old(memory.lastBlock).Some? ==> memory.lastBlock.value >= old(memory.lastBlock).value
      ensures Known(old(memory)) <= Known(memory) && old(memory.claimed) <= memory.claimed
      ensures forall head: nat | Healthy(env, head) && SafeHead(cfg, head) > 0 ::
                memory.lastBlock == NextCursor(cfg, old(memory.lastBlock), SafeHead(cfg, head))
    {
      hide Covers, Known, FoundAll, Kept, Good;
      loop := None;
      var retried := RetryPending();
      if old(Covers(cfg, chain, start, memory)) { MoreIsGood(cfg, chain, start, old(memory), memory); }
      GoodIs(cfg, chain, start, old(memory));
      GoodIs(cfg, chain, start, memory);
      if retried {
        var t := Tick();
        var head := env.head(t);
        if head.Some? && SafeHead(cfg, head.value) > 0 {
          loop := ScanTo(SafeHead(cfg, head.value));
        }
      }
    }

    /**
     * Polls, restarts and saves at shutdown, in any order: nothing is missed unless a claim loop was cut short before a
     * deposit it had not seen. `loops` are the claim loops of the run. A kill inside a poll is a kill before it: the
     * save is the last thing a poll does.
     */
    method Operate(schedule: seq<Job>) returns (ghost loops: seq<Loop>)
      requires Valid() && cfg.maxSpan > 0
      modifies this
      ensures Orderly() && old(clock) <= clock
      ensures (forall l | l in loops :: Kept(env, l)) ==> Valid()
      ensures forall l | l in loops :: FoundAll(cfg, chain, l.lo, l.hi, l.found) && old(clock) <= l.clock <= clock
      ensures forall l | l in loops && !Kept(env, l) :: exists t: nat :: l.clock <= t < clock && env.stopping(t)
    {
      loops := [];
      for i := 0 to |schedule|
        invariant Orderly() && old(clock) <= clock
        invariant (forall l | l in loops :: Kept(env, l)) ==> Valid()
        invariant forall l | l in loops :: FoundAll(cfg, chain, l.lo, l.hi, l.found) && old(clock) <= l.clock <= clock
        invariant forall l | l in loops && !Kept(env, l) :: exists t: nat :: l.clock <= t < clock && env.stopping(t)
      {
        hide Covers, Known, FoundAll, Kept, Tidy, StartsAt;
        match schedule[i] {
          case Poll =>
            ghost var loop := ProcessDeposits();
            if loop.Some? { loops := loops + [loop.value]; }
          case Kill => Restart();
          case SaveNow => Save();
        }
      }
    }
  }

  datatype Job = Poll | Kill | SaveNow

  /** One deposit in block 1, and a shutdown noticed as soon as the claim loop looks for one. */
  method ShutdownLosesADeposit() returns (w: Watcher)
    ensures fresh(w) && w.Orderly()
    ensures !Covers(w.cfg, w.chain, w.start, w.memory) && !Covers(w.cfg, w.chain, w.diskStart, w.disk)
  {
    var d := Deposit(Key(Eth, "0x1"), "key", 1);
    var cfg := Config(Some(1), 0, 0, 2000, token => true);
    var env := Env(t => Some(1), t => true, t => Some(true), t => true, t => true);
    w := new Watcher(cfg, env, [d]);
    ghost var loop := w.ProcessDeposits();
    assert w.memory.lastBlock == Some(1) by { assert Healthy(env, 1) && SafeHead(cfg, 1) == 1; }
    assert [d][0] in loop.value.found && !Kept(env, loop.value);
  }

  /** With the cursor over all that was found, everything is covered exactly when the loop left out nothing new. */
  lemma CoversIffCaught(cfg: Config, chain: Chain, start: int, s: State, t: State, lo: int, hi: int,
                        found: seq<Deposit>, done: nat)
    requires Sane(cfg, start, s) && Tidy(t) && FoundAll(cfg, chain, lo, hi, found) && lo <= hi && done <= |found|
    requires lo == (if s.lastBlock.Some? then s.lastBlock.value + 1 else start) && t.lastBlock == Some(hi)
    requires Known(t) == Known(s) + Keys(found[..done])
    requires s.lastBlock.None? ==> cfg.watchFrom.Some?
    ensures StartsAt(cfg, start, t)
    ensures Covers(cfg, chain, start, s) ==> (Covers(cfg, chain, start, t) <==> Caught(Known(s), found, done))
  {
    hide Known;
    if Caught(Known(s), found, done) {
      forall k | k in Keys(found) ensures k in Known(t) {
        var j :| 0 <= j < |found| && found[j].key == k;
        if j < done { assert found[..done][j].key == k; }
      }
      if Covers(cfg, chain, start, s) { CursorAdvances(cfg, chain, start, s, t, lo, hi, found); }
    } else {
      var j :| done <= j < |found| && found[j].key !in Known(t);
      assert found[j] in found;
      var i :| 0 <= i < |chain| && chain[i] == found[j];
      assert !Covers(cfg, chain, start, t);
    }
  }

  lemma FilesTheKey(s: State, d: Deposit)
    ensures Known(s.(claimed := s.claimed + {d.key}, pending := s.pending - {d.key})) == Known(s) + {d.key}
    ensures Known(s.(pending := s.pending[d.key := d])) == Known(s) + {d.key}
  {
    var m, n := s.pending - {d.key}, s.pending[d.key := d];
    assert m.Keys == s.pending.Keys - {d.key} && n.Keys == s.pending.Keys + {d.key};
    assert (s.claimed + {d.key}) + (s.pending.Keys - {d.key}) == (s.claimed + s.pending.Keys) + {d.key};
    assert s.claimed + (s.pending.Keys + {d.key}) == (s.claimed + s.pending.Keys) + {d.key};
  }

  lemma GoodIs(cfg: Config, chain: Chain, start: int, s: State)
    ensures Good(cfg, chain, start, s) <==> Covers(cfg, chain, start, s) && Sane(cfg, start, s)
  {
  }

  lemma KnownIs(s: State, k: Key)
    ensures k in Known(s) <==> k in s.claimed || k in s.pending
  {
  }

  lemma NoKeys(found: seq<Deposit>)
    ensures Keys(found[..0]) == {}
  {
  }

  lemma OneMoreKey(found: seq<Deposit>, i: nat)
    requires i < |found|
    ensures Keys(found[..i + 1]) == Keys(found[..i]) + {found[i].key}
  {
    var a, b := found[..i], found[..i + 1];
    forall k ensures k in Keys(b) <==> k in Keys(a) + {found[i].key} {
      if k in Keys(a) {
        var j :| 0 <= j < |a| && a[j].key == k;
        assert b[j].key == k;
      }
      assert b[i].key == found[i].key;
      if k in Keys(b) {
        var j :| 0 <= j < |b| && b[j].key == k;
        assert j < i ==> a[j].key == k;
      }
    }
  }

  lemma KnownIgnoresCursor(s: State, lastBlock: Option<int>)
    ensures Known(s.(lastBlock := lastBlock)) == Known(s)
  {
  }

  /** Knowing more, with the same cursor, covers as much. */
  lemma MoreIsGood(cfg: Config, chain: Chain, start: int, s: State, t: State)
    requires Covers(cfg, chain, start, s) && t.lastBlock == s.lastBlock && Known(s) <= Known(t)
    ensures Covers(cfg, chain, start, t)
  {
    hide Known;
  }
}
