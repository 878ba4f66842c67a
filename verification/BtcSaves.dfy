/**
 * Saves of the BTC state file that throw. The entry of one withdrawal lives in memory and on file; a save that throws
 * ends the call and leaves the two apart, and the next call goes on from memory. Which moments may be followed by a
 * kill without the withdrawal being paid twice?
 */
module BtcSaves {
  import opened Common
  import opened BtcRelayer

  /** `live`: the transactions signed for this withdrawal that the network has or may still get. */
  datatype Moment = Moment(memory: Option<Entry>, disk: Option<Entry>, live: set<string>)

  /** What the relayer owes, and how often it may sign. */
  datatype Claim = Claim(dest: string, sats: int, maxRetries: nat)

  /** `saved` is false when the save of that write throws. `SaveAll` is the save made for another withdrawal. */
  datatype Event =
    | Sign(payout: Payout, saved: bool)
    | Send
    | Answered(result: BroadcastResult, saved: bool)
    | Adopt(txid: string, saved: bool)
    | Flag(why: Review, saved: bool)
    | SaveAll
    | Kill

  function EntryOr(c: Claim, e: Option<Entry>): Entry {
    if e.Some? then e.value else Entry(c.dest, c.sats, 0, None, None, None, false)
  }

  predicate CanSign(c: Claim, e: Option<Entry>) {
    var x := EntryOr(c, e);
    Attributed(x).None? && x.needsReview.None? && !x.broadcasting && x.attempts < c.maxRetries
  }

  predicate CanSend(e: Option<Entry>) {
    e.Some? && e.value.planned.Some? && e.value.btcTxid.None? && e.value.needsReview.None?
  }

  /** The next call over this entry may put a transaction on the network. */
  predicate IsOpen(c: Claim, e: Option<Entry>) {
    CanSign(c, e) || CanSend(e)
  }

  function TxOf(e: Option<Entry>): Option<string> {
    if e.Some? then Attributed(e.value) else None
  }

  ghost predicate Can(c: Claim, m: Moment, e: Event) {
    match e
    case Sign(_, _) => CanSign(c, m.memory)
    case Send => CanSend(m.memory)
    case Answered(r, _) => CanSend(m.memory) && TxOf(m.memory).value in m.live
    case Adopt(_, _) => TxOf(m.memory).None? && EntryOr(c, m.memory).needsReview.None?
    case _ => true
  }

  function Put(m: Moment, entry: Entry, saved: bool): Moment {
    m.(memory := Some(entry), disk := if saved then Some(entry) else m.disk)
  }

  ghost function Next(c: Claim, m: Moment, e: Event): Moment
    requires Can(c, m, e)
  {
    match e
    case Sign(p, saved) => Put(m, PlanOf(EntryOr(c, m.memory), p), saved)
    case Send => m.(live := m.live + {TxOf(m.memory).value})
    case Answered(r, saved) =>
      Put(m, Verdict(m.memory.value, r).1, saved)
        .(live := if r == Rejected(false) then m.live - {TxOf(m.memory).value} else m.live)
    case Adopt(t, saved) => Put(m, EntryOr(c, m.memory).(btcTxid := Some(t), broadcasting := false), saved)
    case Flag(why, saved) => Put(m, EntryOr(c, m.memory).(needsReview := Some(why)), saved)
    case SaveAll => m.(disk := m.memory)
    case Kill => m.(memory := m.disk)
  }

  ghost predicate Legal(c: Claim, m: Moment, es: seq<Event>)
    decreases |es|
  {
    es == [] || (Can(c, m, es[0]) && Legal(c, Next(c, m, es[0]), es[1..]))
  }

  ghost function Run(c: Claim, m: Moment, es: seq<Event>): Moment
    requires Legal(c, m, es)
    decreases |es|
  {
    if es == [] then m else Run(c, Next(c, m, es[0]), es[1..])
  }

  ghost predicate AtMostOne(m: Moment) {
    forall t, u | t in m.live && u in m.live :: t == u
  }

  /** Memory names every transaction that is out. */
  ghost predicate Tracked(m: Moment) {
    forall t | t in m.live :: TxOf(m.memory) == Some(t)
  }

  /** So does the file: what a process that starts now would know. */
  ghost predicate OnFile(m: Moment) {
    forall t | t in m.live :: TxOf(m.disk) == Some(t)
  }

  /** The file is behind memory, so it is open at least as long. */
  ghost predicate Behind(c: Claim, m: Moment) {
    IsOpen(c, m.disk) || (!IsOpen(c, m.memory) && (TxOf(m.disk) == TxOf(m.memory) || m.live == {}))
  }

  ghost predicate Good(c: Claim, m: Moment) {
    Tracked(m) && Behind(c, m)
  }

  /** A process keeps both, whatever saves throw in it. */
  lemma StepKeepsGood(c: Claim, m: Moment, e: Event)
    requires Good(c, m) && Can(c, m, e) && !e.Kill?
    ensures Good(c, Next(c, m, e))
  {
  }

  /**
   * The one step that puts a transaction out which the file does not name: sending a plan whose save threw. The call
   * that signed it has ended by then; it is the next call that sends it from memory.
   */
  lemma OnFileUnlessAnUnsavedPlanIsSent(c: Claim, m: Moment, e: Event)
    requires Good(c, m) && OnFile(m) && Can(c, m, e)
    ensures OnFile(Next(c, m, e)) <==> !(e.Send? && TxOf(m.disk) != TxOf(m.memory))
  {
    if e.Send? { assert TxOf(m.memory).value in Next(c, m, e).live; }
  }

  /** Some course of the next process, after a kill at `m`, has two payouts out. */
  ghost predicate MayPayTwice(c: Claim, m: Moment) {
    exists es: seq<Event> :: PaysTwice(c, m, es)
  }

  ghost predicate PaysTwice(c: Claim, m: Moment, es: seq<Event>) {
    && (forall k | 0 <= k < |es| :: !es[k].Kill?)
    && Legal(c, Next(c, m, Kill), es) && !AtMostOne(Run(c, Next(c, m, Kill), es))
  }

  lemma {:induction false} OneProcessPaysOnce(c: Claim, m: Moment, es: seq<Event>)
    requires Good(c, m) && Legal(c, m, es) && forall k | 0 <= k < |es| :: !es[k].Kill?
    ensures Good(c, Run(c, m, es)) && AtMostOne(Run(c, m, es))
    decreases |es|
  {
    if es != [] {
      StepKeepsGood(c, m, es[0]);
      OneProcessPaysOnce(c, Next(c, m, es[0]), es[1..]);
    }
  }

  /** Send the plan the file holds, or sign a new payout and send that. */
  function Again(c: Claim, m: Moment, t: string): seq<Event> {
    if CanSend(m.disk) then [Send] else [Sign(Payout(t + "'", "", []), true), Send]
  }

  lemma OneStep(c: Claim, m: Moment, e: Event)
    requires Can(c, m, e)
    ensures Legal(c, m, [e]) && Run(c, m, [e]) == Next(c, m, e)
  {
    hide Can, Next;
    assert [e][1..] == [];
  }

  lemma TwoSteps(c: Claim, m: Moment, d: Event, e: Event)
    requires Can(c, m, d) && Can(c, Next(c, m, d), e)
    ensures Legal(c, m, [d, e]) && Run(c, m, [d, e]) == Next(c, Next(c, m, d), e)
  {
    hide Can, Next;
    assert [d, e][1..] == [e];
    OneStep(c, Next(c, m, d), e);
  }

  lemma AgainPaysTwice(c: Claim, m: Moment, t: string)
    requires t in m.live && TxOf(m.disk) != Some(t) && IsOpen(c, m.disk)
    ensures PaysTwice(c, m, Again(c, m, t))
  {
    hide Legal, Run;
    var killed := Next(c, m, Kill);
    var after: Moment;
    if CanSend(m.disk) {
      OneStep(c, killed, Send);
      after := Next(c, killed, Send);
      assert TxOf(m.disk).value in after.live;
    } else {
      var p := Payout(t + "'", "", []);
      TwoSteps(c, killed, Sign(p, true), Send);
      after := Next(c, Next(c, killed, Sign(p, true)), Send);
      assert p.txid in after.live && |p.txid| != |t|;
    }
    assert t in after.live;
  }

  /**
   * The exact condition: a kill may be followed by a second payout if and only if one is out that the file does not
   * name.
   */
  lemma KillIsSafeIff(c: Claim, m: Moment)
    requires Good(c, m)
    ensures MayPayTwice(c, m) <==> !OnFile(m)
  {
    if OnFile(m) {
      forall es: seq<Event> | PaysTwice(c, m, es) ensures false { OneProcessPaysOnce(c, Next(c, m, Kill), es); }
    } else {
      var t :| t in m.live && TxOf(m.disk) != Some(t);
      AgainPaysTwice(c, m, t);
    }
  }

  /** Every kill in the run comes when the file names what is out. */
  ghost predicate KilledOnFile(c: Claim, m: Moment, es: seq<Event>)
    requires Legal(c, m, es)
    decreases |es|
  {
    es == [] || ((es[0].Kill? ==> OnFile(m)) && KilledOnFile(c, Next(c, m, es[0]), es[1..]))
  }

  /** Over any number of processes, with any saves throwing: then at most one payout is ever out. */
  lemma {:induction false} AtMostOneOverProcesses(c: Claim, m: Moment, es: seq<Event>)
    requires Good(c, m) && Legal(c, m, es) && KilledOnFile(c, m, es)
    ensures Good(c, Run(c, m, es)) && AtMostOne(Run(c, m, es))
    decreases |es|
  {
    if es != [] {
      if !es[0].Kill? { StepKeepsGood(c, m, es[0]); }
      AtMostOneOverProcesses(c, Next(c, m, es[0]), es[1..]);
    }
  }

  /** No plan is sent that is not on file. */
  ghost predicate SentFromFile(c: Claim, m: Moment, es: seq<Event>)
    requires Legal(c, m, es)
    decreases |es|
  {
    es == [] || ((es[0].Send? ==> TxOf(m.disk) == TxOf(m.memory)) && SentFromFile(c, Next(c, m, es[0]), es[1..]))
  }

  /** If no plan is sent that is not on file, a kill is harmless everywhere. */
  lemma {:induction false} SentFromFileSuffices(c: Claim, m: Moment, es: seq<Event>)
    requires Good(c, m) && OnFile(m) && Legal(c, m, es) && SentFromFile(c, m, es)
    ensures KilledOnFile(c, m, es) && AtMostOne(Run(c, m, es))
    decreases |es|
  {
    if es != [] {
      OnFileUnlessAnUnsavedPlanIsSent(c, m, es[0]);
      if !es[0].Kill? { StepKeepsGood(c, m, es[0]); }
      SentFromFileSuffices(c, Next(c, m, es[0]), es[1..]);
    }
  }

  /** It does happen: the save of the first plan throws, the next call sends it, and the process is killed. */
  lemma UnsavedPlanIsPaidTwice(c: Claim, p: Payout)
    requires c.maxRetries > 0
    ensures var m := Moment(None, None, {});
            var es := [Sign(p, false), Send];
            Good(c, m) && OnFile(m) && Legal(c, m, es) && MayPayTwice(c, Run(c, m, es))
  {
    var m := Moment(None, None, {});
    var n := Next(c, m, Sign(p, false));
    StepKeepsGood(c, m, Sign(p, false));
    StepKeepsGood(c, n, Send);
    TwoSteps(c, m, Sign(p, false), Send);
    assert p.txid in Next(c, n, Send).live;
    KillIsSafeIff(c, Next(c, n, Send));
  }
}
