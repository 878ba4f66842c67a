/**
 * What both sides of the bridge relayer have in common: how a step over one withdrawal stands, and what a
 * trace shows of the releases a contract accepted, when the contract can be asked whether it processed an id.
 */
module Landing {
  import opened Common

  /** How the step in hand stands: the daemon has neither accepted a fulfilment nor refunded, or it has. */
  datatype Ending = Open | Paid | Repaid

  /** How many blocks deep a transaction in `block` is under `head`, its own block included. */
  function Depth(head: nat, block: nat): nat {
    if head >= block then head - block + 1 else 0
  }

  /** One event of a trace, as far as an id is concerned. */
  datatype Sight = Asked(id: string, answer: Option<bool>) | Sent(id: string) | Other

  /** `landed[id]` is how much of the trace had passed when the contract accepted a release of `id`. */
  type Landings = map<string, nat>

  /** The contract's answers are true. */
  ghost predicate Truthful(v: seq<Sight>, landed: Landings) {
    forall i | 0 <= i < |v| && v[i].Asked? && v[i].answer.Some? ::
      v[i].answer.value <==> v[i].id in landed && landed[v[i].id] <= i
  }

  /** A release lands only after a submission that no later "not processed" answer has outlived. */
  ghost predicate NoneInFlight(v: seq<Sight>, landed: Landings) {
    forall id, j: nat | id in landed && j < |v| && v[j] == Asked(id, Some(false)) && j < landed[id] ::
      exists k: nat :: SentBetween(v, j, k, landed[id], id)
  }

  ghost predicate SentBetween(v: seq<Sight>, j: nat, k: nat, end: nat, id: string) {
    j < k < end && k < |v| && v[k] == Sent(id)
  }

  /** What was not processed at `j` and landed all the same was sent after `j`. */
  lemma LandsAfterASend(v: seq<Sight>, landed: Landings, j: nat, id: string)
    requires Truthful(v, landed) && NoneInFlight(v, landed) && id in landed
    requires j < |v| && v[j] == Asked(id, Some(false))
    ensures exists k: nat :: SentBetween(v, j, k, landed[id], id)
  {
  }

  /** An id that has not landed may land at the end of any longer trace that ends by sending it. */
  lemma MayLandAtTheEnd(v: seq<Sight>, more: seq<Sight>, landed: Landings, id: string)
    requires Truthful(v, landed) && NoneInFlight(v, landed) && id !in landed
    requires forall i | 0 <= i < |more| :: more[i] in {Other, Asked(id, Some(false)), Sent(id)}
    requires more != [] && more[|more| - 1] == Sent(id)
    ensures Truthful(v + more, landed[id := |v + more|]) && NoneInFlight(v + more, landed[id := |v + more|])
  {
    var w, after := v + more, landed[id := |v + more|];
    forall other, j: nat | other in after && j < |w| && w[j] == Asked(other, Some(false)) && j < after[other]
      ensures exists k: nat :: SentBetween(w, j, k, after[other], other)
    {
      if other == id {
        assert SentBetween(w, j, |w| - 1, |w|, id);
      } else {
        assert v[j] == w[j];
        var k: nat :| SentBetween(v, j, k, landed[other], other);
        assert SentBetween(w, j, k, after[other], other);
      }
    }
  }
}
