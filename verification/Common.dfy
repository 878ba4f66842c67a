/** Datatypes and settings shared by several components. */
module Common {

  datatype Option<+T> = None | Some(value: T)

  datatype Result<+T, +E> = Ok(value: T) | Err(error: E)

  /** Confirmations before the daemon is told: the relayer's own setting, never below the daemon's minimum. */
  function EffectiveDepth(relayer: nat, daemonMinimum: nat): (d: nat)
    ensures d >= relayer && d >= daemonMinimum && d in {relayer, daemonMinimum}
  {
    if relayer > daemonMinimum then relayer else daemonMinimum
  }

  lemma Associative<T>(a: seq<T>, b: seq<T>, c: seq<T>)
    ensures (a + b) + c == a + (b + c)
  {
  }
}
