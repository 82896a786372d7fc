/** The non-blocking socket: every attempt has an outcome that the environment chooses. */
module Sockets {
  import opened Wire

  datatype SendResult = Sent | WouldBlock | Failed

  /** The outcome of each successive attempt to send. */
  type Outcomes = nat -> SendResult

  class Socket {
    const outcomes: Outcomes
    var calls: nat
    var log: seq<Bytes>

    constructor (outcomes: Outcomes)
      ensures this.outcomes == outcomes && calls == 0 && log == []
    {
      this.outcomes := outcomes;
      this.calls := 0;
      this.log := [];
    }

    method Send(datagram: Bytes) returns (result: SendResult)
      modifies this
      ensures result == outcomes(old(calls)) && calls == old(calls) + 1
      ensures log == if result.Sent? then old(log) + [datagram] else old(log)
    {
      result := outcomes(calls);
      calls := calls + 1;
      if result.Sent? {
        log := log + [datagram];
      }
    }
  }

  /** How many of `n` attempts succeed before the first that does not. */
  function Accepted(outcomes: Outcomes, from: nat, n: nat): (k: nat)
    ensures k <= n
    ensures forall j :: from <= j < from + k ==> outcomes(j).Sent?
    ensures k < n ==> !outcomes(from + k).Sent?
    decreases n
  {
    if n == 0 || !outcomes(from).Sent? then 0 else 1 + Accepted(outcomes, from + 1, n - 1)
  }

  /** How many attempts a batch of `n` takes: it stops after the first failure. */
  function Attempts(outcomes: Outcomes, from: nat, n: nat): nat {
    var k := Accepted(outcomes, from, n);
    if k == n then n else k + 1
  }

  /** One more success extends the run of successes. */
  lemma {:induction false} AcceptedExtends(outcomes: Outcomes, from: nat, k: nat, n: nat)
    requires k < n
    requires forall j :: from <= j < from + k ==> outcomes(j).Sent?
    ensures !outcomes(from + k).Sent? ==> Accepted(outcomes, from, n) == k
    ensures Accepted(outcomes, from, n) == k ==> !outcomes(from + k).Sent?
    decreases n
  {
    if k != 0 {
      AcceptedExtends(outcomes, from + 1, k - 1, n - 1);
    }
  }

  lemma {:induction false} AcceptedAll(outcomes: Outcomes, from: nat, n: nat)
    requires forall j :: from <= j < from + n ==> outcomes(j).Sent?
    ensures Accepted(outcomes, from, n) == n
    decreases n
  {
    if n != 0 {
      AcceptedAll(outcomes, from + 1, n - 1);
    }
  }
}
