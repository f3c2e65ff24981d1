/** A value with a single owner that any caller may replace. */
module Ownables {

  datatype Ownable = Ownable(owner: string)

  /** `Ownable::new`. */
  function New(owner: string): (o: Ownable)
    ensures GetOwner(o) == owner
  {
    Ownable(owner)
  }

  /** `Ownable::transfer_ownership`: no check of who asks. */
  function TransferOwnership(o: Ownable, newOwner: string): (o': Ownable)
    ensures GetOwner(o') == newOwner
  {
    o.(owner := newOwner)
  }

  /** `Ownable::get_owner`: the owner is all there is to an `Ownable`, so nothing is lost reading it. */
  function GetOwner(o: Ownable): (owner: string)
    ensures Ownable(owner) == o
  {
    o.owner
  }

  /** Transfers to each of `owners` in turn. */
  function TransferAll(o: Ownable, owners: seq<string>): Ownable
    decreases |owners|
  {
    if |owners| == 0 then o else TransferAll(TransferOwnership(o, owners[0]), owners[1..])
  }

  /** After a run of transfers the owner is the last one transferred to; no transfers, no change. */
  lemma {:induction false} LastTransferWins(o: Ownable, owners: seq<string>)
    ensures GetOwner(TransferAll(o, owners)) == if |owners| == 0 then GetOwner(o) else owners[|owners| - 1]
    decreases |owners|
  {
    if |owners| > 0 {
      LastTransferWins(TransferOwnership(o, owners[0]), owners[1..]);
    }
  }

  /** Transferring to the same owner twice is the same as once. */
  lemma TransferIdempotent(o: Ownable, newOwner: string)
    ensures TransferOwnership(TransferOwnership(o, newOwner), newOwner) == TransferOwnership(o, newOwner)
  {
  }

  /** The unit tests: `alice`, then `bob`, `charlie` and `dave`. */
  lemma AliceToDave()
    ensures GetOwner(New("alice")) == "alice"
    ensures GetOwner(TransferAll(New("alice"), ["bob", "charlie", "dave"])) == "dave"
  {
    LastTransferWins(New("alice"), ["bob", "charlie", "dave"]);
  }
}
