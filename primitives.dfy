/** Values the inclusion inherent passes between the relay chain's runtime modules.
    Bitfields and candidates are opaque to the inherent: it only forwards them. */
module Primitives {

  type CoreIndex = nat
  type ParaId = nat
  type GroupIndex = nat
  type BlockNumber = nat
  type ValidatorIndex = nat
  type AccountId = nat

  /** A validator's signed vote on which availability cores hold available data. */
  datatype SignedBitfield = SignedBitfield(validator: ValidatorIndex, bits: seq<bool>, signature: nat)

  /** A parachain candidate that collected enough backing votes to be proposed. */
  datatype BackedCandidate = BackedCandidate(para: ParaId, descriptor: nat, validityVotes: seq<ValidatorIndex>)

  /** A core the scheduler has assigned to a parachain and a backing group for this block. */
  datatype CoreAssignment = CoreAssignment(core: CoreIndex, para: ParaId, group: GroupIndex)

  /** Why an availability core was freed (scheduler's `FreedReason`). */
  datatype FreedReason = Concluded | TimedOut

  /** A freed core with its reason, as handed to the scheduler. */
  datatype FreedCore = FreedCore(core: CoreIndex, reason: FreedReason)

  /** The origin a call is dispatched with. `Unsigned` is FRAME's `RawOrigin::None`:
      no signer, which is how the block author injects inherents. */
  datatype Origin = Root | Signed(account: AccountId) | Unsigned

  /** Dispatch errors: the two this module raises and any error a collaborator returns. */
  datatype DispatchError =
    | BadOrigin
    | TooManyInclusionInherents
    | Module(index: nat, error: nat)

  datatype Result<T> = Ok(value: T) | Err(error: DispatchError)

  datatype Option<T> = None | Some(value: T)

  function Min(a: nat, b: nat): nat {
    if a <= b then a else b
  }
}
