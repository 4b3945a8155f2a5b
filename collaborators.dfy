/** The runtime modules the inclusion inherent drives, seen only through the operations it
    calls. Their storage is an abstract state `S`; each operation is a total function that
    reads or transforms it. An operation that fails returns an error and no new state. */
module Collaborators {
  import opened Primitives

  /** The scheduler's availability-timeout predicate: is the work pending on a core since
      a given block late? */
  type AvailabilityTimeout = (CoreIndex, BlockNumber) -> bool

  datatype Collaborators<!S> = Collaborators(
    /** inclusion: process signed bitfields, yield the cores whose availability concluded */
    processBitfields: (seq<SignedBitfield>, S) -> Result<(seq<CoreIndex>, S)>,
    /** scheduler: the timeout predicate, absent for instance at a session boundary */
    availabilityTimeoutPredicate: S -> Option<AvailabilityTimeout>,
    /** inclusion: drop pending availability that the predicate judges late, yield its cores */
    collectPending: (AvailabilityTimeout, S) -> (seq<CoreIndex>, S),
    /** scheduler: re-schedule paras on the freed cores */
    schedule: (seq<FreedCore>, S) -> S,
    /** scheduler: the cores scheduled for this block */
    scheduled: S -> seq<CoreAssignment>,
    /** inclusion: check and record backed candidates on their scheduled cores, yield the
        cores they occupy (the group-validator lookup is read from the state) */
    processCandidates: (seq<BackedCandidate>, seq<CoreAssignment>, S) -> Result<(seq<CoreIndex>, S)>,
    /** scheduler: note which scheduled cores became occupied */
    occupied: (seq<CoreIndex>, S) -> S,
    /** ump: dispatch a slice of the pending upward messages */
    processPendingUpwardMessages: S -> S,
    /** configuration: the weight assumed for processing one backed candidate */
    backedCandidateBlockWeight: S -> nat,
    /** system: the total weight the current block has used so far */
    blockWeight: S -> nat,
    /** system: `MaximumBlockWeight` */
    maximumBlockWeight: nat
  )

  /** The block never reports more weight used than the maximum, so the remaining weight
      `maximumBlockWeight - blockWeight` is never negative. */
  ghost predicate WeightWithinLimit<S(!new)>(c: Collaborators<S>) {
    forall s: S :: c.blockWeight(s) <= c.maximumBlockWeight
  }

  /** Empty bitfields and an empty candidate list are always acceptable. */
  ghost predicate AcceptsEmptyPayload<S(!new)>(c: Collaborators<S>) {
    && (forall s: S :: c.processBitfields([], s).Ok?)
    && (forall scheduled: seq<CoreAssignment>, s: S :: c.processCandidates([], scheduled, s).Ok?)
  }
}
