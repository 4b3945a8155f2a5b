/** The inherent adapter: when a block is authored, turns the inherent data supplied for
    the inclusion inherent into the call to put in the block. A proposal that would fail
    (it may have gone stale, for instance across a session change) is replaced by an empty
    one, since a failing inherent makes the whole block invalid. */
module InherentAdapter {
  import opened Primitives
  import opened Collaborators
  import opened InclusionInherent

  /** The inherent data of the inclusion inherent, once decoded. */
  datatype InherentPayload = InherentPayload(signedBitfields: seq<SignedBitfield>,
                                             backedCandidates: seq<BackedCandidate>)

  /** The call of the empty payload: no bitfields and no candidates. */
  const EMPTY_INCLUSION: Call := Inclusion([], [])

  /** `should_include_inherent`: a dry run of `inclusion`, without origin, from this state.
      It fails once the inherent has run in this block, and when the bitfields are
      refused; with the bitfields accepted, it passes exactly when the rest of the step
      (scheduling and the limited candidates) succeeds from the state they leave. */
  predicate ShouldIncludeInherent<S(!new)>(c: Collaborators<S>, included: bool, env: S,
                                          signedBitfields: seq<SignedBitfield>,
                                          backedCandidates: seq<BackedCandidate>): (r: bool)
    requires WeightWithinLimit(c)
    ensures included ==> !r
    ensures r ==> c.processBitfields(signedBitfields, env).Ok?
    ensures !included && c.processBitfields(signedBitfields, env).Ok? ==>
              var (concluded, s1) := c.processBitfields(signedBitfields, env).value;
              r == AfterBitfields(c, concluded, s1, signedBitfields, backedCandidates).result.Ok?
  {
    Outcome(c, included, env, Unsigned, signedBitfields, backedCandidates).result.Ok?
  }

  /** `create_inherent` from the state with flag `included` and collaborators' state `env`. */
  function CreateInherent<S(!new)>(c: Collaborators<S>, included: bool, env: S,
                                  data: Option<InherentPayload>): (call: Option<Call>)
    requires WeightWithinLimit(c)
    // no data, no call
    ensures call.None? <==> data.None?
    // the call carries the proposal unchanged or nothing at all
    ensures call.Some? ==> call.value == EMPTY_INCLUSION
                           || call.value == Inclusion(data.value.signedBitfields, data.value.backedCandidates)
    // a proposal that passes the dry run is never replaced
    ensures data.Some? && ShouldIncludeInherent(c, included, env, data.value.signedBitfields,
                                                data.value.backedCandidates)
            ==> call == Some(Inclusion(data.value.signedBitfields, data.value.backedCandidates))
    // whatever is not empty has passed the dry run
    ensures call.Some? && call.value != EMPTY_INCLUSION
            ==> Outcome(c, included, env, Unsigned, call.value.signedBitfields,
                        call.value.backedCandidates).result.Ok?
  {
    match data
    case None => None
    case Some(InherentPayload(signedBitfields, backedCandidates)) =>
      if ShouldIncludeInherent(c, included, env, signedBitfields, backedCandidates)
      then Some(Inclusion(signedBitfields, backedCandidates))
      else Some(EMPTY_INCLUSION)
  }

  /** The empty payload goes through whenever the inherent has not run yet in this block
      and the collaborators accept empty bitfields and an empty candidate list. */
  lemma EmptyInclusionSucceeds<S(!new)>(c: Collaborators<S>, env: S)
    requires WeightWithinLimit(c) && AcceptsEmptyPayload(c)
    ensures Outcome(c, false, env, Unsigned, [], []).result.Ok?
  {
    var s1 := c.processBitfields([], env).value.1;
    var r := AfterBitfields(c, c.processBitfields([], env).value.0, s1, [], []);
    assert Outcome(c, false, env, Unsigned, [], []) == r;
    assert r.events[4].candidates == [];
  }

  /** Whenever data is supplied, the call built from it succeeds when the block executes
      it: the adapter keeps an invalid inherent out of the block. */
  lemma CreatedInherentSucceeds<S(!new)>(c: Collaborators<S>, env: S, data: Option<InherentPayload>)
    requires WeightWithinLimit(c) && AcceptsEmptyPayload(c)
    requires data.Some?
    ensures var call := CreateInherent(c, false, env, data);
            call.Some? && Outcome(c, false, env, Unsigned, call.value.signedBitfields,
                                  call.value.backedCandidates).result.Ok?
  {
    if CreateInherent(c, false, env, data) == Some(EMPTY_INCLUSION) {
      EmptyInclusionSucceeds(c, env);
    }
  }

  /** Authoring one block: the inherent is created from the supplied data and is the
      block's only call to `inclusion`; then the block is finalized. The block is valid
      exactly when inherent data was supplied. */
  method AuthorBlock<S(!new)>(runtime: ParaInclusionInherent<S>, data: Option<InherentPayload>)
      returns (valid: bool)
    requires runtime.Valid() && !runtime.included && AcceptsEmptyPayload(runtime.collab)
    modifies runtime
    ensures valid <==> data.Some?
    ensures !runtime.included
    // the block's one call is the created inherent, run from the state the block started in
    ensures var call := CreateInherent(runtime.collab, false, old(runtime.env), data);
            && (call.None? ==> runtime.env == old(runtime.env) && runtime.trace == old(runtime.trace))
            && (call.Some? ==>
                  var o := Outcome(runtime.collab, false, old(runtime.env), Unsigned,
                                   call.value.signedBitfields, call.value.backedCandidates);
                  runtime.env == o.env && runtime.trace == old(runtime.trace) + o.events)
  {
    var call := CreateInherent(runtime.collab, runtime.included, runtime.env, data);
    var extrinsics := [];
    if call.Some? {
      CreatedInherentSucceeds(runtime.collab, runtime.env, data);
      extrinsics := [(Unsigned, call.value)];
      RunCallsSingle(runtime.collab, false, runtime.env, Unsigned, call.value);
    }
    var results;
    results, valid := runtime.ExecuteBlock(extrinsics);
  }
}
