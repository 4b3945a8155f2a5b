/** The inclusion inherent: once per block, and only as an unsigned inherent, it processes
    availability bitfields, frees concluded and timed-out cores, re-schedules, admits the
    backed candidates that fit the block weight, marks their cores occupied, lets upward
    messages be dispatched and records that it ran; at the end of the block it checks
    that it ran. */
module InclusionInherent {
  import opened Primitives
  import opened WeightLimiter
  import opened FreedCores
  import opened Collaborators

  /** The one call this module dispatches: `Call::inclusion`. */
  datatype Call = Inclusion(signedBitfields: seq<SignedBitfield>, backedCandidates: seq<BackedCandidate>)

  /** What the inclusion step asks of its collaborators, with what they answered. */
  datatype Event =
    | BitfieldsProcessed(bitfields: seq<SignedBitfield>, outcome: Result<seq<CoreIndex>>)
      /** the timeout predicate was queried and, when present, pending work collected */
    | TimeoutsHandled(predicatePresent: bool, timedOut: seq<CoreIndex>)
    | Scheduled(freed: seq<FreedCore>)
      /** the limiter read the configured candidate weight and the block weight used */
    | BlockWeightRead(perCandidateWeight: nat, consumedWeight: nat)
    | CandidatesProcessed(candidates: seq<BackedCandidate>, scheduled: seq<CoreAssignment>,
                          outcome: Result<seq<CoreIndex>>)
    | CoresOccupied(cores: seq<CoreIndex>)
    | UpwardMessagesProcessed
      /** `Included` was set */
    | InclusionRecorded

  /** One run of the inclusion step: its result, the `Included` flag and the collaborators'
      state afterwards, and the calls it made in order. */
  datatype Step<S> = Step(result: Result<()>, included: bool, env: S, events: seq<Event>)

  /** A run got as far as the limiter: bitfields were accepted, timeouts were handled
      (none when there is no timeout predicate), the scheduler was given the concluded
      cores tagged `Concluded` followed by the timed-out cores tagged `TimedOut`, and the
      block weight was read. */
  predicate ReachedLimiter(es: seq<Event>, bitfields: seq<SignedBitfield>, maximumWeight: nat) {
    && |es| >= 4
    && es[0].BitfieldsProcessed? && es[0].bitfields == bitfields && es[0].outcome.Ok?
    && es[1].TimeoutsHandled? && (!es[1].predicatePresent ==> es[1].timedOut == [])
    && es[2] == Scheduled(Freed(es[0].outcome.value, es[1].timedOut))
    && es[3].BlockWeightRead? && es[3].consumedWeight <= maximumWeight
  }

  /** ... and `process_candidates` was then given exactly the limiter's output. */
  predicate ForwardedCandidates(es: seq<Event>, bitfields: seq<SignedBitfield>,
                                candidates: seq<BackedCandidate>, maximumWeight: nat) {
    && |es| >= 5 && ReachedLimiter(es, bitfields, maximumWeight)
    && es[4].CandidatesProcessed?
    && es[4].candidates == LimitedCandidates(candidates, es[3].perCandidateWeight,
                                             maximumWeight, es[3].consumedWeight)
  }

  /** A successful run: after the candidates were accepted, `occupied` got exactly the
      cores they occupy, upward messages were dispatched, and `Included` was set last. */
  predicate SucceededRun(es: seq<Event>, bitfields: seq<SignedBitfield>,
                         candidates: seq<BackedCandidate>, maximumWeight: nat) {
    && |es| == 8 && ForwardedCandidates(es, bitfields, candidates, maximumWeight)
    && es[4].outcome.Ok?
    && es[5] == CoresOccupied(es[4].outcome.value)
    && es[6] == UpwardMessagesProcessed
    && es[7] == InclusionRecorded
  }

  /** A run that passed the origin and duplicate checks and failed with `error`: either
      `process_bitfields` returned it, or `process_candidates` did, after scheduling. */
  predicate FailedRun(es: seq<Event>, bitfields: seq<SignedBitfield>,
                      candidates: seq<BackedCandidate>, maximumWeight: nat, error: DispatchError) {
    || es == [BitfieldsProcessed(bitfields, Err(error))]
    || (&& |es| == 5 && ForwardedCandidates(es, bitfields, candidates, maximumWeight)
        && es[4].outcome == Err(error))
  }

  /** The inclusion step (`inclusion`) dispatched with `origin` from a state where the
      flag is `included` and the collaborators' state is `env`. */
  function Outcome<S(!new)>(c: Collaborators<S>, included: bool, env: S, origin: Origin,
                      bitfields: seq<SignedBitfield>, candidates: seq<BackedCandidate>): (r: Step<S>)
    requires WeightWithinLimit(c)
    // inherent only: any other origin is refused before anything happens
    ensures !origin.Unsigned? ==> r == Step(Err(BadOrigin), included, env, [])
    // once per block: a second call is refused before anything happens
    ensures origin.Unsigned? && included ==> r == Step(Err(TooManyInclusionInherents), included, env, [])
    // the flag is set by a successful run and by nothing else
    ensures r.included == (included || r.result.Ok?)
    ensures r.result.Ok? ==> SucceededRun(r.events, bitfields, candidates, c.maximumBlockWeight)
    ensures r.result.Err? && origin.Unsigned? && !included ==>
              FailedRun(r.events, bitfields, candidates, c.maximumBlockWeight, r.result.error)
    ensures (InclusionRecorded in r.events) == r.result.Ok?
    // a run that stops at or before `process_bitfields` leaves the collaborators untouched
    ensures |r.events| <= 1 ==> r.env == env
    // past both checks, `process_bitfields` decides whether the run goes on: its error is
    // returned as-is with nothing changed, and otherwise the run continues from the cores
    // and the state it yields
    ensures origin.Unsigned? && !included ==>
              var processed := c.processBitfields(bitfields, env);
              && (processed.Err? ==>
                    r == Step(Err(processed.error), false, env, [BitfieldsProcessed(bitfields, Err(processed.error))]))
              && (processed.Ok? ==>
                    && r.events[0] == BitfieldsProcessed(bitfields, Ok(processed.value.0))
                    && r == AfterBitfields(c, processed.value.0, processed.value.1, bitfields, candidates))
  {
    if !origin.Unsigned? then Step(Err(BadOrigin), included, env, [])
    else if included then Step(Err(TooManyInclusionInherents), included, env, [])
    else match c.processBitfields(bitfields, env)
      case Err(e) => Step(Err(e), included, env, [BitfieldsProcessed(bitfields, Err(e))])
      case Ok((concluded, s1)) => AfterBitfields(c, concluded, s1, bitfields, candidates)
  }

  /** The rest of a run of the inclusion step once `process_bitfields` has accepted
      `bitfields`, freeing the cores `concluded` and leaving the state `s1`. */
  function AfterBitfields<S(!new)>(c: Collaborators<S>, concluded: seq<CoreIndex>, s1: S,
                                   bitfields: seq<SignedBitfield>, candidates: seq<BackedCandidate>): (r: Step<S>)
    requires WeightWithinLimit(c)
    ensures r.included == r.result.Ok?
    ensures r.result.Ok? ==> SucceededRun(r.events, bitfields, candidates, c.maximumBlockWeight)
    ensures r.result.Err? ==> && |r.events| == 5
                              && ForwardedCandidates(r.events, bitfields, candidates, c.maximumBlockWeight)
                              && r.events[4].outcome == Err(r.result.error)
    ensures (InclusionRecorded in r.events) == r.result.Ok?
    // what the trace records is what the collaborators answered: the timeout predicate and
    // the cores it times out, the weights read after `schedule`, the scheduled cores; the
    // run succeeds exactly when `process_candidates` accepts the limited candidates, and a
    // rejection leaves the post-`schedule` state in place (`schedule` is not undone)
    ensures var timeout := c.availabilityTimeoutPredicate(s1);
            var (timedOut, s2) := if timeout.Some? then c.collectPending(timeout.value, s1) else ([], s1);
            var s3 := c.schedule(Freed(concluded, timedOut), s2);
            var w, consumed := c.backedCandidateBlockWeight(s3), c.blockWeight(s3);
            var limited := LimitedCandidates(candidates, w, c.maximumBlockWeight, consumed);
            var processed := c.processCandidates(limited, c.scheduled(s3), s3);
            && r.events[0] == BitfieldsProcessed(bitfields, Ok(concluded))
            && r.events[1] == TimeoutsHandled(timeout.Some?, timedOut)
            && r.events[3] == BlockWeightRead(w, consumed)
            && r.events[4].candidates == limited && r.events[4].scheduled == c.scheduled(s3)
            && (r.result.Ok? <==> processed.Ok?)
            && (processed.Err? ==> r.result == Err(processed.error) && r.env == s3)
            && (processed.Ok? ==>
                  && r.events[4].outcome == Ok(processed.value.0)
                  && r.env == c.processPendingUpwardMessages(c.occupied(processed.value.0, processed.value.1)))
  {
    var timeout := c.availabilityTimeoutPredicate(s1);
    var (timedOut, s2) := if timeout.Some? then c.collectPending(timeout.value, s1) else ([], s1);
    var freed := Freed(concluded, timedOut);
    var s3 := c.schedule(freed, s2);
    var w, consumed := c.backedCandidateBlockWeight(s3), c.blockWeight(s3);
    var limited := LimitedCandidates(candidates, w, c.maximumBlockWeight, consumed);
    var scheduled := c.scheduled(s3);
    var prefix := [BitfieldsProcessed(bitfields, Ok(concluded)), TimeoutsHandled(timeout.Some?, timedOut),
                   Scheduled(freed), BlockWeightRead(w, consumed)];
    match c.processCandidates(limited, scheduled, s3)
    case Err(e) =>
      var es := prefix + [CandidatesProcessed(limited, scheduled, Err(e))];
      assert es[4] == CandidatesProcessed(limited, scheduled, Err(e));
      Step(Err(e), false, s3, es)
    case Ok((occupied, s4)) =>
      var s5 := c.occupied(occupied, s4);
      var s6 := c.processPendingUpwardMessages(s5);
      var es := prefix + [CandidatesProcessed(limited, scheduled, Ok(occupied)), CoresOccupied(occupied),
                          UpwardMessagesProcessed, InclusionRecorded];
      assert es[7] == InclusionRecorded;
      Step(Ok(()), true, s6, es)
  }

  /** A successful inclusion makes every later one in the same block fail, without effect. */
  lemma InclusionOncePerBlock<S(!new)>(c: Collaborators<S>, env: S, origin: Origin,
                                 bitfields: seq<SignedBitfield>, candidates: seq<BackedCandidate>,
                                 origin': Origin, bitfields': seq<SignedBitfield>, candidates': seq<BackedCandidate>)
    requires WeightWithinLimit(c)
    requires Outcome(c, false, env, origin, bitfields, candidates).result.Ok?
    ensures var r := Outcome(c, false, env, origin, bitfields, candidates);
            var r' := Outcome(c, r.included, r.env, origin', bitfields', candidates');
            r'.result.Err? && r'.included && r'.env == r.env && r'.events == []
  {
  }

  /** The block's calls to `inclusion` so far: their results in order, the flag and the
      collaborators' state after the last one, and all the collaborator calls they made. */
  datatype BlockRun<S> = BlockRun(results: seq<Result<()>>, included: bool, env: S, events: seq<Event>)

  /** The calls `extrinsics` dispatched one after another from flag `included` and state
      `env`, each from the state the previous one left. */
  function RunCalls<S(!new)>(c: Collaborators<S>, included: bool, env: S,
                             extrinsics: seq<(Origin, Call)>): (b: BlockRun<S>)
    requires WeightWithinLimit(c)
    ensures |b.results| == |extrinsics|
    ensures extrinsics == [] ==> b == BlockRun([], included, env, [])
    decreases |extrinsics|
  {
    if extrinsics == [] then BlockRun([], included, env, [])
    else
      var before := RunCalls(c, included, env, extrinsics[..|extrinsics| - 1]);
      var (origin, call) := extrinsics[|extrinsics| - 1];
      var o := Outcome(c, before.included, before.env, origin, call.signedBitfields, call.backedCandidates);
      BlockRun(before.results + [o.result], o.included, o.env, before.events + o.events)
  }

  /** Over a block's calls the flag ends up set iff it was set or some call succeeded, at
      most one call succeeds, and none does once the flag is set. */
  lemma {:induction false} RunCallsAtMostOnce<S(!new)>(c: Collaborators<S>, included: bool, env: S,
                                                       extrinsics: seq<(Origin, Call)>)
    requires WeightWithinLimit(c)
    ensures var b := RunCalls(c, included, env, extrinsics);
            && b.included == (included || exists i :: 0 <= i < |b.results| && b.results[i].Ok?)
            && (forall i, j :: 0 <= i < j < |b.results| && b.results[i].Ok? ==> b.results[j].Err?)
            && (included ==> forall i :: 0 <= i < |b.results| ==> b.results[i].Err?)
    decreases |extrinsics|
  {
    if extrinsics != [] {
      var init := extrinsics[..|extrinsics| - 1];
      RunCallsAtMostOnce(c, included, env, init);
      var before := RunCalls(c, included, env, init);
      var (origin, call) := extrinsics[|extrinsics| - 1];
      var o := Outcome(c, before.included, before.env, origin, call.signedBitfields, call.backedCandidates);
      var results := before.results + [o.result];
      assert RunCalls(c, included, env, extrinsics).results == results;
      assert results[..|before.results|] == before.results && results[|before.results|] == o.result;
      assert (exists i :: 0 <= i < |results| && results[i].Ok?)
             <==> (o.result.Ok? || exists i :: 0 <= i < |before.results| && before.results[i].Ok?);
    }
  }

  /** The first of a block's calls runs from the state the block started in. */
  lemma {:induction false} RunCallsFirst<S(!new)>(c: Collaborators<S>, env: S, extrinsics: seq<(Origin, Call)>)
    requires WeightWithinLimit(c) && |extrinsics| > 0
    ensures RunCalls(c, false, env, extrinsics).results[0]
            == Outcome(c, false, env, extrinsics[0].0, extrinsics[0].1.signedBitfields,
                       extrinsics[0].1.backedCandidates).result
    decreases |extrinsics|
  {
    var init := extrinsics[..|extrinsics| - 1];
    if init == [] {
      assert extrinsics == [extrinsics[0]];
    } else {
      assert init[0] == extrinsics[0];
      RunCallsFirst(c, env, init);
    }
  }

  /** One more call extends the run of the calls before it. */
  lemma RunCallsSnoc<S(!new)>(c: Collaborators<S>, included: bool, env: S,
                              extrinsics: seq<(Origin, Call)>, i: nat)
    requires WeightWithinLimit(c) && i < |extrinsics|
    ensures var b := RunCalls(c, included, env, extrinsics[..i]);
            var o := Outcome(c, b.included, b.env, extrinsics[i].0, extrinsics[i].1.signedBitfields,
                             extrinsics[i].1.backedCandidates);
            RunCalls(c, included, env, extrinsics[..i + 1])
            == BlockRun(b.results + [o.result], o.included, o.env, b.events + o.events)
  {
    var prefix := extrinsics[..i + 1];
    assert prefix[..i] == extrinsics[..i] && prefix[i] == extrinsics[i];
  }

  /** A block with a single call runs just that call. */
  lemma RunCallsSingle<S(!new)>(c: Collaborators<S>, included: bool, env: S, origin: Origin, call: Call)
    requires WeightWithinLimit(c)
    ensures var o := Outcome(c, included, env, origin, call.signedBitfields, call.backedCandidates);
            RunCalls(c, included, env, [(origin, call)]) == BlockRun([o.result], o.included, o.env, o.events)
  {
    assert [(origin, call)][..0] == [];
  }

  lemma AppendAssoc<T>(a: seq<T>, b: seq<T>, c: seq<T>)
    ensures (a + b) + c == a + (b + c)
  {
  }

  /** The runtime state this module works on: its own `Included` flag and, abstractly, the
      storage of the modules it calls. `trace` records the collaborator calls made. */
  class ParaInclusionInherent<S(!new)> {
    const collab: Collaborators<S>
    var included: bool
    var env: S
    ghost var trace: seq<Event>

    ghost predicate Valid() {
      WeightWithinLimit(collab)
    }

    /** A block starts with the flag unset. */
    constructor (collab: Collaborators<S>, env: S)
      requires WeightWithinLimit(collab)
      ensures Valid() && this.collab == collab && this.env == env
      ensures !included && trace == []
    {
      this.collab := collab;
      this.env := env;
      included := false;
      trace := [];
    }

    /** `limit_backed_candidates`: the candidates that fit the block weight remaining now.
        The statement-by-statement form of the function `LimitedCandidates`, proved equal
        to it on the current state. */
    method LimitBackedCandidates(candidates: seq<BackedCandidate>) returns (limited: seq<BackedCandidate>)
      requires Valid()
      ensures limited == LimitedCandidates(candidates, collab.backedCandidateBlockWeight(env),
                                           collab.maximumBlockWeight, collab.blockWeight(env))
    {
      var perCandidateWeight := collab.backedCandidateBlockWeight(env);
      limited := candidates;
      if perCandidateWeight == 0 {
        return;
      }
      var blockWeightRemaining := collab.maximumBlockWeight - collab.blockWeight(env);
      var nCandidates := blockWeightRemaining / perCandidateWeight;
      limited := Truncate(limited, nCandidates);
    }

    /** `inclusion`: include backed candidates and bitfields. The dispatchable as written,
        step by step on the runtime state, proved equal to the function `Outcome`. */
    method Inclusion(origin: Origin, signedBitfields: seq<SignedBitfield>,
                     backedCandidates: seq<BackedCandidate>) returns (r: Result<()>)
      requires Valid()
      modifies this
      ensures var o := Outcome(collab, old(included), old(env), origin, signedBitfields, backedCandidates);
              && r == o.result && included == o.included && env == o.env
              && trace == old(trace) + o.events
      ensures included == (old(included) || r.Ok?)
    {
      if !origin.Unsigned? {
        return Err(BadOrigin);
      }
      if included {
        return Err(TooManyInclusionInherents);
      }

      // The collaborators' state is threaded through `s` and written back to `env`
      // before every return; calls are appended to `trace` in the order they are made.
      var c, s := collab, env;
      var bitfieldsOutcome := c.processBitfields(signedBitfields, s);
      if bitfieldsOutcome.Err? {
        trace := trace + [BitfieldsProcessed(signedBitfields, Err(bitfieldsOutcome.error))];
        return Err(bitfieldsOutcome.error);
      }
      var freedConcluded := bitfieldsOutcome.value.0;
      s := bitfieldsOutcome.value.1;
      env := s;
      r := ScheduleAndProcessCandidates(freedConcluded, signedBitfields, backedCandidates);
    }

    /** The part of `inclusion` after bitfields were processed, freeing `freedConcluded`:
        timeouts, scheduling, the limiter, candidates, occupancy, upward messages, flag.
        Proved equal to the function `AfterBitfields`. */
    method ScheduleAndProcessCandidates(freedConcluded: seq<CoreIndex>, signedBitfields: seq<SignedBitfield>,
                                        backedCandidates: seq<BackedCandidate>) returns (r: Result<()>)
      requires Valid() && !included
      modifies this
      ensures var o := AfterBitfields(collab, freedConcluded, old(env), signedBitfields, backedCandidates);
              && r == o.result && included == o.included && env == o.env
              && trace == old(trace) + o.events
    {
      var c, s := collab, env;
      var availabilityPred := c.availabilityTimeoutPredicate(s);
      var freedTimeout := [];
      if availabilityPred.Some? {
        var collected := c.collectPending(availabilityPred.value, s);
        freedTimeout, s := collected.0, collected.1;
      }

      var freed := Freed(freedConcluded, freedTimeout);
      s := c.schedule(freed, s);
      env := s;

      var limited := LimitBackedCandidates(backedCandidates);
      ghost var events := [BitfieldsProcessed(signedBitfields, Ok(freedConcluded)),
                           TimeoutsHandled(availabilityPred.Some?, freedTimeout), Scheduled(freed),
                           BlockWeightRead(c.backedCandidateBlockWeight(s), c.blockWeight(s))];

      var scheduled := c.scheduled(s);
      var candidatesOutcome := c.processCandidates(limited, scheduled, s);
      if candidatesOutcome.Err? {
        trace := trace + events + [CandidatesProcessed(limited, scheduled, Err(candidatesOutcome.error))];
        return Err(candidatesOutcome.error);
      }
      var occupied := candidatesOutcome.value.0;
      s := candidatesOutcome.value.1;
      s := c.occupied(occupied, s);
      s := c.processPendingUpwardMessages(s);
      env, included := s, true;
      trace := trace + events + [CandidatesProcessed(limited, scheduled, Ok(occupied)), CoresOccupied(occupied),
                                 UpwardMessagesProcessed, InclusionRecorded];
      r := Ok(());
    }

    /** `on_finalize`: take the flag; the block is valid only if it was set. */
    method OnFinalize() returns (valid: bool)
      modifies this`included
      ensures valid == old(included) && !included
    {
      valid := included;
      included := false;
    }

    /** The block's calls to `inclusion`, dispatched in order, each from the state the
        previous one left: the loop is proved against the fold `RunCalls` of `Outcome`. */
    method DispatchCalls(extrinsics: seq<(Origin, Call)>) returns (results: seq<Result<()>>)
      requires Valid()
      modifies this
      ensures var b := RunCalls(collab, old(included), old(env), extrinsics);
              && results == b.results && included == b.included && env == b.env
              && trace == old(trace) + b.events
    {
      results := [];
      ghost var b := BlockRun([], included, env, []);
      var i := 0;
      while i < |extrinsics|
        invariant 0 <= i <= |extrinsics|
        invariant b == RunCalls(collab, old(included), old(env), extrinsics[..i])
        invariant results == b.results && included == b.included && env == b.env
        invariant trace == old(trace) + b.events
      {
        var (origin, call) := extrinsics[i];
        RunCallsSnoc(collab, old(included), old(env), extrinsics, i);
        ghost var o := Outcome(collab, included, env, origin, call.signedBitfields, call.backedCandidates);
        var result := Inclusion(origin, call.signedBitfields, call.backedCandidates);
        AppendAssoc(old(trace), b.events, o.events);
        b := BlockRun(b.results + [o.result], o.included, o.env, b.events + o.events);
        results := results + [result];
        i := i + 1;
      }
      assert extrinsics[..i] == extrinsics;
    }

    /** One block as far as this module sees it: the block's calls to `inclusion`, in order,
        then `on_finalize`. At most one call succeeds, the block is valid exactly when one
        did, and the next block starts with the flag unset. */
    method ExecuteBlock(extrinsics: seq<(Origin, Call)>) returns (results: seq<Result<()>>, valid: bool)
      requires Valid() && !included
      modifies this
      ensures |results| == |extrinsics|
      ensures valid <==> exists i :: 0 <= i < |results| && results[i].Ok?
      ensures forall i, j :: 0 <= i < j < |results| && results[i].Ok? ==> results[j].Err?
      ensures !included
      // the results, the collaborators' state and the calls made are those of the calls
      // run one after another from the state the block started in
      ensures var b := RunCalls(collab, false, old(env), extrinsics);
              && results == b.results && valid == b.included && env == b.env
              && trace == old(trace) + b.events
      // the first call runs from the state the block started in
      ensures |extrinsics| > 0 ==> results[0] == Outcome(collab, false, old(env), extrinsics[0].0,
                                                         extrinsics[0].1.signedBitfields,
                                                         extrinsics[0].1.backedCandidates).result
    {
      results := DispatchCalls(extrinsics);
      RunCallsAtMostOnce(collab, false, old(env), extrinsics);
      if |extrinsics| > 0 {
        RunCallsFirst(collab, old(env), extrinsics);
      }
      valid := OnFinalize();
    }
  }
}
