/**
 * The resharding donor state machine. Its context (state, clone
 * statistics, abort reason) only moves forward through the state order,
 * each step returns early when the state has passed its stage, and the
 * coordinator is told of every state it depends on with a query that only
 * matches the states the coordinator may still hold for this donor.
 *
 * What the donor does to the outside world (persisting its document,
 * updating the coordinator, catalog refreshes, oplog writes, dropping the
 * collection) is appended to `effects` instead of being performed. The
 * answers of the outside world (collection statistics, the timestamp of
 * the no-op write, where step 1 throws, whether the config server refuses
 * a coordinator update, which oplog write fails, whether a token is
 * canceled) are parameters.
 */
module ReshardingDonorService {
  import opened Base
  import opened ReshardingStates

  type Timestamp = nat
  type ShardId = string
  type UUID = nat

  /** `DonorShardContext`: the donor's mutable state as persisted. */
  datatype DonorShardContext = DonorShardContext(
    state: DonorState,
    minFetchTimestamp: Option<Timestamp>,
    bytesToClone: Option<int>,
    documentsToClone: Option<int>,
    abortReason: Option<Status>)

  predicate HasCloneInfo(ctx: DonorShardContext)
  {
    ctx.minFetchTimestamp.Some? && ctx.bytesToClone.Some? && ctx.documentsToClone.Some?
  }

  /**
   * What the context promises about its state: a donor past
   * kPreparingToDonate that is not in a potential abort scenario has its
   * clone statistics, and a donor in kError has an error as abort reason.
   */
  predicate ContextInvariant(ctx: DonorShardContext)
  {
    (Ord(ctx.state) > Ord(PreparingToDonate) && !InPotentialAbortScenario(ctx.state) ==> HasCloneInfo(ctx)) &&
    (ctx.state == Error ==> ctx.abortReason.Some? && !ctx.abortReason.value.IsOK())
  }

  /**
   * The filter of a coordinator update: the operation's UUID, this donor's
   * shard id, and the names of the states the donor's entry may hold.
   */
  datatype CoordinatorQuery = CoordinatorQuery(reshardingUUID: UUID, shardId: ShardId, stateIn: seq<string>)

  /** The `$in` list for a list of states. */
  function StateNames(states: seq<DonorState>): (names: seq<string>)
    ensures |names| == |states|
    decreases |states|
  {
    if states == [] then [] else [DonorStateName(states[0])] + StateNames(states[1..])
  }

  /** The `$in` list matches a state's name exactly when the state is in the list. */
  lemma {:induction false} StateNamesMatchExactly(states: seq<DonorState>, current: DonorState)
    ensures DonorStateName(current) in StateNames(states) <==> current in states
    decreases |states|
  {
    if states != [] {
      StateNamesMatchExactly(states[1..], current);
      assert StateNames(states) == [DonorStateName(states[0])] + StateNames(states[1..]);
      assert states == [states[0]] + states[1..];
      if DonorStateName(current) == DonorStateName(states[0]) {
        DonorStateNameInjective(current, states[0]);
      }
    }
  }

  /**
   * `_makeQueryForCoordinatorUpdate`: the state must have an entry in the
   * table; the query lists, in the table's order, the names of its valid
   * previous states.
   */
  method MakeQueryForCoordinatorUpdate(uuid: UUID, shardId: ShardId, newState: DonorState)
    returns (q: CoordinatorQuery)
    requires ValidPreviousStates(newState).Some?
    ensures q.reshardingUUID == uuid && q.shardId == shardId
    ensures q.stateIn == StateNames(ValidPreviousStates(newState).value)
    ensures |q.stateIn| == |ValidPreviousStates(newState).value|
    ensures forall i :: 0 <= i < |q.stateIn| ==> q.stateIn[i] == DonorStateName(ValidPreviousStates(newState).value[i])
    ensures forall s :: DonorStateName(s) in q.stateIn <==> s in ValidPreviousStates(newState).value
  {
    var previous := ValidPreviousStates(newState).value;
    var names: seq<string> := [];
    var i := 0;
    while i < |previous|
      invariant 0 <= i <= |previous|
      invariant names == StateNames(previous[..i])
    {
      assert previous[..i + 1] == previous[..i] + [previous[i]];
      StateNamesAppend(previous[..i], previous[i]);
      names := names + [DonorStateName(previous[i])];
      i := i + 1;
    }
    assert previous[..i] == previous;
    forall s ensures DonorStateName(s) in names <==> s in previous {
      StateNamesMatchExactly(previous, s);
    }
    forall k | 0 <= k < |names| ensures names[k] == DonorStateName(previous[k]) {
      StateNamesAt(previous, k);
    }
    q := CoordinatorQuery(uuid, shardId, names);
  }

  lemma {:induction false} StateNamesAppend(states: seq<DonorState>, s: DonorState)
    ensures StateNames(states + [s]) == StateNames(states) + [DonorStateName(s)]
    decreases |states|
  {
    if states != [] {
      assert (states + [s])[1..] == states[1..] + [s];
      StateNamesAppend(states[1..], s);
    }
  }

  lemma {:induction false} StateNamesAt(states: seq<DonorState>, k: nat)
    requires k < |states|
    ensures StateNames(states)[k] == DonorStateName(states[k])
    decreases |states|
  {
    if k > 0 {
      StateNamesAt(states[1..], k - 1);
    }
  }

  /** Something the donor does to the outside world, in the order it does it. */
  datatype Effect =
    | PersistDonorContext(ctx: DonorShardContext)
    | UpdateCoordinator(query: CoordinatorQuery, ctx: DonorShardContext)
    | RefreshTemporaryCollection
    | MinFetchNoopWrite(timestamp: Timestamp)
    | FinalOplogNoop(recipient: ShardId)
    | DropOriginalCollection
    | RemoveDonorDocument

  /**
   * The points at which step 1 can throw, in the order it reaches them:
   * the check that no index build is in progress on the collection (made
   * only when the collection exists), the catalog refresh of the temporary
   * collection, the no-op write that yields the minFetchTimestamp, and the
   * persisting of the new context.
   */
  datatype PrepareStage =
    | CheckIndexBuilds
    | RefreshCatalog
    | WriteMinFetchNoop
    | PersistDonatingInitialData

  /** Whether step 1 throws at `failAt`: the index-build check throws only if it is made. */
  predicate PrepareFails(collectionStats: Option<(int, int)>, failAt: Option<PrepareStage>)
  {
    failAt.Some? && (failAt.value != CheckIndexBuilds || collectionStats.Some?)
  }

  /** What step 1 has done to the outside world when it throws at `stage`. */
  function EffectsBeforeFailure(stage: PrepareStage, minFetchTimestamp: Timestamp): seq<Effect>
  {
    match stage
    case CheckIndexBuilds => []
    case RefreshCatalog => []
    case WriteMinFetchNoop => [RefreshTemporaryCollection]
    case PersistDonatingInitialData => [RefreshTemporaryCollection, MinFetchNoopWrite(minFetchTimestamp)]
  }

  /** The final no-op oplog entries for the first `n` recipients, in order. */
  function FinalOplogNoops(recipients: seq<ShardId>, n: nat): (noops: seq<Effect>)
    requires n <= |recipients|
    ensures |noops| == n
    ensures forall k :: 0 <= k < n ==> noops[k] == FinalOplogNoop(recipients[k])
  {
    if n == 0 then [] else FinalOplogNoops(recipients, n - 1) + [FinalOplogNoop(recipients[n - 1])]
  }

  /**
   * How a step of the future chain ends: it proceeds, waits on a pending
   * future, fails, or fails with a status `withAutomaticRetry` retries, so
   * that the retried part runs again.
   */
  datatype StepResult =
    | Proceeded
    | Waiting
    | Failed(status: Status)
    | Retried(status: Status)

  /**
   * The error `withCancellation` reports when its token is canceled first.
   * It is defined outside this model; only its code matters here.
   */
  const CanceledStatus: Status := Status(CallbackCanceled, "operation was canceled")

  /**
   * `withCancellation(promise.getFuture(), token)` taken at one instant: a
   * ready promise wins and passes its outcome on; otherwise a canceled
   * token fails the step; otherwise the step waits.
   */
  function WithCancellation(p: SharedPromise, canceled: bool): (r: StepResult)
    ensures r == Proceeded <==> p.Ready? && p.outcome.IsOK()
    ensures r == Waiting <==> p.Pending? && !canceled
    ensures r.Failed? ==> !r.status.IsOK() || r.status == CanceledStatus
  {
    if p.Ready? then (if p.outcome.IsOK() then Proceeded else Failed(p.outcome))
    else if canceled then Failed(CanceledStatus)
    else Waiting
  }

  /**
   * Step 2 as written ends in an `onCompletion` whose callback ignores the
   * status it receives and returns nothing, so the step succeeds whenever
   * it completes, whatever the wait for the recipients gave.
   */
  function CloningStepOutcomeAsWritten(awaited: StepResult): (r: StepResult)
    ensures r == Waiting <==> awaited == Waiting
    ensures r != Waiting ==> r == Proceeded
  {
    if awaited == Waiting then Waiting else Proceeded
  }

  /**
   * With the abort token canceled before the recipients are done cloning,
   * the wait fails but the step as written reports success, so the chain
   * goes on to the next step with the donor still in kDonatingInitialData.
   */
  lemma AsWrittenCloningStepSwallowsCancellation()
    ensures WithCancellation(Pending, true) == Failed(CanceledStatus)
    ensures CloningStepOutcomeAsWritten(WithCancellation(Pending, true)) == Proceeded
  {
  }

  /**
   * The first `onCompletion` of `run()`: a stepdown passes the status on;
   * so does an error while the abort token is not canceled; otherwise the
   * operation finishes, aborted exactly when the abort token is canceled.
   */
  function AbortedDecision(stepdownCanceled: bool, chainStatus: Status, abortCanceled: bool): (r: Result<bool, Status>)
    ensures r.Err? <==> stepdownCanceled || (!chainStatus.IsOK() && !abortCanceled)
    ensures r.Err? ==> r.error == chainStatus
    ensures r.Ok? ==> r.value == abortCanceled
  {
    if stepdownCanceled then Err(chainStatus)
    else if !chainStatus.IsOK() && !abortCanceled then Err(chainStatus)
    else Ok(abortCanceled)
  }

  class DonorStateMachine {
    const reshardingUUID: UUID
    /** The shard id the external state reports for this donor. */
    const shardId: ShardId
    const recipientShardIds: seq<ShardId>
    var donorCtx: DonorShardContext
    var allRecipientsDoneCloning: SharedPromise
    var allRecipientsDoneApplying: SharedPromise
    var coordinatorHasDecisionPersisted: SharedPromise
    var finalOplogEntriesWritten: SharedPromise
    var completionPromise: SharedPromise
    /** Whether the critical section on the source collection is held. */
    var critSec: bool
    var abortReason: Option<Status>
    /** `_abortSource`: none before `run()`, then whether it has been canceled. */
    var abortSource: Option<bool>
    var effects: seq<Effect>

    ghost predicate Valid()
      reads this
    {
      ContextInvariant(donorCtx) && (abortReason.Some? ==> !abortReason.value.IsOK())
    }

    function Signals(): CoordinatorSignals
      reads this
    {
      CoordinatorSignals(allRecipientsDoneCloning, allRecipientsDoneApplying, coordinatorHasDecisionPersisted, critSec)
    }

    /** The context only moves forward, and nothing done before is undone. */
    twostate predicate Advanced()
      reads this
    {
      Ord(old(donorCtx.state)) <= Ord(donorCtx.state) && old(effects) <= effects
    }

    twostate predicate Unchanged()
      reads this
    {
      donorCtx == old(donorCtx) && effects == old(effects)
    }

    constructor (uuid: UUID, shard: ShardId, recipients: seq<ShardId>, ctx: DonorShardContext)
      requires ContextInvariant(ctx)
      ensures Valid() && donorCtx == ctx && effects == []
      ensures reshardingUUID == uuid && shardId == shard && recipientShardIds == recipients
      ensures allRecipientsDoneCloning == Pending && allRecipientsDoneApplying == Pending
      ensures coordinatorHasDecisionPersisted == Pending && finalOplogEntriesWritten == Pending
      ensures completionPromise == Pending && !critSec && abortReason == None && abortSource == None
    {
      reshardingUUID, shardId, recipientShardIds := uuid, shard, recipients;
      donorCtx := ctx;
      allRecipientsDoneCloning, allRecipientsDoneApplying := Pending, Pending;
      coordinatorHasDecisionPersisted, finalOplogEntriesWritten, completionPromise := Pending, Pending, Pending;
      critSec, abortReason, abortSource := false, None, None;
      effects := [];
    }

    /** `_updateDonorDocument`: persists the new context, then adopts it. */
    method UpdateDonorDocument(newCtx: DonorShardContext)
      requires Valid() && ContextInvariant(newCtx)
      modifies this`donorCtx, this`effects
      ensures Valid() && donorCtx == newCtx && effects == old(effects) + [PersistDonorContext(newCtx)]
    {
      effects := effects + [PersistDonorContext(newCtx)];
      donorCtx := newCtx;
    }

    /**
     * `_transitionState(newState)`: never into kDonatingInitialData or
     * kError, which have setters of their own; only the state changes.
     */
    method TransitionState(newState: DonorState)
      requires Valid() && newState != DonatingInitialData && newState != Error
      requires ContextInvariant(donorCtx.(state := newState))
      modifies this`donorCtx, this`effects
      ensures Valid() && donorCtx == old(donorCtx).(state := newState)
      ensures effects == old(effects) + [PersistDonorContext(donorCtx)]
    {
      UpdateDonorDocument(donorCtx.(state := newState));
    }

    /** `_transitionToDonatingInitialData`: the state together with the three clone statistics. */
    method TransitionToDonatingInitialData(minFetchTimestamp: Timestamp, bytesToClone: int, documentsToClone: int)
      requires Valid()
      modifies this`donorCtx, this`effects
      ensures Valid() && HasCloneInfo(donorCtx)
      ensures donorCtx == old(donorCtx).(state := DonatingInitialData, minFetchTimestamp := Some(minFetchTimestamp),
                                         bytesToClone := Some(bytesToClone), documentsToClone := Some(documentsToClone))
      ensures effects == old(effects) + [PersistDonorContext(donorCtx)]
    {
      UpdateDonorDocument(donorCtx.(state := DonatingInitialData, minFetchTimestamp := Some(minFetchTimestamp),
                                    bytesToClone := Some(bytesToClone), documentsToClone := Some(documentsToClone)));
    }

    /** `_transitionToError`: the state together with the abort reason, which is an error. */
    method TransitionToError(reason: Status)
      requires Valid() && !reason.IsOK()
      modifies this`donorCtx, this`effects
      ensures Valid()
      ensures donorCtx == old(donorCtx).(state := Error, abortReason := Some(reason))
      ensures effects == old(effects) + [PersistDonorContext(donorCtx)]
    {
      UpdateDonorDocument(donorCtx.(state := Error, abortReason := Some(reason)));
    }

    /**
     * The coordinator update that reports `ctx`: this operation and this
     * donor, filtered on the names of the valid previous states of
     * `ctx.state`, in the table's order.
     */
    function CoordinatorReport(ctx: DonorShardContext): Effect
      requires ValidPreviousStates(ctx.state).Some?
    {
      UpdateCoordinator(CoordinatorQuery(reshardingUUID, shardId, StateNames(ValidPreviousStates(ctx.state).value)), ctx)
    }

    /**
     * The report of `ctx` carries `ctx`, names this operation and this
     * donor, and its filter matches a state's name exactly when that state
     * is a valid previous state of `ctx.state`.
     */
    lemma CoordinatorReportMatchesExactly(ctx: DonorShardContext)
      requires ValidPreviousStates(ctx.state).Some?
      ensures CoordinatorReport(ctx).UpdateCoordinator? && CoordinatorReport(ctx).ctx == ctx
      ensures CoordinatorReport(ctx).query.reshardingUUID == reshardingUUID
      ensures CoordinatorReport(ctx).query.shardId == shardId
      ensures forall s :: DonorStateName(s) in CoordinatorReport(ctx).query.stateIn <==>
                          s in ValidPreviousStates(ctx.state).value
    {
      forall s ensures DonorStateName(s) in CoordinatorReport(ctx).query.stateIn <==>
                       s in ValidPreviousStates(ctx.state).value {
        StateNamesMatchExactly(ValidPreviousStates(ctx.state).value, s);
      }
    }

    /**
     * `_updateCoordinator`: writes the donor's context into its entry of
     * the coordinator document, filtered on the valid previous states of
     * the donor's current state. When the config server refuses the
     * update (`failure`), the error is raised and nothing is written.
     */
    method UpdateCoordinatorDocument(failure: Option<Status>) returns (r: StepResult)
      requires Valid() && ValidPreviousStates(donorCtx.state).Some?
      requires failure.Some? ==> !failure.value.IsOK()
      modifies this`effects
      ensures Valid()
      ensures failure.Some? ==> r == Failed(failure.value) && effects == old(effects)
      ensures failure.None? ==> r == Proceeded && effects == old(effects) + [CoordinatorReport(donorCtx)]
    {
      if failure.Some? {
        return Failed(failure.value);
      }
      var q := MakeQueryForCoordinatorUpdate(reshardingUUID, shardId, donorCtx.state);
      effects := effects + [UpdateCoordinator(q, donorCtx)];
      r := Proceeded;
    }

    /**
     * Step 1, `_onPreparingToDonateCalculateTimestampThenTransitionToDonatingInitialData`:
     * past kPreparingToDonate it does nothing. Otherwise it takes the size
     * and count of the collection (zero when there is none), refreshes the
     * temporary collection, writes the no-op whose timestamp is the
     * minFetchTimestamp, and enters kDonatingInitialData with all three.
     * If it throws at `failAt` (with `failure`), what it did before stays
     * done and the context is unchanged.
     */
    method PrepareToDonate(collectionStats: Option<(int, int)>, minFetchTimestamp: Timestamp,
                           failAt: Option<PrepareStage>, failure: Status)
      returns (r: StepResult)
      requires Valid() && !failure.IsOK()
      modifies this`donorCtx, this`effects
      ensures Valid() && Advanced()
      ensures Ord(old(donorCtx.state)) > Ord(PreparingToDonate) ==> Unchanged() && r == Proceeded
      ensures Ord(old(donorCtx.state)) > Ord(PreparingToDonate) && !InPotentialAbortScenario(donorCtx.state) ==>
        HasCloneInfo(donorCtx)
      ensures Ord(old(donorCtx.state)) <= Ord(PreparingToDonate) && PrepareFails(collectionStats, failAt) ==>
        r == Failed(failure) && donorCtx == old(donorCtx) &&
        effects == old(effects) + EffectsBeforeFailure(failAt.value, minFetchTimestamp)
      ensures Ord(old(donorCtx.state)) <= Ord(PreparingToDonate) && !PrepareFails(collectionStats, failAt) ==>
        var (bytes, docs) := if collectionStats.Some? then collectionStats.value else (0, 0);
        r == Proceeded &&
        donorCtx == old(donorCtx).(state := DonatingInitialData, minFetchTimestamp := Some(minFetchTimestamp),
                                   bytesToClone := Some(bytes), documentsToClone := Some(docs)) &&
        effects == old(effects) + [RefreshTemporaryCollection, MinFetchNoopWrite(minFetchTimestamp),
                                   PersistDonorContext(donorCtx)]
    {
      if Ord(donorCtx.state) > Ord(PreparingToDonate) {
        if !InPotentialAbortScenario(donorCtx.state) {
          assert HasCloneInfo(donorCtx);
        }
        return Proceeded;
      }
      var bytesToClone, documentsToClone := 0, 0;
      if collectionStats.Some? {
        if failAt == Some(CheckIndexBuilds) {
          return Failed(failure);
        }
        bytesToClone, documentsToClone := collectionStats.value.0, collectionStats.value.1;
      }
      if failAt == Some(RefreshCatalog) {
        return Failed(failure);
      }
      effects := effects + [RefreshTemporaryCollection];
      if failAt == Some(WriteMinFetchNoop) {
        return Failed(failure);
      }
      effects := effects + [MinFetchNoopWrite(minFetchTimestamp)];
      if failAt == Some(PersistDonatingInitialData) {
        return Failed(failure);
      }
      TransitionToDonatingInitialData(minFetchTimestamp, bytesToClone, documentsToClone);
      r := Proceeded;
    }

    /**
     * Step 2, `_awaitAllRecipientsDoneCloningThenTransitionToDonatingOplogEntries`:
     * past kDonatingInitialData it does nothing. Otherwise it reports
     * kDonatingInitialData to the coordinator, waits for every recipient to
     * finish cloning, and enters kDonatingOplogEntries. A report the config
     * server refuses (`coordinatorFailure`) or a failed wait fails the step.
     */
    method AwaitCloningThenDonateOplog(abortCanceled: bool, coordinatorFailure: Option<Status>) returns (r: StepResult)
      requires Valid() && Ord(donorCtx.state) >= Ord(DonatingInitialData)
      requires coordinatorFailure.Some? ==> !coordinatorFailure.value.IsOK()
      modifies this`donorCtx, this`effects
      ensures Valid() && Advanced()
      ensures Ord(old(donorCtx.state)) > Ord(DonatingInitialData) ==> Unchanged() && r == Proceeded
      ensures old(donorCtx.state) == DonatingInitialData && coordinatorFailure.Some? ==>
        r == Failed(coordinatorFailure.value) && Unchanged()
      ensures old(donorCtx.state) == DonatingInitialData && coordinatorFailure.None? ==>
        r == WithCancellation(allRecipientsDoneCloning, abortCanceled) &&
        (r == Proceeded ==>
          donorCtx == old(donorCtx).(state := DonatingOplogEntries) &&
          effects == old(effects) + [CoordinatorReport(old(donorCtx)), PersistDonorContext(donorCtx)]) &&
        (r != Proceeded ==> donorCtx == old(donorCtx) && effects == old(effects) + [CoordinatorReport(old(donorCtx))])
      ensures r == Proceeded ==> Ord(donorCtx.state) > Ord(DonatingInitialData)
      ensures r != Proceeded ==> donorCtx == old(donorCtx)
    {
      if Ord(donorCtx.state) > Ord(DonatingInitialData) {
        return Proceeded;
      }
      OrdInjective(donorCtx.state, DonatingInitialData);
      r := UpdateCoordinatorDocument(coordinatorFailure);
      if r.Failed? {
        return;
      }
      r := WithCancellation(allRecipientsDoneCloning, abortCanceled);
      if r == Proceeded {
        TransitionState(DonatingOplogEntries);
      }
    }

    /**
     * Step 3, `_awaitAllRecipientsDoneApplyingThenTransitionToPreparingToBlockWrites`:
     * past kDonatingOplogEntries it does nothing. Otherwise it waits for
     * every recipient to finish applying and enters kPreparingToBlockWrites.
     */
    method AwaitApplyingThenPrepareToBlockWrites(abortCanceled: bool) returns (r: StepResult)
      requires Valid() && Ord(donorCtx.state) >= Ord(DonatingOplogEntries)
      modifies this`donorCtx, this`effects
      ensures Valid() && Advanced()
      ensures Ord(old(donorCtx.state)) > Ord(DonatingOplogEntries) ==> Unchanged() && r == Proceeded
      ensures old(donorCtx.state) == DonatingOplogEntries ==>
        r == WithCancellation(allRecipientsDoneApplying, abortCanceled)
      ensures old(donorCtx.state) == DonatingOplogEntries && r == Proceeded ==>
        donorCtx == old(donorCtx).(state := PreparingToBlockWrites)
      ensures r == Proceeded ==> Ord(donorCtx.state) > Ord(DonatingOplogEntries)
      ensures r != Proceeded ==> Unchanged()
    {
      if Ord(donorCtx.state) > Ord(DonatingOplogEntries) {
        return Proceeded;
      }
      OrdInjective(donorCtx.state, DonatingOplogEntries);
      r := WithCancellation(allRecipientsDoneApplying, abortCanceled);
      if r == Proceeded {
        TransitionState(PreparingToBlockWrites);
      }
    }

    /**
     * Step 4 run from kPreparingToBlockWrites: with the write for recipient
     * `failAt` failing, the no-ops before it are written, the final-oplog
     * promise gets the error and the step fails with the context
     * unchanged; otherwise every recipient's no-op is written in order, the
     * promise is fulfilled and kBlockingWrites is persisted.
     */
    twostate predicate FinalOplogWritten(failAt: Option<nat>, failure: Status, r: StepResult)
      reads this
    {
      if failAt.Some? && failAt.value < |recipientShardIds| then
        r == Failed(failure) && donorCtx == old(donorCtx) &&
        finalOplogEntriesWritten == EnsureFailed(old(finalOplogEntriesWritten), failure) &&
        effects == old(effects) + FinalOplogNoops(recipientShardIds, failAt.value)
      else
        r == Proceeded && donorCtx == old(donorCtx).(state := BlockingWrites) &&
        finalOplogEntriesWritten == EnsureFulfilled(old(finalOplogEntriesWritten)) &&
        effects == old(effects) + FinalOplogNoops(recipientShardIds, |recipientShardIds|)
                 + [PersistDonorContext(donorCtx)]
    }

    /**
     * Step 4, `_writeTransactionOplogEntryThenTransitionToBlockingWrites`:
     * past kPreparingToBlockWrites it does nothing. Otherwise it writes one
     * no-op oplog entry per recipient, in order; if the write for recipient
     * `failAt` fails, the final-oplog promise gets that error and the step
     * fails; otherwise the promise is fulfilled and the donor enters
     * kBlockingWrites.
     */
    method WriteFinalOplogEntriesThenBlockWrites(failAt: Option<nat>, failure: Status) returns (r: StepResult)
      requires Valid() && Ord(donorCtx.state) >= Ord(PreparingToBlockWrites) && !failure.IsOK()
      modifies this`donorCtx, this`effects, this`finalOplogEntriesWritten
      ensures Valid() && Advanced()
      ensures Ord(old(donorCtx.state)) > Ord(PreparingToBlockWrites) ==>
        Unchanged() && r == Proceeded && finalOplogEntriesWritten == old(finalOplogEntriesWritten)
      ensures old(donorCtx.state) == PreparingToBlockWrites ==> FinalOplogWritten(failAt, failure, r)
    {
      if Ord(donorCtx.state) > Ord(PreparingToBlockWrites) {
        return Proceeded;
      }
      OrdInjective(donorCtx.state, PreparingToBlockWrites);
      var i := 0;
      while i < |recipientShardIds|
        invariant 0 <= i <= |recipientShardIds|
        invariant failAt.Some? ==> i <= failAt.value
        invariant donorCtx == old(donorCtx) && finalOplogEntriesWritten == old(finalOplogEntriesWritten)
        invariant effects == old(effects) + FinalOplogNoops(recipientShardIds, i)
      {
        if failAt == Some(i) {
          finalOplogEntriesWritten := EnsureFailed(finalOplogEntriesWritten, failure);
          return Failed(failure);
        }
        effects := effects + [FinalOplogNoop(recipientShardIds[i])];
        i := i + 1;
      }
      finalOplogEntriesWritten := EnsureFulfilled(finalOplogEntriesWritten);
      TransitionState(BlockingWrites);
      r := Proceeded;
    }

    /**
     * `_dropOriginalCollectionThenTransitionToDone`: past kBlockingWrites it
     * does nothing; otherwise it drops the source collection and enters
     * kDone.
     */
    method DropOriginalCollectionThenTransitionToDone()
      requires Valid()
      modifies this`donorCtx, this`effects
      ensures Valid() && Advanced()
      ensures Ord(old(donorCtx.state)) > Ord(BlockingWrites) ==> Unchanged()
      ensures Ord(old(donorCtx.state)) <= Ord(BlockingWrites) ==>
        Valid() && donorCtx == old(donorCtx).(state := Done) &&
        effects == old(effects) + [DropOriginalCollection, PersistDonorContext(donorCtx)]
    {
      if Ord(donorCtx.state) > Ord(BlockingWrites) {
        return;
      }
      effects := effects + [DropOriginalCollection];
      TransitionState(Done);
    }

    /**
     * The error handler of the first part of the chain: with the abort
     * token canceled the error is passed on; otherwise the donor, which has
     * not reached kBlockingWrites, enters kError with the error as abort
     * reason and carries on.
     */
    method OnChainError(status: Status, abortCanceled: bool) returns (r: StepResult)
      requires Valid() && !status.IsOK()
      requires !abortCanceled ==> Ord(donorCtx.state) < Ord(BlockingWrites)
      modifies this`donorCtx, this`effects
      ensures Valid() && Advanced()
      ensures abortCanceled ==> r == Failed(status) && Unchanged()
      ensures !abortCanceled ==>
        r == Proceeded && donorCtx == old(donorCtx).(state := Error, abortReason := Some(status))
    {
      if abortCanceled {
        return Failed(status);
      }
      TransitionToError(status);
      r := Proceeded;
    }

    /**
     * One attempt of the chain `_runUntilBlockingWritesOrErrored` retries:
     * the four steps in order, each starting only if the one before
     * proceeded. Step 1 may throw at `prepareFailAt`, the report of step 2
     * may be refused (`coordinatorFails`), and the final oplog write for
     * recipient `failAt` may fail, each with `failure`. A step fails only
     * at its own stage, which it leaves unchanged.
     */
    method RunStepsOnce(collectionStats: Option<(int, int)>, minFetchTimestamp: Timestamp,
                        abortCanceled: bool, prepareFailAt: Option<PrepareStage>,
                        coordinatorFails: bool, failAt: Option<nat>, failure: Status)
      returns (r: StepResult)
      requires Valid() && !failure.IsOK()
      modifies this`donorCtx, this`effects, this`finalOplogEntriesWritten
      ensures Valid() && Advanced()
      ensures r == Proceeded ==> Ord(donorCtx.state) > Ord(PreparingToBlockWrites)
      ensures r.Failed? ==> !r.status.IsOK() && Ord(donorCtx.state) <= Ord(PreparingToBlockWrites)
      ensures !r.Retried?
      ensures Ord(old(donorCtx.state)) <= Ord(PreparingToDonate) && PrepareFails(collectionStats, prepareFailAt) ==>
        r == Failed(failure) && donorCtx == old(donorCtx)
      ensures old(donorCtx.state) == DonatingInitialData && coordinatorFails ==>
        r == Failed(failure) && donorCtx == old(donorCtx)
      ensures old(donorCtx.state) == DonatingOplogEntries && WithCancellation(allRecipientsDoneApplying, abortCanceled) != Proceeded ==>
        r == WithCancellation(allRecipientsDoneApplying, abortCanceled) && Unchanged() &&
        finalOplogEntriesWritten == old(finalOplogEntriesWritten)
      ensures old(donorCtx.state) == DonatingOplogEntries && WithCancellation(allRecipientsDoneApplying, abortCanceled) == Proceeded ==>
        if failAt.Some? && failAt.value < |recipientShardIds| then
          r == Failed(failure) && donorCtx == old(donorCtx).(state := PreparingToBlockWrites)
        else r == Proceeded && donorCtx == old(donorCtx).(state := BlockingWrites)
      ensures old(donorCtx.state) == PreparingToBlockWrites ==> FinalOplogWritten(failAt, failure, r)
    {
      r := PrepareToDonate(collectionStats, minFetchTimestamp, prepareFailAt, failure);
      if r != Proceeded {
        return;
      }
      r := AwaitCloningThenDonateOplog(abortCanceled, if coordinatorFails then Some(failure) else None);
      if r != Proceeded {
        return;
      }
      r := RunLastStepsOnce(abortCanceled, failAt, failure);
    }

    /**
     * The last two steps of one attempt of the chain: wait for applying,
     * then the final oplog entries, the second only if the first proceeded.
     */
    method RunLastStepsOnce(abortCanceled: bool, failAt: Option<nat>, failure: Status) returns (r: StepResult)
      requires Valid() && !failure.IsOK() && Ord(donorCtx.state) >= Ord(DonatingOplogEntries)
      modifies this`donorCtx, this`effects, this`finalOplogEntriesWritten
      ensures Valid() && Advanced()
      ensures r == Proceeded ==> Ord(donorCtx.state) > Ord(PreparingToBlockWrites)
      ensures r.Failed? ==> !r.status.IsOK() && Ord(donorCtx.state) <= Ord(PreparingToBlockWrites)
      ensures !r.Retried?
      ensures Ord(old(donorCtx.state)) > Ord(PreparingToBlockWrites) ==>
        r == Proceeded && Unchanged() && finalOplogEntriesWritten == old(finalOplogEntriesWritten)
      ensures old(donorCtx.state) == PreparingToBlockWrites ==> FinalOplogWritten(failAt, failure, r)
      ensures old(donorCtx.state) == DonatingOplogEntries && WithCancellation(allRecipientsDoneApplying, abortCanceled) != Proceeded ==>
        r == WithCancellation(allRecipientsDoneApplying, abortCanceled) && Unchanged() &&
        finalOplogEntriesWritten == old(finalOplogEntriesWritten)
      ensures old(donorCtx.state) == DonatingOplogEntries && WithCancellation(allRecipientsDoneApplying, abortCanceled) == Proceeded ==>
        if failAt.Some? && failAt.value < |recipientShardIds| then
          r == Failed(failure) && donorCtx == old(donorCtx).(state := PreparingToBlockWrites)
        else r == Proceeded && donorCtx == old(donorCtx).(state := BlockingWrites)
    {
      r := AwaitApplyingThenPrepareToBlockWrites(abortCanceled);
      if r != Proceeded {
        return;
      }
      r := WriteFinalOplogEntriesThenBlockWrites(failAt, failure);
    }

    /**
     * `_runUntilBlockingWritesOrErrored`: one attempt of the four steps.
     * With the abort token canceled an error is passed on; otherwise an
     * error `withAutomaticRetry` retries sends the chain round again from
     * where the attempt left the donor, and any other error puts the donor
     * in kError. When it proceeds the donor is in kBlockingWrites, kError
     * or kDone.
     */
    method RunUntilBlockingWritesOrErrored(collectionStats: Option<(int, int)>, minFetchTimestamp: Timestamp,
                                           abortCanceled: bool, prepareFailAt: Option<PrepareStage>,
                                           coordinatorFails: bool, failAt: Option<nat>, failure: Status)
      returns (r: StepResult)
      requires Valid() && !failure.IsOK()
      modifies this`donorCtx, this`effects, this`finalOplogEntriesWritten
      ensures Valid() && Advanced()
      ensures r == Proceeded ==> donorCtx.state in {BlockingWrites, Error, Done}
      ensures r.Failed? ==> abortCanceled
      ensures r.Retried? ==>
        !abortCanceled && !StopRetrying(r.status) && Ord(donorCtx.state) <= Ord(PreparingToBlockWrites)
      ensures Ord(old(donorCtx.state)) <= Ord(PreparingToDonate) && PrepareFails(collectionStats, prepareFailAt) ==>
        if abortCanceled then r == Failed(failure) && donorCtx == old(donorCtx)
        else if StopRetrying(failure) then
          r == Proceeded && donorCtx == old(donorCtx).(state := Error, abortReason := Some(failure))
        else r == Retried(failure) && donorCtx == old(donorCtx)
      ensures old(donorCtx.state) == DonatingInitialData && coordinatorFails ==>
        if abortCanceled then r == Failed(failure) && donorCtx == old(donorCtx)
        else if StopRetrying(failure) then
          r == Proceeded && donorCtx == old(donorCtx).(state := Error, abortReason := Some(failure))
        else r == Retried(failure) && donorCtx == old(donorCtx)
      ensures old(donorCtx.state) == PreparingToBlockWrites && failAt.Some? && failAt.value < |recipientShardIds| ==>
        finalOplogEntriesWritten == EnsureFailed(old(finalOplogEntriesWritten), failure) &&
        if abortCanceled then r == Failed(failure) && donorCtx == old(donorCtx)
        else if StopRetrying(failure) then
          r == Proceeded && donorCtx == old(donorCtx).(state := Error, abortReason := Some(failure))
        else r == Retried(failure) && donorCtx == old(donorCtx)
      ensures old(donorCtx.state) == PreparingToBlockWrites && !(failAt.Some? && failAt.value < |recipientShardIds|) ==>
        r == Proceeded && donorCtx == old(donorCtx).(state := BlockingWrites) &&
        finalOplogEntriesWritten == EnsureFulfilled(old(finalOplogEntriesWritten))
    {
      r := RunStepsOnce(collectionStats, minFetchTimestamp, abortCanceled, prepareFailAt, coordinatorFails, failAt, failure);
      if r.Failed? {
        if !abortCanceled && !StopRetrying(r.status) {
          r := Retried(r.status);
        } else {
          r := OnChainError(r.status, abortCanceled);
        }
      }
      if r == Proceeded {
        match donorCtx.state
        case BlockingWrites =>
        case Error =>
        case Done =>
        case Unused => assert false;
        case PreparingToDonate => assert false;
        case DonatingInitialData => assert false;
        case DonatingOplogEntries => assert false;
        case PreparingToBlockWrites => assert false;
      }
    }

    /**
     * `_notifyCoordinatorAndAwaitDecision`: in kDone it does nothing;
     * otherwise it reports the state to the coordinator and waits for the
     * decision to be persisted. A report the config server refuses
     * (`coordinatorFailure`) is retried when `withAutomaticRetry` retries
     * its status and the abort token is not canceled, and fails the step
     * otherwise.
     */
    method NotifyCoordinatorAndAwaitDecision(abortCanceled: bool, coordinatorFailure: Option<Status>) returns (r: StepResult)
      requires Valid() && donorCtx.state in {BlockingWrites, Error, Done}
      requires coordinatorFailure.Some? ==> !coordinatorFailure.value.IsOK()
      modifies this`effects
      ensures Valid() && old(effects) <= effects
      ensures old(donorCtx.state) == Done ==> effects == old(effects) && r == Proceeded
      ensures old(donorCtx.state) != Done && coordinatorFailure.Some? ==>
        effects == old(effects) &&
        r == if abortCanceled || StopRetrying(coordinatorFailure.value) then Failed(coordinatorFailure.value)
             else Retried(coordinatorFailure.value)
      ensures old(donorCtx.state) != Done && coordinatorFailure.None? ==>
        effects == old(effects) + [CoordinatorReport(donorCtx)] &&
        r == WithCancellation(coordinatorHasDecisionPersisted, abortCanceled)
    {
      if donorCtx.state == Done {
        return Proceeded;
      }
      r := UpdateCoordinatorDocument(coordinatorFailure);
      if r.Failed? {
        if !abortCanceled && !StopRetrying(r.status) {
          r := Retried(r.status);
        }
        return;
      }
      r := WithCancellation(coordinatorHasDecisionPersisted, abortCanceled);
    }

    /**
     * `_removeDonorDocument`: nothing when the donor collection does not
     * exist; otherwise the donor document is deleted, and on commit the
     * completion promise is failed with the abort reason if there is one
     * and fulfilled otherwise.
     */
    method RemoveDonorDocumentAndComplete(collectionExists: bool)
      requires Valid()
      modifies this`effects, this`completionPromise
      ensures Valid()
      ensures !collectionExists ==> effects == old(effects) && completionPromise == old(completionPromise)
      ensures collectionExists ==>
        effects == old(effects) + [RemoveDonorDocument] &&
        completionPromise == (if abortReason.Some? then EnsureFailed(old(completionPromise), abortReason.value)
                              else EnsureFulfilled(old(completionPromise)))
    {
      if !collectionExists {
        return;
      }
      effects := effects + [RemoveDonorDocument];
      if abortReason.Some? {
        completionPromise := EnsureFailed(completionPromise, abortReason.value);
      } else {
        completionPromise := EnsureFulfilled(completionPromise);
      }
    }

    /**
     * `_finishReshardingOperation`: without an abort the donor must be in
     * kBlockingWrites or kDone and drops the source collection on its way
     * to kDone; after an abort it enters kDone from any state. Either way
     * it then tells the coordinator and removes its document. The step is
     * retried until the coordinator update succeeds, so only the attempt
     * that succeeds is modelled.
     */
    method FinishReshardingOperation(aborted: bool, collectionExists: bool)
      requires Valid()
      requires !aborted ==> donorCtx.state == BlockingWrites || donorCtx.state == Done
      modifies this`donorCtx, this`effects, this`completionPromise
      ensures Valid() && donorCtx.state == Done && Ord(old(donorCtx.state)) <= Ord(Done)
      ensures donorCtx == (if old(donorCtx.state) == Done then old(donorCtx) else old(donorCtx).(state := Done))
      ensures effects ==
        old(effects) +
        (if old(donorCtx.state) == Done then []
         else if !aborted then [DropOriginalCollection, PersistDonorContext(donorCtx)]
         else [PersistDonorContext(donorCtx)]) +
        [CoordinatorReport(donorCtx)] +
        (if collectionExists then [RemoveDonorDocument] else [])
      ensures collectionExists ==>
        completionPromise == (if abortReason.Some? then EnsureFailed(old(completionPromise), abortReason.value)
                              else EnsureFulfilled(old(completionPromise)))
      ensures !collectionExists ==> completionPromise == old(completionPromise)
    {
      ghost var transition: seq<Effect> :=
        if donorCtx.state == Done then []
        else if !aborted then [DropOriginalCollection, PersistDonorContext(donorCtx.(state := Done))]
        else [PersistDonorContext(donorCtx.(state := Done))];
      if !aborted {
        DropOriginalCollectionThenTransitionToDone();
      } else if donorCtx.state != Done {
        TransitionState(Done);
      }
      assert effects == old(effects) + transition;
      var _ := UpdateCoordinatorDocument(None);
      assert effects == old(effects) + transition + [CoordinatorReport(donorCtx)];
      RemoveDonorDocumentAndComplete(collectionExists);
    }

    /**
     * `onReshardingFieldsChanges`: an abort reason wins and is handled
     * alone; otherwise the coordinator's state fulfils the promises of the
     * stages it has reached and takes or releases the critical section.
     */
    method OnReshardingFieldsChanges(abort: Option<Status>, coordinatorState: CoordinatorState)
      requires Valid()
      requires abort.Some? ==>
        (!abort.value.IsOK() && (abortSource.None? ==> coordinatorHasDecisionPersisted.Pending?))
      modifies this`allRecipientsDoneCloning, this`allRecipientsDoneApplying
      modifies this`coordinatorHasDecisionPersisted, this`critSec, this`abortReason, this`abortSource
      ensures Valid()
      ensures abort.None? ==>
        (Signals() == SignalsAfter(old(Signals()), coordinatorState) &&
         abortReason == old(abortReason) && abortSource == old(abortSource))
      ensures abort.Some? ==>
        (abortReason == abort && !critSec &&
         allRecipientsDoneCloning == old(allRecipientsDoneCloning) &&
         allRecipientsDoneApplying == old(allRecipientsDoneApplying))
      ensures abort.Some? && old(abortSource).Some? ==>
        abortSource == Some(true) && coordinatorHasDecisionPersisted == old(coordinatorHasDecisionPersisted)
      ensures abort.Some? && old(abortSource).None? ==>
        abortSource == None && coordinatorHasDecisionPersisted == Ready(abort.value)
    {
      if abort.Some? {
        OnAbortEncountered(abort.value);
        return;
      }
      var next := SignalsAfter(Signals(), coordinatorState);
      allRecipientsDoneCloning := next.allRecipientsDoneCloning;
      allRecipientsDoneApplying := next.allRecipientsDoneApplying;
      coordinatorHasDecisionPersisted := next.coordinatorHasDecisionPersisted;
      critSec := next.critSec;
    }

    /**
     * `_initAbortSource`: the abort source becomes a child of the stepdown
     * token, and is canceled at once if an abort already failed the
     * decision promise before `run()`.
     */
    method InitAbortSource(stepdownCanceled: bool) returns (abortCanceled: bool)
      requires Valid()
      modifies this`abortSource
      ensures Valid() && abortSource == Some(abortCanceled)
      ensures abortCanceled <==>
        stepdownCanceled ||
        (coordinatorHasDecisionPersisted.Ready? && !coordinatorHasDecisionPersisted.outcome.IsOK())
    {
      abortSource := Some(stepdownCanceled);
      if coordinatorHasDecisionPersisted.Ready? && !coordinatorHasDecisionPersisted.outcome.IsOK() {
        abortSource := Some(true);
      }
      abortCanceled := abortSource.value;
    }

    /**
     * `_onAbortEncountered`: records the abort reason (an error), cancels
     * the abort source if `run()` has made one and otherwise fails the
     * decision promise with it, and releases the critical section.
     */
    method OnAbortEncountered(reason: Status)
      requires Valid() && !reason.IsOK()
      requires abortSource.None? ==> coordinatorHasDecisionPersisted.Pending?
      modifies this`abortReason, this`abortSource, this`coordinatorHasDecisionPersisted, this`critSec
      ensures Valid() && abortReason == Some(reason) && !critSec
      ensures old(abortSource).Some? ==>
        abortSource == Some(true) && coordinatorHasDecisionPersisted == old(coordinatorHasDecisionPersisted)
      ensures old(abortSource).None? ==>
        abortSource == None && coordinatorHasDecisionPersisted == Ready(reason)
    {
      abortReason := Some(reason);
      if abortSource.Some? {
        abortSource := Some(true);
      } else {
        coordinatorHasDecisionPersisted := Ready(reason);
      }
      critSec := false;
    }

    /** `interrupt`: fails the completion promise unless it is already ready. */
    method Interrupt(status: Status)
      requires Valid()
      modifies this`completionPromise
      ensures Valid() && completionPromise == EnsureFailed(old(completionPromise), status)
    {
      completionPromise := EnsureFailed(completionPromise, status);
    }
  }
}
