/**
 * The vocabulary of the resharding donor: the donor and coordinator state
 * enumerations with their order, the coordinator-update table, the retry
 * predicate, and shared promises.
 *
 * The enumerations are declared in IDL that is not part of this model.
 * The donor order is fixed so that every comparison the donor makes holds
 * as the code expects: kError and kDone above kPreparingToDonate, and
 * kError below kBlockingWrites. Of the coordinator states only the four
 * the donor compares against are told apart; every state before
 * kApplying is `CoordinatorEarlier`.
 */
module ReshardingStates {
  import opened Base

  datatype DonorState =
    | Unused
    | PreparingToDonate
    | DonatingInitialData
    | DonatingOplogEntries
    | PreparingToBlockWrites
    | Error
    | BlockingWrites
    | Done

  function Ord(s: DonorState): nat
  {
    match s
    case Unused => 0
    case PreparingToDonate => 1
    case DonatingInitialData => 2
    case DonatingOplogEntries => 3
    case PreparingToBlockWrites => 4
    case Error => 5
    case BlockingWrites => 6
    case Done => 7
  }

  /** The order is total: distinct states have distinct ranks. */
  lemma {:induction false} OrdInjective(a: DonorState, b: DonorState)
    requires Ord(a) == Ord(b)
    ensures a == b
  {
    match a
    case Unused =>
    case PreparingToDonate =>
    case DonatingInitialData =>
    case DonatingOplogEntries =>
    case PreparingToBlockWrites =>
    case Error =>
    case BlockingWrites =>
    case Done =>
  }

  datatype CoordinatorState =
    | CoordinatorEarlier
    | CoordinatorApplying
    | CoordinatorBlockingWrites
    | CoordinatorDecisionPersisted
    | CoordinatorDone

  function CoordinatorOrd(c: CoordinatorState): nat
  {
    match c
    case CoordinatorEarlier => 0
    case CoordinatorApplying => 1
    case CoordinatorBlockingWrites => 2
    case CoordinatorDecisionPersisted => 3
    case CoordinatorDone => 4
  }

  /**
   * `inPotentialAbortScenario`: the states a donor can be in when the
   * operation will abort, both of them past kPreparingToDonate.
   */
  function InPotentialAbortScenario(s: DonorState): (b: bool)
    ensures b <==> s == Error || s == Done
    ensures b ==> Ord(s) > Ord(PreparingToDonate)
  {
    s == Error || s == Done
  }

  /**
   * The static table of `_makeQueryForCoordinatorUpdate`: for each donor
   * state the coordinator is told about, the states the coordinator's
   * document may still hold for the update to apply. Any other state has
   * no entry.
   */
  function ValidPreviousStates(newState: DonorState): (r: Option<seq<DonorState>>)
    ensures r.Some? <==>
      newState == DonatingInitialData || newState == Error || newState == BlockingWrites || newState == Done
    ensures r.Some? ==> forall p :: p in r.value ==> Ord(p) < Ord(newState)
    ensures r.Some? ==> Unused in r.value || DonatingInitialData in r.value
  {
    match newState
    case DonatingInitialData => Some([Unused])
    case Error => Some([Unused, DonatingInitialData])
    case BlockingWrites => Some([DonatingInitialData])
    case Done => Some([Unused, DonatingInitialData, Error, BlockingWrites])
    case _ => None
  }

  /**
   * An update delayed in the network cannot apply once the coordinator
   * holds a later report from the same donor: the later state is never
   * among the earlier update's valid previous states.
   */
  lemma {:induction false} DelayedUpdateCannotApply(earlier: DonorState, later: DonorState)
    requires ValidPreviousStates(earlier).Some? && Ord(earlier) <= Ord(later)
    ensures later !in ValidPreviousStates(earlier).value
  {
  }

  /**
   * The donor's reports in an operation that commits (kDonatingInitialData,
   * kBlockingWrites, kDone) and in one that aborts (kError or nothing, then
   * kDone) each find the previous report among their valid previous states.
   */
  lemma ReportSequencesAccepted()
    ensures Unused in ValidPreviousStates(DonatingInitialData).value
    ensures DonatingInitialData in ValidPreviousStates(BlockingWrites).value
    ensures BlockingWrites in ValidPreviousStates(Done).value
    ensures Unused in ValidPreviousStates(Error).value && DonatingInitialData in ValidPreviousStates(Error).value
    ensures Error in ValidPreviousStates(Done).value
    ensures Unused in ValidPreviousStates(Done).value && DonatingInitialData in ValidPreviousStates(Done).value
  {
  }

  /**
   * `DonorState_serializer`: the names the coordinator document stores.
   * They are declared in IDL that is not part of this model.
   */
  function DonorStateName(s: DonorState): string
  {
    match s
    case Unused => "unused"
    case PreparingToDonate => "preparing-to-donate"
    case DonatingInitialData => "donating-initial-data"
    case DonatingOplogEntries => "donating-oplog-entries"
    case PreparingToBlockWrites => "preparing-to-block-writes"
    case Error => "error"
    case BlockingWrites => "blocking-writes"
    case Done => "done"
  }

  /** Distinct states have distinct names, so a query's `$in` list names exactly its states. */
  lemma {:induction false} DonorStateNameInjective(a: DonorState, b: DonorState)
    requires DonorStateName(a) == DonorStateName(b)
    ensures a == b
  {
  }

  /**
   * The `until` predicate of `withAutomaticRetry`: retry on a retriable,
   * cursor-invalidated, cancellation or not-primary error and on
   * Interrupted; stop on any other status, OK included.
   */
  function StopRetrying(status: Status): (stop: bool)
    ensures !stop <==>
      status.IsA(RetriableError) || status.IsA(CursorInvalidatedError) || status.code == Interrupted ||
      status.IsA(CancellationError) || status.IsA(NotPrimaryError)
    ensures status.IsOK() ==> stop
  {
    !(status.IsA(RetriableError) || status.IsA(CursorInvalidatedError) || status.code == Interrupted ||
      status.IsA(CancellationError) || status.IsA(NotPrimaryError))
  }

  /**
   * `withAutomaticRetry` over the statuses successive attempts end with:
   * the attempt whose status stops the loop, or none if every attempt is
   * retried.
   */
  function RetryUntilStop(attempts: seq<Status>): (r: Option<nat>)
    ensures r.Some? ==> r.value < |attempts| && StopRetrying(attempts[r.value])
    ensures r.Some? ==> forall k :: 0 <= k < r.value ==> !StopRetrying(attempts[k])
    ensures r.None? ==> forall k :: 0 <= k < |attempts| ==> !StopRetrying(attempts[k])
    decreases |attempts|
  {
    if attempts == [] then None
    else if StopRetrying(attempts[0]) then Some(0)
    else match RetryUntilStop(attempts[1..])
      case None => None
      case Some(k) => Some(k + 1)
  }

  /** A `SharedPromise<void>`: pending, or ready with OK or an error. */
  datatype SharedPromise = Pending | Ready(outcome: Status)

  /** `ensureFulfilledPromise(lk, sp)`: fulfils a pending promise; a ready one keeps its outcome. */
  function EnsureFulfilled(p: SharedPromise): (r: SharedPromise)
    ensures r.Ready?
    ensures p.Ready? ==> r == p
    ensures p.Pending? ==> r.outcome.IsOK()
  {
    if p.Ready? then p else Ready(StatusOK)
  }

  /** `ensureFulfilledPromise(lk, sp, error)`: fails a pending promise; a ready one keeps its outcome. */
  function EnsureFailed(p: SharedPromise, error: Status): (r: SharedPromise)
    ensures r.Ready?
    ensures p.Ready? ==> r == p
    ensures p.Pending? ==> r.outcome == error
  {
    if p.Ready? then p else Ready(error)
  }

  /** The three promises that the coordinator's state fulfils, and the critical section. */
  datatype CoordinatorSignals = CoordinatorSignals(
    allRecipientsDoneCloning: SharedPromise,
    allRecipientsDoneApplying: SharedPromise,
    coordinatorHasDecisionPersisted: SharedPromise,
    critSec: bool)

  /**
   * `onReshardingFieldsChanges` without an abort reason: the coordinator
   * state fulfils every promise whose stage it has reached; kBlockingWrites
   * and later take the critical section, and kDone releases it again.
   */
  function SignalsAfter(sig: CoordinatorSignals, c: CoordinatorState): (r: CoordinatorSignals)
  {
    var cloning := if CoordinatorOrd(c) >= CoordinatorOrd(CoordinatorApplying)
      then EnsureFulfilled(sig.allRecipientsDoneCloning) else sig.allRecipientsDoneCloning;
    var blocking := CoordinatorOrd(c) >= CoordinatorOrd(CoordinatorBlockingWrites);
    var applying := if blocking then EnsureFulfilled(sig.allRecipientsDoneApplying) else sig.allRecipientsDoneApplying;
    var decision := if CoordinatorOrd(c) >= CoordinatorOrd(CoordinatorDecisionPersisted)
      then EnsureFulfilled(sig.coordinatorHasDecisionPersisted) else sig.coordinatorHasDecisionPersisted;
    var critSec := if CoordinatorOrd(c) >= CoordinatorOrd(CoordinatorDone) then false
      else if blocking then true else sig.critSec;
    CoordinatorSignals(cloning, applying, decision, critSec)
  }

  /** A sequence of coordinator states reported one after the other, in any order. */
  function SignalsAfterEach(sig: CoordinatorSignals, cs: seq<CoordinatorState>): CoordinatorSignals
    decreases |cs|
  {
    if cs == [] then sig else SignalsAfterEach(SignalsAfter(sig, cs[0]), cs[1..])
  }

  /** The highest rank among the reported states (0 when none). */
  function MaxOrd(cs: seq<CoordinatorState>): (m: nat)
    ensures forall c :: c in cs ==> CoordinatorOrd(c) <= m
    ensures cs != [] ==> exists c :: c in cs && CoordinatorOrd(c) == m
    decreases |cs|
  {
    if cs == [] then 0
    else
      var rest := MaxOrd(cs[1..]);
      assert forall c :: c in cs ==> c == cs[0] || c in cs[1..];
      if CoordinatorOrd(cs[0]) >= rest then CoordinatorOrd(cs[0]) else rest
  }

  /**
   * The promises are fulfilled monotonically: whatever order the reports
   * arrive in, a promise that was ready stays ready with the same outcome,
   * and a pending one is fulfilled with OK exactly when some report has
   * reached its stage.
   */
  lemma {:induction false} SignalsMonotonic(sig: CoordinatorSignals, cs: seq<CoordinatorState>)
    ensures var r := SignalsAfterEach(sig, cs);
      (sig.allRecipientsDoneCloning.Ready? ==> r.allRecipientsDoneCloning == sig.allRecipientsDoneCloning) &&
      (sig.allRecipientsDoneApplying.Ready? ==> r.allRecipientsDoneApplying == sig.allRecipientsDoneApplying) &&
      (sig.coordinatorHasDecisionPersisted.Ready? ==>
        r.coordinatorHasDecisionPersisted == sig.coordinatorHasDecisionPersisted)
    ensures var r := SignalsAfterEach(sig, cs);
      (sig.allRecipientsDoneCloning.Pending? ==>
        (r.allRecipientsDoneCloning.Ready? <==> MaxOrd(cs) >= CoordinatorOrd(CoordinatorApplying)) &&
        (r.allRecipientsDoneCloning.Ready? ==> r.allRecipientsDoneCloning.outcome.IsOK())) &&
      (sig.allRecipientsDoneApplying.Pending? ==>
        (r.allRecipientsDoneApplying.Ready? <==> MaxOrd(cs) >= CoordinatorOrd(CoordinatorBlockingWrites)) &&
        (r.allRecipientsDoneApplying.Ready? ==> r.allRecipientsDoneApplying.outcome.IsOK())) &&
      (sig.coordinatorHasDecisionPersisted.Pending? ==>
        (r.coordinatorHasDecisionPersisted.Ready? <==> MaxOrd(cs) >= CoordinatorOrd(CoordinatorDecisionPersisted)) &&
        (r.coordinatorHasDecisionPersisted.Ready? ==> r.coordinatorHasDecisionPersisted.outcome.IsOK()))
    decreases |cs|
  {
    if cs != [] {
      var next := SignalsAfter(sig, cs[0]);
      SignalsMonotonic(next, cs[1..]);
    }
  }
}
