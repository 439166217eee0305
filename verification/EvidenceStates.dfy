/**
The durable processing state of one evidence artifact: the transition table, and the service
that applies an event to a reference in place under a from-state guard.
*/
module EvidenceStates {
  import opened Common

  datatype State = Requested | Queued | Extracting | Uploading | Finalized | RetryableFailure | TerminalFailure | Expired
  datatype Event = Queue | StartExtracting | ExtractionComplete | Finalize | Fail | GiveUp | Retry | Expire
  datatype Rule = Rule(from: State, on: Event, to: State)

  const TRANSITIONS: seq<Rule> := [
    Rule(Requested, Queue, Queued),
    Rule(Queued, StartExtracting, Extracting),
    Rule(Extracting, ExtractionComplete, Uploading),
    Rule(Uploading, Finalize, Finalized),
    Rule(Extracting, Fail, RetryableFailure),
    Rule(RetryableFailure, Retry, Queued),
    Rule(Extracting, GiveUp, TerminalFailure),
    Rule(Uploading, Fail, RetryableFailure),
    Rule(Uploading, GiveUp, TerminalFailure),
    Rule(Requested, Expire, Expired),
    Rule(Queued, Expire, Expired),
    Rule(Extracting, Expire, Expired),
    Rule(Uploading, Expire, Expired)
  ]

  const VERSION := "1"

  predicate IsTerminal(s: State) { s.Finalized? || s.TerminalFailure? || s.Expired? }

  // The one target the table declares for an event.
  function EventTarget(e: Event): State {
    match e
    case Queue => Queued
    case StartExtracting => Extracting
    case ExtractionComplete => Uploading
    case Finalize => Finalized
    case Fail => RetryableFailure
    case GiveUp => TerminalFailure
    case Retry => Queued
    case Expire => Expired
  }

  // Whether the table declares a transition from s on e.
  predicate Declared(s: State, e: Event) {
    match e
    case Queue => s.Requested?
    case StartExtracting => s.Queued?
    case ExtractionComplete => s.Extracting?
    case Finalize => s.Uploading?
    case Fail => s.Extracting? || s.Uploading?
    case GiveUp => s.Extracting? || s.Uploading?
    case Retry => s.RetryableFailure?
    case Expire => s.Requested? || s.Queued? || s.Extracting? || s.Uploading?
  }

  // The row of the table for a declared transition.
  function Entry(s: State, e: Event): nat
    requires Declared(s, e)
  {
    match e
    case Queue => 0
    case StartExtracting => 1
    case ExtractionComplete => 2
    case Finalize => 3
    case Fail => if s.Extracting? then 4 else 7
    case Retry => 5
    case GiveUp => if s.Extracting? then 6 else 8
    case Expire => if s.Requested? then 9 else if s.Queued? then 10 else if s.Extracting? then 11 else 12
  }

  /** The table is a function of state and event, and every event has one target wherever it is
      legal, which is what makes a duplicate delivery recognizable from the state alone. */
  lemma TableIsFunction(s: State, e: Event, t: State)
    ensures Rule(s, e, t) in TRANSITIONS <==> Declared(s, e) && t == EventTarget(e)
  {
    if Declared(s, e) && t == EventTarget(e) {
      assert TRANSITIONS[Entry(s, e)] == Rule(s, e, t);
    }
  }

  datatype Transition = Transition(from: State, to: State, applied: bool)
  datatype StateError = Mismatch | FinalizedMutation | InvalidTransition

  // What apply answers for a persisted state.
  function Decide(persisted: State, e: Event, expected: Option<State>): Result<Transition, StateError> {
    if expected.Some? && persisted != expected.value then Err(Mismatch)
    else if !IsTerminal(persisted) && EventTarget(e) == persisted then Ok(Transition(persisted, persisted, false))
    else if persisted.Finalized? then Err(FinalizedMutation)
    else if Declared(persisted, e) then Ok(Transition(persisted, EventTarget(e), true))
    else Err(InvalidTransition)
  }

  predicate Applies(s: State, e: Event, expected: Option<State>) {
    Decide(s, e, expected).Ok? && Decide(s, e, expected).value.applied
  }

  /** Exactly the three terminal states refuse every event; every other state has a way on. */
  lemma TerminalIsClosed(s: State)
    ensures IsTerminal(s) <==> forall e, x :: Decide(s, e, x).Err?
  {
    if !IsTerminal(s) {
      var e := match s { case Requested => Queue case Queued => StartExtracting case Extracting => ExtractionComplete
                         case Uploading => Finalize case _ => Retry };
      assert Decide(s, e, None).Ok?;
    }
  }

  /** Of two workers that observed the same state, the second to apply an event loses the
      from-state guard; without a guard its duplicate is a no-op, unless the state reached is
      terminal, where the refusal wins. */
  lemma DuplicateDelivery(s: State, e: Event, expected: Option<State>)
    requires Applies(s, e, expected)
    ensures var t := Decide(s, e, expected).value.to;
            && t != s
            && Decide(t, e, Some(s)) == Err(Mismatch)
            && (!IsTerminal(t) ==> Decide(t, e, None) == Ok(Transition(t, t, false)))
            && (IsTerminal(t) ==> Decide(t, e, None).Err?)
  {
    var t := EventTarget(e);
    if IsTerminal(t) { TerminalIsClosed(t); }
  }

  // The states a series of applied events leads through.
  function Follow(s: State, events: seq<Event>): Option<State>
    decreases |events|
  {
    if events == [] then Some(s)
    else if !Applies(s, events[0], None) then None
    else Follow(EventTarget(events[0]), events[1..])
  }

  function Retries(events: seq<Event>): nat {
    if events == [] then 0 else (if events[0] == Retry then 1 else 0) + Retries(events[1..])
  }

  function Rank(s: State): nat {
    match s
    case Requested => 0
    case Queued => 1
    case Extracting => 2
    case Uploading => 3
    case RetryableFailure => 4
    case _ => 5
  }

  /** Only a retry leads backwards: with k retries an artifact goes through at most 5 + 4k
      transitions, whatever the events. */
  lemma {:induction false} OnlyRetryGoesBack(s: State, events: seq<Event>)
    requires Follow(s, events).Some?
    ensures Rank(Follow(s, events).value) + 3 * Retries(events) >= Rank(s) + |events| - Retries(events)
    ensures |events| <= 5 + 4 * Retries(events)
    decreases |events|
  {
    if events != [] {
      OnlyRetryGoesBack(EventTarget(events[0]), events[1..]);
    }
  }

  // ---- the metadata of a reference, and the service ----

  type RefId = nat
  // A valid evidence request contract, with the reference identity inside it.
  datatype Document = Document(ref: RefId, content: nat)
  // What the package identity is hashed from.
  datatype PackageId = PackageId(ref: RefId, extraction: nat, partial: bool)

  datatype Artifact = Artifact(extraction: nat, partial: bool, mediaPath: Option<string>, checksum: Option<string>)
  datatype Checkpoint = Checkpoint(segment: nat, artifact: Artifact)
  datatype Recovery = Absent | Malformed | Recorded(checkpoint: Checkpoint)

  datatype Metadata = Metadata(
    state: Option<State>,          // processing_state; never recorded at first
    version: Option<string>,
    owner: Option<WorkerId>,
    leaseUntil: Option<int>,
    attempts: nat,
    retryAt: Option<int>,
    recovery: Recovery,
    request: Option<Document>,     // None: missing, or not a valid contract
    packageId: Option<PackageId>
  )

  function Current(m: Metadata): State { if m.state.None? then Requested else m.state.value }

  // The metadata after a persisted transition of the service.
  function Moved(m: Metadata, to: State): Metadata { m.(state := Some(to), version := Some(VERSION)) }

  // A completed artifact carries its storage reference and 64 lower-case hex digits.
  predicate IntegrityOk(a: Artifact) {
    && a.mediaPath.Some? && a.mediaPath.value != ""
    && a.checksum.Some? && |a.checksum.value| == 64
    && forall c :: c in a.checksum.value ==> '0' <= c <= '9' || 'a' <= c <= 'f'
  }

  class EvidenceRefModel {
    const refId: RefId
    var metadata: Metadata

    constructor (refId: RefId, metadata: Metadata)
      ensures this.refId == refId && this.metadata == metadata
    {
      this.refId := refId;
      this.metadata := metadata;
    }
  }

  class EvidenceStateService {
    constructor () {}

    // The durable checkpoint: the state and version, verbatim.
    method Restart(ref: EvidenceRefModel) returns (state: State, version: string)
      ensures state == Current(ref.metadata)
      ensures ref.metadata.version.Some? && ref.metadata.version.value != "" ==> version == ref.metadata.version.value
      ensures ref.metadata.version.None? || ref.metadata.version.value == "" ==> version == VERSION
    {
      state := Current(ref.metadata);
      version := if ref.metadata.version.Some? && ref.metadata.version.value != "" then ref.metadata.version.value else VERSION;
    }

    /** One guarded transition in place: the reference moves exactly when the event applies, and
        nothing but its state and version is touched. */
    method Apply(ref: EvidenceRefModel, e: Event, expected: Option<State>) returns (r: Result<Transition, StateError>)
      modifies ref
      ensures r == Decide(Current(old(ref.metadata)), e, expected)
      ensures ref.metadata == if r.Ok? && r.value.applied then Moved(old(ref.metadata), EventTarget(e)) else old(ref.metadata)
    {
      var persisted := Current(ref.metadata);
      if expected.Some? && persisted != expected.value {
        return Err(Mismatch);
      }
      if !IsTerminal(persisted) && EventTarget(e) == persisted {
        return Ok(Transition(persisted, persisted, false));
      }
      if persisted.Finalized? {
        return Err(FinalizedMutation);
      }
      if !Declared(persisted, e) {
        return Err(InvalidTransition);
      }
      ref.metadata := Moved(ref.metadata, EventTarget(e));
      r := Ok(Transition(persisted, EventTarget(e), true));
    }

    method ClaimForExtraction(ref: EvidenceRefModel) returns (r: Result<Transition, StateError>)
      modifies ref
      ensures r.Ok? <==> Current(old(ref.metadata)).Queued?
      ensures r.Err? ==> r == Err(Mismatch)
      ensures ref.metadata == if r.Ok? then Moved(old(ref.metadata), Extracting) else old(ref.metadata)
    {
      r := Apply(ref, StartExtracting, Some(Queued));
    }

    method FinalizeRef(ref: EvidenceRefModel) returns (r: Result<Transition, StateError>)
      modifies ref
      ensures r.Ok? <==> Current(old(ref.metadata)).Uploading?
      ensures r.Err? ==> r == Err(Mismatch)
      ensures ref.metadata == if r.Ok? then Moved(old(ref.metadata), Finalized) else old(ref.metadata)
    {
      r := Apply(ref, Finalize, Some(Uploading));
    }
  }
}
