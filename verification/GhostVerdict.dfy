/**
 The verdict of the ghost validator (`prepare_level`, `validate_prepared` and `ValidationReport` in
 crates/core/src/ghost_validation.rs).

 The report is the source's mutable object.  Times and coordinates are reals, so the finiteness
 tests of the source are vacuous here; the narrow phase is a function parameter; run uuids enter as
 "parses" or not.
 */
module GhostVerdict {
  import opened Wrappers
  import opened Sorting
  import opened SweptQuery
  import opened PathGeometry
  import opened Text
  import opened FiniteSets

  const MAX_BLOCKS: nat := 20_000
  const MAX_GHOST_FRAMES: nat := 120_000

  // ---------------------------------------------------------------- inputs

  /** `blockUid`, `shape` and `finish` are what the client claims it touched. */
  datatype Event = Event(blockUid: string, shape: string, finish: bool, rawTime: real, adjustedTime: real,
                         velocity: real, sample: Sample)

  datatype Evidence = Evidence(samplingVersion: nat, uuidParses: bool, canonicalHash: string, initialTime: real,
                               physicsInterval: real, samples: seq<Sample>, events: seq<Event>)

  datatype Frame = Frame(time: real, position: Vec, ragdoll: Option<bool>)

  datatype Ghost = Ghost(version: int, steamId: Option<string>, frames: seq<Frame>, evidence: Option<Evidence>)

  datatype Context = Context(steamId: string, canonicalHash: string, time: real, splits: seq<real>, speeds: seq<real>)

  datatype Prepared = Prepared(blockCount: Option<nat>, groups: seq<seq<string>>, graphReasons: seq<string>,
                               csvUnknown: bool, triggers: seq<Trigger>, spawns: seq<Vec>,
                               geometryComplete: bool, geometryReasons: seq<string>, geometryStop: bool)

  datatype Manifest = Manifest(version: int, calibrated: bool, trajectoryCalibrated: bool, sphereRadius: real,
                               ragdollSphereRadius: Option<real>, physicsInterval: real,
                               positionTolerance: real, spawnTolerance: real)

  datatype Submission = Submission(player: Ghost, context: Context, prepared: Option<Prepared>, manifest: Option<Manifest>)

  // ---------------------------------------------------------------- the report

  datatype Status = Pass | Uncertain | Fail

  /** `FromLevel` carries the reasons the level preparation and the query give by name. */
  datatype Reason =
    | WrongSteamId | NonmonotonicSamples | InvalidSplits | MissingCheckpointTelemetry | WrongLevelIdentity
    | InvalidRunUuid | InvalidRunEvidence | WrongFinishTime | EventSplitCountMismatch | EventSplitValuesMismatch
    | WrongStart | MissingFinishEvent | EventAfterFinish | EventGeometryMismatch | EventTrajectoryMismatch
    | MissingFinishContact | DuplicateGroupEvent | UnknownGroupEvent | MissingGroupEvent | MissingGroups
    | WrongSplitCount
    | UnsupportedSampling | UnsupportedRagdollSampling | MissingSnapshot | CsvIdentityUnknown | MissingManifest
    | UnsupportedManifest | Uncalibrated | InvalidProfile | LegacyCollider | IncompleteSamples | MissingSpawn
    | MissingFinishSample | TelemetryUnknown | TelemetryInconsistent | TelemetryIncomplete
    | FromLevel(name: string)

  /** Reported through `fail` whatever the evidence. */
  ghost predicate Hard(r: Reason)
  {
    r.WrongSteamId? || r.NonmonotonicSamples? || r.InvalidSplits? || r.MissingCheckpointTelemetry?
    || r.WrongLevelIdentity? || r.InvalidRunUuid? || r.InvalidRunEvidence? || r.WrongFinishTime?
    || r.EventSplitCountMismatch? || r.EventSplitValuesMismatch?
  }

  /** Reported through `miss`: an observed absence, which needs proof to count as a failure. */
  ghost predicate Absence(r: Reason)
  {
    r.WrongStart? || r.MissingFinishEvent? || r.EventAfterFinish? || r.EventGeometryMismatch?
    || r.MissingFinishContact? || r.DuplicateGroupEvent? || r.UnknownGroupEvent? || r.MissingGroupEvent?
    || r.MissingGroups? || r.WrongSplitCount?
  }

  class Report {
    /** Which reasons are failures for the run under validation, and which it gives cause for. */
    ghost const fatal: Reason -> bool
    ghost const cause: Reason -> bool
    var status: Status
    var reasons: seq<Reason>
    var matched: seq<seq<string>>
    var missing: seq<seq<string>>

    ghost predicate Valid()
      reads this
    {
      && (status == Pass <==> reasons == [])
      && (status == Fail <==> exists r :: r in reasons && fatal(r))
      && forall r | r in reasons :: cause(r)
    }

    constructor (ghost fatal: Reason -> bool, ghost cause: Reason -> bool)
      ensures Valid() && reasons == [] && this.fatal == fatal && this.cause == cause && matched == [] && missing == []
    {
      this.fatal, this.cause := fatal, cause;
      status, reasons, matched, missing := Pass, [], [], [];
    }

    method Failed(r: Reason)
      requires Valid() && fatal(r) && cause(r)
      modifies this`status, this`reasons
      ensures Valid() && status == Fail && reasons == old(reasons) + [r]
    {
      status := Fail;
      reasons := reasons + [r];
      assert r in reasons;
    }

    /** Never lifts a failure, and never repeats a reason. */
    method Uncertainty(r: Reason)
      requires Valid() && !fatal(r) && cause(r)
      modifies this`status, this`reasons
      ensures Valid() && status == if old(status) == Fail then Fail else Uncertain
      ensures reasons == if r in old(reasons) then old(reasons) else old(reasons) + [r]
    {
      if status != Fail {
        status := Uncertain;
      }
      if r !in reasons {
        reasons := reasons + [r];
      }
      assert forall q :: q in reasons <==> q in old(reasons) || q == r;
    }

    /** The `miss` closure. */
    method Missed(proven: bool, r: Reason)
      requires Valid() && fatal(r) == proven && cause(r)
      modifies this`status, this`reasons
      ensures Valid() && r in reasons && forall q :: q in reasons <==> q in old(reasons) || q == r
      ensures status == Fail <==> old(status) == Fail || proven
    {
      if proven {
        Failed(r);
      } else {
        Uncertainty(r);
      }
    }

    method UncertainAll(names: seq<string>)
      requires Valid() && (forall n :: !fatal(FromLevel(n))) && forall n | n in names :: cause(FromLevel(n))
      modifies this`status, this`reasons
      ensures Valid()
      ensures forall q :: q in reasons <==> q in old(reasons) || (q.FromLevel? && q.name in names)
      ensures reasons == [] <==> old(reasons) == [] && names == []
      ensures status == Fail <==> old(status) == Fail
    {
      for i := 0 to |names|
        invariant Valid()
        invariant forall q :: q in reasons <==> q in old(reasons) || (q.FromLevel? && q.name in names[..i])
        invariant reasons == [] <==> old(reasons) == [] && i == 0
        invariant status == Fail <==> old(status) == Fail
      {
        Uncertainty(FromLevel(names[i]));
        assert names[..i + 1] == names[..i] + [names[i]];
      }
      assert names[..|names|] == names;
    }
  }

  // ---------------------------------------------------------------- what the run shows

  ghost predicate OldFormat(version: int) { version in {1, 2, 3, 4, 5, 6, 7} }

  ghost predicate SupportedSampling(e: Evidence) { e.samplingVersion == 3 || e.samplingVersion == 4 }

  /** Number of leading frames not later than `time`. */
  function FramesUpTo(frames: seq<Frame>, time: real): (n: nat)
    ensures n <= |frames| && (forall i | 0 <= i < n :: frames[i].time <= time)
    ensures n < |frames| ==> frames[n].time > time
  {
    if frames == [] || frames[0].time > time then 0 else 1 + FramesUpTo(frames[1..], time)
  }

  /** Frame `i` is the one shown at `time`. */
  ghost predicate ShownAt(frames: seq<Frame>, time: real, i: int)
  {
    && 0 <= i < |frames| && (forall j | 0 <= j <= i :: frames[j].time <= time)
    && (i + 1 < |frames| ==> frames[i + 1].time > time)
  }

  ghost predicate Ragdolled(frames: seq<Frame>, time: real)
  {
    exists i :: ShownAt(frames, time, i) && frames[i].ragdoll == Some(true)
  }

  /** The server-owned radius for the visual physics state at `time`. */
  function TrustedRadius(frames: seq<Frame>, m: Manifest, time: real): (radius: real)
    ensures radius == if Ragdolled(frames, time) then m.ragdollSphereRadius.GetOr(m.sphereRadius) else m.sphereRadius
  {
    var index := FramesUpTo(frames, time);
    if index > 0 && frames[index - 1].ragdoll == Some(true) && m.ragdollSphereRadius.Some?
    then m.ragdollSphereRadius.value
    else m.sphereRadius
  }

  /** A run without evidence is replayed from its frames. */
  ghost function EvidenceOf(player: Ghost, m: Manifest): Evidence
  {
    if player.evidence.Some? then player.evidence.value
    else Evidence(0, false, "", if player.frames == [] then 0.0 else player.frames[0].time, m.physicsInterval,
                  seq(|player.frames|, i requires 0 <= i < |player.frames| =>
                    Sample(player.frames[i].time, player.frames[i].position, m.sphereRadius)), [])
  }

  ghost function LongestGap(e: Evidence, legacy: bool): real
  {
    if legacy then e.physicsInterval * 2.5 + 0.001 else e.physicsInterval * 1.5
  }

  ghost predicate Complete(player: Ghost, e: Evidence, m: Manifest, legacy: bool)
    requires e.samples != []
  {
    && e.samples[0].time == e.initialTime
    && Abs(e.physicsInterval - m.physicsInterval) < 0.00001
    && (forall i | 0 <= i < |e.samples| - 1 ::
          e.samples[i + 1].time >= e.samples[i].time
          && e.samples[i + 1].time - e.samples[i].time <= LongestGap(e, legacy))
    && (forall s | s in e.samples :: Abs(s.radius - TrustedRadius(player.frames, m, s.time)) <= m.positionTolerance)
  }

  ghost function Finishes(events: seq<Event>): seq<Event>
  {
    if events == [] then [] else (if events[0].finish then [events[0]] else []) + Finishes(events[1..])
  }

  ghost function Checkpoints(events: seq<Event>): seq<Event>
  {
    if events == [] then [] else (if events[0].finish then [] else [events[0]]) + Checkpoints(events[1..])
  }

  ghost predicate FinishSampled(e: Evidence)
    requires e.samples != []
  {
    && |Finishes(e.events)| == 1
    && Abs(e.samples[|e.samples| - 1].time - Finishes(e.events)[0].rawTime) <= e.physicsInterval * 1.5
  }

  ghost predicate Claims(event: Event, t: Trigger)
  {
    event.blockUid == t.uid && event.shape == t.shape && event.finish == t.finish
  }

  ghost predicate LastClaimed(triggers: seq<Trigger>, event: Event, t: Option<Trigger>)
  {
    match t
    case None => forall x | x in triggers :: !Claims(event, x)
    case Some(v) =>
      exists i :: 0 <= i < |triggers| && triggers[i] == v && Claims(event, v)
                  && forall j | i < j < |triggers| :: !Claims(event, triggers[j])
  }

  /** The trigger index keeps the last trigger with a given identity. */
  function TriggerOf(triggers: seq<Trigger>, event: Event): (t: Option<Trigger>)
    ensures LastClaimed(triggers, event, t)
  {
    if triggers == [] then None else
    var t := triggers[|triggers| - 1];
    if t.uid == event.blockUid && t.shape == event.shape && t.finish == event.finish then Some(t)
    else
      ClaimedEarlier(triggers, event, TriggerOf(triggers[..|triggers| - 1], event));
      TriggerOf(triggers[..|triggers| - 1], event)
  }

  lemma ClaimedEarlier(triggers: seq<Trigger>, event: Event, t: Option<Trigger>)
    requires triggers != [] && !Claims(event, triggers[|triggers| - 1])
    requires LastClaimed(triggers[..|triggers| - 1], event, t)
    ensures LastClaimed(triggers, event, t)
  {
    hide Claims;
    var n := |triggers| - 1;
    assert forall x | x in triggers :: x == triggers[n] || x in triggers[..n];
    if t.Some? {
      var i :| 0 <= i < n && triggers[..n][i] == t.value && Claims(event, t.value)
               && forall j | i < j < n :: !Claims(event, triggers[..n][j]);
      assert triggers[i] == t.value && forall j | i < j < n :: triggers[j] == triggers[..n][j];
    }
  }

  ghost predicate TouchesOwn(triggers: seq<Trigger>, event: Event, radius: real, narrow: Narrow)
  {
    exists t :: LastClaimed(triggers, event, Some(t))
                && Contact(t, event.sample.position, event.sample.position, radius, narrow) == Hit
  }

  lemma LastIsUnique(triggers: seq<Trigger>, event: Event, t: Option<Trigger>)
    requires LastClaimed(triggers, event, t)
    ensures forall u :: LastClaimed(triggers, event, Some(u)) <==> t == Some(u)
  {
    forall u | LastClaimed(triggers, event, Some(u)) ensures t == Some(u) {
      var j :| 0 <= j < |triggers| && triggers[j] == u && Claims(event, u)
               && forall k | j < k < |triggers| :: !Claims(event, triggers[k]);
      if t.Some? {
        var i :| 0 <= i < |triggers| && triggers[i] == t.value && Claims(event, t.value)
                 && forall k | i < k < |triggers| :: !Claims(event, triggers[k]);
        assert i == j;
      }
    }
  }

  /** The lookup in the trigger index, and the contact test. */
  lemma TouchesOwnMeans(triggers: seq<Trigger>, event: Event, radius: real, narrow: Narrow)
    ensures var t := TriggerOf(triggers, event);
      TouchesOwn(triggers, event, radius, narrow) <==>
      t.Some? && Contact(t.value, event.sample.position, event.sample.position, radius, narrow) == Hit
  {
    LastIsUnique(triggers, event, TriggerOf(triggers, event));
    hide LastClaimed, Contact;
  }

  ghost predicate EventsMatchGeometry(player: Ghost, e: Evidence, p: Prepared, m: Manifest, narrow: Narrow)
  {
    && player.evidence.Some? && !p.csvUnknown
    && forall ev | ev in e.events ::
      TouchesOwn(p.triggers, ev, TrustedRadius(player.frames, m, ev.sample.time) + m.positionTolerance, narrow)
  }

  /** Everything that has to hold before an absence counts as proof. */
  ghost predicate Proven(player: Ghost, e: Evidence, p: Prepared, m: Manifest, narrow: Narrow)
    requires e.samples != []
  {
    && Complete(player, e, m, player.evidence.None?)
    && FinishSampled(e)
    && p.geometryComplete
    && m.calibrated
    && player.evidence.Some?
    && SupportedSampling(e)
    && EventsMatchGeometry(player, e, p, m, narrow)
  }

  ghost function RadiusMargin(player: Ghost, m: Manifest): real
  {
    m.positionTolerance + if player.evidence.None? then 2.0 + |player.frames| as real * 0.00001 else 0.0
  }

  /** The finish the checks are made against: the event, or the end of a legacy run. */
  ghost function FinishOf(player: Ghost, e: Evidence, time: real): Event
    requires e.samples != [] && (player.evidence.Some? ==> Finishes(e.events) != [])
  {
    if player.evidence.Some? then Finishes(e.events)[0]
    else
      var last := e.samples[|e.samples| - 1];
      Event("", "", true, last.time, time, 0.0, last)
  }

  ghost predicate FinishHit(triggers: seq<Trigger>, finish: Event, radius: real, narrow: Narrow)
  {
    exists t | t in triggers && t.finish :: Contact(t, finish.sample.position, finish.sample.position, radius, narrow) == Hit
  }

  ghost function Segments(player: Ghost, e: Evidence, m: Manifest): (r: seq<Segment>)
  {
    seq(if e.samples == [] then 0 else |e.samples| - 1, i requires 0 <= i && i + 1 < |e.samples| => SegmentAt(player, e, m, i))
  }

  ghost function SegmentAt(player: Ghost, e: Evidence, m: Manifest, i: nat): Segment
    requires i + 1 < |e.samples|
  {
    Segment(e.samples[i], e.samples[i + 1],
            Max(TrustedRadius(player.frames, m, e.samples[i].time), TrustedRadius(player.frames, m, e.samples[i + 1].time))
            + RadiusMargin(player, m))
  }

  /** A legacy run proves an absence only when it is gapless, finished and never ragdolled. */
  ghost predicate LegacyProof(player: Ghost, e: Evidence, p: Prepared, m: Manifest, time: real, narrow: Narrow)
    requires e.samples != []
  {
    && player.evidence.None?
    && Complete(player, e, m, true)
    && e.samples[0].time <= 0.1
    && Abs(e.samples[|e.samples| - 1].time - time) <= 0.25
    && (forall s | s in e.samples :: FiniteSample(s))
    && (forall i | 0 <= i < |e.samples| - 1 ::
          0.0 < e.samples[i + 1].time - e.samples[i].time <= m.physicsInterval * 2.5 + 0.001)
    && p.geometryComplete
    && FinishHit(p.triggers, FinishOf(player, e, time),
                 TrustedRadius(player.frames, m, e.samples[|e.samples| - 1].time) + RadiusMargin(player, m), narrow)
    && !exists f :: f in player.frames && f.ragdoll == Some(true)
  }

  ghost predicate FiniteSample(s: Sample) { s.time >= 0.0 && s.radius > 0.0 }

  /** Which reasons fail this run; every other reason leaves it uncertain. */
  ghost predicate FatalFor(s: Submission, narrow: Narrow, r: Reason)
  {
    || Hard(r)
    || (s.prepared.Some? && s.manifest.Some?
        && var e := EvidenceOf(s.player, s.manifest.value);
        && e.samples != []
        && (|| (Proven(s.player, e, s.prepared.value, s.manifest.value, narrow)
                && (Absence(r)
                    || (r == EventTrajectoryMismatch && e.samplingVersion == 4 && s.manifest.value.trajectoryCalibrated)))
            || (r == MissingGroups
                && LegacyProof(s.player, e, s.prepared.value, s.manifest.value, s.context.time, narrow))))
  }

  ghost function OfKind(events: seq<Event>, finish: bool): seq<Event>
  {
    if finish then Finishes(events) else Checkpoints(events)
  }

  lemma OfKindStep(r: seq<Event>, events: seq<Event>, i: nat, finish: bool)
    requires i < |events|
    ensures r + OfKind(events[i..], finish)
         == (if events[i].finish == finish then r + [events[i]] else r) + OfKind(events[i + 1..], finish)
  {
    OfKindFirst(events[i..], finish);
    hide OfKind;
    assert events[i..][1..] == events[i + 1..];
    assert r + ([events[i]] + OfKind(events[i + 1..], finish)) == r + [events[i]] + OfKind(events[i + 1..], finish);
  }

  lemma OfKindFirst(events: seq<Event>, finish: bool)
    requires events != []
    ensures OfKind(events, finish)
         == if events[0].finish == finish then [events[0]] + OfKind(events[1..], finish) else OfKind(events[1..], finish)
  {
  }

  /** The events of one kind, in order. */
  method Filter(events: seq<Event>, finish: bool) returns (r: seq<Event>)
    ensures r == if finish then Finishes(events) else Checkpoints(events)
  {
    r := [];
    assert events[0..] == events && [] + OfKind(events, finish) == OfKind(events, finish);
    for i := 0 to |events|
      invariant OfKind(events, finish) == r + OfKind(events[i..], finish)
    {
      OfKindStep(r, events, i, finish);
      hide OfKind;
      if events[i].finish == finish {
        r := r + [events[i]];
      }
    }
    assert events[|events|..] == [] && OfKind([], finish) == [] && r + [] == r;
  }

  /** The claimed trigger, looked up and tested. */
  method OwnContact(triggers: seq<Trigger>, event: Event, radius: real, narrow: Narrow) returns (touched: bool)
    ensures touched <==> TouchesOwn(triggers, event, radius, narrow)
  {
    TouchesOwnMeans(triggers, event, radius, narrow);
    hide TouchesOwn, TriggerOf, LastClaimed, Contact;
    var t := TriggerOf(triggers, event);
    touched := t.Some? && Contact(t.value, event.sample.position, event.sample.position, radius, narrow) == Hit;
  }

  method MatchEvents(player: Ghost, e: Evidence, p: Prepared, m: Manifest, narrow: Narrow) returns (matches: bool)
    ensures matches <==> EventsMatchGeometry(player, e, p, m, narrow)
  {
    hide TouchesOwn, TrustedRadius, Ragdolled;
    if player.evidence.None? || p.csvUnknown {
      return false;
    }
    for i := 0 to |e.events|
      invariant forall ev | ev in e.events[..i] ::
        TouchesOwn(p.triggers, ev, TrustedRadius(player.frames, m, ev.sample.time) + m.positionTolerance, narrow)
    {
      var ev := e.events[i];
      assert ev in e.events && e.events[..i + 1] == e.events[..i] + [ev];
      var touched := OwnContact(p.triggers, ev, TrustedRadius(player.frames, m, ev.sample.time) + m.positionTolerance, narrow);
      if !touched {
        return false;
      }
    }
    assert e.events[..|e.events|] == e.events;
    return true;
  }

  method Prove(player: Ghost, e: Evidence, p: Prepared, m: Manifest, narrow: Narrow, complete: bool, finishes: seq<Event>)
      returns (proven: bool)
    requires e.samples != [] && (complete <==> Complete(player, e, m, player.evidence.None?))
    requires finishes == Finishes(e.events)
    ensures proven <==> Proven(player, e, p, m, narrow)
  {
    hide Complete, Finishes, EventsMatchGeometry;
    var geometryMatches := MatchEvents(player, e, p, m, narrow);
    var finishSampled := |finishes| == 1
      && Abs(e.samples[|e.samples| - 1].time - finishes[0].rawTime) <= e.physicsInterval * 1.5;
    proven := complete && finishSampled && p.geometryComplete && m.calibrated && player.evidence.Some?
      && (e.samplingVersion == 3 || e.samplingVersion == 4) && geometryMatches;
  }

  // ---------------------------------------------------------------- checks before the geometry

  /** Hard reasons fail, and only absences (or a trajectory mismatch) may fail besides. */
  ghost predicate Classified(fatal: Reason -> bool)
  {
    forall r :: (Hard(r) ==> fatal(r)) && (fatal(r) ==> Hard(r) || Absence(r) || r == EventTrajectoryMismatch)
  }

  ghost predicate SplitsSupported(version: int) { version >= 4 }

  ghost predicate SpeedsSupported(version: int) { version >= 5 }

  /** What is known of a version's splits and of its speeds. */
  function Capabilities(version: int): (r: (Option<bool>, Option<bool>))
    ensures (r.0 == Some(true) <==> SplitsSupported(version)) && (r.1 == Some(true) <==> SpeedsSupported(version))
    ensures r.0.None? <==> !SplitsSupported(version)
  {
    if 1 <= version <= 3 then (None, None)
    else if version == 4 then (Some(true), Some(false))
    else if version >= 5 then (Some(true), Some(true))
    else (None, None)
  }

  ghost predicate InvalidTelemetry(version: int, c: Context)
  {
    !(&& (forall v | v in c.splits :: v >= 0.0) && (forall v | v in c.speeds :: v >= 0.0)
      && (OldFormat(version) ==>
            && (forall v | v in c.splits :: v <= c.time + 0.25)
            && forall i | 0 <= i < |c.splits| - 1 :: c.splits[i] <= c.splits[i + 1]))
  }

  ghost predicate CountClean(values: nat, supported: bool, count: nat)
  {
    values == count || (values == 0 && !supported)
  }

  /**
   The checkpoint telemetry raises nothing.  For versions 1 to 7 it travels beside the ghost: splits
   were certainly recorded from version 4 on, speeds from version 5 on.
   */
  ghost predicate TelemetryClean(version: int, c: Context, groupCount: Option<nat>)
  {
    && !InvalidTelemetry(version, c)
    && if !OldFormat(version) then |c.splits| == |c.speeds|
       else
         && (version < 4 ==> c.splits != [])
         && (|c.splits| != |c.speeds| ==> version < 5 && (c.splits == [] || c.speeds == []))
         && (groupCount.Some? ==>
               && CountClean(|c.splits|, SplitsSupported(version), groupCount.value)
               && CountClean(|c.speeds|, SpeedsSupported(version), groupCount.value))
  }

  /** What a telemetry reason says about the run. */
  ghost predicate TelemetryCause(version: int, c: Context, groupCount: Option<nat>, r: Reason)
  {
    || (r == InvalidSplits && !OldFormat(version) && (InvalidTelemetry(version, c) || |c.splits| != |c.speeds|))
    || (r == MissingCheckpointTelemetry && OldFormat(version) && groupCount.Some?
        && (0 < |c.splits| < groupCount.value || 0 < |c.speeds| < groupCount.value))
    || ((r.TelemetryUnknown? || r.TelemetryInconsistent? || r.TelemetryIncomplete?)
        && OldFormat(version) && !TelemetryClean(version, c, groupCount))
  }

  /** The telemetry is refused: a present-day ghost's is unsound, or an old one's shows missed checkpoints. */
  ghost predicate TelemetryFails(version: int, c: Context, groupCount: Option<nat>)
  {
    if !OldFormat(version) then InvalidTelemetry(version, c) || |c.splits| != |c.speeds|
    else groupCount.Some? && (0 < |c.splits| < groupCount.value || 0 < |c.speeds| < groupCount.value)
  }

  method InvalidValues(version: int, c: Context, legacy: bool) returns (invalid: bool)
    requires legacy == OldFormat(version)
    ensures invalid <==> InvalidTelemetry(version, c)
  {
    invalid := (exists v | v in c.splits :: v < 0.0)
      || (legacy && ((exists v | v in c.splits :: v > c.time + 0.25)
                     || exists i | 0 <= i < |c.splits| - 1 :: c.splits[i + 1] < c.splits[i]))
      || exists v | v in c.speeds :: v < 0.0;
  }

  method CheckTelemetry(report: Report, version: int, c: Context, groupCount: Option<nat>)
    requires report.Valid() && Classified(report.fatal)
    requires forall r :: TelemetryCause(version, c, groupCount, r) ==> report.cause(r)
    modifies report`status, report`reasons
    ensures report.Valid()
    ensures report.reasons == [] <==> old(report.reasons) == [] && TelemetryClean(version, c, groupCount)
    ensures report.status == Fail <==> old(report.status) == Fail || TelemetryFails(version, c, groupCount)
  {
    hide Report.Valid, InvalidTelemetry;
    var legacy := 1 <= version <= 7;
    var capabilities := Capabilities(version);
    var splitsSupported, speedsSupported := capabilities.0, capabilities.1;
    if legacy && splitsSupported.None? && c.splits == [] {
      report.Uncertainty(TelemetryUnknown);
    }
    var invalid := InvalidValues(version, c, legacy);
    var mismatch := |c.splits| != |c.speeds|;
    if !legacy {
      if invalid || mismatch {
        report.Failed(InvalidSplits);
      }
      return;
    }
    if invalid || (mismatch && c.splits != [] && c.speeds != []) {
      report.Uncertainty(TelemetryInconsistent);
    }
    if mismatch && speedsSupported == Some(true) && (c.splits == [] || c.speeds == []) {
      report.Uncertainty(TelemetryIncomplete);
    }
    if groupCount.Some? {
      CheckCount(report, |c.splits|, splitsSupported == Some(true), groupCount.value);
      CheckCount(report, |c.speeds|, speedsSupported == Some(true), groupCount.value);
    }
  }

  method CheckCount(report: Report, values: nat, supported: bool, count: nat)
    requires report.Valid() && Classified(report.fatal)
    requires 0 < values < count ==> report.cause(MissingCheckpointTelemetry)
    requires !CountClean(values, supported, count) ==> report.cause(TelemetryIncomplete) && report.cause(TelemetryInconsistent)
    modifies report`status, report`reasons
    ensures report.Valid()
    ensures report.reasons == [] <==> old(report.reasons) == [] && CountClean(values, supported, count)
    ensures report.status == Fail <==> old(report.status) == Fail || 0 < values < count
  {
    if supported && values == 0 && count > 0 {
      report.Uncertainty(TelemetryIncomplete);
    } else if values > 0 && values < count {
      // A supplied but short list proves missed checkpoints; an empty one is unavailable evidence.
      report.Failed(MissingCheckpointTelemetry);
    } else if values > 0 && values > count {
      report.Uncertainty(TelemetryInconsistent);
    }
  }

  ghost predicate WrongPlayer(player: Ghost, c: Context)
  {
    && player.steamId.Some?
    && !(OldFormat(player.version)
         && ((forall c | c in player.steamId.value :: IsWhitespace(c)) || player.steamId.value == "0"))
    && player.steamId.value != c.steamId
  }

  ghost predicate FramesOrdered(frames: seq<Frame>)
  {
    forall i | 0 <= i < |frames| - 1 :: frames[i + 1].time >= frames[i].time
  }

  ghost predicate SoundEvent(ev: Event)
  {
    && FiniteSample(ev.sample) && ev.rawTime >= 0.0 && ev.adjustedTime >= 0.0 && ev.velocity >= 0.0
    && Abs(ev.sample.time - ev.rawTime) <= 0.001
    && Abs(ev.rawTime - ev.adjustedTime) <= 0.25001
  }

  ghost predicate SoundEvidence(e: Evidence)
  {
    && e.initialTime >= 0.0 && 0.0 < e.physicsInterval <= 0.1
    && (forall s | s in e.samples :: FiniteSample(s))
    && (forall ev | ev in e.events :: SoundEvent(ev))
    && forall i | 0 <= i < |e.events| - 1 :: e.events[i + 1].rawTime >= e.events[i].rawTime
  }

  /** Equal letter by letter, a letter of the Latin alphabet in either case. */
  ghost predicate SameHash(a: string, b: string)
  {
    |a| == |b| && forall i | 0 <= i < |a| :: a[i] == b[i] || SameLetter(a[i], b[i]) || SameLetter(b[i], a[i])
  }

  ghost predicate SameLetter(upper: char, lower: char)
  {
    'A' <= upper <= 'Z' && lower as int - 'a' as int == upper as int - 'A' as int
  }

  lemma SameLetterMeans(a: char, b: char)
    ensures AsciiLower(a) == AsciiLower(b) <==> a == b || SameLetter(a, b) || SameLetter(b, a)
  {
  }

  /** `eq_ignore_ascii_case`. */
  lemma SameHashMeans(a: string, b: string)
    ensures ToAsciiLower(a) == ToAsciiLower(b) <==> SameHash(a, b)
  {
    forall i | 0 <= i < |a| && i < |b|
      ensures ToAsciiLower(a)[i] == ToAsciiLower(b)[i] <==> a[i] == b[i] || SameLetter(a[i], b[i]) || SameLetter(b[i], a[i])
    {
      SameLetterMeans(a[i], b[i]);
    }
    hide SameLetter;
  }

  /** The identity and the evidence raise nothing. */
  ghost predicate Identified(s: Submission)
  {
    && !WrongPlayer(s.player, s.context)
    && FramesOrdered(s.player.frames)
    && TelemetryClean(s.player.version, s.context, None)
    && (s.player.evidence.Some? ==> EvidenceClean(s, s.player.evidence.value))
  }

  /** Refused for its player, its frames, its telemetry or its evidence. */
  ghost predicate RunFails(s: Submission)
  {
    || WrongPlayer(s.player, s.context)
    || !FramesOrdered(s.player.frames)
    || TelemetryFails(s.player.version, s.context, None)
    || (s.player.evidence.Some? && EvidenceFails(s, s.player.evidence.value))
  }

  ghost predicate EvidenceFails(s: Submission, e: Evidence)
  {
    !SameHash(e.canonicalHash, s.context.canonicalHash) || !e.uuidParses || !SoundEvidence(e)
  }

  ghost predicate RunCause(s: Submission, r: Reason)
  {
    || (r == WrongSteamId && WrongPlayer(s.player, s.context))
    || (r == NonmonotonicSamples && !FramesOrdered(s.player.frames))
    || TelemetryCause(s.player.version, s.context, None, r)
    || (s.player.evidence.Some? && EvidenceCause(s, s.player.evidence.value, r))
  }

  ghost predicate EvidenceCause(s: Submission, e: Evidence, r: Reason)
  {
    || (r == UnsupportedSampling && !SupportedSampling(e))
    || (r == UnsupportedRagdollSampling && !SupportedSampling(e) && exists f | f in s.player.frames :: f.ragdoll == Some(true))
    || (r == WrongLevelIdentity && !SameHash(e.canonicalHash, s.context.canonicalHash))
    || (r == InvalidRunUuid && !e.uuidParses)
    || (r == InvalidRunEvidence && !SoundEvidence(e))
  }

  lemma RunCauses(s: Submission, cause: Reason -> bool)
    requires forall r :: RunCause(s, r) ==> cause(r)
    ensures forall r :: TelemetryCause(s.player.version, s.context, None, r) ==> cause(r)
    ensures WrongPlayer(s.player, s.context) ==> cause(WrongSteamId)
    ensures !FramesOrdered(s.player.frames) ==> cause(NonmonotonicSamples)
    ensures s.player.evidence.Some? ==> forall r :: EvidenceCause(s, s.player.evidence.value, r) ==> cause(r)
  {
    hide WrongPlayer, FramesOrdered, TelemetryCause, EvidenceCause;
  }

  method CheckRun(report: Report, s: Submission) returns (stop: bool)
    requires report.Valid() && Classified(report.fatal)
    requires forall r :: RunCause(s, r) ==> report.cause(r)
    modifies report`status, report`reasons
    ensures report.Valid() && (stop ==> report.reasons != [])
    ensures report.reasons == [] <==> old(report.reasons) == [] && Identified(s)
    ensures report.status == Fail <==> old(report.status) == Fail || RunFails(s)
    ensures stop <==> s.player.evidence.Some? && !SoundEvidence(s.player.evidence.value)
  {
    hide Report.Valid, SoundEvidence, TelemetryClean, TelemetryFails, TelemetryCause, RunCause,
      EvidenceCause, EvidenceFails, Classified;
    RunCauses(s, report.cause);
    HardIsFatal(report.fatal);
    var version := s.player.version;
    var steamId := s.player.steamId;
    if steamId.Some? && !(1 <= version <= 7 && (Blank(steamId.value) || steamId.value == "0"))
       && steamId.value != s.context.steamId {
      report.Failed(WrongSteamId);
    }
    CheckTelemetry(report, s.player.version, s.context, None);
    var frames := s.player.frames;
    if exists i | 0 <= i < |frames| - 1 :: frames[i + 1].time < frames[i].time {
      report.Failed(NonmonotonicSamples);
    }
    if s.player.evidence.None? {
      return false;
    }
    stop := CheckEvidence(report, s, s.player.evidence.value);
  }

  lemma HardIsFatal(fatal: Reason -> bool)
    requires Classified(fatal)
    ensures fatal(WrongSteamId) && fatal(NonmonotonicSamples)
  {
  }

  ghost predicate EvidenceClean(s: Submission, e: Evidence)
  {
    && SupportedSampling(e) && e.uuidParses && SoundEvidence(e)
    && SameHash(e.canonicalHash, s.context.canonicalHash)
  }

  method Unsound(e: Evidence) returns (unsound: bool)
    ensures unsound <==> !SoundEvidence(e)
  {
    hide Abs;
    unsound := e.initialTime < 0.0 || e.physicsInterval <= 0.0 || e.physicsInterval > 0.1
      || (exists x | x in e.samples :: x.time < 0.0 || x.radius <= 0.0)
      || (exists ev | ev in e.events ::
            || ev.sample.time < 0.0 || ev.sample.radius <= 0.0 || ev.rawTime < 0.0 || ev.adjustedTime < 0.0 || ev.velocity < 0.0
            || Abs(ev.sample.time - ev.rawTime) > 0.001 || Abs(ev.rawTime - ev.adjustedTime) > 0.25001)
      || exists i | 0 <= i < |e.events| - 1 :: e.events[i + 1].rawTime < e.events[i].rawTime;
  }

  method CheckEvidence(report: Report, s: Submission, e: Evidence) returns (stop: bool)
    requires report.Valid() && Classified(report.fatal)
    requires forall r :: EvidenceCause(s, e, r) ==> report.cause(r)
    modifies report`status, report`reasons
    ensures report.Valid() && (stop ==> report.reasons != [])
    ensures report.reasons == [] <==> old(report.reasons) == [] && EvidenceClean(s, e)
    ensures report.status == Fail <==> old(report.status) == Fail || EvidenceFails(s, e)
    ensures stop <==> !SoundEvidence(e)
  {
    hide Report.Valid, SameHash, SoundEvidence;
    SameHashMeans(e.canonicalHash, s.context.canonicalHash);
    if e.samplingVersion !in {3, 4} {
      report.Uncertainty(UnsupportedSampling);
    }
    if (exists f | f in s.player.frames :: f.ragdoll == Some(true)) && e.samplingVersion !in {3, 4} {
      report.Uncertainty(UnsupportedRagdollSampling);
    }
    if ToAsciiLower(e.canonicalHash) != ToAsciiLower(s.context.canonicalHash) {
      report.Failed(WrongLevelIdentity);
    }
    if !e.uuidParses {
      report.Failed(InvalidRunUuid);
    }
    var unsound := Unsound(e);
    if unsound {
      report.Failed(InvalidRunEvidence);
      return true;
    }
    stop := false;
  }

  ghost predicate SoundProfile(m: Manifest)
  {
    && 0.0 < m.physicsInterval <= 0.1 && m.sphereRadius > 0.0
    && (m.ragdollSphereRadius.Some? ==> m.ragdollSphereRadius.value > 0.0)
    && m.positionTolerance >= 0.0 && m.spawnTolerance >= 0.0
  }

  /** A level snapshot with a readable checkpoint graph that the telemetry agrees with. */
  ghost predicate SnapshotClean(s: Submission)
  {
    && s.prepared.Some?
    && var p := s.prepared.value;
    && (p.blockCount.Some? ==> p.blockCount.value <= MAX_BLOCKS)
    && !p.csvUnknown && p.graphReasons == []
    && (OldFormat(s.player.version) ==> TelemetryClean(s.player.version, s.context, Some(|p.groups|)))
  }

  ghost predicate SnapshotFails(s: Submission)
  {
    && s.prepared.Some? && (s.prepared.value.blockCount.Some? ==> s.prepared.value.blockCount.value <= MAX_BLOCKS)
    && OldFormat(s.player.version) && s.prepared.value.graphReasons == []
    && TelemetryFails(s.player.version, s.context, Some(|s.prepared.value.groups|))
  }

  ghost predicate SnapshotCause(s: Submission, r: Reason)
  {
    match s.prepared
    case None => r == MissingSnapshot
    case Some(p) =>
      || (r == FromLevel("geometry_budget") && p.blockCount.Some? && p.blockCount.value > MAX_BLOCKS)
      || (r == CsvIdentityUnknown && p.csvUnknown)
      || (r.FromLevel? && r.name in p.graphReasons)
      || (p.graphReasons == [] && TelemetryCause(s.player.version, s.context, Some(|p.groups|), r))
  }

  method CheckSnapshot(report: Report, s: Submission) returns (stop: bool)
    requires report.Valid() && Classified(report.fatal)
    requires forall r :: SnapshotCause(s, r) ==> report.cause(r)
    modifies report`status, report`reasons
    ensures report.Valid() && (stop ==> report.reasons != [])
    ensures report.reasons == [] <==> old(report.reasons) == [] && SnapshotClean(s)
    ensures report.status == Fail <==> old(report.status) == Fail || SnapshotFails(s)
    ensures !stop <==> s.prepared.Some? && (s.prepared.value.blockCount.Some? ==> s.prepared.value.blockCount.value <= MAX_BLOCKS)
  {
    hide Report.Valid, TelemetryClean, TelemetryCause, TelemetryFails;
    if s.prepared.None? {
      report.Uncertainty(MissingSnapshot);
      return true;
    }
    var p := s.prepared.value;
    if p.blockCount.Some? && p.blockCount.value > MAX_BLOCKS {
      report.Uncertainty(FromLevel("geometry_budget"));
      return true;
    }
    if p.csvUnknown {
      report.Uncertainty(CsvIdentityUnknown);
    }
    report.UncertainAll(p.graphReasons);
    if 1 <= s.player.version <= 7 && p.graphReasons == [] {
      CheckTelemetry(report, s.player.version, s.context, Some(|p.groups|));
    }
    stop := false;
  }

  ghost predicate ManifestClean(s: Submission)
  {
    s.manifest.Some? && s.manifest.value.version == 1 && s.manifest.value.calibrated && SoundProfile(s.manifest.value)
  }

  ghost predicate ManifestCause(s: Submission, r: Reason)
  {
    match s.manifest
    case None => r == MissingManifest
    case Some(m) =>
      || (r == UnsupportedManifest && m.version != 1)
      || (r == Uncalibrated && !m.calibrated)
      || (r == InvalidProfile && !SoundProfile(m))
  }

  method CheckManifest(report: Report, s: Submission) returns (stop: bool)
    requires report.Valid() && Classified(report.fatal)
    requires forall r :: ManifestCause(s, r) ==> report.cause(r)
    modifies report`status, report`reasons
    ensures report.Valid() && (stop ==> report.reasons != [])
    ensures !stop <==> s.manifest.Some? && s.manifest.value.version == 1 && SoundProfile(s.manifest.value)
    ensures report.status == Fail <==> old(report.status) == Fail
    ensures report.reasons == [] <==> old(report.reasons) == [] && ManifestClean(s)
  {
    hide Report.Valid;
    if s.manifest.None? {
      report.Uncertainty(MissingManifest);
      return true;
    }
    var m := s.manifest.value;
    if m.version != 1 {
      report.Uncertainty(UnsupportedManifest);
      return true;
    }
    if !m.calibrated {
      report.Uncertainty(Uncalibrated);
    }
    if m.physicsInterval <= 0.0 || m.physicsInterval > 0.1 || m.sphereRadius <= 0.0
       || (m.ragdollSphereRadius.Some? && m.ragdollSphereRadius.value <= 0.0)
       || m.positionTolerance < 0.0 || m.spawnTolerance < 0.0 {
      report.Uncertainty(InvalidProfile);
      return true;
    }
    stop := false;
  }

  /** Evidence whose samples cover the run without gaps, on a level whose geometry raised nothing. */
  ghost predicate SamplesClean(player: Ghost, e: Evidence, p: Prepared, m: Manifest)
  {
    && player.evidence.Some?
    && 2 <= |e.samples| <= MAX_GHOST_FRAMES && |e.events| <= MAX_BLOCKS + 1
    && Complete(player, e, m, false)
    && p.geometryReasons == [] && !p.geometryStop
  }

  ghost predicate SamplesCause(player: Ghost, e: Evidence, p: Prepared, m: Manifest, r: Reason)
  {
    || (r == LegacyCollider && player.evidence.None?)
    || (r == IncompleteSamples
        && (|e.samples| < 2 || |e.samples| > MAX_GHOST_FRAMES || |e.events| > MAX_BLOCKS + 1
            || !Complete(player, e, m, player.evidence.None?)))
    || (r.FromLevel? && r.name in p.geometryReasons)
  }

  method Steady(samples: seq<Sample>, longest: real) returns (steady: bool)
    requires samples != []
    ensures steady <==> forall i | 0 <= i < |samples| - 1 ::
      samples[i + 1].time >= samples[i].time && samples[i + 1].time - samples[i].time <= longest
  {
    for i := 0 to |samples| - 1
      invariant forall k | 0 <= k < i ::
        samples[k + 1].time >= samples[k].time && samples[k + 1].time - samples[k].time <= longest
    {
      if !(samples[i + 1].time >= samples[i].time && samples[i + 1].time - samples[i].time <= longest) {
        return false;
      }
    }
    return true;
  }

  method Trusted(player: Ghost, e: Evidence, m: Manifest) returns (trusted: bool)
    ensures trusted <==> forall x | x in e.samples ::
      Abs(x.radius - TrustedRadius(player.frames, m, x.time)) <= m.positionTolerance
  {
    hide TrustedRadius, Abs, Ragdolled;
    trusted := forall x | x in e.samples ::
      Abs(x.radius - TrustedRadius(player.frames, m, x.time)) <= m.positionTolerance;
  }

  method Gapless(player: Ghost, e: Evidence, m: Manifest, legacy: bool) returns (complete: bool)
    requires e.samples != []
    ensures complete <==> Complete(player, e, m, legacy)
  {
    hide TrustedRadius, Abs, Ragdolled;
    if e.samples[0].time != e.initialTime || Abs(e.physicsInterval - m.physicsInterval) >= 0.00001 {
      return false;
    }
    var steady := Steady(e.samples, if legacy then e.physicsInterval * 2.5 + 0.001 else e.physicsInterval * 1.5);
    var trusted := Trusted(player, e, m);
    complete := steady && trusted;
  }

  method CheckSamples(report: Report, player: Ghost, e: Evidence, p: Prepared, m: Manifest)
      returns (stop: bool, complete: bool)
    requires report.Valid() && Classified(report.fatal)
    requires forall r :: SamplesCause(player, e, p, m, r) ==> report.cause(r)
    requires p.geometryStop ==> p.geometryReasons != []
    modifies report`status, report`reasons
    ensures report.Valid() && (stop ==> report.reasons != [])
    ensures !stop <==> 2 <= |e.samples| <= MAX_GHOST_FRAMES && |e.events| <= MAX_BLOCKS + 1 && !p.geometryStop
    ensures !stop ==> (complete <==> Complete(player, e, m, player.evidence.None?))
    ensures report.status == Fail <==> old(report.status) == Fail
    ensures report.reasons == [] <==> old(report.reasons) == [] && SamplesClean(player, e, p, m)
  {
    hide Report.Valid, Complete;
    complete := false;
    var legacy := player.evidence.None?;
    if legacy {
      report.Uncertainty(LegacyCollider);
    }
    if |e.samples| < 2 || |e.samples| > MAX_GHOST_FRAMES || |e.events| > MAX_BLOCKS + 1 {
      report.Uncertainty(IncompleteSamples);
      return true, false;
    }
    complete := Gapless(player, e, m, legacy);
    if !complete {
      report.Uncertainty(IncompleteSamples);
    }
    report.UncertainAll(p.geometryReasons);
    stop := p.geometryStop;
  }

  // ---------------------------------------------------------------- checks on the events

  /** Absences fail exactly when they are proven; missing groups have a rule of their own. */
  ghost predicate MissRule(fatal: Reason -> bool, proven: bool)
  {
    forall r | Absence(r) && r != MissingGroups :: fatal(r) == proven
  }

  ghost predicate NearSpawn(p: Prepared, e: Evidence, m: Manifest)
    requires e.samples != []
  {
    exists v | v in p.spawns :: Squared(v, e.samples[0].position) <= m.spawnTolerance * m.spawnTolerance
  }

  /** Whether the pair of samples from `i` on lies within one physics interval of the event. */
  ghost predicate PairNear(e: Evidence, ev: Event, i: int)
  {
    && 0 <= i < |e.samples| - 1
    && Near(e.samples[i], e.samples[i + 1], ev.rawTime, e.physicsInterval)
  }

  function PairDistance(e: Evidence, ev: Event, i: int): real
    requires 0 <= i < |e.samples| - 1
  {
    var w := Window(e.samples[i], e.samples[i + 1], ev.rawTime, e.physicsInterval);
    SegmentDistance(ev.sample.position, w.0, w.1)
  }

  /** The path passes a fraction `f` of pair `i` within one physics interval of the event. */
  ghost predicate PathAround(e: Evidence, ev: Event, i: int, f: real)
  {
    0 <= i < |e.samples| - 1 && Around(e.samples[i], e.samples[i + 1], ev.rawTime, e.physicsInterval, f)
  }

  ghost function PointDistance(e: Evidence, ev: Event, i: int, f: real): real
    requires 0 <= i < |e.samples| - 1
  {
    Squared(ev.sample.position, Between(e.samples[i].position, e.samples[i + 1].position, f))
  }

  /** Within one interval of the event the path passes a point within the tolerance of it. */
  ghost predicate OnPath(e: Evidence, ev: Event, m: Manifest)
  {
    var threshold := m.positionTolerance + 0.001;
    exists i, f :: PathAround(e, ev, i, f) && PointDistance(e, ev, i, f) <= threshold * threshold
  }

  /** The distance to a pair is the least to any point the pair passes around the event. */
  lemma PairDistanceIsLeast(e: Evidence, ev: Event, i: int)
    requires PairNear(e, ev, i) && e.physicsInterval >= 0.0
    ensures forall f | PathAround(e, ev, i, f) :: PairDistance(e, ev, i) <= PointDistance(e, ev, i, f)
    ensures exists f :: PathAround(e, ev, i, f) && PairDistance(e, ev, i) == PointDistance(e, ev, i, f)
  {
    WindowDistanceIsLeast(ev.sample.position, e.samples[i], e.samples[i + 1], ev.rawTime, e.physicsInterval);
    hide Around, Window, SegmentDistance, Squared, Between, Near;
    var f :| Around(e.samples[i], e.samples[i + 1], ev.rawTime, e.physicsInterval, f)
             && PairDistance(e, ev, i)
                == Squared(ev.sample.position, Between(e.samples[i].position, e.samples[i + 1].position, f));
    assert PathAround(e, ev, i, f) && PairDistance(e, ev, i) == PointDistance(e, ev, i, f);
  }

  /** Length of the prefix before `time`, or up to and including it. */
  function SamplesBefore(samples: seq<Sample>, time: real, strictly: bool): (n: nat)
    ensures n <= |samples|
    ensures n < |samples| ==> samples[n].time > time || (strictly && samples[n].time == time)
    ensures forall i | 0 <= i < n :: samples[i].time < time || (!strictly && samples[i].time == time)
  {
    if samples == [] || samples[0].time > time || (strictly && samples[0].time == time) then 0
    else 1 + SamplesBefore(samples[1..], time, strictly)
  }

  ghost predicate SamplesOrdered(samples: seq<Sample>)
  {
    forall i, j | 0 <= i <= j < |samples| :: samples[i].time <= samples[j].time
  }

  /** How many sample pairs the path test of an event visits. */
  ghost function PathPairs(e: Evidence, ev: Event): (n: nat)
    ensures n <= |e.samples|
  {
    var first := SamplesBefore(e.samples, ev.rawTime - e.physicsInterval, true);
    var last := SamplesBefore(e.samples, ev.rawTime + e.physicsInterval, false);
    var from := if first == 0 then 0 else first - 1;
    var to := if last + 1 <= |e.samples| then last + 1 else |e.samples|;
    if to > from then to - 1 - from else 0
  }

  /** Squared distance to the path near the event's time; `over` when the work budget ends first. */
  method PathDistance(e: Evidence, ev: Event, workBefore: nat) returns (best: Option<real>, work: nat, over: bool)
    requires e.physicsInterval >= 0.0
    ensures over ==> work > MAX_QUERY_WORK && workBefore + PathPairs(e, ev) > MAX_QUERY_WORK
    ensures !over ==> work == workBefore + PathPairs(e, ev) && (workBefore <= MAX_QUERY_WORK ==> work <= MAX_QUERY_WORK)
    ensures best.Some? ==> exists i, f :: PathAround(e, ev, i, f) && PointDistance(e, ev, i, f) == best.value
    ensures !over && SamplesOrdered(e.samples) ==>
      forall i, f | PathAround(e, ev, i, f) :: best.Some? && best.value <= PointDistance(e, ev, i, f)
  {
    hide SamplesBefore, PairDistance, PathAround, PointDistance, Around;
    var first := SamplesBefore(e.samples, ev.rawTime - e.physicsInterval, true);
    var last := SamplesBefore(e.samples, ev.rawTime + e.physicsInterval, false);
    var from := if first == 0 then 0 else first - 1;
    var to := if last + 1 <= |e.samples| then last + 1 else |e.samples|;
    best, work, over := None, workBefore, false;
    for i := from to (if to > from then to - 1 else from)
      invariant work == workBefore + i - from && (workBefore <= MAX_QUERY_WORK ==> work <= MAX_QUERY_WORK)
      invariant best.Some? ==> exists i :: PairNear(e, ev, i) && PairDistance(e, ev, i) == best.value
      invariant forall k | from <= k < i && PairNear(e, ev, k) :: best.Some? && best.value <= PairDistance(e, ev, k)
    {
      work := work + 1;
      if work > MAX_QUERY_WORK {
        PairsToPoints(e, ev, best);
        over := true;
        return;
      }
      if !(ev.rawTime < e.samples[i].time - e.physicsInterval || ev.rawTime > e.samples[i + 1].time + e.physicsInterval) {
        assert PairNear(e, ev, i);
        var d := PairDistance(e, ev, i);
        if best.None? || d < best.value {
          best := Some(d);
        }
      }
    }
    if SamplesOrdered(e.samples) {
      WindowCovers(e, ev, first, last);
    }
    PairsToPoints(e, ev, best);
  }

  /** The nearest pair has the nearest point. */
  lemma PairsToPoints(e: Evidence, ev: Event, best: Option<real>)
    requires e.physicsInterval >= 0.0
    requires best.Some? ==> exists i :: PairNear(e, ev, i) && PairDistance(e, ev, i) == best.value
    ensures best.Some? ==> exists i, f :: PathAround(e, ev, i, f) && PointDistance(e, ev, i, f) == best.value
    ensures SamplesOrdered(e.samples) && (forall i | PairNear(e, ev, i) :: best.Some? && best.value <= PairDistance(e, ev, i)) ==>
      forall i, f | PathAround(e, ev, i, f) :: best.Some? && best.value <= PointDistance(e, ev, i, f)
  {
    hide PairDistance, PointDistance, Near, Around, SamplesOrdered;
    if best.Some? {
      var i :| PairNear(e, ev, i) && PairDistance(e, ev, i) == best.value;
      PairDistanceIsLeast(e, ev, i);
      var f :| PathAround(e, ev, i, f) && PairDistance(e, ev, i) == PointDistance(e, ev, i, f);
      assert PathAround(e, ev, i, f) && PointDistance(e, ev, i, f) == best.value;
    }
    if SamplesOrdered(e.samples) && forall i | PairNear(e, ev, i) :: best.Some? && best.value <= PairDistance(e, ev, i) {
      forall i, f | PathAround(e, ev, i, f) ensures best.Some? && best.value <= PointDistance(e, ev, i, f) {
        AroundIsOnPair(e, ev, i, f);
        PairDistanceIsLeast(e, ev, i);
      }
    }
  }

  lemma AroundIsOnPair(e: Evidence, ev: Event, i: int, f: real)
    requires SamplesOrdered(e.samples) && PathAround(e, ev, i, f)
    ensures PairNear(e, ev, i)
  {
    AroundIsNear(e.samples[i], e.samples[i + 1], ev.rawTime, e.physicsInterval, f);
  }

  lemma WindowCovers(e: Evidence, ev: Event, first: nat, last: nat)
    requires SamplesOrdered(e.samples)
    requires first == SamplesBefore(e.samples, ev.rawTime - e.physicsInterval, true)
    requires last == SamplesBefore(e.samples, ev.rawTime + e.physicsInterval, false)
    ensures forall i | PairNear(e, ev, i) :: first - 1 <= i < last && i < |e.samples| - 1
  {
    hide SamplesBefore;
    forall i | PairNear(e, ev, i) ensures first - 1 <= i < last {
      assert e.samples[i + 1].time >= ev.rawTime - e.physicsInterval;
    }
  }

  /** What a passing run shows about each of its events. */
  ghost predicate GoodEvent(player: Ghost, e: Evidence, p: Prepared, m: Manifest, finish: Event, narrow: Narrow, ev: Event)
  {
    && ev.rawTime <= finish.rawTime
    && (!p.csvUnknown ==> TouchesOwn(p.triggers, ev, EventRadius(player, m, ev), narrow))
    && OnPath(e, ev, m)
  }

  /** Without identities in the level, any trigger of the right kind will do. */
  ghost predicate TouchesAny(triggers: seq<Trigger>, ev: Event, radius: real, narrow: Narrow)
  {
    exists i :: 0 <= i < |triggers| && TouchesKind(triggers[i], ev, radius, narrow)
  }

  ghost predicate TouchesKind(t: Trigger, ev: Event, radius: real, narrow: Narrow)
  {
    t.finish == ev.finish && t.shape == ev.shape && Contact(t, ev.sample.position, ev.sample.position, radius, narrow) == Hit
  }

  /** Tests made in order up to the first trigger of the right kind in contact. */
  ghost function KindTests(triggers: seq<Trigger>, ev: Event, radius: real, narrow: Narrow): (n: nat)
    ensures n <= |triggers|
  {
    if triggers == [] then 0
    else if TouchesKind(triggers[0], ev, radius, narrow) then 1
    else 1 + KindTests(triggers[1..], ev, radius, narrow)
  }

  ghost function CsvTests(triggers: seq<Trigger>, ev: Event, radius: real, narrow: Narrow): (n: nat)
    ensures n <= |triggers|
  {
    KindTests(triggers[..PartitionPoint(triggers, ev.sample.position.x + radius)], ev, radius, narrow)
  }

  method CsvTouch(triggers: seq<Trigger>, ev: Event, radius: real, narrow: Narrow, workBefore: nat)
      returns (found: bool, work: nat, over: bool)
    requires Sorted(triggers, LowXLeq)
    ensures over ==> work > MAX_QUERY_WORK && workBefore + CsvTests(triggers, ev, radius, narrow) > MAX_QUERY_WORK
    ensures !over ==> (found <==> TouchesAny(triggers, ev, radius, narrow))
    ensures !over ==> work == workBefore + CsvTests(triggers, ev, radius, narrow)
                      && (workBefore <= MAX_QUERY_WORK ==> work <= MAX_QUERY_WORK)
  {
    hide Contact, PartitionPoint, Sorted, LowXLeq;
    found, work, over := false, workBefore, false;
    var bound := PartitionPoint(triggers, ev.sample.position.x + radius);
    ghost var near := triggers[..bound];
    OutOfTouch(triggers, ev, radius, narrow);
    for i := 0 to bound
      invariant forall j | 0 <= j < i :: !TouchesKind(triggers[j], ev, radius, narrow)
      invariant work == workBefore + i && (workBefore <= MAX_QUERY_WORK ==> work <= MAX_QUERY_WORK)
      invariant CsvTests(triggers, ev, radius, narrow) == i + KindTests(near[i..], ev, radius, narrow)
    {
      var t := triggers[i];
      assert near[i..][0] == t && near[i..][1..] == near[i + 1..];
      work := work + 1;
      if work > MAX_QUERY_WORK {
        over := true;
        return;
      }
      if t.finish == ev.finish && t.shape == ev.shape
         && Contact(t, ev.sample.position, ev.sample.position, radius, narrow) == Hit {
        found := true;
        return;
      }
    }
  }

  lemma OutOfTouch(triggers: seq<Trigger>, ev: Event, radius: real, narrow: Narrow)
    requires Sorted(triggers, LowXLeq)
    ensures forall j | PartitionPoint(triggers, ev.sample.position.x + radius) <= j < |triggers| ::
              !TouchesKind(triggers[j], ev, radius, narrow)
  {
    var bound := PartitionPoint(triggers, ev.sample.position.x + radius);
    hide PartitionPoint;
    forall j | bound <= j < |triggers| ensures !TouchesKind(triggers[j], ev, radius, narrow) {
      assert LowXLeq(triggers[bound], triggers[j]) || bound == j;
    }
  }

  /** What an event reason says about the event. */
  ghost predicate EventCause(player: Ghost, e: Evidence, p: Prepared, m: Manifest, finish: Event, narrow: Narrow,
                             ev: Event, r: Reason)
  {
    var radius := EventRadius(player, m, ev);
    || (r == EventAfterFinish && ev.rawTime > finish.rawTime)
    || (r == EventGeometryMismatch
        && if p.csvUnknown then !TouchesAny(p.triggers, ev, radius, narrow) else !TouchesOwn(p.triggers, ev, radius, narrow))
    || (r == EventTrajectoryMismatch && (SamplesOrdered(e.samples) ==> !OnPath(e, ev, m)))
  }

  ghost function EventRadius(player: Ghost, m: Manifest, ev: Event): real
  {
    TrustedRadius(player.frames, m, ev.sample.time) + RadiusMargin(player, m)
  }

  /** What one event costs: the trigger tests of a level without identities, then the path pairs. */
  ghost function EventWork(player: Ghost, e: Evidence, p: Prepared, m: Manifest, narrow: Narrow, ev: Event): nat
  {
    (if p.csvUnknown then CsvTests(p.triggers, ev, EventRadius(player, m, ev), narrow) else 0) + PathPairs(e, ev)
  }

  ghost function EventsWork(player: Ghost, e: Evidence, p: Prepared, m: Manifest, narrow: Narrow, events: seq<Event>): nat
  {
    if events == [] then 0
    else EventsWork(player, e, p, m, narrow, events[..|events| - 1]) + EventWork(player, e, p, m, narrow, events[|events| - 1])
  }

  /** Why an event fails a proven run; its path is tested only while the budget lasts. */
  ghost predicate EventFails(player: Ghost, e: Evidence, p: Prepared, m: Manifest, finish: Event, narrow: Narrow,
                             ev: Event, workBefore: nat)
  {
    || ev.rawTime > finish.rawTime
    || !TouchesOwn(p.triggers, ev, EventRadius(player, m, ev), narrow)
    || (workBefore + PathPairs(e, ev) <= MAX_QUERY_WORK
        && e.samplingVersion == 4 && m.trajectoryCalibrated && !OnPath(e, ev, m))
  }

  lemma EventRules(fatal: Reason -> bool, proven: bool)
    requires Classified(fatal) && MissRule(fatal, proven)
    ensures fatal(EventAfterFinish) == fatal(EventGeometryMismatch) == proven && !fatal(FromLevel("geometry_budget"))
  {
  }

  lemma GoodEventParts(player: Ghost, e: Evidence, p: Prepared, m: Manifest, finish: Event, narrow: Narrow, ev: Event)
    ensures GoodEvent(player, e, p, m, finish, narrow, ev) <==>
      && ev.rawTime <= finish.rawTime && OnPath(e, ev, m)
      && (p.csvUnknown || TouchesOwn(p.triggers, ev, EventRadius(player, m, ev), narrow))
  {
    hide OnPath, TouchesOwn, EventRadius;
  }

  lemma EventCauses(player: Ghost, e: Evidence, p: Prepared, m: Manifest, finish: Event, narrow: Narrow, ev: Event,
                    cause: Reason -> bool)
    requires forall r :: EventCause(player, e, p, m, finish, narrow, ev, r) ==> cause(r)
    ensures var radius := EventRadius(player, m, ev);
      var touches := if p.csvUnknown then TouchesAny(p.triggers, ev, radius, narrow)
                     else TouchesOwn(p.triggers, ev, radius, narrow);
      && (ev.rawTime > finish.rawTime ==> cause(EventAfterFinish))
      && (!touches ==> cause(EventGeometryMismatch))
      && ((SamplesOrdered(e.samples) ==> !OnPath(e, ev, m)) ==> cause(EventTrajectoryMismatch))
  {
    hide EventRadius, TouchesAny, TouchesOwn, SamplesOrdered, OnPath;
  }

  /** The least distance decides whether the event is on the path. */
  lemma DistanceDecides(e: Evidence, ev: Event, m: Manifest, best: Option<real>)
    requires best.Some? ==> exists i, f :: PathAround(e, ev, i, f) && PointDistance(e, ev, i, f) == best.value
    requires SamplesOrdered(e.samples) ==>
      forall i, f | PathAround(e, ev, i, f) :: best.Some? && best.value <= PointDistance(e, ev, i, f)
    ensures var threshold := m.positionTolerance + 0.001;
      var far := best.None? || best.value > threshold * threshold;
      (!far ==> OnPath(e, ev, m)) && (SamplesOrdered(e.samples) && OnPath(e, ev, m) ==> !far)
  {
    hide PathAround, PointDistance, SamplesOrdered;
  }

  /** Contact with the event's own trigger, or with any of its kind when the level has no identities. */
  method EventContact(p: Prepared, ev: Event, radius: real, narrow: Narrow, workBefore: nat)
      returns (touched: bool, work: nat, over: bool)
    requires Sorted(p.triggers, LowXLeq) && workBefore <= MAX_QUERY_WORK
    ensures var tests := if p.csvUnknown then CsvTests(p.triggers, ev, radius, narrow) else 0;
      if over then p.csvUnknown && workBefore + tests > MAX_QUERY_WORK else work == workBefore + tests <= MAX_QUERY_WORK
    ensures !over ==> (touched <==> if p.csvUnknown then TouchesAny(p.triggers, ev, radius, narrow)
                                    else TouchesOwn(p.triggers, ev, radius, narrow))
  {
    hide Sorted, CsvTests, TouchesAny, TouchesOwn;
    if p.csvUnknown {
      touched, work, over := CsvTouch(p.triggers, ev, radius, narrow, workBefore);
      return;
    }
    touched := OwnContact(p.triggers, ev, radius, narrow);
    work, over := workBefore, false;
  }

  method RadiusOf(player: Ghost, m: Manifest, margin: real, ev: Event) returns (radius: real)
    requires margin == RadiusMargin(player, m)
    ensures radius == EventRadius(player, m, ev)
  {
    radius := TrustedRadius(player.frames, m, ev.sample.time) + margin;
  }

  method CheckEvent(report: Report, player: Ghost, e: Evidence, p: Prepared, m: Manifest, finish: Event, narrow: Narrow,
                    margin: real, ev: Event, proven: bool, workBefore: nat) returns (stop: bool, work: nat)
    requires margin == RadiusMargin(player, m)
    requires report.Valid() && Classified(report.fatal) && MissRule(report.fatal, proven)
    requires report.fatal(EventTrajectoryMismatch) == (proven && e.samplingVersion == 4 && m.trajectoryCalibrated)
    requires m.positionTolerance >= 0.0 && e.physicsInterval >= 0.0 && Sorted(p.triggers, LowXLeq)
    requires workBefore <= MAX_QUERY_WORK
    requires proven ==> !p.csvUnknown && SamplesOrdered(e.samples)
    requires forall r :: EventCause(player, e, p, m, finish, narrow, ev, r) ==> report.cause(r)
    requires workBefore + EventWork(player, e, p, m, narrow, ev) > MAX_QUERY_WORK ==> report.cause(FromLevel("geometry_budget"))
    modifies report`status, report`reasons
    ensures report.Valid() && (stop ==> report.reasons != [])
    ensures var total := workBefore + EventWork(player, e, p, m, narrow, ev);
      if stop then total > MAX_QUERY_WORK else work == total <= MAX_QUERY_WORK
    ensures report.status == Fail <==>
      old(report.status) == Fail || (proven && EventFails(player, e, p, m, finish, narrow, ev, workBefore))
    ensures report.reasons == [] ==> old(report.reasons) == [] && GoodEvent(player, e, p, m, finish, narrow, ev)
    ensures (!stop && !p.csvUnknown && SamplesOrdered(e.samples) && old(report.reasons) == []
             && GoodEvent(player, e, p, m, finish, narrow, ev)) ==> report.reasons == []
  {
    hide Report.Valid, TouchesOwn, TouchesAny, EventRadius, SamplesOrdered, PathPairs, CsvTests,
      OnPath, EventCause, Classified, MissRule, GoodEvent, Sorted, LowXLeq, RadiusMargin;
    EventRules(report.fatal, proven);
    GoodEventParts(player, e, p, m, finish, narrow, ev);
    EventCauses(player, e, p, m, finish, narrow, ev, report.cause);
    work := workBefore;
    var radius := RadiusOf(player, m, margin, ev);
    if ev.rawTime > finish.rawTime {
      report.Missed(proven, EventAfterFinish);
    }
    var touched, over;
    touched, work, over := EventContact(p, ev, radius, narrow, work);
    if over {
      report.Uncertainty(FromLevel("geometry_budget"));
      return true, work;
    }
    if !touched {
      report.Missed(proven, EventGeometryMismatch);
    }
    stop, work := CheckPath(report, e, ev, m, proven, work);
  }

  /** The event against the path near its time. */
  method CheckPath(report: Report, e: Evidence, ev: Event, m: Manifest, proven: bool, workBefore: nat)
      returns (stop: bool, work: nat)
    requires report.Valid() && !report.fatal(FromLevel("geometry_budget")) && workBefore <= MAX_QUERY_WORK
    requires report.fatal(EventTrajectoryMismatch) == (proven && e.samplingVersion == 4 && m.trajectoryCalibrated)
    requires m.positionTolerance >= 0.0 && e.physicsInterval >= 0.0 && (proven ==> SamplesOrdered(e.samples))
    requires (SamplesOrdered(e.samples) ==> !OnPath(e, ev, m)) ==> report.cause(EventTrajectoryMismatch)
    requires workBefore + PathPairs(e, ev) > MAX_QUERY_WORK ==> report.cause(FromLevel("geometry_budget"))
    modifies report`status, report`reasons
    ensures report.Valid() && (stop ==> report.reasons != [])
    ensures var total := workBefore + PathPairs(e, ev);
      if stop then total > MAX_QUERY_WORK else work == total <= MAX_QUERY_WORK
    ensures report.status == Fail <==>
      (old(report.status) == Fail
       || (proven && !stop && e.samplingVersion == 4 && m.trajectoryCalibrated && !OnPath(e, ev, m)))
    ensures report.reasons == [] ==> old(report.reasons) == [] && OnPath(e, ev, m)
    ensures !stop && SamplesOrdered(e.samples) && old(report.reasons) == [] && OnPath(e, ev, m) ==> report.reasons == []
  {
    hide Report.Valid, PathAround, PointDistance, SamplesOrdered, PathPairs, OnPath;
    var best, over;
    best, work, over := PathDistance(e, ev, workBefore);
    if over {
      report.Uncertainty(FromLevel("geometry_budget"));
      return true, work;
    }
    DistanceDecides(e, ev, m, best);
    var threshold := m.positionTolerance + 0.001;
    if best.None? || best.value > threshold * threshold {
      // Revision 3 mixes sampling phases, so only revision 4 can prove a mismatch.
      report.Missed(proven && e.samplingVersion == 4 && m.trajectoryCalibrated, EventTrajectoryMismatch);
    }
    stop := false;
  }

  /** Some event fails, among those tested before the budget ends. */
  ghost predicate EventsFail(player: Ghost, e: Evidence, p: Prepared, m: Manifest, finish: Event, narrow: Narrow,
                             events: seq<Event>, workBefore: nat)
  {
    exists i :: 0 <= i < |events| && EventFailsAt(player, e, p, m, finish, narrow, events, i, workBefore)
  }

  ghost predicate EventFailsAt(player: Ghost, e: Evidence, p: Prepared, m: Manifest, finish: Event, narrow: Narrow,
                               events: seq<Event>, i: nat, workBefore: nat)
    requires i < |events|
  {
    var before := workBefore + EventsWork(player, e, p, m, narrow, events[..i]);
    before <= MAX_QUERY_WORK && EventFails(player, e, p, m, finish, narrow, events[i], before)
  }

  method CheckEvents(report: Report, player: Ghost, e: Evidence, p: Prepared, m: Manifest, finish: Event, narrow: Narrow,
                     margin: real, proven: bool, workBefore: nat) returns (stop: bool, work: nat)
    requires margin == RadiusMargin(player, m)
    requires report.Valid() && Classified(report.fatal) && MissRule(report.fatal, proven)
    requires report.fatal(EventTrajectoryMismatch) == (proven && e.samplingVersion == 4 && m.trajectoryCalibrated)
    requires m.positionTolerance >= 0.0 && e.physicsInterval >= 0.0 && Sorted(p.triggers, LowXLeq)
    requires workBefore <= MAX_QUERY_WORK
    requires proven ==> !p.csvUnknown && SamplesOrdered(e.samples)
    requires forall ev, r :: ev in e.events && EventCause(player, e, p, m, finish, narrow, ev, r) ==> report.cause(r)
    requires workBefore + EventsWork(player, e, p, m, narrow, e.events) > MAX_QUERY_WORK ==>
      report.cause(FromLevel("geometry_budget"))
    modifies report`status, report`reasons
    ensures report.Valid() && (stop ==> report.reasons != [])
    ensures var total := workBefore + EventsWork(player, e, p, m, narrow, e.events);
      if stop then total > MAX_QUERY_WORK else work == total <= MAX_QUERY_WORK
    ensures report.status == Fail <==>
      old(report.status) == Fail || (proven && EventsFail(player, e, p, m, finish, narrow, e.events, workBefore))
    ensures report.reasons == [] ==>
      old(report.reasons) == [] && forall ev | ev in e.events :: GoodEvent(player, e, p, m, finish, narrow, ev)
    ensures (!stop && !p.csvUnknown && SamplesOrdered(e.samples) && old(report.reasons) == []
             && forall ev | ev in e.events :: GoodEvent(player, e, p, m, finish, narrow, ev)) ==> report.reasons == []
  {
    NoEventsTested(player, e, p, m, finish, narrow, workBefore);
    hide Report.Valid, GoodEvent, Classified, MissRule, SamplesOrdered, EventsWork, EventWork, EventFails, EventsFail, Sorted,
      EventCause, RadiusMargin;
    work, stop := workBefore, false;
    for i := 0 to |e.events|
      invariant report.Valid()
      invariant work == workBefore + EventsWork(player, e, p, m, narrow, e.events[..i]) <= MAX_QUERY_WORK
      invariant report.status == Fail <==>
        old(report.status) == Fail || (proven && EventsFail(player, e, p, m, finish, narrow, e.events[..i], workBefore))
      invariant report.reasons == [] ==>
        old(report.reasons) == [] && forall ev | ev in e.events[..i] :: GoodEvent(player, e, p, m, finish, narrow, ev)
      invariant (!p.csvUnknown && SamplesOrdered(e.samples) && old(report.reasons) == []
                 && forall ev | ev in e.events[..i] :: GoodEvent(player, e, p, m, finish, narrow, ev)) ==> report.reasons == []
    {
      assert e.events[..i + 1] == e.events[..i] + [e.events[i]];
      MoreEventsWork(player, e, p, m, narrow, e.events, i);
      OneEventMore(player, e, p, m, finish, narrow, e.events, i, workBefore);
      stop, work := CheckEvent(report, player, e, p, m, finish, narrow, margin, e.events[i], proven, work);
      if stop {
        NothingAfter(player, e, p, m, finish, narrow, e.events, i + 1, workBefore);
        return;
      }
    }
    assert e.events[..|e.events|] == e.events;
  }

  lemma NoEventsTested(player: Ghost, e: Evidence, p: Prepared, m: Manifest, finish: Event, narrow: Narrow, workBefore: nat)
    ensures EventsWork(player, e, p, m, narrow, e.events[..0]) == 0
    ensures !EventsFail(player, e, p, m, finish, narrow, e.events[..0], workBefore)
  {
  }

  lemma OneEventMore(player: Ghost, e: Evidence, p: Prepared, m: Manifest, finish: Event, narrow: Narrow, events: seq<Event>,
                     i: nat, workBefore: nat)
    requires i < |events|
    ensures EventsFail(player, e, p, m, finish, narrow, events[..i + 1], workBefore) <==>
      || EventsFail(player, e, p, m, finish, narrow, events[..i], workBefore)
      || (workBefore + EventsWork(player, e, p, m, narrow, events[..i]) <= MAX_QUERY_WORK
          && EventFails(player, e, p, m, finish, narrow, events[i],
                        workBefore + EventsWork(player, e, p, m, narrow, events[..i])))
  {
    hide EventsWork, EventFails;
    var more, now := events[..i + 1], events[..i];
    forall k | 0 <= k < i
      ensures EventFailsAt(player, e, p, m, finish, narrow, more, k, workBefore)
              == EventFailsAt(player, e, p, m, finish, narrow, now, k, workBefore)
    {
      assert more[..k] == now[..k];
    }
    assert more[..i] == now;
    if EventsFail(player, e, p, m, finish, narrow, now, workBefore) {
      var k :| 0 <= k < i && EventFailsAt(player, e, p, m, finish, narrow, now, k, workBefore);
      assert EventFailsAt(player, e, p, m, finish, narrow, more, k, workBefore);
    }
    if EventFailsAt(player, e, p, m, finish, narrow, more, i, workBefore) {
      assert EventsFail(player, e, p, m, finish, narrow, more, workBefore);
    }
  }

  /** Once the budget is spent, later events do not matter. */
  lemma NothingAfter(player: Ghost, e: Evidence, p: Prepared, m: Manifest, finish: Event, narrow: Narrow, events: seq<Event>,
                     i: nat, workBefore: nat)
    requires i <= |events| && workBefore + EventsWork(player, e, p, m, narrow, events[..i]) > MAX_QUERY_WORK
    ensures EventsFail(player, e, p, m, finish, narrow, events, workBefore) <==>
            EventsFail(player, e, p, m, finish, narrow, events[..i], workBefore)
  {
    hide EventsWork, EventFails;
    var now := events[..i];
    forall k | 0 <= k < |events|
      ensures EventFailsAt(player, e, p, m, finish, narrow, events, k, workBefore)
              <==> k < i && EventFailsAt(player, e, p, m, finish, narrow, now, k, workBefore)
    {
      if k < i {
        assert now[..k] == events[..k];
      } else {
        EventsWorkGrows(player, e, p, m, narrow, events[..k], i);
        assert events[..k][..i] == now;
      }
    }
    if EventsFail(player, e, p, m, finish, narrow, now, workBefore) {
      var k :| 0 <= k < i && EventFailsAt(player, e, p, m, finish, narrow, now, k, workBefore);
      assert EventFailsAt(player, e, p, m, finish, narrow, events, k, workBefore);
    }
  }

  lemma MoreEventsWork(player: Ghost, e: Evidence, p: Prepared, m: Manifest, narrow: Narrow, events: seq<Event>, i: nat)
    requires i < |events|
    ensures EventsWork(player, e, p, m, narrow, events[..i + 1])
            == EventsWork(player, e, p, m, narrow, events[..i]) + EventWork(player, e, p, m, narrow, events[i])
    ensures EventsWork(player, e, p, m, narrow, events[..i + 1]) <= EventsWork(player, e, p, m, narrow, events)
  {
    hide EventWork;
    assert events[..i + 1][..i] == events[..i];
    EventsWorkGrows(player, e, p, m, narrow, events, i + 1);
  }

  lemma {:induction false} EventsWorkGrows(player: Ghost, e: Evidence, p: Prepared, m: Manifest, narrow: Narrow,
                                           events: seq<Event>, i: nat)
    requires i <= |events|
    ensures EventsWork(player, e, p, m, narrow, events[..i]) <= EventsWork(player, e, p, m, narrow, events)
  {
    hide EventWork;
    if i < |events| {
      var front := events[..|events| - 1];
      EventsWorkGrows(player, e, p, m, narrow, front, i);
      assert front[..i] == events[..i];
    } else {
      assert events[..i] == events;
    }
  }

  ghost function EventBound(e: Evidence, p: Prepared): nat { |e.samples| + if p.csvUnknown then |p.triggers| else 0 }

  lemma {:induction false} EventsWorkBound(player: Ghost, e: Evidence, p: Prepared, m: Manifest, narrow: Narrow,
                                           events: seq<Event>)
    ensures EventsWork(player, e, p, m, narrow, events) <= |events| * EventBound(e, p)
  {
    hide EventBound, EventWork;
    if events != [] {
      var n := |events| - 1;
      EventsWorkBound(player, e, p, m, narrow, events[..n]);
      EventWorkBound(player, e, p, m, narrow, events[n]);
      OneMoreTime(n, EventBound(e, p));
    }
  }

  lemma EventWorkBound(player: Ghost, e: Evidence, p: Prepared, m: Manifest, narrow: Narrow, ev: Event)
    ensures EventWork(player, e, p, m, narrow, ev) <= EventBound(e, p)
  {
    hide PathPairs, CsvTests, EventRadius;
  }

  lemma OneMoreTime(n: nat, k: nat)
    ensures n * k + k == (n + 1) * k
  {
  }

  // ---------------------------------------------------------------- finish, splits and groups

  ghost predicate StartAndFinishClean(player: Ghost, e: Evidence, p: Prepared, m: Manifest, time: real)
  {
    && e.samples != [] && NearSpawn(p, e, m)
    && |Finishes(e.events)| == 1
    && var finish := Finishes(e.events)[0];
    && Abs(finish.adjustedTime - time) <= 0.001
    && Abs(e.samples[|e.samples| - 1].time - finish.rawTime) <= e.physicsInterval * 1.5
  }

  /** Fails for a wrong claimed time, or for a proven wrong start or missing finish. */
  ghost predicate StartFails(player: Ghost, e: Evidence, p: Prepared, m: Manifest, time: real, proven: bool)
    requires e.samples != []
  {
    || (proven && p.spawns != [] && !NearSpawn(p, e, m))
    || (proven && player.evidence.Some? && |Finishes(e.events)| != 1)
    || ((player.evidence.Some? ==> |Finishes(e.events)| == 1) && Abs(FinishOf(player, e, time).adjustedTime - time) > 0.001)
  }

  ghost predicate StartCause(player: Ghost, e: Evidence, p: Prepared, m: Manifest, time: real, r: Reason)
    requires e.samples != []
  {
    || (r == MissingSpawn && p.spawns == [])
    || (r == WrongStart && p.spawns != [] && !NearSpawn(p, e, m))
    || (player.evidence.Some? && |Finishes(e.events)| != 1 && r == MissingFinishEvent)
    || ((player.evidence.Some? ==> |Finishes(e.events)| == 1)
        && var finish := FinishOf(player, e, time);
           || (r == WrongFinishTime && Abs(finish.adjustedTime - time) > 0.001)
           || (r == MissingFinishSample
               && Abs(e.samples[|e.samples| - 1].time - finish.rawTime) > e.physicsInterval * 1.5))
  }

  lemma StartRules(fatal: Reason -> bool, proven: bool)
    requires Classified(fatal) && MissRule(fatal, proven)
    ensures fatal(WrongStart) == fatal(MissingFinishEvent) == proven && fatal(WrongFinishTime)
    ensures !fatal(MissingSpawn) && !fatal(MissingFinishSample)
  {
  }

  lemma StartCauses(player: Ghost, e: Evidence, p: Prepared, m: Manifest, time: real, cause: Reason -> bool)
    requires e.samples != [] && forall r :: StartCause(player, e, p, m, time, r) ==> cause(r)
    ensures p.spawns == [] ==> cause(MissingSpawn)
    ensures p.spawns != [] && !NearSpawn(p, e, m) ==> cause(WrongStart)
    ensures player.evidence.Some? && |Finishes(e.events)| != 1 ==> cause(MissingFinishEvent)
    ensures (player.evidence.Some? ==> |Finishes(e.events)| == 1) ==>
      var finish := FinishOf(player, e, time);
      && (Abs(finish.adjustedTime - time) > 0.001 ==> cause(WrongFinishTime))
      && (Abs(e.samples[|e.samples| - 1].time - finish.rawTime) > e.physicsInterval * 1.5 ==> cause(MissingFinishSample))
  {
    hide NearSpawn, Finishes, Abs;
  }

  method CheckStartAndFinish(report: Report, player: Ghost, e: Evidence, p: Prepared, m: Manifest, time: real, proven: bool,
                             finishes: seq<Event>)
      returns (stop: bool, finish: Event)
    requires finishes == Finishes(e.events)
    requires report.Valid() && Classified(report.fatal) && MissRule(report.fatal, proven) && e.samples != []
    requires forall r :: StartCause(player, e, p, m, time, r) ==> report.cause(r)
    modifies report`status, report`reasons
    ensures report.Valid() && (stop ==> report.reasons != [])
    ensures !stop <==> (player.evidence.Some? ==> |Finishes(e.events)| == 1)
    ensures !stop ==> finish == FinishOf(player, e, time)
    ensures report.status == Fail <==> old(report.status) == Fail || StartFails(player, e, p, m, time, proven)
    ensures player.evidence.Some? ==>
      (report.reasons == [] <==> old(report.reasons) == [] && StartAndFinishClean(player, e, p, m, time))
    ensures old(report.reasons) != [] ==> report.reasons != []
  {
    hide Report.Valid, Squared, StartCause, Abs, Classified, MissRule, Finishes;
    StartRules(report.fatal, proven);
    StartCauses(player, e, p, m, time, report.cause);
    if p.spawns == [] {
      report.Uncertainty(MissingSpawn);
      NoSpawn(p, e, m);
    } else if !exists v | v in p.spawns :: Squared(v, e.samples[0].position) <= m.spawnTolerance * m.spawnTolerance {
      report.Missed(proven, WrongStart);
    }
    var last := e.samples[|e.samples| - 1];
    finish := Event("", "", true, last.time, time, 0.0, last);
    if player.evidence.Some? {
      if |finishes| != 1 {
        report.Missed(proven, MissingFinishEvent);
        return true, finish;
      }
      finish := finishes[0];
    }
    if Abs(finish.adjustedTime - time) > 0.001 {
      report.Failed(WrongFinishTime);
    }
    if Abs(last.time - finish.rawTime) > e.physicsInterval * 1.5 {
      report.Uncertainty(MissingFinishSample);
    }
    stop := false;
  }

  lemma NoSpawn(p: Prepared, e: Evidence, m: Manifest)
    requires e.samples != [] && p.spawns == []
    ensures !NearSpawn(p, e, m)
  {
  }

  /** Checkpoint events agree with the submitted splits and speeds, in number and in value. */
  ghost predicate SplitsClean(e: Evidence, c: Context)
  {
    var events := Checkpoints(e.events);
    && |events| == |c.splits|
    && forall i | 0 <= i < |events| && i < |c.splits| && i < |c.speeds| :: CloseSplit(events[i], c.splits[i], c.speeds[i])
  }

  ghost predicate CloseSplit(ev: Event, split: real, speed: real)
  {
    Abs(ev.adjustedTime - split) <= 0.001 && Abs(ev.velocity - speed) <= 0.001
  }

  ghost predicate SplitsCause(e: Evidence, c: Context, r: Reason)
  {
    var events := Checkpoints(e.events);
    || (r == EventSplitCountMismatch && |events| != |c.splits|)
    || (r == EventSplitValuesMismatch
        && exists i :: 0 <= i < |events| && i < |c.splits| && i < |c.speeds| && !CloseSplit(events[i], c.splits[i], c.speeds[i]))
  }

  method CheckSplits(report: Report, e: Evidence, c: Context)
    requires report.Valid() && Classified(report.fatal)
    requires forall r :: SplitsCause(e, c, r) ==> report.cause(r)
    modifies report`status, report`reasons
    ensures report.Valid()
    ensures report.reasons == [] <==> old(report.reasons) == [] && SplitsClean(e, c)
    ensures report.status == Fail <==> old(report.status) == Fail || !SplitsClean(e, c)
  {
    hide Report.Valid, Checkpoints;
    var events := Filter(e.events, false);
    if |events| != |c.splits| {
      report.Failed(EventSplitCountMismatch);
    }
    var i := 0;
    while i < |events| && i < |c.splits| && i < |c.speeds|
      invariant report.Valid() && i <= |events| && i <= |c.splits| && i <= |c.speeds|
      invariant report.reasons == [] <==>
                && old(report.reasons) == [] && |events| == |c.splits|
                && forall k | 0 <= k < i :: CloseSplit(events[k], c.splits[k], c.speeds[k])
      invariant report.status == Fail <==>
                old(report.status) == Fail || |events| != |c.splits|
                || !(forall k | 0 <= k < i :: CloseSplit(events[k], c.splits[k], c.speeds[k]))
    {
      if Abs(events[i].adjustedTime - c.splits[i]) > 0.001 || Abs(events[i].velocity - c.speeds[i]) > 0.001 {
        assert !CloseSplit(events[i], c.splits[i], c.speeds[i]);
        report.Failed(EventSplitValuesMismatch);
      }
      i := i + 1;
    }
  }

  /** The group of a block: the last one listing it. */
  function GroupOf(groups: seq<seq<string>>, uid: string): (g: Option<nat>)
    ensures g.Some? ==> g.value < |groups| && uid in groups[g.value]
                        && forall i | g.value < i < |groups| :: uid !in groups[i]
    ensures g.None? ==> forall i | 0 <= i < |groups| :: uid !in groups[i]
  {
    if groups == [] then None
    else if uid in groups[|groups| - 1] then Some(|groups| - 1)
    else GroupOf(groups[..|groups| - 1], uid)
  }

  ghost predicate KnownAndDistinct(groups: seq<seq<string>>, events: seq<Event>)
  {
    && (forall i | 0 <= i < |events| :: GroupOf(groups, events[i].blockUid).Some?)
    && forall i, j | 0 <= i < j < |events| :: GroupOf(groups, events[i].blockUid) != GroupOf(groups, events[j].blockUid)
  }

  /** Checkpoint events and checkpoint groups are in bijection: equally many, each event in its own group. */
  ghost predicate EventsMatchGroups(groups: seq<seq<string>>, events: seq<Event>)
  {
    KnownAndDistinct(groups, events) && |events| == |groups|
  }

  /** With equally many of both, every group has its event. */
  lemma EveryGroupHasAnEvent(groups: seq<seq<string>>, events: seq<Event>)
    requires EventsMatchGroups(groups, events)
    ensures forall g | 0 <= g < |groups| :: exists i :: 0 <= i < |events| && GroupOf(groups, events[i].blockUid) == Some(g)
  {
    hide GroupOf;
    var numbers := seq(|events|, i requires 0 <= i < |events| => GroupOf(groups, events[i].blockUid).value);
    Pigeonhole(numbers);
    forall g | 0 <= g < |groups| ensures exists i :: 0 <= i < |events| && GroupOf(groups, events[i].blockUid) == Some(g) {
      assert g in numbers;
      var i :| 0 <= i < |numbers| && numbers[i] == g;
      assert GroupOf(groups, events[i].blockUid) == Some(g);
    }
  }

  ghost predicate GroupsCause(groups: seq<seq<string>>, events: seq<Event>, r: Reason)
  {
    || (r == UnknownGroupEvent && exists i :: 0 <= i < |events| && GroupOf(groups, events[i].blockUid).None?)
    || (r == DuplicateGroupEvent
        && exists i, j :: 0 <= i < j < |events| && GroupOf(groups, events[i].blockUid).Some?
                          && GroupOf(groups, events[i].blockUid) == GroupOf(groups, events[j].blockUid))
    || (r == MissingGroupEvent
        && exists g: nat :: g < |groups| && forall i | 0 <= i < |events| :: GroupOf(groups, events[i].blockUid) != Some(g))
  }

  lemma DuplicateFound(groups: seq<seq<string>>, events: seq<Event>, i: nat, accepted: set<nat>)
    requires i < |events| && AcceptedFrom(groups, events[..i], accepted)
    ensures var group := GroupOf(groups, events[i].blockUid);
      && (group.None? ==> GroupsCause(groups, events, UnknownGroupEvent))
      && (group.Some? && group.value in accepted ==> GroupsCause(groups, events, DuplicateGroupEvent))
  {
    hide GroupOf;
    var group := GroupOf(groups, events[i].blockUid);
    if group.Some? && group.value in accepted {
      var k :| 0 <= k < |events[..i]| && GroupOf(groups, events[..i][k].blockUid) == Some(group.value);
      assert events[..i][k] == events[k];
    }
  }

  /** Fewer accepted groups than groups leave one without an event. */
  lemma GroupLeftOut(groups: seq<seq<string>>, events: seq<Event>, accepted: set<nat>)
    requires AcceptedFrom(groups, events, accepted) && |accepted| != |groups|
    ensures GroupsCause(groups, events, MissingGroupEvent)
  {
    hide GroupOf;
    var all := Range(|groups|);
    assert accepted <= all;
    assert accepted != all;
    var g :| g in all && g !in accepted;
    assert g < |groups| && forall i | 0 <= i < |events| :: GroupOf(groups, events[i].blockUid) != Some(g);
  }

  method CheckGroups(report: Report, groups: seq<seq<string>>, e: Evidence, proven: bool)
    requires report.Valid() && MissRule(report.fatal, proven)
    requires forall r :: GroupsCause(groups, Checkpoints(e.events), r) ==> report.cause(r)
    modifies report`status, report`reasons
    ensures report.Valid()
    ensures report.reasons == [] <==> old(report.reasons) == [] && EventsMatchGroups(groups, Checkpoints(e.events))
    ensures report.status == Fail <==>
      old(report.status) == Fail || (proven && !EventsMatchGroups(groups, Checkpoints(e.events)))
  {
    hide Report.Valid, GroupOf, KnownAndDistinct, AcceptedFrom, MissRule, GroupsCause;
    var events := Filter(e.events, false);
    NoEventsYet(groups, events);
    GroupReasons(report.fatal, proven);
    var accepted: set<nat> := {};
    for i := 0 to |events|
      invariant report.Valid()
      invariant AcceptedFrom(groups, events[..i], accepted)
      invariant KnownAndDistinct(groups, events[..i]) ==> |accepted| == i
      invariant report.status == Fail <==> old(report.status) == Fail || (proven && !KnownAndDistinct(groups, events[..i]))
      invariant report.reasons == [] <==> old(report.reasons) == [] && KnownAndDistinct(groups, events[..i])
    {
      OneMoreEvent(groups, events, i, accepted);
      DuplicateFound(groups, events, i, accepted);
      var group := GroupOf(groups, events[i].blockUid);
      if group.Some? {
        if group.value in accepted {
          report.Missed(proven, DuplicateGroupEvent);
        }
        accepted := accepted + {group.value};
      } else {
        report.Missed(proven, UnknownGroupEvent);
      }
    }
    assert events[..|events|] == events;
    if |accepted| != |groups| {
      GroupLeftOut(groups, events, accepted);
      report.Missed(proven, MissingGroupEvent);
    }
  }

  lemma GroupReasons(fatal: Reason -> bool, proven: bool)
    requires MissRule(fatal, proven)
    ensures fatal(DuplicateGroupEvent) == fatal(UnknownGroupEvent) == fatal(MissingGroupEvent) == proven
  {
  }

  ghost predicate AcceptedFrom(groups: seq<seq<string>>, events: seq<Event>, accepted: set<nat>)
  {
    forall g :: g in accepted <==> exists k :: 0 <= k < |events| && GroupOf(groups, events[k].blockUid) == Some(g)
  }

  lemma NoEventsYet(groups: seq<seq<string>>, events: seq<Event>)
    ensures KnownAndDistinct(groups, events[..0]) && AcceptedFrom(groups, events[..0], {})
  {
  }

  lemma OneMoreEvent(groups: seq<seq<string>>, events: seq<Event>, i: nat, accepted: set<nat>)
    requires i < |events| && AcceptedFrom(groups, events[..i], accepted)
    ensures var group := GroupOf(groups, events[i].blockUid);
      && (KnownAndDistinct(groups, events[..i + 1]) <==>
          KnownAndDistinct(groups, events[..i]) && group.Some? && group.value !in accepted)
      && AcceptedFrom(groups, events[..i + 1], if group.Some? then accepted + {group.value} else accepted)
  {
    hide GroupOf;
    assert events[..i + 1] == events[..i] + [events[i]];
  }

  // ---------------------------------------------------------------- the verdict

  ghost predicate GroupHit(hits: set<string>, group: seq<string>)
  {
    exists u | u in group :: u in hits
  }

  method SortGroups(report: Report, groups: seq<seq<string>>, hits: set<string>)
    requires report.Valid() && report.matched == [] && report.missing == []
    modifies report`matched, report`missing
    ensures report.Valid()
    ensures |report.matched| + |report.missing| == |groups|
    ensures forall g :: g in report.matched <==> g in groups && GroupHit(hits, g)
    ensures forall g :: g in report.missing <==> g in groups && !GroupHit(hits, g)
    ensures report.missing == [] ==> report.matched == groups
  {
    for i := 0 to |groups|
      invariant |report.matched| + |report.missing| == i
      invariant forall g :: g in report.matched <==> g in groups[..i] && GroupHit(hits, g)
      invariant forall g :: g in report.missing <==> g in groups[..i] && !GroupHit(hits, g)
      invariant report.missing == [] ==> report.matched == groups[..i]
    {
      assert groups[..i + 1] == groups[..i] + [groups[i]];
      if exists u | u in groups[i] :: u in hits {
        assert GroupHit(hits, groups[i]);
        report.matched := report.matched + [groups[i]];
      } else {
        report.missing := report.missing + [groups[i]];
      }
    }
    assert groups[..|groups|] == groups;
  }

  /** Before the finish, the swept path touches a trigger of every group. */
  ghost predicate AllGroupsHit(player: Ghost, e: Evidence, p: Prepared, m: Manifest, finish: Event, narrow: Narrow)
  {
    var swept := BruteForce(Segments(player, e, m), p.triggers, finish.rawTime, narrow);
    swept.Swept? && forall g | g in p.groups :: GroupHit(swept.hits, g)
  }

  ghost function FinishRadius(player: Ghost, m: Manifest, finish: Event): real
  {
    TrustedRadius(player.frames, m, finish.sample.time) + RadiusMargin(player, m)
  }

  /** Everything the geometry has to show once the samples and the finish are in order. */
  ghost predicate RunClean(s: Submission, e: Evidence, p: Prepared, m: Manifest, finish: Event, narrow: Narrow)
  {
    && AllGroupsHit(s.player, e, p, m, finish, narrow)
    && (forall ev | ev in e.events :: GoodEvent(s.player, e, p, m, finish, narrow, ev))
    && SplitsClean(e, s.context)
    && FinishHit(p.triggers, finish, FinishRadius(s.player, m, finish), narrow)
    && EventsMatchGroups(p.groups, Checkpoints(e.events))
  }

  /** What a pass asserts about the run. */
  ghost predicate PassMeans(s: Submission, narrow: Narrow)
  {
    && Identified(s) && SnapshotClean(s) && ManifestClean(s) && s.player.evidence.Some?
    && var e, p, m := s.player.evidence.value, s.prepared.value, s.manifest.value;
    && SamplesClean(s.player, e, p, m)
    && StartAndFinishClean(s.player, e, p, m, s.context.time)
    && RunClean(s, e, p, m, Finishes(e.events)[0], narrow)
  }

  /** What is spent before the events: one unit for each of them and one for each contact test of the sweep. */
  ghost function SweepWork(player: Ghost, e: Evidence, p: Prepared, m: Manifest, finish: Event): nat
  {
    |e.events| + PrunedWork(Segments(player, e, m), p.triggers, finish.rawTime)
  }

  /** What the validator spends on a run when nothing stops it. */
  ghost function RunWork(player: Ghost, e: Evidence, p: Prepared, m: Manifest, finish: Event, narrow: Narrow): nat
  {
    SweepWork(player, e, p, m, finish) + EventsWork(player, e, p, m, narrow, e.events)
  }

  ghost predicate InBudget(s: Submission, narrow: Narrow)
  {
    && s.prepared.Some? && s.manifest.Some? && s.player.evidence.Some?
    && var e := s.player.evidence.value;
    && Finishes(e.events) != []
    && RunWork(s.player, e, s.prepared.value, s.manifest.value, Finishes(e.events)[0], narrow) <= MAX_QUERY_WORK
  }

  lemma {:induction false} PrunedWorkBound(segments: seq<Segment>, triggers: seq<Trigger>, finish: real)
    ensures PrunedWork(segments, triggers, finish) <= |segments| * |triggers|
  {
    hide PartitionPoint, Reach;
    if segments != [] {
      PrunedWorkBound(segments[1..], triggers, finish);
      var n, k := |segments|, |triggers|;
      assert (n - 1) * k + k == n * k;
    }
  }

  /** Triggers are sorted by low x unless preparation stopped, and a stop has a reason. */
  ghost predicate WellPrepared(p: Prepared)
  {
    if p.geometryStop then p.geometryReasons != [] else Sorted(p.triggers, LowXLeq)
  }

  /** Missing groups fail a run with evidence when proven, a legacy run on its own proof. */
  ghost predicate GroupRule(fatal: Reason -> bool, s: Submission, e: Evidence, p: Prepared, m: Manifest, narrow: Narrow,
                            proven: bool)
    requires e.samples != []
  {
    fatal(MissingGroups) == (proven || LegacyProof(s.player, e, p, m, s.context.time, narrow))
  }

  method CheckMissing(report: Report, s: Submission, e: Evidence, p: Prepared, m: Manifest, narrow: Narrow,
                      proven: bool, complete: bool, finishHit: bool)
    requires e.samples != [] && (complete <==> Complete(s.player, e, m, s.player.evidence.None?))
    requires report.Valid() && e.samples != [] && GroupRule(report.fatal, s, e, p, m, narrow, proven)
    requires proven ==> s.player.evidence.Some?
    requires report.missing != [] ==> report.cause(MissingGroups)
    requires s.player.evidence.None? ==>
      finishHit == FinishHit(p.triggers, FinishOf(s.player, e, s.context.time),
                             FinishRadius(s.player, m, FinishOf(s.player, e, s.context.time)), narrow)
    modifies report`status, report`reasons
    ensures report.Valid()
    ensures report.reasons == [] <==> old(report.reasons) == [] && report.missing == []
    ensures report.status == Fail <==>
      old(report.status) == Fail
      || (report.missing != [] && (proven || LegacyProof(s.player, e, p, m, s.context.time, narrow)))
  {
    hide Report.Valid, Complete, FinishHit, TrustedRadius, RadiusMargin;
    if report.missing != [] {
      if s.player.evidence.None? {
        var continuous := complete && e.samples[0].time <= 0.1
          && Abs(e.samples[|e.samples| - 1].time - s.context.time) <= 0.25
          && (forall x | x in e.samples :: x.time >= 0.0 && x.radius > 0.0)
          && forall i | 0 <= i < |e.samples| - 1 ::
            0.0 < e.samples[i + 1].time - e.samples[i].time <= m.physicsInterval * 2.5 + 0.001;
        report.Missed(continuous && p.geometryComplete && finishHit
                      && !exists f | f in s.player.frames :: f.ragdoll == Some(true), MissingGroups);
      } else {
        report.Missed(proven, MissingGroups);
      }
    }
  }

  /** What a reason given by the query, the events or the claims says about the run. */
  ghost predicate GeometryCause(s: Submission, e: Evidence, p: Prepared, m: Manifest, finish: Event, narrow: Narrow, r: Reason)
  {
    || (r == FromLevel("geometry_budget") && RunWork(s.player, e, p, m, finish, narrow) > MAX_QUERY_WORK)
    || (r == FromLevel("unsupported_geometry")
        && BruteForce(Segments(s.player, e, m), p.triggers, finish.rawTime, narrow).Unsupported?)
    || (exists ev :: ev in e.events && EventCause(s.player, e, p, m, finish, narrow, ev, r))
    || ClaimsCause(s, e, p, m, finish, narrow, r)
  }

  ghost predicate ClaimsCause(s: Submission, e: Evidence, p: Prepared, m: Manifest, finish: Event, narrow: Narrow, r: Reason)
  {
    || (s.player.evidence.Some? && SplitsCause(e, s.context, r))
    || (r == MissingFinishContact && !FinishHit(p.triggers, finish, FinishRadius(s.player, m, finish), narrow))
    || (s.player.evidence.Some? && !p.csvUnknown && GroupsCause(p.groups, Checkpoints(e.events), r))
    || (r == MissingGroups && !AllGroupsHit(s.player, e, p, m, finish, narrow))
    || (r == WrongSplitCount && !OldFormat(s.player.version) && |s.context.splits| != |p.groups|)
  }

  /** What the claims fail for: splits at any time, absences when they are proven. */
  ghost predicate ClaimsFail(s: Submission, e: Evidence, p: Prepared, m: Manifest, finish: Event, narrow: Narrow, proven: bool)
    requires e.samples != []
  {
    || (s.player.evidence.Some? && !SplitsClean(e, s.context))
    || (proven
        && (|| !FinishHit(p.triggers, finish, FinishRadius(s.player, m, finish), narrow)
            || !EventsMatchGroups(p.groups, Checkpoints(e.events))
            || !AllGroupsHit(s.player, e, p, m, finish, narrow)
            || (!OldFormat(s.player.version) && |s.context.splits| != |p.groups|)))
    || (!AllGroupsHit(s.player, e, p, m, finish, narrow)
        && LegacyProof(s.player, e, p, m, s.context.time, narrow))
  }

  /** A sweep that ends within the budget, and then an event that fails, or claims when all events are tested. */
  ghost predicate GeometryFails(s: Submission, e: Evidence, p: Prepared, m: Manifest, finish: Event, narrow: Narrow,
                                proven: bool)
    requires e.samples != []
  {
    && BruteForce(Segments(s.player, e, m), p.triggers, finish.rawTime, narrow).Swept?
    && SweepWork(s.player, e, p, m, finish) <= MAX_QUERY_WORK
    && (|| (proven && EventsFail(s.player, e, p, m, finish, narrow, e.events, SweepWork(s.player, e, p, m, finish)))
        || (RunWork(s.player, e, p, m, finish, narrow) <= MAX_QUERY_WORK && ClaimsFail(s, e, p, m, finish, narrow, proven)))
  }

  /** The pairs of consecutive samples, each with the larger trusted radius of its ends and the margin. */
  method SegmentsOf(player: Ghost, e: Evidence, m: Manifest, margin: real) returns (segments: seq<Segment>)
    requires margin == RadiusMargin(player, m)
    ensures segments == Segments(player, e, m)
  {
    hide TrustedRadius, RadiusMargin, Max, Ragdolled;
    segments := [];
    var i := 0;
    while i + 1 < |e.samples|
      invariant |segments| == i && (i == 0 || i < |e.samples|)
      invariant forall k | 0 <= k < i :: segments[k] == SegmentAt(player, e, m, k)
    {
      var a, b := e.samples[i], e.samples[i + 1];
      var radius := Max(TrustedRadius(player.frames, m, a.time), TrustedRadius(player.frames, m, b.time)) + margin;
      segments := segments + [Segment(a, b, radius)];
      i := i + 1;
    }
  }

  lemma MarginIs(player: Ghost, m: Manifest)
    ensures RadiusMargin(player, m)
         == m.positionTolerance + if player.evidence.None? then 2.0 + |player.frames| as real * 0.00001 else 0.0
  {
  }

  method CheckGeometry(report: Report, s: Submission, e: Evidence, p: Prepared, m: Manifest, finish: Event,
                       narrow: Narrow, proven: bool, complete: bool)
    requires e.samples != [] && (complete <==> Complete(s.player, e, m, s.player.evidence.None?))
    requires report.Valid() && Classified(report.fatal) && MissRule(report.fatal, proven)
    requires report.fatal(EventTrajectoryMismatch) == (proven && e.samplingVersion == 4 && m.trajectoryCalibrated)
    requires e.samples != [] && GroupRule(report.fatal, s, e, p, m, narrow, proven)
    requires proven ==> s.player.evidence.Some? && !p.csvUnknown && SamplesOrdered(e.samples)
    requires s.player.evidence.None? ==> finish == FinishOf(s.player, e, s.context.time)
    requires m.positionTolerance >= 0.0 && e.physicsInterval >= 0.0 && Sorted(p.triggers, LowXLeq)
    requires |e.events| <= MAX_QUERY_WORK
    requires report.matched == [] && report.missing == []
    requires forall r :: GeometryCause(s, e, p, m, finish, narrow, r) ==> report.cause(r)
    modifies report
    ensures report.Valid()
    ensures report.status == Fail <==> old(report.status) == Fail || GeometryFails(s, e, p, m, finish, narrow, proven)
    ensures s.player.evidence.Some? && !p.csvUnknown && report.reasons == [] ==>
      && old(report.reasons) == [] && RunClean(s, e, p, m, finish, narrow)
      && RunWork(s.player, e, p, m, finish, narrow) <= MAX_QUERY_WORK
      && report.missing == [] && report.matched == p.groups
    ensures (s.player.evidence.Some? && !p.csvUnknown && old(report.reasons) == [] && RunClean(s, e, p, m, finish, narrow)
             && SamplesOrdered(e.samples) && RunWork(s.player, e, p, m, finish, narrow) <= MAX_QUERY_WORK) ==>
      report.reasons == []
    ensures old(report.reasons) != [] ==> report.reasons != []
  {
    hide Report.Valid, Classified, GoodEvent, FinishHit, BruteForce, PrunedWork, GroupHit, Segments, EventsMatchGroups, Complete,
      TrustedRadius, RadiusMargin, GroupRule, MissRule, SamplesOrdered, SplitsClean, EventsWork, EventsFail, ClaimsFail, Sorted,
      EventCause, ClaimsCause;
    var margin := m.positionTolerance
      + if s.player.evidence.None? then 2.0 + |s.player.frames| as real * 0.00001 else 0.0;
    MarginIs(s.player, m);
    var segments := SegmentsOf(s.player, e, m, margin);
    var outcome, work := Sweep(segments, p.triggers, finish.rawTime, narrow, |e.events|);
    if !outcome.Swept? {
      SoftLevel(report.fatal);
      report.Uncertainty(if outcome.OverBudget? then FromLevel("geometry_budget") else FromLevel("unsupported_geometry"));
      return;
    }
    var stop, total := CheckEvents(report, s.player, e, p, m, finish, narrow, margin, proven, work);
    if stop {
      return;
    }
    CheckClaims(report, s, e, p, m, finish, narrow, margin, proven, complete, outcome.hits);
  }

  lemma ClaimsCauses(s: Submission, e: Evidence, p: Prepared, m: Manifest, finish: Event, narrow: Narrow, hits: set<string>,
                     cause: Reason -> bool)
    requires BruteForce(Segments(s.player, e, m), p.triggers, finish.rawTime, narrow) == Swept(hits)
    requires forall r :: ClaimsCause(s, e, p, m, finish, narrow, r) ==> cause(r)
    ensures s.player.evidence.Some? ==> forall r :: SplitsCause(e, s.context, r) ==> cause(r)
    ensures s.player.evidence.Some? && !p.csvUnknown ==> forall r :: GroupsCause(p.groups, Checkpoints(e.events), r) ==> cause(r)
    ensures !FinishHit(p.triggers, finish, FinishRadius(s.player, m, finish), narrow) ==> cause(MissingFinishContact)
    ensures !(forall g | g in p.groups :: GroupHit(hits, g)) ==> cause(MissingGroups)
    ensures !OldFormat(s.player.version) && |s.context.splits| != |p.groups| ==> cause(WrongSplitCount)
  {
    hide BruteForce, Segments, SplitsCause, GroupsCause, FinishHit, GroupHit, Checkpoints, FinishRadius;
  }

  method FinishContact(triggers: seq<Trigger>, finish: Event, radius: real, narrow: Narrow) returns (hit: bool)
    ensures hit <==> FinishHit(triggers, finish, radius, narrow)
  {
    hide Contact;
    hit := false;
    for i := 0 to |triggers|
      invariant hit <==> FinishHit(triggers[..i], finish, radius, narrow)
    {
      var t := triggers[i];
      assert triggers[..i + 1] == triggers[..i] + [t];
      if t.finish && Contact(t, finish.sample.position, finish.sample.position, radius, narrow) == Hit {
        hit := true;
      }
    }
    assert triggers[..|triggers|] == triggers;
  }

  /** Splits, finish contact, groups and the hit sets, after the path and the events. */
  method CheckClaims(report: Report, s: Submission, e: Evidence, p: Prepared, m: Manifest, finish: Event,
                     narrow: Narrow, margin: real, proven: bool, complete: bool, hits: set<string>)
    requires margin == RadiusMargin(s.player, m)
    requires e.samples != [] && (complete <==> Complete(s.player, e, m, s.player.evidence.None?))
    requires report.Valid() && Classified(report.fatal) && MissRule(report.fatal, proven)
    requires e.samples != [] && GroupRule(report.fatal, s, e, p, m, narrow, proven)
    requires proven ==> s.player.evidence.Some? && !p.csvUnknown
    requires s.player.evidence.None? ==> finish == FinishOf(s.player, e, s.context.time)
    requires report.matched == [] && report.missing == []
    requires BruteForce(Segments(s.player, e, m), p.triggers, finish.rawTime, narrow) == Swept(hits)
    requires forall r :: ClaimsCause(s, e, p, m, finish, narrow, r) ==> report.cause(r)
    modifies report
    ensures report.Valid()
    ensures report.status == Fail <==> old(report.status) == Fail || ClaimsFail(s, e, p, m, finish, narrow, proven)
    ensures s.player.evidence.Some? && !p.csvUnknown ==>
      (report.reasons == [] <==>
       && old(report.reasons) == [] && SplitsClean(e, s.context)
       && FinishHit(p.triggers, finish, FinishRadius(s.player, m, finish), narrow)
       && EventsMatchGroups(p.groups, Checkpoints(e.events))
       && forall g | g in p.groups :: GroupHit(hits, g))
    ensures report.reasons == [] ==> report.missing == [] && report.matched == p.groups
    ensures old(report.reasons) != [] ==> report.reasons != []
  {
    hide Report.Valid, Classified, FinishHit, GroupHit, EventsMatchGroups, TrustedRadius, Complete, RadiusMargin,
      GroupRule, MissRule,
      SplitsClean, SplitsCause, GroupsCause, ClaimsCause, BruteForce, Segments, Checkpoints, LegacyProof;
    AllHit(s.player, e, p, m, finish, narrow, hits);
    ClaimReasons(report.fatal, proven);
    ClaimsCauses(s, e, p, m, finish, narrow, hits, report.cause);
    var radius := TrustedRadius(s.player.frames, m, finish.sample.time) + margin;
    var finishHit := FinishContact(p.triggers, finish, radius, narrow);
    if s.player.evidence.Some? {
      CheckSplits(report, e, s.context);
    }
    if !finishHit {
      report.Missed(proven, MissingFinishContact);
    }
    if s.player.evidence.Some? && !p.csvUnknown {
      CheckGroups(report, p.groups, e, proven);
    }
    SplitCountFollows(e, p, s.context);
    CheckHits(report, s, e, p, m, narrow, proven, complete, finishHit, hits);
  }

  /** The groups against the swept hits, and their number against the splits. */
  method CheckHits(report: Report, s: Submission, e: Evidence, p: Prepared, m: Manifest, narrow: Narrow,
                   proven: bool, complete: bool, finishHit: bool, hits: set<string>)
    requires e.samples != [] && (complete <==> Complete(s.player, e, m, s.player.evidence.None?))
    requires report.Valid() && GroupRule(report.fatal, s, e, p, m, narrow, proven) && report.fatal(WrongSplitCount) == proven
    requires proven ==> s.player.evidence.Some?
    requires report.matched == [] && report.missing == []
    requires !(forall g | g in p.groups :: GroupHit(hits, g)) ==> report.cause(MissingGroups)
    requires !OldFormat(s.player.version) && |s.context.splits| != |p.groups| ==> report.cause(WrongSplitCount)
    requires s.player.evidence.None? ==>
      finishHit == FinishHit(p.triggers, FinishOf(s.player, e, s.context.time),
                             FinishRadius(s.player, m, FinishOf(s.player, e, s.context.time)), narrow)
    modifies report
    ensures report.Valid()
    ensures report.reasons == [] <==>
      (old(report.reasons) == [] && (forall g | g in p.groups :: GroupHit(hits, g))
       && (OldFormat(s.player.version) || |s.context.splits| == |p.groups|))
    ensures report.status == Fail <==>
      (old(report.status) == Fail
       || (!(forall g | g in p.groups :: GroupHit(hits, g)) && (proven || LegacyProof(s.player, e, p, m, s.context.time, narrow)))
       || (proven && !OldFormat(s.player.version) && |s.context.splits| != |p.groups|))
    ensures report.reasons == [] ==> report.missing == [] && report.matched == p.groups
  {
    hide Report.Valid, GroupHit, FinishHit, Complete, GroupRule, LegacyProof, FinishOf, FinishRadius;
    SortGroups(report, p.groups, hits);
    assert report.missing == [] <==> forall g | g in p.groups :: GroupHit(hits, g) by {
      if report.missing != [] {
        assert report.missing[0] in report.missing;
      }
    }
    CheckMissing(report, s, e, p, m, narrow, proven, complete, finishHit);
    if !(1 <= s.player.version <= 7) && |s.context.splits| != |report.matched| + |report.missing| {
      report.Missed(proven, WrongSplitCount);
    }
  }

  lemma AllHit(player: Ghost, e: Evidence, p: Prepared, m: Manifest, finish: Event, narrow: Narrow, hits: set<string>)
    requires BruteForce(Segments(player, e, m), p.triggers, finish.rawTime, narrow) == Swept(hits)
    ensures AllGroupsHit(player, e, p, m, finish, narrow) <==> forall g | g in p.groups :: GroupHit(hits, g)
  {
    hide BruteForce, Segments, GroupHit;
  }

  lemma ClaimReasons(fatal: Reason -> bool, proven: bool)
    requires MissRule(fatal, proven)
    ensures fatal(MissingFinishContact) == fatal(WrongSplitCount) == proven
  {
  }

  lemma SoftLevel(fatal: Reason -> bool)
    requires Classified(fatal)
    ensures forall n :: !fatal(FromLevel(n))
  {
  }

  lemma SplitCountFollows(e: Evidence, p: Prepared, c: Context)
    ensures SplitsClean(e, c) && EventsMatchGroups(p.groups, Checkpoints(e.events)) ==> |c.splits| == |p.groups|
  {
    hide KnownAndDistinct, CloseSplit;
  }

  /** A simple bound that is always enough. */
  lemma AmpleBudget(player: Ghost, e: Evidence, p: Prepared, m: Manifest, finish: Event, narrow: Narrow)
    ensures RunWork(player, e, p, m, finish, narrow)
            <= |e.events| + |e.samples| * |p.triggers| + |e.events| * EventBound(e, p)
  {
    hide PrunedWork, EventsWork, EventBound;
    var segments := Segments(player, e, m);
    PrunedWorkBound(segments, p.triggers, finish.rawTime);
    EventsWorkBound(player, e, p, m, narrow, e.events);
    var n, k, c := |segments|, |p.triggers|, |e.samples|;
    assert n <= c;
    assert n * k <= c * k;
  }

  /** What a recorded reason asserts about the run: it is never given without its cause. */
  ghost predicate Cause(s: Submission, narrow: Narrow, r: Reason)
  {
    || RunCause(s, r) || SnapshotCause(s, r) || ManifestCause(s, r)
    || (s.prepared.Some? && s.manifest.Some?
        && var p, m := s.prepared.value, s.manifest.value;
           var e := EvidenceOf(s.player, m);
           || SamplesCause(s.player, e, p, m, r)
           || (e.samples != []
               && (|| StartCause(s.player, e, p, m, s.context.time, r)
                   || ((s.player.evidence.Some? ==> Finishes(e.events) != [])
                       && GeometryCause(s, e, p, m, FinishOf(s.player, e, s.context.time), narrow, r)))))
  }

  /** Level, profile and samples are good enough for the checks on the events. */
  ghost predicate Reaches(s: Submission)
  {
    && s.prepared.Some? && (s.prepared.value.blockCount.Some? ==> s.prepared.value.blockCount.value <= MAX_BLOCKS)
    && !s.prepared.value.geometryStop
    && s.manifest.Some? && s.manifest.value.version == 1 && SoundProfile(s.manifest.value)
    && var e := EvidenceOf(s.player, s.manifest.value);
    && 2 <= |e.samples| <= MAX_GHOST_FRAMES && |e.events| <= MAX_BLOCKS + 1
  }

  /** Which submissions fail. */
  ghost predicate Fails(s: Submission, narrow: Narrow)
  {
    || RunFails(s)
    || SnapshotFails(s)
    || (Reaches(s) && ReachedFails(s, s.prepared.value, s.manifest.value, EvidenceOf(s.player, s.manifest.value), narrow))
  }

  ghost predicate ReachedFails(s: Submission, p: Prepared, m: Manifest, e: Evidence, narrow: Narrow)
    requires e.samples != []
  {
    var proven := Proven(s.player, e, p, m, narrow);
    || StartFails(s.player, e, p, m, s.context.time, proven)
    || ((s.player.evidence.Some? ==> |Finishes(e.events)| == 1)
        && GeometryFails(s, e, p, m, FinishOf(s.player, e, s.context.time), narrow, proven))
  }

  method EvidenceUsed(player: Ghost, m: Manifest) returns (e: Evidence)
    ensures e == EvidenceOf(player, m) && (player.evidence.Some? ==> e == player.evidence.value)
  {
    if player.evidence.Some? {
      return player.evidence.value;
    }
    var frames := player.frames;
    var samples: seq<Sample> := [];
    for i := 0 to |frames|
      invariant |samples| == i
      invariant forall k | 0 <= k < i :: samples[k] == Sample(frames[k].time, frames[k].position, m.sphereRadius)
    {
      samples := samples + [Sample(frames[i].time, frames[i].position, m.sphereRadius)];
    }
    e := Evidence(0, false, "", if frames == [] then 0.0 else frames[0].time, m.physicsInterval, samples, []);
  }

  /** The checks in order; the first that stops ends them. */
  method CheckAll(report: Report, s: Submission, narrow: Narrow)
    requires s.prepared.Some? ==> WellPrepared(s.prepared.value)
    requires report.Valid() && report.reasons == [] && report.matched == [] && report.missing == []
    requires forall r :: report.fatal(r) == FatalFor(s, narrow, r)
    requires forall r :: report.cause(r) == Cause(s, narrow, r)
    modifies report
    ensures report.Valid()
    ensures report.status == Fail <==> Fails(s, narrow)
    ensures report.reasons == [] <==> PassMeans(s, narrow) && InBudget(s, narrow)
    ensures report.reasons == [] ==> report.missing == [] && report.matched == s.prepared.value.groups
  {
    hide FatalFor, Identified, SnapshotClean, ManifestClean, SamplesClean, StartAndFinishClean, RunClean, Proven,
      RunWork, SoundEvidence, SoundProfile, Complete, Sorted, Classified, RunFails, SnapshotFails, ReachedFails,
      RunCause, SnapshotCause, ManifestCause, SamplesCause, StartCause, GeometryCause, Finishes, EvidenceOf, SamplesOrdered,
      LowXLeq, Report.Valid;
    FatalClassified(s, narrow, report.fatal);
    UnsoundFails(s);
    NotFailedYet(report);
    var stop := CheckRun(report, s);
    if stop {
      return;
    }
    stop := CheckSnapshot(report, s);
    if stop {
      return;
    }
    stop := CheckManifest(report, s);
    if stop {
      return;
    }
    var p, m := s.prepared.value, s.manifest.value;
    var e := EvidenceUsed(s.player, m);
    var complete;
    stop, complete := CheckSamples(report, s.player, e, p, m);
    if stop {
      return;
    }
    CleanIsOrdered(s, e, p, m);
    CleanHasFinish(s.player, e, p, m, s.context.time);
    CheckSampled(report, s, e, p, m, narrow, complete);
  }

  lemma NotFailedYet(report: Report)
    requires report.Valid() && report.reasons == []
    ensures report.status != Fail
  {
  }

  /**
   The validator.  A pass is exactly an empty list of reasons, and a failure exactly a recorded
   reason that is fatal for this run.  A run passes exactly when it is everything `PassMeans` lists
   and its queries fit the budget, and fails exactly when it is something `Fails` lists; whatever is
   recorded against it is so.
   */
  method ValidatePrepared(s: Submission, narrow: Narrow) returns (report: Report)
    requires s.prepared.Some? ==> WellPrepared(s.prepared.value)
    ensures fresh(report) && report.Valid()
    ensures report.status == Fail <==> Fails(s, narrow)
    ensures report.status == Fail <==> exists r :: r in report.reasons && FatalFor(s, narrow, r)
    ensures forall r | r in report.reasons :: Cause(s, narrow, r)
    ensures report.status == Pass <==> PassMeans(s, narrow) && InBudget(s, narrow)
    ensures report.status == Pass ==> report.missing == [] && report.matched == s.prepared.value.groups
  {
    hide FatalFor, Cause, Fails, InBudget;
    report := new Report((r: Reason) => FatalFor(s, narrow, r), (r: Reason) => Cause(s, narrow, r));
    CheckAll(report, s, narrow);
  }

  lemma UnsoundFails(s: Submission)
    ensures s.player.evidence.Some? && !SoundEvidence(s.player.evidence.value) ==> RunFails(s)
  {
    hide SoundEvidence;
  }

  lemma IntervalIsPositive(player: Ghost, e: Evidence, m: Manifest)
    requires e == EvidenceOf(player, m) && SoundProfile(m) && (player.evidence.Some? ==> SoundEvidence(player.evidence.value))
    ensures e.physicsInterval > 0.0
  {
  }

  lemma CleanHasFinish(player: Ghost, e: Evidence, p: Prepared, m: Manifest, time: real)
    ensures StartAndFinishClean(player, e, p, m, time) ==> Finishes(e.events) != []
  {
    hide Finishes, NearSpawn;
  }

  /** Start, finish, path, events and claims, for samples that reach that far. */
  method CheckSampled(report: Report, s: Submission, e: Evidence, p: Prepared, m: Manifest, narrow: Narrow, complete: bool)
    requires e.samples != [] && (complete <==> Complete(s.player, e, m, s.player.evidence.None?))
    requires report.Valid() && s.prepared == Some(p) && s.manifest == Some(m) && e == EvidenceOf(s.player, m)
    requires (forall r :: report.fatal(r) == FatalFor(s, narrow, r)) && Classified(report.fatal)
    requires e.samples != [] && |e.events| <= MAX_BLOCKS + 1 && SoundProfile(m) && Sorted(p.triggers, LowXLeq)
    requires s.player.evidence.Some? ==> SoundEvidence(s.player.evidence.value)
    requires forall r :: StartCause(s.player, e, p, m, s.context.time, r) ==> report.cause(r)
    requires (s.player.evidence.Some? ==> Finishes(e.events) != []) ==>
      forall r :: GeometryCause(s, e, p, m, FinishOf(s.player, e, s.context.time), narrow, r) ==> report.cause(r)
    requires report.matched == [] && report.missing == []
    modifies report
    ensures report.Valid()
    ensures report.status == Fail <==> old(report.status) == Fail || ReachedFails(s, p, m, e, narrow)
    ensures s.player.evidence.Some? && !p.csvUnknown && report.reasons == [] ==>
      && old(report.reasons) == [] && StartAndFinishClean(s.player, e, p, m, s.context.time)
      && RunClean(s, e, p, m, Finishes(e.events)[0], narrow)
      && RunWork(s.player, e, p, m, Finishes(e.events)[0], narrow) <= MAX_QUERY_WORK
      && report.missing == [] && report.matched == p.groups
    ensures (s.player.evidence.Some? && !p.csvUnknown && old(report.reasons) == [] && SamplesOrdered(e.samples)
             && StartAndFinishClean(s.player, e, p, m, s.context.time) && RunClean(s, e, p, m, Finishes(e.events)[0], narrow)
             && RunWork(s.player, e, p, m, Finishes(e.events)[0], narrow) <= MAX_QUERY_WORK) ==> report.reasons == []
    ensures old(report.reasons) != [] ==> report.reasons != []
  {
    hide FatalFor, RunClean, Proven, RunWork, NearSpawn, SoundProfile, LegacyProof, Complete, Sorted, LowXLeq, MissRule,
      Classified, GroupRule, SoundEvidence, StartFails, GeometryFails, StartCause, GeometryCause, SamplesOrdered, EvidenceOf;
    var finishes := Filter(e.events, true);
    var proven := Prove(s.player, e, p, m, narrow, complete, finishes);
    FatalWhenSampled(s, narrow, report.fatal, e, p, m);
    ProfileTolerance(m);
    IntervalIsPositive(s.player, e, m);
    var stop, finish := CheckStartAndFinish(report, s.player, e, p, m, s.context.time, proven, finishes);
    if stop {
      return;
    }
    CheckGeometry(report, s, e, p, m, finish, narrow, proven, complete);
  }

  lemma ProfileTolerance(m: Manifest)
    requires SoundProfile(m)
    ensures m.positionTolerance >= 0.0
  {
  }

  lemma FatalClassified(s: Submission, narrow: Narrow, fatal: Reason -> bool)
    requires forall r :: fatal(r) == FatalFor(s, narrow, r)
    ensures Classified(fatal)
  {
    hide Proven, LegacyProof, EvidenceOf;
  }

  lemma FatalWhenSampled(s: Submission, narrow: Narrow, fatal: Reason -> bool, e: Evidence, p: Prepared, m: Manifest)
    requires s.prepared == Some(p) && s.manifest == Some(m) && e == EvidenceOf(s.player, m) && e.samples != []
    requires forall r :: fatal(r) == FatalFor(s, narrow, r)
    ensures var proven := Proven(s.player, e, p, m, narrow);
      && MissRule(fatal, proven) && GroupRule(fatal, s, e, p, m, narrow, proven)
      && fatal(EventTrajectoryMismatch) == (proven && e.samplingVersion == 4 && m.trajectoryCalibrated)
      && (proven ==> s.player.evidence.Some? && !p.csvUnknown && SamplesOrdered(e.samples))
  {
    ProvenIsOrdered(s.player, e, p, m, narrow);
    hide LegacyProof, EvidenceOf, Complete, FinishSampled, EventsMatchGeometry, Proven, SamplesOrdered;
  }

  lemma ProvenIsOrdered(player: Ghost, e: Evidence, p: Prepared, m: Manifest, narrow: Narrow)
    requires e.samples != []
    ensures Proven(player, e, p, m, narrow) ==> player.evidence.Some? && !p.csvUnknown && SamplesOrdered(e.samples)
  {
    hide TrustedRadius, TouchesOwn;
    if Proven(player, e, p, m, narrow) {
      AdjacentOrder(e.samples, 0);
    }
  }

  lemma CleanIsOrdered(s: Submission, e: Evidence, p: Prepared, m: Manifest)
    ensures SamplesClean(s.player, e, p, m) ==> SamplesOrdered(e.samples) && s.player.evidence.Some?
    ensures SnapshotClean(s) && s.prepared.value == p ==> !p.csvUnknown
  {
    hide TelemetryClean, TrustedRadius;
    if SamplesClean(s.player, e, p, m) {
      AdjacentOrder(e.samples, 0);
    }
  }

  lemma {:induction false} AdjacentOrder(samples: seq<Sample>, from: nat)
    requires from <= |samples| && forall i | 0 <= i < |samples| - 1 :: samples[i + 1].time >= samples[i].time
    ensures forall i, j | from <= i <= j < |samples| :: samples[i].time <= samples[j].time
    decreases |samples| - from
  {
    if from < |samples| {
      AdjacentOrder(samples, from + 1);
      forall j | from < j < |samples| ensures samples[from].time <= samples[j].time {
        assert samples[from].time <= samples[from + 1].time;
      }
    }
  }
}
