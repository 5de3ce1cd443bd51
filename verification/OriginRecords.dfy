/**
 The durable records of the origin permit protocol: the origin state with its cooldown
 (src/worker/source-origin-control.ts) and the safety-stop marker
 (src/worker/source-safety-stop.ts).  Times are integer milliseconds.
 */
module OriginRecords {

  datatype Option<T> = None | Some(value: T)

  const MAX_DEFER_MS := 86_400_000

  function Max(a: int, b: int): int { if a >= b then a else b }

  function Min(a: int, b: int): int { if a <= b then a else b }

  // ----- the origin state file -----

  datatype Record = Record(lastPermitAt: int, notBefore: Option<int>, notBeforeSetAt: Option<int>)

  /** What the path holds: nothing, something unreadable or malformed, or a decoded record. */
  datatype StateFile = Missing | Unusable | Stored(record: Record)

  /** The reader accepts no cooldown, or a cooldown set at most a day ahead. */
  predicate ValidCooldownPair(notBefore: Option<int>, setAt: Option<int>) {
    if notBefore.None? || setAt.None? then notBefore.None? && setAt.None?
    else 0 <= notBefore.value - setAt.value <= MAX_DEFER_MS
  }

  predicate Readable(r: Record) { ValidCooldownPair(r.notBefore, r.notBeforeSetAt) }

  function ReadState(file: StateFile): StateFile {
    if file.Stored? && !Readable(file.record) then Unusable else file
  }

  /** `requestSpacingMs`: the rate must lie in (0, 1]. */
  function RequestSpacing(requestsPerSecond: real): Option<int> {
    if requestsPerSecond <= 0.0 || requestsPerSecond > 1.0 then None
    else Some(-((-(1000.0 / requestsPerSecond)).Floor))
  }

  /** The spacing is the least whole number of milliseconds that respects the rate. */
  lemma SpacingRespectsRate(rate: real, ms: int)
    requires 0.0 < rate <= 1.0
    ensures RequestSpacing(rate).value >= 1000
    ensures ms as real * rate >= 1000.0 <==> ms >= RequestSpacing(rate).value
  {
    var exact := 1000.0 / rate;
    assert exact * rate == 1000.0;
    var spacing := RequestSpacing(rate).value;
    assert spacing as real >= exact > spacing as real - 1.0;
    assert ms as real * rate >= 1000.0 <==> ms as real >= exact by {
      if ms as real >= exact { assert (ms as real - exact) * rate >= 0.0; }
      else { assert (exact - ms as real) * rate > 0.0; }
    }
    assert exact >= 1000.0 by { assert (exact - 1000.0) * rate >= 0.0; }
  }

  function NoCooldown(lastPermitAt: int): Record { Record(lastPermitAt, None, None) }

  /** The earliest start a permit may reserve. */
  function Reservation(previous: StateFile, current: int, spacing: int, lastActual: Option<int>): int
    requires !previous.Unusable?
  {
    var spacingEligible := if previous.Missing? then current + spacing else previous.record.lastPermitAt + spacing;
    var ownerEligible := if lastActual.None? then current + spacing else lastActual.value + spacing;
    var cooldown := if previous.Stored? && previous.record.notBefore.Some? then previous.record.notBefore.value else current;
    Max(Max(current + spacing, spacingEligible), Max(ownerEligible, cooldown))
  }

  /** A start at `at` respects the spacing from now, from the last permit and from its own last start, and the cooldown. */
  predicate MayStart(previous: StateFile, current: int, spacing: int, lastActual: Option<int>, at: int) {
    && at >= current + spacing
    && (previous.Stored? ==> at >= previous.record.lastPermitAt + spacing)
    && (previous.Stored? && previous.record.notBefore.Some? ==> at >= previous.record.notBefore.value)
    && (lastActual.Some? ==> at >= lastActual.value + spacing)
  }

  /** The reservation is the first such moment. */
  lemma ReservationIsFirst(previous: StateFile, current: int, spacing: nat, lastActual: Option<int>, at: int)
    requires !previous.Unusable?
    ensures at >= Reservation(previous, current, spacing, lastActual) <==> MayStart(previous, current, spacing, lastActual, at)
  {
  }

  function BoundedNotBefore(setAt: int, requested: int): int {
    Min(setAt + MAX_DEFER_MS, Max(setAt, requested))
  }

  function DeferRecord(previous: StateFile, setAt: int, requested: int): Record
    requires !previous.Unusable?
  {
    var bounded := BoundedNotBefore(setAt, requested);
    var lastPermitAt := if previous.Stored? then previous.record.lastPermitAt else setAt;
    if previous.Stored? && previous.record.notBefore.Some? && previous.record.notBeforeSetAt.Some?
       && previous.record.notBefore.value > bounded
    then Record(lastPermitAt, previous.record.notBefore, previous.record.notBeforeSetAt)
    else Record(lastPermitAt, Some(bounded), Some(setAt))
  }

  function ResetRecord(previous: StateFile, resetAt: int): Record {
    if previous.Stored?
    then previous.record.(lastPermitAt := Max(previous.record.lastPermitAt, resetAt))
    else NoCooldown(resetAt)
  }

  /** The first moment at which a worker that finds this record may start. */
  function Earliest(r: Record, spacing: int): int {
    if r.notBefore.Some? then Max(r.lastPermitAt + spacing, r.notBefore.value) else r.lastPermitAt + spacing
  }

  /** Every record a writer builds from what the reader returned can be read back as written. */
  lemma WritersStayReadable(file: StateFile, at: int, requested: int)
    ensures Readable(NoCooldown(at))
    ensures var previous := ReadState(file);
            && Readable(ResetRecord(previous, at))
            && (!previous.Unusable? ==> Readable(DeferRecord(previous, at, requested)))
  {
  }

  /**
   No writer brings the first possible start forward: a reservation is not before it, a deferral
   puts it off to the bounded cooldown, and a reset to its own reading and the spacing.
   */
  lemma WritersOnlyPutOff(previous: StateFile, at: int, requested: int, spacing: int, lastActual: Option<int>)
    requires previous.Stored? && spacing >= 0 && Readable(previous.record)
    ensures Reservation(previous, at, spacing, lastActual) >= Earliest(previous.record, spacing)
    ensures Earliest(DeferRecord(previous, at, requested), spacing) ==
            Max(Earliest(previous.record, spacing), BoundedNotBefore(at, requested))
    ensures Earliest(ResetRecord(previous, at), spacing) == Max(Earliest(previous.record, spacing), at + spacing)
  {
  }

  /** A record the reader accepts is one that some writer can leave behind: no cooldown, or one a deferral asked for. */
  lemma ReadableIsWritable(r: Record)
    ensures Readable(r) <==>
            r == NoCooldown(r.lastPermitAt)
            || exists setAt, requested :: r == DeferRecord(Stored(NoCooldown(r.lastPermitAt)), setAt, requested)
  {
    if Readable(r) && r.notBefore.Some? {
      assert r == DeferRecord(Stored(NoCooldown(r.lastPermitAt)), r.notBeforeSetAt.value, r.notBefore.value);
    }
  }

  /** A request within a day of the reading is stored as asked; an earlier one becomes the reading, a later one a day after it. */
  lemma RequestsAreBounded(setAt: int, requested: int)
    ensures var stored := BoundedNotBefore(setAt, requested);
            && (setAt <= requested <= setAt + 86_400_000 ==> stored == requested)
            && (requested < setAt ==> stored == setAt)
            && (requested > setAt + 86_400_000 ==> stored == setAt + 86_400_000)
  {
  }

  // ----- the safety-stop marker -----

  datatype StopReason = RobotsDisallow | SourceForbidden | SourceRateLimited

  datatype Marker = Marker(reason: StopReason, stoppedAt: int, resumeNotBefore: Option<int>)

  datatype MarkerFile = NoMarker | BadMarker | Marked(marker: Marker)

  /** `boundedSourceResumeDelayMs`; None stands for an absent or non-finite delay. */
  function BoundedResumeDelay(delay: Option<int>): int {
    if delay.None? || delay.value <= 0 then MAX_DEFER_MS else Min(MAX_DEFER_MS, delay.value)
  }

  predicate AcceptedMarker(m: Marker) {
    if m.reason.SourceRateLimited?
    then m.resumeNotBefore.Some? && 0 <= m.resumeNotBefore.value - m.stoppedAt <= MAX_DEFER_MS
    else m.resumeNotBefore.None?
  }

  function ReadMarker(file: MarkerFile): MarkerFile {
    if file.Marked? && !AcceptedMarker(file.marker) then BadMarker else file
  }

  function StopMarker(reason: StopReason, stoppedAt: int, delay: Option<int>): Marker {
    Marker(reason, stoppedAt,
           if reason.SourceRateLimited? then Some(stoppedAt + BoundedResumeDelay(delay)) else None)
  }

  /** The moment a reset has to wait for. */
  function ResumeAt(file: MarkerFile): Option<int> {
    if ReadMarker(file).Marked? && file.marker.reason.SourceRateLimited? then file.marker.resumeNotBefore else None
  }

  /**
   A marker the reader accepts is one `engage` can leave behind, but for a rate limit that is over at once,
   which it never writes.
   */
  lemma AcceptedIsEngaged(m: Marker)
    ensures AcceptedMarker(m) <==>
            (exists delay :: m == StopMarker(m.reason, m.stoppedAt, delay))
            || (m.reason.SourceRateLimited? && m.resumeNotBefore == Some(m.stoppedAt))
  {
    if AcceptedMarker(m) && m.resumeNotBefore.Some? && m.resumeNotBefore.value > m.stoppedAt {
      assert m == StopMarker(m.reason, m.stoppedAt, Some(m.resumeNotBefore.value - m.stoppedAt));
    }
    if AcceptedMarker(m) && m.resumeNotBefore.None? { assert m == StopMarker(m.reason, m.stoppedAt, None); }
  }

  /** Only a rate limit names a moment: the delay asked for, up to a day, or a day for want of one. */
  lemma StopsNameMoments(reason: StopReason, stoppedAt: int, delay: Option<int>)
    ensures var m := StopMarker(reason, stoppedAt, delay);
            && m.reason == reason && m.stoppedAt == stoppedAt
            && ResumeAt(Marked(m)) == m.resumeNotBefore && (m.resumeNotBefore.Some? <==> reason.SourceRateLimited?)
            && (reason.SourceRateLimited? ==>
                  && (delay.Some? && 0 < delay.value <= 86_400_000 ==> m.resumeNotBefore == Some(stoppedAt + delay.value))
                  && (delay.None? || delay.value <= 0 || delay.value > 86_400_000 ==> m.resumeNotBefore == Some(stoppedAt + 86_400_000)))
  {
  }

  lemma EngagedMarkerIsAccepted(reason: StopReason, stoppedAt: int, delay: Option<int>)
    ensures AcceptedMarker(StopMarker(reason, stoppedAt, delay))
  {
  }

  // ----- a rate-limit answer at time t with worker delay d -----

  /** The delay the worker computes for a failed request (v04.ts). */
  function WorkerDelay(failedAt: int, eligibleAt: int): int { Min(MAX_DEFER_MS, Max(0, eligibleAt - failedAt)) }

  /** It reaches the eligible moment, but for one in the past or more than a day away. */
  lemma DelayReachesEligible(failedAt: int, eligibleAt: int)
    ensures var d := WorkerDelay(failedAt, eligibleAt);
            && (failedAt <= eligibleAt <= failedAt + 86_400_000 ==> failedAt + d == eligibleAt)
            && (eligibleAt < failedAt ==> d == 0) && (eligibleAt > failedAt + 86_400_000 ==> d == 86_400_000)
  {
  }

  /**
   The origin cooldown reaches t + d unless its own clock reading fell so far behind t that a
   day after it is still earlier.
   */
  lemma OriginCooldownCovers(t: int, eligibleAt: int, setAt: int)
    ensures var d := WorkerDelay(t, eligibleAt);
            BoundedNotBefore(setAt, t + d) >= t + d <==> setAt + MAX_DEFER_MS >= t + d
  {
  }

  /** The stop marker reaches t + d exactly when its clock reading is early by no more than it adds. */
  lemma StopMarkerCovers(t: int, eligibleAt: int, stoppedAt: int)
    ensures var d := WorkerDelay(t, eligibleAt);
            ResumeAt(Marked(StopMarker(SourceRateLimited, stoppedAt, Some(d)))).value >= t + d <==>
            stoppedAt >= t - (if d == 0 then MAX_DEFER_MS else 0)
  {
  }
}
