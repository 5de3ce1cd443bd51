/**
 What each outbox transaction (src/db/repo.ts) does to the rows it finds, field by field: expiry,
 the retry horizon, claims and settlements.
 */
module RepoOutbox {
  import opened RepoTables
  import opened RepoMail

  // ----- which rows -----

  predicate IsPending(j: Job) { j.status == Queued || j.status == Processing }

  /** A pending alert whose hour is over. */
  predicate IsExpired(j: Job, now: int) { j.kind == Alert && IsPending(j) && j.expiresAt.Some? && j.expiresAt.value <= now }

  /** Queued, or claimed by a dispatcher whose lease is over. */
  predicate IsFree(j: Job, lease: nat, now: int) {
    j.status == Queued || (j.status == Processing && j.claimedAt.Some? && j.claimedAt.value <= now - lease)
  }

  /** Mail other than an alert that nobody sends within 23 hours. */
  predicate IsPastHorizon(j: Job, lease: nat, now: int) {
    j.kind != Alert && IsFree(j, lease, now) && j.createdAt <= now - 82_800_000
  }

  predicate IsAsked(db: Db, s: nat, key: string) {
    (s, key) in db.watches && db.watches[(s, key)].retiredAt.None? && s in db.subs && db.subs[s].confirmedAt.Some?
  }

  /** Mail about a class that no live watch of a Confirmed subscriber asks for any more. */
  predicate IsUnasked(db: Db, j: Job) {
    && (j.kind == Alert || j.kind == BlindWindow) && IsPending(j)
    && (j.subscriber.None? || j.classKey.None? || !IsAsked(db, j.subscriber.value, j.classKey.value))
  }

  /** The row may be sent now: free, its time has come, and neither expired, past its horizon nor unasked for. */
  predicate IsDue(db: Db, j: Job, lease: nat, now: int) {
    && IsFree(j, lease, now) && (j.status == Queued ==> j.availableAt <= now)
    && !IsExpired(j, now) && !IsPastHorizon(j, lease, now) && !IsUnasked(db, j)
  }

  // ----- what becomes of them -----

  /** Ended with a reason, everything else as it was filed. */
  predicate Ends(before: Job, after: Job, status: Status, reason: TerminalReason, now: int) {
    && (after.status, after.terminalReason, after.terminalAt) == (status, Some(reason), Some(now))
    && after.claimedAt.None? && after.claimToken.None? && SameOrder(before, after) && after.sentAt == before.sentAt
    && after.availableAt == before.availableAt
  }

  /** What was ordered, and how often it was tried. */
  predicate SameOrder(before: Job, after: Job) {
    (after.kind, after.subscriber, after.classKey, after.openedAt, after.reason, after.expiresAt, after.createdAt, after.attempts) ==
    (before.kind, before.subscriber, before.classKey, before.openedAt, before.reason, before.expiresAt, before.createdAt, before.attempts)
  }

  /** Claimed under this token, one attempt more. */
  predicate Takes(before: Job, after: Job, token: nat, now: int) {
    && (after.status, after.claimToken, after.claimedAt, after.attempts) == (Processing, Some(token), Some(now), before.attempts + 1)
    && SameOrder(before.(attempts := after.attempts), after) && after.availableAt == before.availableAt
    && (after.sentAt, after.terminalAt, after.terminalReason) == (before.sentAt, before.terminalAt, before.terminalReason)
  }

  predicate Sends(before: Job, after: Job, acceptedAt: int, now: int) {
    && (after.status, after.sentAt, after.terminalAt) == (Sent, Some(acceptedAt), Some(now))
    && after.claimedAt.None? && after.claimToken.None? && SameOrder(before, after) && after.availableAt == before.availableAt
    && after.terminalReason == before.terminalReason
  }

  predicate Requeues(before: Job, after: Job, availableAt: int) {
    && (after.status, after.availableAt) == (Queued, availableAt)
    && after.claimedAt.None? && after.claimToken.None? && SameOrder(before, after)
    && (after.sentAt, after.terminalAt, after.terminalReason) == (before.sentAt, before.terminalAt, before.terminalReason)
  }

  // ----- a claim -----

  /** What a claim makes of a row it does not take. */
  predicate KeepsHouse(db: Db, before: Job, after: Job, lease: nat, now: int) {
    if IsExpired(before, now) then Ends(before, after, Cancelled, Expired, now)
    else if IsPastHorizon(before, lease, now) then Ends(before, after, DeadLetter, RetryHorizon, now)
    else if IsUnasked(db, before) then Ends(before, after, Cancelled, Ineligible, now)
    else after == before
  }

  /** The rows of the batch are due and taken; the others are kept in order. */
  ghost predicate Claims(before: Db, after: Db, batch: set<JobId>, token: nat, lease: nat, now: int) {
    && after.mail.Keys == before.mail.Keys && batch <= before.mail.Keys
    && (forall id | id in before.mail ::
          if id in batch then IsDue(before, before.mail[id], lease, now) && Takes(before.mail[id], after.mail[id], token, now)
          else KeepsHouse(before, before.mail[id], after.mail[id], lease, now))
    && (forall id :: id in after.incidents <==> id in before.incidents || (id in before.mail && IsPastHorizon(before.mail[id], lease, now)))
    && (forall id | id in before.incidents :: after.incidents[id] == before.incidents[id])
    && (forall id | id in after.incidents && id !in before.incidents :: after.incidents[id] == Incident(Unresolved, now))
    && after.subs == before.subs && after.watches == before.watches && after.classes == before.classes
  }

  lemma Housekeeping(db: Db, lease: nat, now: int, id: JobId)
    requires id in db.mail
    ensures id in Housekeep(db, lease, now).mail
    ensures KeepsHouse(db, db.mail[id], Housekeep(db, lease, now).mail[id], lease, now)
  {
    var unexpired := CancelAll(db.mail, ExpiredAlerts(db.mail, now), Expired, now);
    assert id in ExpiredAlerts(db.mail, now) <==> IsExpired(db.mail[id], now);
    assert id in PastHorizon(unexpired, lease, now) <==> IsPastHorizon(db.mail[id], lease, now);
  }

  /** A claim can take exactly the rows that are due. */
  lemma DueIsClaimable(db: Db, lease: nat, now: int, id: JobId)
    ensures id in ClaimableIds(Housekeep(db, lease, now).mail, lease, now) <==> id in db.mail && IsDue(db, db.mail[id], lease, now)
  {
    if id in db.mail { Housekeeping(db, lease, now, id); }
  }

  lemma HousekeepingIncidents(db: Db, lease: nat, now: int, id: JobId)
    ensures id in PastHorizon(CancelAll(db.mail, ExpiredAlerts(db.mail, now), Expired, now), lease, now) <==>
            id in db.mail && IsPastHorizon(db.mail[id], lease, now)
  {
  }

  /** A claim takes what it chose, expires and dead-letters what is over, cancels what nobody asks for, and leaves the rest. */
  lemma ClaimIsExact(db: Db, chosen: set<JobId>, lease: nat, now: int)
    requires chosen <= ClaimableIds(Housekeep(db, lease, now).mail, lease, now)
    ensures Claims(db, ClaimBatch(db, chosen, lease, now), chosen, db.nextToken, lease, now)
  {
    var after := ClaimBatch(db, chosen, lease, now);
    forall id | id in db.mail
      ensures if id in chosen then IsDue(db, db.mail[id], lease, now) && Takes(db.mail[id], after.mail[id], db.nextToken, now)
              else KeepsHouse(db, db.mail[id], after.mail[id], lease, now)
    {
      Housekeeping(db, lease, now, id);
      DueIsClaimable(db, lease, now, id);
    }
    forall id ensures id in after.incidents <==> id in db.incidents || (id in db.mail && IsPastHorizon(db.mail[id], lease, now)) {
      HousekeepingIncidents(db, lease, now, id);
    }
    forall id | id in chosen ensures id in db.mail { DueIsClaimable(db, lease, now, id); }
  }

  // ----- settlements -----

  /** The row is being sent under this token. */
  predicate Holds(mail: Mail, id: JobId, token: nat) { id in mail && mail[id].status == Processing && mail[id].claimToken == Some(token) }

  /** When a row may no longer be tried: an alert at its expiry, other mail 23 hours after it was filed. */
  predicate InTime(j: Job, moment: int) {
    if j.kind == Alert && j.expiresAt.Some? then moment < j.expiresAt.value else moment < j.createdAt + 82_800_000
  }

  /** Only this row, if any, is another one, and it gets an incident if it is dead-lettered. */
  ghost predicate OnlyRow(before: Db, after: Db, id: JobId, now: int) {
    && after.mail.Keys == before.mail.Keys && (forall other | other in before.mail && other != id :: after.mail[other] == before.mail[other])
    && (if id in before.mail && after.mail[id].status == DeadLetter && before.mail[id].status != DeadLetter && id !in before.incidents
        then after.incidents == before.incidents[id := Incident(Unresolved, now)] else after.incidents == before.incidents)
    && after.subs == before.subs && after.watches == before.watches && after.classes == before.classes
  }

  lemma RowTransitions(j: Job, reason: TerminalReason, moment: int, now: int)
    ensures Sends(j, SentRow(j, moment, now), moment, now) && Requeues(j, RequeueRow(j, moment), moment)
    ensures Ends(j, CancelRow(j, reason, now), Cancelled, reason, now) && Ends(j, DeadLetterRow(j, reason, now), DeadLetter, reason, now)
  {
  }

  lemma ReplacesOnly(db: Db, id: JobId, row: Job, now: int)
    requires id in db.mail
    ensures row.status != DeadLetter ==> OnlyRow(db, db.(mail := db.mail[id := row]), id, now)
    ensures row.status == DeadLetter && db.mail[id].status != DeadLetter ==>
              OnlyRow(db, db.(mail := db.mail[id := row], incidents := OpenIncidents(db.incidents, {id}, now)), id, now)
  {
    if id !in db.incidents { assert OpenIncidents(db.incidents, {id}, now) == db.incidents[id := Incident(Unresolved, now)]; }
    else { assert OpenIncidents(db.incidents, {id}, now) == db.incidents; }
  }

  /** The provider's acceptance is recorded for the holder of the claim, and for nobody else. */
  lemma CompletionIsExact(db: Db, id: JobId, token: nat, acceptedAt: int, now: int)
    ensures var after := Complete(db, id, token, acceptedAt, now);
            if Holds(db.mail, id, token) then OnlyRow(db, after, id, now) && Sends(db.mail[id], after.mail[id], acceptedAt, now) else after == db
  {
    if Holds(db.mail, id, token) {
      RowTransitions(db.mail[id], SuppressedAddress, acceptedAt, now);
      ReplacesOnly(db, id, SentRow(db.mail[id], acceptedAt, now), now);
    }
  }

  /** A suppressed address cancels the holder's row. */
  lemma CancellationIsExact(db: Db, id: JobId, token: nat, now: int)
    ensures var after := CancelClaimed(db, id, token, now);
            if Holds(db.mail, id, token)
            then OnlyRow(db, after, id, now) && Ends(db.mail[id], after.mail[id], Cancelled, SuppressedAddress, now) else after == db
  {
    if Holds(db.mail, id, token) {
      RowTransitions(db.mail[id], SuppressedAddress, 0, now);
      ReplacesOnly(db, id, CancelRow(db.mail[id], SuppressedAddress, now), now);
    }
  }

  /** A permanent failure dead-letters it, with an incident. */
  lemma DeadLetteringIsExact(db: Db, id: JobId, token: nat, now: int)
    ensures var after := DeadLetterJob(db, id, token, now);
            if Holds(db.mail, id, token)
            then OnlyRow(db, after, id, now) && Ends(db.mail[id], after.mail[id], DeadLetter, PermanentFailure, now) else after == db
  {
    if Holds(db.mail, id, token) {
      RowTransitions(db.mail[id], PermanentFailure, 0, now);
      ReplacesOnly(db, id, DeadLetterRow(db.mail[id], PermanentFailure, now), now);
    }
  }

  /** What a deferral makes of the row. */
  predicate Postpones(before: Job, after: Job, availableAt: int, reading: int, now: int) {
    if InTime(before, availableAt) && InTime(before, reading) then Requeues(before, after, availableAt)
    else if before.kind == Alert then Ends(before, after, Cancelled, Expired, now)
    else Ends(before, after, DeadLetter, RetryHorizon, now)
  }

  /** The same, and the answer tells which. */
  predicate Defers(before: Job, after: Job, availableAt: int, reading: int, now: int, disposition: DeferDisposition) {
    && Postpones(before, after, availableAt, reading, now)
    && (disposition == Deferred <==> after.status == Queued) && (disposition == CancelledExpired <==> after.status == Cancelled)
    && (disposition == DeadLetteredRetryHorizon <==> after.status == DeadLetter)
  }

  /** The row is requeued if both the new moment and the reading are in time; else an alert expires and other mail is dead-lettered. */
  lemma DeferralIsExact(db: Db, id: JobId, token: nat, availableAt: int, reading: int, now: int)
    ensures var after, disposition := DeferJob(db, id, token, availableAt, reading, now), DeferOutcome(db.mail, id, token, availableAt, reading);
            if Holds(db.mail, id, token)
            then OnlyRow(db, after, id, now) && Defers(db.mail[id], after.mail[id], availableAt, reading, now, disposition)
            else after == db && disposition == ClaimFenceLost
  {
    if Holds(db.mail, id, token) {
      RowTransitions(db.mail[id], Expired, availableAt, now);
      RowTransitions(db.mail[id], RetryHorizon, availableAt, now);
      ReplacesOnly(db, id, RequeueRow(db.mail[id], availableAt), now);
      ReplacesOnly(db, id, CancelRow(db.mail[id], Expired, now), now);
      ReplacesOnly(db, id, DeadLetterRow(db.mail[id], RetryHorizon, now), now);
    }
  }

  // ----- the delay of a retry -----

  /**
   The first retry waits half a minute and each later one twice as long, up to the configured
   back-off, for twenty doublings; a rate limit's own delay is kept if it is a second or more.
   */
  lemma DelaysDouble(attempts: nat, maxBackoffSeconds: nat)
    requires maxBackoffSeconds >= 1
    ensures var cap := maxBackoffSeconds * 1000;
            && RetryDelay(Retryable, 1, maxBackoffSeconds) == (if cap <= 30_000 then cap else 30_000)
            && (1 <= attempts <= 20 ==>
                  RetryDelay(Retryable, attempts + 1, maxBackoffSeconds) ==
                  (if 2 * RetryDelay(Retryable, attempts, maxBackoffSeconds) <= cap then 2 * RetryDelay(Retryable, attempts, maxBackoffSeconds) else cap))
            && (attempts > 20 ==> RetryDelay(Retryable, attempts + 1, maxBackoffSeconds) == RetryDelay(Retryable, attempts, maxBackoffSeconds))
    ensures forall after :: RetryDelay(RateLimited(after), attempts, maxBackoffSeconds) ==
              if after.Some? && after.value >= 1000 then after.value else 1000
  {
    if 1 <= attempts <= 20 { assert Pow2(attempts) == 2 * Pow2(attempts - 1); }
  }

  // ----- new rows -----

  /** Queued for this kind, subscriber and class, due at once and never tried. */
  predicate IsFresh(j: Job, kind: Kind, subscriber: Option<nat>, classKey: Option<string>, now: int) {
    && (j.kind, j.subscriber, j.classKey, j.status, j.attempts, j.createdAt, j.availableAt) == (kind, subscriber, classKey, Queued, 0, now, now)
    && j.claimedAt.None? && j.claimToken.None? && j.sentAt.None? && j.terminalAt.None? && j.terminalReason.None?
  }

  lemma NewRowsAreFresh(s: nat, key: string, openedAt: int, reason: Reason, kind: Kind, now: int)
    ensures var alert := NewAlert(s, key, openedAt, reason, now);
            IsFresh(alert, Alert, Some(s), Some(key), now)
            && (alert.openedAt, alert.reason, alert.expiresAt) == (Some(openedAt), Some(reason), Some(openedAt + 3_600_000))
    ensures var disclosure := NewDisclosure(s, key, openedAt, now);
            IsFresh(disclosure, BlindWindow, Some(s), Some(key), now)
            && (disclosure.openedAt, disclosure.reason, disclosure.expiresAt) == (Some(openedAt), None, None)
    ensures var letter := NewJob(kind, Some(s), None, now);
            IsFresh(letter, kind, Some(s), None, now) && (letter.openedAt, letter.reason, letter.expiresAt) == (None, None, None)
  {
  }
}
