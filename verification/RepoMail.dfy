/**
 The mail outbox and its dead-letter incidents (src/db/repo.ts): claiming, settling, expiry,
 cancellation, retention.  Each function is the effect of one statement or transaction.
 */
module RepoMail {
  import opened RepoTables

  // ----- row transitions -----

  function CancelRow(j: Job, reason: TerminalReason, now: int): Job {
    j.(status := Cancelled, claimedAt := None, claimToken := None, terminalAt := Some(now), terminalReason := Some(reason))
  }

  function DeadLetterRow(j: Job, reason: TerminalReason, now: int): Job {
    j.(status := DeadLetter, claimedAt := None, claimToken := None, terminalAt := Some(now), terminalReason := Some(reason))
  }

  function ClaimRow(j: Job, token: nat, now: int): Job {
    j.(status := Processing, attempts := j.attempts + 1, claimedAt := Some(now), claimToken := Some(token))
  }

  function SentRow(j: Job, acceptedAt: int, now: int): Job {
    j.(status := Sent, claimedAt := None, claimToken := None, sentAt := Some(acceptedAt), terminalAt := Some(now))
  }

  function RequeueRow(j: Job, availableAt: int): Job {
    j.(status := Queued, claimedAt := None, claimToken := None, availableAt := availableAt)
  }

  function NewJob(kind: Kind, subscriber: Option<nat>, classKey: Option<string>, now: int): Job {
    Job(kind, subscriber, classKey, None, None, None, now, Queued, 0, now, None, None, None, None, None)
  }

  function NewAlert(s: nat, key: string, openedAt: int, reason: Reason, now: int): Job {
    NewJob(Alert, Some(s), Some(key), now)
      .(openedAt := Some(openedAt), reason := Some(reason), expiresAt := Some(openedAt + ALERT_EXPIRY_MS))
  }

  function NewDisclosure(s: nat, key: string, windowStart: int, now: int): Job {
    NewJob(BlindWindow, Some(s), Some(key), now).(openedAt := Some(windowStart))
  }

  // ----- statements over the table -----

  function CancelAll(mail: Mail, ids: set<JobId>, reason: TerminalReason, now: int): Mail {
    map id | id in mail :: if id in ids then CancelRow(mail[id], reason, now) else mail[id]
  }

  function DeadLetterAll(mail: Mail, ids: set<JobId>, reason: TerminalReason, now: int): Mail {
    map id | id in mail :: if id in ids then DeadLetterRow(mail[id], reason, now) else mail[id]
  }

  /** `openDeadLetterIncidents`: an existing incident of a job is left alone. */
  function OpenIncidents(incidents: Incidents, ids: set<JobId>, now: int): Incidents {
    incidents + (map id | id in ids && id !in incidents :: Incident(Unresolved, now))
  }

  function ExpiredAlerts(mail: Mail, now: int): set<JobId> {
    set id | id in mail && mail[id].kind.Alert? && Active(mail[id]) && mail[id].expiresAt.Some? && mail[id].expiresAt.value <= now
  }

  predicate LeaseOver(j: Job, lease: nat, now: int) {
    j.status.Processing? && j.claimedAt.Some? && j.claimedAt.value <= now - lease
  }

  function PastHorizon(mail: Mail, lease: nat, now: int): set<JobId> {
    set id | id in mail && !mail[id].kind.Alert? && mail[id].createdAt <= now - RETRY_HORIZON_MS
             && (mail[id].status.Queued? || LeaseOver(mail[id], lease, now))
  }

  /** A live watch of a Confirmed subscriber still justifies mail about the class. */
  predicate Justified(subs: Subscribers, watches: Watches, j: Job) {
    && j.subscriber.Some? && j.classKey.Some?
    && (j.subscriber.value, j.classKey.value) in watches
    && Live(watches[(j.subscriber.value, j.classKey.value)])
    && IsConfirmed(subs, j.subscriber.value)
  }

  function Unjustified(mail: Mail, subs: Subscribers, watches: Watches): set<JobId> {
    set id | id in mail && (mail[id].kind.Alert? || mail[id].kind.BlindWindow?) && Active(mail[id])
             && !Justified(subs, watches, mail[id])
  }

  predicate Claimable(j: Job, lease: nat, now: int) {
    (j.status.Queued? && j.availableAt <= now) || LeaseOver(j, lease, now)
  }

  function ClaimableIds(mail: Mail, lease: nat, now: int): set<JobId> {
    set id | id in mail && Claimable(mail[id], lease, now)
  }

  /** The housekeeping of `claimMailBatch` before it picks candidates. */
  function Housekeep(db: Db, lease: nat, now: int): Db {
    var unexpired := CancelAll(db.mail, ExpiredAlerts(db.mail, now), Expired, now);
    var past := PastHorizon(unexpired, lease, now);
    var within := DeadLetterAll(unexpired, past, RetryHorizon, now);
    db.(mail := CancelAll(within, Unjustified(within, db.subs, db.watches), Ineligible, now),
        incidents := OpenIncidents(db.incidents, past, now))
  }

  function Claimed(db: Db, chosen: set<JobId>, now: int): Db {
    db.(mail := map id | id in db.mail :: if id in chosen then ClaimRow(db.mail[id], db.nextToken, now) else db.mail[id],
        nextToken := db.nextToken + 1)
  }

  /** `claimMailBatch`, given the candidates it locked. */
  function ClaimBatch(db: Db, chosen: set<JobId>, lease: nat, now: int): Db {
    Claimed(Housekeep(db, lease, now), chosen, now)
  }

  /** The claim token still owns the row: the fence of every settlement. */
  predicate Owns(mail: Mail, id: JobId, token: nat) {
    id in mail && mail[id].status.Processing? && mail[id].claimToken == Some(token)
  }

  function Complete(db: Db, id: JobId, token: nat, acceptedAt: int, now: int): Db {
    if Owns(db.mail, id, token) then db.(mail := db.mail[id := SentRow(db.mail[id], acceptedAt, now)]) else db
  }

  function CancelClaimed(db: Db, id: JobId, token: nat, now: int): Db {
    if Owns(db.mail, id, token) then db.(mail := db.mail[id := CancelRow(db.mail[id], SuppressedAddress, now)]) else db
  }

  /** Why a provider call is tried again: a rate limit, with its delay if it gave a usable one, or anything else. */
  datatype Failure = RateLimited(retryAfterMs: Option<int>) | Retryable

  function Pow2(n: nat): (r: nat)
    ensures r >= 1
  {
    if n == 0 then 1 else 2 * Pow2(n - 1)
  }

  /** The delay `settleMailJob` asks for; the longest back-off is configured in whole seconds. */
  function RetryDelay(failure: Failure, attempts: nat, maxBackoffSeconds: nat): (delay: int)
    requires maxBackoffSeconds >= 1
    ensures delay >= 1000
    ensures failure.Retryable? ==> delay <= maxBackoffSeconds * 1000
  {
    match failure
    case RateLimited(after) => if after.Some? && after.value >= 1000 then after.value else 1000
    case Retryable =>
      var doublings := if attempts <= 1 then 0 else if attempts - 1 <= 20 then attempts - 1 else 20;
      var grown := RETRY_BASE_MS * Pow2(doublings);
      if grown <= maxBackoffSeconds * 1000 then grown else maxBackoffSeconds * 1000
  }

  function RetryDeadline(j: Job): int {
    if j.kind.Alert? && j.expiresAt.Some? then j.expiresAt.value else j.createdAt + RETRY_HORIZON_MS
  }

  datatype DeferDisposition = Deferred | CancelledExpired | DeadLetteredRetryHorizon | ClaimFenceLost

  /** `reading` is the worker's clock. */
  function DeferOutcome(mail: Mail, id: JobId, token: nat, availableAt: int, reading: int): DeferDisposition {
    if !Owns(mail, id, token) then ClaimFenceLost
    else if availableAt < RetryDeadline(mail[id]) && reading < RetryDeadline(mail[id]) then Deferred
    else if mail[id].kind.Alert? then CancelledExpired
    else DeadLetteredRetryHorizon
  }

  function DeferJob(db: Db, id: JobId, token: nat, availableAt: int, reading: int, now: int): Db {
    match DeferOutcome(db.mail, id, token, availableAt, reading)
    case ClaimFenceLost => db
    case Deferred => db.(mail := db.mail[id := RequeueRow(db.mail[id], availableAt)])
    case CancelledExpired => db.(mail := db.mail[id := CancelRow(db.mail[id], Expired, now)])
    case DeadLetteredRetryHorizon =>
      db.(mail := db.mail[id := DeadLetterRow(db.mail[id], RetryHorizon, now)], incidents := OpenIncidents(db.incidents, {id}, now))
  }

  function DeadLetterJob(db: Db, id: JobId, token: nat, now: int): Db {
    if Owns(db.mail, id, token) then
      db.(mail := db.mail[id := DeadLetterRow(db.mail[id], PermanentFailure, now)], incidents := OpenIncidents(db.incidents, {id}, now))
    else db
  }

  function Acknowledge(db: Db, id: JobId): Db {
    if id in db.incidents && db.incidents[id].state.Unresolved?
    then db.(incidents := db.incidents[id := db.incidents[id].(state := Acknowledged)]) else db
  }

  function Resolve(db: Db, id: JobId): Db {
    if id in db.incidents && !db.incidents[id].state.Resolved?
    then db.(incidents := db.incidents[id := db.incidents[id].(state := Resolved)]) else db
  }

  /** The alerts a class state closes: those whose reason is no longer open. */
  function ClosedAlerts(mail: Mail, key: string, row: ClassRow): set<JobId> {
    set id | id in mail && mail[id].kind.Alert? && mail[id].classKey == Some(key) && Active(mail[id])
             && mail[id].reason.Some? && !ReasonOpen(row, mail[id].reason.value)
  }

  /** The active mail of the given kinds about a class, of one subscriber or of all. */
  function ActiveAbout(mail: Mail, kinds: set<Kind>, subscriber: Option<nat>, key: string): set<JobId> {
    set id | id in mail && mail[id].kind in kinds && mail[id].classKey == Some(key) && Active(mail[id])
             && (subscriber.Some? ==> mail[id].subscriber == subscriber)
  }

  // ----- deleting rows -----

  predicate Protected(incidents: Incidents, id: JobId) {
    id in incidents && !incidents[id].state.Resolved?
  }

  /** `detachProtectedDeadLettersForSubscriber`, for any set of subscribers about to go. */
  function Detach(mail: Mail, incidents: Incidents, gone: set<nat>): Mail {
    map id | id in mail ::
      if mail[id].status.DeadLetter? && mail[id].subscriber.Some? && mail[id].subscriber.value in gone && Protected(incidents, id)
      then mail[id].(subscriber := None) else mail[id]
  }

  /** Detaching, then the foreign-key cascade of deleting the subscribers. */
  function DeleteSubscribers(db: Db, gone: set<nat>): Db {
    var detached := Detach(db.mail, db.incidents, gone);
    var mail := map id | id in detached && !(detached[id].subscriber.Some? && detached[id].subscriber.value in gone) :: detached[id];
    db.(subs := map s | s in db.subs && s !in gone :: db.subs[s],
        watches := map k: WatchKey | k in db.watches && k.0 !in gone :: db.watches[k],
        mail := mail,
        incidents := map id | id in db.incidents && id in mail :: db.incidents[id])
  }

  function OverdueMail(mail: Mail, incidents: Incidents, cutoff: int): set<JobId> {
    set id | id in mail && !Active(mail[id]) && mail[id].terminalAt.Some? && mail[id].terminalAt.value <= cutoff
             && !Protected(incidents, id)
  }

  function DeleteMail(db: Db, ids: set<JobId>): Db {
    db.(mail := map id | id in db.mail && id !in ids :: db.mail[id],
        incidents := map id | id in db.incidents && id in db.mail && id !in ids :: db.incidents[id])
  }

  // ----- what every statement keeps of a row -----

  /** A row may go from one version to the other: terminal rows never change but for a detachment. */
  predicate RowStep(before: Job, after: Job) {
    && after.kind == before.kind && after.classKey == before.classKey && after.openedAt == before.openedAt
    && after.reason == before.reason && after.expiresAt == before.expiresAt && after.createdAt == before.createdAt
    && (after.subscriber == before.subscriber || (after.status.DeadLetter? && after.subscriber.None?))
    && (!Active(before) ==> after == before || (before.status.DeadLetter? && after == before.(subscriber := None)))
  }
}
