/**
 The tables of the repository (src/db/schema.ts) as values.  Times are integer milliseconds.

 Keys carry the unique constraints: one watch per subscriber and class, one state per class, one
 incident per mail job.
 */
module RepoTables {

  datatype Option<T> = None | Some(value: T)

  const MAX_WATCHES := 4
  const HOUR_MS := 3_600_000
  const ALERT_EXPIRY_MS := HOUR_MS
  const RETRY_HORIZON_MS := 23 * HOUR_MS
  const RETRY_BASE_MS := 30_000
  /** Consecutive claims of one row are at least this far apart. */
  const RETRY_GAP_MS := 1000
  const PENDING_RETENTION_MS := 72 * HOUR_MS
  const TERMINAL_RETENTION_MS := 90 * 24 * HOUR_MS

  datatype Subscriber = Subscriber(email: string, confirmedAt: Option<int>, createdAt: int)

  /** Live while retiredAt is None. */
  datatype Watch = Watch(
    createdAt: int, retiredAt: Option<int>, activatedAt: Option<int>, activationOrder: Option<nat>)

  type WatchKey = (nat, string)

  datatype ClassRow = ClassRow(
    openSeats: nat, waitlistOpen: bool, version: nat, observedOrder: nat, freshUntil: int, updatedAt: int)

  datatype Kind = Alert | Confirmation | ManageLink | OperatorMail | BlindWindow

  datatype Reason = SeatsOpen | WaitlistOpen

  datatype Status = Queued | Processing | Sent | Cancelled | DeadLetter

  datatype TerminalReason = OpeningClosed | Expired | PermanentFailure | RetryHorizon | Ineligible | SuppressedAddress

  datatype Job = Job(
    kind: Kind, subscriber: Option<nat>, classKey: Option<string>, openedAt: Option<int>, reason: Option<Reason>,
    expiresAt: Option<int>, createdAt: int, status: Status, attempts: nat, availableAt: int,
    claimedAt: Option<int>, claimToken: Option<nat>, sentAt: Option<int>, terminalAt: Option<int>,
    terminalReason: Option<TerminalReason>)

  /** A random identifier: `serial` is fresh per transaction, the rest tells its rows apart. */
  datatype JobId = JobId(serial: nat, subscriber: nat, key: string)

  datatype IncidentState = Unresolved | Acknowledged | Resolved

  datatype Incident = Incident(state: IncidentState, openedAt: int)

  /** What one value of the visibility sequence was drawn for; a rolled back transaction loses its value. */
  datatype Entry =
    | Activated(subscriber: nat, key: string)
    | Observed(key: string, row: ClassRow, alerted: Option<Reason>)
    | Cutoff
    | Lost

  type Mail = map<JobId, Job>
  type Incidents = map<JobId, Incident>
  type Watches = map<WatchKey, Watch>
  type Subscribers = map<nat, Subscriber>

  /** The visibility sequence's last value is |history|; serials and tokens below theirs are used. */
  datatype Db = Db(
    subs: Subscribers, watches: Watches, classes: map<string, ClassRow>, mail: Mail, incidents: Incidents,
    history: seq<Entry>, nextSubscriber: nat, nextSerial: nat, nextToken: nat)

  predicate Live(w: Watch) { w.retiredAt.None? }

  predicate IsConfirmed(subs: Subscribers, s: nat) { s in subs && subs[s].confirmedAt.Some? }

  predicate Active(j: Job) { j.status.Queued? || j.status.Processing? }

  predicate ReasonOpen(row: ClassRow, reason: Reason) {
    if reason.SeatsOpen? then row.openSeats > 0 else row.waitlistOpen
  }

  // ----- the CHECK constraints -----

  /** `mail_outbox_claim_consistent` */
  predicate ClaimConsistent(j: Job) {
    match j.status
    case Queued => j.claimedAt.None? && j.claimToken.None? && j.sentAt.None? && j.terminalAt.None? && j.terminalReason.None?
    case Processing => j.claimedAt.Some? && j.claimToken.Some? && j.sentAt.None? && j.terminalAt.None? && j.terminalReason.None?
    case Sent => j.claimedAt.None? && j.claimToken.None? && j.sentAt.Some? && j.terminalAt.Some? && j.terminalReason.None?
    case _ => j.claimedAt.None? && j.claimToken.None? && j.sentAt.None? && j.terminalAt.Some? && j.terminalReason.Some?
  }

  /** `mail_outbox_shape_valid` */
  predicate ShapeValid(j: Job) {
    && (j.kind.OperatorMail? ==> j.subscriber.None?)
    && (!j.kind.OperatorMail? ==> j.subscriber.Some? || j.status.DeadLetter?)
    && (j.kind.Alert? || j.kind.BlindWindow? ==> j.classKey.Some? && j.openedAt.Some?)
    && (j.kind.Confirmation? || j.kind.ManageLink? ==> j.classKey.None?)
    && (!j.kind.Alert? && !j.kind.BlindWindow? ==> j.openedAt.None?)
    && (if j.kind.Alert? then j.reason.Some? && j.openedAt.Some? && j.expiresAt == Some(j.openedAt.value + ALERT_EXPIRY_MS)
        else j.reason.None? && j.expiresAt.None?)
  }

  /** `watches_activation_consistent` */
  predicate ActivationConsistent(w: Watch) {
    (w.activatedAt.None? && w.activationOrder.None?) || (w.activatedAt.Some? && w.activationOrder.Some? && w.activationOrder.value > 0)
  }
}
