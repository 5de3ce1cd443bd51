/**
 Class states (src/db/repo.ts) and what the worker does with an observation (src/worker/v04.ts):
 the upsert, the two steps of an opening commit, blind-window disclosures.
 */
module RepoState {
  import opened RepoTables
  import opened RepoMail

  /** What a successful read says of a class. */
  datatype Seen = Seen(openSeats: nat, waitlistOpen: bool, freshUntil: int)

  function RowFor(seen: Seen, version: nat, order: nat, now: int): ClassRow {
    ClassRow(seen.openSeats, seen.waitlistOpen, version, order, seen.freshUntil, now)
  }

  /** Writes a class row with the next value of the sequence and cancels the alerts it closes. */
  function WriteRow(db: Db, key: string, seen: Seen, version: nat, alerted: Option<Reason>, now: int): Db {
    var row := RowFor(seen, version, |db.history| + 1, now);
    db.(classes := db.classes[key := row],
        history := db.history + [Observed(key, row, alerted)],
        mail := CancelAll(db.mail, ClosedAlerts(db.mail, key, row), OpeningClosed, now))
  }

  function NextVersion(db: Db, key: string): nat { if key in db.classes then db.classes[key].version + 1 else 0 }

  function Upsert(db: Db, key: string, seen: Seen, now: int): Db {
    WriteRow(db, key, seen, NextVersion(db, key), None, now)
  }

  // ----- an opening: select, then compare and set -----

  /** The row an opening was decided on is still the current one. */
  predicate AtVersion(db: Db, key: string, version: nat) { key in db.classes && db.classes[key].version == version }

  predicate IsTarget(db: Db, k: WatchKey, key: string, version: nat) {
    && k in db.watches && k.1 == key && Live(db.watches[k])
    && db.watches[k].activatedAt.Some? && db.watches[k].activationOrder.Some?
    && IsConfirmed(db.subs, k.0)
    && AtVersion(db, key, version) && db.watches[k].activationOrder.value <= db.classes[key].observedOrder
  }

  function Targets(db: Db, key: string, version: nat): set<nat> {
    set k | k in db.watches && IsTarget(db, k, key, version) :: k.0
  }

  /** A row of this kind, subscriber, class and opening exists: the logical unique indexes. */
  predicate Filed(mail: Mail, kind: Kind, s: nat, key: string, openedAt: int) {
    exists id | id in mail :: mail[id].kind == kind && mail[id].subscriber == Some(s) && mail[id].classKey == Some(key)
                              && mail[id].openedAt == Some(openedAt)
  }

  function Recipients(mail: Mail, targets: set<nat>, key: string, openedAt: int): set<nat> {
    set s | s in targets && !Filed(mail, Alert, s, key, openedAt)
  }

  function Alerts(recipients: set<nat>, key: string, openedAt: int, reason: Reason, serial: nat, now: int): Mail {
    map s | s in recipients :: JobId(serial, s, key) := NewAlert(s, key, openedAt, reason, now)
  }

  /** The second half of `commitOpeningAndEnqueueMail`; a lost compare-and-set changes nothing. */
  function Swap(db: Db, key: string, version: nat, targets: set<nat>, seen: Seen, reason: Reason, openedAt: int, now: int): Db {
    if !AtVersion(db, key, version) then db
    else
      var written := WriteRow(db, key, seen, version + 1, Some(reason), now);
      written.(mail := written.mail + Alerts(Recipients(written.mail, targets, key, openedAt), key, openedAt, reason, db.nextSerial, now),
               nextSerial := db.nextSerial + 1)
  }

  // ----- the worker's decision -----

  datatype Observation = NotModified(freshUntil: int) | ClassGone | ParserBroke | Parsed(seen: Seen, fetchedAt: int)

  datatype Action =
    | Reject
    | Retire
    | Report
    | Persist(seen: Seen)
    | Open(version: nat, reason: Reason, seen: Seen, openedAt: int)

  function Max(a: int, b: int): int { if a >= b then a else b }

  /**
   `handleObservation`: `trusted` says that the schedule accepts a 304 for the class and
   `processFresh` is the freshness deadline it remembers, 0 if none.
   */
  function Decide(previous: Option<ClassRow>, observation: Observation, trusted: bool, processFresh: int): Action {
    match observation
    case NotModified(freshUntil) =>
      if previous.None? || !trusted then Reject
      else Persist(Seen(previous.value.openSeats, previous.value.waitlistOpen, freshUntil))
    case ClassGone => Retire
    case ParserBroke => Report
    case Parsed(seen, fetchedAt) =>
      if previous.None? || Max(previous.value.freshUntil, processFresh) < fetchedAt then Persist(seen)
      else if previous.value.openSeats == 0 && seen.openSeats > 0 then Open(previous.value.version, SeatsOpen, seen, fetchedAt)
      else if !previous.value.waitlistOpen && seen.waitlistOpen then Open(previous.value.version, WaitlistOpen, seen, fetchedAt)
      else Persist(seen)
  }

  // ----- blind windows -----

  /** The start of the window in which a subscriber relied on a class nobody read. */
  function WindowStart(db: Db, key: string, activatedAt: int): int {
    if key in db.classes then Max(db.classes[key].updatedAt, activatedAt) else activatedAt
  }

  predicate Blind(db: Db, k: WatchKey, windowMs: int, now: int) {
    && k in db.watches && Live(db.watches[k]) && db.watches[k].activatedAt.Some? && IsConfirmed(db.subs, k.0)
    && WindowStart(db, k.1, db.watches[k].activatedAt.value) <= now - windowMs
    && (k.1 in db.classes ==> db.classes[k.1].freshUntil <= now)
    && !Filed(db.mail, BlindWindow, k.0, k.1, WindowStart(db, k.1, db.watches[k].activatedAt.value))
  }

  /** Where the window of every active watch of a Confirmed subscriber begins. */
  function Starts(db: Db): map<WatchKey, int> {
    map k | k in db.watches && Live(db.watches[k]) && db.watches[k].activatedAt.Some? && IsConfirmed(db.subs, k.0) ::
      WindowStart(db, k.1, db.watches[k].activatedAt.value)
  }

  function BlindWatches(db: Db, windowMs: int, at: int): set<WatchKey> { set k | k in db.watches && Blind(db, k, windowMs, at) }

  function DisclosureRows(serial: nat, blind: set<WatchKey>, starts: map<WatchKey, int>, now: int): Mail {
    map k | k in blind && k in starts :: JobId(serial, k.0, k.1) := NewDisclosure(k.0, k.1, starts[k], now)
  }

  function Disclosures(db: Db, windowMs: int, at: int, now: int): Mail {
    DisclosureRows(db.nextSerial, BlindWatches(db, windowMs, at), Starts(db), now)
  }

  /** `enqueueBlindWindowDisclosures`: `at` is the worker's reading, `now` the database's. */
  function Disclose(db: Db, windowMs: int, at: int, now: int): Db {
    db.(mail := db.mail + Disclosures(db, windowMs, at, now), nextSerial := db.nextSerial + 1)
  }
}
