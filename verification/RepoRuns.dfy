/**
 Whole runs of the repository: any interleaving of its transactions with the observers that read
 a class, fetch, and later commit what they saw.

 An opening commit takes two steps under a SHARE lock on the watches, so that two observers can be
 between them at once; the transactions that change watches exclude every holder of that lock.
 */
module RepoRuns {
  import opened RepoTables
  import opened RepoMail
  import opened RepoWatches
  import opened RepoState

  /**
   What a worker process is in the middle of: it holds what it read of a class, and when; or it has
   selected the targets of an opening decided on `base`, and found this row when it did.
   */
  datatype Observer =
    | Holding(key: string, previous: Option<ClassRow>, readAt: int)
    | Selected(key: string, base: ClassRow, readAt: int, found: Option<ClassRow>, targets: set<nat>,
               seen: Seen, reason: Reason, openedAt: int)

  type Observers = map<nat, Observer>

  datatype World = World(db: Db, observers: Observers, clock: int)

  datatype Op =
    | Read(o: nat, key: string)
    | Observe(o: nat, observation: Observation, trusted: bool, processFresh: int, cutoff: nat)
    | Commit(o: nat)
    | Abandon(o: nat)
    | CreateOp(email: string, keys: set<string>, maxSubscribers: Option<nat>, suppressed: bool)
    | ConfirmOp(s: nat, staged: seq<string>)
    | AddOp(s: nat, key: string)
    | RemoveOp(s: nat, key: string)
    | DeleteOp(s: nat)
    | SweepOp(at: int)
    | CutoffOp
    | LoseOp
    | DiscloseOp(windowMs: int, at: int)
    | SubscriberMailOp(s: nat, kind: Kind)
    | OperatorMailOp(about: Option<string>)
    | ExpireOp
    | HorizonOp(lease: nat)
    | CancelOpenOp(key: string, only: Option<Reason>)
    | ClaimOp(chosen: set<JobId>, lease: nat)
    | CompleteOp(id: JobId, token: nat, acceptedAt: int)
    | CancelClaimedOp(id: JobId, token: nat)
    | DeferOp(id: JobId, token: nat, reading: int, failure: Failure)
    | DeadLetterOp(id: JobId, token: nat)
    | AcknowledgeOp(id: JobId)
    | ResolveOp(id: JobId)

  /** A transaction at the database's reading `now`. */
  datatype Step = Step(now: int, op: Op)

  /** The configured ceiling on Sections and the longest retry back-off. */
  datatype Config = Config(ceiling: nat, maxBackoffSeconds: nat)

  function Lookup(classes: map<string, ClassRow>, key: string): Option<ClassRow> {
    if key in classes then Some(classes[key]) else None
  }

  function ActionOf(w: World, op: Op): Action
    requires op.Observe? && op.o in w.observers && w.observers[op.o].Holding?
  {
    Decide(w.observers[op.o].previous, op.observation, op.trusted, op.processFresh)
  }

  /** The worker reads the attempts with the claim, and they do not change while the claim lasts. */
  function NextAttempt(db: Db, op: Op, config: Config): int
    requires op.DeferOp? && config.maxBackoffSeconds >= 1
  {
    op.reading + RetryDelay(op.failure, if op.id in db.mail then db.mail[op.id].attempts else 0, config.maxBackoffSeconds)
  }

  function OperatorRow(serial: nat, about: Option<string>, now: int): Mail {
    map[JobId(serial, 0, "") := NewJob(OperatorMail, None, about, now)]
  }

  /** `cancelOpenAlertMail`: the active alerts about a class, for one reason or for any. */
  function OpenAlerts(mail: Mail, key: string, only: Option<Reason>): set<JobId> {
    set id | id in mail && mail[id].kind.Alert? && mail[id].classKey == Some(key) && Active(mail[id])
             && (only.Some? ==> mail[id].reason == only)
  }

  /** `expireMailOutboxRetryHorizon` */
  function EndHorizon(db: Db, lease: nat, now: int): Db {
    var past := PastHorizon(db.mail, lease, now);
    db.(mail := DeadLetterAll(db.mail, past, RetryHorizon, now), incidents := OpenIncidents(db.incidents, past, now))
  }

  // ----- when a step can happen -----

  ghost predicate Unlocked(w: World) { forall o | o in w.observers :: !w.observers[o].Selected? }

  /** The transactions that lock the watches against observers. */
  predicate Exclusive(w: World, op: Op) {
    || op.CreateOp? || op.ConfirmOp? || op.AddOp? || op.RemoveOp? || op.DeleteOp? || op.SweepOp?
    || (op.Observe? && op.o in w.observers && w.observers[op.o].Holding? && ActionOf(w, op).Retire?)
  }

  ghost predicate Enabled(w: World, step: Step) {
    && (Exclusive(w, step.op) ==> Unlocked(w))
    && match step.op
       case Observe(o, _, _, _, _) => o in w.observers && w.observers[o].Holding?
       case Commit(o) => o in w.observers && w.observers[o].Selected?
       case ConfirmOp(s, staged) => IsStaged(w.db.watches, s, staged)
       case SubscriberMailOp(s, kind) => s in w.db.subs && (kind.Confirmation? || kind.ManageLink?)
       case ClaimOp(chosen, lease) => chosen <= ClaimableIds(Housekeep(w.db, lease, step.now).mail, lease, step.now)
       case _ => true
  }

  /** The class rows a step removes. */
  predicate Purges(w: World, step: Step, key: string) {
    step.op.SweepOp? && key in w.db.classes && key !in Sweep(w.db, step.op.at, step.now).classes
  }

  // ----- what some theorems assume of a step -----

  /**
   For the pace of retries: one non-decreasing clock, leases of a second or more, and a worker that
   never reads its clock behind the claim it settles.
   */
  predicate Timed(w: World, step: Step) {
    && w.clock <= step.now
    && (step.op.ClaimOp? ==> step.op.lease >= RETRY_GAP_MS)
    && (step.op.DeferOp? && Owns(w.db.mail, step.op.id, step.op.token) && w.db.mail[step.op.id].claimedAt.Some? ==>
          w.db.mail[step.op.id].claimedAt.value <= step.op.reading)
  }

  function HeldRow(x: Observer): Option<ClassRow> { if x.Holding? then x.previous else Some(x.base) }

  /** The step purges the class of a row that the observer holds. */
  predicate TakesHeld(w: World, step: Step, o: nat) {
    o in w.observers && HeldRow(w.observers[o]).Some? && Purges(w, step, w.observers[o].key)
  }

  /** No purge of a class whose row an observer holds. */
  ghost predicate SparesHeld(w: World, step: Step) { forall o | o in w.observers :: !TakesHeld(w, step, o) }

  /** One non-decreasing clock, no sweep ahead of it, and no reading held as long as the retention. */
  ghost predicate Prompt(w: World, step: Step) {
    && w.clock <= step.now && (step.op.SweepOp? ==> step.op.at <= step.now)
    && (forall o | o in w.observers && HeldRow(w.observers[o]).Some? :: step.now < w.observers[o].readAt + TERMINAL_RETENTION_MS)
  }

  // ----- the step -----

  function Forget(observers: Observers, o: nat): Observers { map p | p in observers && p != o :: observers[p] }

  /** The part of an observation that touches the tables. */
  function ObserveDb(db: Db, key: string, action: Action, cutoff: nat, now: int): Db {
    match action
    case Persist(seen) => Upsert(db, key, seen, now)
    case Retire => RetireClass(db, key, Some(cutoff), now)
    case _ => db
  }

  function ObserveNext(db: Db, observer: Observer, action: Action): Option<Observer>
    requires observer.Holding? && (action.Open? ==> observer.previous.Some?)
  {
    if action.Open?
    then Some(Selected(observer.key, observer.previous.value, observer.readAt, Lookup(db.classes, observer.key),
                       Targets(db, observer.key, action.version), action.seen, action.reason, action.openedAt))
    else None
  }

  ghost function NextDb(w: World, step: Step, config: Config): Db
    requires Enabled(w, step) && config.maxBackoffSeconds >= 1
  {
    var db, now := w.db, step.now;
    match step.op
    case Observe(o, _, _, _, cutoff) => ObserveDb(db, w.observers[o].key, ActionOf(w, step.op), cutoff, now)
    case Commit(o) =>
      var x := w.observers[o];
      Swap(db, x.key, x.base.version, x.targets, x.seen, x.reason, x.openedAt, now)
    case CreateOp(email, keys, maxSubscribers, suppressed) => Create(db, email, keys, maxSubscribers, suppressed, now)
    case ConfirmOp(s, staged) => Confirm(db, s, staged, Some(config.ceiling), now)
    case AddOp(s, key) => Add(db, s, key, Some(config.ceiling), now)
    case RemoveOp(s, key) => Remove(db, s, key, now)
    case DeleteOp(s) => DeleteSubscribers(db, {s})
    case SweepOp(at) => Sweep(db, at, now)
    case CutoffOp => TakeCutoff(db)
    case LoseOp => db.(history := db.history + [Lost])
    case DiscloseOp(windowMs, at) => Disclose(db, windowMs, at, now)
    case SubscriberMailOp(s, kind) => Enqueue(db, MailFor(kind, s, db.nextSerial, now))
    case OperatorMailOp(about) => Enqueue(db, OperatorRow(db.nextSerial, about, now))
    case ExpireOp => db.(mail := CancelAll(db.mail, ExpiredAlerts(db.mail, now), Expired, now))
    case HorizonOp(lease) => EndHorizon(db, lease, now)
    case CancelOpenOp(key, only) => db.(mail := CancelAll(db.mail, OpenAlerts(db.mail, key, only), OpeningClosed, now))
    case ClaimOp(chosen, lease) => ClaimBatch(db, chosen, lease, now)
    case CompleteOp(id, token, acceptedAt) => Complete(db, id, token, acceptedAt, now)
    case CancelClaimedOp(id, token) => CancelClaimed(db, id, token, now)
    case DeferOp(id, token, reading, _) => DeferJob(db, id, token, NextAttempt(db, step.op, config), reading, now)
    case DeadLetterOp(id, token) => DeadLetterJob(db, id, token, now)
    case AcknowledgeOp(id) => Acknowledge(db, id)
    case ResolveOp(id) => Resolve(db, id)
    case _ => db
  }

  ghost function NextObservers(w: World, step: Step): Observers
    requires Enabled(w, step)
  {
    match step.op
    case Read(o, key) => w.observers[o := Holding(key, Lookup(w.db.classes, key), step.now)]
    case Observe(o, _, _, _, _) =>
      var next := ObserveNext(w.db, w.observers[o], ActionOf(w, step.op));
      if next.Some? then w.observers[o := next.value] else Forget(w.observers, o)
    case Commit(o) => Forget(w.observers, o)
    case Abandon(o) => Forget(w.observers, o)
    case _ => w.observers
  }

  ghost function Next(w: World, step: Step, config: Config): World
    requires Enabled(w, step) && config.maxBackoffSeconds >= 1
  {
    World(NextDb(w, step, config), NextObservers(w, step), step.now)
  }
}
