/**
 Subscribers and their watches (src/db/repo.ts): registration, confirmation, adding, removing,
 class-gone retirement and the retention sweep, each as the effect of its transaction.
 */
module RepoWatches {
  import opened RepoTables
  import opened RepoMail

  // ----- demand -----

  /** A watch that counts towards the source ceiling. */
  predicate Counted(db: Db, k: WatchKey) {
    k in db.watches && Live(db.watches[k]) && db.watches[k].activatedAt.Some? && db.watches[k].activationOrder.Some?
    && IsConfirmed(db.subs, k.0)
  }

  function Sections(db: Db): set<string> { set k | k in db.watches && Counted(db, k) :: k.1 }

  function LiveKeys(watches: Watches, s: nat): set<string> { set k | k in watches && k.0 == s && Live(watches[k]) :: k.1 }

  /** `assertUniqueSectionCapacity` lets the keys in. */
  predicate HasCapacity(db: Db, keys: set<string>, ceiling: Option<nat>) {
    ceiling.None? || keys == {} || |Sections(db)| + (|keys| - |Sections(db) * keys|) <= ceiling.value
  }

  // ----- registration -----

  datatype CreateResult = Created(subscriber: nat) | TooManyWatches | SubscribersFull | DuplicateSubscriber

  predicate EmailTaken(subs: Subscribers, email: string) { exists s | s in subs :: subs[s].email == email }

  function CreateOutcome(db: Db, email: string, keys: set<string>, maxSubscribers: Option<nat>): CreateResult {
    if |keys| > MAX_WATCHES then TooManyWatches
    else if maxSubscribers.Some? && |db.subs| >= maxSubscribers.value then SubscribersFull
    else if EmailTaken(db.subs, email) then DuplicateSubscriber
    else Created(db.nextSubscriber)
  }

  function StagedRow(now: int): Watch { Watch(now, None, None, None) }

  function StagedRows(s: nat, keys: set<string>, now: int): Watches { map key | key in keys :: (s, key) := StagedRow(now) }

  /** Subscriber mail without a class: a confirmation or a manage link. */
  function MailFor(kind: Kind, s: nat, serial: nat, now: int): Mail {
    map[JobId(serial, s, "") := NewJob(kind, Some(s), None, now)]
  }

  function Enqueue(db: Db, added: Mail): Db { db.(mail := db.mail + added, nextSerial := db.nextSerial + 1) }

  function Create(db: Db, email: string, keys: set<string>, maxSubscribers: Option<nat>, suppressed: bool, now: int): Db {
    match CreateOutcome(db, email, keys, maxSubscribers)
    case Created(s) =>
      Enqueue(db.(subs := db.subs[s := Subscriber(email, None, now)],
                  watches := db.watches + StagedRows(s, keys, now),
                  nextSubscriber := s + 1),
              if suppressed then map[] else MailFor(Confirmation, s, db.nextSerial, now))
    case _ => db
  }

  // ----- activation -----

  function Activate(w: Watch, order: nat, now: int): Watch { w.(activatedAt := Some(now), activationOrder := Some(order)) }

  /** The activation loop: the keys of one subscriber in order, with the next values of the sequence. */
  function ActivateAll(watches: Watches, s: nat, keys: seq<string>, order: nat, now: int): Watches {
    if keys == [] then watches
    else
      var last := |keys| - 1;
      var before := ActivateAll(watches, s, keys[..last], order, now);
      if (s, keys[last]) in before then before[(s, keys[last]) := Activate(before[(s, keys[last])], order + |keys|, now)] else before
  }

  function Activations(s: nat, keys: seq<string>): (r: seq<Entry>)
    ensures |r| == |keys|
  {
    if keys == [] then [] else Activations(s, keys[..|keys| - 1]) + [Activated(s, keys[|keys| - 1])]
  }

  /** The staged watches in stable creation order; rows created together come in either order. */
  ghost predicate IsStaged(watches: Watches, s: nat, staged: seq<string>) {
    && (forall key :: key in staged <==> (s, key) in watches && Live(watches[(s, key)]))
    && (forall i, j | 0 <= i < j < |staged| :: staged[i] != staged[j])
    && (forall i, j | 0 <= i < j < |staged| && (s, staged[i]) in watches && (s, staged[j]) in watches ::
          watches[(s, staged[i])].createdAt <= watches[(s, staged[j])].createdAt)
  }

  datatype ConfirmResult = Confirmed | AlreadyConfirmed | CapacityExceeded | NoSubscriber

  function ConfirmOutcome(db: Db, s: nat, staged: seq<string>, ceiling: Option<nat>): ConfirmResult {
    if s !in db.subs then NoSubscriber
    else if db.subs[s].confirmedAt.Some? then AlreadyConfirmed
    else if !HasCapacity(db, (set key | key in staged), ceiling) then CapacityExceeded
    else Confirmed
  }

  function Confirm(db: Db, s: nat, staged: seq<string>, ceiling: Option<nat>, now: int): Db {
    if ConfirmOutcome(db, s, staged, ceiling).Confirmed? then
      db.(subs := db.subs[s := db.subs[s].(confirmedAt := Some(now))],
          watches := ActivateAll(db.watches, s, staged, |db.history|, now),
          history := db.history + Activations(s, staged))
    else db
  }

  datatype AddResult = Added | SubscriberNotFound | DuplicateWatch | WatchLimit | SectionCapacity

  function AddOutcome(db: Db, s: nat, key: string, ceiling: Option<nat>): AddResult {
    if s !in db.subs then SubscriberNotFound
    else if (s, key) in db.watches && Live(db.watches[(s, key)]) then DuplicateWatch
    else if |LiveKeys(db.watches, s)| >= MAX_WATCHES then WatchLimit
    else if db.subs[s].confirmedAt.Some? && !HasCapacity(db, {key}, ceiling) then SectionCapacity
    else Added
  }

  /** A retired row is revived, keeping its creation time; otherwise a row is inserted. */
  function AddedWatch(db: Db, s: nat, key: string, now: int): Watch {
    var staged := StagedRow(if (s, key) in db.watches then db.watches[(s, key)].createdAt else now);
    if IsConfirmed(db.subs, s) then Activate(staged, |db.history| + 1, now) else staged
  }

  function Add(db: Db, s: nat, key: string, ceiling: Option<nat>, now: int): Db {
    if AddOutcome(db, s, key, ceiling).Added?
    then db.(watches := db.watches[(s, key) := AddedWatch(db, s, key, now)],
             history := if IsConfirmed(db.subs, s) then db.history + [Activated(s, key)] else db.history)
    else db
  }

  // ----- removal -----

  function Remove(db: Db, s: nat, key: string, now: int): Db {
    db.(watches := map k | k in db.watches && k != (s, key) :: db.watches[k],
        mail := CancelAll(db.mail, ActiveAbout(db.mail, {Alert}, Some(s), key), Ineligible, now))
  }

  /** `getPollCycleCutoff`: the value drawn is the new length. */
  function TakeCutoff(db: Db): Db { db.(history := db.history + [Cutoff]) }

  /** A class-gone result retires this watch; a cutoff spares the watches activated after it. */
  predicate Retires(w: Watch, cutoff: Option<nat>) {
    Live(w) && (cutoff.Some? && w.activationOrder.Some? ==> w.activationOrder.value <= cutoff.value)
  }

  function RetireClass(db: Db, key: string, cutoff: Option<nat>, now: int): Db {
    db.(watches := map k | k in db.watches ::
                     if k.1 == key && Retires(db.watches[k], cutoff) then db.watches[k].(retiredAt := Some(now)) else db.watches[k],
        mail := CancelAll(db.mail, ActiveAbout(db.mail, {Alert, BlindWindow}, None, key), Ineligible, now))
  }

  // ----- retention -----

  function StalePending(subs: Subscribers, cutoff: int): set<nat> {
    set s | s in subs && subs[s].confirmedAt.None? && subs[s].createdAt <= cutoff
  }

  /** An old class row that no watch and no mail refers to. */
  predicate Orphaned(classes: map<string, ClassRow>, watches: Watches, mail: Mail, key: string, cutoff: int) {
    && key in classes && classes[key].updatedAt <= cutoff
    && (forall k | k in watches :: k.1 != key)
    && (forall id | id in mail :: mail[id].classKey != Some(key))
  }

  function DropRetired(watches: Watches, cutoff: int): Watches {
    map k | k in watches && !(watches[k].retiredAt.Some? && watches[k].retiredAt.value <= cutoff) :: watches[k]
  }

  function WithoutOrphans(classes: map<string, ClassRow>, watches: Watches, mail: Mail, cutoff: int): map<string, ClassRow> {
    map key | key in classes && !Orphaned(classes, watches, mail, key, cutoff) :: classes[key]
  }

  function DropOrphans(db: Db, cutoff: int): Db { db.(classes := WithoutOrphans(db.classes, db.watches, db.mail, cutoff)) }

  /** The sweep's first statements: alerts expire, stale Pending subscribers go. */
  function SweepSubscribers(db: Db, at: int, now: int): Db {
    DeleteSubscribers(db.(mail := CancelAll(db.mail, ExpiredAlerts(db.mail, now), Expired, now)),
                      StalePending(db.subs, at - PENDING_RETENTION_MS))
  }

  /** The rest of it: old terminal mail, retired watches and orphaned class rows go. */
  function SweepTerminal(db: Db, cutoff: int): Db {
    var trimmed := DeleteMail(db, OverdueMail(db.mail, db.incidents, cutoff));
    DropOrphans(trimmed.(watches := DropRetired(trimmed.watches, cutoff)), cutoff)
  }

  /** `sweepRetention`, with the caller's reading `at` and the database's `now`. */
  function Sweep(db: Db, at: int, now: int): Db {
    SweepTerminal(SweepSubscribers(db, at, now), at - TERMINAL_RETENTION_MS)
  }
}
