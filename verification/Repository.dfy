/**
 The repository (src/db/repo.ts) as an object of tables with one method per transaction.  Each
 method's new state is the function of the old one that RepoRuns steps by.
 */
module Repository {
  import opened RepoTables
  import opened RepoMail
  import opened RepoWatches
  import opened RepoWatchProofs
  import opened RepoState
  import opened RepoStateProofs
  import opened RepoMailProofs
  import opened RepoRuns
  import opened RepoOutbox
  import opened RepoAdmission
  import opened RepoRetention
  import opened RepoBlindness

  // ----- ORDER BY and LIMIT -----

  /** `id` comes no later than `other` in claim order. */
  predicate Before(mail: Mail, id: JobId, other: JobId) {
    id in mail && other in mail ==>
      mail[id].availableAt < mail[other].availableAt
      || (mail[id].availableAt == mail[other].availableAt && mail[id].createdAt <= mail[other].createdAt)
  }

  lemma {:induction false} FirstExists(mail: Mail, ids: set<JobId>) returns (first: JobId)
    requires ids != {} && ids <= mail.Keys
    ensures first in ids && forall id | id in ids :: Before(mail, first, id)
  {
    var some :| some in ids;
    if ids == {some} {
      first := some;
    } else {
      var rest := FirstExists(mail, ids - {some});
      first := if Before(mail, some, rest) then some else rest;
      forall id | id in ids ensures Before(mail, first, id) {
        if id != some { assert id in ids - {some}; }
      }
    }
  }

  /** The first `limit` of the rows in claim order. */
  method TakeFirst(mail: Mail, ids: set<JobId>, limit: nat) returns (batch: seq<JobId>)
    requires ids <= mail.Keys
    ensures |batch| == if |ids| <= limit then |ids| else limit
    ensures forall i | 0 <= i < |batch| :: batch[i] in ids
    ensures forall i, j | 0 <= i < j < |batch| :: batch[i] != batch[j] && Before(mail, batch[i], batch[j])
    ensures forall i, id | 0 <= i < |batch| && id in ids && id !in batch :: Before(mail, batch[i], id)
  {
    batch := [];
    var rest := ids;
    while rest != {} && |batch| < limit
      invariant rest <= ids && |batch| <= limit && |batch| + |rest| == |ids|
      invariant forall id | id in ids :: id in batch <==> id !in rest
      invariant forall i | 0 <= i < |batch| :: batch[i] in ids && batch[i] !in rest
      invariant forall i, id | 0 <= i < |batch| && id in rest :: Before(mail, batch[i], id)
      invariant forall i, j | 0 <= i < j < |batch| :: batch[i] != batch[j] && Before(mail, batch[i], batch[j])
      decreases |rest|
    {
      ghost var witnessed := FirstExists(mail, rest);
      var first :| first in rest && forall id | id in rest :: Before(mail, first, id);
      batch := batch + [first];
      rest := rest - {first};
    }
  }

  predicate Sooner(watches: Watches, s: nat, key: string, other: string) {
    (s, key) in watches && (s, other) in watches ==> watches[(s, key)].createdAt <= watches[(s, other)].createdAt
  }

  lemma {:induction false} SoonestExists(watches: Watches, s: nat, keys: set<string>) returns (first: string)
    requires keys != {} && forall key | key in keys :: (s, key) in watches
    ensures first in keys && forall key | key in keys :: Sooner(watches, s, first, key)
  {
    var some :| some in keys;
    if keys == {some} {
      first := some;
    } else {
      var rest := SoonestExists(watches, s, keys - {some});
      first := if Sooner(watches, s, some, rest) then some else rest;
      forall key | key in keys ensures Sooner(watches, s, first, key) {
        if key != some { assert key in keys - {some}; }
      }
    }
  }

  /** The live watches of a subscriber in creation order. */
  method StagedInOrder(watches: Watches, s: nat) returns (staged: seq<string>)
    ensures IsStaged(watches, s, staged)
  {
    staged := [];
    var rest := LiveKeys(watches, s);
    while rest != {}
      invariant rest <= LiveKeys(watches, s)
      invariant forall key :: key in staged <==> key in LiveKeys(watches, s) && key !in rest
      invariant forall i, key | 0 <= i < |staged| && key in rest :: Sooner(watches, s, staged[i], key)
      invariant forall i, j | 0 <= i < j < |staged| :: staged[i] != staged[j] && Sooner(watches, s, staged[i], staged[j])
      decreases |rest|
    {
      ghost var witnessed := SoonestExists(watches, s, rest);
      var first :| first in rest && forall key | key in rest :: Sooner(watches, s, first, key);
      staged := staged + [first];
      rest := rest - {first};
    }
  }

  /** The rows in `ids` are cancelled for the reason, and every other row is as it was. */
  ghost predicate OnlyCancels(before: Mail, after: Mail, ids: set<JobId>, reason: TerminalReason, now: int) {
    && after.Keys == before.Keys
    && forall id | id in before ::
         if id in ids
         then Active(before[id]) && after[id].status == Cancelled && after[id].terminalReason == Some(reason)
              && after[id].terminalAt == Some(now) && after[id].claimToken == None && RowStep(before[id], after[id])
         else after[id] == before[id]
  }

  /** An alert of this subscriber and class that is queued or being sent. */
  predicate AlertOf(j: Job, s: nat, key: string) { j.kind.Alert? && j.subscriber == Some(s) && j.classKey == Some(key) && Active(j) }

  /** An alert about the class, queued or being sent, whose reason the row shows closed. */
  predicate ClosedBy(j: Job, key: string, row: ClassRow) {
    j.kind.Alert? && j.classKey == Some(key) && Active(j) && j.reason.Some? && !ReasonOpen(row, j.reason.value)
  }

  /** An alert about the class, queued or being sent, for this reason if one is named. */
  predicate AlertAbout(j: Job, key: string, only: Option<Reason>) {
    j.kind.Alert? && j.classKey == Some(key) && IsPending(j) && (only.Some? ==> j.reason == only)
  }

  /** What a retention sweep removed. */
  datatype Purged = Purged(subscribers: nat, mail: nat, watches: nat, classes: nat)

  /** The outcome of an opening commit. */
  datatype OpeningResult = OpeningResult(transitioned: bool, enqueued: nat)

  ghost function Restricted(mail: Mail, ids: set<JobId>): Mail { map id | id in mail && id in ids :: mail[id] }

  lemma SameFilings(before: Mail, after: Mail, ids: set<JobId>, reason: TerminalReason, now: int, s: nat, key: string, openedAt: int)
    requires OnlyCancels(before, after, ids, reason, now)
    ensures Filed(after, Alert, s, key, openedAt) <==> Filed(before, Alert, s, key, openedAt)
  {
    assert forall id | id in before :: after[id].kind == before[id].kind && after[id].subscriber == before[id].subscriber
                                       && after[id].classKey == before[id].classKey && after[id].openedAt == before[id].openedAt;
  }

  /** What the commit of an opening adds to the mail that is left of the cancellations. */
  lemma CommitAdds(before: Mail, written: Mail, ids: set<JobId>, added: Mail, serial: nat, targets: set<nat>, key: string,
                   openedAt: int, reason: Reason, now: int)
    requires SerialsUsed(before, serial) && OnlyCancels(before, written, ids, OpeningClosed, now)
    requires added == Alerts(Recipients(written, targets, key, openedAt), key, openedAt, reason, serial, now)
    ensures (written + added).Keys - before.Keys == added.Keys && before.Keys <= (written + added).Keys
    ensures Restricted(written + added, before.Keys) == written && SerialsUsed(written + added, serial + 1)
    ensures forall s | s in targets && !Filed(before, Alert, s, key, openedAt) ::
              JobId(serial, s, key) in added && added[JobId(serial, s, key)] == NewAlert(s, key, openedAt, reason, now)
    ensures forall id | id in added ::
              id.serial == serial && id.key == key && id.subscriber in targets && !Filed(before, Alert, id.subscriber, key, openedAt)
  {
    forall s ensures Filed(written, Alert, s, key, openedAt) <==> Filed(before, Alert, s, key, openedAt) {
      SameFilings(before, written, ids, OpeningClosed, now, s, key, openedAt);
    }
    assert forall id | id in added :: id.serial == serial && id !in before;
  }

  lemma BlindHere(db: Db, windowMs: int, at: int, starts: map<WatchKey, int>, k: WatchKey)
    requires k in starts <==> k in db.watches && Live(db.watches[k]) && db.watches[k].activatedAt.Some? && IsConfirmed(db.subs, k.0)
    requires k in starts ==> starts[k] == WindowStart(db, k.1, db.watches[k].activatedAt.value)
    ensures k in db.watches && Blind(db, k, windowMs, at) <==>
              k in starts && starts[k] <= at - windowMs && (k.1 in db.classes ==> db.classes[k.1].freshUntil <= at)
              && !Filed(db.mail, BlindWindow, k.0, k.1, starts[k])
  {
  }

  /**
   The compare-and-set of an opening and what follows it.  Lost, it changes nothing.  Won, the class
   shows what was seen at the next version, each target without an alert of this opening gets one,
   the class's alerts that closed are cancelled, and every other row is as it was.
   */
  ghost predicate Commits(before: Db, after: Db, key: string, version: nat, targets: set<nat>, seen: Seen, reason: Reason,
                          openedAt: int, now: int, result: OpeningResult)
  {
    if !(key in before.classes && before.classes[key].version == version) then after == before && result == OpeningResult(false, 0)
    else
      && after.classes == before.classes[key := RowFor(seen, version + 1, |before.history| + 1, now)]
      && after.subs == before.subs && after.watches == before.watches && after.incidents == before.incidents
      && (forall s | s in targets && !Filed(before.mail, Alert, s, key, openedAt) ::
            JobId(before.nextSerial, s, key) in after.mail
            && after.mail[JobId(before.nextSerial, s, key)] == NewAlert(s, key, openedAt, reason, now))
      && (forall id | id in after.mail && id !in before.mail ::
            id.serial == before.nextSerial && id.key == key
            && id.subscriber in targets && !Filed(before.mail, Alert, id.subscriber, key, openedAt))
      && OnlyCancels(before.mail, Restricted(after.mail, before.mail.Keys),
                     (set id | id in before.mail && ClosedBy(before.mail[id], key, after.classes[key])), OpeningClosed, now)
      && result == OpeningResult(true, |after.mail.Keys - before.mail.Keys|)
  }

  lemma WriteCancels(db: Db, key: string, seen: Seen, version: nat, alerted: Option<Reason>, now: int)
    ensures var after := WriteRow(db, key, seen, version, alerted, now);
            OnlyCancels(db.mail, after.mail, (set id | id in db.mail && ClosedBy(db.mail[id], key, after.classes[key])), OpeningClosed, now)
  {
    var after := WriteRow(db, key, seen, version, alerted, now);
    assert ClosedAlerts(db.mail, key, after.classes[key]) == set id | id in db.mail && ClosedBy(db.mail[id], key, after.classes[key]);
  }

  /** The rows an opening enqueues. */
  function Enqueued(db: Db, key: string, version: nat, targets: set<nat>, seen: Seen, reason: Reason, openedAt: int, now: int): Mail {
    Alerts(Recipients(WriteRow(db, key, seen, version + 1, Some(reason), now).mail, targets, key, openedAt),
           key, openedAt, reason, db.nextSerial, now)
  }

  lemma SwapCommits(db: Db, key: string, version: nat, targets: set<nat>, seen: Seen, reason: Reason, openedAt: int, now: int)
    requires SerialsUsed(db.mail, db.nextSerial) && AtVersion(db, key, version)
    ensures var after := Swap(db, key, version, targets, seen, reason, openedAt, now);
            Commits(db, after, key, version, targets, seen, reason, openedAt, now,
                    OpeningResult(true, |Enqueued(db, key, version, targets, seen, reason, openedAt, now)|))
            && SerialsUsed(after.mail, after.nextSerial)
  {
    var written := WriteRow(db, key, seen, version + 1, Some(reason), now);
    var added := Enqueued(db, key, version, targets, seen, reason, openedAt, now);
    WriteCancels(db, key, seen, version + 1, Some(reason), now);
    CommitAdds(db.mail, written.mail, (set id | id in db.mail && ClosedBy(db.mail[id], key, written.classes[key])), added,
               db.nextSerial, targets, key, openedAt, reason, now);
    assert Swap(db, key, version, targets, seen, reason, openedAt, now).mail == written.mail + added;
    assert |added| == |added.Keys|;
  }

  /** A blind-window sweep: who is owed a disclosure is told, and the result names the Sections and the number of the new rows. */
  ghost predicate Sweeps(before: Db, after: Db, windowMs: int, at: int, now: int, disclosed: set<string>, enqueued: nat) {
    && Tells(before, after, windowMs, at, now) && enqueued == |after.mail.Keys - before.mail.Keys|
    && disclosed == set id | id in after.mail && id !in before.mail :: id.key
  }

  lemma DiscloseAdds(db: Db, windowMs: int, at: int, now: int)
    requires SerialsUsed(db.mail, db.nextSerial)
    ensures var added, after := Disclosures(db, windowMs, at, now), Disclose(db, windowMs, at, now);
            && after.mail.Keys - db.mail.Keys == added.Keys && (set id | id in after.mail && id !in db.mail) == added.Keys
            && SerialsUsed(after.mail, after.nextSerial)
            && (forall id | id in db.mail :: id in after.mail && after.mail[id] == db.mail[id])
  {
    assert forall id | id in Disclosures(db, windowMs, at, now) :: id.serial == db.nextSerial && id !in db.mail;
  }

  lemma DiscloseSweeps(db: Db, windowMs: int, at: int, now: int)
    requires SerialsUsed(db.mail, db.nextSerial)
    ensures var added, after := Disclosures(db, windowMs, at, now), Disclose(db, windowMs, at, now);
            Sweeps(db, after, windowMs, at, now, (set id | id in added :: id.key), |added|) && SerialsUsed(after.mail, after.nextSerial)
  {
    var added, after := Disclosures(db, windowMs, at, now), Disclose(db, windowMs, at, now);
    DiscloseAdds(db, windowMs, at, now);
    DisclosureIsExact(db, windowMs, at, now);
    SweptFacts(db, after.mail, added, windowMs, at);
  }

  lemma SweptFacts(db: Db, mail: Mail, added: Mail, windowMs: int, at: int)
    requires mail == db.mail + added && mail.Keys - db.mail.Keys == added.Keys
    ensures (set id | id in added :: id.key) == (set id | id in mail && id !in db.mail :: id.key)
    ensures |added| == |mail.Keys - db.mail.Keys| == |added.Keys|
  {
    assert forall id :: id in mail && id !in db.mail <==> id in added;
    assert |added| == |added.Keys|;
  }

  /** The batch is the first of what is left to claim, in claim order. */
  ghost predicate InOrder(db: Db, batch: seq<JobId>, limit: nat, lease: nat, now: int) {
    var kept := Housekeep(db, lease, now).mail;
    var due := ClaimableIds(kept, lease, now);
    && |batch| == (if |due| <= limit then |due| else limit) && (forall id | id in batch :: id in due)
    && (forall i, j | 0 <= i < j < |batch| :: batch[i] != batch[j] && Before(kept, batch[i], batch[j]))
    && (forall i, id | 0 <= i < |batch| && id in due && id !in batch :: Before(kept, batch[i], id))
  }

  lemma HorizonIsPast(db: Db, lease: nat, now: int)
    ensures PastHorizon(CancelAll(db.mail, ExpiredAlerts(db.mail, now), Expired, now), lease, now)
         == set id | id in db.mail && IsPastHorizon(db.mail[id], lease, now)
  {
    forall id { HousekeepingIncidents(db, lease, now, id); }
  }

  /** Housekeeping leaves what is due, and its place in the order, as it was. */
  lemma DueInOrder(db: Db, batch: seq<JobId>, limit: nat, lease: nat, now: int)
    requires InOrder(db, batch, limit, lease, now)
    ensures forall i, j | 0 <= i < j < |batch| :: batch[i] != batch[j] && Before(db.mail, batch[i], batch[j])
    ensures forall id | id in db.mail && IsDue(db, db.mail[id], lease, now) && id !in batch ::
              |batch| == limit && forall i | 0 <= i < |batch| :: Before(db.mail, batch[i], id)
  {
    var kept := Housekeep(db, lease, now).mail;
    var due := ClaimableIds(kept, lease, now);
    forall id ensures id in due <==> id in db.mail && IsDue(db, db.mail[id], lease, now) { DueIsClaimable(db, lease, now, id); }
    forall id | id in due ensures kept[id] == db.mail[id] { Housekeeping(db, lease, now, id); }
    forall id | id in due && id !in batch ensures |batch| == limit {
      if |batch| == |due| { AllInBatch(batch, due); }
    }
  }

  lemma {:induction false} AllInBatch(batch: seq<JobId>, due: set<JobId>)
    requires |batch| == |due| && (forall id | id in batch :: id in due) && forall i, j | 0 <= i < j < |batch| :: batch[i] != batch[j]
    ensures forall id | id in due :: id in batch
    decreases |batch|
  {
    if batch != [] {
      var last := batch[|batch| - 1];
      AllInBatch(batch[..|batch| - 1], due - {last});
      assert forall id | id in due :: id == last || id in batch[..|batch| - 1];
    }
  }

  class Tables {
    var subs: Subscribers
    var watches: Watches
    var classes: map<string, ClassRow>
    var mail: Mail
    var incidents: Incidents
    var order: nat
    ghost var history: seq<Entry>
    var nextSubscriber: nat
    var nextSerial: nat
    var nextToken: nat

    ghost predicate Valid()
      reads this
    {
      order == |history| && SerialsUsed(mail, nextSerial)
    }

    ghost function Contents(): Db
      reads this
    {
      Db(subs, watches, classes, mail, incidents, history, nextSubscriber, nextSerial, nextToken)
    }

    constructor ()
      ensures Valid() && Contents() == Db(map[], map[], map[], map[], map[], [], 0, 0, 0)
    {
      subs, watches, classes, mail, incidents := map[], map[], map[], map[], map[];
      order, history, nextSubscriber, nextSerial, nextToken := 0, [], 0, 0, 0;
    }

    // ----- subscribers and watches -----

    method CreateSubscriber(email: string, classKeys: seq<string>, maxSubscribers: Option<nat>, suppressed: bool, now: int)
      returns (result: CreateResult)
      requires Valid()
      modifies this
      ensures Valid()
      ensures result == CreateOutcome(old(Contents()), email, (set key | key in classKeys), maxSubscribers)
      ensures Contents() == Create(old(Contents()), email, (set key | key in classKeys), maxSubscribers, suppressed, now)
      ensures var many, full := |set key | key in classKeys| > 4, maxSubscribers.Some? && |old(subs)| >= maxSubscribers.value;
              && (result == TooManyWatches <==> many) && (result == SubscribersFull <==> !many && full)
              && (result == DuplicateSubscriber <==> !many && !full && exists s :: s in old(subs) && old(subs)[s].email == email)
      ensures if result.Created?
              then Registers(old(Contents()), Contents(), result.subscriber, email, (set key | key in classKeys), suppressed, now)
              else Contents() == old(Contents())
    {
      ghost var before := Contents();
      result := CheckAndInsert(email, (set key | key in classKeys), maxSubscribers, suppressed, now);
      CreateIsExact(before, email, (set key | key in classKeys), maxSubscribers, suppressed, now);
    }

    method CheckAndInsert(email: string, keys: set<string>, maxSubscribers: Option<nat>, suppressed: bool, now: int)
      returns (result: CreateResult)
      requires Valid()
      modifies this
      ensures Valid() && result == CreateOutcome(old(Contents()), email, keys, maxSubscribers)
      ensures Contents() == Create(old(Contents()), email, keys, maxSubscribers, suppressed, now)
    {
      if |keys| > MAX_WATCHES { return TooManyWatches; }
      if maxSubscribers.Some? && |subs| >= maxSubscribers.value { return SubscribersFull; }
      if EmailTaken(subs, email) { return DuplicateSubscriber; }
      ghost var before := Contents();
      var s := InsertSubscriber(email, keys, suppressed, now);
      CreateIs(before, email, keys, maxSubscribers, suppressed, now);
      return Created(s);
    }

    method InsertSubscriber(email: string, keys: set<string>, suppressed: bool, now: int) returns (s: nat)
      requires Valid()
      modifies this
      ensures Valid() && s == old(nextSubscriber) && nextSubscriber == s + 1 && nextSerial == old(nextSerial) + 1
      ensures subs == old(subs)[s := Subscriber(email, None, now)] && watches == old(watches) + StagedRows(s, keys, now)
      ensures mail == old(mail) + (if suppressed then map[] else MailFor(Confirmation, s, old(nextSerial), now))
      ensures classes == old(classes) && incidents == old(incidents) && history == old(history) && nextToken == old(nextToken)
    {
      s := nextSubscriber;
      subs := subs[s := Subscriber(email, None, now)];
      watches := watches + StagedRows(s, keys, now);
      mail := mail + if suppressed then map[] else MailFor(Confirmation, s, nextSerial, now);
      nextSubscriber, nextSerial := s + 1, nextSerial + 1;
    }

    method HasRoom(keys: set<string>, ceiling: Option<nat>) returns (room: bool)
      ensures room == HasCapacity(Contents(), keys, ceiling)
    {
      if ceiling.None? || keys == {} { return true; }
      var counted := set k | k in watches && Live(watches[k]) && watches[k].activatedAt.Some? && watches[k].activationOrder.Some?
                             && IsConfirmed(subs, k.0) :: k.1;
      assert counted == Sections(Contents());
      var existing := set key | key in counted && key in keys;
      assert existing == counted * keys;
      return |counted| + (|keys| - |existing|) <= ceiling.value;
    }

    method ConfirmSubscriber(s: nat, ceiling: Option<nat>, now: int) returns (result: ConfirmResult, ghost staged: seq<string>)
      requires Valid()
      modifies this
      ensures Valid()
      ensures IsStaged(old(watches), s, staged)
      ensures result == ConfirmOutcome(old(Contents()), s, staged, ceiling)
      ensures Contents() == Confirm(old(Contents()), s, staged, ceiling, now)
      ensures (result == NoSubscriber <==> s !in old(subs)) && (result == AlreadyConfirmed <==> s in old(subs) && old(subs)[s].confirmedAt.Some?)
      ensures result == Confirmed <==>
                s in old(subs) && old(subs)[s].confirmedAt.None? && Fit(old(Contents()), (set key | key in staged), ceiling)
      ensures if result == Confirmed then Activates(old(Contents()), Contents(), s, staged, now) else Contents() == old(Contents())
    {
      var keys := StagedInOrder(watches, s);
      staged := keys;
      ConfirmIsExact(Contents(), s, staged, ceiling, now);
      result := Admission(s, keys, ceiling);
      if !result.Confirmed? { return; }
      subs := subs[s := subs[s].(confirmedAt := Some(now))];
      ActivateInOrder(s, keys, now);
    }

    method Admission(s: nat, keys: seq<string>, ceiling: Option<nat>) returns (result: ConfirmResult)
      ensures result == ConfirmOutcome(Contents(), s, keys, ceiling)
    {
      if s !in subs { return NoSubscriber; }
      if subs[s].confirmedAt.Some? { return AlreadyConfirmed; }
      var room := HasRoom((set key | key in keys), ceiling);
      return if room then Confirmed else CapacityExceeded;
    }

    method ActivateInOrder(s: nat, keys: seq<string>, now: int)
      requires Valid()
      modifies this`order, this`history, this`watches
      ensures Valid() && history == old(history) + Activations(s, keys)
      ensures watches == ActivateAll(old(watches), s, keys, old(order), now)
    {
      var i := 0;
      while i < |keys|
        invariant 0 <= i <= |keys| && Valid() && order == old(order) + i
        invariant history == old(history) + Activations(s, keys[..i])
        invariant watches == ActivateAll(old(watches), s, keys[..i], old(order), now)
      {
        assert keys[..i + 1][..i] == keys[..i];
        order := order + 1;
        history := history + [Activated(s, keys[i])];
        if (s, keys[i]) in watches {
          watches := watches[(s, keys[i]) := Activate(watches[(s, keys[i])], order, now)];
        }
        i := i + 1;
      }
      assert keys[..i] == keys;
    }

    method AddWatch(s: nat, key: string, ceiling: Option<nat>, now: int) returns (result: AddResult)
      requires Valid()
      modifies this
      ensures Valid()
      ensures result == AddOutcome(old(Contents()), s, key, ceiling)
      ensures Contents() == Add(old(Contents()), s, key, ceiling, now)
      ensures var live := set k | k in old(watches) && k.0 == s && old(watches)[k].retiredAt.None? :: k.1;
              && (result == SubscriberNotFound <==> s !in old(subs)) && (result == DuplicateWatch <==> s in old(subs) && key in live)
              && (result == WatchLimit <==> s in old(subs) && key !in live && |live| >= 4)
              && (result == SectionCapacity <==>
                    s in old(subs) && key !in live && |live| < 4 && old(subs)[s].confirmedAt.Some? && !Fit(old(Contents()), {key}, ceiling))
      ensures if result == Added then Adds(old(Contents()), Contents(), s, key, now) else Contents() == old(Contents())
    {
      AddIsExact(Contents(), s, key, ceiling, now);
      if s !in subs { return SubscriberNotFound; }
      if (s, key) in watches && Live(watches[(s, key)]) { return DuplicateWatch; }
      if |LiveKeys(watches, s)| >= MAX_WATCHES { return WatchLimit; }
      var confirmed := subs[s].confirmedAt.Some?;
      if confirmed {
        var room := HasRoom({key}, ceiling);
        if !room { return SectionCapacity; }
        order := order + 1;
        history := history + [Activated(s, key)];
      }
      var createdAt := if (s, key) in watches then watches[(s, key)].createdAt else now;
      watches := watches[(s, key) := Watch(createdAt, None, if confirmed then Some(now) else None, if confirmed then Some(order) else None)];
      return Added;
    }

    /** The watch and its pending alerts go, nothing else changes, and the caller gets the watches that are left. */
    method RemoveWatch(s: nat, key: string, now: int) returns (live: seq<string>)
      requires Valid()
      modifies this
      ensures Valid() && Contents() == Remove(old(Contents()), s, key, now)
      ensures (s, key) !in watches && forall k | k in old(watches) && k != (s, key) :: k in watches && watches[k] == old(watches)[k]
      ensures OnlyCancels(old(mail), mail, (set id | id in old(mail) && AlertOf(old(mail)[id], s, key)), Ineligible, now)
      ensures IsStaged(watches, s, live) && key !in live
    {
      watches := map k | k in watches && k != (s, key) :: watches[k];
      mail := CancelAll(mail, ActiveAbout(mail, {Alert}, Some(s), key), Ineligible, now);
      live := StagedInOrder(watches, s);
    }

    /**
     The subscriber goes with its watches and its mail, but the dead letters with an unresolved or
     acknowledged incident stay, detached; everybody else's rows stay as they are.
     */
    method DeleteSubscriber(s: nat)
      requires Valid()
      modifies this
      ensures Valid() && Contents() == DeleteSubscribers(old(Contents()), {s})
      ensures s !in subs && forall t | t in old(subs) && t != s :: t in subs && subs[t] == old(subs)[t]
      ensures forall k | k in old(watches) :: k in watches <==> k.0 != s
      ensures forall k | k in watches :: k in old(watches) && watches[k] == old(watches)[k]
      ensures forall id | id in old(mail) ::
                id in mail <==> old(mail)[id].subscriber == Some(s) ==> old(mail)[id].status.DeadLetter? && Protected(old(incidents), id)
      ensures forall id | id in mail :: id in old(mail)
                && mail[id] == if old(mail)[id].subscriber == Some(s) then old(mail)[id].(subscriber := None) else old(mail)[id]
      ensures forall id | id in old(incidents) :: id in incidents <==> id in mail
      ensures forall id | id in incidents :: id in old(incidents) && incidents[id] == old(incidents)[id]
    {
      PurgeSubscribers({s});
    }

    /** Detaches the protected dead letters, then deletes the subscribers with what refers to them. */
    method PurgeSubscribers(gone: set<nat>)
      requires Valid()
      modifies this
      ensures Valid() && Contents() == DeleteSubscribers(old(Contents()), gone)
    {
      mail := Detach(mail, incidents, gone);
      subs := map t | t in subs && t !in gone :: subs[t];
      watches := map k: WatchKey | k in watches && k.0 !in gone :: watches[k];
      mail := map id | id in mail && !(mail[id].subscriber.Some? && mail[id].subscriber.value in gone) :: mail[id];
      incidents := map id | id in incidents && id in mail :: incidents[id];
    }

    method GetPollCycleCutoff() returns (cutoff: nat)
      requires Valid()
      modifies this
      ensures Valid() && Contents() == TakeCutoff(old(Contents())) && cutoff == |history|
    {
      order := order + 1;
      history := history + [Cutoff];
      return order;
    }

    method RetireWatchesForClass(key: string, cutoff: Option<nat>, now: int) returns (retired: nat)
      requires Valid()
      modifies this
      ensures Valid() && Contents() == RetireClass(old(Contents()), key, cutoff, now)
      ensures retired == |set k | k in old(watches) && k.1 == key && Live(old(watches)[k]) && !Live(watches[k])|
      ensures RetiresAll(old(Contents()), Contents(), key, cutoff, now)
    {
      RetireIsExact(Contents(), key, cutoff, now);
      var chosen := set k | k in watches && k.1 == key && Retires(watches[k], cutoff);
      var after := map k | k in watches :: if k.1 == key && Retires(watches[k], cutoff) then watches[k].(retiredAt := Some(now)) else watches[k];
      assert chosen == set k | k in watches && k.1 == key && Live(watches[k]) && !Live(after[k]);
      watches := after;
      mail := CancelAll(mail, ActiveAbout(mail, {Alert, BlindWindow}, None, key), Ineligible, now);
      return |chosen|;
    }

    method PurgeMail(cutoff: int) returns (purged: nat)
      requires Valid()
      modifies this`mail, this`incidents
      ensures Valid()
      ensures Contents() == DeleteMail(old(Contents()), OverdueMail(old(mail), old(incidents), cutoff))
      ensures purged == |OverdueMail(old(mail), old(incidents), cutoff)|
      ensures forall id | id in old(mail) :: id !in mail <==>
                !Active(old(mail)[id]) && old(mail)[id].terminalAt.Some? && old(mail)[id].terminalAt.value <= cutoff
                && !Protected(old(incidents), id)
      ensures forall id | id in mail :: id in old(mail) && mail[id] == old(mail)[id]
    {
      var overdue := OverdueMail(mail, incidents, cutoff);
      incidents := map id | id in incidents && id in mail && id !in overdue :: incidents[id];
      mail := map id | id in mail && id !in overdue :: mail[id];
      return |overdue|;
    }

    method PurgeClasses(cutoff: int) returns (purged: nat)
      requires Valid()
      modifies this`classes
      ensures Valid()
      ensures Contents() == DropOrphans(old(Contents()), cutoff) && purged == |old(classes).Keys - classes.Keys|
    {
      var kept := WithoutOrphans(classes, watches, mail, cutoff);
      purged := |classes.Keys - kept.Keys|;
      classes := kept;
    }

    method PurgeWatches(cutoff: int) returns (purged: nat)
      requires Valid()
      modifies this`watches
      ensures Valid()
      ensures watches == DropRetired(old(watches), cutoff) && purged == |old(watches).Keys - watches.Keys|
    {
      var kept := DropRetired(watches, cutoff);
      purged := |watches.Keys - kept.Keys|;
      watches := kept;
    }

    /** The sweep's first statements; counts the Pending subscribers purged. */
    method SweepPending(at: int, now: int) returns (purged: nat)
      requires Valid()
      modifies this
      ensures Valid() && Contents() == SweepSubscribers(old(Contents()), at, now)
      ensures purged == |old(subs).Keys - subs.Keys|
    {
      var expired := ExpireMailOutboxAlerts(now);
      var gone := StalePending(subs, at - PENDING_RETENTION_MS);
      PurgeSubscribers(gone);
      assert gone == old(subs).Keys - subs.Keys;
      return |gone|;
    }

    method SweepOld(cutoff: int) returns (overdue: nat, retired: nat, orphans: nat)
      requires Valid()
      modifies this`mail, this`incidents, this`watches, this`classes
      ensures Valid()
      ensures Contents() == SweepTerminal(old(Contents()), cutoff)
      ensures overdue == |OverdueMail(old(mail), old(incidents), cutoff)|
      ensures retired == |old(watches).Keys - watches.Keys| && orphans == |old(classes).Keys - classes.Keys|
    {
      overdue := PurgeMail(cutoff);
      retired := PurgeWatches(cutoff);
      orphans := PurgeClasses(cutoff);
    }

    method SweepRetention(at: int, now: int) returns (purged: Purged)
      requires Valid()
      modifies this
      ensures Valid() && Contents() == Sweep(old(Contents()), at, now)
      ensures purged.subscribers == |old(subs).Keys - subs.Keys| && purged.classes == |old(classes).Keys - classes.Keys|
      ensures var settled, cutoff := SweepSubscribers(old(Contents()), at, now), at - TERMINAL_RETENTION_MS;
              purged.mail == |OverdueMail(settled.mail, settled.incidents, cutoff)| && purged.watches == |settled.watches.Keys - watches.Keys|
      ensures Retains(old(Contents()), Contents(), at, now)
      ensures purged.mail == |set id | id in old(mail) && GoesAsOver(old(Contents()), id, at, now)|
      ensures purged.watches == |set k | k in old(watches) && !IsStale(old(Contents()), k.0, at) && k !in watches|
    {
      SweepIsExact(Contents(), at, now);
      SweepCounts(Contents(), at, now);
      var gone := SweepPending(at, now);
      var overdue, retired, orphans := SweepOld(at - TERMINAL_RETENTION_MS);
      return Purged(gone, overdue, retired, orphans);
    }

    // ----- class states -----

    /**
     The class shows what was seen, at the next version and the newest value of the sequence; of its
     alerts exactly those it closes are cancelled.
     */
    method UpsertClassState(key: string, seen: Seen, now: int)
      requires Valid()
      modifies this
      ensures Valid() && Contents() == Upsert(old(Contents()), key, seen, now)
      ensures key in classes && order == old(order) + 1 == classes[key].observedOrder && classes[key].updatedAt == now
      ensures classes[key].openSeats == seen.openSeats && classes[key].waitlistOpen == seen.waitlistOpen
           && classes[key].freshUntil == seen.freshUntil
      ensures if key in old(classes) then classes[key].version == old(classes)[key].version + 1 else classes[key].version == 0
      ensures forall other | other in old(classes) && other != key :: other in classes && classes[other] == old(classes)[other]
      ensures OnlyCancels(old(mail), mail, (set id | id in old(mail) && ClosedBy(old(mail)[id], key, classes[key])), OpeningClosed, now)
    {
      var version := if key in classes then classes[key].version + 1 else 0;
      WriteCancels(Contents(), key, seen, version, None, now);
      Write(key, seen, version, None, now);
    }

    method Write(key: string, seen: Seen, version: nat, ghost alerted: Option<Reason>, now: int)
      requires Valid()
      modifies this
      ensures Valid() && Contents() == WriteRow(old(Contents()), key, seen, version, alerted, now)
    {
      order := order + 1;
      var row := RowFor(seen, version, order, now);
      history := history + [Observed(key, row, alerted)];
      classes := classes[key := row];
      mail := CancelAll(mail, ClosedAlerts(mail, key, row), OpeningClosed, now);
    }

    /**
     The first statement of an opening commit.  In tables that keep the invariants it selects, if the
     version is still current, the Confirmed subscribers whose live watch was last activated before
     the current row was observed, and otherwise nobody.
     */
    method SelectTargets(key: string, version: nat) returns (targets: set<nat>)
      ensures targets == Targets(Contents(), key, version)
      ensures !AtVersion(Contents(), key, version) ==> targets == {}
      ensures AtVersion(Contents(), key, version) && WatchesOk(Contents()) && ClassesOk(classes, history) ==>
                forall s :: s in targets <==> SawClosed(Contents(), s, key)
    {
      if !(key in classes && classes[key].version == version) {
        StaleSelectsNobody(Contents(), key, version);
        return {};
      }
      targets := set k | k in watches && k.1 == key && Live(watches[k]) && watches[k].activatedAt.Some?
                         && watches[k].activationOrder.Some? && IsConfirmed(subs, k.0)
                         && watches[k].activationOrder.value <= classes[key].observedOrder :: k.0;
      assert targets == Targets(Contents(), key, version);
      if WatchesOk(Contents()) && ClassesOk(classes, history) {
        forall s ensures s in targets <==> SawClosed(Contents(), s, key) {
          TargetsAreExact(Contents(), key, version, s);
        }
      }
    }

    /** The compare-and-set of an opening commit and what follows it; `targets` are those its select found. */
    method CommitOpening(key: string, version: nat, targets: set<nat>, seen: Seen, reason: Reason, openedAt: int, now: int)
      returns (result: OpeningResult)
      requires Valid()
      modifies this
      ensures Valid() && Contents() == Swap(old(Contents()), key, version, targets, seen, reason, openedAt, now)
      ensures Commits(old(Contents()), Contents(), key, version, targets, seen, reason, openedAt, now, result)
    {
      ghost var before := Contents();
      if !(key in classes && classes[key].version == version) { return OpeningResult(false, 0); }
      var enqueued := FanOut(key, version, targets, seen, reason, openedAt, now);
      SwapCommits(before, key, version, targets, seen, reason, openedAt, now);
      return OpeningResult(true, enqueued);
    }

    /** The writes of an opening that won. */
    method FanOut(key: string, version: nat, targets: set<nat>, seen: Seen, reason: Reason, openedAt: int, now: int)
      returns (enqueued: nat)
      requires Valid() && AtVersion(Contents(), key, version)
      modifies this
      ensures order == |history| && Contents() == Swap(old(Contents()), key, version, targets, seen, reason, openedAt, now)
      ensures enqueued == |Enqueued(old(Contents()), key, version, targets, seen, reason, openedAt, now)|
    {
      Write(key, seen, version + 1, Some(reason), now);
      var added := Alerts(Recipients(mail, targets, key, openedAt), key, openedAt, reason, nextSerial, now);
      mail := mail + added;
      nextSerial := nextSerial + 1;
      return |added|;
    }

    /** One blind-window sweep: the Sections it newly disclosed, and how many disclosures it filed. */
    method EnqueueBlindWindowDisclosures(windowMs: int, at: int, now: int) returns (disclosed: set<string>, enqueued: nat)
      requires Valid()
      modifies this
      ensures Valid() && Contents() == Disclose(old(Contents()), windowMs, at, now)
      ensures Sweeps(old(Contents()), Contents(), windowMs, at, now, disclosed, enqueued)
    {
      ghost var before := Contents();
      var added := FindBlind(windowMs, at, now);
      Insert(added);
      DiscloseSweeps(before, windowMs, at, now);
      disclosed, enqueued := (set id | id in added :: id.key), |added|;
    }

    method Insert(added: Mail)
      modifies this`mail, this`nextSerial
      ensures Contents() == Enqueue(old(Contents()), added)
    {
      mail := mail + added;
      nextSerial := nextSerial + 1;
    }

    /** The select of the sweep: a row for each window that is over the horizon, stale and not yet on file. */
    method FindBlind(windowMs: int, at: int, now: int) returns (added: Mail)
      ensures added == Disclosures(Contents(), windowMs, at, now)
    {
      var starts := FindStarts();
      var blind := set k | k in starts && starts[k] <= at - windowMs && (k.1 in classes ==> classes[k.1].freshUntil <= at)
                           && !Filed(mail, BlindWindow, k.0, k.1, starts[k]);
      forall k ensures k in blind <==> k in BlindWatches(Contents(), windowMs, at) {
        BlindHere(Contents(), windowMs, at, starts, k);
      }
      assert blind == BlindWatches(Contents(), windowMs, at);
      added := DisclosureRows(nextSerial, blind, starts, now);
    }

    method FindStarts() returns (starts: map<WatchKey, int>)
      ensures starts == Starts(Contents())
    {
      starts := map k | k in watches && Live(watches[k]) && watches[k].activatedAt.Some? && IsConfirmed(subs, k.0) ::
        if k.1 in classes then Max(classes[k.1].updatedAt, watches[k].activatedAt.value) else watches[k].activatedAt.value;
      assert starts == Starts(Contents());
    }

    // ----- mail -----

    method ExpireMailOutboxAlerts(now: int) returns (expired: nat)
      requires Valid()
      modifies this`mail
      ensures Valid()
      ensures mail == CancelAll(old(mail), ExpiredAlerts(old(mail), now), Expired, now) && expired == |ExpiredAlerts(old(mail), now)|
      ensures OnlyCancels(old(mail), mail, (set id | id in old(mail) && IsExpired(old(mail)[id], now)), Expired, now)
    {
      var ids := ExpiredAlerts(mail, now);
      mail := CancelAll(mail, ids, Expired, now);
      return |ids|;
    }

    method ExpireMailOutboxRetryHorizon(lease: nat, now: int) returns (deadLettered: nat)
      requires Valid()
      modifies this`mail, this`incidents
      ensures Valid()
      ensures Contents() == EndHorizon(old(Contents()), lease, now) && deadLettered == |PastHorizon(old(mail), lease, now)|
      ensures mail.Keys == old(mail).Keys && forall id | id in mail ::
                if IsPastHorizon(old(mail)[id], lease, now) then Ends(old(mail)[id], mail[id], DeadLetter, RetryHorizon, now)
                else mail[id] == old(mail)[id]
      ensures deadLettered == |set id | id in old(mail) && IsPastHorizon(old(mail)[id], lease, now)|
    {
      assert PastHorizon(mail, lease, now) == set id | id in mail && IsPastHorizon(mail[id], lease, now);
      var past := PastHorizon(mail, lease, now);
      mail := DeadLetterAll(mail, past, RetryHorizon, now);
      incidents := OpenIncidents(incidents, past, now);
      return |past|;
    }

    method CancelOpenAlertMail(key: string, only: Option<Reason>, now: int) returns (cancelled: nat)
      requires Valid()
      modifies this`mail
      ensures Valid()
      ensures mail == CancelAll(old(mail), OpenAlerts(old(mail), key, only), OpeningClosed, now)
      ensures cancelled == |OpenAlerts(old(mail), key, only)|
      ensures OnlyCancels(old(mail), mail, (set id | id in old(mail) && AlertAbout(old(mail)[id], key, only)), OpeningClosed, now)
    {
      assert OpenAlerts(mail, key, only) == set id | id in mail && AlertAbout(mail[id], key, only);
      var ids := OpenAlerts(mail, key, only);
      mail := CancelAll(mail, ids, OpeningClosed, now);
      return |ids|;
    }

    /** The housekeeping before a claim; counts the jobs it dead-letters. */
    method SettleOverdue(lease: nat, now: int) returns (deadLettered: nat)
      requires Valid()
      modifies this`mail, this`incidents
      ensures Valid()
      ensures Contents() == Housekeep(old(Contents()), lease, now)
      ensures deadLettered == |PastHorizon(CancelAll(old(mail), ExpiredAlerts(old(mail), now), Expired, now), lease, now)|
    {
      var expired := ExpireMailOutboxAlerts(now);
      deadLettered := ExpireMailOutboxRetryHorizon(lease, now);
      mail := CancelAll(mail, Unjustified(mail, subs, watches), Ineligible, now);
    }

    /** `claimMailBatch`: housekeeping, then the first `limit` due rows under a new token. */
    method ClaimMailBatch(limit: nat, lease: nat, now: int) returns (batch: seq<JobId>, token: nat, deadLettered: nat)
      requires Valid()
      modifies this
      ensures Valid() && token == old(nextToken) && |batch| <= limit
      ensures Contents() == ClaimBatch(old(Contents()), (set id | id in batch), lease, now)
      ensures (set id | id in batch) <= ClaimableIds(Housekeep(old(Contents()), lease, now).mail, lease, now)
      ensures Claims(old(Contents()), Contents(), (set id | id in batch), token, lease, now)
      ensures forall i, j | 0 <= i < j < |batch| :: batch[i] != batch[j] && Before(old(mail), batch[i], batch[j])
      ensures forall id | id in old(mail) && IsDue(old(Contents()), old(mail)[id], lease, now) && id !in batch ::
                |batch| == limit && forall i | 0 <= i < |batch| :: Before(old(mail), batch[i], id)
      ensures deadLettered == |set id | id in old(mail) && IsPastHorizon(old(mail)[id], lease, now)|
    {
      ghost var db := Contents();
      batch, token, deadLettered := HousekeepAndClaim(limit, lease, now);
      ClaimIsExact(db, (set id | id in batch), lease, now);
      DueInOrder(db, batch, limit, lease, now);
      HorizonIsPast(db, lease, now);
    }

    method HousekeepAndClaim(limit: nat, lease: nat, now: int) returns (batch: seq<JobId>, token: nat, deadLettered: nat)
      requires Valid()
      modifies this
      ensures Valid() && token == old(nextToken)
      ensures deadLettered == |PastHorizon(CancelAll(old(mail), ExpiredAlerts(old(mail), now), Expired, now), lease, now)|
      ensures InOrder(old(Contents()), batch, limit, lease, now)
      ensures Contents() == ClaimBatch(old(Contents()), (set id | id in batch), lease, now)
    {
      deadLettered := SettleOverdue(lease, now);
      batch := TakeFirst(mail, ClaimableIds(mail, lease, now), limit);
      token := ClaimRows((set id | id in batch), now);
    }

    /** Puts the rows under a new token. */
    method ClaimRows(chosen: set<JobId>, now: int) returns (token: nat)
      requires Valid()
      modifies this`mail, this`nextToken
      ensures Valid() && token == old(nextToken) && Contents() == Claimed(old(Contents()), chosen, now)
    {
      token := nextToken;
      mail := map id | id in mail :: if id in chosen then ClaimRow(mail[id], token, now) else mail[id];
      nextToken := nextToken + 1;
    }

    method CompleteMailJob(id: JobId, token: nat, acceptedAt: int, now: int) returns (ok: bool)
      requires Valid()
      modifies this`mail
      ensures Valid()
      ensures ok == Owns(old(mail), id, token) && Contents() == Complete(old(Contents()), id, token, acceptedAt, now)
      ensures ok <==> Holds(old(mail), id, token)
      ensures if ok then OnlyRow(old(Contents()), Contents(), id, now) && Sends(old(mail)[id], mail[id], acceptedAt, now)
              else Contents() == old(Contents())
    {
      CompletionIsExact(Contents(), id, token, acceptedAt, now);
      ok := Owns(mail, id, token);
      if ok { mail := mail[id := SentRow(mail[id], acceptedAt, now)]; }
    }

    method CancelClaimedMailJob(id: JobId, token: nat, now: int) returns (ok: bool)
      requires Valid()
      modifies this`mail
      ensures Valid()
      ensures ok == Owns(old(mail), id, token) && Contents() == CancelClaimed(old(Contents()), id, token, now)
      ensures ok <==> Holds(old(mail), id, token)
      ensures if ok then OnlyRow(old(Contents()), Contents(), id, now) && Ends(old(mail)[id], mail[id], Cancelled, SuppressedAddress, now)
              else Contents() == old(Contents())
    {
      CancellationIsExact(Contents(), id, token, now);
      ok := Owns(mail, id, token);
      if ok { mail := mail[id := CancelRow(mail[id], SuppressedAddress, now)]; }
    }

    method DeferMailJob(id: JobId, token: nat, availableAt: int, reading: int, now: int) returns (disposition: DeferDisposition)
      requires Valid()
      modifies this`mail, this`incidents
      ensures Valid()
      ensures disposition == DeferOutcome(old(mail), id, token, availableAt, reading)
      ensures Contents() == DeferJob(old(Contents()), id, token, availableAt, reading, now)
      ensures if Holds(old(mail), id, token)
              then OnlyRow(old(Contents()), Contents(), id, now) && Defers(old(mail)[id], mail[id], availableAt, reading, now, disposition)
              else Contents() == old(Contents()) && disposition == ClaimFenceLost
    {
      DeferralIsExact(Contents(), id, token, availableAt, reading, now);
      if !Owns(mail, id, token) { return ClaimFenceLost; }
      var job := mail[id];
      var deadline := if job.kind.Alert? && job.expiresAt.Some? then job.expiresAt.value else job.createdAt + RETRY_HORIZON_MS;
      var terminal := availableAt >= deadline || reading >= deadline;
      if !terminal {
        mail := mail[id := RequeueRow(job, availableAt)];
        return Deferred;
      }
      if job.kind.Alert? {
        mail := mail[id := CancelRow(job, Expired, now)];
        return CancelledExpired;
      }
      mail := mail[id := DeadLetterRow(job, RetryHorizon, now)];
      incidents := OpenIncidents(incidents, {id}, now);
      return DeadLetteredRetryHorizon;
    }

    method DeadLetterMailJob(id: JobId, token: nat, now: int) returns (ok: bool)
      requires Valid()
      modifies this`mail, this`incidents
      ensures Valid()
      ensures ok == Owns(old(mail), id, token) && Contents() == DeadLetterJob(old(Contents()), id, token, now)
      ensures ok <==> Holds(old(mail), id, token)
      ensures if ok then OnlyRow(old(Contents()), Contents(), id, now) && Ends(old(mail)[id], mail[id], DeadLetter, PermanentFailure, now)
              else Contents() == old(Contents())
    {
      DeadLetteringIsExact(Contents(), id, token, now);
      ok := Owns(mail, id, token);
      if ok {
        mail := mail[id := DeadLetterRow(mail[id], PermanentFailure, now)];
        incidents := OpenIncidents(incidents, {id}, now);
      }
    }

    /** Only an unresolved incident is acknowledged; it is not unresolved afterwards, so that a second call answers false. */
    method AcknowledgeDeadLetterIncident(id: JobId) returns (ok: bool)
      modifies this`incidents
      ensures Contents() == Acknowledge(old(Contents()), id)
      ensures ok <==> id in old(incidents) && old(incidents)[id].state.Unresolved?
      ensures ok ==> incidents[id].state.Acknowledged? && incidents[id].openedAt == old(incidents)[id].openedAt
      ensures id in incidents ==> !incidents[id].state.Unresolved?
      ensures incidents.Keys == old(incidents).Keys
      ensures forall other | other in incidents && (other != id || !ok) :: incidents[other] == old(incidents)[other]
    {
      ok := id in incidents && incidents[id].state.Unresolved?;
      if ok { incidents := incidents[id := incidents[id].(state := Acknowledged)]; }
    }

    /** An incident that was not resolved is, acknowledged or not; it never is unresolved again, and a second call answers false. */
    method ResolveDeadLetterIncident(id: JobId) returns (ok: bool)
      modifies this`incidents
      ensures Contents() == Resolve(old(Contents()), id)
      ensures ok <==> id in old(incidents) && !old(incidents)[id].state.Resolved?
      ensures ok ==> incidents[id].openedAt == old(incidents)[id].openedAt
      ensures id in incidents ==> incidents[id].state.Resolved?
      ensures incidents.Keys == old(incidents).Keys
      ensures forall other | other in incidents && (other != id || !ok) :: incidents[other] == old(incidents)[other]
    {
      ok := id in incidents && !incidents[id].state.Resolved?;
      if ok { incidents := incidents[id := incidents[id].(state := Resolved)]; }
    }
  }
}
