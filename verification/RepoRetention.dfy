/** What the retention sweep (`sweepRetention`, src/db/repo.ts) keeps and removes, table by table. */
module RepoRetention {
  import opened RepoTables
  import opened RepoMail
  import opened RepoWatches
  import opened RepoOutbox

  /** A subscriber who has not confirmed within 72 hours. */
  predicate IsStale(db: Db, s: nat, at: int) {
    s in db.subs && db.subs[s].confirmedAt.None? && db.subs[s].createdAt <= at - 259_200_000
  }

  predicate IsOpen(incidents: Incidents, id: JobId) { id in incidents && incidents[id].state != Resolved }

  /** Mail that ended ninety days ago; an alert that expires with this sweep has just ended. */
  predicate IsOver(j: Job, at: int, now: int) {
    if IsExpired(j, now) then now <= at - 7_776_000_000
    else !IsPending(j) && j.terminalAt.Some? && j.terminalAt.value <= at - 7_776_000_000
  }

  predicate IsOf(db: Db, j: Job, at: int) { j.subscriber.Some? && IsStale(db, j.subscriber.value, at) }

  /** The row stays: it is not over, or its incident is open; nor a stale subscriber's, but for a dead letter with an open incident. */
  predicate MailStays(db: Db, id: JobId, at: int, now: int) {
    && id in db.mail
    && (IsOpen(db.incidents, id) || !IsOver(db.mail[id], at, now))
    && (IsOf(db, db.mail[id], at) ==> db.mail[id].status == DeadLetter && IsOpen(db.incidents, id))
  }

  /** A row that stays is as it was, but that an alert expires and a dead letter loses its subscriber. */
  predicate MailSwept(db: Db, before: Job, after: Job, at: int, now: int) {
    if IsOf(db, before, at) then after == before.(subscriber := None)
    else if IsExpired(before, now) then Ends(before, after, Cancelled, Expired, now)
    else after == before
  }

  predicate WatchStays(db: Db, k: WatchKey, at: int) {
    && k in db.watches && !IsStale(db, k.0, at)
    && (db.watches[k].retiredAt.None? || db.watches[k].retiredAt.value > at - 7_776_000_000)
  }

  /** A class row is young, or a watch or mail that is left is about it. */
  ghost predicate ClassStays(before: Db, after: Db, key: string, at: int) {
    && key in before.classes
    && (before.classes[key].updatedAt > at - 7_776_000_000
        || (exists k :: k in after.watches && k.1 == key)
        || exists id :: id in after.mail && after.mail[id].classKey == Some(key))
  }

  ghost predicate AccountsStay(before: Db, after: Db, at: int) {
    && (forall s :: s in after.subs <==> s in before.subs && !IsStale(before, s, at))
    && (forall s | s in after.subs :: after.subs[s] == before.subs[s])
    && (forall k :: k in after.watches <==> WatchStays(before, k, at))
    && (forall k | k in after.watches :: after.watches[k] == before.watches[k])
  }

  ghost predicate RowsStay(before: Db, after: Db, at: int, now: int) {
    && (forall id :: id in after.mail <==> MailStays(before, id, at, now))
    && (forall id | id in after.mail :: MailSwept(before, before.mail[id], after.mail[id], at, now))
    && (forall id :: id in after.incidents <==> id in before.incidents && id in after.mail)
    && (forall id | id in after.incidents :: after.incidents[id] == before.incidents[id])
  }

  ghost predicate ClassesStay(before: Db, after: Db, at: int) {
    && (forall key :: key in after.classes <==> ClassStays(before, after, key, at))
    && (forall key | key in after.classes :: after.classes[key] == before.classes[key])
  }

  ghost predicate Retains(before: Db, after: Db, at: int, now: int) {
    AccountsStay(before, after, at) && RowsStay(before, after, at, now) && ClassesStay(before, after, at)
  }

  /** What the first statements leave: expired alerts cancelled, stale subscribers gone with their rows. */
  lemma Settling(db: Db, at: int, now: int, id: JobId)
    ensures var settled := SweepSubscribers(db, at, now);
            && (id in settled.mail <==>
                  id in db.mail && (IsOf(db, db.mail[id], at) ==> db.mail[id].status == DeadLetter && IsOpen(db.incidents, id)))
            && (id in settled.mail ==> MailSwept(db, db.mail[id], settled.mail[id], at, now))
            && (id in settled.incidents <==> id in db.incidents && id in settled.mail)
            && (id in settled.incidents ==> settled.incidents[id] == db.incidents[id])
  {
    var expired := CancelAll(db.mail, ExpiredAlerts(db.mail, now), Expired, now);
    if id in db.mail { assert expired[id] == if IsExpired(db.mail[id], now) then CancelRow(db.mail[id], Expired, now) else db.mail[id]; }
    forall s ensures s in StalePending(db.subs, at - PENDING_RETENTION_MS) <==> IsStale(db, s, at) { }
  }

  lemma SettledIsOverdue(db: Db, at: int, now: int, id: JobId)
    ensures var settled := SweepSubscribers(db, at, now);
            id in OverdueMail(settled.mail, settled.incidents, at - TERMINAL_RETENTION_MS) <==>
            id in settled.mail && !IsOpen(db.incidents, id) && IsOver(db.mail[id], at, now)
  {
    Settling(db, at, now, id);
  }

  lemma AccountsSwept(db: Db, at: int, now: int)
    ensures AccountsStay(db, Sweep(db, at, now), at)
  {
    forall s ensures s in StalePending(db.subs, at - PENDING_RETENTION_MS) <==> IsStale(db, s, at) { }
  }

  lemma RowsSwept(db: Db, at: int, now: int)
    ensures RowsStay(db, Sweep(db, at, now), at, now)
  {
    var after := Sweep(db, at, now);
    forall id
      ensures id in after.mail <==> MailStays(db, id, at, now)
      ensures id in after.mail ==> MailSwept(db, db.mail[id], after.mail[id], at, now)
      ensures id in after.incidents <==> id in db.incidents && id in after.mail
      ensures id in after.incidents ==> after.incidents[id] == db.incidents[id]
    {
      RowSwept(db, at, now, id);
    }
  }

  lemma RowSwept(db: Db, at: int, now: int, id: JobId)
    ensures var after := Sweep(db, at, now);
            && (id in after.mail <==> MailStays(db, id, at, now))
            && (id in after.mail ==> MailSwept(db, db.mail[id], after.mail[id], at, now))
            && (id in after.incidents <==> id in db.incidents && id in after.mail)
            && (id in after.incidents ==> after.incidents[id] == db.incidents[id])
  {
    Settling(db, at, now, id);
    SettledIsOverdue(db, at, now, id);
  }

  lemma ClassesSwept(db: Db, at: int, now: int)
    ensures ClassesStay(db, Sweep(db, at, now), at)
  {
    var after := Sweep(db, at, now);
    forall key ensures key in after.classes <==> ClassStays(db, after, key, at) {
      assert key in after.classes <==> key in db.classes && !Orphaned(db.classes, after.watches, after.mail, key, at - TERMINAL_RETENTION_MS);
    }
  }

  /** The sweep keeps and removes exactly that. */
  lemma SweepIsExact(db: Db, at: int, now: int)
    ensures Retains(db, Sweep(db, at, now), at, now)
  {
    AccountsSwept(db, at, now);
    RowsSwept(db, at, now);
    ClassesSwept(db, at, now);
  }

  /** The row survives its subscriber and then goes because it is over. */
  predicate GoesAsOver(db: Db, id: JobId, at: int, now: int) {
    && id in db.mail && !IsOpen(db.incidents, id) && IsOver(db.mail[id], at, now) && !IsOf(db, db.mail[id], at)
  }

  lemma SweepCounts(db: Db, at: int, now: int)
    ensures var settled := SweepSubscribers(db, at, now);
            && OverdueMail(settled.mail, settled.incidents, at - TERMINAL_RETENTION_MS) == (set id | id in db.mail && GoesAsOver(db, id, at, now))
            && settled.watches.Keys - Sweep(db, at, now).watches.Keys ==
               (set k | k in db.watches && !IsStale(db, k.0, at) && k !in Sweep(db, at, now).watches)
  {
    var settled := SweepSubscribers(db, at, now);
    forall id ensures id in OverdueMail(settled.mail, settled.incidents, at - TERMINAL_RETENTION_MS) <==> id in db.mail && GoesAsOver(db, id, at, now) {
      Settling(db, at, now, id);
      SettledIsOverdue(db, at, now, id);
    }
    forall k ensures k in settled.watches <==> k in db.watches && !IsStale(db, k.0, at) { }
  }
}
