/** Who a blind-window sweep (`enqueueBlindWindowDisclosures`, src/db/repo.ts) tells, and of which window. */
module RepoBlindness {
  import opened RepoTables
  import opened RepoState
  import opened RepoOutbox

  /** The subscriber has relied on the class unread since then: since the activation or the last read, whichever was later. */
  predicate IsWindowStart(db: Db, k: WatchKey, start: int) {
    && k in db.watches && db.watches[k].retiredAt.None? && db.watches[k].activatedAt.Some?
    && k.0 in db.subs && db.subs[k.0].confirmedAt.Some?
    && start >= db.watches[k].activatedAt.value && (k.1 in db.classes ==> start >= db.classes[k.1].updatedAt)
    && (start == db.watches[k].activatedAt.value || (k.1 in db.classes && start == db.classes[k.1].updatedAt))
  }

  predicate IsTold(mail: Mail, k: WatchKey, start: int) {
    exists id | id in mail :: mail[id].kind == BlindWindow && mail[id].subscriber == Some(k.0) && mail[id].classKey == Some(k.1)
                              && mail[id].openedAt == Some(start)
  }

  /** The window has lasted the horizon, the class is stale, and nobody was told of this window. */
  predicate IsOwed(db: Db, k: WatchKey, start: int, windowMs: int, at: int) {
    && IsWindowStart(db, k, start) && start <= at - windowMs
    && (k.1 in db.classes ==> db.classes[k.1].freshUntil <= at) && !IsTold(db.mail, k, start)
  }

  /** Whoever is owed a disclosure gets one, nobody else does, nothing else changes, and nobody is owed one afterwards. */
  ghost predicate Tells(before: Db, after: Db, windowMs: int, at: int, now: int) {
    && after.subs == before.subs && after.watches == before.watches && after.classes == before.classes && after.incidents == before.incidents
    && (forall id | id in before.mail :: id in after.mail && after.mail[id] == before.mail[id])
    && (forall k, start | IsOwed(before, k, start, windowMs, at) :: JobId(before.nextSerial, k.0, k.1) in after.mail)
    && (forall id | id in after.mail && id !in before.mail ::
          id.serial == before.nextSerial && IsFresh(after.mail[id], BlindWindow, Some(id.subscriber), Some(id.key), now)
          && after.mail[id].openedAt.Some? && IsOwed(before, (id.subscriber, id.key), after.mail[id].openedAt.value, windowMs, at))
    && (forall k, start :: !IsOwed(after, k, start, windowMs, at))
  }

  lemma OwedIsBlind(db: Db, k: WatchKey, start: int, windowMs: int, at: int)
    ensures IsOwed(db, k, start, windowMs, at) <==>
              Blind(db, k, windowMs, at) && start == WindowStart(db, k.1, db.watches[k].activatedAt.value)
  {
    assert IsTold(db.mail, k, start) <==> Filed(db.mail, BlindWindow, k.0, k.1, start);
  }

  lemma TellingOne(db: Db, windowMs: int, at: int, now: int, id: JobId)
    ensures id in Disclosures(db, windowMs, at, now) <==>
              id.serial == db.nextSerial && exists start :: IsOwed(db, (id.subscriber, id.key), start, windowMs, at)
    ensures id in Disclosures(db, windowMs, at, now) ==>
              var told := Disclosures(db, windowMs, at, now)[id];
              && IsFresh(told, BlindWindow, Some(id.subscriber), Some(id.key), now) && told.openedAt.Some?
              && IsOwed(db, (id.subscriber, id.key), told.openedAt.value, windowMs, at)
  {
    var k := (id.subscriber, id.key);
    assert k in BlindWatches(db, windowMs, at) <==> k in db.watches && Blind(db, k, windowMs, at);
    if Blind(db, k, windowMs, at) { OwedIsBlind(db, k, WindowStart(db, k.1, db.watches[k].activatedAt.value), windowMs, at); }
    if start :| IsOwed(db, k, start, windowMs, at) { OwedIsBlind(db, k, start, windowMs, at); }
  }

  lemma NobodyIsOwed(db: Db, windowMs: int, at: int, now: int, k: WatchKey, start: int)
    requires forall id | id in db.mail :: id.serial < db.nextSerial
    ensures !IsOwed(Disclose(db, windowMs, at, now), k, start, windowMs, at)
  {
    var after := Disclose(db, windowMs, at, now);
    var id := JobId(db.nextSerial, k.0, k.1);
    TellingOne(db, windowMs, at, now, id);
    StillTold(db, windowMs, at, now, k, start);
    if IsOwed(db, k, start, windowMs, at) {
      assert after.mail[id].openedAt == Some(start);
      assert IsTold(after.mail, k, start);
    }
  }

  lemma StillTold(db: Db, windowMs: int, at: int, now: int, k: WatchKey, start: int)
    requires forall id | id in db.mail :: id.serial < db.nextSerial
    ensures IsTold(db.mail, k, start) ==> IsTold(Disclose(db, windowMs, at, now).mail, k, start)
  {
    var added := Disclosures(db, windowMs, at, now);
    assert forall id | id in added :: id.serial == db.nextSerial;
    assert forall id | id in db.mail :: (db.mail + added)[id] == db.mail[id];
  }

  lemma DisclosureIsExact(db: Db, windowMs: int, at: int, now: int)
    requires forall id | id in db.mail :: id.serial < db.nextSerial
    ensures Tells(db, Disclose(db, windowMs, at, now), windowMs, at, now)
  {
    var after := Disclose(db, windowMs, at, now);
    forall k, start | IsOwed(db, k, start, windowMs, at) ensures JobId(db.nextSerial, k.0, k.1) in after.mail {
      TellingOne(db, windowMs, at, now, JobId(db.nextSerial, k.0, k.1));
    }
    forall id | id in after.mail && id !in db.mail
      ensures id.serial == db.nextSerial && IsFresh(after.mail[id], BlindWindow, Some(id.subscriber), Some(id.key), now)
      ensures after.mail[id].openedAt.Some? && IsOwed(db, (id.subscriber, id.key), after.mail[id].openedAt.value, windowMs, at)
    {
      TellingOne(db, windowMs, at, now, id);
    }
    forall id | id in db.mail ensures id in after.mail && after.mail[id] == db.mail[id] { TellingOne(db, windowMs, at, now, id); }
    forall k, start ensures !IsOwed(after, k, start, windowMs, at) { NobodyIsOwed(db, windowMs, at, now, k, start); }
  }
}
