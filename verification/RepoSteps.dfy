/**
 What each step of a run does to the mail and to the class states: permitted row steps, no alert
 but by an opening, each filing once.
 */
module RepoSteps {
  import opened RepoTables
  import opened RepoMail
  import opened RepoMailProofs
  import opened RepoWatches
  import opened RepoWatchProofs
  import opened RepoState
  import opened RepoRuns

  // ----- one row per filing -----

  predicate SameFiling(a: Job, b: Job) {
    && (a.kind.Alert? || a.kind.BlindWindow?) && a.kind == b.kind
    && a.subscriber.Some? && a.subscriber == b.subscriber && a.classKey == b.classKey && a.openedAt == b.openedAt
  }

  /** The logical unique indexes: one alert per subscriber, class and opening; one disclosure per window. */
  ghost predicate OneEach(mail: Mail) {
    forall i, j | i in mail && j in mail && i != j :: !SameFiling(mail[i], mail[j])
  }

  /** Rows step, and the new ones file nothing. */
  ghost predicate Quiet(before: Mail, after: Mail) {
    && RowsStep(before, after)
    && (forall id | id in after && id !in before :: !after[id].kind.Alert? && !after[id].kind.BlindWindow?)
  }

  lemma QuietKeepsOneEach(before: Mail, after: Mail)
    requires OneEach(before) && Quiet(before, after)
    ensures OneEach(after)
  {
    forall i, j | i in after && j in after && i != j ensures !SameFiling(after[i], after[j]) {
      if SameFiling(after[i], after[j]) {
        assert RowStep(before[i], after[i]) && RowStep(before[j], after[j]);
        assert SameFiling(before[i], before[j]);
      }
    }
  }

  // ----- shapes of steps -----

  lemma CancelsKeepMail(db: Db, after: Db, ids: set<JobId>, reason: TerminalReason, now: int)
    requires MailOk(db)
    requires forall id | id in ids && id in db.mail :: Active(db.mail[id])
    requires after.mail == CancelAll(db.mail, ids, reason, now) && after.incidents == db.incidents
    requires after.nextToken == db.nextToken && after.nextSerial == db.nextSerial
    ensures MailOk(after) && Quiet(db.mail, after.mail)
  {
    CancelKeepsMail(db, ids, reason, now);
  }

  lemma EnqueuesKeepMail(db: Db, after: Db, added: Mail)
    requires MailOk(db)
    requires NewRows(added, db.nextSerial)
    requires after.mail == db.mail + added && after.nextSerial == db.nextSerial + 1
    requires after.incidents == db.incidents && after.nextToken == db.nextToken
    ensures MailOk(after) && RowsStep(db.mail, after.mail)
    ensures forall id | id in added :: id !in db.mail
  {
    EnqueueKeepsMail(db, added);
  }

  lemma RemoveMail(db: Db, s: nat, key: string, now: int)
    requires MailOk(db)
    ensures MailOk(Remove(db, s, key, now)) && Quiet(db.mail, Remove(db, s, key, now).mail)
  {
    CancelsKeepMail(db, Remove(db, s, key, now), ActiveAbout(db.mail, {Alert}, Some(s), key), Ineligible, now);
  }

  lemma RetireMail(db: Db, key: string, cutoff: Option<nat>, now: int)
    requires MailOk(db)
    ensures MailOk(RetireClass(db, key, cutoff, now)) && Quiet(db.mail, RetireClass(db, key, cutoff, now).mail)
  {
    CancelsKeepMail(db, RetireClass(db, key, cutoff, now), ActiveAbout(db.mail, {Alert, BlindWindow}, None, key), Ineligible, now);
  }

  lemma WriteMail(db: Db, key: string, seen: Seen, version: nat, alerted: Option<Reason>, now: int)
    requires MailOk(db)
    ensures var after := WriteRow(db, key, seen, version, alerted, now); MailOk(after) && Quiet(db.mail, after.mail)
  {
    var after := WriteRow(db, key, seen, version, alerted, now);
    CancelsKeepMail(db, after, ClosedAlerts(db.mail, key, after.classes[key]), OpeningClosed, now);
  }

  lemma MailForIsNew(kind: Kind, s: nat, serial: nat, now: int)
    requires kind.Confirmation? || kind.ManageLink?
    ensures NewRows(MailFor(kind, s, serial, now), serial)
    ensures forall id | id in MailFor(kind, s, serial, now) :: MailFor(kind, s, serial, now)[id].kind == kind
  {
  }

  lemma CreatedMail(db: Db, after: Db, s: nat, suppressed: bool, now: int)
    requires MailOk(db)
    requires after.mail == db.mail + (if suppressed then map[] else MailFor(Confirmation, s, db.nextSerial, now))
    requires after.nextSerial == db.nextSerial + 1 && after.incidents == db.incidents && after.nextToken == db.nextToken
    ensures MailOk(after) && Quiet(db.mail, after.mail)
  {
    MailForIsNew(Confirmation, s, db.nextSerial, now);
    EnqueuesKeepMail(db, after, if suppressed then map[] else MailFor(Confirmation, s, db.nextSerial, now));
  }

  lemma CreateMail(db: Db, email: string, keys: set<string>, maxSubscribers: Option<nat>, suppressed: bool, now: int)
    requires MailOk(db)
    ensures var after := Create(db, email, keys, maxSubscribers, suppressed, now); MailOk(after) && Quiet(db.mail, after.mail)
  {
    var after := Create(db, email, keys, maxSubscribers, suppressed, now);
    if CreateOutcome(db, email, keys, maxSubscribers).Created? {
      CreateIs(db, email, keys, maxSubscribers, suppressed, now);
      CreatedMail(db, after, db.nextSubscriber, suppressed, now);
    } else {
      assert after == db;
    }
  }

  lemma SubscriberMail(db: Db, kind: Kind, s: nat, now: int)
    requires MailOk(db) && (kind.Confirmation? || kind.ManageLink?)
    ensures var after := Enqueue(db, MailFor(kind, s, db.nextSerial, now)); MailOk(after) && Quiet(db.mail, after.mail)
  {
    MailForIsNew(kind, s, db.nextSerial, now);
    EnqueuesKeepMail(db, Enqueue(db, MailFor(kind, s, db.nextSerial, now)), MailFor(kind, s, db.nextSerial, now));
  }

  lemma OperatorRowIsNew(serial: nat, about: Option<string>, now: int)
    ensures NewRows(OperatorRow(serial, about, now), serial)
    ensures forall id | id in OperatorRow(serial, about, now) :: OperatorRow(serial, about, now)[id].kind.OperatorMail?
  {
  }

  lemma OperatorMailMail(db: Db, about: Option<string>, now: int)
    requires MailOk(db)
    ensures var after := Enqueue(db, OperatorRow(db.nextSerial, about, now)); MailOk(after) && Quiet(db.mail, after.mail)
  {
    OperatorRowIsNew(db.nextSerial, about, now);
    EnqueuesKeepMail(db, Enqueue(db, OperatorRow(db.nextSerial, about, now)), OperatorRow(db.nextSerial, about, now));
  }

  lemma HorizonMail(db: Db, lease: nat, now: int)
    requires MailOk(db)
    ensures MailOk(EndHorizon(db, lease, now)) && Quiet(db.mail, EndHorizon(db, lease, now).mail)
  {
    DeadLetterKeepsMail(db, PastHorizon(db.mail, lease, now), RetryHorizon, now);
  }

  lemma SweepMail(db: Db, at: int, now: int)
    requires MailOk(db)
    ensures MailOk(Sweep(db, at, now)) && Quiet(db.mail, Sweep(db, at, now).mail)
  {
    var a := db.(mail := CancelAll(db.mail, ExpiredAlerts(db.mail, now), Expired, now));
    CancelKeepsMail(db, ExpiredAlerts(db.mail, now), Expired, now);
    var gone := StalePending(db.subs, at - PENDING_RETENTION_MS);
    var b := DeleteSubscribers(a, gone);
    DeleteSubscribersKeepsMail(a, gone);
    var overdue := OverdueMail(b.mail, b.incidents, at - TERMINAL_RETENTION_MS);
    var c := DeleteMail(b, overdue);
    DeleteMailKeepsMail(b, overdue);
    StepsCompose(db.mail, a.mail, b.mail);
    StepsCompose(db.mail, b.mail, c.mail);
    assert Sweep(db, at, now).mail == c.mail;
  }

  // ----- the two steps that file -----

  lemma AlertsAreNew(recipients: set<nat>, key: string, openedAt: int, reason: Reason, serial: nat, now: int)
    ensures NewRows(Alerts(recipients, key, openedAt, reason, serial, now), serial)
  {
  }

  lemma SwapMail(db: Db, key: string, version: nat, targets: set<nat>, seen: Seen, reason: Reason, openedAt: int, now: int)
    requires MailOk(db)
    ensures var after := Swap(db, key, version, targets, seen, reason, openedAt, now); MailOk(after) && RowsStep(db.mail, after.mail)
  {
    if AtVersion(db, key, version) {
      var written := WriteRow(db, key, seen, version + 1, Some(reason), now);
      WriteMail(db, key, seen, version + 1, Some(reason), now);
      var after := Swap(db, key, version, targets, seen, reason, openedAt, now);
      var added := Alerts(Recipients(written.mail, targets, key, openedAt), key, openedAt, reason, db.nextSerial, now);
      AlertsAreNew(Recipients(written.mail, targets, key, openedAt), key, openedAt, reason, db.nextSerial, now);
      EnqueuesKeepMail(written, after, added);
      StepsCompose(db.mail, written.mail, after.mail);
    }
  }

  lemma SwapOneEach(db: Db, key: string, version: nat, targets: set<nat>, seen: Seen, reason: Reason, openedAt: int, now: int)
    requires MailOk(db) && OneEach(db.mail)
    ensures OneEach(Swap(db, key, version, targets, seen, reason, openedAt, now).mail)
  {
    if AtVersion(db, key, version) {
      var written := WriteRow(db, key, seen, version + 1, Some(reason), now);
      WriteMail(db, key, seen, version + 1, Some(reason), now);
      QuietKeepsOneEach(db.mail, written.mail);
      var added := Alerts(Recipients(written.mail, targets, key, openedAt), key, openedAt, reason, db.nextSerial, now);
      forall id | id in added
        ensures id !in written.mail && added[id].kind.Alert? && added[id].subscriber.Some?
        ensures !Filed(written.mail, added[id].kind, added[id].subscriber.value, key, openedAt)
        ensures added[id].classKey == Some(key) && added[id].openedAt == Some(openedAt) && id == JobId(db.nextSerial, added[id].subscriber.value, key)
      {
      }
      FilingNewKeepsOneEach(written.mail, added);
    }
  }

  /** New rows of one serial, none of them filed before, and told apart by what they file. */
  lemma FilingNewKeepsOneEach(mail: Mail, added: Mail)
    requires OneEach(mail)
    requires forall id | id in added :: added[id].subscriber.Some? && added[id].classKey.Some? && added[id].openedAt.Some?
    requires forall id | id in added ::
               !Filed(mail, added[id].kind, added[id].subscriber.value, added[id].classKey.value, added[id].openedAt.value)
    requires forall i, j | i in added && j in added && i != j :: !SameFiling(added[i], added[j])
    ensures OneEach(mail + added)
  {
    var after := mail + added;
    forall i, j | i in after && j in after && i != j ensures !SameFiling(after[i], after[j]) {
      if i !in added && j in added {
        assert !Filed(mail, added[j].kind, added[j].subscriber.value, added[j].classKey.value, added[j].openedAt.value);
      } else if i in added && j !in added {
        assert !Filed(mail, added[i].kind, added[i].subscriber.value, added[i].classKey.value, added[i].openedAt.value);
      }
    }
  }

  lemma DisclosuresAreNew(db: Db, windowMs: int, at: int, now: int)
    ensures NewRows(Disclosures(db, windowMs, at, now), db.nextSerial)
    ensures forall id | id in Disclosures(db, windowMs, at, now) :: Disclosures(db, windowMs, at, now)[id].kind.BlindWindow?
  {
  }

  lemma DiscloseMail(db: Db, windowMs: int, at: int, now: int)
    requires MailOk(db)
    ensures var after := Disclose(db, windowMs, at, now); MailOk(after) && RowsStep(db.mail, after.mail)
    ensures forall id | id in Disclose(db, windowMs, at, now).mail && id !in db.mail :: !Disclose(db, windowMs, at, now).mail[id].kind.Alert?
  {
    DisclosuresAreNew(db, windowMs, at, now);
    EnqueuesKeepMail(db, Disclose(db, windowMs, at, now), Disclosures(db, windowMs, at, now));
  }

  lemma DiscloseOneEach(db: Db, windowMs: int, at: int, now: int)
    requires MailOk(db) && OneEach(db.mail)
    ensures OneEach(Disclose(db, windowMs, at, now).mail)
  {
    FilingNewKeepsOneEach(db.mail, Disclosures(db, windowMs, at, now));
  }
}
