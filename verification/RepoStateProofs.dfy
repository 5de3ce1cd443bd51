/**
 What every transaction keeps of the class states: each row is the latest committed observation,
 queued alerts are about open classes, alerts for one reason alternate with closed readings.
 */
module RepoStateProofs {
  import opened RepoTables
  import opened RepoWatchProofs
  import opened RepoState

  /** The row is the class's latest committed observation. */
  predicate IsLatest(history: seq<Entry>, key: string, row: ClassRow) {
    && row.observedOrder == LastObservation(history, key) > 0
    && history[row.observedOrder - 1].row == row
  }

  ghost predicate ClassesOk(classes: map<string, ClassRow>, history: seq<Entry>) {
    forall key | key in classes :: IsLatest(history, key, classes[key])
  }

  predicate AlertOk(j: Job, classes: map<string, ClassRow>) {
    j.kind.Alert? && Active(j) ==>
      j.classKey.Some? && j.classKey.value in classes && j.reason.Some? && ReasonOpen(classes[j.classKey.value], j.reason.value)
  }

  /** A queued or processing alert's reason is open in the class's current row. */
  ghost predicate AlertsOpen(mail: Mail, classes: map<string, ClassRow>) {
    forall id | id in mail :: AlertOk(mail[id], classes)
  }

  predicate Opened(e: Entry, key: string, reason: Reason) { e.Observed? && e.key == key && e.alerted == Some(reason) }

  predicate Closed(e: Entry, key: string, reason: Reason) { e.Observed? && e.key == key && !ReasonOpen(e.row, reason) }

  ghost predicate OpeningsAreOpen(history: seq<Entry>) {
    forall i | 0 <= i < |history| && history[i].Observed? && history[i].alerted.Some? ::
      ReasonOpen(history[i].row, history[i].alerted.value)
  }

  /** Between two openings of a class for one reason, a committed reading had it closed. */
  ghost predicate Alternates(history: seq<Entry>) {
    forall i, j, key, reason | 0 <= i < j < |history| && Opened(history[i], key, reason) && Opened(history[j], key, reason) ::
      exists m :: i < m < j && Closed(history[m], key, reason)
  }

  ghost predicate StateOk(db: Db) {
    ClassesOk(db.classes, db.history) && AlertsOpen(db.mail, db.classes) && OpeningsAreOpen(db.history)
  }

  /** The row was committed as the history says. */
  predicate IsEntry(history: seq<Entry>, key: string, row: ClassRow) {
    && 0 < row.observedOrder <= |history|
    && history[row.observedOrder - 1].Observed? && history[row.observedOrder - 1].key == key
    && history[row.observedOrder - 1].row == row
  }

  // ----- writing a row -----

  /** An opening writes a row in which its reason is open. */
  predicate Opens(seen: Seen, alerted: Option<Reason>) { alerted.Some? ==> ReasonOpen(RowFor(seen, 0, 0, 0), alerted.value) }

  lemma AppendIsLatest(history: seq<Entry>, e: Entry, key: string, row: ClassRow)
    requires if e.Observed? && e.key == key then row == e.row && row.observedOrder == |history| + 1 else IsLatest(history, key, row)
    ensures IsLatest(history + [e], key, row)
  {
    LastObservationAppend(history, e, key);
  }

  lemma WriteKeepsClasses(db: Db, key: string, seen: Seen, version: nat, alerted: Option<Reason>, now: int)
    requires ClassesOk(db.classes, db.history)
    ensures var after := WriteRow(db, key, seen, version, alerted, now); ClassesOk(after.classes, after.history)
  {
    var after := WriteRow(db, key, seen, version, alerted, now);
    forall c | c in after.classes ensures IsLatest(after.history, c, after.classes[c]) {
      AppendIsLatest(db.history, Observed(key, after.classes[key], alerted), c, after.classes[c]);
    }
  }

  lemma WriteKeepsAlerts(db: Db, key: string, seen: Seen, version: nat, alerted: Option<Reason>, now: int)
    requires AlertsOpen(db.mail, db.classes)
    ensures var after := WriteRow(db, key, seen, version, alerted, now); AlertsOpen(after.mail, after.classes)
  {
    var after := WriteRow(db, key, seen, version, alerted, now);
    forall id | id in after.mail ensures AlertOk(after.mail[id], after.classes) {
      assert AlertOk(db.mail[id], db.classes);
    }
  }

  lemma WriteKeepsState(db: Db, key: string, seen: Seen, version: nat, alerted: Option<Reason>, now: int)
    requires StateOk(db) && Opens(seen, alerted)
    ensures StateOk(WriteRow(db, key, seen, version, alerted, now))
  {
    WriteKeepsClasses(db, key, seen, version, alerted, now);
    WriteKeepsAlerts(db, key, seen, version, alerted, now);
  }

  lemma SwapKeepsState(db: Db, key: string, version: nat, targets: set<nat>, seen: Seen, reason: Reason, openedAt: int, now: int)
    requires StateOk(db) && Opens(seen, Some(reason))
    ensures StateOk(Swap(db, key, version, targets, seen, reason, openedAt, now))
  {
    if AtVersion(db, key, version) {
      WriteKeepsState(db, key, seen, version + 1, Some(reason), now);
      var written := WriteRow(db, key, seen, version + 1, Some(reason), now);
      var after := Swap(db, key, version, targets, seen, reason, openedAt, now);
      forall id | id in after.mail ensures AlertOk(after.mail[id], after.classes) {
        if id in written.mail { assert AlertOk(written.mail[id], written.classes); }
      }
    }
  }

  // ----- everything else -----

  /** No class row is written, no alert enqueued, and a purged class has no mail left. */
  ghost predicate Passive(before: Db, after: Db) {
    && |before.history| <= |after.history| && after.history[..|before.history|] == before.history
    && (forall i | |before.history| <= i < |after.history| :: !after.history[i].Observed?)
    && (forall key | key in after.classes :: key in before.classes && after.classes[key] == before.classes[key])
    && (forall id | id in after.mail && after.mail[id].kind.Alert? && Active(after.mail[id]) ::
          && id in before.mail && before.mail[id].kind.Alert? && Active(before.mail[id])
          && before.mail[id].classKey == after.mail[id].classKey && before.mail[id].reason == after.mail[id].reason
          && (after.mail[id].classKey.Some? && after.mail[id].classKey.value in before.classes ==>
                after.mail[id].classKey.value in after.classes))
  }

  lemma {:induction false} LastObservationPassive(before: seq<Entry>, after: seq<Entry>, key: string)
    requires |before| <= |after| && after[..|before|] == before
    requires forall i | |before| <= i < |after| :: !after[i].Observed?
    ensures LastObservation(after, key) == LastObservation(before, key)
    decreases |after|
  {
    if |after| > |before| {
      var n := |after| - 1;
      assert after[..n][..|before|] == before;
      LastObservationPassive(before, after[..n], key);
    } else {
      assert after == before;
    }
  }

  lemma PassiveKeepsState(before: Db, after: Db)
    requires StateOk(before) && Passive(before, after)
    ensures StateOk(after)
  {
    forall key | key in after.classes
      ensures IsLatest(after.history, key, after.classes[key])
    {
      assert IsLatest(before.history, key, before.classes[key]);
      LastObservationPassive(before.history, after.history, key);
      assert after.history[..|before.history|][after.classes[key].observedOrder - 1] == after.history[after.classes[key].observedOrder - 1];
    }
    forall id | id in after.mail ensures AlertOk(after.mail[id], after.classes) {
      if after.mail[id].kind.Alert? && Active(after.mail[id]) { assert AlertOk(before.mail[id], before.classes); }
    }
    assert forall i | 0 <= i < |before.history| :: after.history[i] == before.history[i];
  }

  // ----- the decision and the openings -----

  /** An opening is decided only from a row in which its reason was closed, for a reading in which it is open. */
  lemma DecisionOpens(previous: Option<ClassRow>, observation: Observation, trusted: bool, processFresh: int)
    requires Decide(previous, observation, trusted, processFresh).Open?
    ensures var a := Decide(previous, observation, trusted, processFresh);
            && previous.Some? && a.version == previous.value.version
            && !ReasonOpen(previous.value, a.reason) && ReasonOpen(RowFor(a.seen, 0, 0, 0), a.reason)
            && Max(previous.value.freshUntil, processFresh) >= a.openedAt
            && (a.reason.WaitlistOpen? ==> previous.value.openSeats > 0 || a.seen.openSeats == 0)
  {
  }

  /** Who an opening on the current row is for, in terms of the history alone. */
  ghost predicate SawClosed(db: Db, s: nat, key: string) {
    && (s, key) in db.watches && Live(db.watches[(s, key)]) && IsConfirmed(db.subs, s)
    && LastActivation(db.history, s, key) < LastObservation(db.history, key)
  }

  /** The targets are the Confirmed subscribers whose live watch was last activated before the row was observed. */
  lemma TargetsAreExact(db: Db, key: string, version: nat, s: nat)
    requires WatchesOk(db) && ClassesOk(db.classes, db.history) && AtVersion(db, key, version)
    ensures s in Targets(db, key, version) <==> SawClosed(db, s, key)
  {
    assert s in Targets(db, key, version) <==> IsTarget(db, (s, key), key, version) by { TargetIsWatch(db, key, version, s); }
    assert IsLatest(db.history, key, db.classes[key]);
    if (s, key) in db.watches { assert WatchOk((s, key), db.watches[(s, key)], db.subs, db.history); }
  }

  lemma TargetIsWatch(db: Db, key: string, version: nat, s: nat)
    ensures s in Targets(db, key, version) <==> IsTarget(db, (s, key), key, version)
  {
    if s in Targets(db, key, version) {
      var k :| k in db.watches && IsTarget(db, k, key, version) && k.0 == s;
      assert k == (s, key);
    }
  }

  /** A version that is not current selects nobody. */
  lemma StaleSelectsNobody(db: Db, key: string, version: nat)
    requires !AtVersion(db, key, version)
    ensures Targets(db, key, version) == {}
  {
  }
}
