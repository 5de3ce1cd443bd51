/** What the repository promises over every run. */
module RepoTheorems {
  import opened RepoTables
  import opened RepoMail
  import opened RepoMailProofs
  import opened RepoWatches
  import opened RepoWatchProofs
  import opened RepoState
  import opened RepoStateProofs
  import opened RepoRuns
  import opened RepoInvariant
  import opened RepoGrowth

  // ----- runs -----

  ghost predicate IsStep(before: World, step: Step, after: World, config: Config) {
    Enabled(before, step) && config.maxBackoffSeconds >= 1 && after == Next(before, step, config)
  }

  /** A run from the empty tables: ws[i] is the world before steps[i]. */
  ghost predicate IsRun(ws: seq<World>, steps: seq<Step>, config: Config) {
    && config.maxBackoffSeconds >= 1 && |ws| == |steps| + 1 && Initial(ws[0])
    && (forall i {:trigger steps[i]} | 0 <= i < |steps| :: IsStep(ws[i], steps[i], ws[i + 1], config))
  }

  lemma {:induction false} RunKeepsInv(ws: seq<World>, steps: seq<Step>, config: Config, i: nat)
    requires IsRun(ws, steps, config) && i < |ws|
    ensures Inv(ws[i], config)
  {
    if i == 0 {
      InitialInv(ws[0], config);
    } else {
      RunKeepsInv(ws, steps, config, i - 1);
      assert IsStep(ws[i - 1], steps[i - 1], ws[i], config);
      StepKeepsInv(ws[i - 1], steps[i - 1], config);
    }
  }

  // ----- openings -----

  /**
   An opening commit.  A lost compare-and-set changes nothing.  One that wins, if its select found
   the version it was decided on, replaces that very row, and the new rows are one alert for each
   Confirmed subscriber whose live watch was last activated before that row was observed and who
   has no alert of this opening; if the select found another version or no row, it alerts nobody.
   */
  lemma OpeningIsExact(w: World, step: Step, config: Config, s: nat)
    requires Inv(w, config) && Enabled(w, step) && step.op.Commit?
    ensures var x, db, after := w.observers[step.op.o], w.db, NextDb(w, step, config);
            if !AtVersion(db, x.key, x.base.version) then after == db
            else
              var id := JobId(db.nextSerial, s, x.key);
              && !ReasonOpen(x.base, x.reason) && (FoundIt(x) ==> x.found == Some(db.classes[x.key]))
              && ReasonOpen(after.classes[x.key], x.reason) && after.classes[x.key].version == x.base.version + 1
              && (id in after.mail <==> FoundIt(x) && SawClosed(db, s, x.key) && !Filed(db.mail, Alert, s, x.key, x.openedAt))
              && (id in after.mail ==> after.mail[id] == NewAlert(s, x.key, x.openedAt, x.reason, step.now))
  {
    var x, db := w.observers[step.op.o], w.db;
    assert ObserverOk(x, db);
    if AtVersion(db, x.key, x.base.version) {
      if FoundIt(x) { TargetsAreExact(db, x.key, x.base.version, s); }
      SwapEnqueues(db, x.key, x.base.version, x.targets, x.seen, x.reason, x.openedAt, step.now, s);
    }
  }

  lemma SwapEnqueues(
    db: Db, key: string, version: nat, targets: set<nat>, seen: Seen, reason: Reason, openedAt: int, now: int, s: nat)
    requires SerialsUsed(db.mail, db.nextSerial) && AtVersion(db, key, version)
    ensures var after, id := Swap(db, key, version, targets, seen, reason, openedAt, now), JobId(db.nextSerial, s, key);
            && (id in after.mail <==> s in targets && !Filed(db.mail, Alert, s, key, openedAt))
            && (id in after.mail ==> after.mail[id] == NewAlert(s, key, openedAt, reason, now))
  {
    var written := WriteRow(db, key, seen, version + 1, Some(reason), now);
    CancelKeepsFiled(db.mail, ClosedAlerts(db.mail, key, written.classes[key]), OpeningClosed, now, Alert, s, key, openedAt);
    var added := Alerts(Recipients(written.mail, targets, key, openedAt), key, openedAt, reason, db.nextSerial, now);
    assert JobId(db.nextSerial, s, key) !in written.mail;
    assert JobId(db.nextSerial, s, key) in added <==> s in Recipients(written.mail, targets, key, openedAt);
  }

  lemma CancelKeepsFiled(mail: Mail, ids: set<JobId>, reason: TerminalReason, now: int, kind: Kind, s: nat, key: string, openedAt: int)
    ensures Filed(CancelAll(mail, ids, reason, now), kind, s, key, openedAt) <==> Filed(mail, kind, s, key, openedAt)
  {
    var after := CancelAll(mail, ids, reason, now);
    assert forall id | id in mail :: after[id].kind == mail[id].kind && after[id].subscriber == mail[id].subscriber
                                     && after[id].classKey == mail[id].classKey && after[id].openedAt == mail[id].openedAt;
    if Filed(mail, kind, s, key, openedAt) {
      var id :| id in mail && mail[id].kind == kind && mail[id].subscriber == Some(s) && mail[id].classKey == Some(key)
                && mail[id].openedAt == Some(openedAt);
      assert id in after;
    }
  }

  /** Nothing else than the alerts of the opening is new. */
  lemma OpeningEnqueuesOnlyAlerts(w: World, step: Step, config: Config, id: JobId)
    requires Inv(w, config) && Enabled(w, step) && step.op.Commit?
    requires id in NextDb(w, step, config).mail && id !in w.db.mail
    ensures id == JobId(w.db.nextSerial, id.subscriber, w.observers[step.op.o].key)
    ensures FoundIt(w.observers[step.op.o]) && SawClosed(w.db, id.subscriber, w.observers[step.op.o].key)
  {
    OpeningIsExact(w, step, config, id.subscriber);
  }

  /** The same of every opening commit of every run. */
  lemma OpeningsAreExact(ws: seq<World>, steps: seq<Step>, config: Config, i: nat, id: JobId)
    requires IsRun(ws, steps, config) && i < |steps| && steps[i].op.Commit?
    ensures steps[i].op.o in ws[i].observers && ws[i].observers[steps[i].op.o].Selected?
    ensures var x, db, after := ws[i].observers[steps[i].op.o], ws[i].db, ws[i + 1].db;
            if !AtVersion(db, x.key, x.base.version) then after == db
            else
              && (FoundIt(x) ==> x.found == Some(db.classes[x.key]))
              && (id in after.mail && id !in db.mail <==>
                    FoundIt(x) && id.serial == db.nextSerial && id.key == x.key
                    && SawClosed(db, id.subscriber, x.key) && !Filed(db.mail, Alert, id.subscriber, x.key, x.openedAt))
              && (id in after.mail && id !in db.mail ==>
                    after.mail[id] == NewAlert(id.subscriber, x.key, x.openedAt, x.reason, steps[i].now))
  {
    RunKeepsInv(ws, steps, config, i);
    assert IsStep(ws[i], steps[i], ws[i + 1], config);
    OpeningIsExact(ws[i], steps[i], config, id.subscriber);
    if id in ws[i + 1].db.mail && id !in ws[i].db.mail { OpeningEnqueuesOnlyAlerts(ws[i], steps[i], config, id); }
    if id.serial == ws[i].db.nextSerial { assert id !in ws[i].db.mail; }
  }

  /** A queued or processing alert is about a class whose current state shows its reason open. */
  lemma QueuedAlertsAreOpen(ws: seq<World>, steps: seq<Step>, config: Config, t: nat, id: JobId)
    requires IsRun(ws, steps, config) && t < |ws| && id in ws[t].db.mail
    requires ws[t].db.mail[id].kind.Alert? && Active(ws[t].db.mail[id])
    ensures var db := ws[t].db;
            && db.mail[id].classKey.Some? && db.mail[id].reason.Some? && db.mail[id].classKey.value in db.classes
            && ReasonOpen(db.classes[db.mail[id].classKey.value], db.mail[id].reason.value)
  {
    RunKeepsInv(ws, steps, config, t);
    assert AlertOk(ws[t].db.mail[id], ws[t].db.classes);
  }

  // ----- watches -----

  /** The ceiling, the four watches, and activation exactly for the live watches of Confirmed subscribers. */
  lemma DemandIsBounded(ws: seq<World>, steps: seq<Step>, config: Config, t: nat)
    requires IsRun(ws, steps, config) && t < |ws|
    ensures |Sections(ws[t].db)| <= config.ceiling
    ensures forall s :: |LiveKeys(ws[t].db.watches, s)| <= MAX_WATCHES
    ensures forall k | k in ws[t].db.watches && Live(ws[t].db.watches[k]) ::
              ws[t].db.watches[k].activationOrder.Some? <==> IsConfirmed(ws[t].db.subs, k.0)
  {
    RunKeepsInv(ws, steps, config, t);
    assert forall k | k in ws[t].db.watches :: WatchOk(k, ws[t].db.watches[k], ws[t].db.subs, ws[t].db.history);
  }

  // ----- the history of a run -----

  lemma {:induction false} HistoryGrows(ws: seq<World>, steps: seq<Step>, config: Config, i: nat, j: nat)
    requires IsRun(ws, steps, config) && i <= j < |ws|
    ensures |ws[i].db.history| <= |ws[j].db.history| && ws[j].db.history[..|ws[i].db.history|] == ws[i].db.history
    decreases j - i
  {
    if i < j {
      HistoryGrows(ws, steps, config, i, j - 1);
      assert IsStep(ws[j - 1], steps[j - 1], ws[j], config);
      NextExtends(ws[j - 1], steps[j - 1], config);
      var h := |ws[i].db.history|;
      assert ws[j].db.history[..h] == ws[j].db.history[..|ws[j - 1].db.history|][..h];
    }
  }

  /** The step appends the entry to the history. */
  ghost predicate Draws(before: World, after: World, e: Entry) {
    exists n :: |before.db.history| <= n < |after.db.history| && after.db.history[n] == e
  }

  /** Every value drawn since a world was drawn by one of the steps since. */
  lemma {:induction false} DrawnByAStep(ws: seq<World>, steps: seq<Step>, config: Config, i: nat, j: nat, n: nat)
    requires IsRun(ws, steps, config) && i <= j < |ws| && |ws[i].db.history| <= n < |ws[j].db.history|
    ensures exists t :: i <= t < j && Draws(ws[t], ws[t + 1], ws[j].db.history[n])
    decreases j - i
  {
    HistoryGrows(ws, steps, config, j - 1, j);
    if n < |ws[j - 1].db.history| {
      DrawnByAStep(ws, steps, config, i, j - 1, n);
      assert ws[j].db.history[..|ws[j - 1].db.history|][n] == ws[j].db.history[n];
    } else {
      assert Draws(ws[j - 1], ws[j], ws[j].db.history[n]);
    }
  }

  lemma DrawnStays(ws: seq<World>, steps: seq<Step>, config: Config, t: nat, j: nat, e: Entry) returns (n: nat)
    requires IsRun(ws, steps, config) && t < j < |ws| && Draws(ws[t], ws[t + 1], e)
    ensures |ws[t].db.history| <= n < |ws[j].db.history| && ws[j].db.history[n] == e
  {
    n :| |ws[t].db.history| <= n < |ws[t + 1].db.history| && ws[t + 1].db.history[n] == e;
    HistoryGrows(ws, steps, config, t + 1, j);
    assert ws[j].db.history[..|ws[t + 1].db.history|][n] == e;
  }

  // ----- class-gone retirement -----

  /**
   A class-gone result whose cutoff was drawn at step i retires a live watch of the class exactly
   when no step since then activated it: staged watches and those activated up to the cutoff go,
   those added, revived or confirmed later stay.
   */
  lemma CutoffSparesLaterActivations(
    ws: seq<World>, steps: seq<Step>, config: Config, i: nat, j: nat, cutoff: nat, s: nat, key: string, now: int)
    requires IsRun(ws, steps, config) && i < j < |ws|
    requires steps[i].op.CutoffOp? && cutoff == |ws[i + 1].db.history|
    requires (s, key) in ws[j].db.watches && Live(ws[j].db.watches[(s, key)])
    ensures (s, key) in RetireClass(ws[j].db, key, Some(cutoff), now).watches
    ensures !Live(RetireClass(ws[j].db, key, Some(cutoff), now).watches[(s, key)])
       <==> !exists t :: i < t < j && Draws(ws[t], ws[t + 1], Activated(s, key))
  {
    RunKeepsInv(ws, steps, config, j);
    if t :| i < t < j && Draws(ws[t], ws[t + 1], Activated(s, key)) {
      ActivatedLater(ws, steps, config, i, t, j, s, key);
    } else {
      NotActivatedLater(ws, steps, config, i, j, s, key);
    }
  }

  lemma NotActivatedLater(ws: seq<World>, steps: seq<Step>, config: Config, i: nat, j: nat, s: nat, key: string)
    requires IsRun(ws, steps, config) && i < j < |ws| && Inv(ws[j], config) && (s, key) in ws[j].db.watches
    requires !exists t :: i < t < j && Draws(ws[t], ws[t + 1], Activated(s, key))
    ensures var w := ws[j].db.watches[(s, key)]; w.activationOrder.Some? ==> w.activationOrder.value <= |ws[i + 1].db.history|
  {
    var w := ws[j].db.watches[(s, key)];
    assert WatchOk((s, key), w, ws[j].db.subs, ws[j].db.history);
    if w.activationOrder.Some? && w.activationOrder.value > |ws[i + 1].db.history| {
      DrawnByAStep(ws, steps, config, i + 1, j, w.activationOrder.value - 1);
    }
  }

  lemma ActivatedLater(ws: seq<World>, steps: seq<Step>, config: Config, i: nat, t: nat, j: nat, s: nat, key: string)
    requires IsRun(ws, steps, config) && i < t < j < |ws| && Draws(ws[t], ws[t + 1], Activated(s, key)) && Inv(ws[j], config)
    requires (s, key) in ws[j].db.watches && Live(ws[j].db.watches[(s, key)])
    ensures var w := ws[j].db.watches[(s, key)]; w.activationOrder.Some? && w.activationOrder.value > |ws[i + 1].db.history|
  {
    var n := DrawnStays(ws, steps, config, t, j, Activated(s, key));
    HistoryGrows(ws, steps, config, i + 1, t);
    assert ws[j].db.history[n].Activated?;
    assert WatchOk((s, key), ws[j].db.watches[(s, key)], ws[j].db.subs, ws[j].db.history);
  }

  // ----- claims -----

  function ResolvedBy(op: Op): Option<JobId> { if op.ResolveOp? then Some(op.id) else None }

  lemma RunGrows(ws: seq<World>, steps: seq<Step>, config: Config, i: nat)
    requires IsRun(ws, steps, config) && i < |steps|
    ensures Grows(ws[i].db, ws[i + 1].db, ResolvedBy(steps[i].op)) && RowsStep(ws[i].db.mail, ws[i + 1].db.mail)
  {
    RunKeepsInv(ws, steps, config, i);
    assert IsStep(ws[i], steps[i], ws[i + 1], config);
    NextGrows(ws[i], steps[i], config);
    NextMail(ws[i], steps[i], config);
  }

  /** The dispatcher holding the token settles the row. */
  ghost predicate Settled(w: World, step: Step, id: JobId, token: nat) {
    Fenced(step.op) && step.op.id == id && step.op.token == token && Owns(w.db.mail, id, token)
  }

  /** A settlement takes the token off the row. */
  lemma SettlingEndsTheClaim(w: World, step: Step, config: Config, id: JobId, token: nat)
    requires config.maxBackoffSeconds >= 1 && Enabled(w, step) && Settled(w, step, id, token)
    ensures !Owns(NextDb(w, step, config).mail, id, token)
  {
  }

  /** A settlement without the claim changes nothing. */
  lemma LostFenceChangesNothing(w: World, step: Step, config: Config)
    requires config.maxBackoffSeconds >= 1 && Enabled(w, step) && Fenced(step.op) && !Owns(w.db.mail, step.op.id, step.op.token)
    ensures NextDb(w, step, config) == w.db
  {
  }

  /** What every step does to the mail, whatever it is. */
  ghost predicate Advances(before: Db, after: Db) {
    RowsStep(before.mail, after.mail) && exists resolved :: Grows(before, after, resolved)
  }

  lemma RunAdvances(ws: seq<World>, steps: seq<Step>, config: Config, i: nat)
    requires IsRun(ws, steps, config) && i + 1 < |ws|
    ensures Advances(ws[i].db, ws[i + 1].db)
  {
    RunGrows(ws, steps, config, i);
  }

  /** A token that was drawn and does not own the row never will. */
  lemma {:induction false} LostFenceStaysLost(ws: seq<World>, steps: seq<Step>, config: Config, i: nat, j: nat, id: JobId, token: nat)
    requires IsRun(ws, steps, config) && i <= j < |ws|
    requires !Owns(ws[i].db.mail, id, token) && token < ws[i].db.nextToken
    ensures !Owns(ws[j].db.mail, id, token) && token < ws[j].db.nextToken
    decreases j - i
  {
    if i < j {
      LostFenceStaysLost(ws, steps, config, i, j - 1, id, token);
      RunAdvances(ws, steps, config, j - 1);
    }
  }

  lemma SettledIsLost(ws: seq<World>, steps: seq<Step>, config: Config, i: nat, id: JobId, token: nat)
    requires IsRun(ws, steps, config) && i < |steps| && Settled(ws[i], steps[i], id, token)
    ensures !Owns(ws[i + 1].db.mail, id, token) && token < ws[i + 1].db.nextToken
  {
    RunKeepsInv(ws, steps, config, i);
    RunGrows(ws, steps, config, i);
    assert RowOk(ws[i].db.mail[id], ws[i].db.nextToken);
    assert IsStep(ws[i], steps[i], ws[i + 1], config);
    SettlingEndsTheClaim(ws[i], steps[i], config, id, token);
  }

  /** Each claim of a job settles at most once: a second settlement by the same token changes nothing. */
  lemma SettlesOnce(ws: seq<World>, steps: seq<Step>, config: Config, i: nat, j: nat, id: JobId, token: nat)
    requires IsRun(ws, steps, config) && i < j < |steps| && Settled(ws[i], steps[i], id, token)
    ensures !Settled(ws[j], steps[j], id, token)
    ensures Fenced(steps[j].op) && steps[j].op.id == id && steps[j].op.token == token ==> ws[j + 1].db == ws[j].db
  {
    SettledIsLost(ws, steps, config, i, id, token);
    LostFenceStaysLost(ws, steps, config, i + 1, j, id, token);
    assert IsStep(ws[j], steps[j], ws[j + 1], config);
    if Fenced(steps[j].op) && steps[j].op.id == id && steps[j].op.token == token { LostFenceChangesNothing(ws[j], steps[j], config); }
  }

  // ----- rows over a run -----

  /** A row there at both ends was there in between. */
  lemma StaysFiled(ws: seq<World>, steps: seq<Step>, config: Config, i: nat, t: nat, j: nat, id: JobId)
    requires IsRun(ws, steps, config) && i <= t <= j < |ws| && id in ws[i].db.mail && id in ws[j].db.mail
    ensures id in ws[t].db.mail
  {
    RunKeepsInv(ws, steps, config, i);
    SerialsGrow(ws, steps, config, i, t);
    if id !in ws[t].db.mail { NoRebirth(ws, steps, config, t, j, id); }
  }

  /** A row that left does not come back. */
  lemma {:induction false} NoRebirth(ws: seq<World>, steps: seq<Step>, config: Config, i: nat, j: nat, id: JobId)
    requires IsRun(ws, steps, config) && i <= j < |ws|
    requires id !in ws[i].db.mail && id.serial < ws[i].db.nextSerial
    ensures id !in ws[j].db.mail && id.serial < ws[j].db.nextSerial
    decreases j - i
  {
    if i < j {
      NoRebirth(ws, steps, config, i, j - 1, id);
      RunAdvances(ws, steps, config, j - 1);
    }
  }

  lemma RowStepComposes(a: Job, b: Job, c: Job)
    requires RowStep(a, b) && RowStep(b, c)
    ensures RowStep(a, c)
  {
  }

  /** Over any run a terminal row stays as it is, but for the detachment of a dead letter. */
  lemma {:induction false} RowsStepOverRuns(ws: seq<World>, steps: seq<Step>, config: Config, i: nat, j: nat, id: JobId)
    requires IsRun(ws, steps, config) && i <= j < |ws| && id in ws[i].db.mail && id in ws[j].db.mail
    ensures RowStep(ws[i].db.mail[id], ws[j].db.mail[id])
    ensures !Active(ws[i].db.mail[id]) && !ws[i].db.mail[id].status.DeadLetter? ==> ws[j].db.mail[id] == ws[i].db.mail[id]
    decreases j - i
  {
    if i < j {
      RunAdvances(ws, steps, config, j - 1);
      StaysFiled(ws, steps, config, i, j - 1, j, id);
      RowsStepOverRuns(ws, steps, config, i, j - 1, id);
      RowStepComposes(ws[i].db.mail[id], ws[j - 1].db.mail[id], ws[j].db.mail[id]);
    }
  }

  lemma {:induction false} SerialsGrow(ws: seq<World>, steps: seq<Step>, config: Config, i: nat, j: nat)
    requires IsRun(ws, steps, config) && i <= j < |ws|
    ensures ws[i].db.nextSerial <= ws[j].db.nextSerial
    decreases j - i
  {
    if i < j {
      SerialsGrow(ws, steps, config, i, j - 1);
      RunAdvances(ws, steps, config, j - 1);
    }
  }

  // ----- dead letters -----

  /** In every reachable world a row is dead-lettered exactly when it has its incident. */
  lemma DeadLettersHaveIncidents(ws: seq<World>, steps: seq<Step>, config: Config, t: nat, id: JobId)
    requires IsRun(ws, steps, config) && t < |ws| && id in ws[t].db.mail
    ensures ws[t].db.mail[id].status.DeadLetter? <==> id in ws[t].db.incidents
    ensures ClaimConsistent(ws[t].db.mail[id]) && ShapeValid(ws[t].db.mail[id])
  {
    RunKeepsInv(ws, steps, config, t);
    assert RowOk(ws[t].db.mail[id], ws[t].db.nextToken);
  }

  /** Until someone resolves it, an unresolved or acknowledged incident keeps its dead letter. */
  lemma {:induction false} ProtectedOverRuns(ws: seq<World>, steps: seq<Step>, config: Config, i: nat, j: nat, id: JobId)
    requires IsRun(ws, steps, config) && i <= j < |ws| && id in ws[i].db.mail && Protected(ws[i].db.incidents, id)
    requires forall t | i <= t < j :: !(steps[t].op.ResolveOp? && steps[t].op.id == id)
    ensures id in ws[j].db.mail && Protected(ws[j].db.incidents, id) && ws[j].db.mail[id].status.DeadLetter?
    decreases j - i
  {
    RunKeepsInv(ws, steps, config, j);
    if i < j {
      ProtectedOverRuns(ws, steps, config, i, j - 1, id);
      RunGrows(ws, steps, config, j - 1);
    }
  }

  // ----- what is claimed -----

  /** A claim takes only jobs before their horizon, and alerts and disclosures a live watch still justifies. */
  lemma ClaimsAreDue(ws: seq<World>, steps: seq<Step>, config: Config, t: nat, id: JobId)
    requires IsRun(ws, steps, config) && t < |steps| && steps[t].op.ClaimOp? && id in steps[t].op.chosen
    ensures id in ws[t].db.mail && id in ws[t + 1].db.mail
    ensures var before, j := ws[t].db.mail[id], ws[t + 1].db.mail[id];
            && j == ClaimRow(before, ws[t].db.nextToken, steps[t].now)
            && steps[t].now < RetryDeadline(before)
            && (j.kind.Alert? || j.kind.BlindWindow? ==> Justified(ws[t].db.subs, ws[t].db.watches, j))
  {
    RunKeepsInv(ws, steps, config, t);
    assert IsStep(ws[t], steps[t], ws[t + 1], config);
    assert forall i | i in ws[t].db.mail :: RowOk(ws[t].db.mail[i], ws[t].db.nextToken);
    ClaimableIsDue(ws[t].db, steps[t].op.lease, steps[t].now, id);
  }
}
