/** What single transactions leave behind, and what the retention sweep must not touch. */
module RepoAccounts {
  import opened RepoTables
  import opened RepoMail
  import opened RepoWatches
  import opened RepoWatchProofs
  import opened RepoRuns
  import opened RepoSteps
  import opened RepoInvariant
  import opened RepoTheorems

  lemma CreateLookup(db: Db, email: string, keys: set<string>, maxSubscribers: Option<nat>, suppressed: bool, now: int, k: WatchKey)
    requires WatchesOk(db) && CreateOutcome(db, email, keys, maxSubscribers).Created?
    ensures var after, s := Create(db, email, keys, maxSubscribers, suppressed, now), db.nextSubscriber;
            && (k in after.watches <==> k in db.watches || (k.0 == s && k.1 in keys))
            && (k.0 == s && k.1 in keys ==> after.watches[k] == StagedRow(now))
            && (k in db.watches ==> k.0 != s && after.watches[k] == db.watches[k])
  {
    CreateIs(db, email, keys, maxSubscribers, suppressed, now);
    if k in db.watches { assert WatchOk(k, db.watches[k], db.subs, db.history); }
    StagedLookup(db.watches, db.nextSubscriber, keys, now, k);
  }

  /** A registration's watches are its keys, all live and staged; nobody else's change. */
  lemma CreateStages(db: Db, email: string, keys: set<string>, maxSubscribers: Option<nat>, suppressed: bool, now: int, key: string)
    requires WatchesOk(db) && CreateOutcome(db, email, keys, maxSubscribers).Created?
    ensures var after, s := Create(db, email, keys, maxSubscribers, suppressed, now), db.nextSubscriber;
            && s !in db.subs && s in after.subs && after.subs[s] == Subscriber(email, None, now)
            && (key in keys <==> (s, key) in after.watches)
            && (key in keys ==> Live(after.watches[(s, key)]) && after.watches[(s, key)].activationOrder.None?)
  {
    CreateIs(db, email, keys, maxSubscribers, suppressed, now);
    CreateLookup(db, email, keys, maxSubscribers, suppressed, now, (db.nextSubscriber, key));
  }

  // ----- addresses -----

  /** `subscribers_email_unique` */
  ghost predicate EmailsUnique(subs: Subscribers) {
    forall s, t | s in subs && t in subs && s != t :: subs[s].email != subs[t].email
  }

  lemma NextEmails(w: World, step: Step, config: Config)
    requires Inv(w, config) && Enabled(w, step) && EmailsUnique(w.db.subs)
    ensures EmailsUnique(NextDb(w, step, config).subs)
  {
    if !Exclusive(w, step.op) {
      UnlockedStepsLeaveWatches(w, step, config);
    } else if Removes(step.op) {
      RemovingShrinks(w, step, config);
    } else if step.op.CreateOp? {
      CreateKeepsEmails(w.db, step.op.email, step.op.keys, step.op.maxSubscribers, step.op.suppressed, step.now);
    }
  }

  lemma CreateKeepsEmails(db: Db, email: string, keys: set<string>, maxSubscribers: Option<nat>, suppressed: bool, now: int)
    requires EmailsUnique(db.subs)
    ensures EmailsUnique(Create(db, email, keys, maxSubscribers, suppressed, now).subs)
  {
    if CreateOutcome(db, email, keys, maxSubscribers).Created? {
      CreateIs(db, email, keys, maxSubscribers, suppressed, now);
      assert !EmailTaken(db.subs, email);
    }
  }

  /** In every reachable world no two subscribers have one address. */
  lemma {:induction false} AddressesAreUnique(ws: seq<World>, steps: seq<Step>, config: Config, t: nat)
    requires IsRun(ws, steps, config) && t < |ws|
    ensures EmailsUnique(ws[t].db.subs)
  {
    if t > 0 {
      AddressesAreUnique(ws, steps, config, t - 1);
      RunKeepsInv(ws, steps, config, t - 1);
      assert IsStep(ws[t - 1], steps[t - 1], ws[t], config);
      NextEmails(ws[t - 1], steps[t - 1], config);
    }
  }

  /** In every reachable world a subscriber has at most one alert of an opening and one disclosure of a window. */
  lemma EachIsFiledOnce(ws: seq<World>, steps: seq<Step>, config: Config, t: nat, i: JobId, j: JobId)
    requires IsRun(ws, steps, config) && t < |ws| && i in ws[t].db.mail && j in ws[t].db.mail
    requires SameFiling(ws[t].db.mail[i], ws[t].db.mail[j])
    ensures i == j
  {
    RunKeepsInv(ws, steps, config, t);
  }

  // ----- silence -----

  /** Removing a watch leaves no active alert of it; retiring a class, no active alert or disclosure about it. */
  lemma RemovalsSilence(db: Db, s: nat, key: string, cutoff: Option<nat>, now: int, id: JobId)
    ensures var removed := Remove(db, s, key, now).mail;
            id in removed && removed[id].kind.Alert? && removed[id].subscriber == Some(s) && removed[id].classKey == Some(key) ==>
              !Active(removed[id])
    ensures var retired := RetireClass(db, key, cutoff, now).mail;
            id in retired && (retired[id].kind.Alert? || retired[id].kind.BlindWindow?) && retired[id].classKey == Some(key) ==>
              !Active(retired[id])
  {
  }

  // ----- retention -----

  /**
   The sweep keeps every Confirmed subscriber with all live watches, every class row that a kept
   watch refers to, and every active job that is neither an expired alert nor a purged subscriber's.
   */
  lemma SweepSparesLiveData(db: Db, at: int, now: int, k: WatchKey)
    requires k in db.watches && Live(db.watches[k]) && IsConfirmed(db.subs, k.0)
    ensures var after := Sweep(db, at, now);
            && k.0 in after.subs && after.subs[k.0] == db.subs[k.0]
            && k in after.watches && after.watches[k] == db.watches[k]
            && (k.1 in db.classes ==> k.1 in after.classes && after.classes[k.1] == db.classes[k.1])
  {
    var settled := SweepSubscribers(db, at, now);
    assert k in settled.watches && k.0 in settled.subs;
    var kept := DropRetired(settled.watches, at - TERMINAL_RETENTION_MS);
    assert k in kept;
  }

  lemma SweepSparesActiveMail(db: Db, at: int, now: int, id: JobId)
    requires id in db.mail && Active(db.mail[id]) && id !in ExpiredAlerts(db.mail, now)
    requires db.mail[id].subscriber.Some? ==> db.mail[id].subscriber.value !in StalePending(db.subs, at - PENDING_RETENTION_MS)
    ensures id in Sweep(db, at, now).mail && Sweep(db, at, now).mail[id] == db.mail[id]
  {
    var settled := SweepSubscribers(db, at, now);
    assert id in settled.mail && settled.mail[id] == db.mail[id];
  }
}
