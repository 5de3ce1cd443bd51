/**
 What every transaction keeps of the watches: activation in commit order, four live watches a
 subscriber, the ceiling on distinct Sections.
 */
module RepoWatchProofs {
  import opened RepoTables
  import opened RepoMail
  import opened RepoWatches

  // ----- reading the history -----

  /** The sequence value of the latest activation of a watch, 0 if there was none. */
  function LastActivation(history: seq<Entry>, s: nat, key: string): (order: nat)
    ensures order <= |history|
    ensures order > 0 ==> history[order - 1] == Activated(s, key)
    ensures forall i | order <= i < |history| :: history[i] != Activated(s, key)
  {
    if history == [] then 0
    else if history[|history| - 1] == Activated(s, key) then |history|
    else LastActivation(history[..|history| - 1], s, key)
  }

  /** The sequence value of the latest committed observation of a class, 0 if there was none. */
  function LastObservation(history: seq<Entry>, key: string): (order: nat)
    ensures order <= |history|
    ensures order > 0 ==> history[order - 1].Observed? && history[order - 1].key == key
    ensures forall i | order <= i < |history| :: !(history[i].Observed? && history[i].key == key)
  {
    if history == [] then 0
    else if history[|history| - 1].Observed? && history[|history| - 1].key == key then |history|
    else LastObservation(history[..|history| - 1], key)
  }

  lemma LastActivationAppend(history: seq<Entry>, e: Entry, s: nat, key: string)
    ensures LastActivation(history + [e], s, key) == if e == Activated(s, key) then |history| + 1 else LastActivation(history, s, key)
  {
    assert (history + [e])[..|history|] == history;
  }

  lemma LastObservationAppend(history: seq<Entry>, e: Entry, key: string)
    ensures LastObservation(history + [e], key)
         == if e.Observed? && e.key == key then |history| + 1 else LastObservation(history, key)
  {
    assert (history + [e])[..|history|] == history;
  }

  predicate Distinct(keys: seq<string>) { forall i, j | 0 <= i < j < |keys| :: keys[i] != keys[j] }

  lemma {:induction false} LastActivationElsewhere(history: seq<Entry>, s: nat, keys: seq<string>, t: nat, key: string)
    requires t != s || key !in keys
    ensures LastActivation(history + Activations(s, keys), t, key) == LastActivation(history, t, key)
    decreases |keys|
  {
    if keys == [] {
      assert history + Activations(s, keys) == history;
    } else {
      var n := |keys| - 1;
      LastActivationElsewhere(history, s, keys[..n], t, key);
      assert history + Activations(s, keys) == (history + Activations(s, keys[..n])) + [Activated(s, keys[n])];
      LastActivationAppend(history + Activations(s, keys[..n]), Activated(s, keys[n]), t, key);
    }
  }

  lemma {:induction false} LastActivationConfirm(history: seq<Entry>, s: nat, keys: seq<string>, i: nat)
    requires Distinct(keys) && i < |keys|
    ensures LastActivation(history + Activations(s, keys), s, keys[i]) == |history| + i + 1
    decreases |keys|
  {
    var n := |keys| - 1;
    assert history + Activations(s, keys) == (history + Activations(s, keys[..n])) + [Activated(s, keys[n])];
    LastActivationAppend(history + Activations(s, keys[..n]), Activated(s, keys[n]), s, keys[i]);
    if i < n { LastActivationConfirm(history, s, keys[..n], i); }
  }

  lemma {:induction false} LastObservationConfirm(history: seq<Entry>, s: nat, keys: seq<string>, c: string)
    ensures LastObservation(history + Activations(s, keys), c) == LastObservation(history, c)
    decreases |keys|
  {
    if keys == [] {
      assert history + Activations(s, keys) == history;
    } else {
      var n := |keys| - 1;
      LastObservationConfirm(history, s, keys[..n], c);
      assert history + Activations(s, keys) == (history + Activations(s, keys[..n])) + [Activated(s, keys[n])];
      LastObservationAppend(history + Activations(s, keys[..n]), Activated(s, keys[n]), c);
    }
  }

  /** The activation loop touches exactly the staged keys and numbers them in order. */
  lemma {:induction false} ActivateAllAt(watches: Watches, s: nat, keys: seq<string>, order: nat, now: int, k: WatchKey)
    requires Distinct(keys)
    ensures k in ActivateAll(watches, s, keys, order, now) <==> k in watches
    ensures k in watches && !(k.0 == s && k.1 in keys) ==> ActivateAll(watches, s, keys, order, now)[k] == watches[k]
    ensures forall i | 0 <= i < |keys| && k in watches && k == (s, keys[i]) ::
              ActivateAll(watches, s, keys, order, now)[k] == Activate(watches[k], order + i + 1, now)
    decreases |keys|
  {
    if keys != [] {
      var n := |keys| - 1;
      ActivateAllAt(watches, s, keys[..n], order, now, k);
      assert forall i | 0 <= i < n :: keys[..n][i] == keys[i];
      assert keys == keys[..n] + [keys[n]];
    }
  }

  // ----- the invariant -----

  /** Activated exactly when live and Confirmed, at the value its latest activation drew. */
  predicate WatchOk(k: WatchKey, w: Watch, subs: Subscribers, history: seq<Entry>) {
    && k.0 in subs && ActivationConsistent(w)
    && (Live(w) && subs[k.0].confirmedAt.Some? ==> w.activationOrder.Some?)
    && (w.activationOrder.Some? ==> subs[k.0].confirmedAt.Some? && w.activationOrder.value == LastActivation(history, k.0, k.1))
  }

  ghost predicate WatchesOk(db: Db) {
    && (forall k | k in db.watches :: WatchOk(k, db.watches[k], db.subs, db.history))
    && (forall s | s in db.subs :: s < db.nextSubscriber)
    && (forall s :: |LiveKeys(db.watches, s)| <= MAX_WATCHES)
  }

  /** Only Confirmed subscribers were ever activated, and identifiers are not used twice. */
  ghost predicate ActivationsOk(db: Db) {
    forall n | 0 <= n < |db.history| && db.history[n].Activated? ::
      && db.history[n].subscriber < db.nextSubscriber
      && (db.history[n].subscriber in db.subs ==> db.subs[db.history[n].subscriber].confirmedAt.Some?)
  }

  ghost predicate WithinCeiling(db: Db, ceiling: nat) { |Sections(db)| <= ceiling }

  lemma SubsetCard<T>(a: set<T>, b: set<T>)
    requires a <= b
    ensures |a| <= |b|
  {
    assert b == a + (b - a);
  }

  lemma UnionCard<T>(a: set<T>, b: set<T>)
    ensures |a + b| == |a| + |b| - |a * b|
  {
    assert a + b == a + (b - a);
    assert b == (b - a) + a * b;
  }

  /** The check admits keys exactly when the Sections with them stay within the ceiling. */
  lemma CapacityIsUnion(db: Db, keys: set<string>, ceiling: nat)
    requires keys != {}
    ensures HasCapacity(db, keys, Some(ceiling)) <==> |Sections(db) + keys| <= ceiling
  {
    UnionCard(Sections(db), keys);
  }

  // ----- removals -----

  /** Watches and subscribers only leave or retire. */
  ghost predicate Shrinks(before: Db, after: Db) {
    && after.history == before.history && after.nextSubscriber == before.nextSubscriber
    && (forall s | s in after.subs :: s in before.subs && after.subs[s] == before.subs[s])
    && (forall k | k in after.watches :: k.0 in after.subs && k in before.watches
         && (after.watches[k] == before.watches[k]
             || (after.watches[k] == before.watches[k].(retiredAt := after.watches[k].retiredAt) && !Live(after.watches[k]))))
  }

  lemma ShrinkingKeepsWatches(before: Db, after: Db, ceiling: nat)
    requires WatchesOk(before) && WithinCeiling(before, ceiling) && Shrinks(before, after)
    ensures WatchesOk(after) && WithinCeiling(after, ceiling)
  {
    forall s ensures |LiveKeys(after.watches, s)| <= MAX_WATCHES {
      SubsetCard(LiveKeys(after.watches, s), LiveKeys(before.watches, s));
    }
    forall key | key in Sections(after) ensures key in Sections(before) {
      var k :| k in after.watches && Counted(after, k) && k.1 == key;
      assert Counted(before, k);
    }
    SubsetCard(Sections(after), Sections(before));
    forall k | k in after.watches ensures WatchOk(k, after.watches[k], after.subs, after.history) {
      assert WatchOk(k, before.watches[k], before.subs, before.history);
    }
  }

  lemma RemovalsShrink(db: Db, s: nat, key: string, cutoff: Option<nat>, now: int)
    requires WatchesOk(db)
    ensures Shrinks(db, Remove(db, s, key, now)) && Shrinks(db, RetireClass(db, key, cutoff, now))
  {
    assert forall k | k in db.watches :: WatchOk(k, db.watches[k], db.subs, db.history);
  }

  lemma DeleteShrinks(db: Db, gone: set<nat>)
    requires WatchesOk(db)
    ensures Shrinks(db, DeleteSubscribers(db, gone))
  {
    assert forall k | k in db.watches :: WatchOk(k, db.watches[k], db.subs, db.history);
  }

  lemma SweepShrinks(db: Db, at: int, now: int)
    requires WatchesOk(db)
    ensures Shrinks(db, Sweep(db, at, now))
  {
    var unexpired := db.(mail := CancelAll(db.mail, ExpiredAlerts(db.mail, now), Expired, now));
    DeleteShrinks(unexpired, StalePending(db.subs, at - PENDING_RETENTION_MS));
  }

  // ----- values of the sequence drawn for something else -----

  lemma DrawingKeepsWatches(before: Db, after: Db, e: Entry, ceiling: nat)
    requires WatchesOk(before) && WithinCeiling(before, ceiling) && !e.Activated?
    requires after.watches == before.watches && after.subs == before.subs && after.nextSubscriber == before.nextSubscriber
    requires after.history == before.history + [e]
    ensures WatchesOk(after) && WithinCeiling(after, ceiling)
  {
    forall k | k in after.watches ensures WatchOk(k, after.watches[k], after.subs, after.history) {
      assert WatchOk(k, before.watches[k], before.subs, before.history);
      LastActivationAppend(before.history, e, k.0, k.1);
    }
    assert forall k | k in after.watches :: Counted(after, k) == Counted(before, k);
    assert Sections(after) == Sections(before);
  }

  // ----- registration and activation -----

  lemma StagedLookup(watches: Watches, s: nat, keys: set<string>, now: int, k: WatchKey)
    ensures k in watches + StagedRows(s, keys, now) <==> k in watches || (k.0 == s && k.1 in keys)
    ensures k.0 == s && k.1 in keys ==> (watches + StagedRows(s, keys, now))[k] == StagedRow(now)
    ensures k in watches && !(k.0 == s && k.1 in keys) ==> (watches + StagedRows(s, keys, now))[k] == watches[k]
  {
    assert k in StagedRows(s, keys, now) <==> k.0 == s && k.1 in keys;
  }

  lemma CreateKeepsWatches(db: Db, email: string, keys: set<string>, maxSubscribers: Option<nat>, suppressed: bool, now: int, ceiling: nat)
    requires WatchesOk(db) && WithinCeiling(db, ceiling)
    ensures var after := Create(db, email, keys, maxSubscribers, suppressed, now); WatchesOk(after) && WithinCeiling(after, ceiling)
  {
    var outcome := CreateOutcome(db, email, keys, maxSubscribers);
    if outcome.Created? {
      var s := outcome.subscriber;
      var after := Create(db, email, keys, maxSubscribers, suppressed, now);
      CreateIs(db, email, keys, maxSubscribers, suppressed, now);
      CreateRows(db, after, s, keys, now);
      forall t ensures |LiveKeys(after.watches, t)| <= MAX_WATCHES {
        CreateLiveKeys(db, s, keys, now, t);
      }
      CreateSections(db, after, s, keys, now);
    }
  }

  lemma CreateIs(db: Db, email: string, keys: set<string>, maxSubscribers: Option<nat>, suppressed: bool, now: int)
    requires CreateOutcome(db, email, keys, maxSubscribers).Created?
    ensures var after := Create(db, email, keys, maxSubscribers, suppressed, now);
            && after.subs == db.subs[db.nextSubscriber := Subscriber(email, None, now)]
            && after.watches == db.watches + StagedRows(db.nextSubscriber, keys, now)
            && after.nextSubscriber == db.nextSubscriber + 1 && after.history == db.history
            && after.mail == db.mail + (if suppressed then map[] else MailFor(Confirmation, db.nextSubscriber, db.nextSerial, now))
            && after.nextSerial == db.nextSerial + 1 && after.nextToken == db.nextToken
            && after.incidents == db.incidents && after.classes == db.classes
  {
  }

  lemma CreateRows(db: Db, after: Db, s: nat, keys: set<string>, now: int)
    requires WatchesOk(db) && s == db.nextSubscriber && after.history == db.history
    requires after.watches == db.watches + StagedRows(s, keys, now)
    requires s in after.subs && after.subs[s].confirmedAt.None?
    requires forall t | t in db.subs :: t in after.subs && after.subs[t] == db.subs[t]
    ensures forall k | k in after.watches :: WatchOk(k, after.watches[k], after.subs, after.history)
  {
    forall k | k in after.watches ensures WatchOk(k, after.watches[k], after.subs, after.history) {
      StagedLookup(db.watches, s, keys, now, k);
      if k in db.watches { assert WatchOk(k, db.watches[k], db.subs, db.history); }
    }
  }

  lemma CreateLiveKeys(db: Db, s: nat, keys: set<string>, now: int, t: nat)
    requires WatchesOk(db) && s == db.nextSubscriber && |keys| <= MAX_WATCHES
    ensures |LiveKeys(db.watches + StagedRows(s, keys, now), t)| <= MAX_WATCHES
  {
    var after := db.watches + StagedRows(s, keys, now);
    forall key | key in LiveKeys(after, t) ensures key in (if t == s then keys else LiveKeys(db.watches, t)) {
      StagedLookup(db.watches, s, keys, now, (t, key));
      if (t, key) in db.watches { assert WatchOk((t, key), db.watches[(t, key)], db.subs, db.history); }
    }
    SubsetCard(LiveKeys(after, t), if t == s then keys else LiveKeys(db.watches, t));
  }

  lemma CreateSections(db: Db, after: Db, s: nat, keys: set<string>, now: int)
    requires after.watches == db.watches + StagedRows(s, keys, now) && s !in db.subs
    requires s in after.subs && after.subs == db.subs[s := after.subs[s]] && after.subs[s].confirmedAt.None?
    ensures |Sections(after)| <= |Sections(db)|
  {
    forall key | key in Sections(after) ensures key in Sections(db) {
      var k :| k in after.watches && Counted(after, k) && k.1 == key;
      StagedLookup(db.watches, s, keys, now, k);
      assert Counted(db, k);
    }
    SubsetCard(Sections(after), Sections(db));
  }

  lemma ConfirmCounts(db: Db, s: nat, staged: seq<string>, ceiling: Option<nat>, now: int, k: WatchKey)
    requires WatchesOk(db) && IsStaged(db.watches, s, staged) && ConfirmOutcome(db, s, staged, ceiling).Confirmed?
    ensures Counted(Confirm(db, s, staged, ceiling, now), k) <==> Counted(db, k) || (k in db.watches && k.0 == s && k.1 in staged)
  {
    ActivateAllAt(db.watches, s, staged, |db.history|, now, k);
    if k in db.watches { assert WatchOk(k, db.watches[k], db.subs, db.history); }
    if k in db.watches && k.0 == s && k.1 in staged {
      var i :| 0 <= i < |staged| && staged[i] == k.1;
    }
  }

  /** Confirmation turns every live watch of the subscriber into counted demand, and nothing else. */
  lemma ConfirmSections(db: Db, s: nat, staged: seq<string>, ceiling: Option<nat>, now: int)
    requires WatchesOk(db) && IsStaged(db.watches, s, staged) && ConfirmOutcome(db, s, staged, ceiling).Confirmed?
    ensures Sections(Confirm(db, s, staged, ceiling, now)) == Sections(db) + (set key | key in staged)
  {
    var after := Confirm(db, s, staged, ceiling, now);
    forall k ensures Counted(after, k) <==> Counted(db, k) || (k in db.watches && k.0 == s && k.1 in staged) {
      ConfirmCounts(db, s, staged, ceiling, now, k);
    }
    forall key | key in staged ensures key in Sections(after) {
      assert Counted(after, (s, key));
    }
    forall key | key in Sections(db) ensures key in Sections(after) {
      var k :| k in db.watches && Counted(db, k) && k.1 == key;
      assert Counted(after, k);
    }
  }

  lemma ConfirmStagedRow(db: Db, s: nat, staged: seq<string>, now: int, ceiling: Option<nat>, i: nat)
    requires WatchesOk(db) && IsStaged(db.watches, s, staged) && ConfirmOutcome(db, s, staged, ceiling).Confirmed?
    requires i < |staged|
    ensures var after := Confirm(db, s, staged, ceiling, now);
            var k := (s, staged[i]);
            k in after.watches && WatchOk(k, after.watches[k], after.subs, after.history) && Live(after.watches[k])
  {
    ActivateAllAt(db.watches, s, staged, |db.history|, now, (s, staged[i]));
    LastActivationConfirm(db.history, s, staged, i);
  }

  lemma ConfirmRows(db: Db, s: nat, staged: seq<string>, now: int, ceiling: Option<nat>, k: WatchKey)
    requires WatchesOk(db) && IsStaged(db.watches, s, staged) && ConfirmOutcome(db, s, staged, ceiling).Confirmed?
    requires k in db.watches
    ensures var after := Confirm(db, s, staged, ceiling, now);
            k in after.watches && WatchOk(k, after.watches[k], after.subs, after.history) && Live(after.watches[k]) == Live(db.watches[k])
  {
    if k.0 == s && k.1 in staged {
      var i :| 0 <= i < |staged| && staged[i] == k.1;
      ConfirmStagedRow(db, s, staged, now, ceiling, i);
    } else {
      ActivateAllAt(db.watches, s, staged, |db.history|, now, k);
      assert WatchOk(k, db.watches[k], db.subs, db.history);
      LastActivationElsewhere(db.history, s, staged, k.0, k.1);
    }
  }

  lemma ConfirmKeepsWatches(db: Db, s: nat, staged: seq<string>, now: int, ceiling: nat)
    requires WatchesOk(db) && WithinCeiling(db, ceiling) && IsStaged(db.watches, s, staged)
    ensures var after := Confirm(db, s, staged, Some(ceiling), now); WatchesOk(after) && WithinCeiling(after, ceiling)
  {
    var after := Confirm(db, s, staged, Some(ceiling), now);
    if ConfirmOutcome(db, s, staged, Some(ceiling)).Confirmed? {
      assert after.watches.Keys == db.watches.Keys by {
        forall k ensures k in after.watches <==> k in db.watches { ActivateAllAt(db.watches, s, staged, |db.history|, now, k); }
      }
      forall k | k in db.watches
        ensures k in after.watches && WatchOk(k, after.watches[k], after.subs, after.history) && Live(after.watches[k]) == Live(db.watches[k])
      {
        ConfirmRows(db, s, staged, now, Some(ceiling), k);
      }
      forall t ensures |LiveKeys(after.watches, t)| <= MAX_WATCHES {
        assert LiveKeys(after.watches, t) == LiveKeys(db.watches, t);
      }
      ConfirmSections(db, s, staged, Some(ceiling), now);
      var keys := set key | key in staged;
      if keys == {} { assert Sections(db) + keys == Sections(db); } else { CapacityIsUnion(db, keys, ceiling); }
    }
  }

  lemma AddRows(db: Db, s: nat, key: string, now: int, ceiling: Option<nat>, k: WatchKey)
    requires WatchesOk(db) && AddOutcome(db, s, key, ceiling).Added? && k in Add(db, s, key, ceiling, now).watches
    ensures var after := Add(db, s, key, ceiling, now); WatchOk(k, after.watches[k], after.subs, after.history)
  {
    if k == (s, key) {
      AddedRow(db, s, key, now);
    } else {
      LastActivationAppend(db.history, Activated(s, key), k.0, k.1);
      assert WatchOk(k, db.watches[k], db.subs, db.history);
    }
  }

  lemma AddedRow(db: Db, s: nat, key: string, now: int)
    requires s in db.subs
    ensures var history := if IsConfirmed(db.subs, s) then db.history + [Activated(s, key)] else db.history;
            WatchOk((s, key), AddedWatch(db, s, key, now), db.subs, history)
  {
    LastActivationAppend(db.history, Activated(s, key), s, key);
  }

  lemma AddKeepsWatches(db: Db, s: nat, key: string, now: int, ceiling: nat)
    requires WatchesOk(db) && WithinCeiling(db, ceiling)
    ensures var after := Add(db, s, key, Some(ceiling), now); WatchesOk(after) && WithinCeiling(after, ceiling)
  {
    var after := Add(db, s, key, Some(ceiling), now);
    if AddOutcome(db, s, key, Some(ceiling)).Added? {
      forall k | k in after.watches ensures WatchOk(k, after.watches[k], after.subs, after.history) {
        AddRows(db, s, key, now, Some(ceiling), k);
      }
      forall t ensures |LiveKeys(after.watches, t)| <= MAX_WATCHES {
        AddLiveKeys(db, s, key, Some(ceiling), now, t);
      }
      AddedSections(db, s, key, now, ceiling);
    }
  }

  lemma AddLiveKeys(db: Db, s: nat, key: string, ceiling: Option<nat>, now: int, t: nat)
    requires AddOutcome(db, s, key, ceiling).Added? && |LiveKeys(db.watches, t)| <= MAX_WATCHES
    ensures |LiveKeys(Add(db, s, key, ceiling, now).watches, t)| <= MAX_WATCHES
  {
    var after := Add(db, s, key, ceiling, now);
    var bound := LiveKeys(db.watches, t) + if t == s then {key} else {};
    forall c | c in LiveKeys(after.watches, t) ensures c in bound {
      if (t, c) != (s, key) { assert (t, c) in db.watches && Live(db.watches[(t, c)]); }
    }
    SubsetCard(LiveKeys(after.watches, t), bound);
  }

  lemma AddedSections(db: Db, s: nat, key: string, now: int, ceiling: nat)
    requires WithinCeiling(db, ceiling) && AddOutcome(db, s, key, Some(ceiling)).Added?
    ensures WithinCeiling(Add(db, s, key, Some(ceiling), now), ceiling)
  {
    var after := Add(db, s, key, Some(ceiling), now);
    forall c | c in Sections(after) ensures c in Sections(db) + if db.subs[s].confirmedAt.Some? then {key} else {} {
      var k :| k in after.watches && Counted(after, k) && k.1 == c;
      if k != (s, key) { assert Counted(db, k); }
    }
    if db.subs[s].confirmedAt.Some? {
      CapacityIsUnion(db, {key}, ceiling);
      SubsetCard(Sections(after), Sections(db) + {key});
    } else {
      SubsetCard(Sections(after), Sections(db));
    }
  }
}
