/**
 Who is let in and what it leaves behind (src/db/repo.ts): registration, confirmation, added watches
 and the retirement of a class, in terms of the tables' fields.
 */
module RepoAdmission {
  import opened RepoTables
  import opened RepoMail
  import opened RepoWatches
  import opened RepoWatchProofs
  import opened RepoOutbox

  // ----- demand -----

  /** A live, activated watch of a Confirmed subscriber. */
  predicate IsActive(db: Db, k: WatchKey) {
    && k in db.watches && db.watches[k].retiredAt.None? && db.watches[k].activatedAt.Some? && db.watches[k].activationOrder.Some?
    && k.0 in db.subs && db.subs[k.0].confirmedAt.Some?
  }

  /** The Sections counted against the ceiling are those with such a watch. */
  lemma SectionsAreActive(db: Db, key: string)
    ensures key in Sections(db) <==> exists s :: IsActive(db, (s, key))
  {
    if s :| IsActive(db, (s, key)) { assert Counted(db, (s, key)); }
    if key in Sections(db) {
      var k :| k in db.watches && Counted(db, k) && k.1 == key;
      assert IsActive(db, (k.0, key));
    }
  }

  /** They may be watched as well: with them the active Sections stay within the ceiling. */
  ghost predicate Fit(db: Db, keys: set<string>, ceiling: Option<nat>) {
    ceiling.Some? && keys != {} ==> |Sections(db) + keys| <= ceiling.value
  }

  lemma CapacityIsFit(db: Db, keys: set<string>, ceiling: Option<nat>)
    ensures HasCapacity(db, keys, ceiling) <==> Fit(db, keys, ceiling)
  {
    if ceiling.Some? && keys != {} { CapacityIsUnion(db, keys, ceiling.value); }
  }

  // ----- registration -----

  /** A confirmation to the subscriber is new, unless the address is suppressed. */
  ghost predicate Confirms(before: Mail, after: Mail, id: JobId, suppressed: bool, now: int) {
    if suppressed then after == before
    else id in after && after == before[id := after[id]] && IsFresh(after[id], Confirmation, Some(id.subscriber), None, now)
  }

  ghost predicate Registers(before: Db, after: Db, s: nat, email: string, keys: set<string>, suppressed: bool, now: int) {
    && s == before.nextSubscriber && after.subs == before.subs[s := Subscriber(email, None, now)]
    && (forall k :: k in after.watches <==> k in before.watches || (k.0 == s && k.1 in keys))
    && (forall k | k in after.watches ::
          if k.0 == s && k.1 in keys then after.watches[k] == Watch(now, None, None, None) else after.watches[k] == before.watches[k])
    && Confirms(before.mail, after.mail, JobId(before.nextSerial, s, ""), suppressed, now)
    && after.classes == before.classes && after.incidents == before.incidents && after.history == before.history
  }

  /** The checks in order: the number of watches, the number of subscribers, the address. */
  lemma CreateIsExact(db: Db, email: string, keys: set<string>, maxSubscribers: Option<nat>, suppressed: bool, now: int)
    ensures var result, after := CreateOutcome(db, email, keys, maxSubscribers), Create(db, email, keys, maxSubscribers, suppressed, now);
            var full := maxSubscribers.Some? && |db.subs| >= maxSubscribers.value;
            && (result == TooManyWatches <==> |keys| > 4)
            && (result == SubscribersFull <==> |keys| <= 4 && full)
            && (result == DuplicateSubscriber <==> |keys| <= 4 && !full && exists s :: s in db.subs && db.subs[s].email == email)
            && if result.Created? then Registers(db, after, result.subscriber, email, keys, suppressed, now) else after == db
  {
    if CreateOutcome(db, email, keys, maxSubscribers).Created? {
      CreateIs(db, email, keys, maxSubscribers, suppressed, now);
      Registering(db, email, keys, maxSubscribers, suppressed, now);
    }
  }

  lemma Registering(db: Db, email: string, keys: set<string>, maxSubscribers: Option<nat>, suppressed: bool, now: int)
    requires CreateOutcome(db, email, keys, maxSubscribers).Created?
    ensures Registers(db, Create(db, email, keys, maxSubscribers, suppressed, now), db.nextSubscriber, email, keys, suppressed, now)
  {
    var s, after := db.nextSubscriber, Create(db, email, keys, maxSubscribers, suppressed, now);
    CreateIs(db, email, keys, maxSubscribers, suppressed, now);
    forall k
      ensures k in after.watches <==> k in db.watches || (k.0 == s && k.1 in keys)
      ensures k in after.watches ==>
                if k.0 == s && k.1 in keys then after.watches[k] == Watch(now, None, None, None) else after.watches[k] == db.watches[k]
    {
      StagedLookup(db.watches, s, keys, now, k);
    }
    RegisteringMail(db.mail, s, db.nextSerial, suppressed, now);
  }

  lemma RegisteringMail(mail: Mail, s: nat, serial: nat, suppressed: bool, now: int)
    ensures var after := mail + (if suppressed then map[] else MailFor(Confirmation, s, serial, now));
            Confirms(mail, after, JobId(serial, s, ""), suppressed, now)
  {
    var after := mail + (if suppressed then map[] else MailFor(Confirmation, s, serial, now));
    if suppressed { assert after == mail; } else { assert after == mail[JobId(serial, s, "") := NewJob(Confirmation, Some(s), None, now)]; }
  }

  // ----- activation -----

  predicate IsActivated(before: Watch, after: Watch, order: nat, now: int) {
    && (after.createdAt, after.retiredAt) == (before.createdAt, before.retiredAt)
    && (after.activatedAt, after.activationOrder) == (Some(now), Some(order))
  }

  /** The staged watches get the next values of the sequence in their order; nobody else's watches change. */
  ghost predicate Activates(before: Db, after: Db, s: nat, staged: seq<string>, now: int) {
    && after.watches.Keys == before.watches.Keys
    && (forall k | k in before.watches && !(k.0 == s && k.1 in staged) :: after.watches[k] == before.watches[k])
    && (forall i | 0 <= i < |staged| && (s, staged[i]) in before.watches ::
          IsActivated(before.watches[(s, staged[i])], after.watches[(s, staged[i])], |before.history| + i + 1, now))
    && |after.history| == |before.history| + |staged| && after.history[..|before.history|] == before.history
    && (forall i | 0 <= i < |staged| :: after.history[|before.history| + i] == Activated(s, staged[i]))
    && s in before.subs && after.subs == before.subs[s := before.subs[s].(confirmedAt := Some(now))]
    && after.mail == before.mail && after.classes == before.classes && after.incidents == before.incidents
  }

  lemma {:induction false} ActivationsAt(s: nat, keys: seq<string>, i: nat)
    requires i < |keys|
    ensures Activations(s, keys)[i] == Activated(s, keys[i])
  {
    var n := |keys| - 1;
    if i < n {
      ActivationsAt(s, keys[..n], i);
      assert Activations(s, keys)[i] == Activations(s, keys[..n])[i];
    }
  }

  lemma ConfirmedWatches(db: Db, s: nat, staged: seq<string>, ceiling: Option<nat>, now: int, k: WatchKey)
    requires IsStaged(db.watches, s, staged) && ConfirmOutcome(db, s, staged, ceiling).Confirmed?
    ensures var after := Confirm(db, s, staged, ceiling, now).watches;
            && (k in after <==> k in db.watches)
            && (k in db.watches && !(k.0 == s && k.1 in staged) ==> after[k] == db.watches[k])
            && (forall i | 0 <= i < |staged| && k in db.watches && k == (s, staged[i]) ::
                  IsActivated(db.watches[k], after[k], |db.history| + i + 1, now))
  {
    ActivateAllAt(db.watches, s, staged, |db.history|, now, k);
  }

  lemma ConfirmActivates(db: Db, s: nat, staged: seq<string>, ceiling: Option<nat>, now: int)
    requires IsStaged(db.watches, s, staged) && ConfirmOutcome(db, s, staged, ceiling).Confirmed?
    ensures Activates(db, Confirm(db, s, staged, ceiling, now), s, staged, now)
  {
    var after := Confirm(db, s, staged, ceiling, now);
    forall k
      ensures k in after.watches <==> k in db.watches
      ensures k in db.watches && !(k.0 == s && k.1 in staged) ==> after.watches[k] == db.watches[k]
    {
      ConfirmedWatches(db, s, staged, ceiling, now, k);
    }
    forall i | 0 <= i < |staged| && (s, staged[i]) in db.watches
      ensures IsActivated(db.watches[(s, staged[i])], after.watches[(s, staged[i])], |db.history| + i + 1, now)
    {
      ConfirmedWatches(db, s, staged, ceiling, now, (s, staged[i]));
    }
    assert after.history == db.history + Activations(s, staged);
    forall i | 0 <= i < |staged| ensures after.history[|db.history| + i] == Activated(s, staged[i]) { ActivationsAt(s, staged, i); }
  }

  /** A Pending subscriber is confirmed, with all live watches activated in creation order, if those watches fit. */
  lemma ConfirmIsExact(db: Db, s: nat, staged: seq<string>, ceiling: Option<nat>, now: int)
    requires IsStaged(db.watches, s, staged)
    ensures var result, after := ConfirmOutcome(db, s, staged, ceiling), Confirm(db, s, staged, ceiling, now);
            && (result == NoSubscriber <==> s !in db.subs)
            && (result == AlreadyConfirmed <==> s in db.subs && db.subs[s].confirmedAt.Some?)
            && (result == CapacityExceeded <==>
                  s in db.subs && db.subs[s].confirmedAt.None? && !Fit(db, (set key | key in staged), ceiling))
            && if result == Confirmed then Activates(db, after, s, staged, now) else after == db
  {
    CapacityIsFit(db, (set key | key in staged), ceiling);
    if ConfirmOutcome(db, s, staged, ceiling).Confirmed? { ConfirmActivates(db, s, staged, ceiling, now); }
  }

  // ----- an added watch -----

  /** The watch is new, or a retired one revived with its creation time; a Confirmed subscriber's is active at once. */
  ghost predicate Adds(before: Db, after: Db, s: nat, key: string, now: int) {
    && (s, key) in after.watches && after.watches == before.watches[(s, key) := after.watches[(s, key)]] && s in before.subs
    && after.watches[(s, key)].retiredAt.None?
    && after.watches[(s, key)].createdAt == (if (s, key) in before.watches then before.watches[(s, key)].createdAt else now)
    && (if before.subs[s].confirmedAt.Some?
        then after.watches[(s, key)].activatedAt == Some(now) && after.watches[(s, key)].activationOrder == Some(|before.history| + 1)
             && after.history == before.history + [Activated(s, key)]
        else after.watches[(s, key)].activatedAt.None? && after.watches[(s, key)].activationOrder.None? && after.history == before.history)
    && after.subs == before.subs && after.mail == before.mail && after.classes == before.classes && after.incidents == before.incidents
  }

  /** The checks in order: the subscriber, the watch itself, the personal limit, the ceiling for a Confirmed subscriber. */
  lemma AddIsExact(db: Db, s: nat, key: string, ceiling: Option<nat>, now: int)
    ensures var result, after := AddOutcome(db, s, key, ceiling), Add(db, s, key, ceiling, now);
            var live := set k | k in db.watches && k.0 == s && db.watches[k].retiredAt.None? :: k.1;
            && (result == SubscriberNotFound <==> s !in db.subs)
            && (result == DuplicateWatch <==> s in db.subs && key in live)
            && (result == WatchLimit <==> s in db.subs && key !in live && |live| >= 4)
            && (result == SectionCapacity <==>
                  s in db.subs && key !in live && |live| < 4 && db.subs[s].confirmedAt.Some? && !Fit(db, {key}, ceiling))
            && if result == Added then Adds(db, after, s, key, now) else after == db
  {
    CapacityIsFit(db, {key}, ceiling);
    assert LiveKeys(db.watches, s) == set k | k in db.watches && k.0 == s && db.watches[k].retiredAt.None? :: k.1;
    assert key in LiveKeys(db.watches, s) <==> (s, key) in db.watches && Live(db.watches[(s, key)]);
  }

  // ----- retirement -----

  /** Live, about the class, and not activated after the cutoff. */
  predicate IsToRetire(k: WatchKey, w: Watch, key: string, cutoff: Option<nat>) {
    k.1 == key && w.retiredAt.None? && (cutoff.None? || w.activationOrder.None? || w.activationOrder.value <= cutoff.value)
  }

  /** Pending mail about the class that a watch asked for. */
  predicate IsAbout(j: Job, key: string) { (j.kind == Alert || j.kind == BlindWindow) && j.classKey == Some(key) && IsPending(j) }

  ghost predicate RetiresAll(before: Db, after: Db, key: string, cutoff: Option<nat>, now: int) {
    && after.watches.Keys == before.watches.Keys && after.mail.Keys == before.mail.Keys
    && (forall k | k in before.watches ::
          after.watches[k] == if IsToRetire(k, before.watches[k], key, cutoff) then before.watches[k].(retiredAt := Some(now)) else before.watches[k])
    && (forall id | id in before.mail ::
          if IsAbout(before.mail[id], key) then Ends(before.mail[id], after.mail[id], Cancelled, Ineligible, now)
          else after.mail[id] == before.mail[id])
    && after.subs == before.subs && after.classes == before.classes && after.incidents == before.incidents && after.history == before.history
  }

  lemma RetireIsExact(db: Db, key: string, cutoff: Option<nat>, now: int)
    ensures RetiresAll(db, RetireClass(db, key, cutoff, now), key, cutoff, now)
  {
    var ids := ActiveAbout(db.mail, {Alert, BlindWindow}, None, key);
    forall id | id in db.mail ensures id in ids <==> IsAbout(db.mail[id], key) { }
  }
}
