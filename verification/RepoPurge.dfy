/**
 Why openings alternate only within the bounds of RepoFreshness: a purge starts the versions again
 at zero, so a stale compare-and-set can win.  Runs from empty tables, in which one subscriber's
 watch is the reason for every read, end with two openings and no closed reading between them.

 The first exists for every freshness and hold that together reach the retention, which makes the
 bound exact.  In the second only first versions are opened, but a reading is held through the
 retention.
 */
module RepoPurge {
  import opened RepoTables
  import opened RepoMail
  import opened RepoWatches
  import opened RepoWatchProofs
  import opened RepoState
  import opened RepoStateProofs
  import opened RepoRuns
  import opened RepoTheorems
  import opened RepoAlternation
  import opened RepoFreshness

  const SETUP := Config(1, 1)
  const ME: WatchKey := (0, "A")

  // ----- what is kept in view of a world -----

  /** A Confirmed subscriber has an active watch on the class. */
  ghost predicate IsWatched(db: Db, key: string) {
    exists k :: k in db.watches && k.1 == key && Live(db.watches[k]) && db.watches[k].activatedAt.Some? && IsConfirmed(db.subs, k.0)
  }

  /** The worker reads only classes that are watched. */
  ghost predicate ReadsWatched(w: World, step: Step) { step.op.Read? ==> IsWatched(w.db, step.op.key) }

  ghost predicate AllWatched(ws: seq<World>, steps: seq<Step>)
    requires |ws| == |steps| + 1
  {
    forall t {:trigger steps[t]} | 0 <= t < |steps| :: ReadsWatched(ws[t], steps[t])
  }

  /** Entry n is an opening of class "A" for seats. */
  ghost predicate OpenedIn(history: seq<Entry>, n: nat) {
    exists row, alerted :: n < |history| && history[n] == Observed("A", row, alerted) && Opened(history[n], "A", SeatsOpen)
  }

  /** Where class "A" and the observers stand. */
  ghost predicate Stands(w: World, row: Option<ClassRow>, history: seq<Entry>, observers: Observers, clock: int) {
    (Lookup(w.db.classes, "A"), w.db.history, w.observers, w.clock) == (row, history, observers, clock)
  }

  predicate Confirmed0(db: Db) { IsConfirmed(db.subs, 0) }

  /** The subscriber's watch is the only one there is, and no mail is about a class. */
  ghost predicate OnlyMine(db: Db) {
    exists mine :: db.watches == map[ME := mine] && Live(mine) && mine.activatedAt.Some? && Confirmed0(db) && NoClassMail(db)
  }

  ghost predicate NoClassMail(db: Db) { forall id | id in db.mail :: db.mail[id].classKey.None? }

  // ----- building a run -----

  /** A run from empty tables within the bounds, every read watched, that ends in w; no opening is on a stale later version if `first`. */
  ghost predicate Built(ws: seq<World>, steps: seq<Step>, span: nat, hold: nat, first: bool, w: World) {
    && IsRun(ws, steps, SETUP) && AllBounded(ws, steps, span, hold) && AllWatched(ws, steps)
    && (first ==> AllFirstOrOrdered(ws, steps)) && ws[|steps|] == w
  }

  ghost predicate Reached(span: nat, hold: nat, first: bool, w: World) { exists ws, steps :: Built(ws, steps, span, hold, first, w) }

  /** The world is reached, the subscriber's watch the only one in it. */
  ghost predicate Comes(
    span: nat, hold: nat, first: bool, w: World, row: Option<ClassRow>, history: seq<Entry>, observers: Observers, clock: int)
  {
    exists ws, steps :: Built(ws, steps, span, hold, first, w) && Stands(w, row, history, observers, clock) && OnlyMine(w.db)
  }

  lemma Then(span: nat, hold: nat, first: bool, w: World, step: Step)
    requires Reached(span, hold, first, w) && Enabled(w, step) && Bounded(w, step, span, hold) && ReadsWatched(w, step)
    requires first ==> FirstOrOrdered(w, step)
    ensures Reached(span, hold, first, Next(w, step, SETUP))
  {
    var ws, steps :| Built(ws, steps, span, hold, first, w);
    var longer, more := ws + [Next(w, step, SETUP)], steps + [step];
    forall i {:trigger more[i]} | 0 <= i < |more|
      ensures IsStep(longer[i], more[i], longer[i + 1], SETUP) && Bounded(longer[i], more[i], span, hold)
      ensures ReadsWatched(longer[i], more[i]) && (first ==> FirstOrOrdered(longer[i], more[i]))
    {
      if i < |steps| {
        assert more[i] == steps[i] && IsStep(ws[i], steps[i], ws[i + 1], SETUP);
        assert Bounded(ws[i], steps[i], span, hold) && ReadsWatched(ws[i], steps[i]) && (first ==> FirstOrOrdered(ws[i], steps[i]));
      }
    }
    assert Built(longer, more, span, hold, first, Next(w, step, SETUP));
  }

  /** Nobody has held a row for too long by then. */
  ghost predicate HeldUntil(observers: Observers, hold: nat, now: int) {
    forall o | o in observers && HeldRow(observers[o]).Some? :: now <= observers[o].readAt + hold
  }

  // ----- a subscriber registers -----

  const EMPTY := World(Db(map[], map[], map[], map[], map[], [], 0, 0, 0), map[], 0)
  const LETTER := JobId(0, 0, "")

  /** A step that is not about class "A" or an observer. */
  lemma PlainStep(span: nat, hold: nat, first: bool, w: World, now: int, op: Op) returns (next: World)
    requires Reached(span, hold, first, w) && Enabled(w, Step(now, op))
    requires w.clock <= now && HeldUntil(w.observers, hold, now)
    requires !op.Read? && !op.Observe? && !op.Commit? && (op.SweepOp? ==> op.at <= now)
    ensures next == Next(w, Step(now, op), SETUP) && Reached(span, hold, first, next)
  {
    next := Next(w, Step(now, op), SETUP);
    Then(span, hold, first, w, Step(now, op));
  }

  /** Registered, and sent the confirmation. */
  ghost predicate Registered(w: World) {
    && Stands(w, None, [], map[], 0) && NoClassMail(w.db)
    && (w.db.subs, w.db.watches) == (map[0 := Subscriber("a", None, 0)], map[ME := StagedRow(0)])
  }

  lemma Creatable(db: Db)
    requires db.subs == map[] && db.nextSubscriber == 0
    ensures CreateOutcome(db, "a", {"A"}, None) == Created(0)
  {
  }

  lemma StagedOne()
    ensures StagedRows(0, {"A"}, 0) == map[ME := StagedRow(0)]
  {
  }

  lemma CreatedTables()
    ensures var after := Create(EMPTY.db, "a", {"A"}, None, false, 0);
            && after.subs == map[0 := Subscriber("a", None, 0)] && after.watches == map[ME := StagedRow(0)]
            && after.mail == MailFor(Confirmation, 0, 0, 0) && after.classes == map[] && after.history == []
  {
    Creatable(EMPTY.db);
    CreateIs(EMPTY.db, "a", {"A"}, None, false, 0);
    StagedOne();
  }

  lemma Creating()
    ensures Enabled(EMPTY, Step(0, CreateOp("a", {"A"}, None, false)))
    ensures var w := Next(EMPTY, Step(0, CreateOp("a", {"A"}, None, false)), SETUP);
            Registered(w) && w.db.mail == MailFor(Confirmation, 0, 0, 0)
  {
    CreatedTables();
  }

  lemma LetterIsKept(db: Db)
    requires db.mail == MailFor(Confirmation, 0, 0, 0)
    ensures Housekeep(db, 0, 0).mail == db.mail
  {
    assert CancelAll(db.mail, ExpiredAlerts(db.mail, 0), Expired, 0) == db.mail;
    assert DeadLetterAll(db.mail, PastHorizon(db.mail, 0, 0), RetryHorizon, 0) == db.mail;
  }

  lemma Claiming(w: World)
    requires Registered(w) && w.db.mail == MailFor(Confirmation, 0, 0, 0)
    ensures Enabled(w, Step(0, ClaimOp({LETTER}, 0))) && Registered(Next(w, Step(0, ClaimOp({LETTER}, 0)), SETUP))
  {
    LetterIsKept(w.db);
    assert w.db.mail[LETTER].classKey.None?;
  }

  lemma Completing(w: World, token: nat)
    requires Registered(w)
    ensures Enabled(w, Step(0, CompleteOp(LETTER, token, 0))) && Registered(Next(w, Step(0, CompleteOp(LETTER, token, 0)), SETUP))
  {
  }

  lemma Confirming(w: World)
    requires Registered(w)
    ensures Enabled(w, Step(0, ConfirmOp(0, ["A"])))
    ensures var after := Next(w, Step(0, ConfirmOp(0, ["A"])), SETUP);
            Stands(after, None, [Activated(0, "A")], map[], 0) && OnlyMine(after.db)
  {
    assert IsStaged(w.db.watches, 0, ["A"]);
    ConfirmFits(w.db);
    assert ActivateAll(w.db.watches, 0, ["A"][..0], 0, 0) == w.db.watches;
    assert Activations(0, ["A"]) == Activations(0, ["A"][..0]) + [Activated(0, "A")];
    assert ["A"][..0] == [];
    ActivatedOne(w.db.watches);
    var after := Next(w, Step(0, ConfirmOp(0, ["A"])), SETUP);
    assert after.db.watches == map[ME := Activate(StagedRow(0), 1, 0)] && NoClassMail(after.db) && Confirmed0(after.db);
    assert after.db.history == [Activated(0, "A")];
  }

  lemma ActivatedOne(watches: Watches)
    requires watches == map[ME := StagedRow(0)]
    ensures ActivateAll(watches, 0, ["A"], 0, 0) == map[ME := Activate(StagedRow(0), 1, 0)]
  {
    assert ActivateAll(watches, 0, ["A"][..0], 0, 0) == watches;
  }

  lemma ConfirmFits(db: Db)
    requires 0 in db.subs && db.subs[0].confirmedAt.None? && db.watches == map[ME := StagedRow(0)]
    ensures ConfirmOutcome(db, 0, ["A"], Some(1)).Confirmed?
  {
    assert (set key | key in ["A"]) == {"A"};
    assert Sections(db) == {};
  }

  lemma Beginning(span: nat, hold: nat, first: bool)
    ensures Reached(span, hold, first, EMPTY)
  {
    assert Built([EMPTY], [], span, hold, first, EMPTY);
  }

  lemma SentLetter(span: nat, hold: nat, first: bool) returns (w: World)
    ensures exists ws, steps :: Built(ws, steps, span, hold, first, w) && Registered(w)
  {
    Beginning(span, hold, first);
    Creating();
    w := PlainStep(span, hold, first, EMPTY, 0, CreateOp("a", {"A"}, None, false));
    Claiming(w);
    w := PlainStep(span, hold, first, w, 0, ClaimOp({LETTER}, 0));
    Completing(w, 0);
    w := PlainStep(span, hold, first, w, 0, CompleteOp(LETTER, 0, 0));
  }

  /** The subscriber registers with a watch on the class, is sent the confirmation and confirms. */
  lemma Setup(span: nat, hold: nat, first: bool) returns (w: World)
    ensures Comes(span, hold, first, w, None, [Activated(0, "A")], map[], 0)
  {
    w := SentLetter(span, hold, first);
    Confirming(w);
    w := PlainStep(span, hold, first, w, 0, ConfirmOp(0, ["A"]));
  }

  // ----- readings -----

  function Kept(row: Option<ClassRow>, history: seq<Entry>, seen: Seen, now: int): ClassRow {
    RowFor(seen, if row.Some? then row.value.version + 1 else 0, |history| + 1, now)
  }

  function Reading(o: nat, seen: Seen, fetchedAt: int): Op { Observe(o, Parsed(seen, fetchedAt), true, 0, 0) }

  lemma Reads(w: World, o: nat, now: int)
    ensures Enabled(w, Step(now, Read(o, "A")))
    ensures Next(w, Step(now, Read(o, "A")), SETUP)
         == World(w.db, w.observers[o := Holding("A", Lookup(w.db.classes, "A"), now)], now)
  {
  }

  lemma Writing(db: Db, seen: Seen, version: nat, alerted: Option<Reason>, now: int)
    ensures var after, row := WriteRow(db, "A", seen, version, alerted, now), RowFor(seen, version, |db.history| + 1, now);
            && Lookup(after.classes, "A") == Some(row) && after.history == db.history + [Observed("A", row, alerted)]
            && after.watches == db.watches && after.subs == db.subs && (NoClassMail(db) ==> NoClassMail(after))
  {
  }

  lemma Keeps(w: World, o: nat, seen: Seen, fetchedAt: int, now: int)
    requires o in w.observers && w.observers[o].Holding? && w.observers[o].key == "A"
    requires Decide(w.observers[o].previous, Parsed(seen, fetchedAt), true, 0) == Persist(seen)
    ensures Enabled(w, Step(now, Reading(o, seen, fetchedAt)))
    ensures var after := Next(w, Step(now, Reading(o, seen, fetchedAt)), SETUP);
            var row := Kept(Lookup(w.db.classes, "A"), w.db.history, seen, now);
            && Stands(after, Some(row), w.db.history + [Observed("A", row, None)], Forget(w.observers, o), now)
            && after.db.watches == w.db.watches && after.db.subs == w.db.subs && (NoClassMail(w.db) ==> NoClassMail(after.db))
  {
    Writing(w.db, seen, NextVersion(w.db, "A"), None, now);
  }

  lemma Selects(w: World, o: nat, seen: Seen, fetchedAt: int, now: int)
    requires o in w.observers && w.observers[o].Holding? && w.observers[o].key == "A" && w.observers[o].previous.Some?
    requires Decide(w.observers[o].previous, Parsed(seen, fetchedAt), true, 0)
          == Open(w.observers[o].previous.value.version, SeatsOpen, seen, fetchedAt)
    ensures Enabled(w, Step(now, Reading(o, seen, fetchedAt)))
    ensures var after := Next(w, Step(now, Reading(o, seen, fetchedAt)), SETUP);
            && after.db == w.db && after.clock == now && o in after.observers && after.observers == w.observers[o := after.observers[o]]
            && var x := after.observers[o];
               x.Selected? && x.key == "A" && x.base == w.observers[o].previous.value && x.readAt == w.observers[o].readAt
               && x.seen == seen && x.reason == SeatsOpen && x.targets == Targets(w.db, "A", x.base.version)
  {
  }

  lemma Commits(w: World, o: nat, now: int)
    requires o in w.observers && w.observers[o].Selected? && w.observers[o].key == "A"
    requires AtVersion(w.db, "A", w.observers[o].base.version)
    ensures Enabled(w, Step(now, Commit(o)))
    ensures var after, x := Next(w, Step(now, Commit(o)), SETUP), w.observers[o];
            var row := RowFor(x.seen, x.base.version + 1, |w.db.history| + 1, now);
            && Stands(after, Some(row), w.db.history + [Observed("A", row, Some(x.reason))], Forget(w.observers, o), now)
            && after.db.watches == w.db.watches && after.db.subs == w.db.subs
            && (x.targets == {} && NoClassMail(w.db) ==> NoClassMail(after.db))
  {
    var x := w.observers[o];
    Writing(w.db, x.seen, x.base.version + 1, Some(x.reason), now);
  }

  // ----- the watch goes, the class is purged, the watch comes back -----

  /** Nobody watches anything, and no mail is about a class. */
  ghost predicate Nobody(db: Db) { Confirmed0(db) && db.watches == map[] && NoClassMail(db) }

  lemma Removing(w: World, now: int)
    requires OnlyMine(w.db) && Unlocked(w)
    ensures Enabled(w, Step(now, RemoveOp(0, "A")))
    ensures var after := Next(w, Step(now, RemoveOp(0, "A")), SETUP);
            Nobody(after.db) && Stands(after, Lookup(w.db.classes, "A"), w.db.history, w.observers, now)
  {
    var after := Next(w, Step(now, RemoveOp(0, "A")), SETUP);
    assert after.db.watches == map[];
  }

  lemma SweptTables(db: Db, row: ClassRow, now: int)
    requires Nobody(db) && Lookup(db.classes, "A") == Some(row) && row.updatedAt <= now - TERMINAL_RETENTION_MS
    ensures var after := Sweep(db, now, now); Nobody(after) && "A" !in after.classes && after.history == db.history
  {
    var settled := SweepSubscribers(db, now, now);
    assert 0 !in StalePending(db.subs, now - PENDING_RETENTION_MS);
    assert Nobody(settled) && settled.classes == db.classes && settled.history == db.history by { assert settled.watches == map[]; }
    TrimmedTables(settled, row, now - TERMINAL_RETENTION_MS);
  }

  lemma TrimmedTables(db: Db, row: ClassRow, cutoff: int)
    requires Nobody(db) && Lookup(db.classes, "A") == Some(row) && row.updatedAt <= cutoff
    ensures var after := SweepTerminal(db, cutoff); Nobody(after) && "A" !in after.classes && after.history == db.history
  {
    var trimmed := DeleteMail(db, OverdueMail(db.mail, db.incidents, cutoff));
    assert DropRetired(trimmed.watches, cutoff) == map[];
    assert Orphaned(trimmed.classes, map[], trimmed.mail, "A", cutoff);
  }

  lemma Sweeping(w: World, row: ClassRow, now: int)
    requires Nobody(w.db) && Unlocked(w) && Lookup(w.db.classes, "A") == Some(row) && row.updatedAt <= now - TERMINAL_RETENTION_MS
    ensures Enabled(w, Step(now, SweepOp(now)))
    ensures var after := Next(w, Step(now, SweepOp(now)), SETUP);
            Nobody(after.db) && Stands(after, None, w.db.history, w.observers, now)
  {
    SweptTables(w.db, row, now);
  }

  lemma Returning(w: World, now: int)
    requires Nobody(w.db) && Unlocked(w)
    ensures Enabled(w, Step(now, AddOp(0, "A")))
    ensures var after := Next(w, Step(now, AddOp(0, "A")), SETUP);
            && OnlyMine(after.db) && after.db.watches[ME].activationOrder == Some(|w.db.history| + 1)
            && Stands(after, Lookup(w.db.classes, "A"), w.db.history + [Activated(0, "A")], w.observers, now)
  {
    assert LiveKeys(w.db.watches, 0) == {} && Sections(w.db) == {};
    assert AddOutcome(w.db, 0, "A", Some(1)).Added?;
  }

  /** The subscriber removes the watch, the sweep purges the class, and the subscriber adds the watch again. */
  lemma Purging(span: nat, hold: nat, first: bool, w: World, row: ClassRow, now: int) returns (next: World)
    requires Reached(span, hold, first, w) && OnlyMine(w.db) && Unlocked(w)
    requires Lookup(w.db.classes, "A") == Some(row) && row.updatedAt <= now - TERMINAL_RETENTION_MS
    requires w.clock <= now && HeldUntil(w.observers, hold, now)
    ensures Comes(span, hold, first, next, None, w.db.history + [Activated(0, "A")], w.observers, now)
  {
    Removing(w, now);
    next := PlainStep(span, hold, first, w, now, RemoveOp(0, "A"));
    Sweeping(next, row, now);
    next := PlainStep(span, hold, first, next, now, SweepOp(now));
    Returning(next, now);
    next := PlainStep(span, hold, first, next, now, AddOp(0, "A"));
  }

  // ----- whole observations -----

  lemma MineIsWatched(db: Db)
    requires OnlyMine(db)
    ensures IsWatched(db, "A")
  {
  }

  /** An observer reads the class and begins to hold it. */
  lemma ReadingStarts(span: nat, hold: nat, first: bool, w: World, o: nat, now: int) returns (next: World)
    requires Reached(span, hold, first, w) && OnlyMine(w.db) && w.clock <= now && HeldUntil(w.observers, hold, now)
    ensures Reached(span, hold, first, next)
    ensures next == World(w.db, w.observers[o := Holding("A", Lookup(w.db.classes, "A"), now)], now)
  {
    Reads(w, o, now);
    MineIsWatched(w.db);
    Then(span, hold, first, w, Step(now, Read(o, "A")));
    next := Next(w, Step(now, Read(o, "A")), SETUP);
  }

  /** An observer reads, fetches at once and keeps what it saw. */
  lemma Observing(span: nat, hold: nat, first: bool, w: World, o: nat, seen: Seen, now: int) returns (next: World)
    requires Reached(span, hold, first, w) && OnlyMine(w.db) && w.clock <= now && HeldUntil(w.observers, hold, now)
    requires o !in w.observers && seen.freshUntil <= now + span
    requires Decide(Lookup(w.db.classes, "A"), Parsed(seen, now), true, 0) == Persist(seen)
    requires Lookup(w.db.classes, "A").Some? ==> Lookup(w.db.classes, "A").value.updatedAt + span >= 0
    ensures var row := Kept(Lookup(w.db.classes, "A"), w.db.history, seen, now);
            Comes(span, hold, first, next, Some(row), w.db.history + [Observed("A", row, None)], w.observers, now)
  {
    next := ReadingStarts(span, hold, first, w, o, now);
    Keeps(next, o, seen, now, now);
    Then(span, hold, first, next, Step(now, Reading(o, seen, now)));
    assert Forget(next.observers, o) == w.observers;
    next := Next(next, Step(now, Reading(o, seen, now)), SETUP);
  }

  /** An observer that holds a row fetched at `fetchedAt` opens the class on it. */
  lemma Opens(span: nat, hold: nat, first: bool, w: World, o: nat, seen: Seen, fetchedAt: int, now: int) returns (next: World)
    requires Reached(span, hold, first, w) && w.clock <= now && HeldUntil(w.observers, hold, now)
    requires o in w.observers && w.observers[o].Holding? && w.observers[o].key == "A" && w.observers[o].previous.Some?
    requires var base := w.observers[o].previous.value;
             && Decide(Some(base), Parsed(seen, fetchedAt), true, 0) == Open(base.version, SeatsOpen, seen, fetchedAt)
             && AtVersion(w.db, "A", base.version) && base.updatedAt + span >= 0 && (first ==> base.version == 0)
    requires seen.freshUntil <= now + span && w.observers[o].readAt <= fetchedAt
    ensures Reached(span, hold, first, next)
    ensures var row := RowFor(seen, w.observers[o].previous.value.version + 1, |w.db.history| + 1, now);
            Stands(next, Some(row), w.db.history + [Observed("A", row, Some(SeatsOpen))], Forget(w.observers, o), now)
    ensures (next.db.watches, next.db.subs) == (w.db.watches, w.db.subs)
    ensures Targets(w.db, "A", w.observers[o].previous.value.version) == {} && NoClassMail(w.db) ==> NoClassMail(next.db)
  {
    Selects(w, o, seen, fetchedAt, now);
    Then(span, hold, first, w, Step(now, Reading(o, seen, fetchedAt)));
    next := Next(w, Step(now, Reading(o, seen, fetchedAt)), SETUP);
    Commits(next, o, now);
    Then(span, hold, first, next, Step(now, Commit(o)));
    assert Forget(next.observers, o) == Forget(w.observers, o);
    next := Next(next, Step(now, Commit(o)), SETUP);
  }

  lemma TwoOpenings(history: seq<Entry>, i: nat, j: nat)
    requires i < j < |history| && Opened(history[i], "A", SeatsOpen) && Opened(history[j], "A", SeatsOpen)
    requires forall m | i < m < j :: !Closed(history[m], "A", SeatsOpen)
    ensures !Alternates(history)
  {
  }

  // ----- a stale opening, for any freshness and hold that reach the retention -----

  const RETENTION := TERMINAL_RETENTION_MS

  /** When the row is read that is held until it is purged. */
  function ReadTime(hold: nat): nat { if hold >= RETENTION then 0 else RETENTION - hold }

  function Shut(freshUntil: int): Seen { Seen(0, false, freshUntil) }

  function Seats(freshUntil: int): Seen { Seen(5, false, freshUntil) }

  /** The class is read closed twice; much later observer 1 reads its second version and holds it. */
  lemma SecondVersionHeld(span: nat, hold: nat) returns (w: World)
    ensures |w.db.history| == 3
    ensures var row := RowFor(Shut(span), 1, 3, 0);
            Comes(span, hold, false, w, Some(row), w.db.history, map[1 := Holding("A", Some(row), ReadTime(hold))], ReadTime(hold))
  {
    w := Setup(span, hold, false);
    w := Observing(span, hold, false, w, 1, Shut(span), 0);
    w := Observing(span, hold, false, w, 1, Shut(span), 0);
    w := ReadingStarts(span, hold, false, w, 1, ReadTime(hold));
  }

  /** The row is purged, and the class read as new, still closed. */
  lemma ReadAnew(span: nat, hold: nat) returns (w: World)
    requires span + hold >= RETENTION
    ensures |w.db.history| == 5
    ensures var late := ReadTime(hold) + hold;
            Comes(span, hold, false, w, Some(RowFor(Shut(late + span), 0, 5, late)), w.db.history,
                  map[1 := Holding("A", Some(RowFor(Shut(span), 1, 3, 0)), ReadTime(hold))], late)
  {
    var late := ReadTime(hold) + hold;
    w := SecondVersionHeld(span, hold);
    w := Purging(span, hold, false, w, RowFor(Shut(span), 1, 3, 0), late);
    w := Observing(span, hold, false, w, 2, Shut(late + span), late);
  }

  /** The class is opened: it is again in its second version. */
  lemma OpenedAnew(span: nat, hold: nat) returns (w: World)
    requires span + hold >= RETENTION
    ensures exists ws, steps :: Built(ws, steps, span, hold, false, w) && AtVersion(w.db, "A", 1)
    ensures (w.observers, w.clock) == (map[1 := Holding("A", Some(RowFor(Shut(span), 1, 3, 0)), ReadTime(hold))], ReadTime(hold) + hold)
    ensures |w.db.history| == 6 && OpenedIn(w.db.history, 5)
  {
    var late := ReadTime(hold) + hold;
    w := ReadAnew(span, hold);
    var held := w.observers;
    w := ReadingStarts(span, hold, false, w, 2, late);
    w := Opens(span, hold, false, w, 2, Seats(late + span), late, late);
    assert w.observers == held;
  }

  /** Whatever is purged, the class states of every run within these bounds alternate. */
  ghost predicate AlwaysAlternates(span: nat, hold: nat) {
    forall ws: seq<World>, steps, config | IsRun(ws, steps, config) && AllBounded(ws, steps, span, hold) && AllWatched(ws, steps) ::
      Alternates(ws[|steps|].db.history)
  }

  /** The opening of observer 1, decided on the row that is gone, wins: two openings in a row. */
  lemma StaleOpeningWins(span: nat, hold: nat)
    requires span + hold >= RETENTION
    ensures !AlwaysAlternates(span, hold)
  {
    var w := OpenedAnew(span, hold);
    var before := w.db.history;
    w := Opens(span, hold, false, w, 1, Seats(w.clock + span), ReadTime(hold), w.clock);
    assert w.db.history[5] == before[5];
    TwoOpenings(w.db.history, 5, 6);
    var ws, steps :| Built(ws, steps, span, hold, false, w);
  }

  /** Openings alternate in all runs within the bounds exactly when freshness and hold together stay within the retention. */
  lemma AlternationIsExact(span: nat, hold: nat)
    ensures AlwaysAlternates(span, hold) <==> span + hold < RETENTION
  {
    if span + hold < RETENTION {
      forall ws: seq<World>, steps, config | IsRun(ws, steps, config) && AllBounded(ws, steps, span, hold) && AllWatched(ws, steps)
        ensures Alternates(ws[|steps|].db.history)
      {
        BoundedOpeningsAlternate(ws, steps, config, span, hold, |steps|);
      }
    } else {
      StaleOpeningWins(span, hold);
    }
  }

  /** Nobody holds a reading for any time, and still the stale opening wins: readings stay fresh for the retention. */
  lemma PromptPurgeBreaksAlternation()
    ensures exists ws: seq<World>, steps, config ::
              IsRun(ws, steps, config) && AllPrompt(ws, steps) && AllWatched(ws, steps) && !Alternates(ws[|steps|].db.history)
  {
    StaleOpeningWins(RETENTION, 0);
    var ws: seq<World>, steps, config :|
      IsRun(ws, steps, config) && AllBounded(ws, steps, RETENTION, 0) && AllWatched(ws, steps) && !Alternates(ws[|steps|].db.history);
    forall t {:trigger steps[t]} | 0 <= t < |steps| ensures Prompt(ws[t], steps[t]) {
      assert Bounded(ws[t], steps[t], RETENTION, 0);
    }
  }

  // ----- a first version, held through the retention -----

  const ROW0 := RowFor(Shut(0), 0, 2, 0)

  lemma LaterWatchIsNoTarget(db: Db, version: nat)
    requires OnlyMine(db) && "A" in db.classes && db.watches[ME].activationOrder.Some?
    requires db.watches[ME].activationOrder.value > db.classes["A"].observedOrder
    ensures Targets(db, "A", version) == {}
  {
  }

  /** The class is read closed, and the subscriber renews the watch. */
  lemma RenewedWatch() returns (w: World)
    ensures Comes(0, RETENTION, true, w, Some(ROW0), w.db.history, map[], 0)
    ensures |w.db.history| == 3 && w.db.watches[ME].activationOrder == Some(3)
  {
    w := Setup(0, RETENTION, true);
    w := Observing(0, RETENTION, true, w, 1, Shut(0), 0);
    Removing(w, 0);
    w := PlainStep(0, RETENTION, true, w, 0, RemoveOp(0, "A"));
    Returning(w, 0);
    w := PlainStep(0, RETENTION, true, w, 0, AddOp(0, "A"));
  }

  /** Both observers read the first version, and the second opens the class; the renewed watch is not alerted. */
  lemma FirstVersionHeld() returns (w: World)
    ensures Comes(0, RETENTION, true, w, Some(RowFor(Seats(0), 1, 4, 0)), w.db.history, map[1 := Holding("A", Some(ROW0), 0)], 0)
    ensures |w.db.history| == 4 && OpenedIn(w.db.history, 3)
  {
    w := RenewedWatch();
    w := ReadingStarts(0, RETENTION, true, w, 1, 0);
    var held := w.observers;
    w := ReadingStarts(0, RETENTION, true, w, 2, 0);
    LaterWatchIsNoTarget(w.db, 0);
    w := Opens(0, RETENTION, true, w, 2, Seats(0), 0, 0);
    assert w.observers == held;
  }

  /** The opened row is purged and the class read as new, with open seats. */
  lemma NewbornRead() returns (w: World, row: ClassRow)
    ensures row.version == 0 && |w.db.history| == 6 && OpenedIn(w.db.history, 3)
    ensures forall m | 3 < m < 6 :: !Closed(w.db.history[m], "A", SeatsOpen)
    ensures Comes(0, RETENTION, true, w, Some(row), w.db.history, map[1 := Holding("A", Some(ROW0), 0)], RETENTION)
  {
    w := FirstVersionHeld();
    w := Purging(0, RETENTION, true, w, RowFor(Seats(0), 1, 4, 0), RETENTION);
    row := Kept(None, w.db.history, Seats(RETENTION), RETENTION);
    w := Observing(0, RETENTION, true, w, 2, Seats(RETENTION), RETENTION);
  }

  /** The opening of observer 1, decided on the first version it still holds, wins. */
  lemma LongReadingBreaksAlternation()
    ensures exists ws: seq<World>, steps, config ::
              IsRun(ws, steps, config) && AllFirstOrOrdered(ws, steps) && AllWatched(ws, steps) && !Alternates(ws[|steps|].db.history)
  {
    var w, row := NewbornRead();
    var before := w.db.history;
    w := Opens(0, RETENTION, true, w, 1, Seats(RETENTION), 0, RETENTION);
    assert forall m | 0 <= m < 6 :: w.db.history[m] == before[m];
    TwoOpenings(w.db.history, 3, 6);
    var ws, steps :| Built(ws, steps, 0, RETENTION, true, w);
    assert IsRun(ws, steps, SETUP);
  }

  /**
   Whatever was purged, a winning compare-and-set replaces the row it was decided on exactly when
   the visibility order is still the one read with it: the version alone does not tell.
   */
  lemma OrderTellsStaleness(db: Db, key: string, base: ClassRow)
    requires ClassesOk(db.classes, db.history) && AtVersion(db, key, base.version) && IsEntry(db.history, key, base)
    ensures db.classes[key] == base <==> db.classes[key].observedOrder == base.observedOrder
  {
    assert IsLatest(db.history, key, db.classes[key]);
  }
}
