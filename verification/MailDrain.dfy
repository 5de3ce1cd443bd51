/**
 Draining the outbox (`drainMailOutbox` and `settleMailJob`, src/worker/v04.ts): claim a batch,
 send it, settle each job, until a batch comes back short.

 Nothing else acts on the tables between a claim and its settlements here; RepoRuns has the runs in
 which others do.  What the dispatcher answers and the clock readings are parameters.
 */
module MailDrain {
  import opened RepoTables
  import opened RepoMail
  import opened RepoRuns
  import opened RepoInvariant
  import opened RepoTheorems
  import opened RepoOutbox
  import opened Repository

  const MAX_BATCHES := 4

  /** What the dispatcher says of one job; an acceptance time is None when it gave no valid one. */
  datatype Answer = Success(acceptedAt: Option<int>) | Suppressed | Permanent | Failed(failure: Failure)

  datatype Summary = Summary(
    claimed: nat, sent: nat, suppressed: nat, deferred: nat, cancelledExpired: nat, deadLettered: nat, claimFenceLost: nat)

  const EMPTY := Summary(0, 0, 0, 0, 0, 0, 0)

  /** The jobs the summary says something final of. */
  function Accounted(s: Summary): nat {
    s.sent + s.suppressed + s.deferred + s.cancelledExpired + s.deadLettered + s.claimFenceLost
  }

  ghost function WithStatus(mail: Mail, status: Status): set<JobId> { set id | id in mail && mail[id].status == status }

  /** The summary grew by what the table shows: so many more rows sent, so many more dead-lettered. */
  ghost predicate Shows(before: Mail, after: Mail, start: Summary, end: Summary) {
    && |WithStatus(after, Sent)| + start.sent == |WithStatus(before, Sent)| + end.sent
    && |WithStatus(after, DeadLetter)| + start.deadLettered == |WithStatus(before, DeadLetter)| + end.deadLettered
  }

  /**
   What a summary says of the rows since `start`: its sent and dead-lettered jobs are those of the
   table, every claimed and each of the `expired` jobs is accounted for once, no claim was lost.
   */
  ghost predicate Reports(s: Summary, start: Mail, mail: Mail, expired: nat) {
    && s.claimed + expired == s.sent + s.suppressed + s.deferred + s.cancelledExpired + s.deadLettered
    && s.claimFenceLost == 0 && Shows(start, mail, EMPTY, s)
  }

  /** The step of a run that settles a job in answer to the dispatcher. */
  function Settlement(id: JobId, token: nat, answer: Answer, reading: int): Op {
    match answer
    case Success(acceptedAt) => CompleteOp(id, token, if acceptedAt.Some? then acceptedAt.value else reading)
    case Suppressed => CancelClaimedOp(id, token)
    case Permanent => DeadLetterOp(id, token)
    case Failed(failure) => DeferOp(id, token, reading, failure)
  }

  /** The effect of a settlement on the tables. */
  function After(db: Db, id: JobId, token: nat, answer: Answer, reading: int, now: int, config: Config): Db
    requires config.maxBackoffSeconds >= 1
  {
    match answer
    case Success(acceptedAt) => Complete(db, id, token, if acceptedAt.Some? then acceptedAt.value else reading, now)
    case Suppressed => CancelClaimed(db, id, token, now)
    case Permanent => DeadLetterJob(db, id, token, now)
    case Failed(_) => DeferJob(db, id, token, NextAttempt(db, Settlement(id, token, answer, reading), config), reading, now)
  }

  /** It is the fenced step of a run that RepoTheorems speaks of. */
  lemma SettlementIsAStep(w: World, id: JobId, token: nat, answer: Answer, reading: int, now: int, config: Config)
    requires config.maxBackoffSeconds >= 1
    ensures var op := Settlement(id, token, answer, reading);
            && Fenced(op) && op.id == id && op.token == token && Enabled(w, Step(now, op))
            && NextDb(w, Step(now, op), config) == After(w.db, id, token, answer, reading, now, config)
  {
  }

  /**
   The first answer to a claim in a run is settled as the method below settles it, and whatever is
   answered to the same claim later leaves the tables as they are.
   */
  lemma AnsweredOnce(ws: seq<World>, steps: seq<Step>, config: Config, i: nat, j: nat, id: JobId, token: nat,
                     first: Answer, reading: int, second: Answer, again: int, now: int)
    requires IsRun(ws, steps, config) && i < j < |ws|
    requires steps[i].op == Settlement(id, token, first, reading) && Owns(ws[i].db.mail, id, token)
    ensures ws[i + 1].db == After(ws[i].db, id, token, first, reading, steps[i].now, config)
    ensures After(ws[j].db, id, token, second, again, now, config) == ws[j].db
  {
    assert IsStep(ws[i], steps[i], ws[i + 1], config);
    SettlementIsAStep(ws[i], id, token, first, reading, steps[i].now, config);
    SettledIsLost(ws, steps, config, i, id, token);
    LostFenceStaysLost(ws, steps, config, i + 1, j, id, token);
    SettlementIsAStep(ws[j], id, token, second, again, now, config);
    LostFenceChangesNothing(ws[j], Step(now, Settlement(id, token, second, again)), config);
  }

  /** What the answer makes of the row it was given for. */
  predicate Answers(before: Job, after: Job, answer: Answer, reading: int, now: int, config: Config)
    requires config.maxBackoffSeconds >= 1
  {
    match answer
    case Success(acceptedAt) => Sends(before, after, if acceptedAt.Some? then acceptedAt.value else reading, now)
    case Suppressed => Ends(before, after, Cancelled, SuppressedAddress, now)
    case Permanent => Ends(before, after, DeadLetter, PermanentFailure, now)
    case Failed(failure) =>
      Postpones(before, after, reading + RetryDelay(failure, before.attempts, config.maxBackoffSeconds), reading, now)
  }

  /** One more job, counted as what its row has become. */
  predicate Tallies(before: Summary, after: Summary, row: Job) {
    match row.status
    case Sent => after == before.(sent := before.sent + 1)
    case DeadLetter => after == before.(deadLettered := before.deadLettered + 1)
    case Queued => after == before.(deferred := before.deferred + 1)
    case Cancelled => if row.terminalReason == Some(SuppressedAddress) then after == before.(suppressed := before.suppressed + 1)
                      else after == before.(cancelledExpired := before.cancelledExpired + 1)
    case Processing => false
  }

  /**
   `settleMailJob`: the step of a run.  While the claim is held, the row becomes what the answer says
   and the job is counted as such; without it nothing changes.
   */
  method SettleMailJob(tables: Tables, id: JobId, token: nat, attempts: nat, answer: Answer, reading: int, now: int,
                       config: Config, before: Summary)
    returns (updated: bool, after: Summary)
    requires tables.Valid() && config.maxBackoffSeconds >= 1
    requires Owns(tables.mail, id, token) ==> attempts == tables.mail[id].attempts
    modifies tables`mail, tables`incidents
    ensures tables.Valid()
    ensures updated == old(Owns(tables.mail, id, token))
    ensures tables.Contents() == After(old(tables.Contents()), id, token, answer, reading, now, config)
    ensures Accounted(after) == Accounted(before) + (if updated then 1 else 0)
    ensures after.claimed == before.claimed && after.claimFenceLost == before.claimFenceLost
    ensures Shows(old(tables.mail), tables.mail, before, after)
    ensures updated == old(Holds(tables.mail, id, token))
    ensures if updated
            then OnlyRow(old(tables.Contents()), tables.Contents(), id, now)
                 && Answers(old(tables.mail)[id], tables.mail[id], answer, reading, now, config) && Tallies(before, after, tables.mail[id])
            else tables.Contents() == old(tables.Contents()) && after == before
  {
    after := before;
    ghost var db := tables.Contents();
    if Owns(tables.mail, id, token) { SettlementCounts(db, id, token, answer, reading, now, config); }
    match answer
    case Success(acceptedAt) =>
      updated := tables.CompleteMailJob(id, token, if acceptedAt.Some? then acceptedAt.value else reading, now);
      if updated { after := before.(sent := before.sent + 1); }
    case Suppressed =>
      updated := tables.CancelClaimedMailJob(id, token, now);
      if updated { after := before.(suppressed := before.suppressed + 1); }
    case Permanent =>
      updated := tables.DeadLetterMailJob(id, token, now);
      if updated { after := before.(deadLettered := before.deadLettered + 1); }
    case Failed(failure) =>
      var delay := RetryDelay(failure, attempts, config.maxBackoffSeconds);
      var disposition := tables.DeferMailJob(id, token, reading + delay, reading, now);
      updated := !disposition.ClaimFenceLost?;
      match disposition
      case Deferred => after := before.(deferred := before.deferred + 1);
      case CancelledExpired => after := before.(cancelledExpired := before.cancelledExpired + 1);
      case DeadLetteredRetryHorizon => after := before.(deadLettered := before.deadLettered + 1);
      case ClaimFenceLost =>
  }

  /** The row of a settlement is the only one it changes. */
  ghost predicate OneRow(before: Db, after: Db, id: JobId) {
    && after.mail.Keys == before.mail.Keys && after.nextToken == before.nextToken
    && (forall other | other in before.mail && other != id :: after.mail[other] == before.mail[other])
  }

  lemma DeferTouchesOneRow(db: Db, id: JobId, token: nat, availableAt: int, reading: int, now: int)
    ensures var after := DeferJob(db, id, token, availableAt, reading, now);
            OneRow(db, after, id) && (Owns(db.mail, id, token) ==> !after.mail[id].status.Processing?)
  {
  }

  /** A settlement touches no row but its own, and leaves that one unclaimed. */
  lemma SettlesOneRow(db: Db, id: JobId, token: nat, answer: Answer, reading: int, now: int, config: Config)
    requires config.maxBackoffSeconds >= 1
    ensures var after := After(db, id, token, answer, reading, now, config);
            OneRow(db, after, id) && (Owns(db.mail, id, token) ==> !after.mail[id].status.Processing?)
  {
    if answer.Failed? {
      DeferTouchesOneRow(db, id, token, NextAttempt(db, Settlement(id, token, answer, reading), config), reading, now);
    }
  }

  lemma OneRowChanges(before: Mail, after: Mail, id: JobId, status: Status)
    requires before.Keys == after.Keys && id in before && before[id].status != status
    requires forall other | other in before && other != id :: after[other] == before[other]
    ensures WithStatus(after, status) == WithStatus(before, status) + if after[id].status == status then {id} else {}
  {
    forall other ensures other in WithStatus(after, status) <==>
                   other in WithStatus(before, status) || (other == id && after[id].status == status)
    {
    }
  }

  lemma OneRowCounts(before: Mail, after: Mail, id: JobId, status: Status)
    requires before.Keys == after.Keys && id in before && before[id].status != status
    requires forall other | other in before && other != id :: after[other] == before[other]
    ensures |WithStatus(after, status)| == |WithStatus(before, status)| + if after[id].status == status then 1 else 0
  {
    OneRowChanges(before, after, id, status);
    assert id !in WithStatus(before, status);
  }

  /** How a settlement by the owner ends, as the table and the summary both show it. */
  lemma SettlementCounts(db: Db, id: JobId, token: nat, answer: Answer, reading: int, now: int, config: Config)
    requires config.maxBackoffSeconds >= 1 && Owns(db.mail, id, token)
    ensures var after := After(db, id, token, answer, reading, now, config);
            && id in after.mail
            && |WithStatus(after.mail, Sent)| == |WithStatus(db.mail, Sent)| + (if after.mail[id].status.Sent? then 1 else 0)
            && |WithStatus(after.mail, DeadLetter)| == |WithStatus(db.mail, DeadLetter)| + (if after.mail[id].status.DeadLetter? then 1 else 0)
  {
    SettlesOneRow(db, id, token, answer, reading, now, config);
    OneRowCounts(db.mail, After(db, id, token, answer, reading, now, config).mail, id, Sent);
    OneRowCounts(db.mail, After(db, id, token, answer, reading, now, config).mail, id, DeadLetter);
  }

  lemma CancelCounts(mail: Mail, ids: set<JobId>, reason: TerminalReason, now: int, status: Status)
    requires forall id | id in ids && id in mail :: mail[id].status != status
    requires status != Cancelled
    ensures WithStatus(CancelAll(mail, ids, reason, now), status) == WithStatus(mail, status)
  {
  }

  lemma DeadLetterCounts(mail: Mail, ids: set<JobId>, reason: TerminalReason, now: int)
    requires forall id | id in ids :: id in mail && Active(mail[id])
    ensures WithStatus(DeadLetterAll(mail, ids, reason, now), Sent) == WithStatus(mail, Sent)
    ensures |WithStatus(DeadLetterAll(mail, ids, reason, now), DeadLetter)| == |WithStatus(mail, DeadLetter)| + |ids|
  {
    assert WithStatus(DeadLetterAll(mail, ids, reason, now), DeadLetter) == WithStatus(mail, DeadLetter) + ids;
    assert WithStatus(mail, DeadLetter) !! ids;
  }

  lemma ChoosingCounts(kept: Db, chosen: set<JobId>, lease: nat, now: int, status: Status)
    requires chosen <= ClaimableIds(kept.mail, lease, now) && (status.Sent? || status.DeadLetter?)
    ensures WithStatus(Claimed(kept, chosen, now).mail, status) == WithStatus(kept.mail, status)
  {
  }

  /** A claim sends nothing and dead-letters what is past its horizon. */
  lemma ClaimCounts(db: Db, chosen: set<JobId>, lease: nat, now: int)
    requires chosen <= ClaimableIds(Housekeep(db, lease, now).mail, lease, now)
    ensures var after := ClaimBatch(db, chosen, lease, now).mail;
            var past := PastHorizon(CancelAll(db.mail, ExpiredAlerts(db.mail, now), Expired, now), lease, now);
            && WithStatus(after, Sent) == WithStatus(db.mail, Sent)
            && |WithStatus(after, DeadLetter)| == |WithStatus(db.mail, DeadLetter)| + |past|
  {
    var unexpired := CancelAll(db.mail, ExpiredAlerts(db.mail, now), Expired, now);
    var past := PastHorizon(unexpired, lease, now);
    var within := DeadLetterAll(unexpired, past, RetryHorizon, now);
    CancelCounts(db.mail, ExpiredAlerts(db.mail, now), Expired, now, Sent);
    CancelCounts(db.mail, ExpiredAlerts(db.mail, now), Expired, now, DeadLetter);
    DeadLetterCounts(unexpired, past, RetryHorizon, now);
    CancelCounts(within, Unjustified(within, db.subs, db.watches), Ineligible, now, Sent);
    CancelCounts(within, Unjustified(within, db.subs, db.watches), Ineligible, now, DeadLetter);
    ChoosingCounts(Housekeep(db, lease, now), chosen, lease, now, Sent);
    ChoosingCounts(Housekeep(db, lease, now), chosen, lease, now, DeadLetter);
  }

  /** Every claimed row has a token that was drawn before `bound`. */
  ghost predicate TokensBelow(mail: Mail, bound: nat) {
    forall id | id in mail && mail[id].status.Processing? :: mail[id].claimToken.Some? && mail[id].claimToken.value < bound
  }

  /** The jobs from `from` on are still claimed as they were, and only they are under a new token. */
  ghost predicate StillClaimed(mail: Mail, claimed: Mail, batch: seq<JobId>, from: nat, token: nat, bound: nat) {
    && from <= |batch|
    && (forall j | from <= j < |batch| :: Owns(mail, batch[j], token) && batch[j] in claimed && mail[batch[j]] == claimed[batch[j]])
    && (forall id | id in mail && mail[id].status.Processing? && id !in batch[from..] ::
          mail[id].claimToken.Some? && mail[id].claimToken.value < bound)
  }

  lemma ClaimingClaims(db: Db, batch: seq<JobId>, lease: nat, now: int, bound: nat)
    requires TokensBelow(db.mail, bound) && bound <= db.nextToken
    requires forall id | id in batch :: id in ClaimableIds(Housekeep(db, lease, now).mail, lease, now)
    ensures var after := ClaimBatch(db, (set id | id in batch), lease, now).mail;
            StillClaimed(after, after, batch, 0, db.nextToken, bound)
  {
    var chosen := set id | id in batch;
    var kept, after := Housekeep(db, lease, now), ClaimBatch(db, chosen, lease, now).mail;
    assert batch[0..] == batch;
    forall id | id in after && after[id].status.Processing? && id !in batch
      ensures after[id].claimToken.Some? && after[id].claimToken.value < bound
    {
      assert after[id] == kept.mail[id] == db.mail[id];
    }
    forall j | 0 <= j < |batch| ensures Owns(after, batch[j], db.nextToken) {
      assert batch[j] in chosen;
    }
  }

  lemma OneFewerClaimed(db: Db, claimed: Mail, batch: seq<JobId>, i: nat, token: nat, bound: nat,
                        answer: Answer, reading: int, now: int, config: Config)
    requires config.maxBackoffSeconds >= 1 && i < |batch| && StillClaimed(db.mail, claimed, batch, i, token, bound)
    requires forall j, k | 0 <= j < k < |batch| :: batch[j] != batch[k]
    ensures StillClaimed(After(db, batch[i], token, answer, reading, now, config).mail, claimed, batch, i + 1, token, bound)
  {
    SettlesOneRow(db, batch[i], token, answer, reading, now, config);
    var after := After(db, batch[i], token, answer, reading, now, config).mail;
    forall id | id in after && after[id].status.Processing? && id !in batch[i + 1..]
      ensures after[id].claimToken.Some? && after[id].claimToken.value < bound
    {
      assert batch[i..] == [batch[i]] + batch[i + 1..];
    }
  }

  /** No row is new or gone, and none was tried less often. */
  ghost predicate Tried(before: Mail, after: Mail) {
    after.Keys == before.Keys && forall id | id in before :: after[id].attempts >= before[id].attempts
  }

  /** What the dispatcher said of a job, or that it said nothing. */
  function AnswerTo(answers: JobId -> Option<Answer>, id: JobId): Answer {
    if answers(id).Some? then answers(id).value else Failed(Retryable)
  }

  /** The first n rows of the batch have become what was answered. */
  ghost predicate AnsweredTo(batch: seq<JobId>, n: nat, claimed: Mail, mail: Mail, answers: JobId -> Option<Answer>, reading: int, now: int,
                             config: Config)
    requires config.maxBackoffSeconds >= 1 && n <= |batch|
  {
    forall j | 0 <= j < n :: batch[j] in claimed && batch[j] in mail
      && Answers(claimed[batch[j]], mail[batch[j]], AnswerTo(answers, batch[j]), reading, now, config)
  }

  /** One more settlement leaves the earlier ones as they are. */
  lemma OneMoreAnswered(batch: seq<JobId>, i: nat, claimed: Mail, before: Db, after: Db, answers: JobId -> Option<Answer>, reading: int, now: int,
                        config: Config)
    requires config.maxBackoffSeconds >= 1 && i < |batch| && (forall j, k | 0 <= j < k < |batch| :: batch[j] != batch[k])
    requires AnsweredTo(batch, i, claimed, before.mail, answers, reading, now, config) && Tried(claimed, before.mail)
    requires batch[i] in before.mail && batch[i] in claimed && before.mail[batch[i]] == claimed[batch[i]] && OnlyRow(before, after, batch[i], now)
    requires Answers(before.mail[batch[i]], after.mail[batch[i]], AnswerTo(answers, batch[i]), reading, now, config)
    ensures AnsweredTo(batch, i + 1, claimed, after.mail, answers, reading, now, config) && Tried(claimed, after.mail)
  {
    AnsweredIsTried(before.mail[batch[i]], after.mail[batch[i]], AnswerTo(answers, batch[i]), reading, now, config);
  }

  lemma AnsweredIsTried(before: Job, after: Job, answer: Answer, reading: int, now: int, config: Config)
    requires config.maxBackoffSeconds >= 1 && Answers(before, after, answer, reading, now, config)
    ensures after.attempts == before.attempts
  {
  }

  /** The settlements of one batch: each of its jobs is settled as answered, and counted once. */
  method SettleBatch(tables: Tables, batch: seq<JobId>, token: nat, answers: JobId -> Option<Answer>, reading: int, now: int,
                     config: Config, ghost bound: nat, before: Summary)
    returns (after: Summary)
    requires tables.Valid() && config.maxBackoffSeconds >= 1
    requires StillClaimed(tables.mail, tables.mail, batch, 0, token, bound)
    requires forall j, k | 0 <= j < k < |batch| :: batch[j] != batch[k]
    modifies tables`mail, tables`incidents
    ensures tables.Valid() && TokensBelow(tables.mail, bound)
    ensures Accounted(after) == Accounted(before) + |batch| && Shows(old(tables.mail), tables.mail, before, after)
    ensures after.claimed == before.claimed && after.claimFenceLost == before.claimFenceLost
    ensures AnsweredTo(batch, |batch|, old(tables.mail), tables.mail, answers, reading, now, config) && Tried(old(tables.mail), tables.mail)
  {
    after := before;
    var claimed := tables.mail;
    for i := 0 to |batch|
      invariant tables.Valid() && StillClaimed(tables.mail, claimed, batch, i, token, bound)
      invariant Accounted(after) == Accounted(before) + i && Shows(claimed, tables.mail, before, after)
      invariant after.claimed == before.claimed && after.claimFenceLost == before.claimFenceLost
      invariant AnsweredTo(batch, i, claimed, tables.mail, answers, reading, now, config) && Tried(claimed, tables.mail)
    {
      var answer := AnswerTo(answers, batch[i]);
      var updated;
      ghost var db := tables.Contents();
      updated, after := SettleMailJob(tables, batch[i], token, claimed[batch[i]].attempts, answer, reading, now, config, after);
      OneFewerClaimed(db, claimed, batch, i, token, bound, answer, reading, now, config);
      OneMoreAnswered(batch, i, claimed, db, tables.Contents(), answers, reading, now, config);
    }
  }

  /** The tables between two batches of a drain, with the summary so far. */
  ghost predicate Drained(tables: Tables, bound: nat, summary: Summary, start: Mail, expired: nat)
    reads tables
  {
    && tables.Valid() && bound <= tables.nextToken && TokensBelow(tables.mail, bound)
    && Reports(summary, start, tables.mail, expired)
  }

  /** The summary after a claim, and after the settlements of its batch. */
  lemma ReportsAgain(before: Summary, start: Mail, mail: Mail, already: nat, claimedMail: Mail, count: nat, dead: nat, after: Summary, settled: Mail)
    requires Reports(before, start, mail, already)
    requires WithStatus(claimedMail, Sent) == WithStatus(mail, Sent)
    requires |WithStatus(claimedMail, DeadLetter)| == |WithStatus(mail, DeadLetter)| + dead
    requires var claimed := before.(deadLettered := before.deadLettered + dead, claimed := before.claimed + count);
             && Accounted(after) == Accounted(claimed) + count && Shows(claimedMail, settled, claimed, after)
             && after.claimed == claimed.claimed && after.claimFenceLost == claimed.claimFenceLost
    ensures Reports(after, start, settled, already + dead)
  {
  }

  /** Whatever was due has been tried once more. */
  ghost predicate AllTaken(before: Db, after: Mail, lease: nat, now: int) {
    forall id | id in before.mail && IsDue(before, before.mail[id], lease, now) :: id in after && after[id].attempts > before.mail[id].attempts
  }

  lemma ClaimTries(before: Db, after: Db, batch: seq<JobId>, token: nat, size: nat, lease: nat, now: int)
    requires Claims(before, after, (set id | id in batch), token, lease, now)
    requires forall id | id in before.mail && IsDue(before, before.mail[id], lease, now) && id !in batch :: |batch| == size
    ensures Tried(before.mail, after.mail) && (|batch| < size ==> AllTaken(before, after.mail, lease, now))
  {
    forall id | id in before.mail
      ensures after.mail[id].attempts == before.mail[id].attempts + (if id in batch then 1 else 0)
    {
      if id !in batch { assert KeepsHouse(before, before.mail[id], after.mail[id], lease, now); }
    }
  }

  /** A claim, with what the settlements and the summary need of it. */
  method ClaimNext(tables: Tables, batchSize: nat, lease: nat, now: int, ghost bound: nat)
    returns (batch: seq<JobId>, token: nat, deadLettered: nat)
    requires tables.Valid() && bound <= tables.nextToken && TokensBelow(tables.mail, bound)
    modifies tables
    ensures tables.Valid() && bound <= tables.nextToken && |batch| <= batchSize
    ensures StillClaimed(tables.mail, tables.mail, batch, 0, token, bound)
    ensures forall j, k | 0 <= j < k < |batch| :: batch[j] != batch[k]
    ensures WithStatus(tables.mail, Sent) == WithStatus(old(tables.mail), Sent)
    ensures |WithStatus(tables.mail, DeadLetter)| == |WithStatus(old(tables.mail), DeadLetter)| + deadLettered
    ensures Tried(old(tables.mail), tables.mail)
    ensures |batch| < batchSize ==> AllTaken(old(tables.Contents()), tables.mail, lease, now)
  {
    ghost var db := tables.Contents();
    batch, token, deadLettered := tables.ClaimMailBatch(batchSize, lease, now);
    ClaimingClaims(db, batch, lease, now, bound);
    ClaimCounts(db, (set id | id in batch), lease, now);
    HorizonIsPast(db, lease, now);
    ClaimTries(db, tables.Contents(), batch, token, batchSize, lease, now);
  }

  /** One turn of the loop: a batch is claimed, and all of it settled. */
  method DrainBatch(tables: Tables, answers: JobId -> Option<Answer>, now: int, batchSize: nat, lease: nat, config: Config,
                    ghost bound: nat, before: Summary, ghost already: nat, ghost start: Mail)
    returns (after: Summary, count: nat, ghost expired: nat)
    requires config.maxBackoffSeconds >= 1 && Drained(tables, bound, before, start, already)
    modifies tables
    ensures Drained(tables, bound, after, start, expired)
    ensures count <= batchSize && after.claimed == before.claimed + count
    ensures Tried(old(tables.mail), tables.mail)
    ensures count < batchSize ==> AllTaken(old(tables.Contents()), tables.mail, lease, now)
  {
    ghost var mail := tables.mail;
    var batch, token, deadLettered := ClaimNext(tables, batchSize, lease, now, bound);
    ghost var claimedMail := tables.mail;
    expired, count := already + deadLettered, |batch|;
    var claimed := before.(deadLettered := before.deadLettered + deadLettered, claimed := before.claimed + count);
    after := SettleBatch(tables, batch, token, answers, now, now, config, bound, claimed);
    ReportsAgain(before, start, mail, already, claimedMail, count, deadLettered, after, tables.mail);
  }

  /**
   `drainMailOutbox`.  Every job it claims is settled before it returns, none is still claimed by
   it, and the summary accounts for each claimed or horizon-expired job exactly once.  It goes on
   until it is aborted, has claimed four batches or one comes back short; unless it is aborted at
   once, either everything that was due has been tried or a whole batch of it.
   */
  method DrainMailOutbox(tables: Tables, answers: JobId -> Option<Answer>, readings: nat -> int, aborted: nat -> bool,
                         batchSize: nat, lease: nat, config: Config)
    returns (summary: Summary, ghost expired: nat, ghost batches: nat)
    requires tables.Valid() && config.maxBackoffSeconds >= 1 && batchSize >= 1
    requires TokensBelow(tables.mail, tables.nextToken)
    modifies tables
    ensures tables.Valid() && TokensBelow(tables.mail, old(tables.nextToken))
    ensures Reports(summary, old(tables.mail), tables.mail, expired) && Tried(old(tables.mail), tables.mail)
    ensures batches <= 4 && (batches - 1) * batchSize <= summary.claimed <= batches * batchSize
    ensures batches == 4 || aborted(batches) || summary.claimed < batches * batchSize
    ensures aborted(0) || summary.claimed >= batchSize || AllTaken(old(tables.Contents()), tables.mail, lease, readings(0))
  {
    summary, expired, batches := EMPTY, 0, 0;
    var batchNumber, full := 0, true;
    while batchNumber < MAX_BATCHES && full && !aborted(batchNumber)
      invariant 0 <= batchNumber <= MAX_BATCHES
      invariant Drained(tables, old(tables.nextToken), summary, old(tables.mail), expired)
      invariant batches == batchNumber && Tried(old(tables.mail), tables.mail)
      invariant full ==> summary.claimed == batches * batchSize
      invariant !full ==> batches > 0 && (batches - 1) * batchSize <= summary.claimed < batches * batchSize
      invariant batches == 0 ==> tables.Contents() == old(tables.Contents())
      invariant batches == 0 || summary.claimed >= batchSize || AllTaken(old(tables.Contents()), tables.mail, lease, readings(0))
      decreases MAX_BATCHES - batchNumber
    {
      var count;
      assert (batches + 1) * batchSize == batches * batchSize + batchSize;
      summary, count, expired :=
        DrainBatch(tables, answers, readings(batchNumber), batchSize, lease, config, old(tables.nextToken), summary, expired, old(tables.mail));
      batchNumber, full, batches := batchNumber + 1, count >= batchSize, batches + 1;
    }
  }
}
