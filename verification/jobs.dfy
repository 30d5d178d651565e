/** The jobs table: every SQL statement of the job repository and of the Modal poller as a
    step on rows, with claims split into a locking and an updating half. */
module Jobs {
  import opened Counting
  import opened Runs
  import opened Text

  type Id = nat
  type Txn = nat

  datatype Status = Pending | Claimed | Running | Completed | Failed | Cancelled

  datatype Job = Job(
    jobType: string, status: Status, priority: int, runAt: Option<int>,
    attempts: int, maxAttempts: int, createdAt: int,
    claimedAt: Option<int>, startedAt: Option<int>, completedAt: Option<int>,
    worker: Option<string>, result: Option<string>, error: Option<string>)

  type Table = map<Id, Job>

  const BEHAVIOR := "behavior_execution"
  const INGESTION := "knowledge_ingestion"
  const POLL_LIMIT := 5

  // ---------------------------------------------------------------- single-row statements

  datatype Op =
    | Start(now: int)
    | Complete(now: int, result: Option<string>)
    | Fail(now: int, error: string)
    | Requeue(now: int, delay: int)
    | Cancel(now: int)
    | Ingest(now: int, report: Status, problem: Option<string>, markStarted: bool, markCompleted: bool)

  predicate Requeueable(j: Job) {
    (j.status.Failed? || j.status.Running? || j.status.Claimed?) && j.attempts < j.maxAttempts
  }

  predicate Stuck(j: Job, now: int, timeout: int) {
    (j.status.Claimed? || j.status.Running?) && j.claimedAt.Some? && j.claimedAt.value < now - timeout
    && j.attempts < j.maxAttempts
  }

  /** The WHERE clause of a single-row UPDATE; complete and fail look at the id only, and the
      status report of an ingestion job at its type. */
  predicate Matches(j: Job, op: Op) {
    match op
    case Start(_) => j.status.Claimed?
    case Complete(_, _) => true
    case Fail(_, _) => true
    case Requeue(_, _) => Requeueable(j)
    case Cancel(_) => j.status.Pending? || j.status.Claimed?
    case Ingest(_, _, _, _, _) => j.jobType == INGESTION
  }

  /** SQL `COALESCE`. */
  function Coalesce(a: Option<int>, b: int): Option<int> {
    if a.Some? then a else Some(b)
  }

  function ApplyOp(j: Job, op: Op): Job {
    if !Matches(j, op) then j
    else
      match op
      case Start(now) => j.(status := Running, startedAt := Some(now))
      case Complete(now, result) => j.(status := Completed, completedAt := Some(now), result := result)
      case Fail(now, error) => j.(status := Failed, completedAt := Some(now), error := Some(error))
      case Requeue(now, delay) =>
        j.(status := Pending, runAt := Some(now + delay), claimedAt := None, startedAt := None, worker := None)
      case Cancel(now) => j.(status := Cancelled, completedAt := Some(now))
      case Ingest(now, report, problem, markStarted, markCompleted) =>
        j.(status := report, error := problem,
           startedAt := if markStarted then Coalesce(j.startedAt, now) else j.startedAt,
           completedAt := if markCompleted then Coalesce(j.completedAt, now) else j.completedAt)
  }

  function ReclaimRow(j: Job, now: int, timeout: int): Job {
    if Stuck(j, now, timeout) then
      j.(status := Pending, claimedAt := None, startedAt := None, worker := None)
    else j
  }

  // ---------------------------------------------------------------- claiming

  /** `claim_jobs` by a repository worker, or the batch claim of `poll_behavior_jobs`. */
  datatype Claimer = Repository(worker: string, types: seq<string>, limit: nat) | Poller(worker: string)

  function Limit(c: Claimer): nat {
    if c.Repository? then c.limit else POLL_LIMIT
  }

  predicate Eligible(c: Claimer, j: Job, now: int) {
    && j.status.Pending?
    && (j.runAt.Some? ==> j.runAt.value <= now)
    && (if c.Repository? then j.jobType in c.types else j.jobType == BEHAVIOR)
  }

  /** ORDER BY run_at NULLS FIRST (repository only), priority DESC, created_at. */
  predicate Before(c: Claimer, a: Job, b: Job) {
    var byPriority := a.priority > b.priority || (a.priority == b.priority && a.createdAt < b.createdAt);
    if c.Poller? || a.runAt == b.runAt then byPriority
    else a.runAt.None? || (b.runAt.Some? && a.runAt.value < b.runAt.value)
  }

  function HandRow(c: Claimer, j: Job, now: int): Job {
    if c.Repository? then
      j.(status := Claimed, claimedAt := Some(now), worker := Some(c.worker), attempts := j.attempts + 1)
    else
      j.(status := Running, startedAt := Some(now), worker := Some(c.worker))
  }

  /** The rows a claimer may take: eligible and not locked by another transaction. */
  function Available(rows: Table, locked: set<Id>, c: Claimer, now: int): set<Id> {
    set id | id in rows && id !in locked && Eligible(c, rows[id], now)
  }

  /** An answer the locking SELECT may give: available rows in order, as many as the limit
      allows, none passed over for a later one. Rows that tie in the order may come either way. */
  ghost predicate IsBatch(rows: Table, locked: set<Id>, c: Claimer, now: int, batch: seq<Id>) {
    var available := Available(rows, locked, c, now);
    && |batch| <= Limit(c)
    && (forall i :: 0 <= i < |batch| ==> batch[i] in available)
    && (forall i, j :: 0 <= i < j < |batch| ==>
          batch[i] != batch[j] && !Before(c, rows[batch[j]], rows[batch[i]]))
    && (forall id :: id in available && id !in batch ==>
          |batch| == Limit(c) && forall b :: b in batch ==> !Before(c, rows[id], rows[b]))
  }

  /** The available rows strictly before `id`. */
  function Ahead(rows: Table, locked: set<Id>, c: Claimer, now: int, id: Id): set<Id>
    requires id in rows
  {
    set x | x in Available(rows, locked, c, now) && Before(c, rows[x], rows[id])
  }

  lemma BatchTakesFirst(rows: Table, locked: set<Id>, c: Claimer, now: int, batch: seq<Id>, i: nat)
    requires IsBatch(rows, locked, c, now, batch) && i < |batch|
    ensures |Ahead(rows, locked, c, now, batch[i])| <= i
  {
    var ahead := Ahead(rows, locked, c, now, batch[i]);
    forall x | x in ahead ensures x in batch[..i] {
      assert x in batch;
      var j :| 0 <= j < |batch| && batch[j] == x;
      assert !(j > i);
      assert j != i;
      assert batch[..i][j] == x;
    }
    SetFitsSeq(ahead, batch[..i]);
  }

  /** With no ties, the batch is exactly the first `limit` available rows. */
  lemma BatchIsFirstLimit(rows: Table, locked: set<Id>, c: Claimer, now: int, batch: seq<Id>, id: Id)
    requires IsBatch(rows, locked, c, now, batch)
    requires id in Available(rows, locked, c, now)
    requires forall x, y :: x in Available(rows, locked, c, now) && y in Available(rows, locked, c, now) && x != y ==>
               Before(c, rows[x], rows[y]) || Before(c, rows[y], rows[x])
    ensures id in batch <==> |Ahead(rows, locked, c, now, id)| < Limit(c)
  {
    if id in batch {
      var i :| 0 <= i < |batch| && batch[i] == id;
      BatchTakesFirst(rows, locked, c, now, batch, i);
    } else {
      var taken := SetOf(batch);
      forall b | b in taken ensures b in Ahead(rows, locked, c, now, id) {
        assert b in Available(rows, locked, c, now) && b != id;
        assert !Before(c, rows[id], rows[b]);
      }
      DistinctCount(batch);
      SubsetCount(taken, Ahead(rows, locked, c, now, id));
    }
  }

  /** The SELECT of a claim, column by column: the rows are due pending ones of the claimer's
      types, unlocked and distinct, at most `limit` or five; `run_at` ascending with NULL first
      (repository only), then `priority` descending, then `created_at`; and a row that qualifies
      is left out only if the limit is reached and no row taken comes after it. */
  ghost predicate ClaimsInOrder(rows: Table, locked: set<Id>, c: Claimer, now: int, batch: seq<Id>) {
    && |batch| <= (if c.Repository? then c.limit else 5)
    && (forall i :: 0 <= i < |batch| ==> Qualifies(rows, locked, c, now, batch[i]))
    && (forall i, j :: 0 <= i < j < |batch| ==> batch[i] != batch[j] && NoLater(c, rows[batch[i]], rows[batch[j]]))
    && (forall x :: Qualifies(rows, locked, c, now, x) && x !in batch ==>
          |batch| == (if c.Repository? then c.limit else 5) && forall b :: b in batch ==> NoLater(c, rows[b], rows[x]))
  }

  predicate Qualifies(rows: Table, locked: set<Id>, c: Claimer, now: int, id: Id) {
    && id in rows && id !in locked && rows[id].status == Pending
    && (rows[id].runAt.None? || rows[id].runAt.value <= now)
    && (c.Repository? ==> rows[id].jobType in c.types)
    && (c.Poller? ==> rows[id].jobType == "behavior_execution")
  }

  predicate NoLater(c: Claimer, a: Job, b: Job) {
    && (c.Repository? ==> a.runAt.None? || (b.runAt.Some? && a.runAt.value <= b.runAt.value))
    && (c.Poller? || a.runAt == b.runAt ==> a.priority >= b.priority)
    && ((c.Poller? || a.runAt == b.runAt) && a.priority == b.priority ==> a.createdAt <= b.createdAt)
  }

  /** Both ways of saying it are the same. */
  lemma BatchInOrder(rows: Table, locked: set<Id>, c: Claimer, now: int, batch: seq<Id>)
    ensures IsBatch(rows, locked, c, now, batch) <==> ClaimsInOrder(rows, locked, c, now, batch)
  {
    forall a: Job, b: Job ensures NoLater(c, a, b) <==> !Before(c, b, a) {
    }
    forall id ensures Qualifies(rows, locked, c, now, id) <==> id in Available(rows, locked, c, now) {
    }
  }

  lemma {:induction false} EarliestExists(rows: Table, s: set<Id>, c: Claimer)
    requires s != {} && forall id :: id in s ==> id in rows
    ensures exists id :: id in s && forall x :: x in s ==> !Before(c, rows[x], rows[id])
  {
    var y :| y in s;
    if s != {y} {
      EarliestExists(rows, s - {y}, c);
      var m :| m in s - {y} && forall x :: x in s - {y} ==> !Before(c, rows[x], rows[m]);
      var id := if Before(c, rows[y], rows[m]) then y else m;
      forall x | x in s ensures !Before(c, rows[x], rows[id]) {
        assert x != y ==> !Before(c, rows[x], rows[m]);
      }
      assert id in s;
    } else {
      assert !Before(c, rows[y], rows[y]);
    }
  }

  /** The locking SELECT: repeatedly the earliest available row, until the limit. */
  method SelectForUpdate(rows: Table, locked: set<Id>, c: Claimer, now: int) returns (batch: seq<Id>)
    ensures IsBatch(rows, locked, c, now, batch) && ClaimsInOrder(rows, locked, c, now, batch)
  {
    batch := [];
    ghost var available := Available(rows, locked, c, now);
    var rest := Available(rows, locked, c, now);
    while |batch| < Limit(c) && rest != {}
      invariant |batch| <= Limit(c) && rest <= available
      invariant forall id :: id in available <==> id in rest || id in batch
      invariant forall i :: 0 <= i < |batch| ==> batch[i] !in rest
      invariant forall i, j :: 0 <= i < j < |batch| ==>
                  batch[i] != batch[j] && !Before(c, rows[batch[j]], rows[batch[i]])
      invariant forall id, b :: id in rest && b in batch ==> !Before(c, rows[id], rows[b])
      decreases rest
    {
      EarliestExists(rows, rest, c);
      var id :| id in rest && forall x :: x in rest ==> !Before(c, rows[x], rows[id]);
      batch := batch + [id];
      rest := rest - {id};
    }
    BatchInOrder(rows, locked, c, now, batch);
  }

  // ---------------------------------------------------------------- runs

  /** An open claim: a transaction between its locking SELECT and its UPDATE. */
  datatype Open = Open(claimer: Claimer, now: int)

  datatype State = State(rows: Table, locks: map<Id, Txn>, open: map<Txn, Open>)

  const EMPTY := State(map[], map[], map[])

  datatype Step =
    | Insert(id: Id, job: Job)
    | Lock(txn: Txn, claimer: Claimer, now: int, batch: seq<Id>)
    | Update(txn: Txn)
    | Row(id: Id, op: Op)
    | Reclaim(now: int, timeout: int)

  /** What all INSERTs share, whether of pending jobs, of finished ones or of the poller's
      `cron_check` markers: no attempt made, never claimed. */
  predicate Fresh(j: Job) {
    j.attempts == 0 && j.claimedAt.None?
  }

  /** A statement on a locked row waits; the claim skips such rows instead. An ingestion job is
      reported running, completed or failed, not queued again. */
  ghost predicate Enabled(s: State, t: Step) {
    match t
    case Insert(id, _) => id !in s.rows && id !in s.locks
    case Lock(txn, c, now, batch) => txn !in s.open && IsBatch(s.rows, s.locks.Keys, c, now, batch)
    case Update(txn) => txn in s.open
    case Row(id, op) => id in s.rows && id !in s.locks && (op.Ingest? ==> !op.report.Pending?)
    case Reclaim(_, _) => true
  }

  predicate Holds(s: State, txn: Txn, id: Id) {
    id in s.locks && s.locks[id] == txn
  }

  ghost function Next(s: State, t: Step): State {
    match t
    case Insert(id, job) => s.(rows := s.rows[id := job])
    case Lock(txn, c, now, batch) =>
      s.(locks := s.locks + (map id | id in batch :: txn), open := s.open[txn := Open(c, now)])
    case Update(txn) =>
      if txn !in s.open then s
      else
        var o := s.open[txn];
        State(map id | id in s.rows :: if Holds(s, txn, id) then HandRow(o.claimer, s.rows[id], o.now) else s.rows[id],
              map id | id in s.locks && s.locks[id] != txn :: s.locks[id],
              s.open - {txn})
    case Row(id, op) => if id in s.rows then s.(rows := s.rows[id := ApplyOp(s.rows[id], op)]) else s
    case Reclaim(now, timeout) => s.(rows := map id | id in s.rows :: ReclaimRow(s.rows[id], now, timeout))
  }

  /** With nothing in between, the two halves of a claim are one statement: exactly the batch is
      handed out, and no lock is left behind. */
  lemma ClaimIsLockThenUpdate(s: State, txn: Txn, c: Claimer, now: int, batch: seq<Id>)
    requires Enabled(s, Lock(txn, c, now, batch)) && forall id :: id in s.locks ==> s.locks[id] != txn
    ensures var locked := Next(s, Lock(txn, c, now, batch));
            && locked.rows == s.rows && Enabled(locked, Update(txn))
            && Next(locked, Update(txn)).locks == s.locks && Next(locked, Update(txn)).open == s.open
            && Next(locked, Update(txn)).rows.Keys == s.rows.Keys
            && forall id :: id in s.rows ==>
                 Next(locked, Update(txn)).rows[id] == if id in batch then HandRow(c, s.rows[id], now) else s.rows[id]
  {
    forall id | id in batch ensures id !in s.locks {
      assert id in Available(s.rows, s.locks.Keys, c, now);
    }
  }

  /** How often a job may be claimed: `max_attempts`, but at least once. */
  function Cap(j: Job): nat {
    if j.maxAttempts < 1 then 1 else j.maxAttempts
  }

  /** A row within its retry limit: a pending one is unclaimed and below it. */
  predicate RowOk(j: Job) {
    && 0 <= j.attempts <= Cap(j)
    && (j.claimedAt.Some? ==> j.attempts >= 1)
    && (j.status.Pending? ==> j.attempts < Cap(j) && j.claimedAt.None?)
  }

  /** A lock is held by an open claim on a row that is still eligible for it. */
  ghost predicate LockOk(s: State, id: Id) {
    && id in s.rows
    && (id in s.locks ==>
          && s.locks[id] in s.open
          && Eligible(s.open[s.locks[id]].claimer, s.rows[id], s.open[s.locks[id]].now))
  }

  /** Both, of one row; nothing is said about the other rows of the table. */
  ghost predicate Inv(s: State, id: Id) {
    LockOk(s, id) && RowOk(s.rows[id])
  }

  /** Row `id` comes into being. */
  ghost predicate Born(s: State, t: Step, id: Id) {
    t.Insert? && t.id == id && Enabled(s, t) && Fresh(t.job)
  }

  lemma StepKeepsLock(s: State, t: Step, id: Id)
    requires Enabled(s, t) && (LockOk(s, id) || (t.Insert? && t.id == id))
    ensures LockOk(Next(s, t), id)
  {
    if t.Lock? && id in t.batch {
      assert id in Available(s.rows, s.locks.Keys, t.claimer, t.now);
    }
  }

  /** Every step of every worker keeps the invariant of every row, whatever the other rows are
      like, and every inserted row starts with it. */
  lemma StepKeepsInv(s: State, t: Step, id: Id)
    requires Enabled(s, t) && (Inv(s, id) || Born(s, t, id))
    ensures Inv(Next(s, t), id)
  {
    StepKeepsLock(s, t, id);
    if t.Update? && Holds(s, t.txn, id) {
      assert s.rows[id].status.Pending?;
    }
  }

  /** What the columns of a row say about its status, for rows inserted pending, or finished by
      `create_completed_job`; reports on ingestion jobs do not care. */
  predicate ColumnsFit(j: Job) {
    match j.status
    case Pending => j.startedAt.None? && j.worker.None?
    case Claimed => j.claimedAt.Some? && j.startedAt.None? && j.worker.Some?
    case Running => j.startedAt.Some? && j.worker.Some?
    case _ => j.completedAt.Some?
  }

  lemma StepKeepsColumns(s: State, t: Step, id: Id)
    requires LockOk(s, id) && Enabled(s, t) && ColumnsFit(s.rows[id]) && s.rows[id].jobType != INGESTION
    ensures ColumnsFit(Next(s, t).rows[id]) && Next(s, t).rows[id].jobType != INGESTION
  {
    if t.Update? && Holds(s, t.txn, id) {
      assert s.rows[id].status.Pending?;
    }
  }

  ghost predicate ValidRun(s: State, steps: seq<Step>) {
    AllFine(Enabled, Next, s, steps)
  }

  ghost function After(s: State, steps: seq<Step>): State {
    RunAll(Next, s, steps)
  }

  lemma RunKeepsInv(s: State, steps: seq<Step>, id: Id)
    requires Inv(s, id) && ValidRun(s, steps)
    ensures Inv(After(s, steps), id)
  {
    forall r, t | Inv(r, id) && Enabled(r, t) ensures Inv(Next(r, t), id) {
      StepKeepsInv(r, t, id);
    }
    RunKeeps((r: State) => Inv(r, id), Enabled, Next, s, steps);
  }

  /** From the empty table on, whatever is inserted and done, every row has the invariant. */
  lemma RunsFromEmpty(steps: seq<Step>)
    requires AllFine((r: State, t: Step) => Enabled(r, t) && (t.Insert? ==> Fresh(t.job)), Next, EMPTY, steps)
    ensures forall id :: id in After(EMPTY, steps).rows ==> Inv(After(EMPTY, steps), id)
  {
    var fine := (r: State, t: Step) => Enabled(r, t) && (t.Insert? ==> Fresh(t.job));
    var all := (r: State) => forall id :: id in r.rows ==> Inv(r, id);
    forall r, t | all(r) && fine(r, t) ensures all(Next(r, t)) {
      forall id | id in Next(r, t).rows ensures Inv(Next(r, t), id) {
        StepKeepsInv(r, t, id);
      }
    }
    RunKeeps(all, fine, Next, EMPTY, steps);
  }

  /** A claim of either kind hands row `id` to its worker. */
  predicate Hands(s: State, t: Step, id: Id) {
    t.Update? && t.txn in s.open && Holds(s, t.txn, id)
  }

  predicate ClaimHands(s: State, t: Step, id: Id) {
    Hands(s, t, id) && s.open[t.txn].claimer.Repository?
  }

  /** The step puts row `id` back to pending. */
  ghost predicate Returns(s: State, t: Step, id: Id) {
    Enabled(s, t) && id in s.rows && !s.rows[id].status.Pending? && Next(s, t).rows[id].status.Pending?
  }

  predicate IsRequeueOrReclaim(t: Step) {
    t.Reclaim? || (t.Row? && t.op.Requeue?)
  }

  /** The state in which a run takes its step `k`. */
  ghost function At(s: State, steps: seq<Step>, k: nat): State
    requires k <= |steps|
  {
    After(s, steps[..k])
  }

  /** Read off the rows: the UPDATE of a repository claim takes them from pending to claimed,
      that of a poll from pending to running. */
  lemma HandsExactly(s: State, t: Step, id: Id)
    requires LockOk(s, id) && Enabled(s, t)
    ensures var was, now := s.rows[id].status, Next(s, t).rows[id].status;
            && (ClaimHands(s, t, id) <==> t.Update? && was.Pending? && now.Claimed?)
            && (Hands(s, t, id) && !ClaimHands(s, t, id) <==> t.Update? && was.Pending? && now.Running?)
  {
  }

  lemma OnlyRequeueOrReclaimReturns(s: State, t: Step, id: Id)
    requires Returns(s, t, id)
    ensures IsRequeueOrReclaim(t)
  {
  }

  /** Claim exclusivity: once handed out, a row is handed out again, by whichever kind of
      worker, only after a requeue or a reclaim has returned it. */
  lemma ClaimsAreExclusive(s: State, t: Step, rest: seq<Step>, id: Id)
    requires LockOk(s, id) && Enabled(s, t) && Hands(s, t, id) && ValidRun(Next(s, t), rest)
    ensures forall k :: 0 <= k < |rest| && Hands(At(Next(s, t), rest, k), rest[k], id) ==>
              exists i :: 0 <= i < k && IsRequeueOrReclaim(rest[i]) && Returns(At(Next(s, t), rest, i), rest[i], id)
  {
    StepKeepsLock(s, t, id);
    var out := Next(s, t);
    forall k | 0 <= k < |rest| && Hands(At(out, rest, k), rest[k], id)
      ensures exists i :: 0 <= i < k && IsRequeueOrReclaim(rest[i]) && Returns(At(out, rest, i), rest[i], id)
    {
      if forall i :: 0 <= i < k ==> !Returns(At(out, rest, i), rest[i], id) {
        OutUntilReturned(out, rest, id, k);
        assert false;
      }
      var i :| 0 <= i < k && Returns(At(out, rest, i), rest[i], id);
      OnlyRequeueOrReclaimReturns(At(out, rest, i), rest[i], id);
    }
  }

  lemma {:induction false} OutUntilReturned(s: State, steps: seq<Step>, id: Id, k: nat)
    requires LockOk(s, id) && ValidRun(s, steps) && !s.rows[id].status.Pending? && k <= |steps|
    requires forall i :: 0 <= i < k ==> !Returns(At(s, steps, i), steps[i], id)
    ensures LockOk(At(s, steps, k), id) && !At(s, steps, k).rows[id].status.Pending?
    decreases k
  {
    if k > 0 {
      OutUntilReturned(s, steps, id, k - 1);
      RunAt(Enabled, Next, s, steps, k - 1);
      StepKeepsLock(At(s, steps, k - 1), steps[k - 1], id);
    }
  }

  // ---------------------------------------------------------------- attempts

  ghost function ClaimCount(s: State, steps: seq<Step>, id: Id): nat
    requires ValidRun(s, steps)
    decreases |steps|
  {
    if steps == [] then 0
    else (if ClaimHands(s, steps[0], id) then 1 else 0) + ClaimCount(Next(s, steps[0]), steps[1..], id)
  }

  /** `attempts` counts the claims of the repository's workers and nothing else. */
  lemma {:induction false} AttemptsCountClaims(s: State, steps: seq<Step>, id: Id)
    requires ValidRun(s, steps) && id in s.rows
    ensures id in After(s, steps).rows
    ensures After(s, steps).rows[id].attempts == s.rows[id].attempts + ClaimCount(s, steps, id)
    ensures After(s, steps).rows[id].maxAttempts == s.rows[id].maxAttempts
    decreases |steps|
  {
    if steps != [] {
      AttemptsCountClaims(Next(s, steps[0]), steps[1..], id);
    }
  }

  /** So in every run `claim_jobs` wins one job at most `max_attempts` times. */
  lemma ClaimsAreBounded(s: State, steps: seq<Step>, id: Id)
    requires Inv(s, id) && ValidRun(s, steps)
    ensures var max := s.rows[id].maxAttempts;
            s.rows[id].attempts + ClaimCount(s, steps, id) <= if max < 1 then 1 else max
  {
    AttemptsCountClaims(s, steps, id);
    RunKeepsInv(s, steps, id);
  }

  /** A row started by the poller is not reclaimed before a repository worker claims it after
      someone requeued it: it has no `claimed_at`, and nothing else sets one. */
  lemma PolledRowsAreNotReclaimed(s: State, t: Step, rest: seq<Step>, id: Id)
    requires Inv(s, id) && Enabled(s, t) && Hands(s, t, id) && !ClaimHands(s, t, id) && ValidRun(Next(s, t), rest)
    ensures forall k :: 0 <= k < |rest| && rest[k].Reclaim? && Returns(At(Next(s, t), rest, k), rest[k], id) ==>
              exists i :: 0 <= i < k && ClaimHands(At(Next(s, t), rest, i), rest[i], id)
  {
    var out := Next(s, t);
    forall k | 0 <= k < |rest| && rest[k].Reclaim? && Returns(At(out, rest, k), rest[k], id)
      ensures exists i :: 0 <= i < k && ClaimHands(At(out, rest, i), rest[i], id)
    {
      if forall i :: 0 <= i < k ==> !ClaimHands(At(out, rest, i), rest[i], id) {
        UnclaimedUntilClaimed(out, rest, id, k);
        assert false;
      }
    }
  }

  lemma {:induction false} UnclaimedUntilClaimed(s: State, steps: seq<Step>, id: Id, k: nat)
    requires ValidRun(s, steps) && id in s.rows && s.rows[id].claimedAt.None? && k <= |steps|
    requires forall i :: 0 <= i < k ==> !ClaimHands(At(s, steps, i), steps[i], id)
    ensures id in At(s, steps, k).rows && At(s, steps, k).rows[id].claimedAt.None?
    decreases k
  {
    if k > 0 {
      UnclaimedUntilClaimed(s, steps, id, k - 1);
      RunAt(Enabled, Next, s, steps, k - 1);
    }
  }

  // ---------------------------------------------------------------- termination of retries

  /** What is left of a job's life: at most this many status changes. */
  function Budget(j: Job): int {
    var r := Cap(j) - j.attempts;
    match j.status
    case Claimed => 4 * r + 2
    case Running => 4 * r + 1
    case Failed => 4 * r
    case Pending => 4 * r - 1
    case Completed => 0
    case Cancelled => 0
  }

  /** Callers complete and fail only jobs they hold. */
  predicate FinishesHeld(s: State, t: Step, id: Id) {
    t.Row? && t.id == id && id in s.rows && (t.op.Complete? || t.op.Fail?) ==>
      s.rows[id].status.Claimed? || s.rows[id].status.Running?
  }

  /** Besides, the poller keeps away from this job, and it gets no ingestion reports. */
  predicate Disciplined(s: State, t: Step, id: Id) {
    && FinishesHeld(s, t, id)
    && (Hands(s, t, id) ==> ClaimHands(s, t, id))
    && (t.Row? && t.id == id && id in s.rows && t.op.Ingest? ==> !Matches(s.rows[id], t.op))
  }

  ghost predicate DisciplinedRun(s: State, steps: seq<Step>, id: Id)
    requires ValidRun(s, steps)
    decreases |steps|
  {
    steps != [] ==> Disciplined(s, steps[0], id) && DisciplinedRun(Next(s, steps[0]), steps[1..], id)
  }

  /** The number of steps of a run that change the status of row `id`. */
  ghost function Changes(s: State, steps: seq<Step>, id: Id): nat
    requires ValidRun(s, steps) && id in s.rows
    decreases |steps|
  {
    if steps == [] then 0
    else
      var n := Next(s, steps[0]);
      (if n.rows[id].status != s.rows[id].status then 1 else 0) + Changes(n, steps[1..], id)
  }

  lemma StepSpendsBudget(s: State, t: Step, id: Id)
    requires Inv(s, id) && Enabled(s, t) && Disciplined(s, t, id)
    ensures var j, k := s.rows[id], Next(s, t).rows[id];
            && Budget(j) >= 0
            && (if k.status != j.status then Budget(k) < Budget(j) else Budget(k) == Budget(j))
  {
    if Hands(s, t, id) {
      assert s.rows[id].status.Pending?;
    }
  }

  /** With that discipline every run changes a job's status at most `Budget` times,
      4 * max_attempts - 1 for a new job. */
  lemma {:induction false} RetriesTerminate(s: State, steps: seq<Step>, id: Id)
    requires Inv(s, id) && ValidRun(s, steps) && DisciplinedRun(s, steps, id)
    ensures Changes(s, steps, id) <= Budget(s.rows[id])
    ensures s.rows[id].status in {Completed, Cancelled} ==> Changes(s, steps, id) == 0
    decreases |steps|
  {
    if steps != [] {
      StepKeepsInv(s, steps[0], id);
      StepSpendsBudget(s, steps[0], id);
      RetriesTerminate(Next(s, steps[0]), steps[1..], id);
    }
  }

  /** Jobs of these types are left alone by the poller and by ingestion reports. */
  predicate RepositoryOnly(jobType: string) {
    jobType != BEHAVIOR && jobType != INGESTION
  }

  ghost predicate FinishesHeldRun(s: State, steps: seq<Step>, id: Id)
    requires ValidRun(s, steps)
    decreases |steps|
  {
    steps != [] ==> FinishesHeld(s, steps[0], id) && FinishesHeldRun(Next(s, steps[0]), steps[1..], id)
  }

  /** Read off the run: whenever it completes or fails the job, the job is held. */
  lemma {:induction false} FinishesHeldExactly(s: State, steps: seq<Step>, id: Id)
    requires ValidRun(s, steps) && id in s.rows
    ensures FinishesHeldRun(s, steps, id) <==>
            forall k :: 0 <= k < |steps| && steps[k].Row? && steps[k].id == id
                        && (steps[k].op.Complete? || steps[k].op.Fail?) ==>
              id in At(s, steps, k).rows && At(s, steps, k).rows[id].status in {Claimed, Running}
    decreases |steps|
  {
    if steps != [] {
      FinishesHeldExactly(Next(s, steps[0]), steps[1..], id);
      forall k | 0 < k < |steps| ensures At(s, steps, k) == At(Next(s, steps[0]), steps[1..], k - 1) {
        assert steps[..k][1..] == steps[1..][..k - 1];
      }
      assert At(s, steps, 0) == s;
    }
  }

  /** The poller's WHERE clause and that of the reports look at the type, which never changes. */
  lemma {:induction false} TypeDisciplines(s: State, steps: seq<Step>, id: Id)
    requires LockOk(s, id) && ValidRun(s, steps) && RepositoryOnly(s.rows[id].jobType)
    requires FinishesHeldRun(s, steps, id)
    ensures DisciplinedRun(s, steps, id)
    decreases |steps|
  {
    if steps != [] {
      StepKeepsLock(s, steps[0], id);
      TypeDisciplines(Next(s, steps[0]), steps[1..], id);
    }
  }

  /** Retries of every other type of job terminate, whatever the poller does: all that is asked
      is that callers finish only what they hold. */
  lemma RepositoryRetriesTerminate(s: State, steps: seq<Step>, id: Id)
    requires Inv(s, id) && ValidRun(s, steps) && RepositoryOnly(s.rows[id].jobType)
    requires FinishesHeldRun(s, steps, id)
    ensures Changes(s, steps, id) <= Budget(s.rows[id])
  {
    TypeDisciplines(s, steps, id);
    RetriesTerminate(s, steps, id);
  }

  /** Without it nothing bounds them: a pending job can be failed and requeued for ever, and
      no claim ever counts an attempt. */
  lemma {:induction false} FailRequeueForever(s: State, id: Id, n: nat) returns (steps: seq<Step>)
    requires id in s.rows && id !in s.locks && s.rows[id].status.Pending?
    requires s.rows[id].attempts < s.rows[id].maxAttempts
    ensures ValidRun(s, steps) && Changes(s, steps, id) == 2 * n && ClaimCount(s, steps, id) == 0
    decreases n
  {
    steps := [];
    if n > 0 {
      var fail, requeue := Row(id, Fail(0, "error")), Row(id, Requeue(0, 0));
      var failed := Next(s, fail);
      var again := Next(failed, requeue);
      steps := FailRequeueForever(again, id, n - 1);
      ConsRun(failed, requeue, steps, id);
      ConsRun(s, fail, [requeue] + steps, id);
      steps := [fail] + ([requeue] + steps);
    }
  }

  /** Prefixing a run with one step. */
  lemma ConsRun(s: State, t: Step, rest: seq<Step>, id: Id)
    requires Enabled(s, t) && ValidRun(Next(s, t), rest) && id in s.rows
    ensures ValidRun(s, [t] + rest)
    ensures Changes(s, [t] + rest, id)
         == (if Next(s, t).rows[id].status != s.rows[id].status then 1 else 0) + Changes(Next(s, t), rest, id)
    ensures ClaimCount(s, [t] + rest, id) == (if ClaimHands(s, t, id) then 1 else 0) + ClaimCount(Next(s, t), rest, id)
    ensures Disciplined(s, t, id) && DisciplinedRun(Next(s, t), rest, id) ==> DisciplinedRun(s, [t] + rest, id)
    ensures FinishesHeld(s, t, id) && FinishesHeldRun(Next(s, t), rest, id) ==> FinishesHeldRun(s, [t] + rest, id)
  {
    assert ([t] + rest)[1..] == rest;
  }

  // ---------------------------------------------------------------- runs that never end

  /** An unlocked pending job below its cap, whatever else the table holds. */
  ghost predicate Ready(s: State, id: Id) {
    && id in s.rows && id !in s.locks
    && s.rows[id].status.Pending? && s.rows[id].claimedAt.None?
    && 0 <= s.rows[id].attempts < s.rows[id].maxAttempts
  }

  /** The other jobs that a claim might take instead. */
  ghost function Rivals(s: State, id: Id): set<Id> {
    set x | x in s.rows && x != id && x !in s.locks && s.rows[x].status.Pending?
  }

  ghost predicate Idle(s: State, id: Id) {
    Ready(s, id) && Rivals(s, id) == {}
  }

  predicate Takes(c: Claimer, jobType: string) {
    Limit(c) >= 1 && if c.Repository? then jobType in c.types else jobType == BEHAVIOR
  }

  function Due(j: Job): int {
    if j.runAt.Some? then j.runAt.value else 0
  }

  /** The state with one row replaced. */
  function With(s: State, id: Id, j: Job): State {
    s.(rows := s.rows[id := j])
  }

  function HandDue(c: Claimer, j: Job): Job {
    HandRow(c, j, Due(j))
  }

  lemma {:induction false} NotIn(s: set<Txn>) returns (txn: Txn)
    ensures forall x :: x in s ==> x < txn
  {
    txn := 0;
    if s != {} {
      var x :| x in s;
      var y := NotIn(s - {x});
      txn := if x < y then y else x + 1;
      assert forall z :: z in s ==> z == x || z in s - {x};
    }
  }

  /** The two halves of a claim that takes just this job. */
  lemma ClaimIdle(s: State, id: Id, c: Claimer) returns (l: Step, u: Step)
    requires Idle(s, id) && Takes(c, s.rows[id].jobType)
    ensures l.Lock? && Enabled(s, l) && Next(s, l).rows == s.rows
    ensures u.Update? && Enabled(Next(s, l), u)
    ensures Disciplined(Next(s, l), u, id) <==> c.Repository?
    ensures Next(Next(s, l), u) == With(s, id, HandDue(c, s.rows[id]))
  {
    var txn := NotIn(s.open.Keys + s.locks.Values);
    assert forall x :: x in s.locks ==> s.locks[x] in s.locks.Values;
    l, u := Lock(txn, c, Due(s.rows[id]), [id]), Update(txn);
    OnlyIdle(s, id, c);
    ClaimIsLockThenUpdate(s, txn, c, Due(s.rows[id]), [id]);
    assert Next(Next(s, l), u).rows == s.rows[id := HandDue(c, s.rows[id])];
  }

  lemma OnlyIdle(s: State, id: Id, c: Claimer)
    requires Idle(s, id) && Takes(c, s.rows[id].jobType)
    ensures Available(s.rows, s.locks.Keys, c, Due(s.rows[id])) == {id}
    ensures IsBatch(s.rows, s.locks.Keys, c, Due(s.rows[id]), [id])
  {
    forall x | x in Available(s.rows, s.locks.Keys, c, Due(s.rows[id])) ensures x == id {
      assert x !in Rivals(s, id);
    }
  }

  /** Prefixing a run with the two halves of a claim of the idle job. */
  lemma PrependClaim(s: State, id: Id, c: Claimer, tail: seq<Step>) returns (steps: seq<Step>)
    requires Idle(s, id) && Takes(c, s.rows[id].jobType)
    requires ValidRun(With(s, id, HandDue(c, s.rows[id])), tail)
    ensures var held := With(s, id, HandDue(c, s.rows[id]));
            && ValidRun(s, steps) && Changes(s, steps, id) == 1 + Changes(held, tail, id)
            && (c.Repository? && DisciplinedRun(held, tail, id) ==> DisciplinedRun(s, steps, id))
            && (FinishesHeldRun(held, tail, id) ==> FinishesHeldRun(s, steps, id))
  {
    var l, u := ClaimIdle(s, id, c);
    ConsRun(Next(s, l), u, tail, id);
    ConsRun(s, l, [u] + tail, id);
    steps := [l] + ([u] + tail);
  }

  /** Rivals can be cancelled first: a run of the idle job is one of the job with rivals. */
  lemma PrependCancel(s: State, id: Id, x: Id, tail: seq<Step>) returns (steps: seq<Step>)
    requires Ready(s, id) && x in Rivals(s, id) && ValidRun(Next(s, Row(x, Cancel(0))), tail)
    ensures var left := Next(s, Row(x, Cancel(0)));
            && ValidRun(s, steps) && Changes(s, steps, id) == Changes(left, tail, id)
            && (DisciplinedRun(left, tail, id) ==> DisciplinedRun(s, steps, id))
            && (FinishesHeldRun(left, tail, id) ==> FinishesHeldRun(s, steps, id))
  {
    steps := [Row(x, Cancel(0))] + tail;
    ConsRun(s, Row(x, Cancel(0)), tail, id);
  }

  lemma CancelRival(s: State, id: Id, x: Id)
    requires Ready(s, id) && x in Rivals(s, id)
    ensures var left := Next(s, Row(x, Cancel(0)));
            && Ready(left, id) && left.rows[id] == s.rows[id]
            && Rivals(left, id) == Rivals(s, id) - {x} && |Rivals(left, id)| < |Rivals(s, id)|
  {
    assert Rivals(Next(s, Row(x, Cancel(0))), id) == Rivals(s, id) - {x};
  }

  /** The job after it has been claimed, started and failed once. */
  function FailedOnce(j: Job): Job {
    var held := HandDue(Repository("w", [j.jobType], 1), j);
    ApplyOp(ApplyOp(held, Start(0)), Fail(0, "error"))
  }

  lemma PrependFailure(s: State, id: Id, tail: seq<Step>) returns (steps: seq<Step>)
    requires Idle(s, id) && ValidRun(With(s, id, FailedOnce(s.rows[id])), tail)
    requires DisciplinedRun(With(s, id, FailedOnce(s.rows[id])), tail, id)
    ensures ValidRun(s, steps) && DisciplinedRun(s, steps, id)
    ensures Changes(s, steps, id) == 3 + Changes(With(s, id, FailedOnce(s.rows[id])), tail, id)
  {
    var c := Repository("w", [s.rows[id].jobType], 1);
    var start, fail := Row(id, Start(0)), Row(id, Fail(0, "error"));
    var held := With(s, id, HandDue(c, s.rows[id]));
    var started := Next(held, start);
    WithTwice(s, id, held.rows[id], started.rows[id]);
    WithTwice(s, id, started.rows[id], FailedOnce(s.rows[id]));
    ConsRun(started, fail, tail, id);
    ConsRun(held, start, [fail] + tail, id);
    steps := PrependClaim(s, id, c, [start] + ([fail] + tail));
  }

  lemma WithTwice(s: State, id: Id, a: Job, b: Job)
    ensures With(With(s, id, a), id, b) == With(s, id, b)
  {
    assert s.rows[id := a][id := b] == s.rows[id := b];
  }

  /** Replacing the row of an idle job by a pending one leaves it idle. */
  lemma StaysIdle(s: State, id: Id, j: Job)
    requires Idle(s, id) && j.status.Pending? && j.claimedAt.None? && 0 <= j.attempts < j.maxAttempts
    ensures Idle(With(s, id, j), id)
  {
    assert Rivals(With(s, id, j), id) == Rivals(s, id);
  }

  /** The budget is tight: a job that keeps failing uses all of it. */
  lemma {:induction false} BudgetIsReached(s: State, id: Id) returns (steps: seq<Step>)
    requires Ready(s, id)
    ensures ValidRun(s, steps) && DisciplinedRun(s, steps, id)
    ensures Changes(s, steps, id) == Budget(s.rows[id]) == 4 * (s.rows[id].maxAttempts - s.rows[id].attempts) - 1
    decreases s.rows[id].maxAttempts - s.rows[id].attempts, |Rivals(s, id)|
  {
    if Rivals(s, id) != {} {
      var x :| x in Rivals(s, id);
      CancelRival(s, id, x);
      steps := BudgetIsReached(Next(s, Row(x, Cancel(0))), id);
      steps := PrependCancel(s, id, x, steps);
    } else {
      var j := FailedOnce(s.rows[id]);
      var failed := With(s, id, j);
      steps := [];
      if j.attempts < j.maxAttempts {
        var requeue := Row(id, Requeue(0, 0));
        WithTwice(s, id, j, ApplyOp(j, Requeue(0, 0)));
        StaysIdle(s, id, ApplyOp(j, Requeue(0, 0)));
        steps := BudgetIsReached(Next(failed, requeue), id);
        ConsRun(failed, requeue, steps, id);
        steps := [requeue] + steps;
      }
      steps := PrependFailure(s, id, steps);
    }
  }

  /** The poller voids the budget: its claim leaves `attempts` alone, so poll, fail and requeue
      can alternate for ever. */
  lemma {:induction false} PollerRetriesForever(s: State, id: Id, n: nat) returns (steps: seq<Step>)
    requires Ready(s, id) && s.rows[id].jobType == BEHAVIOR
    ensures ValidRun(s, steps) && FinishesHeldRun(s, steps, id) && Changes(s, steps, id) == 3 * n
    decreases n, |Rivals(s, id)|
  {
    steps := [];
    if n > 0 {
      if Rivals(s, id) != {} {
        var x :| x in Rivals(s, id);
        CancelRival(s, id, x);
        steps := PollerRetriesForever(Next(s, Row(x, Cancel(0))), id, n);
        steps := PrependCancel(s, id, x, steps);
      } else {
        StaysIdle(s, id, PolledOnce(s.rows[id]));
        steps := PollerRetriesForever(With(s, id, PolledOnce(s.rows[id])), id, n - 1);
        steps := PrependPoll(s, id, steps);
      }
    }
  }

  /** The job after it was polled, failed and requeued. */
  function PolledOnce(j: Job): Job {
    ApplyOp(ApplyOp(HandDue(Poller("modal"), j), Fail(0, "error")), Requeue(0, 0))
  }

  lemma PrependPoll(s: State, id: Id, tail: seq<Step>) returns (steps: seq<Step>)
    requires Idle(s, id) && s.rows[id].jobType == BEHAVIOR
    requires ValidRun(With(s, id, PolledOnce(s.rows[id])), tail)
    requires FinishesHeldRun(With(s, id, PolledOnce(s.rows[id])), tail, id)
    ensures ValidRun(s, steps) && FinishesHeldRun(s, steps, id)
    ensures Changes(s, steps, id) == 3 + Changes(With(s, id, PolledOnce(s.rows[id])), tail, id)
  {
    var c := Poller("modal");
    var fail, requeue := Row(id, Fail(0, "error")), Row(id, Requeue(0, 0));
    var held := With(s, id, HandDue(c, s.rows[id]));
    var failed := Next(held, fail);
    WithTwice(s, id, held.rows[id], failed.rows[id]);
    WithTwice(s, id, failed.rows[id], PolledOnce(s.rows[id]));
    ConsRun(failed, requeue, tail, id);
    ConsRun(held, fail, [requeue] + tail, id);
    steps := PrependClaim(s, id, c, [fail] + ([requeue] + tail));
  }

  /** So do the reports on an ingestion job: they look at no status. */
  lemma {:induction false} ReportsForever(s: State, id: Id, n: nat) returns (steps: seq<Step>)
    requires id in s.rows && id !in s.locks && s.rows[id].jobType == INGESTION && !s.rows[id].status.Running?
    ensures ValidRun(s, steps) && FinishesHeldRun(s, steps, id) && Changes(s, steps, id) == 2 * n
    decreases n
  {
    steps := [];
    if n > 0 {
      var begin := Row(id, Ingest(0, Running, None, true, false));
      var fail := Row(id, Ingest(0, Failed, Some("error"), false, true));
      var begun := Next(s, begin);
      steps := ReportsForever(Next(begun, fail), id, n - 1);
      ConsRun(begun, fail, steps, id);
      ConsRun(s, begin, [fail] + steps, id);
      steps := [begin] + ([fail] + steps);
    }
  }

  /** Every run keeps to the budget. */
  ghost predicate BudgetHolds(s: State, id: Id)
    requires id in s.rows
  {
    forall steps :: ValidRun(s, steps) && FinishesHeldRun(s, steps, id) ==> Changes(s, steps, id) <= Budget(s.rows[id])
  }

  /** Whether a pending job's retries are bounded is decided by its type alone. */
  lemma TypeDecidesBound(s: State, id: Id)
    requires id in s.rows && id !in s.locks && s.rows[id].status == Pending && s.rows[id].claimedAt == None
    requires 0 <= s.rows[id].attempts < s.rows[id].maxAttempts
    ensures BudgetHolds(s, id) <==> RepositoryOnly(s.rows[id].jobType)
  {
    var n := 4 * s.rows[id].maxAttempts;
    if RepositoryOnly(s.rows[id].jobType) {
      forall steps | ValidRun(s, steps) && FinishesHeldRun(s, steps, id)
        ensures Changes(s, steps, id) <= Budget(s.rows[id])
      {
        RepositoryRetriesTerminate(s, steps, id);
      }
    } else if s.rows[id].jobType == BEHAVIOR {
      var steps := PollerRetriesForever(s, id, n);
      assert Changes(s, steps, id) > Budget(s.rows[id]);
    } else {
      var steps := ReportsForever(s, id, n);
      assert Changes(s, steps, id) > Budget(s.rows[id]);
    }
  }

  // ---------------------------------------------------------------- the repository

  /** `CHECK (status IN (...))` of the table. */
  function ParseStatus(status: string): Option<Status> {
    match status
    case "pending" => Some(Pending)
    case "claimed" => Some(Claimed)
    case "running" => Some(Running)
    case "completed" => Some(Completed)
    case "failed" => Some(Failed)
    case "cancelled" => Some(Cancelled)
    case _ => None
  }

  class JobTable {
    var rows: Table

    constructor ()
      ensures rows == map[] && Sound() == {}
    {
      rows := map[];
    }

    /** The rows within their retry limit: no statement takes a row out of this set. */
    ghost function Sound(): set<Id>
      reads this
    {
      set id | id in rows && RowOk(rows[id])
    }

    /** `enqueue`. */
    method Enqueue(id: Id, jobType: string, priority: int, runAt: Option<int>, maxAttempts: int, now: int)
      requires id !in rows
      modifies this
      ensures Sound() == old(Sound()) + {id} && rows == old(rows)[id := rows[id]]
      ensures Fresh(rows[id]) && ColumnsFit(rows[id]) && rows[id].status.Pending? && rows[id].jobType == jobType
      ensures rows[id].priority == priority && rows[id].runAt == runAt && rows[id].createdAt == now
      ensures rows[id].maxAttempts == maxAttempts && rows[id].attempts == 0
      ensures maxAttempts >= 1 ==> Budget(rows[id]) == 4 * maxAttempts - 1
    {
      rows := rows[id := Job(jobType, Pending, priority, runAt, 0, maxAttempts, now,
                             None, None, None, None, None, None)];
    }

    /** `create_completed_job`: whatever the table's CHECK accepts as a status is inserted, so
        "timeout", which it documents, is refused, and "pending" would be a job to run. */
    method CreateCompletedJob(id: Id, jobType: string, status: string, result: Option<string>,
                              error: Option<string>, now: int) returns (created: bool)
      requires id !in rows
      modifies this
      ensures created <==> status in {"pending", "claimed", "running", "completed", "failed", "cancelled"}
      ensures !created ==> rows == old(rows)
      ensures created ==> Sound() == old(Sound()) + {id} && rows == old(rows)[id := rows[id]] && Fresh(rows[id])
      ensures created ==> (rows[id].status == Pending <==> status == "pending")
      ensures created ==> (rows[id].status == Claimed <==> status == "claimed")
      ensures created ==> (rows[id].status == Running <==> status == "running")
      ensures created ==> (rows[id].status == Completed <==> status == "completed")
      ensures created ==> (rows[id].status == Failed <==> status == "failed")
      ensures created ==> (rows[id].status == Cancelled <==> status == "cancelled")
      ensures created ==> rows[id].jobType == jobType
      ensures created ==> rows[id].startedAt == rows[id].completedAt == Some(now)
      ensures created ==> rows[id].result == result && rows[id].error == error
      ensures created ==> rows[id].createdAt == now && rows[id].attempts == 0 && rows[id].maxAttempts == 3
      ensures created ==> rows[id].priority == 0 && rows[id].runAt.None? && rows[id].worker.None?
    {
      var parsed := ParseStatus(status);
      if parsed.None? {
        return false;
      }
      rows := rows[id := Job(jobType, parsed.value, 0, None, 0, 3, now,
                             None, Some(now), Some(now), None, result, error)];
      created := true;
    }

    /** The marker that `poll_behavior_jobs` inserts for a cron check: completed, but without a
        completion time. */
    method MarkCronCheck(id: Id, now: int)
      requires id !in rows
      modifies this
      ensures Sound() == old(Sound()) + {id} && rows == old(rows)[id := rows[id]]
      ensures Fresh(rows[id]) && rows[id].status.Completed? && !ColumnsFit(rows[id])
      ensures rows[id].jobType == "cron_check" && rows[id].createdAt == now && rows[id].completedAt.None?
    {
      rows := rows[id := Job("cron_check", Completed, 0, None, 0, 3, now, None, None, None, None, None, None)];
    }

    /** `claim_jobs`, or the poller's claim: lock a batch, update it, return it. */
    method ClaimJobs(c: Claimer, locked: set<Id>, now: int) returns (batch: seq<Id>)
      modifies this
      ensures ClaimsInOrder(old(rows), locked, c, now, batch) && rows.Keys == old(rows).Keys
      ensures forall id :: id in rows && id !in batch ==> rows[id] == old(rows)[id]
      ensures c.Repository? ==> forall id :: id in batch ==>
                rows[id] == old(rows)[id].(status := Claimed, claimedAt := Some(now), worker := Some(c.worker),
                                           attempts := old(rows)[id].attempts + 1)
      ensures c.Poller? ==> forall id :: id in batch ==>
                rows[id] == old(rows)[id].(status := Running, startedAt := Some(now), worker := Some(c.worker))
      ensures Sound() >= old(Sound())
    {
      batch := SelectForUpdate(rows, locked, c, now);
      var taken := batch;
      assert forall id :: id in taken ==> id in Available(rows, locked, c, now);
      rows := map id | id in rows :: if id in taken then HandRow(c, rows[id], now) else rows[id];
    }

    /** `start_job`, `complete_job`, `fail_job`, `requeue_job`, `cancel_job`, and the reports on
        ingestion jobs: one guarded UPDATE by id, returning the row if it matched. */
    method UpdateJob(id: Id, op: Op) returns (updated: Option<Job>)
      modifies this
      ensures updated.Some? ==> id in old(rows)
      ensures id in old(rows) && op.Start? ==> (updated.Some? <==> old(rows)[id].status == Claimed)
      ensures id in old(rows) && (op.Complete? || op.Fail?) ==> updated.Some?
      ensures id in old(rows) && op.Requeue? ==>
                (updated.Some? <==> old(rows)[id].status in {Failed, Running, Claimed}
                                    && old(rows)[id].attempts < old(rows)[id].maxAttempts)
      ensures id in old(rows) && op.Cancel? ==> (updated.Some? <==> old(rows)[id].status in {Pending, Claimed})
      ensures id in old(rows) && op.Ingest? ==> (updated.Some? <==> old(rows)[id].jobType == "knowledge_ingestion")
      ensures updated.Some? ==>
                var was := old(rows)[id];
                updated.value ==
                match op
                case Start(now) => was.(status := Running, startedAt := Some(now))
                case Complete(now, result) => was.(status := Completed, completedAt := Some(now), result := result)
                case Fail(now, error) => was.(status := Failed, completedAt := Some(now), error := Some(error))
                case Requeue(now, delay) =>
                  was.(status := Pending, runAt := Some(now + delay),
                       claimedAt := None, startedAt := None, worker := None)
                case Cancel(now) => was.(status := Cancelled, completedAt := Some(now))
                case Ingest(now, report, problem, markStarted, markCompleted) =>
                  was.(status := report, error := problem,
                       startedAt := if markStarted && was.startedAt.None? then Some(now) else was.startedAt,
                       completedAt := if markCompleted && was.completedAt.None? then Some(now) else was.completedAt)
      ensures rows == if updated.Some? then old(rows)[id := updated.value] else old(rows)
      ensures Sound() >= old(Sound()) || (op.Ingest? && op.report.Pending?)
    {
      if id !in rows || !Matches(rows[id], op) {
        return None;
      }
      var row := ApplyOp(rows[id], op);
      rows := rows[id := row];
      updated := Some(row);
    }

    method ReclaimStuckJobs(now: int, timeout: int) returns (recovered: set<Id>)
      modifies this
      ensures forall id :: id in recovered <==>
                && id in old(rows) && old(rows)[id].status in {Claimed, Running}
                && old(rows)[id].claimedAt.Some? && old(rows)[id].claimedAt.value + timeout < now
                && old(rows)[id].attempts < old(rows)[id].maxAttempts
      ensures rows.Keys == old(rows).Keys && Sound() >= old(Sound())
      ensures forall id :: id in rows && id !in recovered ==> rows[id] == old(rows)[id]
      ensures forall id :: id in recovered ==>
                rows[id] == old(rows)[id].(status := Pending, claimedAt := None, startedAt := None, worker := None)
    {
      recovered := set id | id in rows && Stuck(rows[id], now, timeout);
      rows := map id | id in rows :: ReclaimRow(rows[id], now, timeout);
    }
  }
}
