/** Checking an observation: one attempt is a transaction that is rolled back unless it commits, and attempts
    are repeated by three nested loops. */
module CheckRetry {

  datatype Key = Key(paramid: int, level: int, sensor: int)

  datatype Flags = Flags(fagg: int, fmis: int, fd: int, fpre: int, others: seq<int>)

  /** A data row; `hqc` says whether it has been touched by the human quality control. */
  datatype Row = Row(corrected: real, controlinfo: Flags, useinfo: string, cfailed: string, hqc: bool)

  /** How the use flags follow from the control flags; what the rule is does not matter here. */
  type UseRule = (string, Flags) -> string

  type Rows = map<Key, Row>

  datatype Fault = Serialize | Aborted | Other

  /** What becomes of one check of the list. An error that is not the database's is only logged. */
  datatype Check = Writes(rows: Rows) | Skipped | Logged | Fails(fault: Fault)

  datatype Step = Good | Bad(fault: Fault)

  /** One attempt as the database and the check scripts will have it: reading, the observation's rows, the
      checks, completing, and the commit. */
  datatype Attempt = Attempt(read: Step, pinned: bool, data: Rows, checks: seq<Check>, complete: Step, commit: Step)

  datatype Result = Done(committed: bool) | Failed(fault: Fault)

  const RETRIES := 3
  const SERIALIZE_RETRIES := 256

  predicate Touched(data: Rows) { exists k | k in data :: data[k].hqc }

  /** Flags are cleared, with a few exceptions. */
  function Cleared(f: Flags): Flags {
    Flags(f.fagg, f.fmis, f.fd, if f.fpre == 7 then 7 else 0, seq(|f.others|, _ => 0))
  }

  function Reset(row: Row, rule: UseRule): Row {
    var flags := Cleared(row.controlinfo);
    row.(controlinfo := flags, useinfo := rule(row.useinfo, flags), cfailed := "")
  }

  function ResetAll(data: Rows, rule: UseRule): Rows { map k | k in data :: Reset(data[k], rule) }

  /** The rows a check has written, with their use flags set. */
  function Flagged(rows: Rows, rule: UseRule): Rows {
    map k | k in rows :: rows[k].(useinfo := rule(rows[k].useinfo, rows[k].controlinfo))
  }

  /** The first fault among the checks. */
  function ChecksFault(checks: seq<Check>): Step {
    if checks == [] then Good
    else match ChecksFault(checks[..|checks| - 1])
         case Bad(fault) => Bad(fault)
         case Good => if checks[|checks| - 1].Fails? then Bad(checks[|checks| - 1].fault) else Good
  }

  /** What the checks write, a later row in the place of an earlier one with its key. */
  function Written(checks: seq<Check>, rule: UseRule): Rows {
    if checks == [] then map[]
    else match checks[|checks| - 1]
         case Writes(rows) => Written(checks[..|checks| - 1], rule) + Flagged(rows, rule)
         case _ => Written(checks[..|checks| - 1], rule)
  }

  /** The first fault among the checks, completing and the commit. */
  function EndOfChecks(a: Attempt): Step {
    if ChecksFault(a.checks).Bad? then ChecksFault(a.checks)
    else if a.complete.Bad? then a.complete
    else a.commit
  }

  function ResultOf(a: Attempt): Result {
    if a.read.Bad? then Failed(a.read.fault)
    else if !a.pinned then Done(false)
    else if Touched(a.data) then (if a.complete.Bad? then Failed(a.complete.fault) else Done(false))
    else match EndOfChecks(a)
         case Bad(fault) => Failed(fault)
         case Good => Done(true)
  }

  /** What a committed attempt changes. */
  function Changes(a: Attempt, resetFirst: bool, rule: UseRule): Rows {
    (if resetFirst then ResetAll(a.data, rule) else map[]) + Written(a.checks, rule)
  }

  // ------------------------------------------------------------------------- the database

  class DatabaseAccess {
    var stored: Rows
    var savedData: Rows
    var inTransaction: bool
    var commits: nat
    var rollbacks: nat

    constructor (stored: Rows)
      ensures this.stored == stored && savedData == map[] && !inTransaction && commits == 0 == rollbacks
    {
      this.stored, savedData, inTransaction, commits, rollbacks := stored, map[], false, 0, 0;
    }

    method BeginTransaction()
      requires !inTransaction
      modifies this`inTransaction
      ensures inTransaction
    {
      inTransaction := true;
    }

    /** Kept back until the commit; a row takes the place of an earlier one with its key. */
    method Write(rows: Rows)
      modifies this`savedData
      ensures savedData == old(savedData) + rows
    {
      savedData := savedData + rows;
    }

    /** Everything written becomes visible at once, or the commit fails. */
    method Commit(fate: Step)
      requires inTransaction
      modifies this`stored, this`savedData, this`inTransaction, this`commits
      ensures fate.Good? ==> stored == old(stored) + old(savedData) && savedData == map[] && !inTransaction
      ensures fate.Bad? ==> stored == old(stored) && inTransaction
      ensures commits == old(commits) + if fate.Good? then 1 else 0
    {
      if fate.Good? {
        stored, savedData, inTransaction, commits := stored + savedData, map[], false, commits + 1;
      }
    }

    method Rollback()
      requires inTransaction
      modifies this`savedData, this`inTransaction, this`rollbacks
      ensures savedData == map[] && !inTransaction && rollbacks == old(rollbacks) + 1
    {
      savedData, inTransaction, rollbacks := map[], false, rollbacks + 1;
    }
  }

  // ------------------------------------------------------------------------- the check runner

  datatype Outcome = NotChecked | Returned(committed: bool) | Threw

  class CheckRunner {
    const db: DatabaseAccess
    /** No filter on the checks: the flags are reset before they are run. */
    const allChecks: bool
    const rule: UseRule

    constructor (db: DatabaseAccess, allChecks: bool, rule: UseRule)
      ensures this.db == db && this.allChecks == allChecks && this.rule == rule
    {
      this.db, this.allChecks, this.rule := db, allChecks, rule;
    }

    ghost predicate Idle()
      reads db
    {
      !db.inTransaction && db.savedData == map[]
    }

    /** One attempt. The transaction guard rolls back on every way out but the one behind the commit. */
    method CheckObservation(a: Attempt) returns (r: Result)
      requires Idle()
      modifies db
      ensures Idle() && r == ResultOf(a)
      ensures db.stored == if r == Done(true) then old(db.stored) + Changes(a, allChecks, rule) else old(db.stored)
      ensures db.commits == old(db.commits) + if r == Done(true) then 1 else 0
      ensures db.rollbacks == old(db.rollbacks) + if r == Done(true) then 0 else 1
    {
      hide ChecksFault, Changes;
      db.BeginTransaction();
      if a.read.Bad? {
        db.Rollback();
        return Failed(a.read.fault);
      }
      if !a.pinned {
        db.Rollback();
        return Done(false);
      }
      if Touched(a.data) {
        db.Rollback();
        return if a.complete.Bad? then Failed(a.complete.fault) else Done(false);
      }
      var done := CheckAndCommit(a);
      if done.Bad? {
        db.Rollback();
        return Failed(done.fault);
      }
      return Done(true);
    }

    /** The second half of an attempt: reset, check, complete, commit. */
    method CheckAndCommit(a: Attempt) returns (r: Step)
      requires db.inTransaction && db.savedData == map[]
      modifies db
      ensures r == EndOfChecks(a)
      ensures r.Bad? ==> db.inTransaction && db.stored == old(db.stored) && db.commits == old(db.commits)
      ensures r.Good? ==>
                && !db.inTransaction && db.savedData == map[] && db.commits == old(db.commits) + 1
                && db.stored == old(db.stored) + Changes(a, allChecks, rule)
      ensures db.rollbacks == old(db.rollbacks)
    {
      hide ChecksFault, Written, ResetAll;
      if allChecks {
        db.Write(ResetAll(a.data, rule));
      }
      r := RunChecks(a.checks);
      if r.Bad? {
        return;
      }
      assert db.savedData == Changes(a, allChecks, rule);
      hide Changes;
      if a.complete.Bad? {
        return a.complete;
      }
      db.Commit(a.commit);
      return a.commit;
    }

    /** The checks write to the data kept back. An error of the database ends the loop, any other only the
        check. */
    method RunChecks(checks: seq<Check>) returns (r: Step)
      modifies db`savedData
      ensures r == ChecksFault(checks)
      ensures r.Good? ==> db.savedData == old(db.savedData) + Written(checks, rule)
    {
      hide Flagged, Written, ChecksFault;
      NoChecks(rule);
      assert checks[..0] == [] && checks[..|checks|] == checks;
      ghost var first := db.savedData;
      assert first + map[] == first;
      for i := 0 to |checks|
        invariant ChecksFault(checks[..i]) == Good && db.savedData == first + Written(checks[..i], rule)
      {
        OneCheckMore(checks, i, rule);
        match checks[i] {
          case Writes(rows) =>
            AddRows(first, Written(checks[..i], rule), Flagged(rows, rule));
            db.Write(Flagged(rows, rule));
          case Skipped =>
          case Logged =>
          case Fails(fault) =>
            FirstFault(checks, i + 1);
            return Bad(fault);
        }
      }
      return Good;
    }

    /** The retry loops. */
    method NewObservation(typeid: int, attempt: nat -> Attempt) returns (outcome: Outcome, attempts: nat)
      requires Idle()
      modifies db
      ensures Idle()
      // an aggregated value is only read
      ensures typeid <= 0 ==>
                && attempts == 0 && db.stored == old(db.stored) && db.rollbacks == old(db.rollbacks) + 1
                && outcome == if attempt(0).complete.Bad? then Threw else NotChecked
      ensures typeid > 0 ==> attempts > 0 && Ends(attempt, attempts - 1) && outcome == EndOf(attempt(attempts - 1))
      ensures db.stored == if outcome == Returned(true)
                           then old(db.stored) + Changes(attempt(attempts - 1), allChecks, rule)
                           else old(db.stored)
      ensures db.commits == old(db.commits) + if outcome == Returned(true) then 1 else 0
      // a row touched by the human quality control keeps the whole observation as it is
      ensures typeid > 0 && Touched(attempt(attempts - 1).data) ==> db.stored == old(db.stored)
      ensures typeid > 0 ==>
                db.rollbacks + db.commits == old(db.rollbacks) + old(db.commits) + attempts
    {
      hide ResultOf, Changes, Touched, Reached;
      attempts := 0;
      if typeid <= 0 {
        db.BeginTransaction();
        db.Rollback();
        return if attempt(0).complete.Bad? then Threw else NotChecked, 0;
      }
      for k := 0 to RETRIES
        invariant Between(attempt, attempts, k * RETRIES)
        invariant Unchanged(old(db.stored), old(db.commits), old(db.rollbacks), attempts)
      {
        for i := 0 to RETRIES
          invariant Between(attempt, attempts, k * RETRIES + i)
          invariant Unchanged(old(db.stored), old(db.commits), old(db.rollbacks), attempts)
        {
          var r := Round(attempt, attempts, k * RETRIES + i, old(db.stored), old(db.commits), old(db.rollbacks));
          attempts := r.attempts;
          if r.Stop? {
            TouchedNeverStored(attempt(attempts - 1));
            return r.outcome, attempts;
          }
        }
      }
      ReachedBetween(attempt, attempts, RETRIES * RETRIES);
      var r := CheckObservation(attempt(attempts));
      attempts := attempts + 1;
      outcome := if r.Done? then Returned(r.committed) else Threw;
      TouchedNeverStored(attempt(attempts - 1));
    }

    /** So far nothing has been committed, and every attempt rolled back. */
    ghost predicate Unchanged(stored: Rows, commits: nat, rollbacks: nat, attempts: nat)
      reads db
    {
      Idle() && db.stored == stored && db.commits == commits && db.rollbacks == rollbacks + attempts
    }

    /** The innermost loop: attempts until one is not met by a serialization error, 256 at most. */
    method Round(attempt: nat -> Attempt, start: nat, aborts: nat, ghost stored: Rows, ghost commits: nat,
                 ghost rollbacks: nat)
      returns (r: RoundResult)
      requires Between(attempt, start, aborts) && aborts < RETRIES * RETRIES
      requires Unchanged(stored, commits, rollbacks, start)
      modifies db
      ensures r.attempts > start
      ensures r.Again? ==> Between(attempt, r.attempts, aborts + 1) && Unchanged(stored, commits, rollbacks, r.attempts)
      ensures r.Stop? ==> Idle() && Ends(attempt, r.attempts - 1) && r.outcome == EndOf(attempt(r.attempts - 1))
      ensures r.Stop? && r.outcome == Returned(true) ==>
                db.stored == stored + Changes(attempt(r.attempts - 1), allChecks, rule)
      ensures r.Stop? && r.outcome != Returned(true) ==> db.stored == stored
      ensures r.Stop? ==>
                && db.commits == commits + (if r.outcome == Returned(true) then 1 else 0)
                && db.rollbacks + db.commits == rollbacks + commits + r.attempts
    {
      hide ResultOf, Changes, Touched;
      var n := start;
      for i := 0 to SERIALIZE_RETRIES
        invariant n == start + i && Streaking(attempt, n, aborts, i)
        invariant Unchanged(stored, commits, rollbacks, n)
      {
        var result := CheckObservation(attempt(n));
        n := n + 1;
        match result {
          case Done(committed) =>
            return Stop(n, Returned(committed));
          case Failed(Serialize) =>
          case Failed(Aborted) =>
            return Again(n);
          case Failed(Other) =>
            return Stop(n, Threw);
        }
      }
      return Stop(n, Threw);
    }
  }

  datatype RoundResult = Again(attempts: nat) | Stop(attempts: nat, outcome: Outcome)

  // -------------------------------------------------------------------- where a run of attempts ends

  /** How many of the first n attempts were aborted. */
  function Aborts(attempt: nat -> Attempt, n: nat): nat {
    if n == 0 then 0 else Aborts(attempt, n - 1) + if ResultOf(attempt(n - 1)) == Failed(Aborted) then 1 else 0
  }

  /** How many serialization errors in a row the first n attempts end with. */
  function Streak(attempt: nat -> Attempt, n: nat): nat {
    if n == 0 || ResultOf(attempt(n - 1)) != Failed(Serialize) then 0 else Streak(attempt, n - 1) + 1
  }

  /** Attempt n is made: all before it met a serialization error or were aborted, none of the streaks has
      reached 256, and there have been fewer than nine aborts, or the ninth has just occurred. */
  ghost predicate Reached(attempt: nat -> Attempt, n: nat) {
    && (forall m | 0 <= m < n :: ResultOf(attempt(m)) in {Failed(Serialize), Failed(Aborted)})
    && (forall m | 0 <= m <= n :: Streak(attempt, m) < SERIALIZE_RETRIES)
    && (Aborts(attempt, n) < 9 || (Aborts(attempt, n) == 9 && Streak(attempt, n) == 0))
  }

  /** ... and is the last: it decides, or makes the streak too long, or was the attempt behind the ninth abort. */
  ghost predicate Ends(attempt: nat -> Attempt, n: nat) {
    && Reached(attempt, n)
    && (ResultOf(attempt(n)).Done? || ResultOf(attempt(n)) == Failed(Other)
        || Streak(attempt, n + 1) == SERIALIZE_RETRIES || Aborts(attempt, n) == 9)
  }

  function EndOf(a: Attempt): Outcome {
    if ResultOf(a).Done? then Returned(ResultOf(a).committed) else Threw
  }

  /** Between two rounds: the last attempt, if there was one, was aborted. */
  ghost predicate Between(attempt: nat -> Attempt, n: nat, aborts: nat) {
    aborts <= 9 && Streaking(attempt, n, aborts, 0)
  }

  ghost predicate Streaking(attempt: nat -> Attempt, n: nat, aborts: nat, streak: nat) {
    && (forall m | 0 <= m < n :: ResultOf(attempt(m)) in {Failed(Serialize), Failed(Aborted)})
    && (forall m | 0 <= m < n :: Streak(attempt, m) < SERIALIZE_RETRIES)
    && Aborts(attempt, n) == aborts && Streak(attempt, n) == streak
  }

  lemma {:induction false} ReachedBetween(attempt: nat -> Attempt, n: nat, aborts: nat)
    requires Between(attempt, n, aborts)
    ensures Reached(attempt, n)
  {
  }

  lemma {:induction false} NoChecks(rule: UseRule)
    ensures ChecksFault([]) == Good && Written([], rule) == map[]
  {
  }

  lemma {:induction false} OneCheckMore(checks: seq<Check>, i: nat, rule: UseRule)
    requires i < |checks| && ChecksFault(checks[..i]) == Good
    ensures ChecksFault(checks[..i + 1]) == if checks[i].Fails? then Bad(checks[i].fault) else Good
    ensures Written(checks[..i + 1], rule) ==
              if checks[i].Writes? then Written(checks[..i], rule) + Flagged(checks[i].rows, rule)
              else Written(checks[..i], rule)
  {
    hide Flagged;
    assert checks[..i + 1][..i] == checks[..i];
  }

  lemma {:induction false} AddRows(a: Rows, b: Rows, c: Rows)
    ensures a + b + c == a + (b + c)
  {
  }

  lemma {:induction false} FirstFault(checks: seq<Check>, n: nat)
    requires n <= |checks| && ChecksFault(checks[..n]).Bad?
    ensures ChecksFault(checks) == ChecksFault(checks[..n])
    decreases |checks|
  {
    if n < |checks| {
      assert checks[..|checks| - 1][..n] == checks[..n];
      FirstFault(checks[..|checks| - 1], n);
    } else {
      assert checks[..n] == checks;
    }
  }

  // ------------------------------------------------------------------------- what follows

  /** A run ends at one attempt only. */
  lemma {:induction false} EndsOnce(attempt: nat -> Attempt, m: nat, n: nat)
    requires Ends(attempt, m) && Ends(attempt, n)
    ensures m == n
  {
    EndsFirst(attempt, m, n);
    EndsFirst(attempt, n, m);
  }

  /** No attempt is made behind the last. */
  lemma {:induction false} EndsFirst(attempt: nat -> Attempt, m: nat, n: nat)
    requires Ends(attempt, m) && Reached(attempt, n)
    ensures n <= m
  {
    if m < n {
      AbortsGrow(attempt, m, n);
      if Aborts(attempt, m) == 9 {
        StreakBehind(attempt, m, n);
      }
    }
  }

  lemma {:induction false} AbortsGrow(attempt: nat -> Attempt, m: nat, n: nat)
    requires m <= n
    ensures Aborts(attempt, m) <= Aborts(attempt, n)
    decreases n
  {
    if m < n {
      AbortsGrow(attempt, m, n - 1);
    }
  }

  /** Without another abort there is only a longer streak. */
  lemma {:induction false} StreakBehind(attempt: nat -> Attempt, m: nat, n: nat)
    requires m <= n && Aborts(attempt, m) == Aborts(attempt, n)
    requires forall i | 0 <= i < n :: ResultOf(attempt(i)) in {Failed(Serialize), Failed(Aborted)}
    ensures Streak(attempt, n) == Streak(attempt, m) + (n - m)
    decreases n
  {
    if m < n {
      AbortsGrow(attempt, m, n - 1);
      assert ResultOf(attempt(n - 1)) in {Failed(Serialize), Failed(Aborted)};
      StreakBehind(attempt, m, n - 1);
    }
  }

  /** There are at most 9 * 256 + 1 attempts. */
  lemma {:induction false} AttemptsBounded(attempt: nat -> Attempt, n: nat)
    requires Ends(attempt, n)
    ensures n + 1 <= RETRIES * RETRIES * SERIALIZE_RETRIES + 1
  {
    AttemptsCounted(attempt, n);
  }

  lemma {:induction false} AttemptsCounted(attempt: nat -> Attempt, n: nat)
    requires forall m | 0 <= m < n :: ResultOf(attempt(m)) in {Failed(Serialize), Failed(Aborted)}
    requires forall m | 0 <= m <= n :: Streak(attempt, m) < SERIALIZE_RETRIES
    ensures n <= Aborts(attempt, n) * SERIALIZE_RETRIES + Streak(attempt, n)
  {
    if n > 0 {
      AttemptsCounted(attempt, n - 1);
      assert ResultOf(attempt(n - 1)) in {Failed(Serialize), Failed(Aborted)};
    }
  }

  /** The observation is checked and stored exactly when an attempt that would commit is reached: whatever
      run of errors came before it. */
  lemma {:induction false} StoredIff(attempt: nat -> Attempt, last: nat)
    requires Ends(attempt, last)
    ensures EndOf(attempt(last)) == Returned(true) <==>
            exists n: nat :: Reached(attempt, n) && ResultOf(attempt(n)) == Done(true)
  {
    if n: nat :| Reached(attempt, n) && ResultOf(attempt(n)) == Done(true) {
      assert Ends(attempt, n);
      EndsOnce(attempt, last, n);
    }
  }

  /** 256 serialization errors in a row end the run at once, with no further round. */
  lemma {:induction false} LongStreakThrows(attempt: nat -> Attempt)
    requires forall n | 0 <= n < SERIALIZE_RETRIES :: ResultOf(attempt(n)) == Failed(Serialize)
    ensures Ends(attempt, SERIALIZE_RETRIES - 1) && EndOf(attempt(SERIALIZE_RETRIES - 1)) == Threw
  {
    StreakFromStart(attempt, SERIALIZE_RETRIES);
  }

  lemma {:induction false} StreakFromStart(attempt: nat -> Attempt, n: nat)
    requires forall m | 0 <= m < n :: ResultOf(attempt(m)) == Failed(Serialize)
    ensures forall m | 0 <= m <= n :: Streak(attempt, m) == m
    ensures Aborts(attempt, n) == 0
    ensures n > 0 ==> Aborts(attempt, n - 1) == 0
  {
    if n > 0 {
      StreakFromStart(attempt, n - 1);
    }
  }

  /** An attempt that finds a row touched by the human quality control ends the run without a change. */
  lemma {:induction false} TouchedNeverStored(a: Attempt)
    ensures Touched(a.data) ==> ResultOf(a) != Done(true)
  {
  }
}
