/** The hourly search for observations that never came, which catches up after failures and restarts.
    Times are seconds. */
module MissingRunner {
  import opened Requests
  import opened Completion
  import Sets
  import WorkQueue

  /** The unique key of the observations table. */
  datatype Obs = Obs(stationid: int, typeid: int, obstime: int)

  /** A row of types; lateobs is in minutes and may be NULL. */
  datatype TypeRow = TypeRow(typeid: int, lateobs: Option<int>)

  /** What becomes of one statement, or one transaction. Crash is the end of the process, anywhere. */
  datatype Fate = Works | SerializeError | OtherError | Crash

  datatype Outcome = Done | Retry | Fails | Down | Duplicate

  const NO_LIMIT := 100000
  const WEEK := 7 * 24 * HOUR

  /** Why a run ends: it has caught up with the clock, the service is stopped, or an error ends it. */
  datatype Ending = CaughtUpWith(clock: int) | Stopped | Ended(outcome: Outcome)

  /** The fates left when n have been used up. */
  function Dropped(fate: seq<Fate>, n: nat): seq<Fate>
    requires n <= |fate|
  {
    fate[n..]
  }

  ghost predicate IsTail(before: seq<Fate>, after: seq<Fate>) {
    |after| <= |before| && after == Dropped(before, |before| - |after|)
  }

  /** A statement or transaction has come out as r: what fates were used up on the way. */
  ghost predicate Explained(r: Outcome, before: seq<Fate>, after: seq<Fate>) {
    && IsTail(before, after)
    && (r == Retry ==> SerializeError in before)
    && (r == Fails ==> OtherError in before)
    && (r == Down ==> Crash in before || after == [])
  }

  /** A process with no fate left has crashed. */
  function FirstFate(fate: seq<Fate>): Fate { if fate == [] then Crash else fate[0] }

  function Rest(fate: seq<Fate>): seq<Fate> { if fate == [] then [] else fate[1..] }

  /** Statements one after another, of which none is tried again: all worked, or the last is the first that
      did not. */
  ghost predicate Straight(r: Outcome, before: seq<Fate>, after: seq<Fate>) {
    && IsTail(before, after)
    && var n := |before| - |after|;
       match r
       case Done => WorksFor(before, n)
       case Down => (after == [] && WorksFor(before, n)) || FirstAt(before, n, Crash)
       case Retry => FirstAt(before, n, SerializeError)
       case Fails => FirstAt(before, n, OtherError)
       case Duplicate => false
  }

  ghost predicate WorksFor(fate: seq<Fate>, n: nat)
    requires n <= |fate|
  {
    forall k | 0 <= k < n :: fate[k] == Works
  }

  ghost predicate FirstAt(fate: seq<Fate>, n: nat, f: Fate)
    requires n <= |fate|
  {
    n > 0 && fate[n - 1] == f && WorksFor(fate, n - 1)
  }

  function TruncHour(time: int): int { time - time % HOUR }

  function HalfPast(time: int): int { TruncHour(time) + HOUR / 2 }

  function OutcomeOf(f: Fate): Outcome {
    match f
    case Works => Done
    case SerializeError => Retry
    case OtherError => Fails
    case Crash => Down
  }

  predicate Searched(row: TypeRow) { row.lateobs.Some? && row.lateobs.value < NO_LIMIT }

  /** The hour a run at `obstime` looks into. */
  function Target(row: TypeRow, obstime: int): int
    requires Searched(row)
  {
    TruncHour(obstime - row.lateobs.value * 60)
  }

  predicate Expected(pgm: set<Pgm>, o: Obs) {
    exists p | p in pgm :: Active(p, Observation(o.stationid, o.typeid, o.obstime, 0))
  }

  function Stations(pgm: set<Pgm>, typeid: int, time: int): set<int> {
    set p | p in pgm && Active(p, Observation(p.stationid, typeid, time, 0)) :: p.stationid
  }

  lemma {:induction false} StationsExpected(pgm: set<Pgm>, typeid: int, time: int, station: int)
    ensures station in Stations(pgm, typeid, time) <==> Expected(pgm, Obs(station, typeid, time))
  {
    if Expected(pgm, Obs(station, typeid, time)) {
      var p :| p in pgm && Active(p, Observation(station, typeid, time, 0));
      assert p.stationid == station;
    }
  }

  /** The stations that have an observation of the type at the time. */
  function Known(observations: set<Obs>, typeid: int, time: int): set<int> {
    set o | o in observations && o.typeid == typeid && o.obstime == time :: o.stationid
  }

  lemma {:induction false} KnownMeans(observations: set<Obs>, typeid: int, time: int)
    ensures forall s :: s in Known(observations, typeid, time) <==> Obs(s, typeid, time) in observations
  {
    forall s ensures s in Known(observations, typeid, time) <==> Obs(s, typeid, time) in observations {
      if s in Known(observations, typeid, time) {
        var o :| o in observations && o.typeid == typeid && o.obstime == time && s == o.stationid;
        assert o == Obs(s, typeid, time);
      }
    }
  }

  lemma {:induction false} NewAreDue(pgm: set<Pgm>, types: seq<TypeRow>, row: TypeRow, obstime: int, missing: seq<Obs>)
    requires row in types && Searched(row)
    requires forall o | o in missing ::
               && o.stationid in Stations(pgm, row.typeid, Target(row, obstime))
               && o.typeid == row.typeid && o.obstime == Target(row, obstime)
    ensures forall o | o in missing :: Due(pgm, types, o, obstime)
  {
    StationsAreDue(pgm, types, row, obstime);
    hide Due, Stations;
    forall o | o in missing ensures Due(pgm, types, o, obstime) {
      assert o == Obs(o.stationid, row.typeid, Target(row, obstime));
    }
  }

  lemma {:induction false} NowCovered(pgm: set<Pgm>, before: set<Obs>, after: set<Obs>, typeid: int, time: int)
    requires before <= after
    requires forall s | s in Stations(pgm, typeid, time) - Known(before, typeid, time) ::
               Obs(s, typeid, time) in after
    ensures CoveredAt(pgm, after, typeid, time)
  {
    KnownMeans(before, typeid, time);
    hide Stations, Known, Expected;
    forall o: Obs | o.typeid == typeid && o.obstime == time && Expected(pgm, o) ensures o in after {
      StationsExpected(pgm, typeid, time, o.stationid);
      assert o == Obs(o.stationid, typeid, time);
    }
  }

  lemma {:induction false} StationsAreDue(pgm: set<Pgm>, types: seq<TypeRow>, row: TypeRow, obstime: int)
    requires row in types && Searched(row)
    ensures var time := Target(row, obstime);
            forall s | s in Stations(pgm, row.typeid, time) :: Due(pgm, types, Obs(s, row.typeid, time), obstime)
  {
    hide Stations, Expected;
    var time := Target(row, obstime);
    forall s | s in Stations(pgm, row.typeid, time) ensures Due(pgm, types, Obs(s, row.typeid, time), obstime) {
      StationsExpected(pgm, row.typeid, time, s);
    }
  }

  /** Every station that should report this type at this hour has an observation. */
  ghost predicate CoveredAt(pgm: set<Pgm>, observations: set<Obs>, typeid: int, time: int) {
    forall o: Obs :: o.typeid == typeid && o.obstime == time && Expected(pgm, o) ==> o in observations
  }

  ghost predicate Covered(pgm: set<Pgm>, types: seq<TypeRow>, observations: set<Obs>, obstime: int) {
    forall row | row in types && Searched(row) :: CoveredAt(pgm, observations, row.typeid, Target(row, obstime))
  }

  /** ... for the first n types. */
  ghost predicate CoveredTo(pgm: set<Pgm>, types: seq<TypeRow>, observations: set<Obs>, obstime: int, n: nat)
    requires n <= |types|
  {
    forall j | 0 <= j < n && Searched(types[j]) ::
      CoveredAt(pgm, observations, types[j].typeid, Target(types[j], obstime))
  }

  /** The observation is one a run at `obstime` looks for. */
  ghost predicate Due(pgm: set<Pgm>, types: seq<TypeRow>, o: Obs, obstime: int) {
    Expected(pgm, o) && exists row | row in types && Searched(row) ::
        o.typeid == row.typeid && o.obstime == Target(row, obstime)
  }

  // ------------------------------------------------------------- the turn of an observation

  /** Completing it meets the unique key, always. */
  predicate IsStuck(pgm: set<Pgm>, defaults: map<int, Default>, o: Obs) {
    WorkQueue.Stuck(pgm, defaults, Observation(o.stationid, o.typeid, o.obstime, 0))
  }

  /** What a transaction that completes an observation comes to. */
  function Attempted(f: Fate, stuck: bool): Outcome { if f == Works && stuck then Fails else OutcomeOf(f) }

  /** The fates left when an observation has had its turn: None if the process dies in it. The retry flag
      outlives a serialization error: once one has occurred, only a commit ends the turn. */
  function AfterTurn(stuck: bool, retry: bool, fate: seq<Fate>): Option<seq<Fate>>
    decreases |fate|
  {
    if fate == [] then None
    else match Attempted(fate[0], stuck)
         case Done => Some(fate[1..])
         case Retry => AfterTurn(stuck, true, fate[1..])
         case Down => None
         case _ => if retry then AfterTurn(stuck, true, fate[1..]) else Some(fate[1..])
  }

  /** A transaction works before the process dies. */
  ghost predicate WorksBeforeCrash(fate: seq<Fate>) {
    exists n | 0 <= n < |fate| :: fate[n] == Works && Crash !in fate[..n]
  }

  /** The turn completes the observation: its first transaction meets no error but a serialization error, and
      one works before the process dies. */
  ghost predicate Commits(stuck: bool, fate: seq<Fate>) {
    !stuck && fate != [] && fate[0] != OtherError && WorksBeforeCrash(fate)
  }

  lemma {:induction false} WorksLater(fate: seq<Fate>)
    requires fate != [] && fate[0] != Works && fate[0] != Crash
    ensures WorksBeforeCrash(fate) <==> WorksBeforeCrash(fate[1..])
  {
    if WorksBeforeCrash(fate) {
      var n :| 0 <= n < |fate| && fate[n] == Works && Crash !in fate[..n];
      assert fate[1..][n - 1] == Works && fate[..n][1..] == fate[1..][..n - 1];
    }
    if WorksBeforeCrash(fate[1..]) {
      var n :| 0 <= n < |fate| - 1 && fate[1..][n] == Works && Crash !in fate[1..][..n];
      assert fate[n + 1] == Works && fate[..n + 1] == [fate[0]] + fate[1..][..n];
    }
  }

  lemma {:induction false} RetriedTurnEnds(stuck: bool, fate: seq<Fate>)
    ensures AfterTurn(stuck, true, fate).Some? <==> !stuck && WorksBeforeCrash(fate)
    decreases |fate|
  {
    if fate != [] {
      if fate[0] == Works {
        assert fate[..0] == [];
        if stuck {
          RetriedTurnEnds(stuck, fate[1..]);
        }
      } else if fate[0] != Crash {
        WorksLater(fate);
        RetriedTurnEnds(stuck, fate[1..]);
      } else {
        CrashFirst(fate);
      }
    }
  }

  lemma {:induction false} CrashFirst(fate: seq<Fate>)
    requires fate != [] && fate[0] == Crash
    ensures !WorksBeforeCrash(fate)
  {
    forall n | 0 <= n < |fate| && fate[n] == Works ensures Crash in fate[..n] {
      assert fate[..n][0] == Crash;
    }
  }

  /** A turn ends with its first transaction, unless that meets a serialization error; then it ends if and only
      if the observation is not stuck and a transaction works before the process dies. */
  lemma {:induction false} TurnEndsIff(stuck: bool, fate: seq<Fate>)
    ensures AfterTurn(stuck, false, fate).Some? <==>
              && fate != [] && fate[0] != Crash
              && (fate[0] == SerializeError ==> !stuck && WorksBeforeCrash(fate))
  {
    if fate != [] && fate[0] == SerializeError {
      RetriedTurnEnds(stuck, fate[1..]);
      WorksLater(fate);
    }
  }

  function FirstFates(fates: nat -> Fate, n: nat): seq<Fate> { seq(n, k requires 0 <= k < n => fates(k)) }

  /** In a process that is not killed, on a database that goes on to work, the loop never ends if and only if the
      observation is stuck and its first transaction meets a serialization error. */
  lemma {:induction false} TurnHangsIff(stuck: bool, fates: nat -> Fate, later: nat)
    requires (forall n: nat :: fates(n) != Crash) && later > 0 && fates(later) == Works
    ensures (forall n: nat :: AfterTurn(stuck, false, FirstFates(fates, n)).None?) <==>
              stuck && fates(0) == SerializeError
  {
    if stuck && fates(0) == SerializeError {
      forall n: nat ensures AfterTurn(stuck, false, FirstFates(fates, n)).None? {
        TurnEndsIff(stuck, FirstFates(fates, n));
      }
    } else {
      var fate := FirstFates(fates, later + 1);
      assert fate[0] == fates(0) && fate[later] == Works && Crash !in fate[..later];
      TurnEndsIff(stuck, fate);
    }
  }

  // ---------------------------------------------------------------- what becomes of a search

  /** One search: the hour it ran for, what it has inserted, how it ended, and the fates ahead of it then. */
  datatype Search = Search(obstime: int, found: seq<Obs>, outcome: Outcome, ahead: seq<Fate>)

  /** The fates left when the first k observations of a search have had their turns. */
  function AfterTurns(pgm: set<Pgm>, defaults: map<int, Default>, s: Search, k: nat): Option<seq<Fate>>
    requires k <= |s.found|
  {
    if k == 0 then Some(s.ahead)
    else match AfterTurns(pgm, defaults, s, k - 1)
         case Some(fate) => AfterTurn(IsStuck(pgm, defaults, s.found[k - 1]), false, fate)
         case None => None
  }

  /** The search has ended without an error, its observation k has its turn, and the turn completes it. */
  ghost predicate Completes(pgm: set<Pgm>, defaults: map<int, Default>, s: Search, k: nat)
    requires k < |s.found|
  {
    && s.outcome == Done
    && var fate := AfterTurns(pgm, defaults, s, k);
       fate.Some? && Commits(IsStuck(pgm, defaults, s.found[k]), fate.value)
  }

  function AllFound(log: seq<Search>): seq<Obs> {
    if log == [] then [] else AllFound(log[..|log| - 1]) + log[|log| - 1].found
  }

  /** Everything inserted stands in one search, and is completed exactly if that search came to it. */
  ghost predicate Accounted(pgm: set<Pgm>, defaults: map<int, Default>, log: seq<Search>, created: seq<Obs>,
                            completed: set<Obs>) {
    && created == AllFound(log) && (forall o | o in completed :: o in created)
    && forall s, k: nat | s in log && k < |s.found| :: s.found[k] in completed <==> Completes(pgm, defaults, s, k)
  }

  /** The statements of the search are among those of the run. */
  ghost predicate Met(s: Search, fate: seq<Fate>) {
    exists n | 0 <= n <= |fate| :: Straight(s.outcome, fate[n..], s.ahead)
  }

  ghost predicate AllMet(log: seq<Search>, first: nat, fate: seq<Fate>) {
    forall i | first <= i < |log| :: Met(log[i], fate)
  }

  /** Each search since has been made in one of the first n runs. */
  ghost predicate MetInRuns(log: seq<Search>, first: nat, runs: seq<Start>, n: nat)
    requires n <= |runs|
  {
    forall i | first <= i < |log| :: exists j | 0 <= j < n :: Met(log[i], runs[j].fate)
  }

  /** A search asks once for the types, once for the stations of each, and inserts what it finds. */
  ghost predicate Spent(types: seq<TypeRow>, s: Search, before: seq<Fate>) {
    && var least, most := 1 + RowsSearched(types, |types|) + |s.found|, 2 + RowsSearched(types, |types|) + |s.found|;
       |before| - |s.ahead| <= most && (s.outcome == Done ==> |before| - |s.ahead| == least)
  }

  /** How many of the first n types are searched. */
  function RowsSearched(types: seq<TypeRow>, n: nat): nat
    requires n <= |types|
  {
    if n == 0 then 0 else RowsSearched(types, n - 1) + if Searched(types[n - 1]) then 1 else 0
  }

  ghost predicate NoRepeats(s: seq<Obs>) { forall i, j | 0 <= i < j < |s| :: s[i] != s[j] }

  /** The runs base + 1 hour .. base + `hours` hours have been completed. */
  ghost predicate CaughtUp(pgm: set<Pgm>, types: seq<TypeRow>, observations: set<Obs>, base: int, hours: nat) {
    forall k: nat | 1 <= k <= hours :: Covered(pgm, types, observations, RunTime(base, k))
  }

  function RunTime(base: int, k: nat): int { base + k * HOUR }

  /** Looked for by one of the runs up to the one after the completed ones. */
  ghost predicate DueIn(pgm: set<Pgm>, types: seq<TypeRow>, o: Obs, base: int, hours: nat) {
    exists k: nat | 1 <= k <= hours + 1 :: Due(pgm, types, o, RunTime(base, k))
  }

  ghost predicate DueEarly(pgm: set<Pgm>, types: seq<TypeRow>, o: Obs, early: seq<int>) {
    exists b | b in early :: Due(pgm, types, o, RunTime(b, 1))
  }

  /** Everything inserted since has been looked for. */
  ghost predicate OnlyDue(pgm: set<Pgm>, types: seq<TypeRow>, before: set<Obs>, after: set<Obs>, base: int,
                          hours: nat) {
    forall o | o in after && o !in before :: DueIn(pgm, types, o, base, hours)
  }

  ghost predicate OnlyDueAt(pgm: set<Pgm>, types: seq<TypeRow>, before: set<Obs>, after: set<Obs>, obstime: int) {
    forall o | o in after && o !in before :: Due(pgm, types, o, obstime)
  }

  ghost predicate OnlyDueFrom(pgm: set<Pgm>, types: seq<TypeRow>, before: set<Obs>, after: set<Obs>, base: int,
                              hours: nat, early: seq<int>) {
    forall o | o in after && o !in before :: DueIn(pgm, types, o, base, hours) || DueEarly(pgm, types, o, early)
  }

  ghost predicate OnlyEarly(pgm: set<Pgm>, types: seq<TypeRow>, before: set<Obs>, after: set<Obs>, early: seq<int>) {
    forall o | o in after && o !in before :: DueEarly(pgm, types, o, early)
  }

  /** Where a run carries on: at the stored time, or a week before it starts. */
  function FirstBase(last: Option<int>, now: int): int {
    if last.Some? then HalfPast(last.value) else HalfPast(now) - WEEK
  }

  ghost predicate WeekBefore(runs: seq<Start>, base: int) {
    exists i | 0 <= i < |runs| :: base == HalfPast(runs[i].now) - WEEK
  }

  class Database {
    const pgm: set<Pgm>
    const defaults: map<int, Default>
    const types: seq<TypeRow>
    var observations: set<Obs>
    var lastMissingRun: Option<int>
    var completed: set<Obs>
    var fate: seq<Fate>
    ghost const initial: set<Obs>
    ghost var created: seq<Obs>
    ghost var log: seq<Search>

    constructor (pgm: set<Pgm>, defaults: map<int, Default>, types: seq<TypeRow>, observations: set<Obs>,
        lastMissingRun: Option<int>, fate: seq<Fate>)
      ensures this.pgm == pgm && this.defaults == defaults && this.types == types && this.observations == observations
      ensures this.lastMissingRun == lastMissingRun && this.fate == fate
      ensures completed == {} && created == [] && log == [] && initial == observations && Valid() && Logged()
    {
      this.pgm, this.defaults, this.types, this.observations := pgm, defaults, types, observations;
      this.lastMissingRun, this.completed, this.fate := lastMissingRun, {}, fate;
      this.created, this.log, this.initial := [], [], observations;
    }

    /** Every observation was there from the beginning or has been inserted exactly once. */
    ghost predicate Valid()
      reads this`observations, this`created
    {
      && NoRepeats(created)
      && (forall o | o in created :: o !in initial)
      && (forall o :: o in observations <==> o in initial || o in created)
    }

    /** Which of those inserted have been completed. */
    ghost predicate Logged()
      reads this`created, this`completed, this`log
    {
      Accounted(pgm, defaults, log, created, completed)
    }

    /** The next statement; a process with no fate left has crashed. */
    method Exec() returns (r: Outcome)
      modifies this`fate
      ensures r == OutcomeOf(FirstFate(old(fate))) && fate == Rest(old(fate))
      ensures 0 <= |old(fate)| - |fate| <= 1 && (r != Down ==> |old(fate)| - |fate| == 1)
      ensures Straight(r, old(fate), fate) && Explained(r, old(fate), fate)
    {
      if fate == [] {
        return Down;
      }
      r := OutcomeOf(fate[0]);
      fate := fate[1..];
    }

    method CreateObservation(o: Obs) returns (r: Outcome)
      requires Valid()
      modifies this`fate, this`observations, this`created
      ensures Valid()
      ensures r == Duplicate ==> o in old(observations)
      ensures r != Duplicate ==> Straight(r, old(fate), fate)
      ensures |old(fate)| - |fate| <= 1 && (r == Done ==> |old(fate)| - |fate| == 1)
      ensures observations == old(observations) + (if r == Done then {o} else {})
      ensures r == Done ==> o !in old(observations)
      ensures created == old(created) + (if r == Done then [o] else [])
    {
      r := Exec();
      if r == Done {
        if o in observations {
          return Duplicate;
        }
        observations := observations + {o};
        created := created + [o];
      }
    }

    /** One row of types: ask for the stations, then insert an observation for each. Only this process
        inserts, so none of the inserts meets an observation that is already there. */
    method FindMissingOf(row: TypeRow, obstime: int) returns (r: Outcome, missing: seq<Obs>)
      requires Valid() && row in types && Searched(row)
      modifies this`fate, this`observations, this`created
      ensures Valid() && r != Duplicate && Straight(r, old(fate), fate)
      ensures old(observations) <= observations && Adds(old(created), created, missing)
      ensures forall o | o in missing :: o in observations && o !in old(observations)
      ensures OnlyDueAt(pgm, types, old(observations), observations, obstime)
      ensures r == Done ==> CoveredAt(pgm, observations, row.typeid, Target(row, obstime))
      ensures r == Done ==> |old(fate)| - |fate| == 1 + |missing|
      ensures r != Done ==> |old(fate)| - |fate| <= 2 + |missing|
    {
      hide Straight, Valid, Due, Expected, Stations, Known, CoveredAt, Rest, Dropped;
      missing := [];
      r := Exec();
      if r != Done {
        return;
      }
      var time := Target(row, obstime);
      var stations := Stations(pgm, row.typeid, time) - Known(observations, row.typeid, time);
      KnownMeans(observations, row.typeid, time);
      ghost var before := fate;
      r, missing := CreateObservations(stations, row.typeid, time);
      StraightOn(old(fate), before, r, fate);
      NewAreDue(pgm, types, row, obstime, missing);
      if r == Done {
        NowCovered(pgm, old(observations), observations, row.typeid, time);
      }
    }

    /** An observation for each of the stations, which have none at the time. */
    method CreateObservations(stations: set<int>, typeid: int, time: int) returns (r: Outcome, missing: seq<Obs>)
      requires Valid() && forall s | s in stations :: Obs(s, typeid, time) !in observations
      modifies this`fate, this`observations, this`created
      ensures Valid() && r != Duplicate && Straight(r, old(fate), fate) && created == old(created) + missing
      ensures forall o :: o in observations <==> o in old(observations) || o in missing
      ensures forall o | o in missing ::
                o.stationid in stations && o.typeid == typeid && o.obstime == time && o !in old(observations)
      ensures r == Done ==> forall s | s in stations :: Obs(s, typeid, time) in missing
      ensures r == Done ==> |old(fate)| - |fate| == |missing|
      ensures r != Done ==> |old(fate)| - |fate| <= 1 + |missing|
    {
      hide Straight, Valid, Rest, Dropped;
      r, missing := Done, [];
      NothingYetSpent(fate);
      var rest := stations;
      while rest != {}
        invariant Valid() && Straight(Done, old(fate), fate) && r == Done && created == old(created) + missing
        invariant rest <= stations && |old(fate)| - |fate| == |missing|
        invariant forall o :: o in observations <==> o in old(observations) || o in missing
        invariant forall o | o in missing :: o.stationid in stations - rest && o == Obs(o.stationid, typeid, time)
        invariant forall s | s in stations - rest :: Obs(s, typeid, time) in missing
        decreases |rest|
      {
        Sets.HasElement(rest);
        var s: int :| s in rest;
        ghost var before := fate;
        r := CreateObservation(Obs(s, typeid, time));
        StraightOn(old(fate), before, r, fate);
        if r != Done {
          return;
        }
        missing := missing + [Obs(s, typeid, time)];
        rest := rest - {s};
      }
    }

    method FindAllMissing(obstime: int) returns (r: Outcome, missing: seq<Obs>)
      requires Valid()
      modifies this`fate, this`observations, this`created
      ensures Valid() && r != Duplicate && Straight(r, old(fate), fate)
      ensures r != Down ==> |fate| < |old(fate)|
      ensures old(observations) <= observations && old(created) <= created
      ensures OnlyDueAt(pgm, types, old(observations), observations, obstime)
      ensures r == Done ==> Covered(pgm, types, observations, obstime)
      ensures r == Done ==> created == old(created) + missing
      ensures r == Done ==>
                |old(fate)| - |fate| == 1 + RowsSearched(types, |types|) + |missing|
      ensures |old(fate)| - |fate| <= 2 + RowsSearched(types, |types|) + |created| - |old(created)|
    {
      hide *;
      NoRowsSearched(types);
      CoveredToNone(pgm, types, observations, obstime);
      NothingDueYet(pgm, types, observations, obstime);
      AddsNothing(created);
      missing := [];
      ExecMeans(fate);
      r := Exec();
      if r != Done {
        AddsMeans(old(created), created, missing);
        RowsSearchedGrows(types, 0, |types|);
        return;
      }
      for i := 0 to |types|
        invariant Valid() && Straight(Done, old(fate), fate) && r == Done
        invariant old(observations) <= observations && Adds(old(created), created, missing)
        invariant |old(fate)| - |fate| == 1 + RowsSearched(types, i) + |missing|
        invariant OnlyDueAt(pgm, types, old(observations), observations, obstime)
        invariant CoveredTo(pgm, types, observations, obstime, i)
      {
        OneRowMore(types, i);
        ghost var before := observations;
        if Searched(types[i]) {
          ghost var fate0, created0 := fate, created;
          var some: seq<Obs>;
          r, some := FindMissingOf(types[i], obstime);
          StraightOn(old(fate), fate0, r, fate);
          DueAtBoth(pgm, types, old(observations), before, observations, obstime);
          AddsMore(old(created), created0, created, missing, some);
          missing := missing + some;
          if r != Done {
            AddsMeans(old(created), created, missing);
            return;
          }
        }
        CoveredToMore(pgm, types, before, observations, obstime, i);
      }
      AllCovered(pgm, types, observations, obstime);
      AddsMeans(old(created), created, missing);
    }

    /** One missing observation is completed and queued in a transaction of its own, again after every
        serialization error. */
    method AddMissingData(o: Obs) returns (r: Outcome)
      modifies this`fate, this`completed
      ensures r == if AfterTurn(IsStuck(pgm, defaults, o), false, old(fate)).Some? then Done else Down
      ensures r == Done ==> Some(fate) == AfterTurn(IsStuck(pgm, defaults, o), false, old(fate))
      ensures completed == old(completed) + if Commits(IsStuck(pgm, defaults, o), old(fate)) then {o} else {}
      ensures Explained(r, old(fate), fate)
    {
      hide Explained, Straight, IsStuck, AfterTurn, Commits, TurnSoFar, Rest, Dropped;
      var stuck := IsStuck(pgm, defaults, o);
      var retry := false;
      NothingSpent(fate);
      TurnBegins(stuck, fate);
      while true
        invariant Explained(Done, old(fate), fate) && completed == old(completed)
        invariant TurnSoFar(stuck, retry, old(fate), fate)
        decreases |fate|
      {
        ghost var before := fate;
        r := Exec();
        TurnSteps(stuck, retry, old(fate), before);
        ExplainedOn(old(fate), before, r, fate);
        if r == Done && stuck {
          r := Fails;
        }
        match r {
          case Done => completed := completed + {o}; retry := false;
          case Retry => retry := true;
          case Down => return;
          case _ =>
        }
        if !retry {
          return Done;
        }
      }
    }

    /** One hour: the search, and a turn for each observation it has created. Which of them are completed is
        told by the log. */
    method AddAllMissingData(obstime: int) returns (r: Outcome)
      requires Valid() && Logged()
      modifies this
      ensures Valid() && Logged() && r != Duplicate && lastMissingRun == old(lastMissingRun)
      ensures r != Down ==> |fate| < |old(fate)|
      ensures old(observations) <= observations && Explained(r, old(fate), fate)
      ensures OnlyDueAt(pgm, types, old(observations), observations, obstime)
      ensures r == Done ==> Covered(pgm, types, observations, obstime)
      ensures |log| == |old(log)| + 1 && log[..|old(log)|] == old(log)
      ensures var s := log[|old(log)|];
              && s.obstime == obstime && created == old(created) + s.found
              && Straight(s.outcome, old(fate), s.ahead) && Spent(types, s, old(fate))
              && (s.outcome != Done ==> r == s.outcome && fate == s.ahead)
              && (s.outcome == Done ==>
                    Covered(pgm, types, observations, obstime) &&
                    var left := AfterTurns(pgm, defaults, s, |s.found|);
                    if left.Some? then r == Done && fate == left.value else r == Down)
    {
      hide Covered, Due, NoRepeats, Accounted, Straight, Completes, AfterTurns;
      var missing;
      r, missing := FindAllMissing(obstime);
      StraightIsExplained(r, old(fate), fate);
      ghost var created0, completed0 := old(created), completed;
      ghost var s := Search(obstime, created[|created0|..], r, fate);
      assert created == created0 + s.found;
      log := log + [s];
      if r == Done {
        r := TakeTurns(missing, s);
      } else {
        NoTurns(pgm, defaults, s, |s.found|);
      }
      AccountedMore(pgm, defaults, old(log), created0, completed0, s);
      assert completed == completed0 + CompletedOf(pgm, defaults, s, |s.found|);
    }

    /** The observations of a search, one after another. */
    method TakeTurns(missing: seq<Obs>, ghost s: Search) returns (r: Outcome)
      requires s.found == missing && s.outcome == Done && s.ahead == fate
      modifies this`fate, this`completed
      ensures Explained(r, old(fate), fate)
      ensures var left := AfterTurns(pgm, defaults, s, |missing|);
              if left.Some? then r == Done && fate == left.value else r == Down
      ensures completed == old(completed) + CompletedOf(pgm, defaults, s, |missing|)
    {
      hide AfterTurns, AfterTurn, CompletedOf, Commits, IsStuck;
      AllTurnsAhead(pgm, defaults, s);
      for i := 0 to |missing|
        invariant Explained(Done, old(fate), fate)
        invariant AfterTurns(pgm, defaults, s, i) == Some(fate)
        invariant completed == old(completed) + CompletedOf(pgm, defaults, s, i)
      {
        OneTurn(pgm, defaults, s, i, fate);
        r := AddMissingData(missing[i]);
        if r == Down {
          NoMoreTurns(pgm, defaults, s, i + 1, |missing|);
          return;
        }
      }
      r := Done;
    }

    /** The half-past time of the stored run; without a stored run, or an unreadable one, a week ago. */
    method LastFindAllMissingRuntime(now: int) returns (r: Outcome, last: int)
      modifies this`fate
      ensures r != Duplicate && Explained(r, old(fate), fate)
      ensures last == if lastMissingRun.Some? then HalfPast(lastMissingRun.value) else HalfPast(now) - WEEK
    {
      hide *;
      r := Exec();
      ExecMeans(old(fate));
      match lastMissingRun {
        case Some(time) => last := HalfPast(time);
        case None => last := HalfPast(now) - WEEK;
      }
    }

    method SetLastFindAllMissingRuntime(obstime: int) returns (r: Outcome)
      modifies this`fate, this`lastMissingRun
      ensures r != Duplicate && Explained(r, old(fate), fate) && (r != Down ==> |fate| < |old(fate)|)
      ensures lastMissingRun == if r == Done then Some(obstime) else old(lastMissingRun)
    {
      hide *;
      r := Exec();
      ExecMeans(old(fate));
      if r == Done {
        lastMissingRun := Some(obstime);
      }
    }

    /** One hour of a run: when all of it has worked, its time is stored. */
    method OneHour(obstime: int) returns (r: Outcome)
      requires Valid() && Logged()
      modifies this
      ensures Valid() && Logged() && r != Duplicate && Explained(r, old(fate), fate)
      ensures r != Down ==> |fate| < |old(fate)|
      ensures lastMissingRun == if r == Done then Some(obstime) else old(lastMissingRun)
      ensures old(observations) <= observations && (r == Done ==> Covered(pgm, types, observations, obstime))
      ensures OnlyDueAt(pgm, types, old(observations), observations, obstime)
      ensures old(log) <= log && AllMet(log, |old(log)|, old(fate))
    {
      hide Covered, Due, Valid, Logged, AfterTurns, Explained, Straight, Dropped, Rest;
      r := AddAllMissingData(obstime);
      NothingSpent(old(fate));
      MetToo(old(log), log, |old(log)|, old(fate), old(fate));
      if r == Done {
        ghost var before := fate;
        r := SetLastFindAllMissingRuntime(obstime);
        ExplainedOn(old(fate), before, r, fate);
      }
    }

    /** One run: hour after hour until the clock is reached, the service is stopped, or an error other than a
        serialization error ends it. It starts at `now`; from then on the clock and the stop flag may say
        anything. */
    method Run(now: int) returns (ghost base: int, ghost hours: nat, ending: Ending)
      requires Valid() && Logged()
      modifies this
      ensures Valid() && old(observations) <= observations && |fate| <= |old(fate)|
      // what has been completed is told by the log
      ensures Logged() && old(log) <= log && AllMet(log, |old(log)|, old(fate))
      // having caught up, no whole hour behind the last completed run is in the past
      ensures ending.CaughtUpWith? ==> ending.clock <= RunTime(base, hours + 1)
      ensures ending.Ended? && ending.outcome == Retry ==> hours == 0 && SerializeError in old(fate)
      ensures ending.Ended? ==> ending.outcome in {Retry, Fails, Down} && Explained(ending.outcome, old(fate), fate)
      ensures base == FirstBase(old(lastMissingRun), now) && HalfPast(base) == base
      ensures lastMissingRun == if hours == 0 then old(lastMissingRun) else Some(RunTime(base, hours))
      ensures CaughtUp(pgm, types, observations, base, hours)
      ensures OnlyDue(pgm, types, old(observations), observations, base, hours)
    {
      hide Covered, Due, Valid, Logged, AllMet, CaughtUp, OnlyDue, Dropped, Rest, Explained, OnlyDueAt;
      hours := 0;
      var r, last := LastFindAllMissingRuntime(now);
      base := last;
      ExplainedMeans(r, old(fate), fate);
      HalfPastStays(if lastMissingRun.Some? then lastMissingRun.value else now);
      NothingYet(pgm, types, observations, base);
      NothingMet(log, old(fate));
      if r != Done {
        ending := Ended(r);
        return;
      }
      RunTimeSteps(base, 0);
      var obstime := last + HOUR;
      while true
        invariant Valid() && old(observations) <= observations && Explained(Done, old(fate), fate)
        invariant Logged() && old(log) <= log && AllMet(log, |old(log)|, old(fate))
        invariant obstime == RunTime(base, hours + 1)
        invariant lastMissingRun == if hours == 0 then old(lastMissingRun) else Some(RunTime(base, hours))
        invariant CaughtUp(pgm, types, observations, base, hours)
        invariant OnlyDue(pgm, types, old(observations), observations, base, hours)
        decreases |fate|
      {
        var clock: int, stopped: bool := *, *;
        if obstime >= clock {
          ending := CaughtUpWith(clock);
          return;
        }
        if stopped {
          ending := Stopped;
          return;
        }
        ghost var before, fate0, log0 := observations, fate, log;
        r := OneHour(obstime);
        ExplainedOn(old(fate), fate0, r, fate);
        AllMetOn(log0, log, |old(log)|, old(fate), fate0);
        HourAdds(pgm, types, old(observations), before, observations, base, hours, r == Done);
        if r == Done {
          RunTimeSteps(base, hours + 1);
          obstime := obstime + HOUR;
          hours := hours + 1;
        }
        if r != Done && r != Retry {
          ExplainedMeans(r, old(fate), fate);
          ending := Ended(r);
          return;
        }
        ExplainedMeans(Done, old(fate), fate);
      }
    }
  }

  /** One run of the service: when it starts, and what becomes of its statements. */
  datatype Start = Start(now: int, fate: seq<Fate>)

  /** The service over any number of runs, each ended by its fate, a crash in any statement included. The
      stored time moves in steps of an hour, every hour up to it has been completed, and nothing has been
      inserted but observations of these hours and the one after. While no time is stored each run looks into
      the hour a week before its own start; `early` are the bases of such runs that completed none. */
  method Service(db: Database, runs: seq<Start>) returns (ghost base: int, ghost hours: nat, ghost early: seq<int>)
    requires db.Valid() && db.Logged()
    modifies db
    ensures db.Valid() && old(db.observations) <= db.observations
    ensures db.Logged() && old(db.log) <= db.log && MetInRuns(db.log, |old(db.log)|, runs, |runs|)
    ensures old(db.lastMissingRun).Some? ==> base == HalfPast(old(db.lastMissingRun).value) && early == []
    ensures old(db.lastMissingRun).None? && hours > 0 ==> WeekBefore(runs, base)
    ensures forall b | b in early :: WeekBefore(runs, b)
    ensures db.lastMissingRun == if hours == 0 then old(db.lastMissingRun) else Some(RunTime(base, hours))
    ensures CaughtUp(db.pgm, db.types, db.observations, base, hours)
    ensures OnlyDueFrom(db.pgm, db.types, old(db.observations), db.observations, base, hours, early)
  {
    hide Covered, Due, CaughtUp, OnlyDue, OnlyDueFrom, OnlyEarly, Accounted, Met, AllMet, NoRepeats;
    base, hours, early := FirstBase(db.lastMissingRun, 0), 0, [];
    NothingYet(db.pgm, db.types, db.observations, base);
    FirstBaseIsHalfPast(db.lastMissingRun, 0);
    for i := 0 to |runs|
      invariant db.Valid() && old(db.observations) <= db.observations && HalfPast(base) == base
      invariant db.Logged() && old(db.log) <= db.log && MetInRuns(db.log, |old(db.log)|, runs, i)
      invariant old(db.lastMissingRun).Some? ==> base == HalfPast(old(db.lastMissingRun).value) && early == []
      invariant old(db.lastMissingRun).None? && hours > 0 ==> WeekBefore(runs, base)
      invariant forall b | b in early :: WeekBefore(runs, b)
      invariant db.lastMissingRun == if hours == 0 then old(db.lastMissingRun) else Some(RunTime(base, hours))
      invariant CaughtUp(db.pgm, db.types, db.observations, base, hours)
      invariant OnlyDueFrom(db.pgm, db.types, old(db.observations), db.observations, base, hours, early)
      invariant old(db.lastMissingRun).None? && hours == 0 ==>
                  OnlyEarly(db.pgm, db.types, old(db.observations), db.observations, early)
    {
      ghost var before, base0, log0 := db.observations, base, db.log;
      db.fate := runs[i].fate;
      ghost var more: nat;
      var ending;
      base, more, ending := db.Run(runs[i].now);
      MetInOneMore(log0, db.log, |old(db.log)|, runs, i);
      if hours > 0 || old(db.lastMissingRun).Some? {
        HalfPastRun(base0, hours);
        Join(db.pgm, db.types, before, db.observations, base0, hours, more);
        JoinDue(db.pgm, db.types, old(db.observations), before, db.observations, base0, hours, more, early);
        base, hours := base0, hours + more;
      } else {
        assert WeekBefore(runs, base);
        JoinEarly(db.pgm, db.types, old(db.observations), before, db.observations, base, more, early);
        hours := more;
        if more == 0 {
          early := early + [base];
        }
      }
    }
  }

  // --------------------------------------------------------- what becomes of an observation

  /** Whatever has been inserted stands in one of the searches. It has been completed if and only if that search
      ended without an error, its turn came before the process died, and the turn completed it. */
  lemma {:induction false} CompletedIff(pgm: set<Pgm>, defaults: map<int, Default>, log: seq<Search>,
                                        created: seq<Obs>, completed: set<Obs>, o: Obs)
    requires Accounted(pgm, defaults, log, created, completed) && o in created
    ensures exists s, k: nat :: s in log && k < |s.found| && s.found[k] == o
    ensures o in completed <==>
              exists s, k: nat :: s in log && k < |s.found| && s.found[k] == o && Completes(pgm, defaults, s, k)
  {
    hide Completes;
    FoundSomewhere(log, o);
  }

  lemma {:induction false} FoundSomewhere(log: seq<Search>, o: Obs)
    requires o in AllFound(log)
    ensures exists s, k: nat :: s in log && k < |s.found| && s.found[k] == o
  {
    var before, last := log[..|log| - 1], log[|log| - 1];
    assert log == before + [last];
    if o in last.found {
      var k :| 0 <= k < |last.found| && last.found[k] == o;
      assert last in log;
    } else {
      FoundSomewhere(before, o);
      var s, k: nat :| s in before && k < |s.found| && s.found[k] == o;
      assert s in log;
    }
  }

  /** In an hour that ends as done an observation is left incomplete if and only if it is stuck or its first
      transaction meets an error other than a serialization error. */
  lemma {:induction false} CompletedInTime(pgm: set<Pgm>, defaults: map<int, Default>, s: Search, k: nat)
    requires s.outcome == Done && k < |s.found| && AfterTurns(pgm, defaults, s, |s.found|).Some?
    ensures var fate := AfterTurns(pgm, defaults, s, k);
            && fate.Some? && fate.value != []
            && (Completes(pgm, defaults, s, k) <==>
                  !IsStuck(pgm, defaults, s.found[k]) && fate.value[0] != OtherError)
  {
    hide AfterTurn, IsStuck;
    if AfterTurns(pgm, defaults, s, k + 1).None? {
      NoMoreTurns(pgm, defaults, s, k + 1, |s.found|);
    }
    var fate := AfterTurns(pgm, defaults, s, k).value;
    TurnEndsIff(IsStuck(pgm, defaults, s.found[k]), fate);
    if fate[0] == Works {
      assert fate[..0] == [];
    }
  }

  /** Without a stuck observation and an error of another kind, such an hour completes all it has found. */
  lemma {:induction false} AllCompletedInTime(pgm: set<Pgm>, defaults: map<int, Default>, s: Search, k: nat)
    requires s.outcome == Done && k < |s.found| && AfterTurns(pgm, defaults, s, |s.found|).Some?
    requires OtherError !in s.ahead && forall o | o in s.found :: !IsStuck(pgm, defaults, o)
    ensures Completes(pgm, defaults, s, k)
  {
    hide IsStuck, Completes;
    CompletedInTime(pgm, defaults, s, k);
    TurnsSpendFates(pgm, defaults, s, k);
  }

  lemma {:induction false} TurnsSpendFates(pgm: set<Pgm>, defaults: map<int, Default>, s: Search, k: nat)
    requires k <= |s.found|
    ensures var fate := AfterTurns(pgm, defaults, s, k);
            fate.Some? ==> forall f | f in fate.value :: f in s.ahead
  {
    hide IsStuck;
    if k > 0 {
      TurnsSpendFates(pgm, defaults, s, k - 1);
      var fate := AfterTurns(pgm, defaults, s, k - 1);
      if fate.Some? {
        TurnSpendsFates(IsStuck(pgm, defaults, s.found[k - 1]), false, fate.value);
      }
    }
  }

  lemma {:induction false} TurnSpendsFates(stuck: bool, retry: bool, fate: seq<Fate>)
    ensures var left := AfterTurn(stuck, retry, fate); left.Some? ==> forall f | f in left.value :: f in fate
    decreases |fate|
  {
    if fate != [] {
      TurnSpendsFates(stuck, true, fate[1..]);
    }
  }

  // ------------------------------------------------------- an observation lost to a retry

  /** Three stations report a type every day at midnight. */
  const THREE := {Midnight(1), Midnight(2), Midnight(3)}
  const ONE_TYPE := [TypeRow(1, Some(0))]

  function Midnight(station: int): Pgm { Pgm(station, 1, 1, 0, 1, -1, None, {0}) }

  predicate AtMidnight(o: Obs) { o.stationid in {1, 2, 3} && o.typeid == 1 && o.obstime == 0 }

  /** The second insert of the first search meets a serialization error; everything else works. */
  const ONE_ERROR: seq<Fate> := [Works, Works, Works, SerializeError] + SOME_WORK
  const SOME_WORK: seq<Fate> := seq(9, _ => Works)

  /** The hour is searched again and ends as done. What the first search had inserted is no longer missing by
      then, and is never completed. */
  method LostToARetry() returns (db: Database, first: Outcome, second: Outcome, ghost lost: Obs)
    ensures first == Retry && second == Done
    ensures db.Valid() && db.Logged() && Covered(db.pgm, db.types, db.observations, 0)
    ensures lost in db.observations && lost !in db.completed
  {
    hide Straight, Spent, NoRepeats, Covered, Due, AfterTurns, AtMidnight;
    db := new Database(THREE, map[], ONE_TYPE, {}, None, ONE_ERROR);
    first := db.AddAllMissingData(0);
    ghost var s, found := db.log[0], db.created;
    FirstSearchFails(s, db.observations);
    lost := s.found[0];
    second := db.AddAllMissingData(0);
    ThreeAtMost(db.created);
    SecondSearchWorks(db.log[1], found, db.created);
    assert db.log[0] == s && s in db.log;
  }

  lemma {:induction false} DueAtMidnight(o: Obs)
    ensures Due(THREE, ONE_TYPE, o, 0) <==> AtMidnight(o)
  {
    assert Target(ONE_TYPE[0], 0) == 0;
    if AtMidnight(o) {
      assert Midnight(o.stationid) in THREE && Active(Midnight(o.stationid), Observation(o.stationid, 1, 0, 0));
      assert ONE_TYPE[0] in ONE_TYPE;
    }
  }

  lemma {:induction false} FirstSearchFails(s: Search, observations: set<Obs>)
    requires Straight(s.outcome, ONE_ERROR, s.ahead) && Spent(ONE_TYPE, s, ONE_ERROR)
    requires s.outcome == Done ==> Covered(THREE, ONE_TYPE, observations, 0)
    requires forall o | o in observations :: o in s.found
    ensures s.outcome == Retry && s.ahead == SOME_WORK && s.found != []
  {
    assert RowsSearched(ONE_TYPE, 1) == 1;
    if s.outcome == Done {
      ThreeFound(s.found, observations);
    }
    FourthFails(s.outcome, s.ahead);
  }

  lemma {:induction false} FourthFails(r: Outcome, after: seq<Fate>)
    requires Straight(r, ONE_ERROR, after) && (r == Done ==> |ONE_ERROR| - |after| > 3)
    ensures r == Retry && after == SOME_WORK
  {
    var n := |ONE_ERROR| - |after|;
    assert forall k | 0 <= k < 13 :: ONE_ERROR[k] == if k == 3 then SerializeError else Works;
    assert ONE_ERROR[3] == SerializeError;
    if r == Retry {
      assert n == 4;
      assert ONE_ERROR[4..] == SOME_WORK;
    }
  }

  lemma {:induction false} ThreeFound(found: seq<Obs>, observations: set<Obs>)
    requires Covered(THREE, ONE_TYPE, observations, 0) && forall o | o in observations :: o in found
    ensures |found| >= 3
  {
    var a, b, c := Obs(1, 1, 0), Obs(2, 1, 0), Obs(3, 1, 0);
    forall o | AtMidnight(o) ensures o in found {
      DueAtMidnight(o);
      assert CoveredAt(THREE, observations, 1, Target(ONE_TYPE[0], 0));
    }
    assert a in found && b in found && c in found;
  }

  lemma {:induction false} ThreeAtMost(found: seq<Obs>)
    requires NoRepeats(found) && forall o | o in found :: Due(THREE, ONE_TYPE, o, 0)
    ensures |found| <= 3
  {
    hide Due, AtMidnight;
    forall o | o in found ensures AtMidnight(o) {
      DueAtMidnight(o);
    }
    if |found| > 3 {
      TwoOfFour(found[0], found[1], found[2], found[3]);
      assert false;
    }
  }

  lemma {:induction false} TwoOfFour(a: Obs, b: Obs, c: Obs, d: Obs)
    requires AtMidnight(a) && AtMidnight(b) && AtMidnight(c) && AtMidnight(d)
    ensures a == b || a == c || a == d || b == c || b == d || c == d
  {
  }

  lemma {:induction false} SecondSearchWorks(s: Search, before: seq<Obs>, created: seq<Obs>)
    requires Straight(s.outcome, SOME_WORK, s.ahead) && Spent(ONE_TYPE, s, SOME_WORK)
    requires created == before + s.found && |created| <= 3
    ensures s.outcome == Done && AfterTurns(THREE, map[], s, |s.found|).Some?
  {
    assert RowsSearched(ONE_TYPE, 1) == 1;
    WorkingTurns(s, |s.found|);
  }

  lemma {:induction false} WorkingTurns(s: Search, k: nat)
    requires k <= |s.found| && k <= |s.ahead| && forall f | f in s.ahead :: f == Works
    ensures AfterTurns(THREE, map[], s, k) == Some(s.ahead[k..])
  {
    if k > 0 {
      WorkingTurns(s, k - 1);
      assert s.ahead[k - 1] in s.ahead;
      assert s.ahead[k - 1..][0] == Works && s.ahead[k - 1..][1..] == s.ahead[k..];
    }
  }

  // ------------------------------------------------------------------------ the lemmas

  lemma {:induction false} StraightOn(first: seq<Fate>, before: seq<Fate>, r: Outcome, after: seq<Fate>)
    requires Straight(Done, first, before) && (r != Duplicate ==> Straight(r, before, after))
    ensures r != Duplicate ==> Straight(r, first, after) && |after| <= |before|
  {
    var m, n := |first| - |before|, |first| - |after|;
    if r != Duplicate {
      assert forall k | 0 <= k < |before| :: before[k] == first[m + k];
      assert after == first[n..];
    }
  }

  /** `more` has been appended. */
  ghost predicate Adds(before: seq<Obs>, after: seq<Obs>, more: seq<Obs>) { after == before + more }

  lemma {:induction false} AddsMore(a: seq<Obs>, b: seq<Obs>, c: seq<Obs>, more: seq<Obs>, some: seq<Obs>)
    requires Adds(a, b, more) && Adds(b, c, some)
    ensures Adds(a, c, more + some) && |more + some| == |more| + |some|
    ensures a <= c && |c| - |a| == |more + some|
  {
    assert (a + more) + some == a + (more + some);
  }

  lemma {:induction false} AddsNothing(a: seq<Obs>)
    ensures Adds(a, a, [])
  {
  }

  lemma {:induction false} AddsMeans(before: seq<Obs>, after: seq<Obs>, more: seq<Obs>)
    requires Adds(before, after, more)
    ensures after == before + more && before <= after && |after| == |before| + |more|
  {
  }

  lemma {:induction false} NoRowsSearched(types: seq<TypeRow>)
    ensures RowsSearched(types, 0) == 0
  {
  }

  lemma {:induction false} OneRowMore(types: seq<TypeRow>, n: nat)
    requires n < |types|
    ensures RowsSearched(types, n + 1) == RowsSearched(types, n) + if Searched(types[n]) then 1 else 0
    ensures RowsSearched(types, n + 1) <= RowsSearched(types, |types|)
  {
    RowsSearchedGrows(types, n + 1, |types|);
  }

  lemma {:induction false} NothingDueYet(pgm: set<Pgm>, types: seq<TypeRow>, observations: set<Obs>, obstime: int)
    ensures OnlyDueAt(pgm, types, observations, observations, obstime)
  {
  }

  lemma {:induction false} DueAtBoth(pgm: set<Pgm>, types: seq<TypeRow>, first: set<Obs>, before: set<Obs>,
                                     after: set<Obs>, obstime: int)
    requires OnlyDueAt(pgm, types, first, before, obstime) && OnlyDueAt(pgm, types, before, after, obstime)
    ensures OnlyDueAt(pgm, types, first, after, obstime)
  {
    hide Due;
  }

  lemma {:induction false} CoveredToNone(pgm: set<Pgm>, types: seq<TypeRow>, observations: set<Obs>, obstime: int)
    ensures CoveredTo(pgm, types, observations, obstime, 0)
  {
  }

  lemma {:induction false} CoveredToMore(pgm: set<Pgm>, types: seq<TypeRow>, before: set<Obs>, after: set<Obs>,
                                         obstime: int, n: nat)
    requires n < |types| && CoveredTo(pgm, types, before, obstime, n) && before <= after
    requires Searched(types[n]) ==> CoveredAt(pgm, after, types[n].typeid, Target(types[n], obstime))
    ensures CoveredTo(pgm, types, after, obstime, n + 1)
  {
    hide CoveredAt;
    forall j | 0 <= j < n && Searched(types[j])
      ensures CoveredAt(pgm, after, types[j].typeid, Target(types[j], obstime))
    {
      StaysCovered(pgm, before, after, types[j].typeid, Target(types[j], obstime));
    }
  }

  lemma {:induction false} AllCovered(pgm: set<Pgm>, types: seq<TypeRow>, observations: set<Obs>, obstime: int)
    requires CoveredTo(pgm, types, observations, obstime, |types|)
    ensures Covered(pgm, types, observations, obstime)
  {
    hide CoveredAt;
  }

  lemma {:induction false} RowsSearchedGrows(types: seq<TypeRow>, m: nat, n: nat)
    requires m <= n <= |types|
    ensures RowsSearched(types, m) <= RowsSearched(types, n)
  {
    if m < n {
      RowsSearchedGrows(types, m, n - 1);
    }
  }

  lemma {:induction false} ExplainedOn(first: seq<Fate>, before: seq<Fate>, r: Outcome, after: seq<Fate>)
    requires Explained(Done, first, before) && Explained(r, before, after)
    ensures Explained(r, first, after) && |after| <= |before|
    ensures Explained(Done, first, after) && (r == Retry ==> SerializeError in first)
  {
    assert after == first[|first| - |after|..];
  }

  lemma {:induction false} ExecMeans(fate: seq<Fate>)
    ensures OutcomeOf(FirstFate(fate)) != Duplicate
  {
  }

  lemma {:induction false} NothingYetSpent(fate: seq<Fate>)
    ensures Straight(Done, fate, fate)
  {
  }

  lemma {:induction false} ExplainedMeans(r: Outcome, before: seq<Fate>, after: seq<Fate>)
    requires Explained(r, before, after)
    ensures |after| <= |before| && (r == Retry ==> SerializeError in before)
  {
  }

  lemma {:induction false} NothingSpent(fate: seq<Fate>)
    ensures Explained(Done, fate, fate)
  {
  }

  lemma {:induction false} MetToo(log: seq<Search>, log': seq<Search>, first: nat, fate: seq<Fate>,
                                  ahead: seq<Fate>)
    requires AllMet(log, first, fate) && first <= |log| && |log'| == |log| + 1 && log'[..|log|] == log
    requires Explained(Done, fate, ahead) && Straight(log'[|log|].outcome, ahead, log'[|log|].ahead)
    ensures AllMet(log', first, fate) && log <= log'
  {
    hide Straight;
    forall i | first <= i < |log'| ensures Met(log'[i], fate) {
      if i < |log| {
        assert log'[i] == log[i];
      } else {
        assert fate[|fate| - |ahead|..] == ahead;
      }
    }
  }

  lemma {:induction false} NothingMet(log: seq<Search>, fate: seq<Fate>)
    ensures AllMet(log, |log|, fate)
  {
  }

  lemma {:induction false} AllMetOn(log: seq<Search>, log': seq<Search>, first: nat, fate: seq<Fate>,
                                    ahead: seq<Fate>)
    requires AllMet(log, first, fate) && first <= |log| && log <= log'
    requires Explained(Done, fate, ahead) && AllMet(log', |log|, ahead)
    ensures AllMet(log', first, fate)
  {
    hide Straight;
    forall i | first <= i < |log'| ensures Met(log'[i], fate) {
      if i < |log| {
        assert log'[i] == log[i];
      } else {
        var n :| 0 <= n <= |ahead| && Straight(log'[i].outcome, ahead[n..], log'[i].ahead);
        assert fate[|fate| - |ahead| + n..] == ahead[n..];
      }
    }
  }

  lemma {:induction false} MetInOneMore(log: seq<Search>, log': seq<Search>, first: nat, runs: seq<Start>, n: nat)
    requires first <= |log| && log <= log' && n < |runs|
    requires MetInRuns(log, first, runs, n) && AllMet(log', |log|, runs[n].fate)
    ensures MetInRuns(log', first, runs, n + 1)
  {
    hide Met;
    forall i | first <= i < |log'| ensures exists j | 0 <= j < n + 1 :: Met(log'[i], runs[j].fate) {
      if i < |log| {
        var j :| 0 <= j < n && Met(log[i], runs[j].fate);
        assert log'[i] == log[i];
      } else {
        assert Met(log'[i], runs[n].fate);
      }
    }
  }

  lemma {:induction false} StraightIsExplained(r: Outcome, before: seq<Fate>, after: seq<Fate>)
    requires Straight(r, before, after)
    ensures Explained(r, before, after)
  {
  }

  /** What the first n turns of a search complete. */
  ghost function CompletedOf(pgm: set<Pgm>, defaults: map<int, Default>, s: Search, n: nat): set<Obs>
    requires n <= |s.found|
  {
    if n == 0 then {}
    else CompletedOf(pgm, defaults, s, n - 1) + if Completes(pgm, defaults, s, n - 1) then {s.found[n - 1]} else {}
  }

  lemma {:induction false} CompletedOfMeans(pgm: set<Pgm>, defaults: map<int, Default>, s: Search, n: nat, o: Obs)
    requires n <= |s.found|
    ensures o in CompletedOf(pgm, defaults, s, n) <==>
              exists k: nat | k < n :: s.found[k] == o && Completes(pgm, defaults, s, k)
  {
    hide Completes;
    if n > 0 {
      CompletedOfMeans(pgm, defaults, s, n - 1, o);
    }
  }

  lemma {:induction false} NoTurns(pgm: set<Pgm>, defaults: map<int, Default>, s: Search, n: nat)
    requires s.outcome != Done && n <= |s.found|
    ensures CompletedOf(pgm, defaults, s, n) == {}
  {
    if n > 0 {
      NoTurns(pgm, defaults, s, n - 1);
    }
  }

  lemma {:induction false} AllTurnsAhead(pgm: set<Pgm>, defaults: map<int, Default>, s: Search)
    ensures AfterTurns(pgm, defaults, s, 0) == Some(s.ahead) && CompletedOf(pgm, defaults, s, 0) == {}
  {
  }

  lemma {:induction false} OneTurn(pgm: set<Pgm>, defaults: map<int, Default>, s: Search, i: nat, fate: seq<Fate>)
    requires i < |s.found| && s.outcome == Done && AfterTurns(pgm, defaults, s, i) == Some(fate)
    ensures var stuck := IsStuck(pgm, defaults, s.found[i]);
            && AfterTurns(pgm, defaults, s, i + 1) == AfterTurn(stuck, false, fate)
            && CompletedOf(pgm, defaults, s, i + 1)
                == CompletedOf(pgm, defaults, s, i) + if Commits(stuck, fate) then {s.found[i]} else {}
  {
    hide AfterTurn, Commits, IsStuck;
  }

  lemma {:induction false} NoMoreTurns(pgm: set<Pgm>, defaults: map<int, Default>, s: Search, i: nat, n: nat)
    requires i <= n <= |s.found| && AfterTurns(pgm, defaults, s, i).None?
    ensures AfterTurns(pgm, defaults, s, n).None?
    ensures CompletedOf(pgm, defaults, s, n) == CompletedOf(pgm, defaults, s, i)
  {
    hide AfterTurn, Commits, IsStuck;
    if i < n {
      NoMoreTurns(pgm, defaults, s, i, n - 1);
    }
  }

  lemma {:induction false} FoundInLog(log: seq<Search>, s: Search, k: nat)
    requires s in log && k < |s.found|
    ensures s.found[k] in AllFound(log)
  {
    var before, last := log[..|log| - 1], log[|log| - 1];
    assert log == before + [last];
    if s in before {
      FoundInLog(before, s, k);
    }
  }

  /** One more search, with its turns. */
  lemma {:induction false} AccountedMore(pgm: set<Pgm>, defaults: map<int, Default>, log: seq<Search>,
                                         created: seq<Obs>, completed: set<Obs>, s: Search)
    requires Accounted(pgm, defaults, log, created, completed) && NoRepeats(created + s.found)
    ensures Accounted(pgm, defaults, log + [s], created + s.found,
                      completed + CompletedOf(pgm, defaults, s, |s.found|))
  {
    var more := CompletedOf(pgm, defaults, s, |s.found|);
    FoundApart(created, s.found);
    CompletedAreFound(pgm, defaults, s, |s.found|);
    assert (log + [s])[..|log|] == log;
    forall q, k: nat | q in log + [s] && k < |q.found|
      ensures q.found[k] in completed + more <==> Completes(pgm, defaults, q, k)
    {
      if q in log {
        OldAccounted(pgm, defaults, log, created, completed, more, q, k);
      } else {
        NewAccounted(pgm, defaults, created, completed, s, k);
      }
    }
    hide CompletedOf, Completes;
  }

  lemma {:induction false} OldAccounted(pgm: set<Pgm>, defaults: map<int, Default>, log: seq<Search>,
                                        created: seq<Obs>, completed: set<Obs>, more: set<Obs>, q: Search, k: nat)
    requires Accounted(pgm, defaults, log, created, completed) && q in log && k < |q.found|
    requires forall o | o in more :: o !in created
    ensures q.found[k] in completed + more <==> Completes(pgm, defaults, q, k)
  {
    hide Completes;
    FoundInLog(log, q, k);
  }

  lemma {:induction false} NewAccounted(pgm: set<Pgm>, defaults: map<int, Default>, created: seq<Obs>,
                                        completed: set<Obs>, s: Search, k: nat)
    requires NoRepeats(s.found) && k < |s.found| && forall o | o in completed :: o in created
    requires forall o | o in s.found :: o !in created
    ensures s.found[k] in completed + CompletedOf(pgm, defaults, s, |s.found|) <==> Completes(pgm, defaults, s, k)
  {
    hide Completes;
    CompletedOfMeans(pgm, defaults, s, |s.found|, s.found[k]);
  }

  lemma {:induction false} CompletedAreFound(pgm: set<Pgm>, defaults: map<int, Default>, s: Search, n: nat)
    requires n <= |s.found|
    ensures forall o | o in CompletedOf(pgm, defaults, s, n) :: o in s.found
  {
    hide Completes;
    if n > 0 {
      CompletedAreFound(pgm, defaults, s, n - 1);
    }
  }

  lemma {:induction false} FoundApart(created: seq<Obs>, found: seq<Obs>)
    requires NoRepeats(created + found)
    ensures forall o | o in found :: o !in created
    ensures NoRepeats(found)
  {
    var all := created + found;
    forall k | 0 <= k < |found| ensures found[k] !in created {
      assert all[|created| + k] == found[k];
      forall i | 0 <= i < |created| ensures created[i] != found[k] {
        assert all[i] == created[i];
      }
    }
    forall i, j | 0 <= i < j < |found| ensures found[i] != found[j] {
      assert all[|created| + i] == found[i] && all[|created| + j] == found[j];
    }
  }

  /** The turn that began with the fates `first` has come as far as `fate`. */
  ghost predicate TurnSoFar(stuck: bool, retry: bool, first: seq<Fate>, fate: seq<Fate>) {
    && AfterTurn(stuck, retry, fate) == AfterTurn(stuck, false, first)
    && (!stuck ==> (WorksBeforeCrash(fate) <==> WorksBeforeCrash(first)))
    && if retry then first != [] && first[0] == SerializeError else fate == first
  }

  lemma {:induction false} TurnBegins(stuck: bool, fate: seq<Fate>)
    ensures TurnSoFar(stuck, false, fate, fate)
  {
  }

  /** What one transaction does to the turn. */
  lemma {:induction false} TurnSteps(stuck: bool, retry: bool, first: seq<Fate>, fate: seq<Fate>)
    requires TurnSoFar(stuck, retry, first, fate)
    ensures var r, rest, left := Attempted(FirstFate(fate), stuck), Rest(fate), AfterTurn(stuck, false, first);
            && (r == Down ==> left.None? && !Commits(stuck, first))
            && (r == Done ==> left == Some(rest) && Commits(stuck, first))
            && (r == Retry || (r == Fails && retry) ==> TurnSoFar(stuck, true, first, rest))
            && (r == Fails && !retry ==> left == Some(rest) && !Commits(stuck, first))
  {
    if fate != [] {
      if fate[0] == Works {
        assert fate[..0] == [];
      } else if fate[0] == Crash {
        CrashFirst(fate);
      } else {
        WorksLater(fate);
      }
    }
  }

  lemma {:induction false} NothingYet(pgm: set<Pgm>, types: seq<TypeRow>, observations: set<Obs>, base: int)
    ensures CaughtUp(pgm, types, observations, base, 0)
    ensures OnlyDueFrom(pgm, types, observations, observations, base, 0, [])
    ensures OnlyDue(pgm, types, observations, observations, base, 0)
    ensures OnlyEarly(pgm, types, observations, observations, [])
  {
  }

  /** What an hour of a run adds, completed or not. */
  lemma {:induction false} HourAdds(pgm: set<Pgm>, types: seq<TypeRow>, first: set<Obs>, before: set<Obs>,
                                    after: set<Obs>, base: int, hours: nat, done: bool)
    requires CaughtUp(pgm, types, before, base, hours) && OnlyDue(pgm, types, first, before, base, hours)
    requires before <= after && (done ==> Covered(pgm, types, after, RunTime(base, hours + 1)))
    requires OnlyDueAt(pgm, types, before, after, RunTime(base, hours + 1))
    ensures var hours' := if done then hours + 1 else hours;
            CaughtUp(pgm, types, after, base, hours') && OnlyDue(pgm, types, first, after, base, hours')
  {
    hide Covered, Due;
    StaysCaughtUp(pgm, types, before, after, base, hours);
  }

  lemma {:induction false} FirstBaseIsHalfPast(last: Option<int>, now: int)
    ensures HalfPast(FirstBase(last, now)) == FirstBase(last, now)
  {
    HalfPastStays(now);
    if last.Some? {
      HalfPastStays(last.value);
    }
  }

  lemma {:induction false} HalfPastRun(base: int, k: nat)
    requires HalfPast(base) == base
    ensures HalfPast(RunTime(base, k)) == RunTime(base, k) && RunTime(base, 0) == base
    decreases k
  {
    if k > 0 {
      HalfPastRun(base, k - 1);
      RunTimeSteps(base, k - 1);
    }
  }

  lemma {:induction false} RunTimeAdds(base: int, j: nat, k: nat)
    ensures RunTime(RunTime(base, j), k) == RunTime(base, j + k)
  {
  }

  /** A later run carries on where the one before it stopped. */
  lemma {:induction false} Join(pgm: set<Pgm>, types: seq<TypeRow>, before: set<Obs>, after: set<Obs>, base: int,
                                hours: nat, more: nat)
    requires CaughtUp(pgm, types, before, base, hours) && before <= after
    requires CaughtUp(pgm, types, after, RunTime(base, hours), more)
    ensures CaughtUp(pgm, types, after, base, hours + more)
  {
    StaysCaughtUp(pgm, types, before, after, base, hours);
    forall k: nat | 1 <= k <= hours + more ensures Covered(pgm, types, after, RunTime(base, k)) {
      if k > hours {
        RunTimeAdds(base, hours, k - hours);
        assert Covered(pgm, types, after, RunTime(RunTime(base, hours), k - hours));
      }
    }
  }

  lemma {:induction false} JoinDue(pgm: set<Pgm>, types: seq<TypeRow>, first: set<Obs>, before: set<Obs>,
                                   after: set<Obs>, base: int, hours: nat, more: nat, early: seq<int>)
    requires OnlyDueFrom(pgm, types, first, before, base, hours, early)
    requires OnlyDue(pgm, types, before, after, RunTime(base, hours), more)
    ensures OnlyDueFrom(pgm, types, first, after, base, hours + more, early)
  {
    hide Due;
    forall o | o in after && o !in first
        ensures DueIn(pgm, types, o, base, hours + more) || DueEarly(pgm, types, o, early) {
      if o !in before {
        var k: nat :| 1 <= k <= more + 1 && Due(pgm, types, o, RunTime(RunTime(base, hours), k));
        RunTimeAdds(base, hours, k);
        assert Due(pgm, types, o, RunTime(base, hours + k));
      }
    }
  }

  lemma {:induction false} JoinEarly(pgm: set<Pgm>, types: seq<TypeRow>, first: set<Obs>, before: set<Obs>,
                                     after: set<Obs>, base: int, more: nat, early: seq<int>)
    requires OnlyEarly(pgm, types, first, before, early) && OnlyDue(pgm, types, before, after, base, more)
    ensures OnlyDueFrom(pgm, types, first, after, base, more, early)
    ensures OnlyDueFrom(pgm, types, first, after, base, more, early + [base])
    ensures more == 0 ==> OnlyEarly(pgm, types, first, after, early + [base])
  {
    hide Due;
    forall o | o in after && o !in first
      ensures DueIn(pgm, types, o, base, more) || DueEarly(pgm, types, o, early)
      ensures DueIn(pgm, types, o, base, more) || DueEarly(pgm, types, o, early + [base])
      ensures more == 0 ==> DueEarly(pgm, types, o, early + [base])
    {
      if DueEarly(pgm, types, o, early) {
        var b :| b in early && Due(pgm, types, o, RunTime(b, 1));
        assert b in early + [base];
      } else if more == 0 {
        assert base in early + [base] && Due(pgm, types, o, RunTime(base, 1));
      }
    }
  }

  /** Successive runs look into successive hours of a type ... */
  lemma {:induction false} TargetsContiguous(row: TypeRow, base: int, k: nat)
    requires Searched(row)
    ensures Target(row, RunTime(base, k)) == Target(row, base) + k * HOUR
    decreases k
  {
    if k > 0 {
      TargetsContiguous(row, base, k - 1);
      RunTimeSteps(base, k - 1);
    }
  }

  /** ... so none is left out: every whole hour from the first run's to the last run's is covered. */
  lemma {:induction false} EveryHourCovered(pgm: set<Pgm>, types: seq<TypeRow>, observations: set<Obs>, base: int,
                                            hours: nat, row: TypeRow, time: int)
    requires CaughtUp(pgm, types, observations, base, hours) && row in types && Searched(row)
    requires IsWholeHour(time) && Target(row, base) < time <= Target(row, RunTime(base, hours))
    ensures CoveredAt(pgm, observations, row.typeid, time)
  {
    hide CoveredAt;
    var k := (time - Target(row, base)) / HOUR;
    TargetsContiguous(row, base, hours);
    TargetIsWhole(row, base);
    assert time == Target(row, base) + k * HOUR;
    TargetsContiguous(row, base, k);
    assert Covered(pgm, types, observations, RunTime(base, k));
  }

  lemma {:induction false} TargetIsWhole(row: TypeRow, obstime: int)
    requires Searched(row)
    ensures Target(row, obstime) % HOUR == 0
  {
  }

  lemma {:induction false} StaysCovered(pgm: set<Pgm>, before: set<Obs>, after: set<Obs>, typeid: int, time: int)
    requires CoveredAt(pgm, before, typeid, time) && before <= after
    ensures CoveredAt(pgm, after, typeid, time)
  {
  }

  lemma {:induction false} StaysCaughtUp(pgm: set<Pgm>, types: seq<TypeRow>, before: set<Obs>, after: set<Obs>,
                                         base: int, hours: nat)
    requires CaughtUp(pgm, types, before, base, hours) && before <= after
    ensures CaughtUp(pgm, types, after, base, hours)
  {
    forall k: nat | 1 <= k <= hours ensures Covered(pgm, types, after, RunTime(base, k)) {
      assert Covered(pgm, types, before, RunTime(base, k));
      forall row | row in types && Searched(row)
          ensures CoveredAt(pgm, after, row.typeid, Target(row, RunTime(base, k))) {
        StaysCovered(pgm, before, after, row.typeid, Target(row, RunTime(base, k)));
      }
    }
  }

  lemma {:induction false} RunTimeSteps(base: int, k: nat)
    ensures RunTime(base, 0) == base && RunTime(base, k + 1) == RunTime(base, k) + HOUR
  {
  }

  lemma {:induction false} HalfPastStays(time: int)
    ensures HalfPast(HalfPast(time)) == HalfPast(time) && HalfPast(HalfPast(time) - WEEK) == HalfPast(time) - WEEK
  {
  }
}
