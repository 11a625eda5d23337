/** Connections and decoders over requests that run at the same time. Each step is one locked region of the
    connection cache or of the decoder manager. */
module LeaseProtocol {
  import opened Leases
  import Sets

  /** Where a request stands, with what it holds and the redirects it has followed. */
  datatype Request =
    | Waiting(redirects: nat)                                  // for a connection
    | Leased(con: int, redirects: nat)                         // waits for the application's mutex
    | Looking(con: int, redirects: nat, due: bool)             // holds the mutex; refreshes first, when due
    | Refreshing(con: int, second: int, redirects: nat)        // holds the mutex and a second connection
    | Leaving(con: int)                                        // no decoder found
    | Decoding(con: int, decoder: nat, redirects: nat)
    | Closing(decoder: nat, redirects: nat, again: bool)       // the connection is back, the decoder not yet
    | Ended                                                    // the request has returned
    | Thrown(con: int, decoder: nat)                           // ... or has thrown

  /** The cache and its count of free connections, the requests, and the one in the mutex. Who has leased a
      connection and who uses a decoder is kept beside them. */
  datatype System = System(connection: map<int, bool>, nFree: int, requests: map<nat, Request>, mutex: set<nat>,
                           owner: map<int, nat>, user: map<nat, nat>)

  datatype Step =
    | Open(con: int)                  // addConnection
    | Arrive(r: nat)
    | Lease(r: nat, con: int)         // findFreeConnection
    | Enter(r: nat, due: bool)        // the clock says whether a refresh of the parameters is due
    | LeaseSecond(r: nat, con: int)   // findFreeConnection, for the refresh
    | FreeSecond(r: nat)              // freeConnection
    | NoDecoder(r: nat)
    | GiveBack(r: nat)                // freeConnection
    | FindDecoder(r: nat, decoder: nat)
    | FreeOwn(r: nat, again: bool)    // freeConnection, at the end of a decode or of a redirected one
    | ReleaseDecoder(r: nat)
    | Throw(r: nat)                   // one redirect too many

  /** The connections a request holds. */
  function Holds(q: Request): set<int> {
    match q
    case Leased(con, _) => {con}
    case Looking(con, _, _) => {con}
    case Refreshing(con, second, _) => {con, second}
    case Leaving(con) => {con}
    case Decoding(con, _, _) => {con}
    case Thrown(con, _) => {con}
    case _ => {}
  }

  function Uses(q: Request): set<nat> {
    match q
    case Decoding(_, decoder, _) => {decoder}
    case Closing(decoder, _, _) => {decoder}
    case Thrown(_, decoder) => {decoder}
    case _ => {}
  }

  predicate InMutex(q: Request) { q.Looking? || q.Refreshing? }

  predicate IsFree(s: System, con: int) { con in s.connection && s.connection[con] }

  predicate Enabled(s: System, step: Step) {
    if step.Open? then true
    else if step.Arrive? then step.r !in s.requests
    else
      && step.r in s.requests
      && var q := s.requests[step.r];
         match step
         case Lease(_, con) => q.Waiting? && s.nFree > 0 && IsFree(s, con)
         case Enter(_, _) => q.Leased? && s.mutex == {}
         case LeaseSecond(_, con) => q.Looking? && q.due && s.nFree > 0 && IsFree(s, con)
         case FreeSecond(_) => q.Refreshing?
         case NoDecoder(_) => q.Looking? && !q.due
         case GiveBack(_) => q.Leaving?
         case FindDecoder(_, decoder) => q.Looking? && !q.due && decoder !in s.user
         case FreeOwn(_, again) => q.Decoding? && (again ==> q.redirects < MAX_REDIRECTS)
         case ReleaseDecoder(_) => q.Closing? && s.mutex == {}
         case Throw(_) => q.Decoding? && q.redirects >= MAX_REDIRECTS
         case _ => false
  }

  function Taken(s: System, con: int, r: nat): System {
    s.(connection := s.connection[con := false], nFree := s.nFree - 1, owner := s.owner[con := r])
  }

  function Freed(s: System, con: int): System {
    if con in s.connection then
      s.(connection := s.connection[con := true], nFree := s.nFree + 1, owner := s.owner - {con})
    else s
  }

  /** The request after the step. */
  function Next(q: Request, step: Step): Request {
    match step
    case Lease(_, con) => if q.Waiting? then Leased(con, q.redirects) else q
    case Enter(_, due) => if q.Leased? then Looking(q.con, q.redirects, due) else q
    case LeaseSecond(_, con) => if q.Looking? then Refreshing(q.con, con, q.redirects) else q
    case FreeSecond(_) => if q.Refreshing? then Looking(q.con, q.redirects, false) else q
    case NoDecoder(_) => if q.Looking? then Leaving(q.con) else q
    case GiveBack(_) => Ended
    case FindDecoder(_, decoder) => if q.Looking? then Decoding(q.con, decoder, q.redirects) else q
    case FreeOwn(_, again) => if q.Decoding? then Closing(q.decoder, q.redirects, again) else q
    case ReleaseDecoder(_) => if q.Closing? && q.again then Waiting(q.redirects + 1) else Ended
    case Throw(_) => if q.Decoding? then Thrown(q.con, q.decoder) else q
    case _ => q
  }

  /** The cache, the decoders and the mutex after the step. */
  function Resources(s: System, step: Step): System
    requires Enabled(s, step)
  {
    match step
    case Open(con) =>
      if con in s.connection then s
      else
        var connection := s.connection[con := true];
        s.(connection := connection, nFree := Count(connection))
    case Lease(r, con) => Taken(s, con, r)
    case Enter(r, _) => s.(mutex := {r})
    case LeaseSecond(r, con) => Taken(s, con, r)
    case FreeSecond(r) => Freed(s, s.requests[r].second)
    case NoDecoder(_) => s.(mutex := {})
    case GiveBack(r) => Freed(s, s.requests[r].con)
    case FindDecoder(r, decoder) => s.(mutex := {}, user := s.user[decoder := r])
    case FreeOwn(r, _) => Freed(s, s.requests[r].con)
    case ReleaseDecoder(r) => s.(user := s.user - {s.requests[r].decoder})
    case _ => s
  }

  /** The recount of addConnection. */
  function Count(connection: map<int, bool>): nat { |set c | c in connection && connection[c]| }

  function Do(s: System, step: Step): System
    requires Enabled(s, step)
  {
    var s' := Resources(s, step);
    match step
    case Open(_) => s'
    case Arrive(r) => s'.(requests := s.requests[r := Waiting(0)])
    case _ => s'.(requests := s.requests[step.r := Next(s.requests[step.r], step)])
  }

  // -------------------------------------------------------------------------- the invariant

  /** The count is right, and a connection is free exactly if nobody has leased it. */
  ghost predicate CacheGood(s: System) {
    && s.nFree == |FreeIn(s.connection)|
    && (forall c | c in s.owner :: c in s.connection)
    && (forall c | c in s.connection :: s.connection[c] <==> c !in s.owner)
  }

  ghost predicate OwnersKnown(s: System) {
    && (forall c | c in s.owner :: s.owner[c] in s.requests)
    && (forall d | d in s.user :: s.user[d] in s.requests)
  }

  /** The request holds the connections it has leased and no others. */
  ghost predicate HoldsRight(s: System, r: nat, q: Request) {
    forall c :: c in Holds(q) <==> c in s.owner && s.owner[c] == r
  }

  ghost predicate UsesRight(s: System, r: nat, q: Request) {
    forall d :: d in Uses(q) <==> d in s.user && s.user[d] == r
  }

  /** It follows six redirects at most, and is in the mutex while it looks for a decoder. */
  ghost predicate Placed(s: System, r: nat, q: Request) {
    && (q.Refreshing? ==> q.con != q.second)
    && ((q.Decoding? || q.Waiting? || q.Leased? || InMutex(q)) ==> q.redirects <= MAX_REDIRECTS)
    && (q.Closing? && q.again ==> q.redirects < MAX_REDIRECTS)
    && (InMutex(q) <==> s.mutex == {r})
  }

  ghost predicate RequestGood(s: System, r: nat, q: Request) {
    HoldsRight(s, r, q) && UsesRight(s, r, q) && Placed(s, r, q)
  }

  ghost predicate Invariant(s: System) {
    && CacheGood(s) && OwnersKnown(s)
    && (forall r | r in s.requests :: RequestGood(s, r, s.requests[r]))
    && MutexGood(s)
  }

  ghost predicate MutexGood(s: System) { s.mutex == {} || exists r :: r in s.requests && s.mutex == {r} }

  const INITIAL := System(map[], 0, map[], {}, map[], map[])

  ghost predicate Follows(s: System, run: seq<Step>, s': System)
    decreases |run|
  {
    if run == [] then s' == s else Enabled(s, run[0]) && Follows(Do(s, run[0]), run[1..], s')
  }

  ghost predicate Reaches(run: seq<Step>, s: System) { Follows(INITIAL, run, s) }

  lemma {:induction false} FreedIsFree(s: System, con: int)
    requires CacheGood(s) && con in s.owner
    ensures CacheGood(Freed(s, con))
  {
    assert FreeIn(Freed(s, con).connection) == FreeIn(s.connection) + {con};
  }

  lemma {:induction false} TakenIsTaken(s: System, con: int, r: nat)
    requires CacheGood(s) && IsFree(s, con)
    ensures CacheGood(Taken(s, con, r))
  {
    assert FreeIn(Taken(s, con, r).connection) == FreeIn(s.connection) - {con};
  }

  lemma {:induction false} CacheStaysGood(s: System, step: Step)
    requires Invariant(s) && Enabled(s, step)
    ensures CacheGood(Do(s, step))
  {
    hide UsesRight, Placed, MutexGood;
    if step.Lease? || step.LeaseSecond? {
      TakenIsTaken(s, step.con, step.r);
    } else if step.FreeSecond? || step.GiveBack? || step.FreeOwn? {
      GivenBackIsFree(s, step);
    } else if step.Open? && step.con !in s.connection {
      var connection := s.connection[step.con := true];
      assert (set c | c in connection && connection[c]) == FreeIn(connection);
    }
  }

  lemma {:induction false} GivenBackIsFree(s: System, step: Step)
    requires Invariant(s) && Enabled(s, step) && (step.FreeSecond? || step.GiveBack? || step.FreeOwn?)
    ensures CacheGood(Do(s, step))
  {
    hide UsesRight, Placed, MutexGood;
    var q := s.requests[step.r];
    var con := if step.FreeSecond? then q.second else q.con;
    assert RequestGood(s, step.r, q) && con in Holds(q);
    FreedIsFree(s, con);
    assert Resources(s, step) == Freed(s, con);
  }

  lemma {:induction false} OthersHoldRight(s: System, step: Step, r: nat)
    requires Invariant(s) && Enabled(s, step) && r in s.requests && (step.Open? || r != step.r)
    ensures HoldsRight(Do(s, step), r, s.requests[r])
  {
    hide UsesRight, Uses, Next, Placed, MutexGood;
    assert RequestGood(s, r, s.requests[r]);
    if !step.Open? && step.r in s.requests {
      assert RequestGood(s, step.r, s.requests[step.r]);
    }
  }

  lemma {:induction false} TakingHoldsRight(s: System, step: Step)
    requires Invariant(s) && Enabled(s, step) && (step.Lease? || step.LeaseSecond?)
    ensures HoldsRight(Do(s, step), step.r, Do(s, step).requests[step.r])
  {
    hide UsesRight, Uses, MutexGood, OwnersKnown;
    assert RequestGood(s, step.r, s.requests[step.r]);
  }

  lemma {:induction false} FreeingHoldsRight(s: System, step: Step)
    requires Invariant(s) && Enabled(s, step) && (step.FreeSecond? || step.GiveBack? || step.FreeOwn?)
    ensures HoldsRight(Do(s, step), step.r, Do(s, step).requests[step.r])
  {
    hide UsesRight, Uses, MutexGood, OwnersKnown;
    assert RequestGood(s, step.r, s.requests[step.r]);
  }

  lemma {:induction false} ArrivingHoldsRight(s: System, step: Step)
    requires Invariant(s) && Enabled(s, step) && step.Arrive?
    ensures HoldsRight(Do(s, step), step.r, Do(s, step).requests[step.r])
  {
    hide HoldsRight, UsesRight, Uses, MutexGood, Placed;
    NoOwner(Do(s, step), step.r);
  }

  lemma {:induction false} KeepingHoldsRight(s: System, step: Step)
    requires Invariant(s) && Enabled(s, step)
    requires step.Enter? || step.NoDecoder? || step.FindDecoder? || step.ReleaseDecoder? || step.Throw?
    ensures HoldsRight(Do(s, step), step.r, Do(s, step).requests[step.r])
  {
    hide UsesRight, Uses, MutexGood, OwnersKnown, CacheGood, Placed;
    assert RequestGood(s, step.r, s.requests[step.r]);
  }

  lemma {:induction false} NoOwner(s: System, r: nat)
    requires (forall c | c in s.owner :: s.owner[c] != r) && r in s.requests && Holds(s.requests[r]) == {}
    ensures HoldsRight(s, r, s.requests[r])
  {
  }

  lemma {:induction false} HoldsStaysRight(s: System, step: Step, r: nat)
    requires Invariant(s) && Enabled(s, step) && r in Do(s, step).requests
    ensures HoldsRight(Do(s, step), r, Do(s, step).requests[r])
  {
    hide Invariant, Holds, HoldsRight;
    if step.Open? || r != step.r {
      OthersHoldRight(s, step, r);
    } else if step.Lease? || step.LeaseSecond? {
      TakingHoldsRight(s, step);
    } else if step.FreeSecond? || step.GiveBack? || step.FreeOwn? {
      FreeingHoldsRight(s, step);
    } else if step.Arrive? {
      ArrivingHoldsRight(s, step);
    } else {
      KeepingHoldsRight(s, step);
    }
  }

  lemma {:induction false} OthersUseRight(s: System, step: Step, r: nat)
    requires Invariant(s) && Enabled(s, step) && r in s.requests && (step.Open? || r != step.r)
    ensures UsesRight(Do(s, step), r, s.requests[r])
  {
    hide HoldsRight, Holds, CacheGood, Next, Placed, MutexGood;
    assert RequestGood(s, r, s.requests[r]);
    if !step.Open? && step.r in s.requests {
      assert RequestGood(s, step.r, s.requests[step.r]);
    }
  }

  lemma {:induction false} OwnUsesRight(s: System, step: Step)
    requires Invariant(s) && Enabled(s, step) && !step.Open?
    ensures UsesRight(Do(s, step), step.r, Do(s, step).requests[step.r])
  {
    hide HoldsRight, Holds, CacheGood, Placed, MutexGood;
    if step.r in s.requests {
      assert RequestGood(s, step.r, s.requests[step.r]);
    }
  }

  lemma {:induction false} UsesStaysRight(s: System, step: Step, r: nat)
    requires Invariant(s) && Enabled(s, step) && r in Do(s, step).requests
    ensures UsesRight(Do(s, step), r, Do(s, step).requests[r])
  {
    hide Invariant, Uses, UsesRight;
    if step.Open? || r != step.r {
      OthersUseRight(s, step, r);
    } else {
      OwnUsesRight(s, step);
    }
  }

  lemma {:induction false} OthersStayPlaced(s: System, step: Step, r: nat)
    requires Invariant(s) && Enabled(s, step) && r in s.requests && (step.Open? || r != step.r)
    ensures Placed(Do(s, step), r, s.requests[r])
  {
    hide HoldsRight, UsesRight, CacheGood, OwnersKnown, Next;
    assert RequestGood(s, r, s.requests[r]);
    if !step.Open? && step.r in s.requests {
      assert RequestGood(s, step.r, s.requests[step.r]);
    }
  }

  lemma {:induction false} OwnStaysPlaced(s: System, step: Step)
    requires Invariant(s) && Enabled(s, step) && !step.Open?
    ensures Placed(Do(s, step), step.r, Do(s, step).requests[step.r])
  {
    hide UsesRight, OwnersKnown;
    if step.r in s.requests {
      assert RequestGood(s, step.r, s.requests[step.r]);
    }
  }

  lemma {:induction false} StaysPlaced(s: System, step: Step, r: nat)
    requires Invariant(s) && Enabled(s, step) && r in Do(s, step).requests
    ensures Placed(Do(s, step), r, Do(s, step).requests[r])
  {
    hide Invariant, Placed;
    if step.Open? || r != step.r {
      OthersStayPlaced(s, step, r);
    } else {
      OwnStaysPlaced(s, step);
    }
  }

  lemma {:induction false} OwnersStayKnown(s: System, step: Step)
    requires Invariant(s) && Enabled(s, step)
    ensures OwnersKnown(Do(s, step))
  {
    hide HoldsRight, UsesRight, Placed, CacheGood;
  }

  lemma {:induction false} MutexStaysGood(s: System, step: Step)
    requires Invariant(s) && Enabled(s, step)
    ensures MutexGood(Do(s, step))
  {
    hide HoldsRight, UsesRight, Placed, CacheGood, OwnersKnown;
  }

  lemma {:induction false} StepKeepsInvariant(s: System, step: Step)
    requires Invariant(s) && Enabled(s, step)
    ensures Invariant(Do(s, step))
  {
    hide HoldsRight, UsesRight, Placed, CacheGood, OwnersKnown, MutexGood, Enabled;
    CacheStaysGood(s, step);
    OwnersStayKnown(s, step);
    MutexStaysGood(s, step);
    forall r | r in Do(s, step).requests ensures RequestGood(Do(s, step), r, Do(s, step).requests[r]) {
      HoldsStaysRight(s, step, r);
      UsesStaysRight(s, step, r);
      StaysPlaced(s, step, r);
    }
  }

  /** Every interleaving of the requests keeps the invariant. */
  lemma {:induction false} RunKeepsInvariant(s: System, run: seq<Step>, s': System)
    requires Invariant(s) && Follows(s, run, s')
    ensures Invariant(s')
    decreases |run|
  {
    if run != [] {
      StepKeepsInvariant(s, run[0]);
      RunKeepsInvariant(Do(s, run[0]), run[1..], s');
    }
  }

  // ------------------------------------------------------------------- what follows from it

  lemma {:induction false} ReachedIsGood(run: seq<Step>, s: System)
    requires Reaches(run, s)
    ensures Invariant(s)
  {
    RunKeepsInvariant(INITIAL, run, s);
  }

  /** In no run is a connection held by two requests, or a held one free, and the count is always right; so
      a wait for a free connection that ends finds one. */
  lemma {:induction false} NeverLeasedTwice(run: seq<Step>, s: System)
    requires Reaches(run, s)
    ensures forall r, q, c | r in s.requests && q in s.requests && c in Holds(s.requests[r])
        && c in Holds(s.requests[q]) :: r == q
    ensures forall r, c | r in s.requests && c in Holds(s.requests[r]) :: c in s.connection && !IsFree(s, c)
    ensures s.nFree == |FreeIn(s.connection)|
    ensures s.nFree > 0 ==> exists c :: IsFree(s, c)
  {
    ReachedIsGood(run, s);
    hide UsesRight, Placed;
    forall r, q, c | r in s.requests && q in s.requests && c in Holds(s.requests[r]) && c in Holds(s.requests[q])
      ensures r == q
    {
      assert RequestGood(s, r, s.requests[r]) && RequestGood(s, q, s.requests[q]);
    }
    forall r, c | r in s.requests && c in Holds(s.requests[r]) ensures c in s.connection && !IsFree(s, c) {
      assert RequestGood(s, r, s.requests[r]);
    }
    if s.nFree > 0 {
      Sets.HasElement(FreeIn(s.connection));
      var c: int :| c in FreeIn(s.connection);
      assert IsFree(s, c);
    }
  }

  /** Each decoder in use is used by one request. */
  lemma {:induction false} DecodersNotShared(run: seq<Step>, s: System)
    requires Reaches(run, s)
    ensures forall r, q, d | r in s.requests && q in s.requests && d in Uses(s.requests[r])
        && d in Uses(s.requests[q]) :: r == q
    ensures forall d | d in s.user :: exists r :: r in s.requests && d in Uses(s.requests[r])
  {
    ReachedIsGood(run, s);
    hide HoldsRight, Placed, CacheGood;
    forall r, q, d | r in s.requests && q in s.requests && d in Uses(s.requests[r]) && d in Uses(s.requests[q])
      ensures r == q
    {
      assert RequestGood(s, r, s.requests[r]) && RequestGood(s, q, s.requests[q]);
    }
    OwnersHold(s);
  }

  /** Who has leased a connection holds it, and who uses a decoder has it. */
  lemma {:induction false} OwnersHold(s: System)
    requires Invariant(s)
    ensures forall c | c in s.owner :: s.owner[c] in s.requests && c in Holds(s.requests[s.owner[c]])
    ensures forall d | d in s.user :: s.user[d] in s.requests && d in Uses(s.requests[s.user[d]])
  {
    hide Placed, CacheGood, MutexGood;
    forall c | c in s.owner ensures c in Holds(s.requests[s.owner[c]]) {
      assert RequestGood(s, s.owner[c], s.requests[s.owner[c]]);
    }
    forall d | d in s.user ensures d in Uses(s.requests[s.user[d]]) {
      assert RequestGood(s, s.user[d], s.requests[s.user[d]]);
    }
  }

  lemma {:induction false} ThrownLoses(run: seq<Step>, s: System, r: nat)
    requires Reaches(run, s) && r in s.requests && s.requests[r].Thrown?
    ensures var con := s.requests[r].con; con in s.connection && !s.connection[con]
  {
    ReachedIsGood(run, s);
    hide UsesRight, Placed, MutexGood, Reaches;
    assert RequestGood(s, r, s.requests[r]) && s.requests[r].con in Holds(s.requests[r]);
  }

  lemma {:induction false} LostToItsOwner(run: seq<Step>, s: System, c: int)
    requires Reaches(run, s) && c in s.connection && !s.connection[c]
    ensures c in s.owner && s.owner[c] in s.requests && c in Holds(s.requests[s.owner[c]])
  {
    ReachedIsGood(run, s);
    OwnersHold(s);
  }

  /** When every request has returned or thrown, a connection is missing exactly for each that has thrown. */
  lemma {:induction false} OnlyThrownLose(run: seq<Step>, s: System)
    requires Reaches(run, s)
    requires forall r | r in s.requests :: s.requests[r].Ended? || s.requests[r].Thrown?
    ensures forall c | c in s.connection ::
              !s.connection[c] <==> exists r :: r in s.requests && s.requests[r].Thrown? && s.requests[r].con == c
  {
    hide Reaches;
    forall c | c in s.connection && !s.connection[c]
      ensures exists r :: r in s.requests && s.requests[r].Thrown? && s.requests[r].con == c
    {
      LostToItsOwner(run, s, c);
      assert s.requests[s.owner[c]].Thrown?;
    }
    forall r | r in s.requests && s.requests[r].Thrown? ensures !IsFree(s, s.requests[r].con) {
      ThrownLoses(run, s, r);
    }
  }

  /** When every request has returned, every connection is free and no decoder in use. */
  lemma {:induction false} AllBackWhenEnded(run: seq<Step>, s: System)
    requires Reaches(run, s) && forall r | r in s.requests :: s.requests[r].Ended?
    ensures s.user == map[] && s.nFree == |s.connection| && forall c | c in s.connection :: s.connection[c]
  {
    ReachedIsGood(run, s);
    OwnersHold(s);
    hide Placed, HoldsRight, UsesRight;
    forall c | c in s.connection ensures s.connection[c] {
    }
    assert FreeIn(s.connection) == s.connection.Keys;
    assert forall d: nat :: d !in s.user;
  }

  // ------------------------------------------------- a refresh that waits for its connection

  /** The request is in the mutex and has to refresh the parameters before it goes on. */
  predicate Refreshes(s: System, r: nat) {
    r in s.requests && s.requests[r].Looking? && s.requests[r].due
  }

  /** A connection is free, or with a request that gives it back without entering the mutex. */
  predicate ConnectionComes(s: System) {
    || (exists c | c in s.connection :: s.connection[c])
    || (exists q | q in s.requests :: s.requests[q].Decoding? || s.requests[q].Leaving?)
  }

  ghost predicate Blocked(s: System, r: nat) { Refreshes(s, r) && !ConnectionComes(s) }

  ghost predicate NoneOpened(run: seq<Step>) { forall step | step in run :: !step.Open? }

  ghost predicate OnlyArrivals(run: seq<Step>) { forall step | step in run :: step.Arrive? }

  /** Some way on, without a new connection, lets the request lease its second connection. */
  ghost predicate CanGoOn(s: System, r: nat) {
    exists more, s', c :: NoneOpened(more) && Follows(s, more, s') && Enabled(s', LeaseSecond(r, c))
  }

  /** A refresh can go on if and only if a connection is free, or held by a request that is decoding or has
      found no decoder. Requests that wait for the mutex, and those that have thrown, never give theirs back. */
  lemma {:induction false} RefreshGoesOnIff(run: seq<Step>, s: System, r: nat)
    requires Reaches(run, s) && Refreshes(s, r)
    ensures CanGoOn(s, r) <==> ConnectionComes(s)
  {
    ReachedIsGood(run, s);
    if ConnectionComes(s) {
      ComingConnection(s, r);
    } else if CanGoOn(s, r) {
      var more, s', c :| NoneOpened(more) && Follows(s, more, s') && Enabled(s', LeaseSecond(r, c));
      BlockedForEver(s, r, more, s');
    }
  }

  lemma {:induction false} ComingConnection(s: System, r: nat)
    requires Invariant(s) && Refreshes(s, r) && ConnectionComes(s)
    ensures CanGoOn(s, r)
  {
    hide Invariant;
    if c :| c in s.connection && s.connection[c] {
      FreeConnection(s, c, r);
      GoesOn(s, [], s, r, c);
    } else {
      var q :| q in s.requests && (s.requests[q].Decoding? || s.requests[q].Leaving?);
      var step := Return(s, q);
      var s', c := Do(s, step), s.requests[q].con;
      GivesBack(s, q, r);
      OneStep(s, step);
      StepKeepsInvariant(s, step);
      FreeConnection(s', c, r);
      GoesOn(s, [step], s', r, c);
    }
  }

  lemma {:induction false} GoesOn(s: System, more: seq<Step>, s': System, r: nat, c: int)
    requires NoneOpened(more) && Follows(s, more, s') && Enabled(s', LeaseSecond(r, c))
    ensures CanGoOn(s, r)
  {
  }

  lemma {:induction false} OneStep(s: System, step: Step)
    requires Enabled(s, step)
    ensures Follows(s, [step], Do(s, step))
  {
    assert [step][1..] == [];
  }

  /** How a request gives its connection back without entering the mutex. */
  function Return(s: System, q: nat): Step
    requires q in s.requests
  {
    if s.requests[q].Leaving? then GiveBack(q) else FreeOwn(q, false)
  }

  lemma {:induction false} FreeConnection(s: System, c: int, r: nat)
    requires Invariant(s) && IsFree(s, c) && Refreshes(s, r)
    ensures Enabled(s, LeaseSecond(r, c))
  {
    hide RequestGood, OwnersKnown, MutexGood;
    assert c in FreeIn(s.connection);
  }

  lemma {:induction false} GivesBack(s: System, q: nat, r: nat)
    requires Invariant(s) && q in s.requests && (s.requests[q].Decoding? || s.requests[q].Leaving?)
    requires Refreshes(s, r)
    ensures Enabled(s, Return(s, q)) && IsFree(Do(s, Return(s, q)), s.requests[q].con)
    ensures Refreshes(Do(s, Return(s, q)), r)
  {
    hide UsesRight, Placed, OwnersKnown, MutexGood;
    assert RequestGood(s, q, s.requests[q]) && s.requests[q].con in Holds(s.requests[q]);
  }

  /** Behind a blocked refresh everything stands still: nothing can happen but arrivals. */
  lemma {:induction false} BlockedStep(s: System, r: nat, step: Step)
    requires Invariant(s) && Blocked(s, r) && Enabled(s, step) && !step.Open?
    ensures step.Arrive? && Blocked(Do(s, step), r)
  {
    hide HoldsRight, UsesRight, OwnersKnown, CacheGood;
    assert RequestGood(s, r, s.requests[r]) && s.mutex == {r};
    if !step.Arrive? {
      InMutexIsOne(s, r, step.r);
      assert false;
    }
    assert step.r != r;
  }

  lemma {:induction false} InMutexIsOne(s: System, r: nat, q: nat)
    requires Invariant(s) && r in s.requests && InMutex(s.requests[r]) && q in s.requests
    ensures s.mutex == {r} && (InMutex(s.requests[q]) ==> q == r)
  {
    hide HoldsRight, UsesRight, OwnersKnown, CacheGood;
    assert RequestGood(s, r, s.requests[r]) && RequestGood(s, q, s.requests[q]);
  }

  lemma {:induction false} BlockedForEver(s: System, r: nat, more: seq<Step>, s': System)
    requires Invariant(s) && Blocked(s, r) && NoneOpened(more) && Follows(s, more, s')
    ensures Blocked(s', r) && OnlyArrivals(more) && forall c :: !Enabled(s', LeaseSecond(r, c))
    decreases |more|
  {
    hide Blocked, Invariant, Enabled;
    if more != [] {
      BlockedStep(s, r, more[0]);
      StepKeepsInvariant(s, more[0]);
      BlockedForEver(Do(s, more[0]), r, more[1..], s');
    } else {
      BlockedNow(s, r);
    }
  }

  lemma {:induction false} BlockedNow(s: System, r: nat)
    requires Blocked(s, r)
    ensures forall c :: !Enabled(s, LeaseSecond(r, c))
  {
  }

  /** With a single connection a refresh inside a request is always blocked ... */
  lemma {:induction false} RefreshNeedsSecondConnection(run: seq<Step>, s: System, r: nat)
    requires Reaches(run, s) && Refreshes(s, r) && |s.connection| <= 1
    ensures Blocked(s, r) && !CanGoOn(s, r)
  {
    RefreshGoesOnIff(run, s, r);
    ReachedIsGood(run, s);
    hide Reaches, CanGoOn;
    NoOtherConnection(s, r);
  }

  lemma {:induction false} NoOtherConnection(s: System, r: nat)
    requires Invariant(s) && Refreshes(s, r) && |s.connection| <= 1
    ensures !ConnectionComes(s)
  {
    hide UsesRight, Placed, OwnersKnown, MutexGood;
    var own := s.requests[r].con;
    assert RequestGood(s, r, s.requests[r]) && own in Holds(s.requests[r]);
    forall c | c in s.connection ensures c == own {
      Sets.SubsetIsSmaller({own, c}, s.connection.Keys);
    }
    forall q | q in s.requests && Holds(s.requests[q]) != {} ensures q == r {
      assert RequestGood(s, q, s.requests[q]);
      var c :| c in Holds(s.requests[q]);
      assert c == own;
    }
  }

  /** ... and no number of connections is enough: as many requests at the same time block it. */
  lemma {:induction false} EveryCacheCanBlock(n: nat)
    requires n > 0
    ensures exists run, s :: Reaches(run, s) && |s.connection| == n && |s.requests| == n && Blocked(s, 0)
  {
    var run, full := FillingRun(n), Full(n);
    FillingRunFills(n);
    FullMeans(n);
    var s := Do(full, Enter(0, true));
    OneStep(full, Enter(0, true));
    Joined(INITIAL, run, full, [Enter(0, true)], s);
    assert Blocked(s, 0);
    assert Reaches(run + [Enter(0, true)], s);
  }

  function AllLeased(n: nat): map<int, bool> { if n == 0 then map[] else AllLeased(n - 1)[n - 1 := false] }

  function AllWaiting(n: nat): map<nat, Request> {
    if n == 0 then map[] else AllWaiting(n - 1)[n - 1 := Leased(n - 1, 0)]
  }

  function OneEach(n: nat): map<int, nat> { if n == 0 then map[] else OneEach(n - 1)[n - 1 := n - 1] }

  /** n requests wait for the mutex with a connection each, which are all there are. */
  function Full(n: nat): System { System(AllLeased(n), 0, AllWaiting(n), {}, OneEach(n), map[]) }

  lemma {:induction false} FullMeans(n: nat)
    ensures |AllLeased(n)| == n && forall c :: c in AllLeased(n) <==> 0 <= c < n
    ensures |AllWaiting(n)| == n && forall r: nat :: r in AllWaiting(n) <==> r < n
    ensures forall c | c in AllLeased(n) :: !AllLeased(n)[c]
    ensures forall r | r in AllWaiting(n) :: AllWaiting(n)[r] == Leased(r, 0)
  {
    if n > 0 {
      FullMeans(n - 1);
    }
  }

  ghost function FillingRun(n: nat): seq<Step> {
    if n == 0 then [] else FillingRun(n - 1) + [Open(n - 1), Arrive(n - 1), Lease(n - 1, n - 1)]
  }

  lemma {:induction false} FillingRunFills(n: nat)
    ensures Follows(INITIAL, FillingRun(n), Full(n))
  {
    hide Follows;
    if n == 0 {
      NoSteps(INITIAL);
    } else {
      FillingRunFills(n - 1);
      OneMore(n - 1);
      Joined(INITIAL, FillingRun(n - 1), Full(n - 1), [Open(n - 1), Arrive(n - 1), Lease(n - 1, n - 1)], Full(n));
    }
  }

  lemma {:induction false} NoSteps(s: System)
    ensures Follows(s, [], s)
  {
  }

  lemma {:induction false} OneIsFree(n: nat)
    ensures var connection := AllLeased(n)[n := true];
            && n !in AllLeased(n) && n !in AllWaiting(n)
            && Count(connection) == 1 && connection[n := false] == AllLeased(n + 1)
  {
    FullMeans(n);
    var connection := AllLeased(n)[n := true];
    var free := set c | c in connection && connection[c];
    forall c ensures c in free <==> c == n {
    }
    assert free == {n};
    assert connection[n := false] == AllLeased(n)[n := false];
  }

  lemma {:induction false} OneMore(n: nat)
    ensures Follows(Full(n), [Open(n), Arrive(n), Lease(n, n)], Full(n + 1))
  {
    hide Follows;
    var connection := AllLeased(n)[n := true];
    OneIsFree(n);
    hide AllLeased, Count;
    var s1 := Full(n).(connection := connection, nFree := 1);
    var s2 := s1.(requests := AllWaiting(n)[n := Waiting(0)]);
    assert Do(Full(n), Open(n)) == s1 && Do(s1, Arrive(n)) == s2;
    assert s2.requests[n := Leased(n, 0)] == AllWaiting(n + 1);
    assert Do(s2, Lease(n, n)) == Full(n + 1);
    OneStep(s2, Lease(n, n));
    OneStep(s1, Arrive(n));
    OneStep(Full(n), Open(n));
    Joined(s1, [Arrive(n)], s2, [Lease(n, n)], Full(n + 1));
    Joined(Full(n), [Open(n)], s1, [Arrive(n)] + [Lease(n, n)], Full(n + 1));
    assert [Open(n)] + ([Arrive(n)] + [Lease(n, n)]) == [Open(n), Arrive(n), Lease(n, n)];
  }

  lemma {:induction false} Joined(s: System, run: seq<Step>, s1: System, more: seq<Step>, s2: System)
    requires Follows(s, run, s1) && Follows(s1, more, s2)
    ensures Follows(s, run + more, s2)
    decreases |run|
  {
    hide Enabled;
    if run == [] {
      assert run + more == more;
    } else {
      assert (run + more)[1..] == run[1..] + more;
      Joined(Do(s, run[0]), run[1..], s1, more, s2);
    }
  }
}
