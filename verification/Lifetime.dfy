/** The life of the iterators under every interleaving of their creation, client calls, destroy, the
    object adapter and the reaper. Each step is one locked region of the source. */
module Lifetime {

  /** The iterator's own mutex: free, or held by a running next, which goes on to read the request list
      only when it found the connection and the iterator active. */
  datatype Lock = Free | Next(reading: bool)

  /** One iterator. The reference count is the servant's; `released` counts how often its database
      connection has been given back. */
  datatype Iterator = Iterator(refs: nat, active: bool, poa: bool, inList: bool, calls: nat, lock: Lock,
                               dbCon: bool, whichData: bool, released: nat, freed: bool)

  /** How far the reaper has come with the object it has taken off the list. */
  datatype Reaper = Idle | Erased(id: nat) | Cleaned(id: nat)

  datatype System = System(objs: map<nat, Iterator>, reaper: Reaper)

  datatype Step =
    | Create(id: nat)          // new DataIteratorImpl, holding the creator's reference
    | Activate(id: nat)        // activate_object: the adapter adds a reference
    | ActivateFails(id: nat)   // ... or throws, and the creator deletes the object
    | AddReaperObj(id: nat)    // the list adds a reference
    | BeginCall(id: nat)       // the adapter dispatches a client call
    | BeginNext(id: nat)       // next takes the mutex
    | EndNext(id: nat)
    | Destroy(id: nat)         // destroy: release the connection, deactivate
    | EndCall(id: nat)
    | PoaLetsGo(id: nat)       // after deactivation and the last call the adapter drops its reference
    | Timeout(id: nat)         // the reaper deactivates an object on the list
    | Erase(id: nat)           // the reaper takes a deactivated object off the list
    | CleanUp(id: nat)         // ... waits for its mutex and cleans it up
    | RemoveRef(id: nat)       // ... and drops the list's reference

  const FRESH := Iterator(1, true, false, false, 0, Free, true, true, 0, false)

  /** The destructor. */
  function Destruct(o: Iterator): Iterator {
    o.(freed := true, whichData := false, dbCon := false, released := if o.dbCon then o.released + 1 else o.released)
  }

  function Unref(o: Iterator): Iterator
    requires o.refs > 0
  {
    var o' := o.(refs := o.refs - 1);
    if o'.refs == 0 then Destruct(o') else o'
  }

  function ReleaseConnection(o: Iterator): Iterator {
    if o.dbCon then o.(dbCon := false, released := o.released + 1) else o
  }

  /** ReaperBase::deactivate: the creator's reference goes, while the caller still holds one of its own. */
  function Deactivate(o: Iterator): Iterator {
    if o.active && o.refs > 0 then Unref(o).(active := false) else o
  }

  predicate Enabled(s: System, step: Step) {
    if step.Create? then step.id !in s.objs
    else
      && step.id in s.objs
      && var o := s.objs[step.id];
         match step
         case Create(_) => false
         case Activate(_) => o.active && !o.poa && !o.inList
         case ActivateFails(_) => o.active && !o.poa && !o.inList
         case AddReaperObj(_) => o.active && o.poa && !o.inList
         case BeginCall(_) => o.poa && o.active && o.inList
         case BeginNext(_) => o.calls > 0 && o.lock.Free?
         case EndNext(_) => o.lock.Next?
         case Destroy(_) => o.calls > 0 && o.lock.Free?
         case EndCall(_) => o.calls > 0 && (o.lock.Next? ==> o.calls > 1)
         case PoaLetsGo(_) => o.poa && !o.active && o.calls == 0
         case Timeout(_) => o.inList && o.active && s.reaper.Idle?
         case Erase(_) => o.inList && !o.active && s.reaper.Idle?
         case CleanUp(_) => s.reaper == Erased(step.id) && o.lock.Free?
         case RemoveRef(_) => s.reaper == Cleaned(step.id)
  }

  function After(o: Iterator, step: Step): Iterator {
    match step
    case Create(_) => o
    case Activate(_) => o.(poa := true, refs := o.refs + 1)
    case ActivateFails(_) => Destruct(o).(refs := 0, active := false)
    case AddReaperObj(_) => o.(inList := true, refs := o.refs + 1)
    case BeginCall(_) => o.(calls := o.calls + 1)
    case BeginNext(_) => o.(lock := Next(o.dbCon && o.active))
    case EndNext(_) => o.(lock := Free)
    case Destroy(_) => Deactivate(ReleaseConnection(o))
    case EndCall(_) => if o.calls > 0 then o.(calls := o.calls - 1) else o
    case PoaLetsGo(_) => if o.refs > 0 then Unref(o.(poa := false)) else o
    case Timeout(_) => Deactivate(o)
    case Erase(_) => o.(inList := false)
    case CleanUp(_) => ReleaseConnection(o).(whichData := false)
    case RemoveRef(_) => if o.refs > 0 then Unref(o) else o
  }

  function Do(s: System, step: Step): System
    requires Enabled(s, step)
  {
    var o := if step.Create? then FRESH else After(s.objs[step.id], step);
    var reaper := match step
                  case Erase(id) => Erased(id)
                  case CleanUp(id) => Cleaned(id)
                  case RemoveRef(_) => Idle
                  case _ => s.reaper;
    System(s.objs[step.id := o], reaper)
  }

  // -------------------------------------------------------------------- the invariant

  predicate ReaperHolds(s: System, id: nat) { s.reaper == Erased(id) || s.reaper == Cleaned(id) }

  function One(b: bool): nat { if b then 1 else 0 }

  /** Who holds a reference: the creator while the object is active, the adapter, and the reaper's list
      (or the reaper itself, once the object is off the list). */
  function Holders(s: System, id: nat, o: Iterator): nat {
    One(o.active) + One(o.poa) + One(o.inList) + One(ReaperHolds(s, id))
  }

  predicate Good(s: System, id: nat, o: Iterator) {
    && o.refs == Holders(s, id, o)
    && (o.freed <==> o.refs == 0)
    // the connection is given back once at most, and once by the time the object is freed
    && o.released == (if o.dbCon then 0 else 1)
    && (o.freed ==> !o.dbCon)
    // without a request list there is no connection, so next never reads a deleted list
    && (!o.whichData ==> !o.dbCon)
    && (o.lock == Next(true) ==> o.dbCon && o.whichData)
    && (o.lock.Next? ==> o.calls > 0)
    && (o.calls > 0 ==> o.poa)
    && (o.inList ==> o.active || !ReaperHolds(s, id))
    && (o.active ==> !ReaperHolds(s, id))
    && (ReaperHolds(s, id) ==> !o.inList)
  }

  ghost predicate Invariant(s: System) {
    && (forall id | id in s.objs :: Good(s, id, s.objs[id]))
    && (!s.reaper.Idle? ==> s.reaper.id in s.objs)
  }

  const INITIAL := System(map[], Idle)

  /** run leads from s to s'. */
  ghost predicate Follows(s: System, run: seq<Step>, s': System)
    decreases |run|
  {
    if run == [] then s' == s else Enabled(s, run[0]) && Follows(Do(s, run[0]), run[1..], s')
  }

  ghost predicate Reaches(run: seq<Step>, s: System) { Follows(INITIAL, run, s) }

  lemma {:induction false} StepKeepsInvariant(s: System, step: Step)
    requires Invariant(s) && Enabled(s, step)
    ensures Invariant(Do(s, step))
  {
    var s' := Do(s, step);
    forall id | id in s'.objs ensures Good(s', id, s'.objs[id]) {
      if id == step.id {
        TargetStaysGood(s, step);
      } else {
        assert Good(s, id, s.objs[id]);
        OthersUntouched(s, step, id);
      }
    }
  }

  lemma {:induction false} TargetStaysGood(s: System, step: Step)
    requires Invariant(s) && Enabled(s, step)
    ensures Good(Do(s, step), step.id, Do(s, step).objs[step.id])
  {
    if !step.Create? {
      assert Good(s, step.id, s.objs[step.id]);
    }
  }

  lemma {:induction false} OthersUntouched(s: System, step: Step, id: nat)
    requires Invariant(s) && Enabled(s, step) && id in s.objs && id != step.id
    ensures Do(s, step).objs[id] == s.objs[id] && ReaperHolds(Do(s, step), id) == ReaperHolds(s, id)
  {
  }

  /** Every run keeps the invariant ... */
  lemma {:induction false} FollowsKeepsInvariant(s: System, run: seq<Step>, s': System)
    requires Invariant(s) && Follows(s, run, s')
    ensures Invariant(s')
    decreases |run|
  {
    if run != [] {
      StepKeepsInvariant(s, run[0]);
      FollowsKeepsInvariant(Do(s, run[0]), run[1..], s');
    }
  }

  /** ... so every reachable state satisfies it. */
  lemma {:induction false} RunKeepsInvariant(run: seq<Step>, s: System)
    requires Reaches(run, s)
    ensures Invariant(s)
  {
    FollowsKeepsInvariant(INITIAL, run, s);
  }

  // ------------------------------------------------------------------- what follows from it

  /** In no run is a freed object touched again: whatever step is possible finds its object alive, and
      neither destroy nor a timeout drops the last reference while it still works on the object. */
  lemma {:induction false} NeverFreedInUse(run: seq<Step>, s: System, step: Step)
    requires Reaches(run, s) && Enabled(s, step) && !step.Create?
    ensures !s.objs[step.id].freed
    ensures step.Destroy? || step.Timeout? ==> !Do(s, step).objs[step.id].freed
  {
    RunKeepsInvariant(run, s);
    assert Good(s, step.id, s.objs[step.id]);
    StepKeepsInvariant(s, step);
    assert Good(Do(s, step), step.id, Do(s, step).objs[step.id]);
  }

  /** A next that goes on to read the request list has the list and the connection until it ends. */
  lemma {:induction false} NextReadsLiveData(run: seq<Step>, s: System, id: nat)
    requires Reaches(run, s) && id in s.objs && s.objs[id].lock == Next(true)
    ensures s.objs[id].whichData && s.objs[id].dbCon && !s.objs[id].freed
  {
    RunKeepsInvariant(run, s);
    assert Good(s, id, s.objs[id]);
  }

  /** Every iterator that is gone has given its connection back exactly once, and every iterator nobody
      holds any more is gone: not active, let go by the adapter, off the list and out of the reaper. */
  lemma {:induction false} ConnectionReturnedOnce(run: seq<Step>, s: System, id: nat)
    requires Reaches(run, s) && id in s.objs
    ensures s.objs[id].released <= 1
    ensures s.objs[id].freed ==> s.objs[id].released == 1
    ensures s.objs[id].freed <==> !s.objs[id].active && !s.objs[id].poa && !s.objs[id].inList && !ReaperHolds(s, id)
  {
    RunKeepsInvariant(run, s);
    assert Good(s, id, s.objs[id]);
  }

  /** A deactivated object on an idle reaper's list goes through the reaper's three steps. */
  lemma {:induction false} ReaperFrees(s: System, id: nat) returns (s': System)
    requires Invariant(s) && id in s.objs && s.reaper.Idle?
    requires var o := s.objs[id]; !o.active && !o.poa && o.inList && o.lock.Free?
    ensures Follows(s, [Erase(id), CleanUp(id), RemoveRef(id)], s')
    ensures id in s'.objs && s'.objs[id].freed && s'.objs[id].released == 1
  {
    assert Good(s, id, s.objs[id]);
    var a, b, c := Erase(id), CleanUp(id), RemoveRef(id);
    var s1 := Do(s, a);
    var s2 := Do(s1, b);
    s' := Do(s2, c);
    ThreeSteps(s, a, b, c);
    assert s2.objs[id].refs == 1;
  }

  lemma {:induction false} ThreeSteps(s: System, a: Step, b: Step, c: Step)
    requires Enabled(s, a) && Enabled(Do(s, a), b) && Enabled(Do(Do(s, a), b), c)
    ensures Follows(s, [a, b, c], Do(Do(Do(s, a), b), c))
  {
    assert [a, b, c][1..] == [b, c] && [b, c][1..] == [c] && [c][1..] == [];
    assert Follows(Do(Do(s, a), b), [c], Do(Do(Do(s, a), b), c));
    assert Follows(Do(s, a), [b, c], Do(Do(Do(s, a), b), c));
  }

  /** With no call in progress and an idle reaper, four steps at most free a deactivated object. */
  lemma {:induction false} RestingCanBeFreed(s: System, id: nat) returns (run: seq<Step>, s': System)
    requires Invariant(s) && id in s.objs && !s.objs[id].active && s.objs[id].calls == 0 && s.reaper.Idle?
    ensures |run| <= 4 && Follows(s, run, s')
    ensures id in s'.objs && s'.objs[id].freed && s'.objs[id].released == 1
  {
    assert Good(s, id, s.objs[id]);
    var atEnd := s;
    if s.objs[id].poa {
      atEnd := Do(s, PoaLetsGo(id));
      StepKeepsInvariant(s, PoaLetsGo(id));
      assert Good(atEnd, id, atEnd.objs[id]);
    }
    run, s' := [], atEnd;
    if atEnd.objs[id].inList {
      s' := ReaperFrees(atEnd, id);
      run := [Erase(id), CleanUp(id), RemoveRef(id)];
    }
    if s.objs[id].poa {
      assert ([PoaLetsGo(id)] + run)[1..] == run;
      run := [PoaLetsGo(id)] + run;
    }
  }

  lemma {:induction false} Chain(s: System, a: seq<Step>, s1: System, b: seq<Step>, s2: System)
    requires Follows(s, a, s1) && Follows(s1, b, s2)
    ensures Follows(s, a + b, s2)
    decreases |a|
  {
    if a == [] {
      assert a + b == b;
    } else {
      assert (a + b)[1..] == a[1..] + b;
      Chain(Do(s, a[0]), a[1..], s1, b, s2);
    }
  }

  lemma {:induction false} OneStep(s: System, step: Step)
    requires Enabled(s, step)
    ensures Follows(s, [step], Do(s, step))
  {
    assert [step][1..] == [];
  }

  /** The object stays deactivated, and no new call begins. */
  ghost predicate StillQuiet(s: System, s': System, id: nat) {
    id in s.objs && id in s'.objs && !s'.objs[id].active && s'.objs[id].calls <= s.objs[id].calls
  }

  /** A running next can end, whichever object it belongs to. */
  lemma {:induction false} EndRunning(s: System, x: nat, id: nat) returns (run: seq<Step>, s': System)
    requires Invariant(s) && x in s.objs && id in s.objs && !s.objs[id].active
    ensures |run| <= 1 && Follows(s, run, s') && Invariant(s') && StillQuiet(s, s', id)
    ensures x in s'.objs && s'.objs[x].lock.Free? && s'.reaper == s.reaper
  {
    run, s' := [], s;
    if s.objs[x].lock.Next? {
      StepKeepsInvariant(s, EndNext(x));
      OneStep(s, EndNext(x));
      run, s' := [EndNext(x)], Do(s, EndNext(x));
    }
  }

  lemma {:induction false} CleanTaken(s: System, x: nat, id: nat) returns (run: seq<Step>, s': System)
    requires Invariant(s) && x in s.objs && s.reaper == Erased(x) && id in s.objs && !s.objs[id].active
    ensures |run| <= 2 && Follows(s, run, s') && Invariant(s') && StillQuiet(s, s', id)
    ensures s'.reaper == Cleaned(x) && x in s'.objs
  {
    hide Good, Invariant, Follows;
    var free;
    run, free := EndRunning(s, x, id);
    StepKeepsInvariant(free, CleanUp(x));
    OneStep(free, CleanUp(x));
    Chain(s, run, free, [CleanUp(x)], Do(free, CleanUp(x)));
    run, s' := run + [CleanUp(x)], Do(free, CleanUp(x));
  }

  lemma {:induction false} DropTaken(s: System, x: nat, id: nat) returns (s': System)
    requires Invariant(s) && x in s.objs && s.reaper == Cleaned(x) && id in s.objs && !s.objs[id].active
    ensures Follows(s, [RemoveRef(x)], s') && Invariant(s') && StillQuiet(s, s', id) && s'.reaper.Idle?
  {
    hide Good, Invariant;
    s' := Do(s, RemoveRef(x));
    StepKeepsInvariant(s, RemoveRef(x));
    OneStep(s, RemoveRef(x));
  }

  /** The reaper can finish with the object it has taken off the list. */
  lemma {:induction false} FinishReaper(s: System, id: nat) returns (run: seq<Step>, s': System)
    requires Invariant(s) && id in s.objs && !s.objs[id].active
    ensures |run| <= 3 && Follows(s, run, s') && Invariant(s') && StillQuiet(s, s', id) && s'.reaper.Idle?
  {
    hide Good, Invariant;
    run, s' := [], s;
    if !s.reaper.Idle? {
      hide Follows, Do;
      var x := ReaperKnows(s);
      var cleaned := s;
      if s.reaper.Erased? {
        run, cleaned := CleanTaken(s, x, id);
      } else {
        NoStep(s);
      }
      s' := DropTaken(cleaned, x, id);
      Chain(s, run, cleaned, [RemoveRef(x)], s');
      run := run + [RemoveRef(x)];
    }
  }

  lemma {:induction false} NoStep(s: System)
    ensures Follows(s, [], s)
  {
  }

  lemma {:induction false} ReaperKnows(s: System) returns (x: nat)
    requires Invariant(s) && !s.reaper.Idle?
    ensures x == s.reaper.id && x in s.objs
  {
    x := s.reaper.id;
  }

  /** The calls in progress can end. */
  lemma {:induction false} EndCalls(s: System, id: nat) returns (run: seq<Step>, s': System)
    requires Invariant(s) && id in s.objs && !s.objs[id].active && s.objs[id].lock.Free? && s.reaper.Idle?
    ensures |run| == s.objs[id].calls && Follows(s, run, s') && Invariant(s') && StillQuiet(s, s', id)
    ensures s'.objs[id].calls == 0 && s'.reaper.Idle?
    decreases s.objs[id].calls
  {
    hide Good, Invariant;
    run, s' := [], s;
    if s.objs[id].calls > 0 {
      var step := EndCall(id);
      StepKeepsInvariant(s, step);
      OneStep(s, step);
      run, s' := EndCalls(Do(s, step), id);
      Chain(s, [step], Do(s, step), run, s');
      run := [step] + run;
    }
  }

  /** No deactivated object is stuck: in every reachable state, whatever is running on it and wherever the
      reaper is, a few steps can free it with its connection given back. */
  lemma {:induction false} InactiveCanBeFreed(s: System, id: nat) returns (run: seq<Step>, s': System)
    requires Invariant(s) && id in s.objs && !s.objs[id].active
    ensures |run| <= s.objs[id].calls + 8 && Follows(s, run, s')
    ensures id in s'.objs && s'.objs[id].freed && s'.objs[id].released == 1
  {
    hide Good, Invariant;
    var a, s1 := FinishReaper(s, id);
    var b, s2 := EndRunning(s1, id, id);
    Chain(s, a, s1, b, s2);
    var c, s3 := EndCalls(s2, id);
    Chain(s, a + b, s2, c, s3);
    var d, s4 := RestingCanBeFreed(s3, id);
    Chain(s, a + b + c, s3, d, s4);
    run, s' := a + b + c + d, s4;
  }

  // ------------------------------------------------------------- deleting a failed iterator

  /** getData deletes the iterator itself when its creation fails half-way. Before the activation that is
      sound. After it, the adapter keeps a reference to the deleted object. */
  function DeleteIterator(s: System, id: nat): System
    requires id in s.objs
  {
    s.(objs := s.objs[id := Destruct(s.objs[id]).(refs := 0, active := false)])
  }

  lemma {:induction false} DeleteSoundBeforeActivationOnly(s: System, id: nat)
    requires Invariant(s) && id in s.objs && s.objs[id].active && !s.objs[id].inList
    ensures Invariant(DeleteIterator(s, id)) <==> !s.objs[id].poa
  {
    var s' := DeleteIterator(s, id);
    assert Good(s, id, s.objs[id]);
    if s.objs[id].poa {
      assert !Good(s', id, s'.objs[id]);
    } else {
      forall k | k in s'.objs ensures Good(s', k, s'.objs[k]) {
        assert Good(s, k, s.objs[k]);
      }
    }
  }
}
