/** Database connections leased from a cache, and the decoders that use them, over a request that may be
    redirected from decoder to decoder. */
module Leases {
  import opened Requests
  import Sets

  ghost function FreeIn(connection: map<int, bool>): set<int> {
    set c | c in connection && connection[c]
  }

  class ConnectionCache {
    /** Each connection, and whether it is free. */
    var connection: map<int, bool>
    var nFree: int

    constructor ()
      ensures Valid() && connection == map[]
    {
      connection, nFree := map[], 0;
      new;
      assert FreeIn(map[]) == {};
    }

    ghost predicate Valid()
      reads this
    {
      nFree == |FreeIn(connection)|
    }

    /** By how many the count is too high. */
    ghost function Excess(): (e: int)
      reads this
      ensures e == 0 <==> Valid()
    {
      nFree - |FreeIn(connection)|
    }

    /** A known connection is left alone. A new one is free, and the free ones are counted again. */
    method AddConnection(con: int)
      modifies this
      ensures connection == if con in old(connection) then old(connection) else old(connection)[con := true]
      ensures con !in old(connection) ==> Valid()
      ensures con in old(connection) ==> nFree == old(nFree)
    {
      if con !in connection {
        connection := connection[con := true];
        nFree := 0;
        var rest := connection.Keys;
        assert FreeIn(connection) * rest == FreeIn(connection);
        while rest != {}
          invariant rest <= connection.Keys && connection == old(connection)[con := true]
          invariant nFree + |FreeIn(connection) * rest| == |FreeIn(connection)|
          decreases |rest|
        {
          Sets.HasElement(rest);
          var it: int :| it in rest;
          CountOne(FreeIn(connection), rest, it);
          if connection[it] {
            nFree := nFree + 1;
          }
          rest := rest - {it};
        }
        assert FreeIn(connection) * rest == {};
      }
    }

    /** Waits until the count says that a connection is free, and leases one. If none is, which a right count
        rules out, nothing is leased and the count is right again. */
    method FindFreeConnection() returns (con: Option<int>)
      requires nFree > 0
      modifies this
      ensures con.None? <==> FreeIn(old(connection)) == {}
      ensures con.None? ==> connection == old(connection) && nFree == 0 && Valid()
      ensures con.Some? ==>
                && con.value in FreeIn(old(connection)) && connection == old(connection)[con.value := false]
                && FreeIn(connection) == FreeIn(old(connection)) - {con.value} && Excess() == old(Excess())
      ensures old(Valid()) ==> con.Some? && Valid()
    {
      con := None;
      var rest := connection.Keys;
      while rest != {}
        invariant rest <= connection.Keys && nFree == old(nFree) && connection == old(connection)
        invariant FreeIn(connection) <= rest
        decreases |rest|
      {
        Sets.HasElement(rest);
        var it: int :| it in rest;
        if connection[it] {
          nFree := nFree - 1;
          connection := connection[it := false];
          assert it in FreeIn(old(connection)) && FreeIn(connection) == FreeIn(old(connection)) - {it};
          return Some(it);
        }
        rest := rest - {it};
      }
      nFree := 0;
    }

    /** Counts up whether or not the connection was leased. So the count stays right exactly when it was. */
    method FreeConnection(con: int) returns (known: bool)
      modifies this
      ensures known <==> con in old(connection)
      ensures connection == if known then old(connection)[con := true] else old(connection)
      ensures Excess() == old(Excess()) + if con in FreeIn(old(connection)) then 1 else 0
      ensures nFree == old(nFree) + if known then 1 else 0
      ensures FreeIn(connection) == if known then FreeIn(old(connection)) + {con} else FreeIn(old(connection))
    {
      known := con in connection;
      assert con in FreeIn(connection) ==> known;
      if known {
        connection := connection[con := true];
        nFree := nFree + 1;
        OneMoreFree(old(connection), con);
      }
    }
  }

  lemma {:induction false} OneMoreFree(connection: map<int, bool>, con: int)
    requires con in connection
    ensures FreeIn(connection[con := true]) == FreeIn(connection) + {con}
    ensures |FreeIn(connection[con := true])| == |FreeIn(connection)| + if con in FreeIn(connection) then 0 else 1
  {
    assert FreeIn(connection[con := true]) == FreeIn(connection) + {con};
    if con in FreeIn(connection) {
      assert FreeIn(connection) + {con} == FreeIn(connection);
    }
  }

  lemma {:induction false} CountOne(free: set<int>, rest: set<int>, it: int)
    requires it in rest
    ensures |free * rest| == |free * (rest - {it})| + if it in free then 1 else 0
  {
    if it in free {
      assert free * rest == free * (rest - {it}) + {it};
    } else {
      assert free * rest == free * (rest - {it});
    }
  }

  // ---------------------------------------------------------------------------- a request

  const MAX_REDIRECTS := 6

  datatype DecodeResult = Ok | NotSaved | Rejected | Error(noDecoder: bool) | Redirect(info: bool)

  /** How the parameters are refreshed before a decoder is looked up. */
  datatype Refresh = NotDue | Refreshed | SqlError | UnknownError

  /** What becomes of one decode: no decoder is found; the executor has been shut down, or gives the command
      back at shutdown; or it is decoded. */
  datatype Attempt = NoDecoder(refresh: Refresh) | NotExecuted(refresh: Refresh)
      | Decoded(refresh: Refresh, result: DecodeResult)

  datatype EResult = OK | NOTSAVED | ERROR | NODECODER | DECODEERROR

  datatype Outcome = Returned(res: EResult) | Threw

  /** The command holds its decoder, and the decoder its connection. */
  datatype Command = Command(con: int, decoder: nat)

  /** The request's own connection, and a second one when a refresh is due. */
  function Needed(a: Attempt): nat { if a.refresh.NotDue? then 1 else 2 }

  /** The connections a refresh counts twice. */
  function Miscount(refresh: Refresh): nat { if refresh.UnknownError? then 1 else 0 }

  function Miscounts(attempt: nat -> Attempt, n: nat): nat {
    if n == 0 then 0 else Miscounts(attempt, n - 1) + Miscount(attempt(n - 1).refresh)
  }

  predicate Redirected(a: Attempt) { a.Decoded? && a.result == Redirect(true) }

  /** Every one of the first n decodes redirects. */
  ghost predicate AllRedirect(attempt: nat -> Attempt, n: nat) { forall k | 0 <= k < n :: Redirected(attempt(k)) }

  function ResultOf(a: Attempt): EResult {
    match a
    case NoDecoder(_) => NODECODER
    case NotExecuted(_) => ERROR
    case Decoded(_, Ok) => OK
    case Decoded(_, NotSaved) => NOTSAVED
    case Decoded(_, Rejected) => DECODEERROR
    case Decoded(_, Error(noDecoder)) => if noDecoder then NODECODER else DECODEERROR
    case Decoded(_, Redirect(_)) => DECODEERROR
  }

  class DataSrcApp {
    const conCache: ConnectionCache
    /** The decoders in use, and the number of the next. */
    var decoders: set<nat>
    var nextDecoder: nat

    constructor (conCache: ConnectionCache)
      ensures this.conCache == conCache && decoders == {} && DecodersNumbered()
    {
      this.conCache, decoders, nextDecoder := conCache, {}, 0;
    }

    ghost predicate DecodersNumbered()
      reads this
    {
      forall d | d in decoders :: d < nextDecoder
    }

    ghost function Free(): set<int>
      reads this, conCache
    {
      FreeIn(conCache.connection)
    }

    ghost function Known(): set<int>
      reads conCache
    {
      conCache.connection.Keys
    }

    /** The count may be too high, never too low. */
    ghost predicate Counted()
      reads conCache
    {
      conCache.Excess() >= 0
    }

    method Lease() returns (con: int)
      requires Counted() && Free() != {}
      modifies conCache
      ensures conCache.Excess() == old(conCache.Excess()) && Known() == old(Known()) && con in Known()
      ensures con in old(Free()) && Free() == old(Free()) - {con}
    {
      assert |Free()| > 0;
      var found := conCache.FindFreeConnection();
      con := found.value;
    }

    /** A connection is given back; once too often, and it is counted twice. */
    method GiveBack(con: int)
      requires con in Known()
      modifies conCache
      ensures conCache.Excess() == old(conCache.Excess()) + if con in old(Free()) then 1 else 0
      ensures Known() == old(Known()) && Free() == old(Free()) + {con}
    {
      var known := conCache.FreeConnection(con);
    }

    /** A second connection is leased for the time of the refresh, and given back on the ways through it. On
        one of them, the handler of an unknown exception, it is given back there and again behind it: one
        connection is then counted twice. */
    method RegisterParams(refresh: Refresh)
      requires Counted() && (!refresh.NotDue? ==> Free() != {})
      modifies conCache
      ensures Free() == old(Free()) && Known() == old(Known())
      ensures conCache.Excess() == old(conCache.Excess()) + Miscount(refresh)
    {
      if refresh.NotDue? {
        return;
      }
      var con := Lease();
      if refresh.SqlError? {
        GiveBack(con);
        assert Free() == old(Free());
        return;
      }
      if refresh.UnknownError? {
        GiveBack(con);
        assert Free() == old(Free());
      }
      GiveBack(con);
      assert Free() == old(Free());
    }

    /** A connection and a decoder, or neither. */
    method Create(a: Attempt) returns (command: Option<Command>)
      requires Counted() && |Free()| >= Needed(a) && DecodersNumbered()
      modifies this`decoders, this`nextDecoder, conCache
      ensures conCache.Excess() == old(conCache.Excess()) + Miscount(a.refresh)
      ensures DecodersNumbered() && Known() == old(Known())
      ensures command.None? <==> a.NoDecoder?
      ensures command.None? ==> Free() == old(Free()) && decoders == old(decoders)
      ensures command.Some? ==>
                && command.value.con in old(Free()) && Free() == old(Free()) - {command.value.con}
                && command.value.con in Known()
                && command.value.decoder !in old(decoders) && decoders == old(decoders) + {command.value.decoder}
    {
      var con := Lease();
      RegisterParams(a.refresh);
      if a.NoDecoder? {
        GiveBack(con);
        assert Free() == old(Free());
        return None;
      }
      var decoder := nextDecoder;
      nextDecoder := nextDecoder + 1;
      decoders := decoders + {decoder};
      command := Some(Command(con, decoder));
    }

    method ReleaseDecodeCommand(command: Command)
      requires DecodersNumbered() && command.con in Known() && command.con !in Free() && command.decoder in decoders
      modifies this`decoders, conCache
      ensures conCache.Excess() == old(conCache.Excess()) && DecodersNumbered() && Known() == old(Known())
      ensures Free() == old(Free()) + {command.con} && decoders == old(decoders) - {command.decoder}
    {
      GiveBack(command.con);
      decoders := decoders - {command.decoder};
    }

    /** The body of the loop: one decode, after `redirectCount` redirects. */
    method DecodeOnce(a: Attempt, redirectCount: nat) returns (step: Step)
      requires Counted() && |Free()| >= Needed(a) && DecodersNumbered()
      modifies this`decoders, this`nextDecoder, conCache
      ensures conCache.Excess() == old(conCache.Excess()) + Miscount(a.refresh) && DecodersNumbered()
      ensures step == StepOf(a, redirectCount)
      ensures step != Finished(Threw) ==> Free() == old(Free()) && decoders == old(decoders)
      ensures step == Finished(Threw) ==>
                && (exists con | con in old(Free()) :: Free() == old(Free()) - {con})
                && (exists d: nat | d !in old(decoders) :: decoders == old(decoders) + {d})
    {
      var command := Create(a);
      if command.None? {
        return Finished(Returned(NODECODER));
      }
      step := Judge(a, redirectCount);
      if step != Finished(Threw) {
        ReleaseDecodeCommand(command.value);
        assert Free() == old(Free());
      }
    }

    /** What becomes of a request whose command has come back. */
    method Judge(a: Attempt, redirectCount: nat) returns (step: Step)
      requires !a.NoDecoder?
      ensures step == StepOf(a, redirectCount)
    {
      if a.NotExecuted? {
        return Finished(Returned(ERROR));
      }
      match a.result {
        case Redirect(info) =>
          if redirectCount > 5 {
            return Finished(Threw);
          }
          return if info then Again else Finished(Returned(DECODEERROR));
        case Ok => return Finished(Returned(OK));
        case NotSaved => return Finished(Returned(NOTSAVED));
        case Error(noDecoder) => return Finished(Returned(if noDecoder then NODECODER else DECODEERROR));
        case Rejected => return Finished(Returned(DECODEERROR));
      }
    }

    /** One request. At most seven decodes; each leases one connection and one decoder. If the request
        returns, all of them are back. It throws exactly when seven decodes in a row redirect, and then leaves
        one connection leased and one decoder in use for good. The count of free connections is then too high by
        one for each refresh that ended in an unknown exception, and by no more. */
    method NewObservation(attempt: nat -> Attempt) returns (outcome: Outcome, decodes: nat)
      requires Counted() && DecodersNumbered() && forall k: nat :: |Free()| >= Needed(attempt(k))
      modifies this`decoders, this`nextDecoder, conCache
      ensures conCache.Excess() == old(conCache.Excess()) + Miscounts(attempt, decodes) && DecodersNumbered()
      ensures 1 <= decodes <= MAX_REDIRECTS + 1 && AllRedirect(attempt, decodes - 1)
      ensures outcome.Returned? ==> Free() == old(Free()) && decoders == old(decoders)
      ensures outcome.Returned? ==> outcome.res == ResultOf(attempt(decodes - 1)) && !Redirected(attempt(decodes - 1))
      ensures outcome.Threw? <==>
                AllRedirect(attempt, MAX_REDIRECTS) && attempt(MAX_REDIRECTS).Decoded?
                    && attempt(MAX_REDIRECTS).result.Redirect?
      ensures outcome.Threw? ==>
                && (exists con | con in old(Free()) :: Free() == old(Free()) - {con})
                && (exists d: nat | d !in old(decoders) :: decoders == old(decoders) + {d})
    {
      var redirectCount: nat := 0;
      decodes := 0;
      while true
        invariant conCache.Excess() == old(conCache.Excess()) + Miscounts(attempt, decodes) && DecodersNumbered()
        invariant Free() == old(Free()) && decoders == old(decoders)
        invariant decodes == redirectCount <= MAX_REDIRECTS && AllRedirect(attempt, redirectCount)
        decreases MAX_REDIRECTS - redirectCount
      {
        var step := DecodeOnce(attempt(decodes), redirectCount);
        decodes := decodes + 1;
        if step.Finished? {
          return step.outcome, decodes;
        }
        redirectCount := redirectCount + 1;
      }
    }
  }

  datatype Step = Again | Finished(outcome: Outcome)

  function StepOf(a: Attempt, redirectCount: nat): Step {
    if a.Decoded? && a.result.Redirect? && redirectCount >= MAX_REDIRECTS then Finished(Threw)
    else if Redirected(a) then Again
    else Finished(Returned(ResultOf(a)))
  }
}
