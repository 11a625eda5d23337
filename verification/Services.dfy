/** The two services side by side. */
module Services {
  import opened ObsRecords
  import opened Requests
  import Adaptive = DataIterator
  import Fixed = FixedDataIterator

  /** One client asks both services at the same time, on the same tables and with working selects, and calls
      next until both return false. It receives the two answers; and the same stream twice when the effective
      ends agree, as they do when every end is given. */
  method AskBoth(db: Tables, which: seq<WhichData>, now: int) returns (adaptive: seq<ObsRecord>, fixed: seq<ObsRecord>)
    requires db.Valid()
    ensures adaptive == Answer(db, which, 0, None, now, true)
    ensures fixed == Answer(db, which, 0, None, now, false)
    ensures EndsAgree(which, 0, None, None, now) ==> adaptive == fixed
    ensures (forall i | 0 <= i < |which| :: which[i].toObsTime != Empty) ==> adaptive == fixed
  {
    hide Answer, EndsAgree, Tables.Valid;
    var works := (k: nat) => true;
    var a := new Adaptive.DataIteratorImpl(db, which, now, works, works);
    var f := new Fixed.DataIteratorImpl(db, which, now, works, works);
    ghost var restA, restF;
    adaptive, restA := Adaptive.Drain(a);
    fixed, restF := Fixed.Drain(f);
    if EndsAgree(which, 0, None, None, now) {
      AgreeingAnswers(db, which, 0, None, None, now);
    }
    if forall i | 0 <= i < |which| :: which[i].toObsTime != Empty {
      WindowsInvisible(db, which, now);
    }
  }
}
