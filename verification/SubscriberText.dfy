/** The stored form of a subscriber: the writer, the reader, and what survives the way through both. */
module SubscriberText {
  import O = ObsRecords
  import opened Strings

  datatype QcId = QC1 | QC2d | QC2m | HQC

  datatype Info = Info(status: O.StatusId, qc: seq<QcId>)

  datatype Subscriber = Subscriber(id: string, cref: string, info: Info)

  datatype Kind = DataNotify | Data | Hint

  /** What a subscriber listens to. */
  datatype Stations = AllStations | Listed(ids: seq<int>) | NoStations

  // -------------------------------------------------------------------------- strings

  /** A non-empty text on one line, without blanks around it. */
  ghost predicate Plain(s: string) {
    s != "" && !Space(s[0]) && !Space(s[|s| - 1]) && '\n' !in s
  }

  predicate StartsWith(s: string, p: string) { |p| <= |s| && s[..|p|] == p }

  /** std::string::find; -1 stands for npos. */
  function Find(s: string, p: string): (i: int)
    ensures i == -1 || (0 <= i && i + |p| <= |s|)
  {
    if StartsWith(s, p) then 0
    else if s == "" then -1
    else var i := Find(s[1..], p); if i < 0 then -1 else i + 1
  }

  predicate Contains(s: string, p: string) { Find(s, p) >= 0 }

  /** What getline delivers, call after call. */
  function Lines(s: string): seq<string>
    decreases |s|
  {
    if s == "" then []
    else var n := Find(s, "\n");
         if n < 0 then [s] else [s[..n]] + Lines(s[n + 1..])
  }

  /** boost::split by blanks, adjacent blanks taken as one. An empty text is one empty token. */
  function Tokens(s: string): seq<string> { TokensAfter("", s) }

  function TokensAfter(token: string, s: string): seq<string>
    decreases |s|
  {
    if s == "" then [token]
    else if Space(s[0]) then [token] + TokensAfter("", TrimLeft(s))
    else TokensAfter(token + [s[0]], s[1..])
  }

  // --------------------------------------------------------------------------- writing

  function StatusText(status: O.StatusId): string {
    match status
    case All => "All"
    case OnlyFailed => "OnlyFailed"
    case OnlyOk => "OnlyOk"
  }

  function QcName(qc: QcId): string {
    match qc
    case QC1 => "QC1"
    case QC2d => "QC2d"
    case QC2m => "QC2m"
    case HQC => "HQC"
  }

  function QcText(qc: seq<QcId>): string {
    if qc == [] then "" else QcText(qc[..|qc| - 1]) + " " + QcName(qc[|qc| - 1])
  }

  function Decimal(n: nat): string {
    if n < 10 then ['0' + n as char] else Decimal(n / 10) + ['0' + (n % 10) as char]
  }

  function IntText(n: int): string { if n < 0 then "-" + Decimal(-n) else Decimal(n) }

  function IdsText(ids: seq<int>): string {
    if ids == [] then ""
    else if |ids| == 1 then IntText(ids[0])
    else IdsText(ids[..|ids| - 1]) + " " + IntText(ids[|ids| - 1])
  }

  function StationsText(stations: Stations): string {
    match stations
    case AllStations => "All"
    case Listed(ids) => IdsText(ids)
    case NoStations => "None"
  }

  /** The lines of a stored subscriber, written at `now`. Hint subscribers have no status and no checks. */
  function Header(kind: Kind, sub: Subscriber, now: string): seq<string> {
    ["Last call: " + now, "Created: " + now, "Subid: " + sub.id, "CORBA ref: " + sub.cref,
     "StatusId: " + if kind.Hint? then "" else StatusText(sub.info.status),
     "QcId:" + QcPart(kind, sub)]
  }

  function QcPart(kind: Kind, sub: Subscriber): string { if kind.Hint? then "" else QcText(sub.info.qc) }

  function Unlines(lines: seq<string>): string {
    if lines == [] then "" else lines[0] + "\n" + Unlines(lines[1..])
  }

  function Stored(kind: Kind, sub: Subscriber, stations: Stations, now: string): string {
    Unlines(Header(kind, sub, now) + ["Stations:" + StationsText(stations)])
  }

  // --------------------------------------------------------------------------- reading

  datatype Key = LastCall | Created | Subid | CorbaRef | StatusKey | QcKey | StationsKey | Unknown

  function KeyOf(key: string): Key {
    if Contains(key, "Last call") then LastCall
    else if Contains(key, "Created") then Created
    else if Contains(key, "Subid") then Subid
    else if Contains(key, "CORBA ref") then CorbaRef
    else if Contains(key, "StatusId") then StatusKey
    else if Contains(key, "QcId") then QcKey
    else if Contains(key, "Stations") then StationsKey
    else Unknown
  }

  datatype Fields = Fields(subid: string, cref: string, statusid: string, qcIdList: seq<string>,
                           stationList: seq<string>, hasStationKey: bool)

  const NO_FIELDS := Fields("", "", "", [], [], false)

  /** The position of "All" or "None" is taken as a truth value: both tests fail only at position 0. */
  function StationList(val: string, before: seq<string>): seq<string> {
    if val == "" then before
    else if Find(val, "All") != 0 then before
    else if Find(val, "None") != 0 then before
    else Tokens(val)
  }

  function SetField(f: Fields, key: Key, val: string): Fields {
    match key
    case Subid => f.(subid := val)
    case CorbaRef => f.(cref := val)
    case StatusKey => f.(statusid := val)
    case QcKey => f.(qcIdList := Tokens(val))
    case StationsKey => f.(stationList := StationList(val, f.stationList), hasStationKey := true)
    case _ => f
  }

  datatype Result<T> = Ok(value: T) | FormatError

  function ReadLine(f: Fields, line: string): Result<Fields> {
    var buf := Trim(line);
    if buf == "" then Ok(f)
    else var i := Find(buf, ":");
         if i < 0 then FormatError else Ok(SetField(f, KeyOf(buf[..i]), Trim(buf[i + 1..])))
  }

  function ReadLines(f: Fields, lines: seq<string>): Result<Fields>
    decreases |lines|
  {
    if lines == [] then Ok(f)
    else match ReadLine(f, lines[0])
         case FormatError => FormatError
         case Ok(f') => ReadLines(f', lines[1..])
  }

  /** The type of a subscriber is the part of its id before the first underscore. */
  function KindOf(id: string): Result<Kind> {
    var i := Find(id, "_");
    if i < 0 then FormatError
    else match Trim(id[..i])
         case "datanotify" => Ok(DataNotify)
         case "data" => Ok(Data)
         case "kvHint" => Ok(Hint)
         case _ => FormatError
  }

  function StatusOf(text: string): O.StatusId {
    match text
    case "OnlyFailed" => O.OnlyFailed
    case "OnlyOk" => O.OnlyOk
    case _ => O.All
  }

  function QcOf(name: string): Result<QcId> {
    match name
    case "QC1" => Ok(QC1)
    case "QC2d" => Ok(QC2d)
    case "QC2m" => Ok(QC2m)
    case "HQC" => Ok(HQC)
    case _ => FormatError
  }

  /** The i'th known name goes to position i; positions left out before it hold the first value. */
  function QcList(names: seq<string>): (qc: seq<QcId>)
    ensures |qc| <= |names|
  {
    if names == [] then []
    else var before := QcList(names[..|names| - 1]);
         match QcOf(names[|names| - 1])
         case FormatError => before
         case Ok(q) => before + seq(|names| - 1 - |before|, _ => QC1) + [q]
  }

  /** A subscriber as it is put back into the collection. Its stations are those of the list that are
      numbers; the empty list stands for all. */
  datatype Restored = Restored(kind: Kind, sub: Subscriber, stationList: seq<string>)

  function Restore(f: Fields): Result<Restored> {
    if f.subid == "" || f.cref == "" then FormatError
    else match KindOf(f.subid)
         case FormatError => FormatError
         case Ok(Hint) => Ok(Restored(Hint, Subscriber(f.subid, f.cref, Info(O.All, [])), []))
         case Ok(kind) =>
           if !f.hasStationKey then FormatError
           else
             var info := Info(StatusOf(f.statusid), QcList(f.qcIdList));
             Ok(Restored(kind, Subscriber(f.subid, f.cref, info), f.stationList))
  }

  function Read(content: string): Result<Restored> {
    match ReadLines(NO_FIELDS, Lines(content))
    case FormatError => FormatError
    case Ok(f) => Restore(f)
  }

  // ---------------------------------------------------------- what the reader makes of any text

  /** "All" and "None" cannot both stand at position 0, so the branch that reads the list is never taken. */
  lemma {:induction false} ListBranchDead(val: string, before: seq<string>)
    ensures StationList(val, before) == before
  {
    if StartsWith(val, "All") {
      assert val[0] == val[..3][0] == 'A';
    }
    if StartsWith(val, "None") {
      assert val[0] == val[..4][0] == 'N';
    }
    assert !StartsWith(val, "All") || !StartsWith(val, "None");
  }

  lemma {:induction false} ReadLineKeepsStations(f: Fields, line: string)
    ensures ReadLine(f, line).Ok? ==> ReadLine(f, line).value.stationList == f.stationList
  {
    hide KeyOf, Trim, Find, StationList, Tokens;
    var buf := Trim(line);
    if buf != "" && Find(buf, ":") >= 0 {
      ListBranchDead(Trim(buf[Find(buf, ":") + 1..]), f.stationList);
    }
  }

  lemma {:induction false} ReadLinesKeepStations(f: Fields, lines: seq<string>)
    ensures ReadLines(f, lines).Ok? ==> ReadLines(f, lines).value.stationList == f.stationList
    decreases |lines|
  {
    hide ReadLine;
    if lines != [] {
      ReadLineKeepsStations(f, lines[0]);
      if ReadLine(f, lines[0]).Ok? {
        ReadLinesKeepStations(ReadLine(f, lines[0]).value, lines[1..]);
      }
    }
  }

  /** Whatever is stored, a subscriber that is read back listens to all stations. */
  lemma {:induction false} EveryReadSubscriberListensToAll(content: string)
    ensures Read(content).Ok? ==> Read(content).value.stationList == []
  {
    ReadLinesKeepStations(NO_FIELDS, Lines(content));
  }

  // ------------------------------------------------------------------------- the round trip

  lemma {:induction false} FindChar(s: string, c: char, i: nat)
    requires i < |s| && s[i] == c && c !in s[..i]
    ensures Find(s, [c]) == i
  {
    if i > 0 {
      assert s[..i][0] != c && s[..1][0] == s[0];
      assert s[1..][..i - 1] == s[..i][1..];
      FindChar(s[1..], c, i - 1);
    } else {
      assert s[..1] == [c];
    }
  }

  lemma {:induction false} LinesOfUnlines(lines: seq<string>)
    requires forall l | l in lines :: '\n' !in l
    ensures Lines(Unlines(lines)) == lines
  {
    if lines != [] {
      var s := Unlines(lines);
      assert s == lines[0] + "\n" + Unlines(lines[1..]);
      assert s[..|lines[0]|] == lines[0] && s[|lines[0]| + 1..] == Unlines(lines[1..]);
      assert '\n' !in lines[0];
      FindChar(s, '\n', |lines[0]|);
      assert Find(s, "\n") == |lines[0]|;
      LinesOfUnlines(lines[1..]);
    }
  }

  lemma {:induction false} TrimPlain(s: string)
    requires s != "" ==> !Space(s[0]) && !Space(s[|s| - 1])
    ensures Trim(s) == s && TrimLeft(s) == s
  {
  }

  lemma {:induction false} TrimAfterBlank(s: string)
    requires s != "" ==> !Space(s[0]) && !Space(s[|s| - 1])
    ensures Trim(" " + s) == s
  {
    assert (" " + s)[1..] == s;
    assert TrimLeft(" " + s) == TrimLeft(s);
    TrimPlain(s);
  }

  /** A line as the writer writes it: the key, a colon, a text that does not end in a blank. */
  lemma {:induction false} ReadKeyLine(f: Fields, key: string, text: string)
    requires key != "" && !Space(key[0]) && ':' !in key
    requires text != "" ==> !Space(text[|text| - 1])
    ensures ReadLine(f, key + ":" + text) == Ok(SetField(f, KeyOf(key), Trim(text)))
  {
    var line := key + ":" + text;
    TrimPlain(line);
    assert line[..|key|] == key && line[|key| + 1..] == text;
    FindChar(line, ':', |key|);
    assert Find(line, ":") == |key|;
  }

  lemma {:induction false} ReadOneMore(f: Fields, lines: seq<string>, line: string)
    requires ReadLines(f, lines).Ok?
    ensures ReadLines(f, lines + [line]) == ReadLine(ReadLines(f, lines).value, line)
    decreases |lines|
  {
    hide ReadLine;
    if lines == [] {
      assert ([line])[1..] == [];
      assert lines + [line] == [line];
    } else {
      assert (lines + [line])[1..] == lines[1..] + [line];
      ReadOneMore(ReadLine(f, lines[0]).value, lines[1..], line);
    }
  }

  /** A key and a plain text. */
  lemma {:induction false} ReadField(f: Fields, key: string, val: string)
    requires key != "" && !Space(key[0]) && ':' !in key && Plain(val)
    ensures ReadLine(f, key + ": " + val) == Ok(SetField(f, KeyOf(key), val))
  {
    assert key + ": " + val == key + ":" + (" " + val);
    ReadKeyLine(f, key, " " + val);
    TrimAfterBlank(val);
  }

  lemma {:induction false} FindSound(s: string, p: string)
    requires Find(s, p) >= 0
    ensures s[Find(s, p)..Find(s, p) + |p|] == p
  {
    if !StartsWith(s, p) {
      FindSound(s[1..], p);
      var i := Find(s[1..], p);
      assert s[1..][i..i + |p|] == s[i + 1..i + 1 + |p|];
    }
  }

  lemma {:induction false} ContainedChar(s: string, p: string, j: nat)
    requires j < |p| && Contains(s, p)
    ensures p[j] in s
  {
    FindSound(s, p);
    var i := Find(s, p);
    assert s[i..i + |p|][j] == s[i + j];
  }

  /** A text that lacks one of the pattern's characters, or is shorter, does not contain the pattern. */
  lemma {:induction false} NotContained(s: string, p: string, j: nat)
    requires j < |p| && (p[j] !in s || |s| < |p|)
    ensures !Contains(s, p)
  {
    if Contains(s, p) {
      ContainedChar(s, p, j);
    }
  }

  lemma {:induction false} ContainsItself(s: string)
    ensures Contains(s, s)
  {
    assert s[..|s|] == s;
  }

  lemma {:induction false} KeysRecognized()
    ensures KeyOf("Last call") == LastCall && KeyOf("Created") == Created && KeyOf("Subid") == Subid
    ensures KeyOf("CORBA ref") == CorbaRef && KeyOf("StatusId") == StatusKey && KeyOf("QcId") == QcKey
    ensures KeyOf("Stations") == StationsKey
  {
    FirstKeys();
    LastKeys();
  }

  lemma {:induction false} FirstKeys()
    ensures KeyOf("Last call") == LastCall && KeyOf("Created") == Created && KeyOf("Subid") == Subid
    ensures KeyOf("CORBA ref") == CorbaRef
  {
    hide Contains;
    ContainsItself("Last call");
    ContainsItself("Created");
    ContainsItself("Subid");
    ContainsItself("CORBA ref");
    NotContained("Created", "Last call", 0);
    NotContained("Subid", "Last call", 0);
    NotContained("Subid", "Created", 0);
    NotContained("CORBA ref", "Last call", 0);
    NotContained("CORBA ref", "Created", 3);
    NotContained("CORBA ref", "Subid", 0);
  }

  lemma {:induction false} LastKeys()
    ensures KeyOf("StatusId") == StatusKey && KeyOf("QcId") == QcKey && KeyOf("Stations") == StationsKey
  {
    hide Contains;
    ContainsItself("StatusId");
    ContainsItself("QcId");
    ContainsItself("Stations");
    NotContained("StatusId", "Last call", 0);
    NotContained("StatusId", "Created", 0);
    NotContained("StatusId", "Subid", 2);
    NotContained("StatusId", "CORBA ref", 0);
    NotContained("QcId", "Last call", 0);
    NotContained("QcId", "Created", 0);
    NotContained("QcId", "Subid", 0);
    NotContained("QcId", "CORBA ref", 0);
    NotContained("QcId", "StatusId", 0);
    NotContained("Stations", "Last call", 0);
    NotContained("Stations", "Created", 0);
    NotContained("Stations", "Subid", 2);
    NotContained("Stations", "CORBA ref", 0);
    NotContained("Stations", "StatusId", 4);
    NotContained("Stations", "QcId", 0);
  }

  ghost predicate Word(s: string) { s != "" && forall c | c in s :: !Space(c) }

  lemma {:induction false} OneToken(token: string, word: string)
    requires forall c | c in word :: !Space(c)
    ensures TokensAfter(token, word) == [token + word]
    decreases |word|
  {
    if word == "" {
      assert token + word == token;
    } else {
      assert word[0] in word && token + [word[0]] + word[1..] == token + word;
      OneToken(token + [word[0]], word[1..]);
    }
  }

  lemma {:induction false} TrimBlank(word: string)
    requires word != "" && !Space(word[0])
    ensures TrimLeft(" " + word) == word
  {
    assert (" " + word)[1..] == word;
    assert TrimLeft(word) == word;
  }

  lemma {:induction false} BlankThenWord(token: string, word: string)
    requires Word(word)
    ensures TokensAfter(token, " " + word) == [token] + [word]
  {
    assert word[0] in word;
    TrimBlank(word);
    OneToken("", word);
    assert "" + word == word;
  }

  /** A word after a blank is one more token. */
  lemma {:induction false} MoreTokens(token: string, s: string, word: string)
    requires Word(word) && (s != "" ==> !Space(s[|s| - 1]))
    ensures TokensAfter(token, s + " " + word) == TokensAfter(token, s) + [word]
    decreases |s|
  {
    hide Word;
    var end := " " + word;
    assert s + " " + word == s + end;
    if s == "" {
      BlankThenWord(token, word);
      assert s + end == end;
    } else {
      assert (s + end)[1..] == s[1..] + end;
      if Space(s[0]) {
        TrimLeftOf(s, end);
        TrimLeftEnd(s);
        MoreTokens("", TrimLeft(s), word);
        assert TrimLeft(s) + " " + word == TrimLeft(s) + end;
      } else {
        MoreTokens(token + [s[0]], s[1..], word);
        assert s[1..] + " " + word == s[1..] + end;
      }
    }
  }

  lemma {:induction false} TrimLeftOf(s: string, more: string)
    requires s != "" && !Space(s[|s| - 1])
    ensures TrimLeft(s + more) == TrimLeft(s) + more
    decreases |s|
  {
    if Space(s[0]) {
      assert (s + more)[1..] == s[1..] + more;
      TrimLeftOf(s[1..], more);
    }
  }

  lemma {:induction false} TrimLeftEnd(s: string)
    requires s != "" && !Space(s[|s| - 1])
    ensures TrimLeft(s) != "" && !Space(TrimLeft(s)[|TrimLeft(s)| - 1]) && !Space(TrimLeft(s)[0])
    ensures |TrimLeft(s)| <= |s|
    decreases |s|
  {
    if Space(s[0]) {
      TrimLeftEnd(s[1..]);
    }
  }

  // --------------------------------------------------------------------- the list of checks

  function QcNames(qc: seq<QcId>): seq<string> { seq(|qc|, i requires 0 <= i < |qc| => QcName(qc[i])) }

  /** The printed list without its leading blank. */
  function QcWords(qc: seq<QcId>): string
    requires qc != []
  {
    if |qc| == 1 then QcName(qc[0]) else QcWords(qc[..|qc| - 1]) + " " + QcName(qc[|qc| - 1])
  }

  lemma {:induction false} QcNameIsWord(q: QcId)
    ensures Word(QcName(q)) && QcOf(QcName(q)) == Ok(q) && '\n' !in QcName(q)
  {
  }

  lemma {:induction false} CleanJoin(a: string, b: string)
    requires Plain(a) && Plain(b)
    ensures Plain(a + " " + b)
  {
    var s := a + " " + b;
    assert s[0] == a[0] && s[|s| - 1] == b[|b| - 1];
  }

  lemma {:induction false} QcNameIsClean(q: QcId)
    ensures Plain(QcName(q))
  {
  }

  lemma {:induction false} QcTextIsWords(qc: seq<QcId>)
    requires qc != []
    ensures QcText(qc) == " " + QcWords(qc) && Plain(QcWords(qc))
    decreases |qc|
  {
    hide QcName, Plain;
    var last := qc[|qc| - 1];
    QcNameIsClean(last);
    if |qc| == 1 {
      assert qc[..0] == [] && QcText(qc) == QcText([]) + " " + QcName(last);
    } else {
      var before := qc[..|qc| - 1];
      QcTextIsWords(before);
      CleanJoin(QcWords(before), QcName(last));
      assert (" " + QcWords(before)) + " " + QcName(last) == " " + (QcWords(before) + " " + QcName(last));
    }
  }

  lemma {:induction false} QcWordsTokens(qc: seq<QcId>)
    requires qc != []
    ensures Tokens(QcWords(qc)) == QcNames(qc)
    decreases |qc|
  {
    hide TokensAfter, QcName, Space;
    var last := qc[|qc| - 1];
    QcNameIsWord(last);
    if |qc| == 1 {
      OneToken("", QcName(last));
      assert "" + QcName(last) == QcName(last);
      assert QcNames(qc) == [QcName(last)];
    } else {
      var before := qc[..|qc| - 1];
      QcWordsTokens(before);
      QcTextIsWords(before);
      MoreTokens("", QcWords(before), QcName(last));
      assert QcNames(qc) == QcNames(before) + [QcName(last)];
    }
  }

  lemma {:induction false} QcListOfNames(qc: seq<QcId>)
    ensures QcList(QcNames(qc)) == qc
    decreases |qc|
  {
    if qc != [] {
      var before, last := qc[..|qc| - 1], qc[|qc| - 1];
      QcListOfNames(before);
      QcNameIsWord(last);
      assert QcNames(qc)[..|qc| - 1] == QcNames(before);
      assert QcNames(qc)[|qc| - 1] == QcName(last);
      assert before + seq(0, _ => QC1) + [last] == qc;
    }
  }

  /** Every list of checks is recovered, the empty one too, which is read as one unknown name. */
  lemma {:induction false} QcRoundTrip(qc: seq<QcId>)
    ensures QcList(Tokens(Trim(QcText(qc)))) == qc
    ensures '\n' !in QcText(qc) && (QcText(qc) != "" ==> !Space(QcText(qc)[|QcText(qc)| - 1]))
  {
    if qc == [] {
      assert Tokens("") == [""] && QcOf("") == FormatError;
      assert [""][..0] == [];
      assert QcList([""]) == QcList([]);
    } else {
      QcTextIsWords(qc);
      TrimAfterBlank(QcWords(qc));
      QcWordsTokens(qc);
      QcListOfNames(qc);
    }
  }

  // ------------------------------------------------------------------- the list of stations

  lemma {:induction false} DecimalPlain(n: nat)
    ensures Word(Decimal(n)) && '\n' !in Decimal(n)
  {
    if n >= 10 {
      DecimalPlain(n / 10);
    }
  }

  lemma {:induction false} IntTextPlain(n: int)
    ensures IntText(n) != "" && '\n' !in IntText(n) && !Space(IntText(n)[|IntText(n)| - 1])
  {
    var d := Decimal(if n < 0 then -n else n);
    DecimalPlain(if n < 0 then -n else n);
    assert d[|d| - 1] in d && IntText(n)[|IntText(n)| - 1] == d[|d| - 1];
  }

  lemma {:induction false} IdsTextPlain(ids: seq<int>)
    requires ids != []
    ensures IdsText(ids) != "" && '\n' !in IdsText(ids) && !Space(IdsText(ids)[|IdsText(ids)| - 1])
    decreases |ids|
  {
    hide Space, IntText, Decimal;
    IntTextPlain(ids[|ids| - 1]);
    if |ids| > 1 {
      IdsTextPlain(ids[..|ids| - 1]);
    }
  }

  lemma {:induction false} StationsTextPlain(stations: Stations)
    requires stations.Listed? ==> stations.ids != []
    ensures var t := StationsText(stations); t != "" && '\n' !in t && !Space(t[|t| - 1])
  {
    if stations.Listed? {
      IdsTextPlain(stations.ids);
    }
  }

  // ------------------------------------------------------------------------- the whole text

  /** What a kind of subscriber keeps of its status and checks. */
  function Kept(kind: Kind, sub: Subscriber): Subscriber {
    if kind.Hint? then sub.(info := Info(O.All, [])) else sub
  }

  lemma {:induction false} ReadTimes(now: string)
    requires Plain(now)
    ensures ReadLines(NO_FIELDS, ["Last call: " + now, "Created: " + now]) == Ok(NO_FIELDS)
  {
    hide ReadLine, KeyOf, Trim, Find;
    KeysRecognized();
    ReadField(NO_FIELDS, "Last call", now);
    ReadField(NO_FIELDS, "Created", now);
    assert "Last call" + ": " + now == "Last call: " + now && "Created" + ": " + now == "Created: " + now;
    ReadOneMore(NO_FIELDS, [], "Last call: " + now);
    assert [] + ["Last call: " + now] == ["Last call: " + now];
    ReadOneMore(NO_FIELDS, ["Last call: " + now], "Created: " + now);
    assert ["Last call: " + now] + ["Created: " + now] == ["Last call: " + now, "Created: " + now];
  }

  lemma {:induction false} ReadNames(sub: Subscriber, now: string)
    requires Plain(now) && Plain(sub.id) && Plain(sub.cref)
    ensures ReadLines(NO_FIELDS, ["Last call: " + now, "Created: " + now, "Subid: " + sub.id, "CORBA ref: " + sub.cref])
            == Ok(NO_FIELDS.(subid := sub.id, cref := sub.cref))
  {
    hide ReadLine, KeyOf, Trim, Find, ReadLines;
    ReadTimes(now);
    KeysRecognized();
    var f := NO_FIELDS.(subid := sub.id);
    ReadField(NO_FIELDS, "Subid", sub.id);
    ReadField(f, "CORBA ref", sub.cref);
    var a, b, c, d := "Last call: " + now, "Created: " + now, "Subid: " + sub.id, "CORBA ref: " + sub.cref;
    assert "Subid" + ": " + sub.id == c && "CORBA ref" + ": " + sub.cref == d;
    ReadOneMore(NO_FIELDS, [a, b], c);
    assert [a, b] + [c] == [a, b, c];
    ReadOneMore(NO_FIELDS, [a, b, c], d);
    assert [a, b, c] + [d] == [a, b, c, d];
  }

  lemma {:induction false} ReadStatus(f: Fields, kind: Kind, sub: Subscriber)
    ensures ReadLine(f, "StatusId: " + if kind.Hint? then "" else StatusText(sub.info.status))
            == Ok(f.(statusid := if kind.Hint? then "" else StatusText(sub.info.status)))
  {
    hide KeyOf, Find, ReadLine, Trim;
    KeysRecognized();
    if kind.Hint? {
      assert "StatusId: " + "" == "StatusId: ";
      BareStatus(f);
    } else {
      var t := StatusText(sub.info.status);
      assert Plain(t);
      ReadField(f, "StatusId", t);
      assert "StatusId" + ": " + t == "StatusId: " + t;
    }
  }

  lemma {:induction false} BareStatus(f: Fields)
    ensures ReadLine(f, "StatusId: ") == Ok(f.(statusid := ""))
  {
    BareStatusTrimmed();
    hide Trim, Find, KeyOf, ReadLine;
    ReadKeyLine(f, "StatusId", "");
    KeysRecognized();
    assert "StatusId" + ":" + "" == "StatusId:";
    SameTrim(f, "StatusId: ", "StatusId:");
  }

  lemma {:induction false} BareStatusTrimmed()
    ensures Trim("StatusId: ") == Trim("StatusId:")
    ensures Trim("") == ""
  {
    hide TrimRight;
    assert "StatusId: "[..9] == "StatusId:";
    assert TrimLeft("StatusId: ") == "StatusId: " && TrimLeft("StatusId:") == "StatusId:";
    LastBlank("StatusId:");
    assert "StatusId:" + " " == "StatusId: ";
    assert TrimLeft("") == "";
    NothingToTrim();
  }

  lemma {:induction false} LastBlank(s: string)
    ensures TrimRight(s + " ") == TrimRight(s)
  {
    assert (s + " ")[..|s|] == s;
  }

  lemma {:induction false} NothingToTrim()
    ensures TrimRight("") == ""
  {
  }

  /** Only the trimmed line matters. */
  lemma {:induction false} SameTrim(f: Fields, line: string, other: string)
    requires Trim(line) == Trim(other)
    ensures ReadLine(f, line) == ReadLine(f, other)
  {
  }

  lemma {:induction false} ReadQcLine(f: Fields, kind: Kind, sub: Subscriber)
    ensures ReadLine(f, "QcId:" + QcPart(kind, sub)) == Ok(f.(qcIdList := Tokens(Trim(QcPart(kind, sub)))))
  {
    hide ReadLine, KeyOf, Trim, Find, Tokens, QcText;
    QcRoundTrip(sub.info.qc);
    KeysRecognized();
    ReadKeyLine(f, "QcId", QcPart(kind, sub));
    assert "QcId" + ":" + QcPart(kind, sub) == "QcId:" + QcPart(kind, sub);
  }

  lemma {:induction false} ReadStationsLine(f: Fields, stations: Stations)
    requires stations.Listed? ==> stations.ids != []
    ensures ReadLine(f, "Stations:" + StationsText(stations)) == Ok(f.(hasStationKey := true))
  {
    hide ReadLine, KeyOf, Trim, Find, StationList, StationsText;
    StationsTextPlain(stations);
    KeysRecognized();
    ReadKeyLine(f, "Stations", StationsText(stations));
    assert "Stations" + ":" + StationsText(stations) == "Stations:" + StationsText(stations);
    ListBranchDead(Trim(StationsText(stations)), f.stationList);
  }

  lemma {:induction false} ReadRest(f: Fields, kind: Kind, sub: Subscriber, stations: Stations)
    requires stations.Listed? ==> stations.ids != []
    ensures ReadLines(f, ["QcId:" + QcPart(kind, sub), "Stations:" + StationsText(stations)])
            == Ok(f.(qcIdList := Tokens(Trim(QcPart(kind, sub))), hasStationKey := true))
  {
    hide ReadLine, Trim, Tokens, StationsText, QcPart;
    var a, b := "QcId:" + QcPart(kind, sub), "Stations:" + StationsText(stations);
    var f' := f.(qcIdList := Tokens(Trim(QcPart(kind, sub))));
    ReadQcLine(f, kind, sub);
    ReadStationsLine(f', stations);
    OneLine(f, a);
    ReadOneMore(f, [a], b);
    assert [a] + [b] == [a, b];
  }

  lemma {:induction false} OneLine(f: Fields, line: string)
    ensures ReadLines(f, [line]) == ReadLine(f, line)
  {
    hide ReadLine;
    assert [line][1..] == [];
  }

  lemma {:induction false} ReadJoin(f: Fields, first: seq<string>, rest: seq<string>)
    requires ReadLines(f, first).Ok?
    ensures ReadLines(f, first + rest) == ReadLines(ReadLines(f, first).value, rest)
    decreases |first|
  {
    hide ReadLine;
    if first == [] {
      assert first + rest == rest;
    } else {
      assert (first + rest)[1..] == first[1..] + rest;
      ReadJoin(ReadLine(f, first[0]).value, first[1..], rest);
    }
  }

  lemma {:induction false} NoNewline(a: string, b: string)
    requires '\n' !in a && '\n' !in b
    ensures '\n' !in a + b
  {
  }

  /** No line of the stored text holds a newline. */
  lemma {:induction false} LinesPlain(kind: Kind, sub: Subscriber, stations: Stations, now: string)
    requires Plain(now) && Plain(sub.id) && Plain(sub.cref) && (stations.Listed? ==> stations.ids != [])
    ensures forall l | l in Header(kind, sub, now) + ["Stations:" + StationsText(stations)] :: '\n' !in l
  {
    hide QcText, StationsText, StatusText;
    QcRoundTrip(sub.info.qc);
    StationsTextPlain(stations);
    StatusPlain(sub.info.status);
    NoNewline("Last call: ", now);
    NoNewline("Created: ", now);
    NoNewline("Subid: ", sub.id);
    NoNewline("CORBA ref: ", sub.cref);
    NoNewline("StatusId: ", if kind.Hint? then "" else StatusText(sub.info.status));
    NoNewline("QcId:", QcPart(kind, sub));
    NoNewline("Stations:", StationsText(stations));
  }

  lemma {:induction false} StatusPlain(status: O.StatusId)
    ensures Plain(StatusText(status))
  {
  }

  lemma {:induction false} StoredIsLines(kind: Kind, sub: Subscriber, stations: Stations, now: string)
    requires Plain(now) && Plain(sub.id) && Plain(sub.cref) && (stations.Listed? ==> stations.ids != [])
    ensures Lines(Stored(kind, sub, stations, now)) == Header(kind, sub, now) + ["Stations:" + StationsText(stations)]
  {
    hide Header, Unlines, Lines, StationsText, Plain;
    LinesPlain(kind, sub, stations, now);
    LinesOfUnlines(Header(kind, sub, now) + ["Stations:" + StationsText(stations)]);
  }

  /** What is written is read back: id, reference, and for data and datanotify subscribers the status and the
      list of checks, exactly. The stations are not. */
  lemma {:induction false} RoundTrip(kind: Kind, sub: Subscriber, stations: Stations, now: string)
    requires Plain(now) && Plain(sub.id) && Plain(sub.cref) && KindOf(sub.id) == Ok(kind)
    requires stations.Listed? ==> stations.ids != []
    ensures Read(Stored(kind, sub, stations, now)) == Ok(Restored(kind, Kept(kind, sub), []))
  {
    hide ReadLine, ReadLines, Lines, Stored, KindOf, Tokens, Trim, QcText, StationsText, QcList;
    StoredIsLines(kind, sub, stations, now);
    var status := if kind.Hint? then "" else StatusText(sub.info.status);
    var qc := QcPart(kind, sub);
    var names := ["Last call: " + now, "Created: " + now, "Subid: " + sub.id, "CORBA ref: " + sub.cref];
    ReadNames(sub, now);
    var f := NO_FIELDS.(subid := sub.id, cref := sub.cref);
    ReadOneMore(NO_FIELDS, names, "StatusId: " + status);
    ReadStatus(f, kind, sub);
    var f' := f.(statusid := status);
    ReadJoin(NO_FIELDS, names + ["StatusId: " + status], ["QcId:" + qc, "Stations:" + StationsText(stations)]);
    ReadRest(f', kind, sub, stations);
    assert names + ["StatusId: " + status] + ["QcId:" + qc, "Stations:" + StationsText(stations)]
        == Header(kind, sub, now) + ["Stations:" + StationsText(stations)];
    QcRoundTrip(sub.info.qc);
    StatusRoundTrip(sub.info.status);
  }

  lemma {:induction false} StatusRoundTrip(status: O.StatusId)
    ensures StatusOf(StatusText(status)) == status
  {
  }

  /** What a restored subscriber listens to. */
  function Heard(r: Restored): Stations {
    if r.kind.Hint? then NoStations
    else if r.stationList == [] then AllStations
    else Listed(Numbers(r.stationList))
  }

  /** The tokens that are numbers. */
  function Numbers(tokens: seq<string>): seq<int> {
    if tokens == [] then []
    else var rest := Numbers(tokens[1..]);
         match Number(tokens[0])
         case Ok(n) => [n] + rest
         case FormatError => rest
  }

  function Number(s: string): Result<int> {
    if s != "" && s[0] == '-' then
      match Natural(s[1..])
      case Ok(n) => Ok(-n)
      case FormatError => FormatError
    else Natural(s)
  }

  function Natural(s: string): Result<int> {
    if s == "" || !('0' <= s[|s| - 1] <= '9') then FormatError
    else
      var digit := s[|s| - 1] as int - '0' as int;
      if |s| == 1 then Ok(digit)
      else match Natural(s[..|s| - 1])
           case Ok(n) => Ok(10 * n + digit)
           case FormatError => FormatError
  }

  /** So a data or datanotify subscriber gets its stations back exactly when it listened to all of them. */
  lemma {:induction false} StationsSurviveIffAll(kind: Kind, sub: Subscriber, stations: Stations, now: string)
    requires Plain(now) && Plain(sub.id) && Plain(sub.cref) && KindOf(sub.id) == Ok(kind) && !kind.Hint?
    requires stations.Listed? ==> stations.ids != []
    ensures Read(Stored(kind, sub, stations, now)).Ok?
    ensures Heard(Read(Stored(kind, sub, stations, now)).value) == stations <==> stations.AllStations?
  {
    hide Read, Stored;
    RoundTrip(kind, sub, stations, now);
  }

  // --------------------------------------------------------------------- the reader's loops

  /** Sets one field of what has been read so far, trying the keys in the order the source tries them. */
  method TakeField(before: Fields, key: string, val: string) returns (f: Fields)
    ensures f == SetField(before, KeyOf(key), val)
  {
    hide Contains, Tokens, StationList;
    f := before;
    if Contains(key, "Last call") {
    } else if Contains(key, "Created") {
    } else if Contains(key, "Subid") {
      f := f.(subid := val);
    } else if Contains(key, "CORBA ref") {
      f := f.(cref := val);
    } else if Contains(key, "StatusId") {
      f := f.(statusid := val);
    } else if Contains(key, "QcId") {
      f := f.(qcIdList := Tokens(val));
    } else if Contains(key, "Stations") {
      f := f.(stationList := StationList(val, f.stationList), hasStationKey := true);
    }
  }

  method ReadSubscriberFromDb(content: string) returns (r: Result<Restored>)
    ensures r == Read(content)
  {
    hide KeyOf, Find, Trim, SetField, Restore;
    var f, rest := NO_FIELDS, content;
    while rest != ""
      invariant ReadLines(NO_FIELDS, Lines(content)) == ReadLines(f, Lines(rest))
      decreases |rest|
    {
      var n := Find(rest, "\n");
      var line := if n < 0 then rest else rest[..n];
      ghost var lines := Lines(rest);
      assert lines[0] == line;
      rest := if n < 0 then "" else rest[n + 1..];
      assert lines[1..] == Lines(rest);
      var buf := Trim(line);
      if buf == "" {
        continue;
      }
      var i := Find(buf, ":");
      if i < 0 {
        return FormatError;
      }
      f := TakeField(f, buf[..i], Trim(buf[i + 1..]));
    }
    r := Restore(f);
  }

  /** The list of checks, grown as the names are recognized. */
  method CreateKvDataInfo(statusid: string, qcIdList: seq<string>) returns (info: Info)
    ensures info == Info(StatusOf(statusid), QcList(qcIdList))
  {
    var qc: seq<QcId> := [];
    for i := 0 to |qcIdList|
      invariant |qc| <= i && qc == QcList(qcIdList[..i])
    {
      assert qcIdList[..i + 1][..i] == qcIdList[..i];
      match QcOf(qcIdList[i]) {
        case Ok(q) =>
          qc := qc + seq(i + 1 - |qc|, _ => QC1);
          qc := qc[i := q];
          assert qc == QcList(qcIdList[..i]) + seq(i - |QcList(qcIdList[..i])|, _ => QC1) + [q];
        case FormatError =>
      }
    }
    assert qcIdList[..|qcIdList|] == qcIdList;
    info := Info(StatusOf(statusid), qc);
  }
}
