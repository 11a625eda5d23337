# Kvalobs: verified model of the service, manager, input and quality-control daemons

This project models, in Dafny 4.11, the stateful parts of kvalobs and proves what they keep over whole runs.
Times are whole seconds. Database tables are sequences, sets or maps by their unique keys. The clock, driver
errors, crashes, other actors and the outcome of each decode or check are parameters, oracles or
nondeterministic choices, so every theorem holds for all of them. Check it with
`dafny verify --resource-limit 2000000 --verification-time-limit 0 dfyconfig.toml`.

| file | models | main results |
|---|---|---|
| `ObsRecords.dfy` | the record list a client should get, as a merge of data and text rows; the ordered select | the list is the only well-formed one holding exactly these rows; a cut in time never splits a record |
| `ObsAssembly.dfy` | `filterData`, the grouping loops with over-allocated lists and trimming, `insertTextData` with its shift loop | the loops build exactly that list |
| `Requests.dfy` | what a request is answered with; inherited end times | window sizes are invisible; the two services agree on every table exactly when their effective ends do |
| `Windows.dfy`, `DataIterator.dfy` | kvServiced's data iterator with its adaptive 3h/12h windows | a client that calls `next` until false receives exactly the answer |
| `FixedDataIterator.dfy` | kvServiced2's iterator with fixed 12h windows | the same, against the same answer function |
| `Services.dfy` | a client of both services | equal streams whenever the effective ends agree |
| `Paging.dfy`, `Workstatistik.dfy` | the iterators over rejected messages and work statistics | full pages but the last, nothing lost or repeated, false exactly at the end |
| `Lifetime.dfy` | creation, calls, destroy, object adapter and reaper as interleaved steps | reference counts, no use after free, one connection release, in every run |
| `Reaper.dfy` | one pass over the reaper's list | terminates; keeps exactly the right objects in order; what each removed object is told |
| `Completion.dfy` | the insert of missing rows | succeeds exactly when no scheduled parameter with a default has more than ten sensors; complete and idempotent |
| `WorkQueue.dfy` | starting and completing rows, moving finished rows to the statistics | conservation, exact move; with data arriving and replaced in between, one row per commit; the queue drains unless stuck |
| `MissingRunner.dfy` | the hourly catch-up under errors and crashes in any statement | hour steps, contiguous coverage, each observation inserted once; which of them are completed, exactly |
| `Registry.dfy` | the five subscriber containers and the durable copy | copy and memory agree, exactly when; index delivery is a plain scan |
| `Restart.dfy` | rebuilding the containers from the durable copy | they agree with it exactly when nobody had asked for a list of stations; the collection is sound again exactly when no hint subscriber was stored either |
| `SubscriberText.dfy` | writer and reader of a stored subscriber | round trip; stations survive exactly when all were wanted |
| `DeadSubscribers.dfy` | the dead-subscriber test | right except after the first failure of an outage, with a stale time |
| `Leases.dfy` | connection cache and one decode request | count of free connections, seven decodes at most, everything given back on return |
| `LeaseProtocol.dfy` | decode requests that run at the same time | no connection leased twice, the count always right, only a throw loses a connection; when a refresh of the parameters blocks the service for ever, exactly |
| `CheckRetry.dfy` | the check transaction and its three retry loops | at most 9 * 256 + 1 attempts, one commit at most, exactly when it succeeds |
| `Sets.dfy`, `Strings.dfy` | helpers | |

Functions named like a method's specification (`Records`, `Answer`, `Survivors`, `Cleaned`, `Changes`, ...) are the
independent reference definitions; the methods are the source's loops, proved against them.

## Where the code and its own words differ

The model follows the code.

- `isHourData` is documented as "0 - hour data, 1 - not" (`src/kvServiced/kvDataIteratorImpl.h:68`); the code sets it to 1
  when the rows fall on one minute of the hour.
- The comment on the number series says 0-9 (`src/kvManagerd/KvalobsDatabaseAccess.cpp:293`); it runs to 10, and
  `sensor::char` cuts 10 down to `1`. A programme with more than ten sensors makes every completion fail
  (`CompletesUnlessPoisoned`), and its observations stay unstarted in the queue for good (`CompleteObservations`).
- A stored station list is read with `find` as a truth value (`src/kvServiced/kvSubscriberCollection.cc:836`, line 838 too): the
  branch that reads the list is dead, and a restored subscriber always listens to all stations.
- An empty id in `unsubscribe` deletes every stored subscriber (`src/kvServiced/KeyValSubscriberTransaction.cc:132-143`).
- `removeThisSubscriber` promises the time since the last contact; the second of its two times survives a
  recovery (`src/kvServiced/kvSubscriberBase.cc:33-50`).
- The retry loop promises a throw after *more than* 256 serialization errors (`src/kvQabased/src/CheckRunner.cpp:220`); it
  throws at the 256th.
- `findFreeConnection` is documented to return 0 when all are busy; it waits.
- The retry flag of `addAllMissingData` outlives a serialization error: from then on only a commit ends that loop
  (`src/kvManagerd/MissingRunner.cpp:93-109`). For an observation that can never be completed it does not end at all
  (`TurnHangsIff`).
- An hour that is searched again after a serialization error ends as done, though what the failed search had inserted is
  no longer missing and is never completed (`LostToARetry`, `CompletedIff`).
- A refresh of the parameters waits for a second connection inside the application's mutex
  (`src/kvDataInputd/DataSrcApp.cc:505-519`). Requests that wait for the mutex never give theirs back, so as many
  requests as there are connections can block the service (`RefreshGoesOnIff`, `EveryCacheCanBlock`).

## Model

| member | source | states |
|---|---|---|
| `ObsRecords.RecordsConserve` | src/kvServiced/kvDataIteratorImpl.cc:193-316 | the record list holds the data rows and the text rows it was built from, each once and in their order |
| `ObsRecords.RecordsSound` | src/kvServiced/kvDataIteratorImpl.cc:193-316 | for time-ordered rows the list is strictly increasing in time, each record is of one time and non-empty, and text stands on the data record of its time |
| `ObsRecords.RecordsUnique` | src/kvServiced/kvDataIteratorImpl.cc:193-316 | a well-formed list is the only one that holds its rows |
| `ObsRecords.WellFormedMeans` | src/kvServiced/kvDataIteratorImpl.cc:193-316 | well-formedness, record by record: strictly later than the one before, data and text of one time |
| `ObsRecords.RecordsSplit` | src/kvServiced/kvDataIteratorImpl.cc:394-417 | merging the rows before and from a cut separately gives the same list as merging all at once: no record is split by a window |
| `ObsRecords.SelectSplit` | src/kvServiced/kvDataIteratorImpl.cc:405-412 | closed windows that end one second before the next begins lose and repeat no row |
| `ObsRecords.SelectWithin` | src/kvServiced/kvDataIteratorImpl.cc:405-434 | a select delivers exactly the rows of the table that are of the station and in the closed interval |
| `ObsRecords.PassingMembers` | src/kvServiced/kvDataIteratorImpl.cc:319-335 | the rows that are left are exactly those that pass the status filter |
| `ObsAssembly.FilterData` | src/kvServiced/kvDataIteratorImpl.cc:319-335 | stops at the next row that passes; all rows stepped over fail the status test |
| `ObsAssembly.AppendRow` | src/kvServiced/kvDataIteratorImpl.cc:204-259 | one more row joins the last record if its time is the same, else opens a record of its own |
| `ObsAssembly.OpenRecord` | src/kvServiced/kvDataIteratorImpl.cc:205-224 | a new time trims the open record, grows the list by its step when full and sets the station of the next |
| `ObsAssembly.AddRow` | src/kvServiced/kvDataIteratorImpl.cc:204-259 | one round of the grouping loop: the half-built, over-allocated list holds the records of one more row |
| `ObsAssembly.GroupData` | src/kvServiced/kvDataIteratorImpl.cc:193-270 | after trimming, the list is exactly the records of the rows that pass the filter |
| `ObsAssembly.InsertTextData` | src/kvServiced/kvDataIteratorImpl.cc:450-496 | search, grow and shift to the right place a text group on the record of its time, or in a new record in order |
| `ObsAssembly.InsertRecords` | src/kvServiced/kvDataIteratorImpl.cc:450-496 | inserting a later text group into the merge of the rows so far is the merge with the group |
| `ObsAssembly.MergeText` | src/kvServiced/kvDataIteratorImpl.cc:280-316 | all text groups inserted one after another give the merge of data and text |
| `ObsAssembly.BuildRecords` | src/kvServiced/kvDataIteratorImpl.cc:191-316 | the second half of `next` builds exactly the reference list of the window |
| `Requests.EntrySplit` | src/kvServiced/kvDataIteratorImpl.cc:394-417 | an entry's records for an interval are those up to one second before a cut followed by those from it |
| `Requests.AnswerRows` | src/kvServiced/kvDataIteratorImpl.cc:363-392 | the answer holds, entry by entry, exactly the passing data rows and the text rows of [from, effective end] |
| `Requests.WindowsInvisible` | src/kvServiced2/kvDataIteratorImpl.cc:307-389 | when no end time is left out the two services owe the same answer to every request on every table |
| `Services.AskBoth` | src/kvServiced2/kvDataIteratorImpl.cc:106-278 | a client that drains both iterators receives the two answers, and equal streams when the effective ends agree |
| `Requests.GivenEndsAgree` | src/kvServiced/kvDataIteratorImpl.cc:366-388 | end times that are not left out, malformed ones included, make the effective ends independent of inheritance |
| `Requests.AgreeingAnswers` | src/kvServiced/kvDataIteratorImpl.cc:366-388 | agreeing effective ends give equal answers |
| `Requests.InheritanceVisible` | src/kvServiced/kvDataIteratorImpl.cc:366-388 | inheriting an absent end time is unobservable on all tables if and only if no served entry's interval changes |
| `Requests.InheritanceVisibleExample` | src/kvServiced/kvDataIteratorImpl.cc:366-388 | a two-entry request whose second end is left out is answered differently by the two services |
| `Windows.OwedCut` | src/kvServiced/kvDataIteratorImpl.cc:394-412 | moving the cursor to a cut takes exactly the records before it off what is owed |
| `Windows.WindowSplits` | src/kvServiced/kvDataIteratorImpl.cc:415-448 | a window's records are what the window owes; when its text select failed, at least all its data rows |
| `DataIterator.IsHourDataCheck` | src/kvServiced/kvDataIteratorImpl.cc:45-58 | true exactly when all rows fall on the same minute of the hour |
| `DataIterator.DataIteratorImpl.constructor` | src/kvServiced/kvDataIteratorImpl.cc:60-68 | a new iterator owes the whole answer |
| `DataIterator.DataIteratorImpl.StartWindow` | src/kvServiced/kvDataIteratorImpl.cc:363-392 | an entry's end is its own, the start time if malformed, or the one before; an invalid start time ends the answer |
| `DataIterator.DataIteratorImpl.EndWindow` | src/kvServiced/kvDataIteratorImpl.cc:394-417 | the adaptive window and the new cursor split what is owed |
| `DataIterator.DataIteratorImpl.NextWindow` | src/kvServiced/kvDataIteratorImpl.cc:363-417 | both together: the window chosen takes its records off what is owed |
| `DataIterator.DataIteratorImpl.FindData` | src/kvServiced/kvDataIteratorImpl.cc:346-448 | delivers the rows of one window and advances; the hour test is due exactly at the start of an entry |
| `DataIterator.DataIteratorImpl.FetchWindow` | src/kvServiced/kvDataIteratorImpl.cc:160-189 | the skip-empty loop terminates by (entries left, time left) and skips nothing owed |
| `DataIterator.DataIteratorImpl.Next` | src/kvServiced/kvDataIteratorImpl.cc:121-317 | returns the next part of the answer; false only at its end, on a failed select or after destroy |
| `DataIterator.DataIteratorImpl.Destroy` | src/kvServiced/kvDataIteratorImpl.cc:84-99 | deactivates, and gives the connection back if it is still held |
| `DataIterator.DataIteratorImpl.CleanUp` | src/kvServiced/kvDataIteratorImpl.cc:503-514 | gives the connection back if it is still held, so once in all, and deletes the request |
| `DataIterator.Drain` | src/kvServiced/test/getdata.cc:86-90 | with working selects the flattened results of all calls are the answer; a failed data select leaves a prefix of it |
| `FixedDataIterator.DataIteratorImpl.FindData` | src/kvServiced2/kvDataIteratorImpl.cc:307-389 | one fixed 12h window of what is owed |
| `FixedDataIterator.DataIteratorImpl.Next` | src/kvServiced2/kvDataIteratorImpl.cc:106-278 | the next part of the same kind of answer, ends not inherited |
| `FixedDataIterator.Drain` | src/kvServiced2/kvDataIteratorImpl.cc:106-278 | all calls together deliver the answer |
| `Paging.BetweenSplit` | src/kvServiced/kvRejectedIteratorImpl.cc:105-128 | half-open windows that meet lose and repeat nothing |
| `Paging.BetweenMeans` | src/kvServiced/kvWorkstatistikIteratorImpl.cc:76-101 | the rows of an interval have their time set and inside it |
| `Paging.RejectedIteratorImpl.Matches` | src/kvServiced/kvRejectedIteratorImpl.cc:61-83 | the loop that trims the list in place accepts a row exactly if its decoder, up to the slash and without space, tab, return and newline around it, is listed, or none is |
| `Paging.RejectedIteratorImpl.FillData` | src/kvServiced/kvRejectedIteratorImpl.cc:50-87 | moves accepted rows behind the cursor to the page, in order, until it is full or the rows are used up |
| `Paging.RejectedIteratorImpl.FindData` | src/kvServiced/kvRejectedIteratorImpl.cc:89-129 | a page off the front of what is left, short only when nothing is left |
| `Paging.RejectedIteratorImpl.Next` | src/kvServiced/kvRejectedIteratorImpl.cc:172-228 | false with working selects only when everything has been delivered |
| `Paging.Drain` | src/kvServiced/kvRejectedIteratorImpl.cc:172-228 | all pages together are the accepted rows with tbtime in (from, to]; every page but the last has 25 |
| `Workstatistik.WorkstatistikIteratorImpl.FindData` | src/kvServiced/kvWorkstatistikIteratorImpl.cc:60-101 | a page off the front of the rows whose chosen time is set and still ahead |
| `Workstatistik.WorkstatistikIteratorImpl.Next` | src/kvServiced/kvWorkstatistikIteratorImpl.cc:170-229 | false with working selects only at the end |
| `Workstatistik.Drain` | src/kvServiced/kvWorkstatistikIteratorImpl.cc:170-229 | all pages together are exactly the rows of the interval, in full pages but the last |
| `Lifetime.StepKeepsInvariant` | src/kvServiced/ReaperBase.cc:53-69 | every step keeps: reference count = creator while active + adapter + list or reaper; freed iff it is zero; request and connection fields in step |
| `Lifetime.RunKeepsInvariant` | src/kvServiced/kvServiceImpl.cc:599-637 | every interleaving of creation, calls, destroy, adapter and reaper keeps the invariant |
| `Lifetime.NeverFreedInUse` | src/kvServiced/kvDataIteratorImpl.cc:84-99 | no possible step touches a freed object; destroy and timeout never drop the last reference |
| `Lifetime.NextReadsLiveData` | src/kvServiced/kvDataIteratorImpl.cc:139-156 | a `next` past its checks has request and connection until it ends |
| `Lifetime.ConnectionReturnedOnce` | src/kvServiced/kvDataIteratorImpl.cc:70-99 | a freed iterator has given its connection back exactly once; it is freed exactly when nobody holds it |
| `Lifetime.InactiveCanBeFreed` | src/kvServiced/ServiceApp.cc:275-291 | in every reachable state a deactivated object can be freed, by eight steps and one for each call in progress |
| `Lifetime.DeleteSoundBeforeActivationOnly` | src/kvServiced/kvServiceImpl.cc:608-634 | deleting a half-created iterator is sound if and only if the adapter does not hold it |
| `Reaper.ReaperBase.Deactivate` | src/kvServiced/ReaperBase.cc:53-62 | leaves the adapter and drops the creator's reference on the first call only |
| `Reaper.ServiceApp.RemoveReaperObj` | src/kvServiced/ServiceApp.cc:238-255 | takes one object off the list in place and drops its reference, or changes nothing |
| `Reaper.ServiceApp.CleanUpReaperObj` | src/kvServiced/ServiceApp.cc:257-312 | terminates; leaves the survivors in order; kept objects untouched, each removed one deactivated at most once, cleaned up once, then released |
| `Reaper.SurvivorsExactly` | src/kvServiced/ServiceApp.cc:273-309 | the survivors are exactly the active objects that run or were used within their time to live |
| `Reaper.EarlierPassInvisible` | src/kvServiced/ServiceApp.cc:257-312 | without use in between an earlier pass changes nothing about a later one's result |
| `Completion.CompletesUnlessPoisoned` | src/kvManagerd/KvalobsDatabaseAccess.cpp:272-339 | the insert meets the unique key if and only if no scheduled parameter with a default has more than ten sensors |
| `Completion.CompletionMeans` | src/kvManagerd/KvalobsDatabaseAccess.cpp:272-339 | afterwards every scheduled element with a default is stored, old rows are unchanged, new ones are default rows for scheduled elements |
| `Completion.NothingLeftIffComplete` | src/kvManagerd/KvalobsDatabaseAccess.cpp:318-330 | the insert selects nothing if and only if the observation is complete |
| `Completion.CompletionIdempotent` | src/kvManagerd/KvalobsDatabaseAccess.cpp:151-168 | a second run inserts nothing |
| `WorkQueue.KvalobsDatabaseAccess.AddMissingData` | src/kvManagerd/KvalobsDatabaseAccess.cpp:151-168 | fails exactly for a stuck observation, else completes it and starts its one queue row with later stages cleared |
| `WorkQueue.KvalobsDatabaseAccess.OneTurn` | src/kvManagerd/ObservationComplete.cpp:50-71 | commits exactly one unstarted row or rolls everything back |
| `WorkQueue.KvalobsDatabaseAccess.NextTurn` | src/kvManagerd/ObservationComplete.cpp:50-71 | a turn behind new data ends as if the data had been there before |
| `WorkQueue.KvalobsDatabaseAccess.CompleteObservations` | src/kvManagerd/ObservationComplete.cpp:47-72 | with data arriving, known observations replaced and queued again included: one row per commit, other rows untouched, stuck ones never started; while none stuck waits each working transaction starts a row or finds none, and without arrivals the queue drains |
| `WorkQueue.ArrivalShortensIff` | src/lib/decoder/decoderbase/DataUpdateTransaction.cc:159-201 | an arrival shortens the queue of unstarted rows if and only if it is not to be queued and replaces an observation that had not been started; otherwise only commits do |
| `WorkQueue.ReplacingKeepsStatistics` | src/lib/decoder/decoderbase/DataUpdateTransaction.cc:211-240 | replacing an observation keeps one statistic each and never loses the one of a finished row |
| `WorkQueue.CleaningStats` | src/kvManagerd/KvalobsDatabaseAccess.cpp:187-198 | a moved observation has the moved row as its only statistic; any other keeps its statistics |
| `WorkQueue.CleaningConserves` | src/kvManagerd/KvalobsDatabaseAccess.cpp:183-203 | exactly the rows with qa_stop set and older than 15 minutes leave the queue; the union of observations in queue and statistics is unchanged |
| `WorkQueue.CleaningKeepsOneEach` | src/kvManagerd/KvalobsDatabaseAccess.cpp:187-198 | at most one statistic per observation stays so |
| `WorkQueue.CleaningIdempotent` | src/kvManagerd/KvalobsDatabaseAccess.cpp:183-203 | a second move at the same time changes no row |
| `WorkQueue.KvalobsDatabaseAccess.CleanWorkQueue` | src/kvManagerd/KvalobsDatabaseAccess.cpp:183-203 | the three statements in one transaction are that move, or nothing |
| `MissingRunner.StationsExpected` | src/kvManagerd/KvalobsDatabaseAccess.cpp:245-270 | the selected stations are exactly those whose programme asks for the type at the hour |
| `MissingRunner.Database.FindMissingOf` | src/kvManagerd/KvalobsDatabaseAccess.cpp:91-98 | creates exactly the due observations that are absent, never meeting the unique key, and covers the hour |
| `MissingRunner.Database.FindAllMissing` | src/kvManagerd/KvalobsDatabaseAccess.cpp:76-101 | the same over all types with a limit; what was created stays whatever error follows |
| `MissingRunner.Database.AddMissingData` | src/kvManagerd/MissingRunner.cpp:92-109 | one observation's turn: it ends as the rule for its fates says, and the observation is completed exactly when it is not stuck, its first transaction meets no other error and one works before a crash |
| `MissingRunner.TurnEndsIff` | src/kvManagerd/MissingRunner.cpp:93-109 | the turn ends with its first transaction, unless that meets a serialization error; then it ends if and only if the observation is not stuck and a transaction works before a crash |
| `MissingRunner.TurnHangsIff` | src/kvManagerd/MissingRunner.cpp:93-109 | in a process that lives, on a database that goes on to work, the loop never ends if and only if the observation is stuck and its first transaction meets a serialization error |
| `MissingRunner.Database.LastFindAllMissingRuntime` | src/kvManagerd/KvalobsDatabaseAccess.cpp:103-132 | the stored time at half past its hour, or a week before now |
| `MissingRunner.Database.AddAllMissingData` | src/kvManagerd/MissingRunner.cpp:89-111 | one search and a turn for each observation it has created: how it ends, that the hour is then covered, and, by the log kept of it, which of them are completed |
| `MissingRunner.CompletedIff` | src/kvManagerd/MissingRunner.cpp:66-111 | over any runs: whatever has been created has been completed if and only if the search that created it ended without an error, its turn came before a crash, and its turn completed it |
| `MissingRunner.CompletedInTime` | src/kvManagerd/MissingRunner.cpp:89-111 | in an hour that ends as done, an observation its search has created is left incomplete if and only if it is stuck or its first transaction meets another error |
| `MissingRunner.LostToARetry` | src/kvManagerd/MissingRunner.cpp:75-86 | one serialization error during a search: the hour is searched again, ends as done, and an observation created by the first search is never completed |
| `MissingRunner.Database.Run` | src/kvManagerd/MissingRunner.cpp:66-87 | completed hours are consecutive, the stored time follows them hour by hour, each is covered, nothing else is created; it ends only caught up with the clock, stopped, or by an error that did occur; the log tells exactly which observations created have been completed |
| `MissingRunner.Service` | src/kvManagerd/MissingRunner.cpp:66-111 | the same over any number of runs, each ended by an error or a crash in any statement, also from a fresh table: nothing else is inserted, every observation once, and the log tells exactly which have been completed |
| `MissingRunner.TargetsContiguous` | src/kvManagerd/KvalobsDatabaseAccess.cpp:80-90 | successive runs look into successive hours of each type |
| `MissingRunner.EveryHourCovered` | src/kvManagerd/MissingRunner.cpp:75-86 | every whole hour between the first and the last run's target is covered |
| `Registry.AgreementOfIds` | src/kvServiced/kvSubscriberCollection.cc:905-935 | the ids stored are exactly the ids in the five containers |
| `Registry.RemovalAgreesIff` | src/kvServiced/KeyValSubscriberTransaction.cc:132-143 | a removal keeps copy and memory in agreement if and only if the id is not empty or nobody is registered |
| `Registry.AgreementAfterWrite` | src/kvServiced/KeyValSubscriberTransaction.cc:80-92 | writing one subscriber's entry keeps all others in agreement |
| `Registry.AdditionEntries` | src/kvServiced/kvSubscriberCollection.cc:255-286 | a registration gets an entry and leaves the entries of all others alone |
| `Registry.DeliveryAfterRegistration` | src/kvServiced/kvSubscriberCollection.cc:471-502 | the new registration is delivered to last for its station, all other deliveries are unchanged |
| `Registry.DeliveryAfterRemoval` | src/kvServiced/kvSubscriberCollection.cc:332-361 | after a removal the others are delivered to as before, in order |
| `Registry.NewIdHasKind` | src/kvServiced/kvSubscriberCollection.cc:165-180 | the type can be read off every new id |
| `Registry.FindEntry` | src/kvServiced/kvSubscriberCollection.cc:1005-1070 | the writer's loops find the first listing and all stations of a subscriber |
| `Registry.RemoveFromList` | src/kvServiced/kvSubscriberCollection.cc:337-347 | erase and restart removes every listing of the id, keeps the rest in order, and terminates |
| `Registry.ForListed` | src/kvServiced/kvSubscriberCollection.cc:588-597 | the range between the multimap's bounds is the plain scan for the station |
| `Registry.ForAllSubscribers` | src/kvServiced/kvSubscriberCollection.cc:426-450 | each all-stations subscriber once, then each registration for the station once |
| `Registry.KvSubscriberCollection.CreateSubscriberid` | src/kvServiced/kvSubscriberCollection.cc:140-195 | the first of a thousand ids that is fresh, or a failure exactly if none is |
| `Registry.KvSubscriberCollection.Store` | src/kvServiced/kvSubscriberCollection.cc:264-286 | one registration at its place and its entry in the copy, in agreement |
| `Registry.KvSubscriberCollection.AddSubscriber` | src/kvServiced/kvSubscriberCollection.cc:452-502 | one registration, id made on the first; a failed insert takes a new id back, which keeps the agreement if and only if nobody was registered under it, and which the caller's subscriber keeps |
| `Registry.TakingBackAgreesIff` | src/kvServiced/kvSubscriberCollection.cc:197-213 | deleting one id's row alone keeps the copy right if and only if the id is not registered |
| `Registry.KvSubscriberCollection.AddKvHintSubscriber` | src/kvServiced/kvSubscriberCollection.cc:504-521 | a hint subscriber added with a fresh id, copy and memory in agreement |
| `Registry.KvSubscriberCollection.RemoveSubscriber` | src/kvServiced/kvSubscriberCollection.cc:363-376 | every listing of the id is gone, the rest in order; agreement exactly as above |
| `Registry.KvSubscriberCollection.RemoveDeadSubscribers` | src/kvServiced/kvSubscriberCollection.cc:382-424 | exactly the entries whose id is dead go, however often listed, the rest stay in order, agreement kept |
| `Restart.ReadAllSubscribersFromDb` | src/kvServiced/kvSubscriberCollection.cc:728-773 | the loading loop rebuilds memory row by row, unreadable rows left out |
| `Restart.ReloadEntries` | src/kvServiced/kvSubscriberCollection.cc:1105-1190 | after any number of rows each subscriber read has the entry of an all-stations subscriber, and nobody else has one |
| `Restart.RestartAgreesIff` | src/kvServiced/kvSubscriberCollection.cc:728-773 | the rebuilt containers agree with the copy if and only if no data or datanotify entry holds a station list |
| `Restart.Start` | src/kvServiced/kvSubscriberCollection.cc:728-773 | the collection a restart goes on with is sound if and only if no station list and no hint subscriber was stored |
| `Restart.AgreeingCopyIsGood` | src/kvServiced/kvSubscriberCollection.cc:937-1070 | a copy in agreement with its containers is one the restart can read |
| `SubscriberText.EveryReadSubscriberListensToAll` | src/kvServiced/kvSubscriberCollection.cc:830-847 | whatever is stored, no station list is ever read |
| `SubscriberText.RoundTrip` | src/kvServiced/kvSubscriberCollection.cc:620-687 | reading what was written recovers type, id, reference, status and check list |
| `SubscriberText.StationsSurviveIffAll` | src/kvServiced/kvSubscriberCollection.cc:937-1070 | the stations come back if and only if the subscriber listened to all |
| `SubscriberText.QcRoundTrip` | src/kvServiced/kvSubscriberCollection.cc:1192-1232 | every list of checks is recovered, the empty one too |
| `SubscriberText.LinesOfUnlines` | src/kvServiced/kvSubscriberCollection.cc:795-800 | reading line by line gives back the lines written |
| `SubscriberText.KeysRecognized` | src/kvServiced/kvSubscriberCollection.cc:816-852 | each written key is recognized as itself by the substring tests, in their order |
| `SubscriberText.ReadSubscriberFromDb` | src/kvServiced/kvSubscriberCollection.cc:775-903 | the reader's loop computes the parse that the lemmas speak of |
| `SubscriberText.CreateKvDataInfo` | src/kvServiced/kvSubscriberCollection.cc:1192-1232 | the growing list of checks, unknown names left out |
| `DeadSubscribers.KvSubscriberBase.RemoveThisSubscriber` | src/kvServiced/kvSubscriberBase.cc:52-71 | the test on the two times kept |
| `DeadSubscribers.VerdictRightUnlessStale` | src/kvServiced/kvSubscriberBase.cc:33-71 | the test agrees with the history of contacts if and only if it is not the first failure of an outage with a far-off older time |
| `DeadSubscribers.RemovedAfterOneFailure` | src/kvServiced/kvSubscriberBase.cc:33-71 | a subscriber that recovered is removed at one later failure |
| `Leases.ConnectionCache.AddConnection` | src/kvDataInputd/ConnectionCache.cc:39-62 | a new connection is free and the count right |
| `Leases.ConnectionCache.FindFreeConnection` | src/kvDataInputd/ConnectionCache.cc:64-83 | leases a connection that was free and keeps the count; with a right count it never falls through, with one too high it does exactly when none is free, and the count is right again |
| `Leases.ConnectionCache.FreeConnection` | src/kvDataInputd/ConnectionCache.cc:85-102 | the count is one further off if and only if the connection was free |
| `Leases.DataSrcApp.RegisterParams` | src/kvDataInputd/DataSrcApp.cc:353-469 | leaves the free connections as they were; counts one twice exactly on the unknown-exception path |
| `Leases.DataSrcApp.Create` | src/kvDataInputd/DataSrcApp.cc:492-545 | a connection and a decoder, or neither |
| `Leases.DataSrcApp.NewObservation` | src/kvDataInputd/DataSrcApp.cc:682-788 | at most seven decodes; on return every lease and decoder is back; throws exactly after six redirects and a seventh, leaving one of each; the count is too high by one for each refresh that ended in an unknown exception |
| `LeaseProtocol.StepKeepsInvariant` | src/kvDataInputd/ConnectionCache.cc:39-102 | each locked region keeps the count and who holds what |
| `LeaseProtocol.RunKeepsInvariant` | src/kvDataInputd/DataSrcApp.cc:492-571 | every interleaving of requests keeps them |
| `LeaseProtocol.NeverLeasedTwice` | src/kvDataInputd/ConnectionCache.cc:64-83 | in no run do two requests hold a connection, and a positive count means a free one |
| `LeaseProtocol.DecodersNotShared` | src/kvDataInputd/DataSrcApp.cc:508-571 | each decoder in use is used by exactly one request |
| `LeaseProtocol.OnlyThrownLose` | src/kvDataInputd/DataSrcApp.cc:726-734 | when all requests have ended, the connections missing are exactly those of the requests that threw |
| `LeaseProtocol.AllBackWhenEnded` | src/kvDataInputd/DataSrcApp.cc:547-571 | when all have returned, every connection is free and no decoder in use |
| `LeaseProtocol.RefreshGoesOnIff` | src/kvDataInputd/DataSrcApp.cc:505-519 | in every run, a request that has to refresh the parameters can go on without a new connection if and only if one is free or held by a request that is decoding or has found no decoder |
| `LeaseProtocol.BlockedForEver` | src/kvDataInputd/DataSrcApp.cc:505-571 | otherwise it stays blocked, and nothing but arrivals can ever happen |
| `LeaseProtocol.RefreshNeedsSecondConnection` | src/kvDataInputd/DataSrcApp.cc:353-369 | with a single connection a refresh inside a request is always blocked |
| `LeaseProtocol.EveryCacheCanBlock` | src/kvDataInputd/DataSrcApp.cc:492-519 | for every number of connections, two included, some run of as many requests blocks |
| `CheckRetry.CheckRunner.CheckObservation` | src/kvQabased/src/CheckRunner.cpp:253-371 | one attempt stores all its changes at once or nothing, and rolls back on every other way out |
| `CheckRetry.CheckRunner.NewObservation` | src/kvQabased/src/CheckRunner.cpp:163-246 | the last attempt is the one where the run ends by the declarative rule; only it can commit, all others are rolled back; if it finds a row touched by the human quality control nothing is stored |
| `CheckRetry.EndsOnce` | src/kvQabased/src/CheckRunner.cpp:188-232 | for every pattern of errors a run ends at one attempt only |
| `CheckRetry.AttemptsBounded` | src/kvQabased/src/CheckRunner.cpp:188-232 | at most 9 * 256 + 1 attempts |
| `CheckRetry.StoredIff` | src/kvQabased/src/CheckRunner.cpp:163-246 | changes are stored if and only if an attempt that would commit is reached |
| `CheckRetry.LongStreakThrows` | src/kvQabased/src/CheckRunner.cpp:201-222 | 256 serialization errors in a row end the run at once |

## Left out

- CORBA, Kafka, HTTP, logging, configuration and pid files: plumbing; only "succeeded or failed" appears, as an oracle.
- Fractional seconds of times, the text form of times in CORBA lists, and database time zones.
- Order of rows of equal time: the tables are kept in the order a select returns, and do not change while a client reads.
- DataIterator.Drain: models a client's loop around `next`; after a failed data select it promises a prefix, not which one.
- Lifetime.InactiveCanBeFreed: possibility, not fairness; the scheduler of the adapter and the reaper is not modelled.
- Reaper.ServiceApp.CleanUpReaperObj: the uses made of the objects do not change during a pass; the race of a call with the timeout is in `Lifetime`, where a running object may be timed out.
- MissingRunner.Service: other inserters are excluded. A process that is killed is a fate that ends the list of its fates; the loop that never ends shows as such a list, and is stated in `TurnHangsIff`.
- MissingRunner.Database.SetLastFindAllMissingRuntime: delete and insert are one atomic step; a transaction left open by a failed statement is not modelled.
- WorkQueue.KvalobsDatabaseAccess.CompleteObservations: the later stages of a started row are not taken while the loop runs. Which data an update merges is a parameter. Which unstarted row is taken is left open, as the query leaves it.
- Completion.CompletionMeans: nr_sensor NULL is 0 sensors; default_missing_values has one row a parameter, as the shipped view has. `VACUUM` is left out.
- Registry.KvSubscriberCollection.AddSubscriber: the data and datanotify versions are one method with the kind as a parameter. Clock and database failures are left out; the durable copy holds entries, whose text form is in `SubscriberText` and is read back in `Restart`.
- Restart.ReadAllSubscribersFromDb: that every stored reference still resolves is assumed.
- Registry.KvSubscriberCollection.RemoveDeadSubscribers: which subscribers are dead is a parameter, fixed for the pass; the test itself is in `DeadSubscribers`.
- sendKvHintUp and sendKvHintDown.
- SubscriberText.RoundTrip: ids, references and times are non-empty, on one line and without blanks around them; resolving the reference is left out. Positions a malformed list of checks leaves unset hold the first value.
- DeadSubscribers.VerdictRightUnlessStale: clock readings are in order and larger than the limit.
- Leases.DataSrcApp.NewObservation: a wait for a connection always ends here; waiting and other requests are in `LeaseProtocol`. In `LeaseProtocol` the unknown-exception path of the parameter refresh is excluded, in both allocation failures; the executor's polling loops are one outcome.
- CheckRetry.CheckRunner.CheckObservation: what a check script computes, the rule for use flags and the human quality control's own test are parameters; the read caches are not part of this model.
- Fairness and deadlock of mutexes and condition variables: each locked region is one step.
- kvServiced2 apart from its data iterator, the model-data iterator, the simple list getters, and the command-line tools: easy members.
