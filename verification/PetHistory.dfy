/** The ownership history of a pet, rebuilt from the events of its registry. */
module PetHistory {
  import opened Wrappers

  datatype Receipt = Receipt(txHash: string, blockNumber: nat, timestamp: nat)

  datatype Event =
    | Created(controller: string, receipt: Receipt)
    | Changed(oldController: string, newController: string, receipt: Receipt)

  datatype Entry = Entry(registered: bool, controller: string, previous: Option<string>, receipt: Receipt)

  datatype Report = Report(current: Option<string>, totalTransfers: nat, history: seq<Entry>)

  function Holder(e: Event): string {
    if e.Created? then e.controller else e.newController
  }

  function EntryOf(e: Event): Entry {
    Entry(e.Created?, Holder(e), if e.Created? then None else Some(e.oldController), e.receipt)
  }

  function Entries(events: seq<Event>): (r: seq<Entry>)
    ensures |r| == |events|
  {
    seq(|events|, i requires 0 <= i < |events| => EntryOf(events[i]))
  }

  // ----- the sort -----

  /** Puts `e` before the first entry that is later. */
  function Insert(e: Entry, s: seq<Entry>): seq<Entry> {
    if s == [] || e.receipt.timestamp <= s[0].receipt.timestamp then [e] + s
    else [s[0]] + Insert(e, s[1..])
  }

  /** `sort((a, b) => a.timestamp - b.timestamp)`, which is stable. */
  function StableSort(s: seq<Entry>): seq<Entry> {
    if s == [] then [] else Insert(s[0], StableSort(s[1..]))
  }

  predicate Sorted(s: seq<Entry>) {
    forall i, j :: 0 <= i < j < |s| ==> s[i].receipt.timestamp <= s[j].receipt.timestamp
  }

  /** The entries of one timestamp, in order. */
  function At(s: seq<Entry>, t: nat): seq<Entry> {
    if s == [] then []
    else (if s[0].receipt.timestamp == t then [s[0]] else []) + At(s[1..], t)
  }

  lemma {:induction false} InsertPermutes(e: Entry, s: seq<Entry>)
    ensures multiset(Insert(e, s)) == multiset{e} + multiset(s)
  {
    if s == [] || e.receipt.timestamp <= s[0].receipt.timestamp {
    } else {
      InsertPermutes(e, s[1..]);
      assert s == [s[0]] + s[1..];
    }
  }

  /** What is inserted comes from the list or is the entry itself. */
  lemma {:induction false} InsertHolds(e: Entry, s: seq<Entry>, x: Entry)
    requires x in Insert(e, s)
    ensures x == e || x in s
  {
    if s == [] || e.receipt.timestamp <= s[0].receipt.timestamp {
      assert Insert(e, s) == [e] + s;
    } else if x != s[0] {
      InsertHolds(e, s[1..], x);
    }
  }

  lemma SortedAfter(first: Entry, rest: seq<Entry>)
    requires Sorted(rest) && forall x :: x in rest ==> first.receipt.timestamp <= x.receipt.timestamp
    ensures Sorted([first] + rest)
  {
  }

  lemma {:induction false} InsertSorts(e: Entry, s: seq<Entry>)
    requires Sorted(s)
    ensures Sorted(Insert(e, s))
  {
    if s == [] || e.receipt.timestamp <= s[0].receipt.timestamp {
      SortedAfter(e, s);
    } else {
      InsertSorts(e, s[1..]);
      forall x | x in Insert(e, s[1..]) ensures s[0].receipt.timestamp <= x.receipt.timestamp {
        InsertHolds(e, s[1..], x);
      }
      SortedAfter(s[0], Insert(e, s[1..]));
    }
  }

  lemma AtHead(e: Entry, rest: seq<Entry>, t: nat)
    ensures At([e] + rest, t) == (if e.receipt.timestamp == t then [e] + At(rest, t) else At(rest, t))
  {
    assert ([e] + rest)[1..] == rest;
  }

  lemma {:induction false} InsertKeepsAt(e: Entry, s: seq<Entry>, t: nat)
    ensures At(Insert(e, s), t) == if e.receipt.timestamp == t then [e] + At(s, t) else At(s, t)
  {
    if s == [] || e.receipt.timestamp <= s[0].receipt.timestamp {
      AtHead(e, s, t);
    } else {
      InsertKeepsAt(e, s[1..], t);
      AtHead(s[0], Insert(e, s[1..]), t);
      AtHead(s[0], s[1..], t);
      assert s == [s[0]] + s[1..];
    }
  }

  /** The sort is a sorted permutation that keeps the order of entries of one timestamp. */
  lemma {:induction false} SortIsStable(s: seq<Entry>)
    ensures Sorted(StableSort(s)) && multiset(StableSort(s)) == multiset(s)
    ensures forall t :: At(StableSort(s), t) == At(s, t)
  {
    if s == [] {
    } else {
      SortIsStable(s[1..]);
      var rest := StableSort(s[1..]);
      InsertSorts(s[0], rest);
      InsertPermutes(s[0], rest);
      assert s == [s[0]] + s[1..];
      forall t ensures At(StableSort(s), t) == At(s, t) {
        InsertKeepsAt(s[0], rest, t);
        AtHead(s[0], s[1..], t);
      }
    }
  }

  lemma {:induction false} AtHolds(s: seq<Entry>, t: nat, e: Entry)
    ensures e in At(s, t) <==> e in s && e.receipt.timestamp == t
  {
    if s == [] {
    } else {
      AtHolds(s[1..], t, e);
      assert s == [s[0]] + s[1..];
    }
  }

  /** Any sort that meets this description gives the same list, whatever its algorithm. */
  lemma {:induction false} StableSortIsUnique(a: seq<Entry>, b: seq<Entry>)
    requires Sorted(a) && Sorted(b) && forall t :: At(a, t) == At(b, t)
    ensures a == b
  {
    if a == [] {
      var t := if b == [] then 0 else b[0].receipt.timestamp;
      assert At(b, t) == At(a, t) == [];
    } else {
      SameHead(a, b);
      forall t ensures At(a[1..], t) == At(b[1..], t) {
        var head := if a[0].receipt.timestamp == t then [a[0]] else [];
        assert At(a, t) == head + At(a[1..], t) && At(b, t) == head + At(b[1..], t);
        assert (head + At(a[1..], t))[|head|..] == At(a[1..], t);
        assert (head + At(b[1..], t))[|head|..] == At(b[1..], t);
      }
      StableSortIsUnique(a[1..], b[1..]);
    }
  }

  lemma SameHead(a: seq<Entry>, b: seq<Entry>)
    requires Sorted(a) && Sorted(b) && a != [] && forall t :: At(a, t) == At(b, t)
    ensures b != [] && a[0] == b[0]
  {
    var t := a[0].receipt.timestamp;
    AtHolds(a, t, a[0]);
    AtHolds(b, t, a[0]);
    var u := b[0].receipt.timestamp;
    AtHolds(b, u, b[0]);
    AtHolds(a, u, b[0]);
    assert At(a, t)[0] == a[0] && At(b, u)[0] == b[0];
  }

  /** The sort changes nothing exactly when the timestamps already run forward. */
  lemma SortKeepsOrderIff(s: seq<Entry>)
    ensures StableSort(s) == s <==> Sorted(s)
  {
    SortIsStable(s);
    if Sorted(s) {
      StableSortIsUnique(StableSort(s), s);
    }
  }

  // ----- the report -----

  function Chronicle(created: seq<Event>, changed: seq<Event>): seq<Entry> {
    Entries(created[..if created == [] then 0 else 1] + changed)
  }

  /** The current controller is read before the list is sorted. */
  function ReportOf(created: seq<Event>, changed: seq<Event>): Report {
    var history := Chronicle(created, changed);
    Report(if history == [] then None else Some(history[|history| - 1].controller), |changed|, StableSort(history))
  }

  method GetPetControllerHistory(created: seq<Event>, changed: seq<Event>) returns (report: Report)
    ensures report == ReportOf(created, changed)
  {
    var history: seq<Entry> := [];
    if |created| > 0 {
      history := history + [EntryOf(created[0])];
    }
    ghost var first := history;
    for i := 0 to |changed|
      invariant history == first + Entries(changed[..i])
    {
      history := history + [EntryOf(changed[i])];
    }
    assert changed[..|changed|] == changed;
    assert history == Chronicle(created, changed);
    var current := if |history| > 0 then Some(history[|history| - 1].controller) else None;
    report := Report(current, |changed|, StableSort(history));
  }

  /** What an event says, as an entry. */
  predicate Reads(e: Entry, event: Event) {
    match event
    case Created(controller, receipt) => e == Entry(true, controller, None, receipt)
    case Changed(oldController, newController, receipt) =>
      e == Entry(false, newController, Some(oldController), receipt)
  }

  /** One entry for the first creation, if any, and then one for each change. */
  predicate ListsEvents(created: seq<Event>, changed: seq<Event>, unsorted: seq<Entry>) {
    var first := if |created| == 0 then 0 else 1;
    && |unsorted| == first + |changed|
    && (first == 1 ==> Reads(unsorted[0], created[0]))
    && forall i :: first <= i < |unsorted| ==> Reads(unsorted[i], changed[i - first])
  }

  /**
   For any events, linked or not: the history lists the first creation and all changes, in the order of
   their times and, within one time, as they came; the current controller is that of the last change, or
   of the creation; and the changes are counted.
   */
  lemma ReportIsStableSort(created: seq<Event>, changed: seq<Event>, unsorted: seq<Entry>)
    requires ListsEvents(created, changed, unsorted)
    ensures var r := ReportOf(created, changed);
      && Sorted(r.history) && multiset(r.history) == multiset(unsorted)
      && (forall t :: At(r.history, t) == At(unsorted, t))
      && r.current == (if unsorted == [] then None else Some(unsorted[|unsorted| - 1].controller))
      && r.totalTransfers == |changed|
  {
    ChronicleLists(created, changed, unsorted);
    SortIsStable(unsorted);
  }

  lemma ChronicleLists(created: seq<Event>, changed: seq<Event>, unsorted: seq<Entry>)
    requires ListsEvents(created, changed, unsorted)
    ensures Chronicle(created, changed) == unsorted
  {
    var first := if |created| == 0 then 0 else 1;
    assert created[..first] + changed == if first == 0 then changed else [created[0]] + changed;
  }

  // ----- the chain -----

  /** Who controls the pet after these events. */
  function ControllerAfter(log: seq<Event>): Option<string> {
    if log == [] then None else Some(Holder(log[|log| - 1]))
  }

  /** A log of the registry: a creation, then changes that each start from the controller of the time. */
  predicate ChainLog(log: seq<Event>) {
    && (forall i :: 0 <= i < |log| ==> (log[i].Created? <==> i == 0))
    && (forall i :: 0 < i < |log| ==> ControllerAfter(log[..i]) == Some(log[i].oldController))
    && (forall i, j :: 0 <= i < j < |log| ==> log[i].receipt.timestamp <= log[j].receipt.timestamp)
  }

  function Only(log: seq<Event>, created: bool): seq<Event> {
    if log == [] then []
    else (if log[0].Created? == created then [log[0]] else []) + Only(log[1..], created)
  }

  lemma {:induction false} OnlyChanges(log: seq<Event>)
    requires forall i :: 0 <= i < |log| ==> log[i].Changed?
    ensures Only(log, true) == [] && Only(log, false) == log
  {
    if log == [] {
    } else {
      OnlyChanges(log[1..]);
    }
  }

  /**
   The history is a faithful replay of the chain: one entry per event in chain order, each with
   the controller after it and before it; the current controller is that of the replay and of
   the last entry; and the transfers are counted.
   */
  lemma HistoryIsReplay(log: seq<Event>)
    requires ChainLog(log)
    ensures var r := ReportOf(Only(log, true), Only(log, false));
      && |r.history| == |log|
      && (forall i :: 0 <= i < |log| ==> FollowsChain(log, i, r.history[i]))
      && r.current == ControllerAfter(log)
      && (log != [] ==> r.current == Some(r.history[|log| - 1].controller))
      && r.totalTransfers == if log == [] then 0 else |log| - 1
  {
    if log == [] {
    } else {
      ReportOfChain(log);
      forall i | 0 <= i < |log| ensures FollowsChain(log, i, Entries(log)[i]) {
        EntryFollowsChain(log, i);
      }
    }
  }

  /** The entry of event `i`: its kind, its receipt, and the controllers after it and before it. */
  predicate FollowsChain(log: seq<Event>, i: nat, e: Entry)
    requires i < |log|
  {
    && (e.registered <==> i == 0) && e.receipt == log[i].receipt
    && Some(e.controller) == ControllerAfter(log[..i + 1])
    && e.previous == ControllerAfter(log[..i])
  }

  lemma EntryFollowsChain(log: seq<Event>, i: nat)
    requires ChainLog(log) && i < |log|
    ensures FollowsChain(log, i, EntryOf(log[i]))
  {
    assert log[i].Created? <==> i == 0;
  }

  lemma ChainParts(log: seq<Event>)
    requires ChainLog(log) && log != []
    ensures Only(log, true) == [log[0]] && Only(log, false) == log[1..]
  {
    forall i | 0 <= i < |log[1..]| ensures log[1..][i].Changed? {
      assert log[i + 1].Created? <==> i + 1 == 0;
    }
    OnlyChanges(log[1..]);
    assert log[0].Created?;
  }

  lemma ChronicleOf(log: seq<Event>)
    requires log != []
    ensures Chronicle([log[0]], log[1..]) == Entries(log)
  {
    assert [log[0]][..1] + log[1..] == log;
  }

  lemma ReportOfChain(log: seq<Event>)
    requires ChainLog(log) && log != []
    ensures ReportOf(Only(log, true), Only(log, false))
            == Report(Some(Holder(log[|log| - 1])), |log| - 1, Entries(log))
  {
    ChainParts(log);
    ChronicleOf(log);
    assert Sorted(Entries(log));
    SortKeepsOrderIff(Entries(log));
  }
}
