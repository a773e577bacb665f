/** The event monitor. One pass reads the persisted checkpoint, asks the
    marketplace for the events that occurred since then, keeps those whose
    contract belongs to a tracked project, appends them to the event store
    and, when all of that succeeded, moves the checkpoint to the time the
    pass started. Instants are integers counting nanoseconds since the Unix
    epoch. */
module OpenSea {
  import opened Common
  import opened Externals
  import opened Response
  import opened Record
  import opened Utils

  /** The key of the checkpoint document in the configuration collection. */
  const LastUpdateKey := "lastUpdateTime"

  const NanosPerMilli: int := 1_000_000
  const NanosPerSecond: int := 1_000_000_000

  /** How far back the first pass looks when there is no checkpoint. */
  const Day: int := 24 * 60 * 60 * NanosPerSecond

  /** `t.Unix()`: whole seconds, rounded towards minus infinity. */
  function Unix(t: int): (seconds: int) {
    t / NanosPerSecond
  }

  /** The store keeps instants in milliseconds, dropping the rest. */
  function Millis(t: int): (millis: int) {
    t / NanosPerMilli
  }

  /** The checkpoint document: the instant of the last complete pass and
      the server's time when it was written, both in milliseconds. */
  datatype Checkpoint = Checkpoint(valueMillis: int, lastModifiedMillis: int)

  /** How an ordered bulk insert ended: every document written, or a
      failure after the first `count` documents. */
  datatype InsertOutcome = Inserted | FailedAfter(count: nat, message: string)

  /** What the store and the clock answer during one pass, besides its
      contents: a failure of each call, or the server's time. */
  datatype Faults = Faults(
    /** reading the checkpoint failed for a reason other than its absence */
    checkpointRead: Option<string>,
    /** the query on the projects collection failed */
    projectsFind: Option<Error>,
    /** decoding the projects failed */
    projectsRead: Option<string>,
    eventsInsert: InsertOutcome,
    checkpointWrite: Option<string>,
    /** the server's clock, in milliseconds, when the checkpoint is written */
    serverTime: int)

  /** The marketplace's event feed: the reply for a window given by its
      bounds in Unix seconds. */
  type Feed = (int, int) -> Result<seq<AssetEvent>>

  /** One pass's view of the outside world: the clock reading that ends the
      window, the clock reading stamped on the records, the feed and the
      store's failures. */
  datatype Tick = Tick(now: int, createdAt: int, feed: Feed, faults: Faults)

  /** The three collections the monitor uses. */
  datatype Store = Store(config: map<string, Checkpoint>, projects: seq<Project>, events: seq<Record>)

  datatype Outcome = Outcome(store: Store, err: Option<Error>)

  function Min(a: int, b: int): (m: int) {
    if a <= b then a else b
  }

  // ---------------------------------------------------------------------
  // Specification

  /** The project map built from the stored projects, in store order: each
      project goes under the checksum form of its address, and its address
      is replaced by that form. */
  function IndexProjects(m: map<string, Project>, docs: seq<Project>, checksum: string -> string): (r: map<string, Project>)
    ensures m.Keys <= r.Keys
    ensures forall i :: 0 <= i < |docs| ==> checksum(docs[i].address) in r
  {
    if docs == [] then m
    else
      var n := |docs| - 1;
      var key := checksum(docs[n].address);
      assert forall i :: 0 <= i < n ==> docs[..n][i] == docs[i];
      IndexProjects(m, docs[..n], checksum)[key := docs[n].(address := key)]
  }

  /** The project map a pass filters with. Its loading error is ignored,
      so a failed load leaves the map empty. */
  function TrackedProjects(projects: seq<Project>, faults: Faults, checksum: string -> string): (topN: map<string, Project>)
    ensures faults.projectsFind.Some? || faults.projectsRead.Some? ==> topN == map[]
    ensures faults.projectsFind.None? && faults.projectsRead.None? ==>
      forall i :: 0 <= i < |projects| ==> checksum(projects[i].address) in topN
    ensures forall k :: k in topN ==> topN[k].address == k
  {
    if faults.projectsFind.None? && faults.projectsRead.None? then
      IndexProjectsNormalised(map[], projects, checksum);
      IndexProjects(map[], projects, checksum)
    else map[]
  }

  predicate Tracked(ae: AssetEvent, topN: map<string, Project>, lib: Library) {
    lib.checksum(ae.asset.assetContract.address) in topN
  }

  /** Every event of a tracked contract names its sender. */
  predicate SendersPresent(evs: seq<AssetEvent>, topN: map<string, Project>, lib: Library) {
    forall i :: 0 <= i < |evs| && Tracked(evs[i], topN, lib) ==> evs[i].fromAccount.Some?
  }

  /** A successful reply names the sender of every event whose contract is
      in the project map the filter uses, that is, of every event it
      converts. */
  predicate ReplyConvertible(reply: Result<seq<AssetEvent>>, projects: seq<Project>, faults: Faults, lib: Library) {
    reply.Ok? ==> SendersPresent(reply.value, TrackedProjects(projects, faults, lib.checksum), lib)
  }

  /** A pass reads senders only once the checkpoint has been read, and then
      only those of the events it converts from its window's reply. */
  predicate PassConvertible(s: Store, t: Tick, lib: Library) {
    t.faults.checkpointRead.None? ==>
      ReplyConvertible(t.feed(Unix(WindowStart(s.config, t.now)), Unix(t.now)), s.projects, t.faults, lib)
  }


  /** The records made from the events of tracked contracts, in feed order. */
  function KeptRecords(evs: seq<AssetEvent>, topN: map<string, Project>, createdAt: int, lib: Library): (r: seq<Record>)
    requires SendersPresent(evs, topN, lib)
    ensures |r| <= |evs|
  {
    if evs == [] then []
    else
      var n := |evs| - 1;
      assert evs[..n] + [evs[n]] == evs;
      var prev := KeptRecords(evs[..n], topN, createdAt, lib);
      if Tracked(evs[n], topN, lib) then prev + [ToRecord(evs[n], createdAt, lib)] else prev
  }

  /** The instant a pass's window starts at: the stored checkpoint, or a
      day before `now` when there is none. */
  function WindowStart(config: map<string, Checkpoint>, now: int): (start: int)
    ensures LastUpdateKey in config ==>
      start % NanosPerMilli == 0 && Millis(start) == config[LastUpdateKey].valueMillis
    ensures LastUpdateKey !in config ==> now - start == Day
  {
    if LastUpdateKey in config then
      var v := config[LastUpdateKey].valueMillis;
      DivModUnique(v * NanosPerMilli, NanosPerMilli, v, 0);
      v * NanosPerMilli
    else now - Day
  }

  /** One pass over the store. Every step runs only when the previous one
      succeeded; the event store only grows, and the checkpoint moves only
      when the whole pass succeeded. */
  function Pass(s: Store, t: Tick, lib: Library): (o: Outcome)
    requires PassConvertible(s, t, lib)
    ensures o.store.projects == s.projects
    ensures s.events <= o.store.events
    ensures o.err.Some? ==> o.store.config == s.config
    ensures o.err.None? ==> o.store.config == s.config[LastUpdateKey := Checkpoint(Millis(t.now), t.faults.serverTime)]
  {
    if t.faults.checkpointRead.Some? then Outcome(s, Some(Failure(t.faults.checkpointRead.value)))
    else
      var reply := t.feed(Unix(WindowStart(s.config, t.now)), Unix(t.now));
      if reply.Err? then Outcome(s, Some(reply.error))
      else
        var records := KeptRecords(reply.value, TrackedProjects(s.projects, t.faults, lib.checksum), t.createdAt, lib);
        if records != [] && t.faults.eventsInsert.FailedAfter? then
          var n := Min(t.faults.eventsInsert.count, |records|);
          Outcome(s.(events := s.events + records[..n]), Some(Failure(t.faults.eventsInsert.message)))
        else
          var written := s.(events := s.events + records);
          if t.faults.checkpointWrite.Some? then Outcome(written, Some(Failure(t.faults.checkpointWrite.value)))
          else Outcome(written.(config := s.config[LastUpdateKey := Checkpoint(Millis(t.now), t.faults.serverTime)]), None)
  }

  /** Each pass of a run, started from the store the previous passes left,
      meets its own sender condition. */
  predicate RunConvertible(s: Store, ticks: seq<Tick>, lib: Library)
    decreases |ticks|
  {
    ticks == [] || (PassConvertible(s, ticks[0], lib) && RunConvertible(Pass(s, ticks[0], lib).store, ticks[1..], lib))
  }

  /** The store after a pass per tick, in order, whatever each pass returned. */
  function Run(s: Store, ticks: seq<Tick>, lib: Library): (r: Store)
    requires RunConvertible(s, ticks, lib)
    ensures r.projects == s.projects
    ensures s.events <= r.events
    decreases |ticks|
  {
    if ticks == [] then s
    else
      var next := Pass(s, ticks[0], lib).store;
      Run(next, ticks[1..], lib)
  }

  // ---------------------------------------------------------------------
  // The monitor

  class OpenSea {
    const lib: Library
    /** the configuration collection, by key */
    var config: map<string, Checkpoint>
    /** the projects collection, in store order */
    var projects: seq<Project>
    /** the events collection, in insertion order */
    var events: seq<Record>

    constructor (lib: Library, config: map<string, Checkpoint>, projects: seq<Project>, events: seq<Record>)
      ensures this.lib == lib && this.config == config && this.projects == projects && this.events == events
    {
      this.lib := lib;
      this.config := config;
      this.projects := projects;
      this.events := events;
    }

    function State(): (st: Store)
      reads this
    {
      Store(config, projects, events)
    }

    /** The stored checkpoint. Its absence is not an error; any other
        failure to read it is. */
    method LoadLastTime(fault: Option<string>) returns (last: Option<int>, err: Option<Error>)
      ensures fault.Some? ==> last.None? && err == Some(Failure(fault.value))
      ensures fault.None? && LastUpdateKey in config ==>
        last == Some(config[LastUpdateKey].valueMillis * NanosPerMilli) && err.None?
      ensures fault.None? && LastUpdateKey !in config ==> last.None? && err.None?
    {
      if fault.Some? {
        return None, Some(Failure(fault.value));
      }
      if LastUpdateKey in config {
        return Some(config[LastUpdateKey].valueMillis * NanosPerMilli), None;
      }
      return None, None;
    }

    /** Upserts the checkpoint: its value becomes `now`, to the
        millisecond, and its modification time the server's clock. */
    method SaveLastTime(now: int, fault: Option<string>, serverTime: int) returns (err: Option<Error>)
      modifies this`config
      ensures fault.Some? ==> err == Some(Failure(fault.value)) && config == old(config)
      ensures fault.None? ==> err.None? && config == old(config)[LastUpdateKey := Checkpoint(Millis(now), serverTime)]
    {
      if fault.Some? {
        return Some(Failure(fault.value));
      }
      config := config[LastUpdateKey := Checkpoint(Millis(now), serverTime)];
      return None;
    }

    /** Adds every stored project to `m`, under the checksum form of its
        address. A query that finds no document is not an error; any other
        failure leaves `m` as it was. */
    method LoadProjects(m: map<string, Project>, find: Option<Error>, read: Option<string>)
      returns (r: map<string, Project>, err: Option<Error>)
      ensures find == Some(NoDocuments) ==> r == m && err.None?
      ensures find.Some? && find != Some(NoDocuments) ==> r == m && err == find
      ensures find.None? && read.Some? ==> r == m && err == Some(Failure(read.value))
      ensures find.None? && read.None? ==> r == IndexProjects(m, projects, lib.checksum) && err.None?
    {
      if find.Some? {
        if find.value == NoDocuments {
          return m, None;
        }
        return m, find;
      }
      if read.Some? {
        return m, Some(Failure(read.value));
      }
      r := m;
      var i := 0;
      while i < |projects|
        invariant 0 <= i <= |projects|
        invariant r == IndexProjects(m, projects[..i], lib.checksum)
      {
        var p := projects[i];
        var key := lib.checksum(p.address);
        assert projects[..i + 1][..i] == projects[..i];
        r := r[key := p.(address := key)];
        i := i + 1;
      }
      assert projects[..i] == projects;
      err := None;
    }

    /** Fetches the events that occurred after Unix(from) and before
        Unix(to), in whole seconds, and turns those of tracked projects
        into records, in feed order. */
    method RequestOpenSea(from: int, to: int, feed: Feed, faults: Faults, createdAt: int)
      returns (records: seq<Record>, err: Option<Error>)
      requires ReplyConvertible(feed(Unix(from), Unix(to)), projects, faults, lib)
      ensures feed(Unix(from), Unix(to)).Err? ==> records == [] && err == Some(feed(Unix(from), Unix(to)).error)
      ensures feed(Unix(from), Unix(to)).Ok? ==>
        && err.None?
        && records == KeptRecords(feed(Unix(from), Unix(to)).value, TrackedProjects(projects, faults, lib.checksum), createdAt, lib)
    {
      var reply := feed(Unix(from), Unix(to));
      if reply.Err? {
        return [], Some(reply.error);
      }
      var topN, _ := LoadProjects(map[], faults.projectsFind, faults.projectsRead);
      assert topN == TrackedProjects(projects, faults, lib.checksum);
      var evs := reply.value;
      assert SendersPresent(evs, topN, lib);
      records := [];
      var i := 0;
      while i < |evs|
        invariant 0 <= i <= |evs|
        invariant SendersPresent(evs[..i], topN, lib)
        invariant records == KeptRecords(evs[..i], topN, createdAt, lib)
      {
        var ae := evs[i];
        KeptRecordsStep(evs, i, topN, createdAt, lib);
        if lib.checksum(ae.asset.assetContract.address) in topN {
          records := records + [ToRecord(ae, createdAt, lib)];
        }
        i := i + 1;
      }
      assert evs[..i] == evs;
      err := None;
    }

    /** Appends the records to the event store with one ordered bulk
        insert; no records means no insert. */
    method SaveEvent(records: seq<Record>, outcome: InsertOutcome) returns (err: Option<Error>)
      modifies this`events
      ensures records == [] ==> err.None? && events == old(events)
      ensures records != [] && outcome.Inserted? ==> err.None? && events == old(events) + records
      ensures records != [] && outcome.FailedAfter? ==>
        && err == Some(Failure(outcome.message))
        && events == old(events) + records[..Min(outcome.count, |records|)]
    {
      if records == [] {
        return None;
      }
      match outcome
      case Inserted =>
        events := events + records;
        return None;
      case FailedAfter(count, message) =>
        events := events + records[..Min(count, |records|)];
        return Some(Failure(message));
    }

    /** One pass; the error of the first step that failed is returned. */
    method DoWork(t: Tick) returns (err: Option<Error>)
      requires t.faults.checkpointRead.None? ==>
        ReplyConvertible(t.feed(Unix(WindowStart(config, t.now)), Unix(t.now)), projects, t.faults, lib)
      modifies this`config, this`events
      ensures Outcome(State(), err) == Pass(old(State()), t, lib)
    {
      var last, e := LoadLastTime(t.faults.checkpointRead);
      if e.Some? {
        return e;
      }
      var from := if last.Some? then last.value else t.now - Day;
      var records, e' := RequestOpenSea(from, t.now, t.feed, t.faults, t.createdAt);
      if e'.Some? {
        return e';
      }
      err := SaveEvent(records, t.faults.eventsInsert);
      if err.Some? {
        return;
      }
      assert events == old(events) + records;
      err := SaveLastTime(t.now, t.faults.checkpointWrite, t.faults.serverTime);
    }

    /** A pass per tick; a failed pass is reported and the next tick comes
        regardless. */
    method Monitor(ticks: seq<Tick>)
      requires RunConvertible(State(), ticks, lib)
      modifies this`config, this`events
      ensures State() == Run(old(State()), ticks, lib)
    {
      var i := 0;
      while i < |ticks|
        invariant 0 <= i <= |ticks|
        invariant projects == old(projects)
        invariant RunConvertible(State(), ticks[i..], lib)
        invariant Run(old(State()), ticks, lib) == Run(State(), ticks[i..], lib)
      {
        var t := ticks[i];
        ghost var before := State();
        var _ := DoWork(t);
        assert ticks[i..][1..] == ticks[i + 1..];
        assert State() == Pass(before, t, lib).store;
        i := i + 1;
      }
    }
  }

  // ---------------------------------------------------------------------
  // Properties

  /** The last stored project with a given checksum address is the one
      kept under it, with its address in checksum form. */
  lemma {:induction false} IndexProjectsLastWins(m: map<string, Project>, docs: seq<Project>, checksum: string -> string, i: nat)
    requires i < |docs|
    requires forall j :: i < j < |docs| ==> checksum(docs[j].address) != checksum(docs[i].address)
    ensures var key := checksum(docs[i].address);
      var r := IndexProjects(m, docs, checksum);
      key in r && r[key] == docs[i].(address := key)
  {
    var n := |docs| - 1;
    if i < n {
      IndexProjectsLastWins(m, docs[..n], checksum, i);
    }
  }

  /** A key that no stored project's address maps to keeps its entry, or
      its absence. */
  lemma {:induction false} IndexProjectsUntouched(m: map<string, Project>, docs: seq<Project>, checksum: string -> string, key: string)
    requires forall i :: 0 <= i < |docs| ==> checksum(docs[i].address) != key
    ensures var r := IndexProjects(m, docs, checksum);
      (key in r <==> key in m) && (key in m ==> r[key] == m[key])
  {
    if docs != [] {
      IndexProjectsUntouched(m, docs[..|docs| - 1], checksum, key);
    }
  }

  /** Starting from a map whose entries sit under their own address, every
      entry does afterwards too. */
  lemma {:induction false} IndexProjectsNormalised(m: map<string, Project>, docs: seq<Project>, checksum: string -> string)
    requires forall k :: k in m ==> m[k].address == k
    ensures forall k :: k in IndexProjects(m, docs, checksum) ==> IndexProjects(m, docs, checksum)[k].address == k
  {
    if docs != [] {
      var n := |docs| - 1;
      var key := checksum(docs[n].address);
      IndexProjectsNormalised(m, docs[..n], checksum);
      var prev := IndexProjects(m, docs[..n], checksum);
      var r := IndexProjects(m, docs, checksum);
      assert r == prev[key := docs[n].(address := key)];
      forall k | k in r
        ensures r[k].address == k
      {
        if k != key {
          assert r[k] == prev[k];
        }
      }
    }
  }

  /** Filtering and converting distribute over concatenation: the kept
      records keep the order of the feed. */
  lemma {:induction false} KeptRecordsAppend(a: seq<AssetEvent>, b: seq<AssetEvent>, topN: map<string, Project>, createdAt: int, lib: Library)
    requires SendersPresent(a + b, topN, lib)
    ensures SendersPresent(a, topN, lib) && SendersPresent(b, topN, lib)
    ensures KeptRecords(a + b, topN, createdAt, lib) == KeptRecords(a, topN, createdAt, lib) + KeptRecords(b, topN, createdAt, lib)
  {
    SendersPresentSplit(a, b, topN, lib);
    if b == [] {
      assert a + b == a;
    } else {
      var n := |b| - 1;
      var ab := a + b;
      var last := if Tracked(b[n], topN, lib) then [ToRecord(b[n], createdAt, lib)] else [];
      assert ab[..|ab| - 1] == a + b[..n];
      calc {
        KeptRecords(ab, topN, createdAt, lib);
      == { assert ab[|ab| - 1] == b[n]; }
        KeptRecords(a + b[..n], topN, createdAt, lib) + last;
      == { KeptRecordsAppend(a, b[..n], topN, createdAt, lib); }
        (KeptRecords(a, topN, createdAt, lib) + KeptRecords(b[..n], topN, createdAt, lib)) + last;
        KeptRecords(a, topN, createdAt, lib) + (KeptRecords(b[..n], topN, createdAt, lib) + last);
      == { assert b[..n] + [b[n]] == b; }
        KeptRecords(a, topN, createdAt, lib) + KeptRecords(b, topN, createdAt, lib);
      }
    }
  }

  lemma SendersPresentSplit(a: seq<AssetEvent>, b: seq<AssetEvent>, topN: map<string, Project>, lib: Library)
    requires SendersPresent(a + b, topN, lib)
    ensures SendersPresent(a, topN, lib) && SendersPresent(b, topN, lib)
  {
    forall i | 0 <= i < |a| ensures (a + b)[i] == a[i] { }
    forall i | 0 <= i < |b| ensures (a + b)[|a| + i] == b[i] { }
  }

  /** The records of one more event of the reply. */
  lemma KeptRecordsStep(evs: seq<AssetEvent>, i: nat, topN: map<string, Project>, createdAt: int, lib: Library)
    requires i < |evs| && SendersPresent(evs, topN, lib)
    ensures SendersPresent(evs[..i], topN, lib) && SendersPresent(evs[..i + 1], topN, lib)
    ensures KeptRecords(evs[..i + 1], topN, createdAt, lib)
      == KeptRecords(evs[..i], topN, createdAt, lib) + (if Tracked(evs[i], topN, lib) then [ToRecord(evs[i], createdAt, lib)] else [])
  {
    assert evs[..i + 1][..i] == evs[..i];
  }

  /** A single event gives its record exactly when its contract is tracked. */
  lemma KeptRecordsSingle(ae: AssetEvent, topN: map<string, Project>, createdAt: int, lib: Library)
    requires Tracked(ae, topN, lib) ==> ae.fromAccount.Some?
    ensures SendersPresent([ae], topN, lib)
    ensures Tracked(ae, topN, lib) ==> KeptRecords([ae], topN, createdAt, lib) == [ToRecord(ae, createdAt, lib)]
    ensures !Tracked(ae, topN, lib) ==> KeptRecords([ae], topN, createdAt, lib) == []
  {
    assert [ae][..0] == [];
  }

  /** The record of every event of a tracked contract is kept. */
  lemma {:induction false} KeptRecordsComplete(evs: seq<AssetEvent>, topN: map<string, Project>, createdAt: int, lib: Library, i: nat)
    requires SendersPresent(evs, topN, lib)
    requires i < |evs| && Tracked(evs[i], topN, lib)
    ensures ToRecord(evs[i], createdAt, lib) in KeptRecords(evs, topN, createdAt, lib)
  {
    var n := |evs| - 1;
    KeptRecordsStep(evs, n, topN, createdAt, lib);
    assert evs[..n + 1] == evs;
    if i < n {
      assert evs[..n][i] == evs[i];
      KeptRecordsComplete(evs[..n], topN, createdAt, lib, i);
    }
  }

  /** Every kept record is the record of an event of a tracked contract. */
  lemma {:induction false} KeptRecordsSound(evs: seq<AssetEvent>, topN: map<string, Project>, createdAt: int, lib: Library, r: Record)
    requires SendersPresent(evs, topN, lib)
    requires r in KeptRecords(evs, topN, createdAt, lib)
    ensures exists i :: 0 <= i < |evs| && Tracked(evs[i], topN, lib) && r == ToRecord(evs[i], createdAt, lib)
  {
    var n := |evs| - 1;
    KeptRecordsStep(evs, n, topN, createdAt, lib);
    assert evs[..n + 1] == evs;
    if r in KeptRecords(evs[..n], topN, createdAt, lib) {
      KeptRecordsSound(evs[..n], topN, createdAt, lib, r);
      var i :| 0 <= i < n && Tracked(evs[..n][i], topN, lib) && r == ToRecord(evs[..n][i], createdAt, lib);
      assert evs[..n][i] == evs[i];
    } else {
      assert Tracked(evs[n], topN, lib) && r == ToRecord(evs[n], createdAt, lib);
    }
  }

  /** With no project map, for instance after a failed load, no event is
      kept. */
  lemma {:induction false} NoProjectsNoRecords(evs: seq<AssetEvent>, createdAt: int, lib: Library)
    ensures SendersPresent(evs, map[], lib)
    ensures KeptRecords(evs, map[], createdAt, lib) == []
  {
    if evs != [] {
      NoProjectsNoRecords(evs[..|evs| - 1], createdAt, lib);
    }
  }

  /** A pass whose project load fails ignores that failure, keeps no event
      and so reads no sender: it can be run on any reply, and whatever else
      happens it writes no event. */
  lemma FailedLoadKeepsNothing(s: Store, t: Tick, lib: Library)
    requires t.faults.projectsFind.Some? || t.faults.projectsRead.Some?
    ensures PassConvertible(s, t, lib)
    ensures Pass(s, t, lib).store.events == s.events
  {
    var reply := t.feed(Unix(WindowStart(s.config, t.now)), Unix(t.now));
    if reply.Ok? {
      NoProjectsNoRecords(reply.value, t.createdAt, lib);
    }
  }

  /** A failure to read the checkpoint changes nothing. */
  lemma ReadFailureChangesNothing(s: Store, t: Tick, lib: Library)
    requires t.faults.checkpointRead.Some?
    ensures Pass(s, t, lib) == Outcome(s, Some(Failure(t.faults.checkpointRead.value)))
  {
  }

  /** The window ends at `now` and starts at the checkpoint, or a day
      before `now` without one. A failed fetch changes nothing; otherwise
      the events written are a prefix of the records kept from that
      window's reply, and all of them when the pass succeeds. */
  lemma PassWindow(s: Store, t: Tick, lib: Library)
    requires PassConvertible(s, t, lib)
    requires t.faults.checkpointRead.None?
    ensures var from := if LastUpdateKey in s.config then s.config[LastUpdateKey].valueMillis * NanosPerMilli
                        else t.now - Day;
      var reply := t.feed(Unix(from), Unix(t.now));
      var o := Pass(s, t, lib);
      && (reply.Err? ==> o == Outcome(s, Some(reply.error)))
      && (reply.Ok? ==>
            var records := KeptRecords(reply.value, TrackedProjects(s.projects, t.faults, lib.checksum), t.createdAt, lib);
            && o.store.events <= s.events + records
            && (o.err.None? ==> o.store.events == s.events + records))
  {
    var o := Pass(s, t, lib);
    var reply := t.feed(Unix(WindowStart(s.config, t.now)), Unix(t.now));
    if reply.Ok? && o.err.Some? {
      var records := KeptRecords(reply.value, TrackedProjects(s.projects, t.faults, lib.checksum), t.createdAt, lib);
      if records != [] && t.faults.eventsInsert.FailedAfter? {
        var n := Min(t.faults.eventsInsert.count, |records|);
        assert s.events + records == (s.events + records[..n]) + records[n..];
      }
    }
  }

  /** A pass succeeds exactly when the fetch, the insert (if there was
      anything to insert) and the checkpoint write all succeeded. */
  lemma PassSucceeds(s: Store, t: Tick, lib: Library)
    requires PassConvertible(s, t, lib)
    ensures var reply := t.feed(Unix(WindowStart(s.config, t.now)), Unix(t.now));
      Pass(s, t, lib).err.None? <==>
        && t.faults.checkpointRead.None?
        && reply.Ok?
        && (KeptRecords(reply.value, TrackedProjects(s.projects, t.faults, lib.checksum), t.createdAt, lib) == []
            || t.faults.eventsInsert.Inserted?)
        && t.faults.checkpointWrite.None?
  {
  }

  /** The store's millisecond precision loses less than a millisecond and
      never changes the second an instant falls in. */
  lemma CheckpointKeepsSecond(t: int)
    ensures Millis(t) * NanosPerMilli <= t < Millis(t) * NanosPerMilli + NanosPerMilli
    ensures Unix(Millis(t) * NanosPerMilli) == Unix(t)
  {
    var sec, rest := t / NanosPerSecond, t % NanosPerSecond;
    var ms := rest / NanosPerMilli;
    assert t == sec * NanosPerSecond + rest;
    assert rest == ms * NanosPerMilli + rest % NanosPerMilli;
    assert t == (sec * 1000 + ms) * NanosPerMilli + rest % NanosPerMilli;
    DivModUnique(t, NanosPerMilli, sec * 1000 + ms, rest % NanosPerMilli);
    assert Millis(t) * NanosPerMilli == sec * NanosPerSecond + ms * NanosPerMilli;
    DivModUnique(Millis(t) * NanosPerMilli, NanosPerSecond, sec, ms * NanosPerMilli);
  }

  /** After a successful pass the next window starts less than a
      millisecond before the previous one ended, in the same second:
      the requested windows leave no gap. */
  lemma NextWindowFollows(s: Store, t: Tick, lib: Library, later: int)
    requires PassConvertible(s, t, lib)
    requires Pass(s, t, lib).err.None?
    ensures var next := WindowStart(Pass(s, t, lib).store.config, later);
      next <= t.now < next + NanosPerMilli && Unix(next) == Unix(t.now)
  {
    CheckpointKeepsSecond(t.now);
  }

  /** Across any number of passes the checkpoint is never removed, and it
      holds either what it held before or the start of one of the passes. */
  lemma {:induction false} RunCheckpoint(s: Store, ticks: seq<Tick>, lib: Library)
    requires RunConvertible(s, ticks, lib)
    ensures var r := Run(s, ticks, lib);
      && (LastUpdateKey in s.config ==> LastUpdateKey in r.config)
      && (LastUpdateKey in r.config ==>
            || (LastUpdateKey in s.config && r.config[LastUpdateKey] == s.config[LastUpdateKey])
            || exists k :: 0 <= k < |ticks| && r.config[LastUpdateKey] == Checkpoint(Millis(ticks[k].now), ticks[k].faults.serverTime))
    decreases |ticks|
  {
    if ticks != [] {
      var t := ticks[0];
      var next := Pass(s, t, lib).store;
      assert forall k :: 0 <= k < |ticks[1..]| ==> ticks[1..][k] == ticks[k + 1];
      RunCheckpoint(next, ticks[1..], lib);
      var r := Run(s, ticks, lib);
      assert r == Run(next, ticks[1..], lib);
      if LastUpdateKey in r.config {
        if exists k :: 0 <= k < |ticks[1..]| && r.config[LastUpdateKey] == Checkpoint(Millis(ticks[1..][k].now), ticks[1..][k].faults.serverTime) {
          var k :| 0 <= k < |ticks[1..]| && r.config[LastUpdateKey] == Checkpoint(Millis(ticks[1..][k].now), ticks[1..][k].faults.serverTime);
          assert ticks[1..][k] == ticks[k + 1];
        } else if next.config != s.config {
          assert r.config[LastUpdateKey] == Checkpoint(Millis(ticks[0].now), ticks[0].faults.serverTime);
        }
      }
    }
  }

  /** Euclidean division is determined by its defining equation. */
  lemma DivModUnique(x: int, p: int, q: int, r: int)
    requires p >= 1 && 0 <= r < p && x == q * p + r
    ensures x / p == q && x % p == r
  {
    var d := q - x / p;
    assert d * p == x % p - r by {
      assert x == (x / p) * p + x % p;
      assert d * p == q * p - (x / p) * p;
    }
  }
}
