/** The data manager of app_manager.py: it takes every bin message, stores
    it in one of three tables, raises alarms on the high-fill and actuator
    error rules, and publishes each stored alarm on the alarm topic.

    The three SQLite tables are sequences of rows; a row's `id` is its
    AUTOINCREMENT key, which is its position plus one because rows are never
    deleted. Timestamps are an abstract clock that only moves forward, and
    `ORDER BY timestamp DESC` is read as newest inserted first (SQLite leaves
    the order of equal timestamps open). Publishing is an append to `outbox`. */
module AppManager {
  import opened Wrappers
  import opened Strings
  import opened Numbers
  import Config

  datatype AlarmType = HighFill | ActuatorError {
    function Name(): string {
      match this
      case HighFill => "HIGH_FILL"
      case ActuatorError => "ACTUATOR_ERROR"
    }
  }

  datatype EventType = StatusChange | ActuatorStateChange {
    function Name(): string {
      match this
      case StatusChange => "STATUS_CHANGE"
      case ActuatorStateChange => "ACTUATOR_STATE"
    }
  }

  /** A row of `bin_readings`. */
  datatype Reading = Reading(id: nat, binId: string, level: real, time: nat)

  /** A row of `bin_events`. */
  datatype Event = Event(id: nat, binId: string, kind: EventType, details: string, time: nat)

  /** A row of `bin_alarms`. */
  datatype Alarm = Alarm(id: nat, binId: string, kind: AlarmType, message: string, acknowledged: bool, time: nat)

  /** The object `_create_alarm` publishes as JSON on the alarm topic. */
  datatype Notice = Notice(binId: string, kind: AlarmType, message: string, time: nat)

  /** The three tables as a reader (the monitor) sees them. */
  datatype Database = Database(readings: seq<Reading>, events: seq<Event>, alarms: seq<Alarm>)

  /** Which write of one message raises `sqlite3.Error` (the row of the
      reading or event, the alarm row) and whether the publish call raises. */
  datatype Faults = Faults(rowInsertFails: bool, alarmInsertFails: bool, publishFails: bool)

  /** The payload an actuator sends when it is in its error state. */
  const ErrorPayload: string := "ERROR"

  /** The four subscriptions `_on_connect` makes. */
  const ManagerFilters: seq<string> := [
    Config.BaseTopic + "+/fill_level",
    Config.BaseTopic + "+/status",
    Config.BaseTopic + "+/actuator_state",
    Config.AlarmTopic
  ]

  function HighFillMessage(binId: string, level: real): string {
    "Bin " + binId + " is " + Format1(level) + "% full"
  }

  function ActuatorErrorMessage(binId: string): string {
    "Bin " + binId + " actuator reported an error"
  }

  // ---------------------------------------------------------------------
  // Classifying a message (the pure part of `_on_message`)

  /** What `_on_message` decides to do with one message. */
  datatype Action =
    | Ignore
    | StoreFillLevel(binId: string, level: real)
    | StoreStatus(binId: string, status: string)
    | StoreActuatorState(binId: string, state: string)

  function Segments(topic: string): seq<string> {
    Split(topic, '/')
  }

  /** The last segment of the topic: the kind of data. */
  function Kind(topic: string): string {
    var parts := Segments(topic);
    parts[|parts| - 1]
  }

  /** Topics the manager looks at all: under the base topic, or the alarm topic. */
  predicate Accepted(topic: string) {
    StartsWith(topic, Config.BaseTopic) || topic == Config.AlarmTopic
  }

  predicate KnownKind(kind: string) {
    kind == "fill_level" || kind == "status" || kind == "actuator_state"
  }

  /** The routing of `_on_message`: topic filter, the three-segment check,
      bin id and kind from the last two segments, and the dispatch on kind
      with `float` applied to fill levels. */
  function Route(topic: string, payload: string): (a: Action)
    ensures a == Ignore <==>
      || !Accepted(topic)
      || |Segments(topic)| < 3
      || !KnownKind(Kind(topic))
      || (Kind(topic) == "fill_level" && ParseFloat(payload).None?)
    ensures a != Ignore ==> a.binId == Segments(topic)[|Segments(topic)| - 2]
    ensures a.StoreFillLevel? <==> a != Ignore && Kind(topic) == "fill_level"
    ensures a.StoreFillLevel? ==> ParseFloat(payload) == Some(a.level)
    ensures a.StoreStatus? <==> a != Ignore && Kind(topic) == "status"
    ensures a.StoreStatus? ==> a.status == payload
    ensures a.StoreActuatorState? <==> a != Ignore && Kind(topic) == "actuator_state"
    ensures a.StoreActuatorState? ==> a.state == payload
  {
    if !Accepted(topic) then Ignore
    else
      var parts := Segments(topic);
      if |parts| < 3 then Ignore
      else
        var binId, kind := parts[|parts| - 2], parts[|parts| - 1];
        if kind == "fill_level" then
          match ParseFloat(payload)
          case None => Ignore
          case Some(level) => StoreFillLevel(binId, level)
        else if kind == "status" then StoreStatus(binId, payload)
        else if kind == "actuator_state" then StoreActuatorState(binId, payload)
        else Ignore
  }

  /** The base topic contributes its two levels to every topic under it. */
  lemma BaseSegments(rest: string)
    ensures Segments(Config.BaseTopic + rest) == ["municipal", "bins"] + Segments(rest)
  {
    var m, b := "municipal", "bins";
    assert Config.BaseTopic == m + ['/'] + b + ['/'];
    assert Config.BaseTopic + rest == m + ['/'] + (b + ['/'] + rest);
    assert '/' !in m && '/' !in b;
    SplitAfter(m, '/', b + ['/'] + rest);
    SplitAfter(b, '/', rest);
  }

  /** The manager receives its own alarms (it subscribes to the alarm topic)
      and drops them: their kind is `alarm`. */
  lemma AlarmTopicIgnored(payload: string)
    ensures Route(Config.AlarmTopic, payload) == Ignore
  {
    BaseSegments("alarm");
    SplitNoSep("alarm", '/');
  }

  /** A topic under the base topic whose segment before the kind is `binId`. */
  predicate BinTopic(topic: string, binId: string, kind: string) {
    var parts := Segments(topic);
    StartsWith(topic, Config.BaseTopic) && |parts| >= 3 && parts[|parts| - 2] == binId && parts[|parts| - 1] == kind
  }

  lemma RouteFillLevel(topic: string, binId: string, payload: string, level: real)
    requires BinTopic(topic, binId, "fill_level") && ParseFloat(payload) == Some(level)
    ensures Route(topic, payload) == StoreFillLevel(binId, level)
  {
  }

  lemma RouteStatus(topic: string, binId: string, payload: string)
    requires BinTopic(topic, binId, "status")
    ensures Route(topic, payload) == StoreStatus(binId, payload)
  {
  }

  lemma RouteActuatorState(topic: string, binId: string, payload: string)
    requires BinTopic(topic, binId, "actuator_state")
    ensures Route(topic, payload) == StoreActuatorState(binId, payload)
  {
  }

  /** The base topic followed by a single level. */
  lemma BaseKindTopic(kind: string)
    requires '/' !in kind
    ensures BinTopic(Config.BaseTopic + kind, "bins", kind)
  {
    BaseSegments(kind);
    SplitNoSep(kind, '/');
    assert (Config.BaseTopic + kind)[..|Config.BaseTopic|] == Config.BaseTopic;
  }

  /** The three-segment check counts the base topic's own two levels, so a
      topic with no bin level at all is stored, under the bin id `bins`. */
  lemma TopicWithoutBinLevel(kind: string, payload: string)
    requires KnownKind(kind)
    requires kind == "fill_level" ==> ParseFloat(payload).Some?
    ensures Route(Config.BaseTopic + kind, payload) != Ignore
    ensures Route(Config.BaseTopic + kind, payload).binId == "bins"
  {
    assert '/' !in kind;
    BaseKindTopic(kind);
  }

  // ---------------------------------------------------------------------
  // Invariants of the tables

  predicate ReadingsValid(rs: seq<Reading>, clock: nat) {
    && (forall i :: 0 <= i < |rs| ==> rs[i].id == i + 1 && rs[i].time <= clock)
    && (forall i, j :: 0 <= i < j < |rs| ==> rs[i].time <= rs[j].time)
  }

  predicate EventsValid(es: seq<Event>, clock: nat) {
    && (forall i :: 0 <= i < |es| ==> es[i].id == i + 1 && es[i].time <= clock)
    && (forall i, j :: 0 <= i < j < |es| ==> es[i].time <= es[j].time)
  }

  predicate AlarmsValid(als: seq<Alarm>, clock: nat) {
    && (forall i :: 0 <= i < |als| ==> als[i].id == i + 1 && als[i].time <= clock)
    && (forall i, j :: 0 <= i < j < |als| ==> als[i].time <= als[j].time)
  }

  /** Rows numbered from 1 in insertion order, timestamps never decreasing
      and never later than `clock`. */
  predicate DatabaseValid(db: Database, clock: nat) {
    ReadingsValid(db.readings, clock) && EventsValid(db.events, clock) && AlarmsValid(db.alarms, clock)
  }

  /** The alarm row `a` is what notice `n` announces, and it was stored no
      later than the notice was sent. */
  predicate Announces(a: Alarm, n: Notice) {
    a.binId == n.binId && a.kind == n.kind && a.message == n.message && a.time <= n.time
  }

  /** Persist before publish: the `k`th notice was made from the alarm row
      with id `rowIds[k]`, and each row was published at most once. */
  predicate NoticesStored(alarms: seq<Alarm>, outbox: seq<Notice>, rowIds: seq<nat>) {
    && |rowIds| == |outbox|
    && (forall k :: 0 <= k < |rowIds| ==>
          1 <= rowIds[k] <= |alarms| && Announces(alarms[rowIds[k] - 1], outbox[k]))
    && (forall k, l :: 0 <= k < l < |rowIds| ==> rowIds[k] < rowIds[l])
  }

  /** The latest timestamp in a well-formed database. */
  function LatestTime(db: Database): nat {
    var r := if db.readings == [] then 0 else db.readings[|db.readings| - 1].time;
    var e := if db.events == [] then 0 else db.events[|db.events| - 1].time;
    var a := if db.alarms == [] then 0 else db.alarms[|db.alarms| - 1].time;
    if r >= e && r >= a then r else if e >= a then e else a
  }

  /** Numbered, time-ordered tables as this program leaves them on disk. */
  predicate StoredDatabase(db: Database) {
    && (forall i :: 0 <= i < |db.readings| ==> db.readings[i].id == i + 1)
    && (forall i, j :: 0 <= i < j < |db.readings| ==> db.readings[i].time <= db.readings[j].time)
    && (forall i :: 0 <= i < |db.events| ==> db.events[i].id == i + 1)
    && (forall i, j :: 0 <= i < j < |db.events| ==> db.events[i].time <= db.events[j].time)
    && (forall i :: 0 <= i < |db.alarms| ==> db.alarms[i].id == i + 1)
    && (forall i, j :: 0 <= i < j < |db.alarms| ==> db.alarms[i].time <= db.alarms[j].time)
  }

  lemma StoredDatabaseValid(db: Database)
    requires StoredDatabase(db)
    ensures DatabaseValid(db, LatestTime(db))
  {
    var t := LatestTime(db);
    forall i | 0 <= i < |db.readings| ensures db.readings[i].time <= t {
      assert db.readings[i].time <= db.readings[|db.readings| - 1].time;
    }
    forall i | 0 <= i < |db.events| ensures db.events[i].time <= t {
      assert db.events[i].time <= db.events[|db.events| - 1].time;
    }
    forall i | 0 <= i < |db.alarms| ensures db.alarms[i].time <= t {
      assert db.alarms[i].time <= db.alarms[|db.alarms| - 1].time;
    }
  }

  // ---------------------------------------------------------------------
  // Queries

  /** `get_active_alarms`: exactly the unacknowledged alarms, newest first. */
  function ActiveNewestFirst(alarms: seq<Alarm>): (r: seq<Alarm>)
    ensures |r| <= |alarms|
    ensures forall a :: a in r <==> a in alarms && !a.acknowledged
    decreases |alarms|
  {
    if alarms == [] then []
    else
      var n := |alarms| - 1;
      assert alarms == alarms[..n] + [alarms[n]];
      (if alarms[n].acknowledged then [] else [alarms[n]]) + ActiveNewestFirst(alarms[..n])
  }

  /** On a well-formed table the active alarms come strictly newest first:
      ids decrease and timestamps do not increase. */
  predicate AlarmsNewestFirst(r: seq<Alarm>) {
    forall i, j :: 0 <= i < j < |r| ==> r[i].id > r[j].id && r[i].time >= r[j].time
  }

  /** An alarm newer than every row of an ordered list can go in front. */
  lemma ConsNewestFirst(head: Alarm, rest: seq<Alarm>)
    requires AlarmsNewestFirst(rest)
    requires forall x :: x in rest ==> x.id < head.id && x.time <= head.time
    ensures AlarmsNewestFirst([head] + rest)
  {
    var r := [head] + rest;
    forall i, j | 0 <= i < j < |r| ensures r[i].id > r[j].id && r[i].time >= r[j].time {
      assert r[j] == rest[j - 1] && rest[j - 1] in rest;
      if i > 0 {
        assert r[i] == rest[i - 1];
      }
    }
  }

  lemma {:induction false} ActiveNewestFirstOrdered(alarms: seq<Alarm>, clock: nat)
    requires AlarmsValid(alarms, clock)
    ensures AlarmsNewestFirst(ActiveNewestFirst(alarms))
    decreases |alarms|
  {
    if alarms != [] {
      var n := |alarms| - 1;
      var rest := ActiveNewestFirst(alarms[..n]);
      assert AlarmsValid(alarms[..n], clock);
      ActiveNewestFirstOrdered(alarms[..n], clock);
      forall x | x in rest ensures x.id < alarms[n].id && x.time <= alarms[n].time {
        var k :| 0 <= k < n && alarms[..n][k] == x;
        assert alarms[k] == x;
      }
      if !alarms[n].acknowledged {
        assert ActiveNewestFirst(alarms) == [alarms[n]] + rest;
        ConsNewestFirst(alarms[n], rest);
      }
    }
  }

  /** The readings of one bin, newest first. */
  function BinNewestFirst(readings: seq<Reading>, binId: string): (r: seq<Reading>)
    ensures |r| <= |readings|
    ensures forall x :: x in r <==> x in readings && x.binId == binId
    decreases |readings|
  {
    if readings == [] then []
    else
      var n := |readings| - 1;
      assert readings == readings[..n] + [readings[n]];
      (if readings[n].binId == binId then [readings[n]] else []) + BinNewestFirst(readings[..n], binId)
  }

  /** Readings newest first: timestamps do not increase, and the row
      inserted later comes first among equal timestamps. */
  predicate ReadingsNewestFirst(r: seq<Reading>) {
    forall i, j :: 0 <= i < j < |r| ==> r[i].id > r[j].id && r[i].time >= r[j].time
  }

  /** A reading newer than every row of an ordered list can go in front. */
  lemma ConsReadingNewestFirst(head: Reading, rest: seq<Reading>)
    requires ReadingsNewestFirst(rest)
    requires forall x :: x in rest ==> x.id < head.id && x.time <= head.time
    ensures ReadingsNewestFirst([head] + rest)
  {
    var r := [head] + rest;
    forall i, j | 0 <= i < j < |r| ensures r[i].id > r[j].id && r[i].time >= r[j].time {
      assert r[j] == rest[j - 1] && rest[j - 1] in rest;
      if i > 0 {
        assert r[i] == rest[i - 1];
      }
    }
  }

  /** On a well-formed table a bin's readings come newest first. */
  lemma {:induction false} BinNewestFirstOrdered(readings: seq<Reading>, binId: string, clock: nat)
    requires ReadingsValid(readings, clock)
    ensures ReadingsNewestFirst(BinNewestFirst(readings, binId))
    decreases |readings|
  {
    if readings != [] {
      var n := |readings| - 1;
      var rest := BinNewestFirst(readings[..n], binId);
      assert ReadingsValid(readings[..n], clock);
      BinNewestFirstOrdered(readings[..n], binId, clock);
      forall x | x in rest ensures x.id < readings[n].id && x.time <= readings[n].time {
        var k :| 0 <= k < n && readings[..n][k] == x;
        assert readings[k] == x;
      }
      if readings[n].binId == binId {
        assert BinNewestFirst(readings, binId) == [readings[n]] + rest;
        ConsReadingNewestFirst(readings[n], rest);
      }
    }
  }

  /** SQLite's `LIMIT n`: the first `n` rows; a negative `n` sets no limit. */
  function Limit<T>(s: seq<T>, n: int): (r: seq<T>)
    ensures n < 0 ==> r == s
    ensures n >= 0 ==> |r| == (if n < |s| then n else |s|)
    ensures |r| <= |s| && r == s[..|r|]
  {
    if n < 0 || n >= |s| then s else s[..n]
  }

  /** `get_bin_data`: level and timestamp of the bin's newest `limit` readings. */
  function BinData(readings: seq<Reading>, binId: string, limit: int): (r: seq<(real, nat)>)
    ensures limit >= 0 ==> |r| <= limit
    ensures var nf := BinNewestFirst(readings, binId);
      && |r| == (if 0 <= limit < |nf| then limit else |nf|)
      && forall k :: 0 <= k < |r| ==> r[k] == (nf[k].level, nf[k].time)
  {
    var rows := Limit(BinNewestFirst(readings, binId), limit);
    seq(|rows|, k requires 0 <= k < |rows| => (rows[k].level, rows[k].time))
  }

  /** The newest reading of a bin, if it has any (`ORDER BY timestamp DESC
      LIMIT 1`). */
  function LatestReading(readings: seq<Reading>, binId: string): (r: Option<Reading>)
    ensures r.Some? <==> exists x :: x in readings && x.binId == binId
    ensures r.Some? ==> r.value in readings && r.value.binId == binId
    decreases |readings|
  {
    if readings == [] then None
    else
      var n := |readings| - 1;
      assert readings == readings[..n] + [readings[n]];
      if readings[n].binId == binId then Some(readings[n]) else LatestReading(readings[..n], binId)
  }

  /** The newest reading is the first of the bin's readings newest first. */
  lemma {:induction false} LatestIsFirstOfNewest(readings: seq<Reading>, binId: string)
    ensures var nf := BinNewestFirst(readings, binId);
      LatestReading(readings, binId) == if nf == [] then None else Some(nf[0])
    decreases |readings|
  {
    if readings != [] {
      LatestIsFirstOfNewest(readings[..|readings| - 1], binId);
    }
  }

  /** On a well-formed table no reading of the bin is newer than the one
      `LatestReading` picks. */
  lemma LatestReadingIsNewest(readings: seq<Reading>, binId: string, clock: nat)
    requires ReadingsValid(readings, clock)
    ensures var l := LatestReading(readings, binId);
      l.Some? ==> forall x :: x in readings && x.binId == binId ==> x.time <= l.value.time
  {
    var nf := BinNewestFirst(readings, binId);
    LatestIsFirstOfNewest(readings, binId);
    BinNewestFirstOrdered(readings, binId, clock);
    forall x | x in readings && x.binId == binId ensures x.time <= nf[0].time {
      var j :| 0 <= j < |nf| && nf[j] == x;
      if j > 0 {
        assert nf[0].time >= nf[j].time;
      }
    }
  }

  /** On a well-formed table `get_bin_data` lists times newest first, and
      no reading of the bin that `LIMIT` cuts off is newer than a listed one. */
  lemma BinDataNewest(readings: seq<Reading>, binId: string, limit: int, clock: nat)
    requires ReadingsValid(readings, clock)
    ensures var r := BinData(readings, binId, limit);
      var nf := BinNewestFirst(readings, binId);
      && (forall i, j :: 0 <= i < j < |r| ==> r[i].1 >= r[j].1)
      && (forall x, k :: x in nf[|r|..] && 0 <= k < |r| ==> x.time <= r[k].1)
  {
    var r := BinData(readings, binId, limit);
    var nf := BinNewestFirst(readings, binId);
    BinNewestFirstOrdered(readings, binId, clock);
    forall i, j | 0 <= i < j < |r| ensures r[i].1 >= r[j].1 {
      assert r[i].1 == nf[i].time && r[j].1 == nf[j].time;
    }
    forall x, k | x in nf[|r|..] && 0 <= k < |r| ensures x.time <= r[k].1 {
      var m :| 0 <= m < |nf| - |r| && nf[|r|..][m] == x;
      assert nf[|r| + m] == x && r[k].1 == nf[k].time;
    }
  }

  /** `SELECT DISTINCT bin_id FROM bin_readings`, in order of first appearance. */
  function DistinctBins(readings: seq<Reading>): (r: seq<string>)
    ensures forall b :: b in r <==> exists x :: x in readings && x.binId == b
    ensures forall i, j :: 0 <= i < j < |r| ==> r[i] != r[j]
    decreases |readings|
  {
    if readings == [] then []
    else
      var n := |readings| - 1;
      assert readings == readings[..n] + [readings[n]];
      var r := DistinctBins(readings[..n]);
      if readings[n].binId in r then r else r + [readings[n].binId]
  }

  // ---------------------------------------------------------------------
  // Acknowledgement

  /** The table after `UPDATE bin_alarms SET acknowledged = TRUE WHERE id = alarmId`. */
  function Acknowledged(alarms: seq<Alarm>, alarmId: int): (r: seq<Alarm>)
    ensures |r| == |alarms|
    ensures forall i :: 0 <= i < |r| ==>
      r[i] == alarms[i].(acknowledged := alarms[i].acknowledged || alarms[i].id == alarmId)
  {
    seq(|alarms|, i requires 0 <= i < |alarms| =>
      if alarms[i].id == alarmId then alarms[i].(acknowledged := true) else alarms[i])
  }

  /** Acknowledging twice is acknowledging once. */
  lemma AcknowledgeIdempotent(alarms: seq<Alarm>, alarmId: int)
    ensures Acknowledged(Acknowledged(alarms, alarmId), alarmId) == Acknowledged(alarms, alarmId)
  {
  }

  /** An id no row has changes nothing. */
  lemma AcknowledgeUnknownId(alarms: seq<Alarm>, alarmId: int)
    requires forall i :: 0 <= i < |alarms| ==> alarms[i].id != alarmId
    ensures Acknowledged(alarms, alarmId) == alarms
  {
  }

  /** Acknowledgements of different alarms can be done in either order. */
  lemma AcknowledgeCommutes(alarms: seq<Alarm>, x: int, y: int)
    ensures Acknowledged(Acknowledged(alarms, x), y) == Acknowledged(Acknowledged(alarms, y), x)
  {
  }

  /** After acknowledging an id, no alarm with that id is active; every other
      active alarm stays active. */
  lemma AcknowledgedNotActive(alarms: seq<Alarm>, alarmId: int)
    ensures forall a :: a in ActiveNewestFirst(Acknowledged(alarms, alarmId)) <==>
      a in ActiveNewestFirst(alarms) && a.id != alarmId
  {
    var r := Acknowledged(alarms, alarmId);
    forall a ensures a in r && !a.acknowledged <==> a in alarms && !a.acknowledged && a.id != alarmId {
      if a in r && !a.acknowledged {
        var i :| 0 <= i < |r| && r[i] == a;
        assert alarms[i] == a;
      }
      if a in alarms && !a.acknowledged && a.id != alarmId {
        var i :| 0 <= i < |alarms| && alarms[i] == a;
        assert r[i] == a;
      }
    }
  }

  // ---------------------------------------------------------------------
  // The manager

  class DataManager {
    var readings: seq<Reading>
    var events: seq<Event>
    var alarms: seq<Alarm>
    /** Every alarm notice handed to `client.publish`, in order. */
    var outbox: seq<Notice>
    /** For each notice, the id of the alarm row it was made from. */
    ghost var published: seq<nat>
    var connected: bool
    var subscriptions: seq<string>
    /** The current time; every row is stamped with it. */
    var clock: nat

    ghost predicate Valid()
      reads this
    {
      DatabaseValid(Database(readings, events, alarms), clock) && NoticesStored(alarms, outbox, published)
    }

    function Snapshot(): Database
      reads this
    {
      Database(readings, events, alarms)
    }

    /** `__init__` without the MQTT setup: an existing database with all
        three tables is kept; otherwise `init_database` leaves three empty
        tables. */
    constructor (existing: Option<Database>)
      requires existing.Some? ==> StoredDatabase(existing.value)
      ensures Valid()
      ensures existing.None? ==> readings == [] && events == [] && alarms == []
      ensures existing.Some? ==> Snapshot() == existing.value
      ensures outbox == [] && !connected && subscriptions == []
    {
      outbox, published := [], [];
      connected, subscriptions := false, [];
      match existing
      case None =>
        readings, events, alarms := [], [], [];
        clock := 0;
      case Some(db) =>
        StoredDatabaseValid(db);
        readings, events, alarms := db.readings, db.events, db.alarms;
        clock := LatestTime(db);
    }

    /** `_on_connect`: on success, mark connected and subscribe. */
    method OnConnect(rc: int)
      requires Valid()
      modifies this
      ensures Valid()
      ensures connected == (rc == 0 || old(connected))
      ensures subscriptions == old(subscriptions) + (if rc == 0 then ManagerFilters else [])
      ensures Snapshot() == old(Snapshot()) && outbox == old(outbox) && clock == old(clock)
    {
      if rc == 0 {
        connected := true;
        subscriptions := subscriptions + ManagerFilters;
      }
    }

    /** `_on_disconnect`. */
    method OnDisconnect()
      requires Valid()
      modifies this
      ensures Valid()
      ensures !connected
      ensures subscriptions == old(subscriptions) && Snapshot() == old(Snapshot())
      ensures outbox == old(outbox) && clock == old(clock)
    {
      connected := false;
    }

    /** `_create_alarm`: store the alarm row, then publish it; a failed
        insert publishes nothing, a failed publish keeps the row. */
    method CreateAlarm(binId: string, kind: AlarmType, message: string, f: Faults)
      requires Valid()
      modifies this
      ensures Valid()
      ensures alarms == old(alarms) +
        (if f.alarmInsertFails then [] else [Alarm(|old(alarms)| + 1, binId, kind, message, false, clock)])
      ensures outbox == old(outbox) +
        (if f.alarmInsertFails || f.publishFails then [] else [Notice(binId, kind, message, clock)])
      ensures readings == old(readings) && events == old(events) && clock == old(clock)
      ensures connected == old(connected) && subscriptions == old(subscriptions)
    {
      if f.alarmInsertFails {
        return;
      }
      alarms := alarms + [Alarm(|alarms| + 1, binId, kind, message, false, clock)];
      if f.publishFails {
        return;
      }
      outbox := outbox + [Notice(binId, kind, message, clock)];
      published := published + [|alarms|];
    }

    /** `_handle_fill_level`: store the reading, then alarm when the level
        is at or above the threshold; a failed reading insert skips both. */
    method HandleFillLevel(binId: string, level: real, f: Faults)
      requires Valid()
      modifies this
      ensures Valid()
      ensures readings == old(readings) +
        (if f.rowInsertFails then [] else [Reading(|old(readings)| + 1, binId, level, clock)])
      ensures var raised := !f.rowInsertFails && level >= Config.FillLevelThreshold;
        && alarms == old(alarms) + (if raised && !f.alarmInsertFails
             then [Alarm(|old(alarms)| + 1, binId, HighFill, HighFillMessage(binId, level), false, clock)] else [])
        && outbox == old(outbox) + (if raised && !f.alarmInsertFails && !f.publishFails
             then [Notice(binId, HighFill, HighFillMessage(binId, level), clock)] else [])
      ensures events == old(events) && clock == old(clock)
      ensures connected == old(connected) && subscriptions == old(subscriptions)
    {
      if f.rowInsertFails {
        return;
      }
      readings := readings + [Reading(|readings| + 1, binId, level, clock)];
      if level >= Config.FillLevelThreshold {
        CreateAlarm(binId, HighFill, HighFillMessage(binId, level), f);
      }
    }

    /** `_handle_status`: store a STATUS_CHANGE event; never alarms. */
    method HandleStatus(binId: string, status: string, f: Faults)
      requires Valid()
      modifies this
      ensures Valid()
      ensures events == old(events) +
        (if f.rowInsertFails then [] else [Event(|old(events)| + 1, binId, StatusChange, status, clock)])
      ensures readings == old(readings) && alarms == old(alarms) && outbox == old(outbox)
      ensures clock == old(clock) && connected == old(connected) && subscriptions == old(subscriptions)
    {
      if f.rowInsertFails {
        return;
      }
      events := events + [Event(|events| + 1, binId, StatusChange, status, clock)];
    }

    /** `_handle_actuator_state`: store an ACTUATOR_STATE event, then alarm
        when the payload is exactly `ERROR`. */
    method HandleActuatorState(binId: string, state: string, f: Faults)
      requires Valid()
      modifies this
      ensures Valid()
      ensures events == old(events) +
        (if f.rowInsertFails then [] else [Event(|old(events)| + 1, binId, ActuatorStateChange, state, clock)])
      ensures var raised := !f.rowInsertFails && state == ErrorPayload;
        && alarms == old(alarms) + (if raised && !f.alarmInsertFails
             then [Alarm(|old(alarms)| + 1, binId, ActuatorError, ActuatorErrorMessage(binId), false, clock)] else [])
        && outbox == old(outbox) + (if raised && !f.alarmInsertFails && !f.publishFails
             then [Notice(binId, ActuatorError, ActuatorErrorMessage(binId), clock)] else [])
      ensures readings == old(readings) && clock == old(clock)
      ensures connected == old(connected) && subscriptions == old(subscriptions)
    {
      if f.rowInsertFails {
        return;
      }
      events := events + [Event(|events| + 1, binId, ActuatorStateChange, state, clock)];
      if state == ErrorPayload {
        CreateAlarm(binId, ActuatorError, ActuatorErrorMessage(binId), f);
      }
    }

    /** `_on_message`: `tick` is the time that passed since the previous
        message; the routing decides which handler runs, and a message the
        routing drops changes no table and publishes nothing. */
    method OnMessage(topic: string, payload: string, tick: nat, f: Faults)
      requires Valid()
      modifies this
      ensures Valid()
      ensures clock == old(clock) + tick
      ensures connected == old(connected) && subscriptions == old(subscriptions)
      ensures Route(topic, payload) == Ignore ==>
        Snapshot() == old(Snapshot()) && outbox == old(outbox)
      ensures Route(topic, payload).StoreFillLevel? ==>
        var a := Route(topic, payload);
        var raised := !f.rowInsertFails && a.level >= Config.FillLevelThreshold;
        && readings == old(readings) +
             (if f.rowInsertFails then [] else [Reading(|old(readings)| + 1, a.binId, a.level, clock)])
        && events == old(events)
        && alarms == old(alarms) + (if raised && !f.alarmInsertFails
             then [Alarm(|old(alarms)| + 1, a.binId, HighFill, HighFillMessage(a.binId, a.level), false, clock)] else [])
        && outbox == old(outbox) + (if raised && !f.alarmInsertFails && !f.publishFails
             then [Notice(a.binId, HighFill, HighFillMessage(a.binId, a.level), clock)] else [])
      ensures Route(topic, payload).StoreStatus? ==>
        var a := Route(topic, payload);
        && events == old(events) +
             (if f.rowInsertFails then [] else [Event(|old(events)| + 1, a.binId, StatusChange, a.status, clock)])
        && readings == old(readings) && alarms == old(alarms) && outbox == old(outbox)
      ensures Route(topic, payload).StoreActuatorState? ==>
        var a := Route(topic, payload);
        var raised := !f.rowInsertFails && a.state == ErrorPayload;
        && events == old(events) +
             (if f.rowInsertFails then [] else [Event(|old(events)| + 1, a.binId, ActuatorStateChange, a.state, clock)])
        && readings == old(readings)
        && alarms == old(alarms) + (if raised && !f.alarmInsertFails
             then [Alarm(|old(alarms)| + 1, a.binId, ActuatorError, ActuatorErrorMessage(a.binId), false, clock)] else [])
        && outbox == old(outbox) + (if raised && !f.alarmInsertFails && !f.publishFails
             then [Notice(a.binId, ActuatorError, ActuatorErrorMessage(a.binId), clock)] else [])
    {
      AdvanceClock(tick);
      match Route(topic, payload)
      case Ignore =>
      case StoreFillLevel(binId, level) => HandleFillLevel(binId, level, f);
      case StoreStatus(binId, status) => HandleStatus(binId, status, f);
      case StoreActuatorState(binId, state) => HandleActuatorState(binId, state, f);
    }

    /** Time passing between two messages. */
    method AdvanceClock(tick: nat)
      requires Valid()
      modifies this
      ensures Valid()
      ensures clock == old(clock) + tick
      ensures Snapshot() == old(Snapshot()) && outbox == old(outbox)
      ensures connected == old(connected) && subscriptions == old(subscriptions)
    {
      clock := clock + tick;
    }

    /** `get_bin_data`: the bin's newest `limit` readings as (level,
        timestamp) pairs; a failing query yields no rows. */
    method GetBinData(binId: string, limit: int, fails: bool) returns (rows: seq<(real, nat)>)
      requires Valid()
      ensures fails ==> rows == []
      ensures !fails ==> rows == BinData(readings, binId, limit)
      ensures forall i, j :: 0 <= i < j < |rows| ==> rows[i].1 >= rows[j].1
      ensures forall x, k :: x in BinNewestFirst(readings, binId)[|rows|..] && 0 <= k < |rows| ==>
        x.time <= rows[k].1
    {
      if fails {
        return [];
      }
      rows := BinData(readings, binId, limit);
      BinDataNewest(readings, binId, limit, clock);
    }

    /** `get_active_alarms`: bin, type, message and timestamp of every
        unacknowledged alarm, newest first; a failing query yields no rows. */
    method GetActiveAlarms(fails: bool) returns (rows: seq<Notice>)
      ensures fails ==> rows == []
      ensures !fails ==> |rows| == |ActiveNewestFirst(alarms)|
      ensures !fails ==> forall k :: 0 <= k < |rows| ==>
        var a := ActiveNewestFirst(alarms)[k];
        rows[k] == Notice(a.binId, a.kind, a.message, a.time)
    {
      if fails {
        return [];
      }
      var active := ActiveNewestFirst(alarms);
      rows := seq(|active|, k requires 0 <= k < |active| =>
        Notice(active[k].binId, active[k].kind, active[k].message, active[k].time));
    }

    /** `acknowledge_alarm`: flag the row with that id; a failing update
        changes nothing. */
    method AcknowledgeAlarm(alarmId: int, fails: bool)
      requires Valid()
      modifies this
      ensures Valid()
      ensures alarms == if fails then old(alarms) else Acknowledged(old(alarms), alarmId)
      ensures readings == old(readings) && events == old(events) && outbox == old(outbox)
      ensures clock == old(clock) && connected == old(connected) && subscriptions == old(subscriptions)
    {
      if fails {
        return;
      }
      if 1 <= alarmId <= |alarms| {
        alarms := alarms[alarmId - 1 := alarms[alarmId - 1].(acknowledged := true)];
      }
      assert alarms == Acknowledged(old(alarms), alarmId);
    }
  }
}
