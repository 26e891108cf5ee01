/** The monitoring console of MonitorGUI.py, as data: a map from bin id to
    what the bin's panel shows, and the rows of the alarm list. It follows
    readings, statuses and alarms as they arrive over MQTT, and every
    refresh rebuilds the alarm list and the bin levels from the database.

    Widgets, styles, the status bar and the scheduling of updates on Tk's
    main loop are left to Tk; an update scheduled with `after(0, ...)` is
    applied at once. */
module Monitor {
  import opened Wrappers
  import opened Strings
  import opened Numbers
  import Config
  import opened AppManager

  /** The subscriptions `_on_connect` makes. */
  const MonitorFilters: seq<string> := [
    Config.BaseTopic + "+/fill_level",
    Config.BaseTopic + "+/status",
    Config.AlarmTopic
  ]

  /** The progress bar style of a bin. */
  datatype Band = RedBand | YellowBand | GreenBand

  const RedFrom: real := 80.0
  const YellowFrom: real := 60.0

  /** The banding of `_update_bin_level`. */
  function LevelBand(level: real): (b: Band)
    ensures b == RedBand <==> level >= RedFrom
    ensures b == YellowBand <==> YellowFrom <= level < RedFrom
    ensures b == GreenBand <==> level < YellowFrom
  {
    if level >= RedFrom then RedBand
    else if level >= YellowFrom then YellowBand
    else GreenBand
  }

  /** The band never goes down as the level goes up. */
  lemma LevelBandMonotone(x: real, y: real)
    requires x <= y
    ensures LevelBand(x) == RedBand ==> LevelBand(y) == RedBand
    ensures LevelBand(x) == YellowBand ==> LevelBand(y) != GreenBand
  {
  }

  /** What one bin's panel shows: the level text, the progress value, the
      progress style and the status text. */
  datatype BinView = BinView(levelText: string, progress: real, band: Band, status: string)

  /** A bin's panel as `_create_bin_widget` makes it. */
  const NewBinView: BinView := BinView("0.0%", 0.0, GreenBand, "Unknown")

  /** The panel of a bin, or a new one for a bin not seen yet. */
  function ViewOf(bins: map<string, BinView>, binId: string): BinView {
    if binId in bins then bins[binId] else NewBinView
  }

  /** A panel after showing `level`; the status is kept. */
  function ShowLevel(v: BinView, level: real): (r: BinView)
    ensures r.status == v.status && r.progress == level && r.band == LevelBand(level)
    ensures r.levelText == Format1(level) + "%"
  {
    v.(levelText := Format1(level) + "%", progress := level, band := LevelBand(level))
  }

  /** One row of the alarm list: timestamp, bin, type and message, and the
      alarm's id for rows loaded from the database. */
  datatype AlarmRow = AlarmRow(time: nat, binId: string, kind: AlarmType, message: string, alarmId: Option<nat>)

  /** The row a pushed alarm notice shows; it carries no id. */
  function NoticeRow(n: Notice): AlarmRow {
    AlarmRow(n.time, n.binId, n.kind, n.message, None)
  }

  /** The row a stored alarm shows, tagged with its id. */
  function StoredRow(a: Alarm): AlarmRow {
    AlarmRow(a.time, a.binId, a.kind, a.message, Some(a.id))
  }

  function StoredRows(alarms: seq<Alarm>): (rows: seq<AlarmRow>)
    ensures |rows| == |alarms|
    ensures forall k :: 0 <= k < |rows| ==> rows[k] == StoredRow(alarms[k])
  {
    seq(|alarms|, k requires 0 <= k < |alarms| => StoredRow(alarms[k]))
  }

  /** The bin id the monitor reads from a topic: everything up to the first
      `/` once every copy of the base topic is removed. */
  function MonitorBinId(topic: string): string {
    Split(RemoveAll(topic, Config.BaseTopic), '/')[0]
  }

  /** What `_on_message` does with one message. */
  datatype MonitorAction =
    | NoChange
    | ShowAlarm(notice: Notice)
    | ShowBinLevel(binId: string, level: real)
    | ShowBinStatus(binId: string, status: string)

  /** The routing of `_on_message`. `decoded` is the alarm object the
      payload decodes to as JSON, or `None` when decoding fails or a field
      is missing. */
  function MonitorRoute(topic: string, payload: string, decoded: Option<Notice>): (a: MonitorAction)
    ensures a.ShowAlarm? <==> topic == Config.AlarmTopic && decoded.Some?
    ensures a.ShowAlarm? ==> a.notice == decoded.value
    ensures a.ShowBinLevel? ==> a.binId == MonitorBinId(topic) && ParseFloat(payload) == Some(a.level)
    ensures a.ShowBinStatus? ==> a.binId == MonitorBinId(topic) && a.status == payload
    ensures (a.ShowBinLevel? || a.ShowBinStatus?) ==> topic != Config.AlarmTopic
    ensures a.ShowBinLevel? <==>
      topic != Config.AlarmTopic && Kind(topic) == "fill_level" && ParseFloat(payload).Some?
    ensures a.ShowBinStatus? <==> topic != Config.AlarmTopic && Kind(topic) == "status"
  {
    if topic == Config.AlarmTopic then
      match decoded
      case None => NoChange
      case Some(n) => ShowAlarm(n)
    else
      var binId := MonitorBinId(topic);
      var kind := Kind(topic);
      if kind == "fill_level" then
        match ParseFloat(payload)
        case None => NoChange
        case Some(level) => ShowBinLevel(binId, level)
      else if kind == "status" then ShowBinStatus(binId, payload)
      else NoChange
  }

  /** The panels after the latest reading of each listed bin is shown, in
      list order. */
  function ApplyLatest(bins: map<string, BinView>, readings: seq<Reading>, ids: seq<string>): map<string, BinView>
    decreases |ids|
  {
    if ids == [] then bins
    else
      var before := ApplyLatest(bins, readings, ids[..|ids| - 1]);
      var binId := ids[|ids| - 1];
      match LatestReading(readings, binId)
      case None => before
      case Some(r) => before[binId := ShowLevel(ViewOf(before, binId), r.level)]
  }

  /** A refresh creates panels only for listed bins that have readings. */
  lemma {:induction false} ApplyLatestDomain(bins: map<string, BinView>, readings: seq<Reading>, ids: seq<string>)
    requires forall k :: 0 <= k < |ids| ==> LatestReading(readings, ids[k]).Some?
    ensures forall b :: b in ApplyLatest(bins, readings, ids) <==> b in bins || b in ids
    decreases |ids|
  {
    if ids != [] {
      var n := |ids| - 1;
      ApplyLatestDomain(bins, readings, ids[..n]);
      assert ids == ids[..n] + [ids[n]];
      assert LatestReading(readings, ids[n]).Some?;
    }
  }

  /** A refresh leaves the panels of unlisted bins as they were. */
  lemma {:induction false} ApplyLatestOthers(bins: map<string, BinView>, readings: seq<Reading>, ids: seq<string>, b: string)
    requires b !in ids
    ensures ViewOf(ApplyLatest(bins, readings, ids), b) == ViewOf(bins, b)
    decreases |ids|
  {
    if ids != [] {
      var n := |ids| - 1;
      assert ids[n] != b;
      assert b !in ids[..n];
      ApplyLatestOthers(bins, readings, ids[..n], b);
    }
  }

  /** After a refresh over distinct bins, each listed bin that has readings
      shows its latest level over what its panel showed before. */
  lemma {:induction false} ApplyLatestShowsLatest(bins: map<string, BinView>, readings: seq<Reading>, ids: seq<string>, k: nat)
    requires forall i, j :: 0 <= i < j < |ids| ==> ids[i] != ids[j]
    requires k < |ids| && LatestReading(readings, ids[k]).Some?
    ensures ViewOf(ApplyLatest(bins, readings, ids), ids[k]) ==
      ShowLevel(ViewOf(bins, ids[k]), LatestReading(readings, ids[k]).value.level)
    decreases |ids|
  {
    var n := |ids| - 1;
    var front := ids[..n];
    if k == n {
      assert ids[n] !in front by {
        forall i | 0 <= i < n ensures front[i] != ids[n] {
          assert front[i] == ids[i];
        }
      }
      ApplyLatestLast(bins, readings, ids);
    } else {
      assert front[k] == ids[k] && ids[k] != ids[n];
      ApplyLatestShowsLatest(bins, readings, front, k);
      ApplyLatestEarlier(bins, readings, ids, ids[k]);
    }
  }

  /** The last listed bin, listed once, shows its latest level. */
  lemma ApplyLatestLast(bins: map<string, BinView>, readings: seq<Reading>, ids: seq<string>)
    requires ids != [] && LatestReading(readings, ids[|ids| - 1]).Some?
    requires ids[|ids| - 1] !in ids[..|ids| - 1]
    ensures ViewOf(ApplyLatest(bins, readings, ids), ids[|ids| - 1]) ==
      ShowLevel(ViewOf(bins, ids[|ids| - 1]), LatestReading(readings, ids[|ids| - 1]).value.level)
  {
    ApplyLatestOthers(bins, readings, ids[..|ids| - 1], ids[|ids| - 1]);
  }

  /** A bin other than the last listed one is left as the earlier ones set it. */
  lemma ApplyLatestEarlier(bins: map<string, BinView>, readings: seq<Reading>, ids: seq<string>, b: string)
    requires ids != [] && b != ids[|ids| - 1]
    ensures ViewOf(ApplyLatest(bins, readings, ids), b) == ViewOf(ApplyLatest(bins, readings, ids[..|ids| - 1]), b)
  {
  }

  /** A complete refresh shows, for every bin with readings, its latest
      level on its panel (created if need be), and touches no other bin. */
  lemma RefreshShowsLatest(bins: map<string, BinView>, readings: seq<Reading>, b: string)
    ensures var after := ApplyLatest(bins, readings, DistinctBins(readings));
      && (b in after <==> b in bins || exists x :: x in readings && x.binId == b)
      && (LatestReading(readings, b).Some? ==>
            ViewOf(after, b) == ShowLevel(ViewOf(bins, b), LatestReading(readings, b).value.level))
      && (LatestReading(readings, b).None? ==> ViewOf(after, b) == ViewOf(bins, b))
  {
    var ids := DistinctBins(readings);
    forall k | 0 <= k < |ids| ensures LatestReading(readings, ids[k]).Some? {
      assert ids[k] in ids;
    }
    ApplyLatestDomain(bins, readings, ids);
    if LatestReading(readings, b).Some? {
      assert b in ids;
      var k :| 0 <= k < |ids| && ids[k] == b;
      ApplyLatestShowsLatest(bins, readings, ids, k);
    } else {
      ApplyLatestOthers(bins, readings, ids, b);
    }
  }

  /** On a well-formed readings table a complete refresh shows each bin
      the level of a reading of that bin that no other reading of it is
      newer than. */
  lemma RefreshShowsNewest(bins: map<string, BinView>, readings: seq<Reading>, clock: nat, b: string)
    requires ReadingsValid(readings, clock)
    ensures var after := ApplyLatest(bins, readings, DistinctBins(readings));
      var l := LatestReading(readings, b);
      l.Some? ==>
        && l.value in readings && l.value.binId == b
        && (forall x :: x in readings && x.binId == b ==> x.time <= l.value.time)
        && ViewOf(after, b) == ShowLevel(ViewOf(bins, b), l.value.level)
  {
    RefreshShowsLatest(bins, readings, b);
    LatestReadingIsNewest(readings, b, clock);
  }

  class BinMonitor {
    var bins: map<string, BinView>
    var alarmView: seq<AlarmRow>
    var subscriptions: seq<string>

    /** No bins and no alarms yet. */
    constructor ()
      ensures bins == map[] && alarmView == [] && subscriptions == []
    {
      bins, alarmView, subscriptions := map[], [], [];
    }

    /** `_on_connect`: on success, subscribe. */
    method OnConnect(rc: int)
      modifies this
      ensures subscriptions == old(subscriptions) + (if rc == 0 then MonitorFilters else [])
      ensures bins == old(bins) && alarmView == old(alarmView)
    {
      if rc == 0 {
        subscriptions := subscriptions + MonitorFilters;
      }
    }

    /** `_update_bin_level`: create the bin's panel on first sight, then
        show the level. */
    method UpdateBinLevel(binId: string, level: real)
      modifies this
      ensures bins == old(bins)[binId := ShowLevel(ViewOf(old(bins), binId), level)]
      ensures alarmView == old(alarmView) && subscriptions == old(subscriptions)
    {
      if binId !in bins {
        bins := bins[binId := NewBinView];
      }
      var v := bins[binId];
      bins := bins[binId := v.(levelText := Format1(level) + "%", progress := level, band := LevelBand(level))];
    }

    /** `_update_bin_status`: create the bin's panel on first sight, then
        show the status; nothing else changes. */
    method UpdateBinStatus(binId: string, status: string)
      modifies this
      ensures bins == old(bins)[binId := ViewOf(old(bins), binId).(status := status)]
      ensures alarmView == old(alarmView) && subscriptions == old(subscriptions)
    {
      if binId !in bins {
        bins := bins[binId := NewBinView];
      }
      bins := bins[binId := bins[binId].(status := status)];
    }

    /** `_handle_alarm`: the alarm goes on top of the list. */
    method HandleAlarm(n: Notice)
      modifies this
      ensures alarmView == [NoticeRow(n)] + old(alarmView)
      ensures bins == old(bins) && subscriptions == old(subscriptions)
    {
      alarmView := [NoticeRow(n)] + alarmView;
    }

    /** `_on_message`. */
    method OnMessage(topic: string, payload: string, decoded: Option<Notice>)
      modifies this
      ensures match MonitorRoute(topic, payload, decoded)
        case NoChange => bins == old(bins) && alarmView == old(alarmView)
        case ShowAlarm(n) => bins == old(bins) && alarmView == [NoticeRow(n)] + old(alarmView)
        case ShowBinLevel(b, level) =>
          alarmView == old(alarmView) && bins == old(bins)[b := ShowLevel(ViewOf(old(bins), b), level)]
        case ShowBinStatus(b, status) =>
          alarmView == old(alarmView) && bins == old(bins)[b := ViewOf(old(bins), b).(status := status)]
      ensures subscriptions == old(subscriptions)
    {
      match MonitorRoute(topic, payload, decoded)
      case NoChange =>
      case ShowAlarm(n) => HandleAlarm(n);
      case ShowBinLevel(b, level) => UpdateBinLevel(b, level);
      case ShowBinStatus(b, status) => UpdateBinStatus(b, status);
    }

    /** `_acknowledge_selected_alarm`: `selection` is the position of the
        first selected row. Only that row leaves the list; the database is
        not written, so the next refresh shows the alarm again while it is
        unacknowledged there. */
    method AcknowledgeSelected(selection: Option<nat>)
      requires selection.Some? ==> selection.value < |alarmView|
      modifies this
      ensures selection.None? ==> alarmView == old(alarmView)
      ensures selection.Some? ==>
        alarmView == old(alarmView)[..selection.value] + old(alarmView)[selection.value + 1..]
      ensures bins == old(bins) && subscriptions == old(subscriptions)
    {
      match selection
      case None =>
      case Some(i) =>
        alarmView := alarmView[..i] + alarmView[i + 1..];
    }

    /** `_update_from_database` over a snapshot of the tables. A failing
        alarm query leaves the list as it was; `readingsFailAt` is the number
        of bins updated before a readings query fails. */
    method Refresh(db: Database, alarmsFail: bool, readingsFailAt: Option<nat>)
      modifies this
      ensures alarmView == if alarmsFail then old(alarmView) else StoredRows(ActiveNewestFirst(db.alarms))
      ensures var ids := DistinctBins(db.readings);
        var n := match readingsFailAt case None => |ids| case Some(k) => if k < |ids| then k else |ids|;
        bins == ApplyLatest(old(bins), db.readings, ids[..n])
      ensures subscriptions == old(subscriptions)
    {
      if !alarmsFail {
        ReloadAlarms(ActiveNewestFirst(db.alarms));
      }
      var ids := DistinctBins(db.readings);
      var n := match readingsFailAt case None => |ids| case Some(k) => if k < |ids| then k else |ids|;
      ShowLatestLevels(db.readings, ids[..n]);
    }

    /** The alarm half of a refresh: clear the list, then one row per alarm. */
    method ReloadAlarms(active: seq<Alarm>)
      modifies this
      ensures alarmView == StoredRows(active)
      ensures bins == old(bins) && subscriptions == old(subscriptions)
    {
      while alarmView != []
        invariant bins == old(bins) && subscriptions == old(subscriptions)
        decreases |alarmView|
      {
        alarmView := alarmView[1..];
      }
      var i := 0;
      while i < |active|
        invariant 0 <= i <= |active|
        invariant alarmView == StoredRows(active[..i])
        invariant bins == old(bins) && subscriptions == old(subscriptions)
      {
        alarmView := alarmView + [StoredRow(active[i])];
        i := i + 1;
      }
      assert active[..i] == active;
    }

    /** The level half of a refresh: each listed bin shows its latest reading. */
    method ShowLatestLevels(readings: seq<Reading>, ids: seq<string>)
      modifies this
      ensures bins == ApplyLatest(old(bins), readings, ids)
      ensures alarmView == old(alarmView) && subscriptions == old(subscriptions)
    {
      var j := 0;
      while j < |ids|
        invariant 0 <= j <= |ids|
        invariant bins == ApplyLatest(old(bins), readings, ids[..j])
        invariant alarmView == old(alarmView) && subscriptions == old(subscriptions)
      {
        var binId := ids[j];
        assert ids[..j + 1][..j] == ids[..j];
        var latest := LatestReading(readings, binId);
        if latest.Some? {
          UpdateBinLevel(binId, latest.value.level);
        }
        j := j + 1;
      }
      assert ids[..j] == ids;
    }
  }
}
