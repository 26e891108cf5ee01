/** How the parts fit together over the broker: the topics and payloads the
    smart bin publishes, the subscriptions of the data manager and the
    monitor, and what each of them makes of a message from the bin.

    Matching a topic against a subscription is the broker's job; it follows
    section 4.7 of MQTT Version 3.1.1 (module TopicFilter). */
module Wiring {
  import opened Wrappers
  import opened Strings
  import opened Numbers
  import Config
  import opened TopicFilter
  import opened AppManager
  import opened SmartBin
  import opened Monitor

  // ---------------------------------------------------------------------
  // The levels of the topics involved

  /** `municipal/bins/<b>/<kind>` has four levels. */
  lemma BinKindLevels(b: string, kind: string)
    requires '/' !in b && '/' !in kind
    ensures Split(Config.BaseTopic + b + "/" + kind, '/') == ["municipal", "bins", b, kind]
  {
    var rest := b + ['/'] + kind;
    assert Config.BaseTopic + b + "/" + kind == Config.BaseTopic + rest;
    BaseSegments(rest);
    SplitAfter(b, '/', kind);
    SplitNoSep(kind, '/');
  }

  /** `municipal/bins//<b>/<kind>` has five levels, the third one empty. */
  lemma DoubleSlashLevels(b: string, kind: string)
    requires '/' !in b && '/' !in kind
    ensures Split(Config.BaseTopic + "/" + b + "/" + kind, '/') == ["municipal", "bins", "", b, kind]
  {
    var tail := b + ['/'] + kind;
    SplitAfter(b, '/', kind);
    SplitNoSep(kind, '/');
    assert Split(tail, '/') == [b, kind];
    var empty: string := [];
    SplitAfter(empty, '/', tail);
    var rest := ['/'] + tail;
    assert empty + ['/'] + tail == rest;
    BaseSegments(rest);
    SlashRegroup(Config.BaseTopic, b, kind);
  }

  /** Regrouping `base/b/kind` around the base. */
  lemma SlashRegroup(base: string, b: string, kind: string)
    ensures base + "/" + b + "/" + kind == base + (['/'] + (b + ['/'] + kind))
  {
  }

  lemma AlarmTopicLevels()
    ensures Split(Config.AlarmTopic, '/') == ["municipal", "bins", "alarm"]
  {
    var a := "alarm";
    assert Config.AlarmTopic == Config.BaseTopic + a;
    BaseSegments(a);
    SplitNoSep(a, '/');
  }

  /** Regrouping a concatenation after a fixed head. */
  lemma Regroup(base: string, suffix: string, x: string, y: string, z: string)
    requires suffix == x + y + z
    ensures base + suffix == base + x + y + z
  {
  }

  /** `municipal/bins/+/<kind>` has four levels, the third one `+`. */
  lemma PlusFilterLevels(suffix: string, kind: string)
    requires '/' !in kind && suffix == "+" + "/" + kind
    ensures Levels(Config.BaseTopic + suffix) == ["municipal", "bins", "+", kind]
  {
    Regroup(Config.BaseTopic, suffix, "+", "/", kind);
    BinKindLevels("+", kind);
  }

  /** The levels of the subscriptions to fill levels. */
  lemma FillFilterLevels()
    ensures Levels(ManagerFilters[0]) == ["municipal", "bins", "+", "fill_level"]
    ensures Levels(MonitorFilters[0]) == ["municipal", "bins", "+", "fill_level"]
  {
    PlusFilterLevels("+/fill_level", "fill_level");
  }

  /** The levels of the subscriptions to statuses. */
  lemma StatusFilterLevels()
    ensures Levels(ManagerFilters[1]) == ["municipal", "bins", "+", "status"]
    ensures Levels(MonitorFilters[1]) == ["municipal", "bins", "+", "status"]
  {
    PlusFilterLevels("+/status", "status");
  }

  /** The levels of the manager's subscription to actuator states. */
  lemma ActuatorFilterLevels()
    ensures Levels(ManagerFilters[2]) == ["municipal", "bins", "+", "actuator_state"]
  {
    PlusFilterLevels("+/actuator_state", "actuator_state");
  }

  /** The levels of the subscriptions to the alarm topic. */
  lemma AlarmFilterLevels()
    ensures Levels(ManagerFilters[3]) == ["municipal", "bins", "alarm"]
    ensures Levels(MonitorFilters[2]) == ["municipal", "bins", "alarm"]
  {
    AlarmTopicLevels();
  }

  /** A `+` subscription to `kind` matches the topic of every bin about
      `kind`. */
  lemma PlusFilterMatches(filter: string, b: string, kind: string)
    requires '/' !in b && '/' !in kind && kind != "#"
    requires Levels(filter) == ["municipal", "bins", "+", kind]
    ensures Matches(filter, Config.BaseTopic + b + "/" + kind)
  {
    BinKindLevels(b, kind);
    var m, n, plus := "municipal", "bins", "+";
    assert m != "#" && n != "#" && plus != "#";
    MatchExactly(Levels(filter), [m, n, b, kind]);
  }

  /** The fill-level and status topics of a bin. */
  lemma ReadingTopicShape(b: string)
    ensures FillTopic(b) == Config.BaseTopic + b + "/" + "fill_level"
    ensures StatusTopic(b) == Config.BaseTopic + b + "/" + "status"
    ensures ActuatorTopic(b) == Config.BaseTopic + "/" + b + "/" + "actuator_state"
  {
  }

  /** Every prefix starts its extensions. */
  lemma PrefixStarts(base: string, rest: string)
    ensures StartsWith(base + rest, base)
  {
    assert (base + rest)[..|base|] == base;
  }

  /** `municipal/bins/<b>/<kind>` is a topic of bin `b` about `kind`. */
  lemma BinTopicOf(b: string, kind: string)
    requires '/' !in b && '/' !in kind
    ensures BinTopic(Config.BaseTopic + b + "/" + kind, b, kind)
    ensures Levels(Config.BaseTopic + b + "/" + kind) == ["municipal", "bins", b, kind]
  {
    BinKindLevels(b, kind);
    Regroup(Config.BaseTopic, b + "/" + kind, b, "/", kind);
    PrefixStarts(Config.BaseTopic, b + "/" + kind);
  }

  // ---------------------------------------------------------------------
  // From the bin to the data manager

  /** A reading of the bin reaches the manager through its first
      subscription and is stored under the bin's id with the level the
      payload shows: the level rounded to one decimal. */
  lemma FillReachesManager(n: nat, level: real)
    requires 1000 <= n <= 9999
    ensures Matches(ManagerFilters[0], FillTopic(BinName(n)))
    ensures Route(FillTopic(BinName(n)), Format1(level)) == StoreFillLevel(BinName(n), Rounded1(level))
  {
    var b := BinName(n);
    BinNameOneLevel(n);
    ReadingTopicShape(b);
    FillFilterLevels();
    PlusFilterMatches(ManagerFilters[0], b, "fill_level");
    FillRoute(b, level);
  }

  /** The manager stores the level a fill-level payload shows under the
      bin's id. */
  lemma FillRoute(b: string, level: real)
    requires '/' !in b
    ensures Route(Config.BaseTopic + b + "/" + "fill_level", Format1(level)) == StoreFillLevel(b, Rounded1(level))
  {
    BinTopicOf(b, "fill_level");
    FormatParse(level);
    RouteFillLevel(Config.BaseTopic + b + "/" + "fill_level", b, Format1(level), Rounded1(level));
  }

  /** A status of the bin reaches the manager through its second
      subscription and is stored as sent, under the bin's id. */
  lemma StatusReachesManager(n: nat, text: string)
    requires 1000 <= n <= 9999
    ensures Matches(ManagerFilters[1], StatusTopic(BinName(n)))
    ensures Route(StatusTopic(BinName(n)), text) == StoreStatus(BinName(n), text)
  {
    var b := BinName(n);
    BinNameOneLevel(n);
    ReadingTopicShape(b);
    StatusFilterLevels();
    PlusFilterMatches(ManagerFilters[1], b, "status");
    BinTopicOf(b, "status");
    RouteStatus(Config.BaseTopic + b + "/" + "status", b, text);
  }

  /** The extra `/` of the actuator topic does not disturb the manager's
      routing: the second-to-last level is still the bin's id. */
  lemma ActuatorTopicRoutesToBin(n: nat, value: string)
    requires 1000 <= n <= 9999
    ensures Route(ActuatorTopic(BinName(n)), value) == StoreActuatorState(BinName(n), value)
  {
    var b, kind := BinName(n), "actuator_state";
    BinNameOneLevel(n);
    ReadingTopicShape(b);
    DoubleSlashLevels(b, kind);
    assert StartsWith(ActuatorTopic(b), Config.BaseTopic) by {
      assert ActuatorTopic(b)[..|Config.BaseTopic|] == Config.BaseTopic;
    }
    RouteActuatorState(ActuatorTopic(b), b, value);
  }

  /** But no subscription of the manager matches the actuator topic: it has
      five levels and every filter has three or four, with no `#`. So the
      manager never stores an actuator state from a bin and never raises an
      actuator-error alarm for one. */
  lemma ActuatorTopicNotSubscribed(n: nat)
    requires 1000 <= n <= 9999
    ensures forall k :: 0 <= k < |ManagerFilters| ==> !Matches(ManagerFilters[k], ActuatorTopic(BinName(n)))
  {
    var topic := Levels(ActuatorTopic(BinName(n)));
    ActuatorTopicDepth(n);
    forall k | 0 <= k < |ManagerFilters|
      ensures !Matches(ManagerFilters[k], ActuatorTopic(BinName(n)))
    {
      if k == 0 {
        FillFilterLevels();
        ShallowerMisses(Levels(ManagerFilters[0]), topic);
      } else if k == 1 {
        StatusFilterLevels();
        ShallowerMisses(Levels(ManagerFilters[1]), topic);
      } else if k == 2 {
        ActuatorFilterLevels();
        ShallowerMisses(Levels(ManagerFilters[2]), topic);
      } else {
        AlarmFilterLevels();
        ShallowerMisses(Levels(ManagerFilters[3]), topic);
      }
    }
  }

  /** The actuator topic has five levels, one more than any subscription. */
  lemma ActuatorTopicDepth(n: nat)
    requires 1000 <= n <= 9999
    ensures |Levels(ActuatorTopic(BinName(n)))| == 5
  {
    var b := BinName(n);
    BinNameOneLevel(n);
    ReadingTopicShape(b);
    DoubleSlashLevels(b, "actuator_state");
  }

  /** A filter without `#` misses every topic deeper than itself. */
  lemma ShallowerMisses(filter: seq<string>, topic: seq<string>)
    requires forall j :: 0 <= j < |filter| ==> filter[j] != "#"
    requires |filter| < |topic|
    ensures !MatchLevels(filter, topic)
  {
    if MatchLevels(filter, topic) {
      MatchSameDepth(filter, topic);
    }
  }

  /** The actuator topic the manager's `+/actuator_state` subscription expects, `municipal/bins/<b>/actuator_state`. */
  function IntendedActuatorTopic(binId: string): (t: string)
    requires '/' !in binId
    ensures Split(t, '/') == ["municipal", "bins", binId, "actuator_state"]
  {
    BinKindLevels(binId, "actuator_state");
    Config.BaseTopic + binId + "/" + "actuator_state"
  }

  /** On that topic the state does reach the manager, through its third
      subscription, and is stored under the bin's id. */
  lemma IntendedActuatorTopicDelivered(n: nat, value: string)
    requires 1000 <= n <= 9999
    ensures '/' !in BinName(n)
    ensures Matches(ManagerFilters[2], IntendedActuatorTopic(BinName(n)))
    ensures Route(IntendedActuatorTopic(BinName(n)), value) == StoreActuatorState(BinName(n), value)
  {
    var b := BinName(n);
    BinNameOneLevel(n);
    ActuatorFilterLevels();
    PlusFilterMatches(ManagerFilters[2], b, "actuator_state");
    BinTopicOf(b, "actuator_state");
    RouteActuatorState(IntendedActuatorTopic(b), b, value);
  }

  // ---------------------------------------------------------------------
  // From the bin to the monitor

  /** The monitor's bin id for `municipal/bins/<b>/<kind>` is `b`: the base
      topic occurs once, at the start, and what follows has fewer `/` than
      the base topic. */
  lemma MonitorBinIdOfBinTopic(b: string, kind: string)
    requires '/' !in b && '/' !in kind
    ensures MonitorBinId(Config.BaseTopic + b + "/" + kind) == b
  {
    var rest := b + ['/'] + kind;
    Regroup(Config.BaseTopic, rest, b, "/", kind);
    RemoveAllLeading(Config.BaseTopic, rest);
    OneSlash(b, kind);
    BaseTopicSlashes();
    RemoveAllNoMatch(rest, Config.BaseTopic, '/');
    SplitAfter(b, '/', kind);
  }

  lemma OneSlash(b: string, kind: string)
    requires '/' !in b && '/' !in kind
    ensures Count(b + ['/'] + kind, '/') == 1
  {
    CountAppend(b + ['/'], kind, '/');
    CountAppend(b, ['/'], '/');
  }

  lemma BaseTopicSlashes()
    ensures Count(Config.BaseTopic, '/') == 2
  {
    var m, n := "municipal", "bins";
    assert Config.BaseTopic == m + (['/'] + n) + ['/'];
    TwoSlashes(m, n);
  }

  lemma TwoSlashes(m: string, n: string)
    requires '/' !in m && '/' !in n
    ensures Count(m + (['/'] + n) + ['/'], '/') == 2
  {
    CountAppend(m + (['/'] + n), ['/'], '/');
    CountAppend(m, ['/'] + n, '/');
    CountAppend(['/'], n, '/');
  }

  /** A reading of the bin reaches the monitor through its first
      subscription and shows the rounded level on the bin's panel. */
  lemma FillReachesMonitor(n: nat, level: real, decoded: Option<Notice>)
    requires 1000 <= n <= 9999
    ensures Matches(MonitorFilters[0], FillTopic(BinName(n)))
    ensures MonitorRoute(FillTopic(BinName(n)), Format1(level), decoded) == ShowBinLevel(BinName(n), Rounded1(level))
  {
    var b := BinName(n);
    BinNameOneLevel(n);
    ReadingTopicShape(b);
    FillFilterLevels();
    PlusFilterMatches(MonitorFilters[0], b, "fill_level");
    MonitorFillRoute(b, level, decoded);
  }

  /** The monitor shows the level a fill-level payload shows on the bin's
      panel. */
  lemma MonitorFillRoute(b: string, level: real, decoded: Option<Notice>)
    requires '/' !in b
    ensures MonitorRoute(Config.BaseTopic + b + "/" + "fill_level", Format1(level), decoded)
      == ShowBinLevel(b, Rounded1(level))
  {
    var topic := Config.BaseTopic + b + "/" + "fill_level";
    BinKindLevels(b, "fill_level");
    FormatParse(level);
    MonitorBinIdOfBinTopic(b, "fill_level");
    assert topic != Config.AlarmTopic by {
      assert |topic| != |Config.AlarmTopic|;
    }
  }

  /** A status of the bin reaches the monitor through its second
      subscription and is shown as sent on the bin's panel. */
  lemma StatusReachesMonitor(n: nat, text: string, decoded: Option<Notice>)
    requires 1000 <= n <= 9999
    ensures Matches(MonitorFilters[1], StatusTopic(BinName(n)))
    ensures MonitorRoute(StatusTopic(BinName(n)), text, decoded) == ShowBinStatus(BinName(n), text)
  {
    var b := BinName(n);
    BinNameOneLevel(n);
    ReadingTopicShape(b);
    StatusFilterLevels();
    PlusFilterMatches(MonitorFilters[1], b, "status");
    MonitorStatusRoute(b, text, decoded);
  }

  /** The monitor shows a status payload as sent on the bin's panel. */
  lemma MonitorStatusRoute(b: string, text: string, decoded: Option<Notice>)
    requires '/' !in b
    ensures MonitorRoute(Config.BaseTopic + b + "/" + "status", text, decoded) == ShowBinStatus(b, text)
  {
    var topic := Config.BaseTopic + b + "/" + "status";
    BinKindLevels(b, "status");
    MonitorBinIdOfBinTopic(b, "status");
    assert topic != Config.AlarmTopic by {
      assert |topic| != |Config.AlarmTopic|;
    }
  }

  /** The alarms the manager publishes reach the monitor through its third
      subscription. */
  lemma AlarmsReachMonitor()
    ensures Matches(MonitorFilters[2], Config.AlarmTopic)
  {
    AlarmFilterLevels();
    MatchExactly(Levels(MonitorFilters[2]), Levels(Config.AlarmTopic));
  }

  // ---------------------------------------------------------------------
  // The bin's status rule against the manager's alarm rule

  /** The manager sees the level rounded to one decimal, so it alarms from
      79.95 on: exactly when the rounded level reaches the threshold. */
  lemma RoundedReachesThreshold(x: real)
    ensures Rounded1(x) >= Config.FillLevelThreshold <==> x >= 79.95
  {
    if x >= 0.0 {
      var y := x * 10.0;
      var f := y.Floor;
      if x >= 79.95 {
        assert f >= 799;
        if f == 799 {
          assert y - f as real >= 0.5;
        }
        assert Tenths(x) >= 800;
      } else {
        assert f <= 799;
        if f == 799 {
          assert y - f as real < 0.5;
        }
        assert Tenths(x) <= 799;
      }
    }
  }

  /** Whenever the bin reports that it needs emptying (and asks its own
      actuator to empty it), the reading it published makes the manager
      raise a high-fill alarm. */
  lemma NeedsEmptyingAlarms(n: nat, level: real)
    requires 1000 <= n <= 9999
    requires Classify(level) == NeedsEmptying
    ensures Route(FillTopic(BinName(n)), Format1(level)).StoreFillLevel?
    ensures Route(FillTopic(BinName(n)), Format1(level)).level >= Config.FillLevelThreshold
  {
    FillReachesManager(n, level);
    RoundedReachesThreshold(level);
  }

  /** The converse fails: a level just under 80 shows `Normal` on the bin
      and starts no emptying, yet the manager reads `80.0` and alarms. */
  lemma AlarmBeforeNeedsEmptying()
    ensures Classify(79.96) == Normal
    ensures Rounded1(79.96) >= Config.FillLevelThreshold
  {
    RoundedReachesThreshold(79.96);
  }
}
