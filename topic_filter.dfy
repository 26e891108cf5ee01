/** Topic filter matching as section 4.7 of MQTT Version 3.1.1 defines it: a
    topic and a filter are split into levels at `/` (empty levels included);
    `+` stands for exactly one level and a trailing `#` for any number of
    levels, including none, after its parent. This is what the broker applies
    to the subscriptions; topics starting with `$` are not treated specially. */
module TopicFilter {
  import opened Strings

  function Levels(name: string): seq<string> {
    Split(name, '/')
  }

  /** Does the filter, level by level, match the topic, level by level? */
  function MatchLevels(filter: seq<string>, topic: seq<string>): bool
    decreases |filter|
  {
    if filter == [] then topic == []
    else if filter[0] == "#" then true
    else if topic == [] then false
    else (filter[0] == "+" || filter[0] == topic[0]) && MatchLevels(filter[1..], topic[1..])
  }

  predicate Matches(filter: string, topic: string) {
    MatchLevels(Levels(filter), Levels(topic))
  }

  /** Without `#`, a filter only matches topics with as many levels as it has. */
  lemma {:induction false} MatchSameDepth(filter: seq<string>, topic: seq<string>)
    requires forall k :: 0 <= k < |filter| ==> filter[k] != "#"
    requires MatchLevels(filter, topic)
    ensures |filter| == |topic|
    decreases |filter|
  {
    if filter != [] {
      MatchSameDepth(filter[1..], topic[1..]);
    }
  }

  /** A filter of literal levels and `+` matches exactly the topics of the same
      depth that agree on every literal level. */
  lemma {:induction false} MatchExactly(filter: seq<string>, topic: seq<string>)
    requires forall k :: 0 <= k < |filter| ==> filter[k] != "#"
    ensures MatchLevels(filter, topic) <==>
      |filter| == |topic| &&
      forall k :: 0 <= k < |filter| ==> filter[k] == "+" || filter[k] == topic[k]
    decreases |filter|
  {
    if filter != [] && topic != [] {
      MatchExactly(filter[1..], topic[1..]);
      if |filter| == |topic| {
        forall k | 0 <= k < |filter| - 1
          ensures filter[1..][k] == filter[k + 1] && topic[1..][k] == topic[k + 1]
        {
        }
      }
    }
  }
}
