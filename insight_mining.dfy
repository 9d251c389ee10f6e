/** The InsightMining concept: observations of a metric tagged with signals, insights
    computed per (owner, signal combination, metric), and weekly reports that name the
    most helpful and the most harmful signals. */
module InsightMining {
  import opened Common

  type User = Id
  type Signal = Id
  type Metric = Id

  datatype Observation = Observation(id: Id, owner: User, at: int, signals: seq<Signal>, metric: Metric, value: real)

  datatype Insight = Insight(
    id: Id, owner: User, signals: seq<Signal>, metric: Metric,
    effect: real, confidence: real, active: bool)

  datatype MetricTrend = MetricTrend(metric: Metric, value: real)

  datatype Report = Report(
    id: Id, owner: User, period: string, generatedAt: int,
    topHelpful: seq<Signal>, topHarmful: seq<Signal>, metricTrends: seq<MetricTrend>)

  const MsPerHour: int := 60 * 60 * 1000
  const WeekMs: int := 7 * 24 * 60 * 60 * 1000
  /** The neutral metric value that an effect is measured from. */
  const Baseline: real := 5.0
  /** The number of observations at which confidence reaches 1. */
  const FullConfidenceCount: real := 10.0
  const TopNSignals: nat := 3
  const Epsilon: real := 0.000000001

  const NoWindowObservations := "No observations found for owner within the specified window."
  const NoPeriodObservations := "No observations found for owner within the specified period."
  const NotAuthorizedToDeactivate := "Requester is not authorized to deactivate this insight: Only the owner can deactivate."
  const NoInsightToDeactivate := "No matching insight found to deactivate."
  const AlreadyInactive := "Insight is already inactive."

  function UnsupportedPeriod(period: string): string {
    "Unsupported period: " + period + ". Only 'week' is supported for now."
  }

  // ---------------------------------------------------------------------------
  // The deterministic insight key
  // ---------------------------------------------------------------------------

  /** `owner_sortedSignals_metric`, the `_id` under which an insight is upserted. */
  function CreateInsightKey(owner: User, signals: seq<Signal>, metric: Metric): Id {
    owner + "_" + Join(SortStrings(signals), "_") + "_" + metric
  }

  /** The key does not depend on the order in which the signals are listed. */
  lemma CreateInsightKeyOrderIndependent(owner: User, a: seq<Signal>, b: seq<Signal>, metric: Metric)
    requires multiset(a) == multiset(b)
    ensures CreateInsightKey(owner, a, metric) == CreateInsightKey(owner, b, metric)
  {
    SortStringsPermutationInvariant(a, b);
  }

  /** Because the signals are joined with the separator that may also occur inside a
      signal, two different signal combinations can share one key. */
  lemma CreateInsightKeyCollision()
    ensures CreateInsightKey("u", ["a_b"], "m") == CreateInsightKey("u", ["a", "b"], "m")
  {
    assert SortStrings(["a_b"]) == ["a_b"];
    assert StrLe("a", "b");
    assert SortStrings(["a", "b"]) == ["a", "b"];
  }

  // ---------------------------------------------------------------------------
  // Time windows
  // ---------------------------------------------------------------------------

  /** `new Date(ms)` keeps an integral number of milliseconds, truncating toward zero. */
  function TruncateMs(x: real): int {
    if x >= 0.0 then x.Floor else -((-x).Floor)
  }

  /** `find({ owner, at: { $gte: start, $lte: end } })`, in natural order. */
  function InWindow(obs: seq<Observation>, owner: User, start: int, end: int): (r: seq<Observation>)
    ensures forall o :: o in r <==> o in obs && o.owner == owner && start <= o.at <= end
  {
    Filter(obs, (o: Observation) => o.owner == owner && start <= o.at <= end)
  }

  /** The owner's active insights, in stored order. */
  function ActiveOf(ins: seq<Insight>, owner: User): (r: seq<Insight>)
    ensures forall x :: x in r <==> x in ins && x.owner == owner && x.active
  {
    Filter(ins, (x: Insight) => x.owner == owner && x.active)
  }

  // ---------------------------------------------------------------------------
  // Grouping observations by key (a JavaScript Map keeps insertion order)
  // ---------------------------------------------------------------------------

  datatype Group = Group(signals: seq<Signal>, metric: Metric, values: seq<real>, timestamps: seq<int>)

  datatype Grouping = Grouping(keys: seq<Id>, groups: map<Id, Group>)

  function ObservationKey(owner: User, o: Observation): Id {
    CreateInsightKey(owner, o.signals, o.metric)
  }

  /** One step of the loop at lines 153-166. */
  function AddToGrouping(g: Grouping, owner: User, o: Observation): Grouping {
    var key := ObservationKey(owner, o);
    if key in g.groups then
      var d := g.groups[key];
      Grouping(g.keys, g.groups[key := d.(values := d.values + [o.value], timestamps := d.timestamps + [o.at])])
    else
      Grouping(g.keys + [key], g.groups[key := Group(o.signals, o.metric, [o.value], [o.at])])
  }

  function GroupObservations(owner: User, obs: seq<Observation>): Grouping {
    if obs == [] then Grouping([], map[])
    else AddToGrouping(GroupObservations(owner, obs[..|obs| - 1]), owner, obs[|obs| - 1])
  }

  lemma GroupObservationsPrefix(owner: User, obs: seq<Observation>, i: nat)
    requires i < |obs|
    ensures GroupObservations(owner, obs[..i + 1]) == AddToGrouping(GroupObservations(owner, obs[..i]), owner, obs[i])
  {
    assert obs[..i + 1][..i] == obs[..i];
  }

  /** The loop body of lines 153-166, which first creates an empty group for a new key
      and then pushes onto it, is one step of the grouping. */
  lemma GroupLoopStep(prev: Grouping, owner: User, o: Observation, next: Grouping)
    requires var key := ObservationKey(owner, o);
      var created := if key in prev.groups then prev.groups[key] else Group(o.signals, o.metric, [], []);
      && next.keys == (if key in prev.groups then prev.keys else prev.keys + [key])
      && next.groups == prev.groups[key := created.(values := created.values + [o.value], timestamps := created.timestamps + [o.at])]
    ensures next == AddToGrouping(prev, owner, o)
  {
    var key := ObservationKey(owner, o);
    if key !in prev.groups {
      var vs: seq<real> := [];
      var ts: seq<int> := [];
      assert vs + [o.value] == [o.value] && ts + [o.at] == [o.at];
    }
  }

  /** What the grouping loop keeps true: keys listed once each, in first-seen order, and
      every group non-empty and stored under the key of its own signals and metric. */
  ghost predicate WellFormedGrouping(g: Grouping, owner: User) {
    && NoDuplicates(g.keys)
    && (forall k :: k in g.keys <==> k in g.groups)
    && (forall k :: k in g.groups ==>
          |g.groups[k].values| > 0 && |g.groups[k].values| == |g.groups[k].timestamps|
          && CreateInsightKey(owner, g.groups[k].signals, g.groups[k].metric) == k)
  }

  function KeyMatches(owner: User, key: Id): Observation -> bool {
    (o: Observation) => ObservationKey(owner, o) == key
  }

  function ValueOf(o: Observation): real { o.value }

  function TimeOf(o: Observation): int { o.at }

  ghost predicate HasKeyIn(owner: User, obs: seq<Observation>, k: Id) {
    exists o :: o in obs && ObservationKey(owner, o) == k
  }

  /** One step of the grouping loop keeps the grouping well formed and adds exactly the
      observation's key. */
  lemma AddToGroupingWellFormed(g: Grouping, owner: User, o: Observation)
    requires WellFormedGrouping(g, owner)
    ensures WellFormedGrouping(AddToGrouping(g, owner, o), owner)
    ensures forall k :: k in AddToGrouping(g, owner, o).groups <==> k in g.groups || k == ObservationKey(owner, o)
  {
    if ObservationKey(owner, o) in g.groups {
      AddExistingWellFormed(g, owner, o);
    } else {
      AddNewWellFormed(g, owner, o);
    }
  }

  lemma AddExistingWellFormed(g: Grouping, owner: User, o: Observation)
    requires WellFormedGrouping(g, owner)
    requires ObservationKey(owner, o) in g.groups
    ensures WellFormedGrouping(AddToGrouping(g, owner, o), owner)
    ensures AddToGrouping(g, owner, o).groups.Keys == g.groups.Keys
  {
    var key := ObservationKey(owner, o);
    var d := g.groups[key];
    var d' := d.(values := d.values + [o.value], timestamps := d.timestamps + [o.at]);
    var g' := AddToGrouping(g, owner, o);
    assert g' == Grouping(g.keys, g.groups[key := d']);
    GroupsWellFormed(g, g', owner, key);
  }

  lemma AddNewWellFormed(g: Grouping, owner: User, o: Observation)
    requires WellFormedGrouping(g, owner)
    requires ObservationKey(owner, o) !in g.groups
    ensures WellFormedGrouping(AddToGrouping(g, owner, o), owner)
    ensures AddToGrouping(g, owner, o).groups.Keys == g.groups.Keys + {ObservationKey(owner, o)}
  {
    var key := ObservationKey(owner, o);
    var d' := Group(o.signals, o.metric, [o.value], [o.at]);
    var g' := AddToGrouping(g, owner, o);
    assert g' == Grouping(g.keys + [key], g.groups[key := d']);
    assert CreateInsightKey(owner, d'.signals, d'.metric) == key;
    GroupsWellFormed(g, g', owner, key);
    assert key !in g.keys;
    NoDuplicatesSnoc(g.keys, key);
  }

  /** Updating one key with a well-formed group keeps every group well formed. */
  lemma GroupsWellFormed(g: Grouping, g': Grouping, owner: User, key: Id)
    requires WellFormedGrouping(g, owner)
    requires key in g'.groups && g'.groups == g.groups[key := g'.groups[key]]
    requires var d' := g'.groups[key];
      |d'.values| > 0 && |d'.values| == |d'.timestamps| && CreateInsightKey(owner, d'.signals, d'.metric) == key
    ensures forall k :: k in g'.groups ==>
      |g'.groups[k].values| > 0 && |g'.groups[k].values| == |g'.groups[k].timestamps|
      && CreateInsightKey(owner, g'.groups[k].signals, g'.groups[k].metric) == k
  {
  }

  /** The grouping is well formed and has exactly the keys of the observations. */
  lemma {:induction false} GroupingKeys(owner: User, obs: seq<Observation>)
    ensures WellFormedGrouping(GroupObservations(owner, obs), owner)
    ensures forall k :: k in GroupObservations(owner, obs).groups <==> HasKeyIn(owner, obs, k)
  {
    if obs != [] {
      var pre := obs[..|obs| - 1];
      var o := obs[|obs| - 1];
      assert obs == pre + [o];
      GroupingKeys(owner, pre);
      AddToGroupingWellFormed(GroupObservations(owner, pre), owner, o);
      forall k ensures HasKeyIn(owner, obs, k) <==> HasKeyIn(owner, pre, k) || k == ObservationKey(owner, o) {
        if HasKeyIn(owner, obs, k) && k != ObservationKey(owner, o) {
          var x :| x in obs && ObservationKey(owner, x) == k;
          assert x in pre;
        }
        if HasKeyIn(owner, pre, k) {
          var x :| x in pre && ObservationKey(owner, x) == k;
          assert x in obs;
        }
        assert o in obs;
      }
    }
  }

  /** The group under a key holds, in order, the values and times of exactly the
      observations with that key. */
  lemma {:induction false} GroupingValues(owner: User, obs: seq<Observation>)
    ensures forall k :: k in GroupObservations(owner, obs).groups ==>
      && GroupObservations(owner, obs).groups[k].values == Map(Filter(obs, KeyMatches(owner, k)), ValueOf)
      && GroupObservations(owner, obs).groups[k].timestamps == Map(Filter(obs, KeyMatches(owner, k)), TimeOf)
  {
    if obs != [] {
      var pre := obs[..|obs| - 1];
      var o := obs[|obs| - 1];
      assert obs == pre + [o];
      GroupingValues(owner, pre);
      var g := GroupObservations(owner, pre);
      var key := ObservationKey(owner, o);
      forall k | k in GroupObservations(owner, obs).groups
        ensures GroupObservations(owner, obs).groups[k].values == Map(Filter(obs, KeyMatches(owner, k)), ValueOf)
        ensures GroupObservations(owner, obs).groups[k].timestamps == Map(Filter(obs, KeyMatches(owner, k)), TimeOf)
      {
        FilterSnoc(pre, o, KeyMatches(owner, k));
        if k == key {
          MapSnoc(Filter(pre, KeyMatches(owner, k)), o, ValueOf);
          MapSnoc(Filter(pre, KeyMatches(owner, k)), o, TimeOf);
          if key !in g.groups {
            GroupingKeys(owner, pre);
            FilterNone(pre, KeyMatches(owner, k));
          }
        }
      }
    }
  }

  // ---------------------------------------------------------------------------
  // Computing insights (lines 171-192)
  // ---------------------------------------------------------------------------

  function Sum(vs: seq<real>): real {
    if vs == [] then 0.0 else vs[0] + Sum(vs[1..])
  }

  function Average(vs: seq<real>): real
    requires |vs| > 0
  {
    Sum(vs) / (|vs| as real)
  }

  /** `Math.min(1, n / 10)`. */
  function Confidence(n: nat): (c: real)
    requires n > 0
    ensures 0.0 < c <= 1.0
    ensures c == 1.0 <==> n as real >= FullConfidenceCount
  {
    var x := (n as real) / FullConfidenceCount;
    if 1.0 <= x then 1.0 else x
  }

  function ComputeInsight(owner: User, key: Id, g: Group): Insight
    requires |g.values| > 0
  {
    Insight(key, owner, SortStrings(g.signals), g.metric, Average(g.values) - Baseline, Confidence(|g.values|), true)
  }

  function InsightsFor(owner: User, g: Grouping): (r: seq<Insight>)
    requires WellFormedGrouping(g, owner)
    ensures |r| == |g.keys|
  {
    seq(|g.keys|, i requires 0 <= i < |g.keys| => ComputeInsight(owner, g.keys[i], g.groups[g.keys[i]]))
  }

  // ---------------------------------------------------------------------------
  // The insights collection: natural order, lookup by _id, upsert by _id
  // ---------------------------------------------------------------------------

  ghost predicate UniqueInsightIds(s: seq<Insight>) {
    forall i, j :: 0 <= i < j < |s| ==> s[i].id != s[j].id
  }

  /** `findOne({ _id: id })`: the first document with that id. */
  function FindInsight(s: seq<Insight>, id: Id): (r: Option<Insight>)
    ensures r.Some? ==> r.value in s && r.value.id == id
    ensures r.None? <==> forall x :: x in s ==> x.id != id
  {
    if s == [] then None else if s[0].id == id then Some(s[0]) else FindInsight(s[1..], id)
  }

  /** `updateOne({ _id: x.id }, { $set: x }, { upsert: true })` with every field set:
      the first document with that id becomes `x`; without one, `x` is appended. */
  function Upsert(s: seq<Insight>, x: Insight): (r: seq<Insight>)
    ensures |r| == |s| || |r| == |s| + 1
  {
    if s == [] then [x] else if s[0].id == x.id then [x] + s[1..] else [s[0]] + Upsert(s[1..], x)
  }

  lemma UpsertSpec(s: seq<Insight>, x: Insight)
    ensures forall id :: FindInsight(Upsert(s, x), id) == if id == x.id then Some(x) else FindInsight(s, id)
    ensures forall y :: y in Upsert(s, x) ==> y == x || y in s
    ensures UniqueInsightIds(s) ==> UniqueInsightIds(Upsert(s, x))
  {
    UpsertFind(s, x);
    UpsertMembers(s, x);
    if UniqueInsightIds(s) {
      UpsertUnique(s, x);
    }
  }

  lemma {:induction false} UpsertFind(s: seq<Insight>, x: Insight)
    ensures forall id :: FindInsight(Upsert(s, x), id) == if id == x.id then Some(x) else FindInsight(s, id)
  {
    if s != [] && s[0].id != x.id {
      UpsertFind(s[1..], x);
      assert Upsert(s, x) == [s[0]] + Upsert(s[1..], x);
      forall id ensures FindInsight(Upsert(s, x), id) == if id == x.id then Some(x) else FindInsight(s, id) {
        assert ([s[0]] + Upsert(s[1..], x))[1..] == Upsert(s[1..], x);
      }
    } else if s != [] {
      assert Upsert(s, x) == [x] + s[1..];
      forall id ensures FindInsight(Upsert(s, x), id) == if id == x.id then Some(x) else FindInsight(s, id) {
        assert ([x] + s[1..])[1..] == s[1..];
      }
    }
  }

  lemma {:induction false} UpsertMembers(s: seq<Insight>, x: Insight)
    ensures forall y :: y in Upsert(s, x) ==> y == x || y in s
  {
    if s != [] && s[0].id != x.id {
      UpsertMembers(s[1..], x);
      assert Upsert(s, x) == [s[0]] + Upsert(s[1..], x);
      forall y | y in Upsert(s[1..], x) && y != x ensures y in s {
        assert y in s[1..];
      }
    } else if s != [] {
      assert Upsert(s, x) == [x] + s[1..];
      forall y | y in s[1..] ensures y in s { }
    }
  }

  lemma {:induction false} UpsertUnique(s: seq<Insight>, x: Insight)
    requires UniqueInsightIds(s)
    ensures UniqueInsightIds(Upsert(s, x))
  {
    if s != [] && s[0].id != x.id {
      assert UniqueInsightIds(s[1..]) by {
        forall i, j | 0 <= i < j < |s[1..]| ensures s[1..][i].id != s[1..][j].id {
          assert s[1..][i] == s[i + 1] && s[1..][j] == s[j + 1];
        }
      }
      UpsertUnique(s[1..], x);
      UpsertMembers(s[1..], x);
      var t := Upsert(s[1..], x);
      var r := [s[0]] + t;
      assert Upsert(s, x) == r;
      forall i, j | 0 <= i < j < |r| ensures r[i].id != r[j].id {
        if i == 0 {
          assert r[j] in t;
          if r[j] != x {
            assert r[j] in s[1..];
            var m :| 0 <= m < |s[1..]| && s[1..][m] == r[j];
            assert s[m + 1] == r[j];
          }
        } else {
          assert r[i] == t[i - 1] && r[j] == t[j - 1];
        }
      }
    } else if s != [] {
      var r := [x] + s[1..];
      assert Upsert(s, x) == r;
      forall i, j | 0 <= i < j < |r| ensures r[i].id != r[j].id {
        assert r[j] == s[j];
        if i > 0 { assert r[i] == s[i]; }
      }
    }
  }

  /** The upserts of the loop at lines 195-201, one after another. */
  function UpsertAll(s: seq<Insight>, xs: seq<Insight>): seq<Insight> {
    if xs == [] then s else Upsert(UpsertAll(s, xs[..|xs| - 1]), xs[|xs| - 1])
  }

  lemma UpsertAllSpec(s: seq<Insight>, xs: seq<Insight>)
    requires UniqueInsightIds(xs)
    ensures forall id :: FindInsight(UpsertAll(s, xs), id) ==
                         (if FindInsight(xs, id).Some? then FindInsight(xs, id) else FindInsight(s, id))
    ensures UniqueInsightIds(s) ==> UniqueInsightIds(UpsertAll(s, xs))
  {
    UpsertAllFind(s, xs);
    if UniqueInsightIds(s) {
      UpsertAllUnique(s, xs);
    }
  }

  lemma {:induction false} UpsertAllFind(s: seq<Insight>, xs: seq<Insight>)
    requires UniqueInsightIds(xs)
    ensures forall id :: FindInsight(UpsertAll(s, xs), id) ==
                         (if FindInsight(xs, id).Some? then FindInsight(xs, id) else FindInsight(s, id))
  {
    if xs != [] {
      var pre := xs[..|xs| - 1];
      var x := xs[|xs| - 1];
      assert xs == pre + [x];
      assert UniqueInsightIds(pre) by {
        forall i, j | 0 <= i < j < |pre| ensures pre[i].id != pre[j].id { assert pre[i] == xs[i] && pre[j] == xs[j]; }
      }
      UpsertAllFind(s, pre);
      var before := UpsertAll(s, pre);
      assert UpsertAll(s, xs) == Upsert(before, x);
      UpsertFind(before, x);
      forall id ensures FindInsight(UpsertAll(s, xs), id) ==
                        (if FindInsight(xs, id).Some? then FindInsight(xs, id) else FindInsight(s, id)) {
        FindSnoc(pre, x, id);
        assert FindInsight(Upsert(before, x), id) == if id == x.id then Some(x) else FindInsight(before, id);
        assert FindInsight(before, id) ==
               (if FindInsight(pre, id).Some? then FindInsight(pre, id) else FindInsight(s, id));
      }
    }
  }

  lemma {:induction false} UpsertAllUnique(s: seq<Insight>, xs: seq<Insight>)
    requires UniqueInsightIds(s)
    ensures UniqueInsightIds(UpsertAll(s, xs))
  {
    if xs != [] {
      UpsertAllUnique(s, xs[..|xs| - 1]);
      UpsertUnique(UpsertAll(s, xs[..|xs| - 1]), xs[|xs| - 1]);
    }
  }

  lemma {:induction false} FindSnoc(pre: seq<Insight>, x: Insight, id: Id)
    requires UniqueInsightIds(pre + [x])
    ensures FindInsight(pre + [x], id) == if id == x.id then Some(x) else FindInsight(pre, id)
  {
    var xs := pre + [x];
    if pre != [] {
      assert xs[1..] == pre[1..] + [x];
      assert UniqueInsightIds(pre[1..] + [x]) by {
        forall i, j | 0 <= i < j < |xs[1..]| ensures xs[1..][i].id != xs[1..][j].id { assert xs[1..][i] == xs[i + 1]; }
      }
      assert pre[0].id != x.id by { assert xs[0] == pre[0] && xs[|xs| - 1] == x; }
      FindSnoc(pre[1..], x, id);
    }
  }

  /** The computed insights, one per key, are found under exactly their keys. */
  lemma InsightsForLookup(owner: User, g: Grouping)
    requires WellFormedGrouping(g, owner)
    ensures UniqueInsightIds(InsightsFor(owner, g))
    ensures forall id :: FindInsight(InsightsFor(owner, g), id) ==
                         (if id in g.groups then Some(ComputeInsight(owner, id, g.groups[id])) else None)
  {
    var xs := InsightsFor(owner, g);
    assert forall i :: 0 <= i < |xs| ==> xs[i].id == g.keys[i];
    forall id ensures FindInsight(xs, id) == if id in g.groups then Some(ComputeInsight(owner, id, g.groups[id])) else None {
      FindInIndexed(owner, g, id, 0);
    }
  }

  lemma {:induction false} FindInIndexed(owner: User, g: Grouping, id: Id, from: nat)
    requires WellFormedGrouping(g, owner) && from <= |g.keys|
    requires forall i :: 0 <= i < from ==> g.keys[i] != id
    ensures FindInsight(InsightsFor(owner, g)[from..], id) ==
      if id in g.groups then Some(ComputeInsight(owner, id, g.groups[id])) else None
    decreases |g.keys| - from
  {
    var xs := InsightsFor(owner, g);
    if from < |g.keys| {
      assert xs[from..][0] == xs[from] && xs[from..][1..] == xs[from + 1..];
      if g.keys[from] != id {
        FindInIndexed(owner, g, id, from + 1);
      }
    } else {
      assert id !in g.keys;
    }
  }

  /** What a successful `analyze` does to the lookup of any insight id: the keys of the
      window's observations get a freshly computed, active insight with the owner, the
      sorted signals and confidence min(1, n/10) for the n observations with that key;
      every other id keeps what it had. */
  lemma AnalyzeEffect(s: seq<Insight>, owner: User, recent: seq<Observation>, id: Id)
    ensures WellFormedGrouping(GroupObservations(owner, recent), owner)
    ensures var g := GroupObservations(owner, recent);
      var r := FindInsight(UpsertAll(s, InsightsFor(owner, g)), id);
      if HasKeyIn(owner, recent, id) then
        && r.Some? && r.value.id == id && r.value.owner == owner && r.value.active
        && SortedBy(r.value.signals, StrLe)
        && CreateInsightKey(owner, r.value.signals, r.value.metric) == id
        && var matching := Filter(recent, KeyMatches(owner, id));
           && |matching| > 0
           && r.value.effect == Average(Map(matching, ValueOf)) - Baseline
           && r.value.confidence == Confidence(|matching|)
      else r == FindInsight(s, id)
  {
    GroupingKeys(owner, recent);
    GroupingValues(owner, recent);
    var g := GroupObservations(owner, recent);
    InsightsForLookup(owner, g);
    UpsertAllSpec(s, InsightsFor(owner, g));
    if id in g.groups {
      StrLeIsTotalOrder();
      SortBySorted(g.groups[id].signals, StrLe);
      SortStringsPermutationInvariant(SortStrings(g.groups[id].signals), g.groups[id].signals);
    }
  }

  /** Analyze keeps one insight per id in the collection. */
  lemma AnalyzeKeepsIdsUnique(s: seq<Insight>, owner: User, recent: seq<Observation>)
    requires UniqueInsightIds(s)
    ensures WellFormedGrouping(GroupObservations(owner, recent), owner)
    ensures UniqueInsightIds(UpsertAll(s, InsightsFor(owner, GroupObservations(owner, recent))))
  {
    GroupingKeys(owner, recent);
    InsightsForLookup(owner, GroupObservations(owner, recent));
    UpsertAllSpec(s, InsightsFor(owner, GroupObservations(owner, recent)));
  }

  // ---------------------------------------------------------------------------
  // Weekly summary: per-signal average effect of active insights (lines 250-288)
  // ---------------------------------------------------------------------------

  datatype Tally = Tally(totalEffect: real, count: nat)

  datatype SignalTallies = SignalTallies(order: seq<Signal>, tallies: map<Signal, Tally>)

  /** One step of the inner loop at lines 259-266. */
  function TallySignal(t: SignalTallies, signal: Signal, effect: real): SignalTallies {
    if signal in t.tallies then
      SignalTallies(t.order, t.tallies[signal := Tally(t.tallies[signal].totalEffect + effect, t.tallies[signal].count + 1)])
    else
      SignalTallies(t.order + [signal], t.tallies[signal := Tally(effect, 1)])
  }

  function TallySignals(t: SignalTallies, signals: seq<Signal>, effect: real): SignalTallies {
    if signals == [] then t
    else TallySignal(TallySignals(t, signals[..|signals| - 1], effect), signals[|signals| - 1], effect)
  }

  function TallyInsights(ins: seq<Insight>): SignalTallies {
    if ins == [] then SignalTallies([], map[])
    else
      var last := ins[|ins| - 1];
      TallySignals(TallyInsights(ins[..|ins| - 1]), last.signals, last.effect)
  }

  ghost predicate WellFormedTallies(t: SignalTallies) {
    && NoDuplicates(t.order)
    && (forall s :: s in t.order <==> s in t.tallies)
    && (forall s :: s in t.tallies ==> t.tallies[s].count > 0)
  }

  lemma {:induction false} TallySignalsWellFormed(t: SignalTallies, signals: seq<Signal>, effect: real)
    requires WellFormedTallies(t)
    ensures WellFormedTallies(TallySignals(t, signals, effect))
    ensures forall s :: s in TallySignals(t, signals, effect).tallies <==> s in t.tallies || s in signals
  {
    if signals != [] {
      var pre := signals[..|signals| - 1];
      TallySignalsWellFormed(t, pre, effect);
      var u := TallySignals(t, pre, effect);
      var x := signals[|signals| - 1];
      assert signals == pre + [x];
      if x !in u.tallies {
        assert forall i :: 0 <= i < |u.order| ==> u.order[i] in u.tallies;
      }
    }
  }

  /** Every signal of an active insight gets one tally, listed once, in first-seen order. */
  lemma {:induction false} TallyInsightsWellFormed(ins: seq<Insight>)
    ensures WellFormedTallies(TallyInsights(ins))
    ensures forall s :: s in TallyInsights(ins).tallies <==> exists x :: x in ins && s in x.signals
  {
    if ins != [] {
      var pre := ins[..|ins| - 1];
      var last := ins[|ins| - 1];
      assert ins == pre + [last];
      TallyInsightsWellFormed(pre);
      TallySignalsWellFormed(TallyInsights(pre), last.signals, last.effect);
      forall s | exists x :: x in ins && s in x.signals ensures s in TallyInsights(ins).tallies {
        var x :| x in ins && s in x.signals;
        if x != last { assert x in pre; }
      }
    }
  }

  datatype SignalEffect = SignalEffect(signal: Signal, avgEffect: real)

  function AverageEffect(t: Tally): real
    requires t.count > 0
  {
    t.totalEffect / (t.count as real)
  }

  /** `b.avgEffect - a.avgEffect <= 0`: the comparator of line 274. */
  predicate EffectDescending(a: SignalEffect, b: SignalEffect) { a.avgEffect >= b.avgEffect }

  /** `a.avgEffect - b.avgEffect <= 0`: the comparator of line 286. */
  predicate EffectAscending(a: SignalEffect, b: SignalEffect) { a.avgEffect <= b.avgEffect }

  function SignalEffects(t: SignalTallies): (r: seq<SignalEffect>)
    requires WellFormedTallies(t)
    ensures |r| == |t.order|
  {
    seq(|t.order|, i requires 0 <= i < |t.order| =>
      SignalEffect(t.order[i], AverageEffect(t.tallies[t.order[i]])))
  }

  /** `sortedSignalsByEffect`. */
  function RankSignals(t: SignalTallies): seq<SignalEffect>
    requires WellFormedTallies(t)
  {
    SortBy(SignalEffects(t), EffectDescending)
  }

  function IsHelpful(e: SignalEffect): bool { e.avgEffect > Epsilon }

  function IsHarmful(e: SignalEffect): bool { e.avgEffect < -Epsilon }

  function SignalOf(e: SignalEffect): Signal { e.signal }

  function HelpfulRanked(t: SignalTallies): seq<SignalEffect>
    requires WellFormedTallies(t)
  {
    Filter(RankSignals(t), IsHelpful)
  }

  function HarmfulRanked(t: SignalTallies): seq<SignalEffect>
    requires WellFormedTallies(t)
  {
    SortBy(Filter(RankSignals(t), IsHarmful), EffectAscending)
  }

  function TopHelpful(t: SignalTallies): seq<Signal>
    requires WellFormedTallies(t)
  {
    Map(Take(HelpfulRanked(t), TopNSignals), SignalOf)
  }

  function TopHarmful(t: SignalTallies): seq<Signal>
    requires WellFormedTallies(t)
  {
    Map(Take(HarmfulRanked(t), TopNSignals), SignalOf)
  }

  lemma EffectOrdersArePreorders()
    ensures TotalPreorder(EffectDescending) && TotalPreorder(EffectAscending)
  {
  }

  /** Every ranked entry carries a tallied signal with its own average; no signal twice. */
  lemma {:induction false} RankedEntries(t: SignalTallies)
    requires WellFormedTallies(t)
    ensures forall e :: e in RankSignals(t) ==> e.signal in t.tallies && e.avgEffect == AverageEffect(t.tallies[e.signal])
    ensures forall s :: s in t.tallies ==> SignalEffect(s, AverageEffect(t.tallies[s])) in RankSignals(t)
  {
    var es := SignalEffects(t);
    forall e | e in RankSignals(t) ensures e.signal in t.tallies && e.avgEffect == AverageEffect(t.tallies[e.signal]) {
      assert e in multiset(RankSignals(t));
      assert e in es;
    }
    forall s | s in t.tallies ensures SignalEffect(s, AverageEffect(t.tallies[s])) in RankSignals(t) {
      assert s in t.order;
      var i :| 0 <= i < |t.order| && t.order[i] == s;
      assert es[i] in multiset(es);
    }
  }

  /** A tallied signal with its average effect. */
  function Entry(t: SignalTallies, s: Signal): SignalEffect
    requires s in t.tallies && t.tallies[s].count > 0
  {
    SignalEffect(s, AverageEffect(t.tallies[s]))
  }

  /** The first N signals of a list ranked by `le` that holds exactly the tallied
      signals satisfying `p`: at most N of them, all satisfying `p`, in ranked order, and
      none left out that ranks before one taken. */
  lemma TopOfRanked(t: SignalTallies, ranked: seq<SignalEffect>, le: (SignalEffect, SignalEffect) -> bool, p: SignalEffect -> bool)
    requires WellFormedTallies(t)
    requires SortedBy(ranked, le)
    requires forall e :: e in ranked ==> e.signal in t.tallies && e == Entry(t, e.signal) && p(e)
    requires forall s :: s in t.tallies && p(Entry(t, s)) ==> Entry(t, s) in ranked
    ensures var top := Map(Take(ranked, TopNSignals), SignalOf);
      && |top| <= TopNSignals
      && (forall s :: s in top ==> s in t.tallies && p(Entry(t, s)))
      && (forall i, j :: 0 <= i < j < |top| ==> le(Entry(t, top[i]), Entry(t, top[j])))
      && (forall s, h :: s in t.tallies && p(Entry(t, s)) && s !in top && h in top ==> le(Entry(t, h), Entry(t, s)))
  {
    var taken := Take(ranked, TopNSignals);
    var top := Map(taken, SignalOf);
    assert forall i :: 0 <= i < |taken| ==> taken[i] == ranked[i];
    forall x | x in taken ensures x.signal in top {
      var i :| 0 <= i < |taken| && taken[i] == x;
      assert top[i] == x.signal;
    }
    forall s | s in top ensures s in t.tallies && p(Entry(t, s)) {
      var i :| 0 <= i < |top| && top[i] == s;
      assert taken[i] in ranked;
    }
    forall i, j | 0 <= i < j < |top| ensures le(Entry(t, top[i]), Entry(t, top[j])) {
      assert taken[i] in ranked && taken[j] in ranked;
    }
    forall s, h | s in t.tallies && p(Entry(t, s)) && s !in top && h in top ensures le(Entry(t, h), Entry(t, s)) {
      var e := Entry(t, s);
      assert e !in taken;
      var m :| 0 <= m < |top| && top[m] == h;
      assert taken[m] in ranked;
      TakenBeforeRest(ranked, le, |taken|, m, e);
      assert ranked[m] == Entry(t, h);
    }
  }

  /** In a sorted list, an entry among the first `n` is `le` to any entry not among them. */
  lemma TakenBeforeRest(ranked: seq<SignalEffect>, le: (SignalEffect, SignalEffect) -> bool, n: nat, m: nat, e: SignalEffect)
    requires SortedBy(ranked, le)
    requires m < n <= |ranked|
    requires e in ranked && e !in ranked[..n]
    ensures le(ranked[m], e)
  {
    var k :| 0 <= k < |ranked| && ranked[k] == e;
    assert k >= n by {
      forall j | 0 <= j < n ensures ranked[j] != e { assert ranked[..n][j] == ranked[j]; }
    }
  }

  /** The top-N selection of lines 279-288: at most three signals each; the helpful ones
      have a positive average effect, ranked from the largest, and no left-out positive
      signal beats one of them; the harmful ones have a negative average effect, ranked
      from the smallest, and no left-out negative signal is lower; no signal is both. */
  lemma TopSignalsSpec(t: SignalTallies)
    requires WellFormedTallies(t)
    ensures |TopHelpful(t)| <= TopNSignals && |TopHarmful(t)| <= TopNSignals
    ensures forall s :: s in TopHelpful(t) ==> s in t.tallies && AverageEffect(t.tallies[s]) > Epsilon
    ensures forall s :: s in TopHarmful(t) ==> s in t.tallies && AverageEffect(t.tallies[s]) < -Epsilon
    ensures forall s :: !(s in TopHelpful(t) && s in TopHarmful(t))
    ensures forall i, j :: 0 <= i < j < |TopHelpful(t)| ==>
                           AverageEffect(t.tallies[TopHelpful(t)[i]]) >= AverageEffect(t.tallies[TopHelpful(t)[j]])
    ensures forall i, j :: 0 <= i < j < |TopHarmful(t)| ==>
                           AverageEffect(t.tallies[TopHarmful(t)[i]]) <= AverageEffect(t.tallies[TopHarmful(t)[j]])
    ensures forall s, h :: s in t.tallies && AverageEffect(t.tallies[s]) > Epsilon && s !in TopHelpful(t) && h in TopHelpful(t) ==>
                           AverageEffect(t.tallies[h]) >= AverageEffect(t.tallies[s])
    ensures forall s, h :: s in t.tallies && AverageEffect(t.tallies[s]) < -Epsilon && s !in TopHarmful(t) && h in TopHarmful(t) ==>
                           AverageEffect(t.tallies[h]) <= AverageEffect(t.tallies[s])
  {
    TopHelpfulSpec(t);
    TopHarmfulSpec(t);
  }

  lemma TopHelpfulSpec(t: SignalTallies)
    requires WellFormedTallies(t)
    ensures |TopHelpful(t)| <= TopNSignals
    ensures forall s :: s in TopHelpful(t) ==> s in t.tallies && AverageEffect(t.tallies[s]) > Epsilon
    ensures forall i, j :: 0 <= i < j < |TopHelpful(t)| ==>
                           AverageEffect(t.tallies[TopHelpful(t)[i]]) >= AverageEffect(t.tallies[TopHelpful(t)[j]])
    ensures forall s, h :: s in t.tallies && AverageEffect(t.tallies[s]) > Epsilon && s !in TopHelpful(t) && h in TopHelpful(t) ==>
                           AverageEffect(t.tallies[h]) >= AverageEffect(t.tallies[s])
  {
    HelpfulRankedSpec(t);
    TopOfRanked(t, HelpfulRanked(t), EffectDescending, IsHelpful);
  }

  lemma TopHarmfulSpec(t: SignalTallies)
    requires WellFormedTallies(t)
    ensures |TopHarmful(t)| <= TopNSignals
    ensures forall s :: s in TopHarmful(t) ==> s in t.tallies && AverageEffect(t.tallies[s]) < -Epsilon
    ensures forall i, j :: 0 <= i < j < |TopHarmful(t)| ==>
                           AverageEffect(t.tallies[TopHarmful(t)[i]]) <= AverageEffect(t.tallies[TopHarmful(t)[j]])
    ensures forall s, h :: s in t.tallies && AverageEffect(t.tallies[s]) < -Epsilon && s !in TopHarmful(t) && h in TopHarmful(t) ==>
                           AverageEffect(t.tallies[h]) <= AverageEffect(t.tallies[s])
  {
    HarmfulRankedSpec(t);
    TopOfRanked(t, HarmfulRanked(t), EffectAscending, IsHarmful);
  }

  lemma HelpfulRankedSpec(t: SignalTallies)
    requires WellFormedTallies(t)
    ensures SortedBy(HelpfulRanked(t), EffectDescending)
    ensures forall e :: e in HelpfulRanked(t) ==> e.signal in t.tallies && e == Entry(t, e.signal) && IsHelpful(e)
    ensures forall s :: s in t.tallies && IsHelpful(Entry(t, s)) ==> Entry(t, s) in HelpfulRanked(t)
  {
    RankedEntries(t);
    EffectOrdersArePreorders();
    SortBySorted(SignalEffects(t), EffectDescending);
    FilterSorted(RankSignals(t), IsHelpful, EffectDescending);
  }

  lemma HarmfulRankedSpec(t: SignalTallies)
    requires WellFormedTallies(t)
    ensures SortedBy(HarmfulRanked(t), EffectAscending)
    ensures forall e :: e in HarmfulRanked(t) ==> e.signal in t.tallies && e == Entry(t, e.signal) && IsHarmful(e)
    ensures forall s :: s in t.tallies && IsHarmful(Entry(t, s)) ==> Entry(t, s) in HarmfulRanked(t)
  {
    RankedEntries(t);
    EffectOrdersArePreorders();
    var harmfulF := Filter(RankSignals(t), IsHarmful);
    var harmful := HarmfulRanked(t);
    SortBySorted(harmfulF, EffectAscending);
    forall e | e in harmful ensures e in harmfulF { assert e in multiset(harmful); }
    forall e | e in harmfulF ensures e in harmful { assert e in multiset(harmfulF); }
  }

  // ---------------------------------------------------------------------------
  // Weekly summary: per-metric average value (lines 292-306)
  // ---------------------------------------------------------------------------

  datatype MetricValues = MetricValues(order: seq<Metric>, values: map<Metric, seq<real>>)

  function AddMetricValue(m: MetricValues, o: Observation): MetricValues {
    if o.metric in m.values then MetricValues(m.order, m.values[o.metric := m.values[o.metric] + [o.value]])
    else MetricValues(m.order + [o.metric], m.values[o.metric := [o.value]])
  }

  function CollectMetricValues(obs: seq<Observation>): MetricValues {
    if obs == [] then MetricValues([], map[])
    else AddMetricValue(CollectMetricValues(obs[..|obs| - 1]), obs[|obs| - 1])
  }

  ghost predicate WellFormedMetricValues(m: MetricValues) {
    && NoDuplicates(m.order)
    && (forall k :: k in m.order <==> k in m.values)
    && (forall k :: k in m.values ==> |m.values[k]| > 0)
  }

  function MetricOf(o: Observation): Metric { o.metric }

  function HasMetric(k: Metric): Observation -> bool { (o: Observation) => o.metric == k }

  ghost predicate HasMetricIn(obs: seq<Observation>, k: Metric) {
    exists o :: o in obs && o.metric == k
  }

  /** Each observed metric, and no other, is listed once, with at least one value. */
  lemma {:induction false} MetricValuesKeys(obs: seq<Observation>)
    ensures WellFormedMetricValues(CollectMetricValues(obs))
    ensures forall k :: k in CollectMetricValues(obs).values <==> HasMetricIn(obs, k)
  {
    if obs != [] {
      var pre := obs[..|obs| - 1];
      var o := obs[|obs| - 1];
      assert obs == pre + [o];
      MetricValuesKeys(pre);
      var m := CollectMetricValues(pre);
      var m' := CollectMetricValues(obs);
      forall k | k in m'.values ensures HasMetricIn(obs, k) {
        if k != o.metric {
          var x :| x in pre && x.metric == k;
          assert x in obs;
        } else {
          assert o in obs;
        }
      }
      forall k | HasMetricIn(obs, k) ensures k in m'.values {
        var x :| x in obs && x.metric == k;
        if x != o { assert x in pre; }
      }
      if o.metric !in m.values {
        assert forall i :: 0 <= i < |m.order| ==> m.order[i] in m.values;
      }
    }
  }

  /** Each listed metric holds, in order, the values of exactly the observations of it. */
  lemma {:induction false} MetricValuesContents(obs: seq<Observation>)
    ensures forall k :: k in CollectMetricValues(obs).values ==>
      CollectMetricValues(obs).values[k] == Map(Filter(obs, HasMetric(k)), ValueOf)
  {
    if obs != [] {
      var pre := obs[..|obs| - 1];
      var o := obs[|obs| - 1];
      assert obs == pre + [o];
      MetricValuesContents(pre);
      var m := CollectMetricValues(pre);
      forall k | k in CollectMetricValues(obs).values
        ensures CollectMetricValues(obs).values[k] == Map(Filter(obs, HasMetric(k)), ValueOf)
      {
        FilterSnoc(pre, o, HasMetric(k));
        if k == o.metric {
          MapSnoc(Filter(pre, HasMetric(k)), o, ValueOf);
          if k !in m.values {
            MetricValuesKeys(pre);
            FilterNone(pre, HasMetric(k));
          }
        }
      }
    }
  }

  /** The `metricTrends` of lines 300-306: one entry per metric, in first-seen order, with
      the mean of its values. */
  function MetricTrends(m: MetricValues): (r: seq<MetricTrend>)
    requires WellFormedMetricValues(m)
    ensures |r| == |m.order|
    ensures forall i :: 0 <= i < |r| ==> r[i].metric == m.order[i] && r[i].value == Average(m.values[m.order[i]])
  {
    seq(|m.order|, i requires 0 <= i < |m.order| => MetricTrend(m.order[i], Average(m.values[m.order[i]])))
  }

  /** The trends of a period: each metric observed in it appears exactly once, and its
      value is the mean of the values of exactly the period's observations of it. */
  lemma PeriodTrends(obs: seq<Observation>)
    ensures WellFormedMetricValues(CollectMetricValues(obs))
    ensures var r := MetricTrends(CollectMetricValues(obs));
      && (forall k :: (exists i :: 0 <= i < |r| && r[i].metric == k) <==> HasMetricIn(obs, k))
      && (forall i, j :: 0 <= i < j < |r| ==> r[i].metric != r[j].metric)
      && (forall i :: 0 <= i < |r| ==>
            var vs := Map(Filter(obs, HasMetric(r[i].metric)), ValueOf);
            |vs| > 0 && r[i].value == Average(vs))
  {
    MetricValuesKeys(obs);
    MetricValuesContents(obs);
    var m := CollectMetricValues(obs);
    var r := MetricTrends(m);
    forall k | HasMetricIn(obs, k) ensures exists i :: 0 <= i < |r| && r[i].metric == k {
      var i :| 0 <= i < |m.order| && m.order[i] == k;
      assert r[i].metric == k;
    }
  }

  // ---------------------------------------------------------------------------
  // The concept state and its actions
  // ---------------------------------------------------------------------------

  function FindReport(s: seq<Report>, id: Id): (r: Option<Report>)
    ensures r.Some? ==> r.value in s && r.value.id == id
    ensures r.None? <==> forall x :: x in s ==> x.id != id
  {
    if s == [] then None else if s[0].id == id then Some(s[0]) else FindReport(s[1..], id)
  }

  /** The position of `findOne({ _id: id, owner })`. */
  function IndexOfOwnedInsight(s: seq<Insight>, id: Id, owner: User): (r: Option<nat>)
    ensures r.Some? ==>
      && r.value < |s| && s[r.value].id == id && s[r.value].owner == owner
      && (forall j :: 0 <= j < r.value ==> !(s[j].id == id && s[j].owner == owner))
    ensures r.None? ==> forall x :: x in s ==> !(x.id == id && x.owner == owner)
  {
    if s == [] then None
    else if s[0].id == id && s[0].owner == owner then Some(0)
    else match IndexOfOwnedInsight(s[1..], id, owner)
      case None => None
      case Some(k) => Some(k + 1)
  }

  /** Appending a report under an id no stored report has keeps report ids unique. */
  lemma AppendFreshReport(reports: seq<Report>, report: Report)
    requires forall i, j :: 0 <= i < j < |reports| ==> reports[i].id != reports[j].id
    requires forall x :: x in reports ==> x.id != report.id
    ensures forall i, j :: 0 <= i < j < |reports + [report]| ==> (reports + [report])[i].id != (reports + [report])[j].id
  {
    var rs := reports + [report];
    forall i, j | 0 <= i < j < |rs| ensures rs[i].id != rs[j].id {
      if j == |reports| {
        assert rs[i] == reports[i] && reports[i] in reports;
      } else {
        assert rs[i] == reports[i] && rs[j] == reports[j];
      }
    }
  }

  class InsightMiningConcept {
    var observations: seq<Observation>
    var insights: seq<Insight>
    var reports: seq<Report>

    ghost predicate Valid()
      reads this
    {
      && (forall i, j :: 0 <= i < j < |observations| ==> observations[i].id != observations[j].id)
      && UniqueInsightIds(insights)
      && (forall i, j :: 0 <= i < j < |reports| ==> reports[i].id != reports[j].id)
    }

    constructor ()
      ensures Valid() && observations == [] && insights == [] && reports == []
    {
      observations, insights, reports := [], [], [];
    }

    /** Action `ingest`: appends one observation under a fresh id. */
    method Ingest(owner: User, at: int, signals: seq<Signal>, metric: Metric, value: real, freshId: Id)
      requires Valid()
      requires forall o :: o in observations ==> o.id != freshId
      modifies this
      ensures Valid()
      ensures observations == old(observations) + [Observation(freshId, owner, at, signals, metric, value)]
      ensures insights == old(insights) && reports == old(reports)
    {
      observations := observations + [Observation(freshId, owner, at, signals, metric, value)];
    }

    /** Action `analyze`, with the clock reading `now` (ms) passed in. */
    method Analyze(owner: User, window: real, now: int) returns (r: Result<()>)
      requires Valid()
      modifies this
      ensures Valid()
      ensures observations == old(observations) && reports == old(reports)
      ensures var recent := InWindow(old(observations), owner, TruncateMs(now as real - window * MsPerHour as real), now);
        if recent == [] then r == Err(NoWindowObservations) && insights == old(insights)
        else
          && r == Ok(())
          && WellFormedGrouping(GroupObservations(owner, recent), owner)
          && insights == UpsertAll(old(insights), InsightsFor(owner, GroupObservations(owner, recent)))
    {
      var windowStart := TruncateMs(now as real - window * MsPerHour as real);
      var recent := InWindow(observations, owner, windowStart, now);
      if |recent| == 0 {
        return Err(NoWindowObservations);
      }
      var grouping := GroupByInsightKey(owner, recent);
      AnalyzeKeepsIdsUnique(insights, owner, recent);
      var toUpsert := BuildInsights(owner, grouping);
      insights := UpsertEach(insights, toUpsert);
      r := Ok(());
    }

    /** Action `summarize`, with the clock reading `now` (ms) and the new report's id passed in. */
    method Summarize(owner: User, period: string, now: int, freshId: Id) returns (r: Result<Id>)
      requires Valid()
      requires forall x :: x in reports ==> x.id != freshId
      modifies this
      ensures Valid()
      ensures observations == old(observations) && insights == old(insights)
      ensures period != "week" ==> r == Err(UnsupportedPeriod(period)) && reports == old(reports)
      ensures period == "week" && InWindow(old(observations), owner, now - WeekMs, now) == [] ==>
        r == Err(NoPeriodObservations) && reports == old(reports)
      ensures period == "week" && InWindow(old(observations), owner, now - WeekMs, now) != [] ==>
        && var inPeriod := InWindow(old(observations), owner, now - WeekMs, now);
        && var active := ActiveOf(old(insights), owner);
        && r == Ok(freshId)
        && WellFormedTallies(TallyInsights(active))
        && WellFormedMetricValues(CollectMetricValues(inPeriod))
        && reports == old(reports) + [Report(freshId, owner, period, now,
             TopHelpful(TallyInsights(active)), TopHarmful(TallyInsights(active)),
             MetricTrends(CollectMetricValues(inPeriod)))]
    {
      if period != "week" {
        return Err(UnsupportedPeriod(period));
      }
      var periodStart := now - WeekMs;
      var inPeriod := InWindow(observations, owner, periodStart, now);
      if |inPeriod| == 0 {
        return Err(NoPeriodObservations);
      }
      var active := ActiveOf(insights, owner);
      var tallies := AccumulateSignalEffects(active);
      TallyInsightsWellFormed(active);
      var topHelpful := TopHelpful(tallies);
      var topHarmful := TopHarmful(tallies);
      var metricValues := GroupMetricValues(inPeriod);
      MetricValuesKeys(inPeriod);
      var report := Report(freshId, owner, period, now, topHelpful, topHarmful, MetricTrends(metricValues));
      AppendFreshReport(reports, report);
      reports := reports + [report];
      r := Ok(freshId);
    }

    /** Action `deactivate`. */
    method Deactivate(requester: User, owner: User, signals: seq<Signal>, metric: Metric) returns (r: Result<()>)
      requires Valid()
      modifies this
      ensures Valid()
      ensures observations == old(observations) && reports == old(reports)
      ensures requester != owner ==> r == Err(NotAuthorizedToDeactivate) && insights == old(insights)
      ensures requester == owner ==>
        var idx := IndexOfOwnedInsight(old(insights), CreateInsightKey(owner, signals, metric), owner);
        if idx.None? then r == Err(NoInsightToDeactivate) && insights == old(insights)
        else if !old(insights)[idx.value].active then r == Err(AlreadyInactive) && insights == old(insights)
        else r == Ok(()) && insights == old(insights)[idx.value := old(insights)[idx.value].(active := false)]
    {
      if requester != owner {
        return Err(NotAuthorizedToDeactivate);
      }
      var insightId := CreateInsightKey(owner, signals, metric);
      var idx := IndexOfOwnedInsight(insights, insightId, owner);
      if idx.None? {
        return Err(NoInsightToDeactivate);
      }
      if !insights[idx.value].active {
        return Err(AlreadyInactive);
      }
      insights := insights[idx.value := insights[idx.value].(active := false)];
      r := Ok(());
    }

    /** Query `_getObservationsForUser`. */
    function GetObservationsForUser(owner: User): (r: seq<Observation>)
      reads this
      ensures forall o :: o in r <==> o in observations && o.owner == owner
    {
      Filter(observations, (o: Observation) => o.owner == owner)
    }

    /** Query `_getInsightsForUser`: active and inactive alike. */
    function GetInsightsForUser(owner: User): (r: seq<Insight>)
      reads this
      ensures forall x :: x in r <==> x in insights && x.owner == owner
    {
      Filter(insights, (x: Insight) => x.owner == owner)
    }

    /** Query `_getReport`. */
    function GetReport(reportId: Id): (r: Option<Report>)
      reads this
      ensures r.Some? ==> r.value in reports && r.value.id == reportId
      ensures r.None? <==> forall x :: x in reports ==> x.id != reportId
    {
      FindReport(reports, reportId)
    }
  }

  // ---------------------------------------------------------------------------
  // The loops of analyze and summarize
  // ---------------------------------------------------------------------------

  /** The grouping loop of lines 153-166. */
  method GroupByInsightKey(owner: User, recent: seq<Observation>) returns (g: Grouping)
    ensures g == GroupObservations(owner, recent)
  {
    g := Grouping([], map[]);
    for i := 0 to |recent|
      invariant g == GroupObservations(owner, recent[..i])
    {
      GroupObservationsPrefix(owner, recent, i);
      g := AddObservation(g, owner, recent[i]);
    }
    assert recent[..|recent|] == recent;
  }

  /** The body of the loop at lines 153-166: a new key first gets an empty group, then the
      observation's value and time are pushed onto its group. */
  method AddObservation(g: Grouping, owner: User, obs: Observation) returns (next: Grouping)
    ensures next == AddToGrouping(g, owner, obs)
  {
    var key := CreateInsightKey(owner, obs.signals, obs.metric);
    next := g;
    if key !in next.groups {
      next := Grouping(next.keys + [key], next.groups[key := Group(obs.signals, obs.metric, [], [])]);
    }
    var data := next.groups[key];
    next := next.(groups := next.groups[key := data.(values := data.values + [obs.value], timestamps := data.timestamps + [obs.at])]);
    GroupLoopStep(g, owner, obs, next);
  }

  /** The loop of lines 171-192 that computes one insight per group, in key order. */
  method BuildInsights(owner: User, g: Grouping) returns (xs: seq<Insight>)
    requires WellFormedGrouping(g, owner)
    ensures xs == InsightsFor(owner, g)
  {
    xs := [];
    for i := 0 to |g.keys|
      invariant xs == InsightsFor(owner, g)[..i]
    {
      var data := g.groups[g.keys[i]];
      var avgValue := Sum(data.values) / (|data.values| as real);
      var numObservations := |data.values|;
      var effect := avgValue - Baseline;
      var confidence := if 1.0 <= (numObservations as real) / FullConfidenceCount then 1.0 else (numObservations as real) / FullConfidenceCount;
      var x := Insight(g.keys[i], owner, SortStrings(data.signals), data.metric, effect, confidence, true);
      assert x == ComputeInsight(owner, g.keys[i], data);
      assert InsightsFor(owner, g)[..i + 1] == InsightsFor(owner, g)[..i] + [x];
      xs := xs + [x];
    }
  }

  /** The upsert loop of lines 195-201. */
  method UpsertEach(s: seq<Insight>, toUpsert: seq<Insight>) returns (updated: seq<Insight>)
    ensures updated == UpsertAll(s, toUpsert)
  {
    updated := s;
    for i := 0 to |toUpsert|
      invariant updated == UpsertAll(s, toUpsert[..i])
    {
      assert toUpsert[..i + 1][..i] == toUpsert[..i];
      updated := Upsert(updated, toUpsert[i]);
    }
    assert toUpsert[..|toUpsert|] == toUpsert;
  }

  /** The nested loop of lines 258-267 that tallies each signal's effects. */
  method AccumulateSignalEffects(active: seq<Insight>) returns (t: SignalTallies)
    ensures t == TallyInsights(active)
  {
    t := SignalTallies([], map[]);
    for i := 0 to |active|
      invariant t == TallyInsights(active[..i])
    {
      TallyInsightsPrefix(active, i);
      var insight := active[i];
      ghost var start := t;
      for j := 0 to |insight.signals|
        invariant t == TallySignals(start, insight.signals[..j], insight.effect)
      {
        TallySignalsPrefix(start, insight.signals, j, insight.effect);
        t := AddSignalEffect(t, insight.signals[j], insight.effect);
      }
      assert insight.signals[..|insight.signals|] == insight.signals;
    }
    assert active[..|active|] == active;
  }

  /** The inner loop body of lines 260-265: a new signal first gets a zero tally, then the
      effect is added and the count increased. */
  method AddSignalEffect(t: SignalTallies, signal: Signal, effect: real) returns (next: SignalTallies)
    ensures next == TallySignal(t, signal, effect)
  {
    next := t;
    if signal !in next.tallies {
      next := SignalTallies(next.order + [signal], next.tallies[signal := Tally(0.0, 0)]);
    }
    var current := next.tallies[signal];
    next := next.(tallies := next.tallies[signal := Tally(current.totalEffect + effect, current.count + 1)]);
    if signal !in t.tallies {
      assert next.tallies == t.tallies[signal := Tally(effect, 1)];
    } else {
      assert next.tallies == t.tallies[signal := Tally(t.tallies[signal].totalEffect + effect, t.tallies[signal].count + 1)];
    }
  }

  lemma TallyInsightsPrefix(ins: seq<Insight>, i: nat)
    requires i < |ins|
    ensures TallyInsights(ins[..i + 1]) == TallySignals(TallyInsights(ins[..i]), ins[i].signals, ins[i].effect)
  {
    assert ins[..i + 1][..i] == ins[..i];
  }

  lemma TallySignalsPrefix(t: SignalTallies, signals: seq<Signal>, j: nat, effect: real)
    requires j < |signals|
    ensures TallySignals(t, signals[..j + 1], effect) == TallySignal(TallySignals(t, signals[..j], effect), signals[j], effect)
  {
    assert signals[..j + 1][..j] == signals[..j];
  }

  /** The loop of lines 293-298 that gathers each metric's values. */
  method GroupMetricValues(inPeriod: seq<Observation>) returns (m: MetricValues)
    ensures m == CollectMetricValues(inPeriod)
  {
    m := MetricValues([], map[]);
    for i := 0 to |inPeriod|
      invariant m == CollectMetricValues(inPeriod[..i])
    {
      CollectMetricValuesPrefix(inPeriod, i);
      m := PushMetricValue(m, inPeriod[i]);
    }
    assert inPeriod[..|inPeriod|] == inPeriod;
  }

  /** The loop body of lines 294-297: a new metric first gets an empty list, then the
      value is pushed onto it. */
  method PushMetricValue(m: MetricValues, obs: Observation) returns (next: MetricValues)
    ensures next == AddMetricValue(m, obs)
  {
    next := m;
    if obs.metric !in next.values {
      next := MetricValues(next.order + [obs.metric], next.values[obs.metric := []]);
    }
    var updated := next.values[obs.metric] + [obs.value];
    next := next.(values := next.values[obs.metric := updated]);
    if obs.metric !in m.values {
      assert updated == [obs.value];
      assert next.values == m.values[obs.metric := [obs.value]];
    }
  }

  lemma CollectMetricValuesPrefix(obs: seq<Observation>, i: nat)
    requires i < |obs|
    ensures CollectMetricValues(obs[..i + 1]) == AddMetricValue(CollectMetricValues(obs[..i]), obs[i])
  {
    assert obs[..i + 1][..i] == obs[..i];
  }
}
