/** The QuickCheckIns concept: numeric self-reports (check-ins) against metrics that
    are defined once by name. */
module QuickCheckIns {
  import opened Common

  type User = Id
  type MetricId = Id
  type CheckInId = Id

  datatype CheckIn = CheckIn(owner: User, at: int, metric: MetricId, value: real)

  /** An internal metric document: its `_id` and its name. */
  datatype MetricDoc = MetricDoc(id: MetricId, name: string)

  function MetricNotDefined(metric: MetricId): string {
    "Metric with ID '" + metric + "' is not defined."
  }

  function MetricNameTaken(name: string, existing: MetricId): string {
    "Metric with name '" + name + "' already exists with ID '" + existing + "'."
  }

  function CheckInNotFound(checkIn: CheckInId): string {
    "Check-in with ID '" + checkIn + "' not found."
  }

  const NotCheckInOwner := "You are not the owner of this check-in."

  function NewMetricNotDefined(metric: MetricId): string {
    "New metric with ID '" + metric + "' is not defined."
  }

  function MetricNotFound(metric: MetricId): string {
    "Metric with ID '" + metric + "' not found."
  }

  const MetricInUse := "Cannot delete metric: there are existing check-ins referencing this metric."

  /** No two metrics share a name. */
  ghost predicate UniqueNames(metrics: map<MetricId, string>) {
    forall a, b :: a in metrics && b in metrics && metrics[a] == metrics[b] ==> a == b
  }

  /** Every check-in refers to a defined metric. */
  ghost predicate MetricsDefined(checkIns: map<CheckInId, CheckIn>, metrics: map<MetricId, string>) {
    forall c :: c in checkIns ==> checkIns[c].metric in metrics
  }

  /** The fields `edit` writes: each given one replaces the stored one. */
  function ApplyEdit(c: CheckIn, metric: Option<MetricId>, value: Option<real>): (r: CheckIn)
    ensures r.owner == c.owner && r.at == c.at
    ensures r.metric == (if metric.Some? then metric.value else c.metric)
    ensures r.value == (if value.Some? then value.value else c.value)
  {
    var withMetric := if metric.Some? then c.(metric := metric.value) else c;
    if value.Some? then withMetric.(value := value.value) else withMetric
  }

  /** `_listCheckInsByOwner`, over the check-ins as a map from id. */
  function CheckInsOf(checkIns: map<CheckInId, CheckIn>, owner: User): (r: map<CheckInId, CheckIn>)
    ensures forall id :: id in r <==> id in checkIns && checkIns[id].owner == owner
    ensures forall id :: id in r ==> r[id] == checkIns[id]
  {
    map id | id in checkIns && checkIns[id].owner == owner :: checkIns[id]
  }

  /** An owner with no check-ins gets an empty listing. */
  lemma CheckInsOfUnknownOwner(checkIns: map<CheckInId, CheckIn>, owner: User)
    requires forall id :: id in checkIns ==> checkIns[id].owner != owner
    ensures CheckInsOf(checkIns, owner) == map[]
  {
    assert forall id :: id !in CheckInsOf(checkIns, owner);
  }

  class QuickCheckInsConcept {
    var checkIns: map<CheckInId, CheckIn>
    /** Internal metrics: each `_id` with its name. */
    var metrics: map<MetricId, string>

    ghost predicate Valid()
      reads this
    {
      UniqueNames(metrics) && MetricsDefined(checkIns, metrics)
    }

    constructor ()
      ensures Valid() && checkIns == map[] && metrics == map[]
    {
      checkIns, metrics := map[], map[];
    }

    /** Action `record`. */
    method Record(owner: User, at: int, metric: MetricId, value: real, freshId: CheckInId) returns (r: Result<CheckInId>)
      requires Valid()
      requires freshId !in checkIns
      modifies this
      ensures Valid()
      ensures metrics == old(metrics)
      ensures metric !in old(metrics) ==> r == Err(MetricNotDefined(metric)) && checkIns == old(checkIns)
      ensures metric in old(metrics) ==>
        r == Ok(freshId) && checkIns == old(checkIns)[freshId := CheckIn(owner, at, metric, value)]
    {
      if metric !in metrics {
        return Err(MetricNotDefined(metric));
      }
      checkIns := checkIns[freshId := CheckIn(owner, at, metric, value)];
      r := Ok(freshId);
    }

    /** Action `defineMetric`. */
    method DefineMetric(name: string, freshId: MetricId) returns (r: Result<MetricId>)
      requires Valid()
      requires freshId !in metrics
      modifies this
      ensures Valid()
      ensures checkIns == old(checkIns)
      ensures (exists m :: m in old(metrics) && old(metrics)[m] == name) ==>
        metrics == old(metrics)
        && r.Err? && exists m :: m in old(metrics) && old(metrics)[m] == name && r.error == MetricNameTaken(name, m)
      ensures (forall m :: m in old(metrics) ==> old(metrics)[m] != name) ==>
        r == Ok(freshId) && metrics == old(metrics)[freshId := name]
    {
      if existing :| existing in metrics && metrics[existing] == name {
        return Err(MetricNameTaken(name, existing));
      }
      metrics := metrics[freshId := name];
      r := Ok(freshId);
    }

    /** Action `edit`: the checks in order, then the given fields, if any, are written. */
    method Edit(checkIn: CheckInId, owner: User, metric: Option<MetricId>, value: Option<real>) returns (r: Result<()>)
      requires Valid()
      modifies this
      ensures Valid()
      ensures metrics == old(metrics)
      ensures checkIn !in old(checkIns) ==> r == Err(CheckInNotFound(checkIn)) && checkIns == old(checkIns)
      ensures checkIn in old(checkIns) && old(checkIns)[checkIn].owner != owner ==>
        r == Err(NotCheckInOwner) && checkIns == old(checkIns)
      ensures checkIn in old(checkIns) && old(checkIns)[checkIn].owner == owner && metric.Some? && metric.value !in old(metrics) ==>
        r == Err(NewMetricNotDefined(metric.value)) && checkIns == old(checkIns)
      ensures checkIn in old(checkIns) && old(checkIns)[checkIn].owner == owner && (metric.None? || metric.value in old(metrics)) ==>
        r == Ok(()) && checkIns == old(checkIns)[checkIn := ApplyEdit(old(checkIns)[checkIn], metric, value)]
    {
      if checkIn !in checkIns {
        return Err(CheckInNotFound(checkIn));
      }
      var existing := checkIns[checkIn];
      if existing.owner != owner {
        return Err(NotCheckInOwner);
      }
      if metric.Some? && metric.value !in metrics {
        return Err(NewMetricNotDefined(metric.value));
      }
      var updated := existing;
      if metric.Some? {
        updated := updated.(metric := metric.value);
      }
      if value.Some? {
        updated := updated.(value := value.value);
      }
      if metric.None? && value.None? {
        assert checkIns == checkIns[checkIn := existing];
        return Ok(());
      }
      checkIns := checkIns[checkIn := updated];
      r := Ok(());
    }

    /** Action `delete`. */
    method Delete(checkIn: CheckInId, owner: User) returns (r: Result<()>)
      requires Valid()
      modifies this
      ensures Valid()
      ensures metrics == old(metrics)
      ensures checkIn !in old(checkIns) ==> r == Err(CheckInNotFound(checkIn)) && checkIns == old(checkIns)
      ensures checkIn in old(checkIns) && old(checkIns)[checkIn].owner != owner ==>
        r == Err(NotCheckInOwner) && checkIns == old(checkIns)
      ensures checkIn in old(checkIns) && old(checkIns)[checkIn].owner == owner ==>
        r == Ok(()) && checkIns == old(checkIns) - {checkIn}
    {
      if checkIn !in checkIns {
        return Err(CheckInNotFound(checkIn));
      }
      if checkIns[checkIn].owner != owner {
        return Err(NotCheckInOwner);
      }
      checkIns := checkIns - {checkIn};
      r := Ok(());
    }

    /** Action `deleteMetric`: refused while any check-in refers to the metric. */
    method DeleteMetric(metric: MetricId) returns (r: Result<()>)
      requires Valid()
      modifies this
      ensures Valid()
      ensures checkIns == old(checkIns)
      ensures metric !in old(metrics) ==> r == Err(MetricNotFound(metric)) && metrics == old(metrics)
      ensures metric in old(metrics) && (exists c :: c in old(checkIns) && old(checkIns)[c].metric == metric) ==>
        r == Err(MetricInUse) && metrics == old(metrics)
      ensures metric in old(metrics) && (forall c :: c in old(checkIns) ==> old(checkIns)[c].metric != metric) ==>
        r == Ok(()) && metrics == old(metrics) - {metric}
    {
      if metric !in metrics {
        return Err(MetricNotFound(metric));
      }
      if inUse :| inUse in checkIns && checkIns[inUse].metric == metric {
        return Err(MetricInUse);
      }
      metrics := metrics - {metric};
      r := Ok(());
    }

    /** Query `_getCheckIn`. */
    function GetCheckIn(checkIn: CheckInId): (r: Option<CheckIn>)
      reads this
      ensures r.Some? <==> checkIn in checkIns
      ensures r.Some? ==> r.value == checkIns[checkIn]
    {
      if checkIn in checkIns then Some(checkIns[checkIn]) else None
    }

    /** Query `_getMetricsByName`: the metric with that name, if one is defined. */
    method GetMetricsByName(name: string) returns (r: Option<MetricDoc>)
      requires Valid()
      ensures r.None? <==> forall m :: m in metrics ==> metrics[m] != name
      ensures r.Some? ==> r.value.name == name && r.value.id in metrics && metrics[r.value.id] == name
      ensures r.Some? ==> forall m :: m in metrics && metrics[m] == name ==> m == r.value.id
    {
      if m :| m in metrics && metrics[m] == name {
        return Some(MetricDoc(m, name));
      }
      return None;
    }

    /** Query `_listCheckInsByOwner`. */
    function ListCheckInsByOwner(owner: User): (r: map<CheckInId, CheckIn>)
      reads this
      ensures forall id :: id in r <==> id in checkIns && checkIns[id].owner == owner
      ensures forall id :: id in r ==> r[id] == checkIns[id]
    {
      CheckInsOf(checkIns, owner)
    }
  }
}
