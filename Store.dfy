/** The incident store of Heatmap/backend_api.py and the endpoints that read
    it. Each incident is one JSON file named after its key; the model keeps the
    files as a map from key to record plus the order of the writes, which is
    the order of the files' modification times. */
module Store {
  import opened Wrappers
  import opened Numeric
  import opened Incidents
  import opened Heatmap
  import opened Nearby
  import opened Dataset

  /** The `ThreatIncident` request body. */
  datatype ThreatIncident = ThreatIncident(
    incidentId: string,
    timestamp: string,
    threatLevel: string,
    threatScore: real,
    peopleCount: int,
    weaponDetected: bool,
    weaponTypes: seq<string>,
    behaviorSummary: string,
    isCritical: bool,
    telemetry: Telemetry,
    latitude: Option<real>,
    longitude: Option<real>,
    sourceId: Option<string>,
    locationAccuracyM: Option<real>,
    mode: Option<string>)

  /** The `IncidentResponse` body. */
  datatype IncidentResponse = IncidentResponse(success: bool, incidentId: string, message: string)

  /** An `HTTPException`. */
  datatype HttpError = HttpError(status: int, detail: string)

  /** `incident.dict()`: every field of the body is present. */
  function PayloadRecord(p: ThreatIncident): Record
  {
    Record(Some(p.incidentId), Some(p.timestamp), None, None, Some(p.threatLevel), Some(p.threatScore),
           Some(p.peopleCount), p.weaponDetected, p.weaponTypes, Some(p.behaviorSummary), p.isCritical,
           p.telemetry, p.latitude, p.longitude, p.sourceId, p.mode, p.locationAccuracyM)
  }

  /** The `curated` record `report_threat` stores: `type` and `model_rank` are
      computed from the body, `threat_level` and `threat_score` are dropped, and
      the other fields are copied. */
  function Curate(p: ThreatIncident, sigmoid: real -> real): (c: Record)
    ensures c.incidentType.Some? && c.modelRank.Some?
    ensures 0.0 <= c.modelRank.value <= 1.0
    ensures c.threatLevel.None? && c.threatScore.None?
  {
    var data := PayloadRecord(p);
    var rank := ModelRank(ExtractFeatures(data), sigmoid);
    RoundToUnit(rank, 3);
    data.(incidentType := Some(DeriveIncidentType(data).Tag()),
          modelRank := Some(RoundTo(rank, 3)),
          threatLevel := None,
          threatScore := None)
  }

  /** The file name `save_incident_file` writes to: the record's `incident_id`,
      or `INC_` and a clock reading when the id is missing or empty. */
  function StorageKey(incidentId: Option<string>, nowToken: string): (key: string)
    ensures key != ""
    ensures incidentId.Some? && incidentId.value != "" ==> key == incidentId.value
    ensures incidentId.None? || incidentId.value == "" ==> key == "INC_" + nowToken
  {
    if incidentId.None? || incidentId.value == "" then "INC_" + nowToken else incidentId.value
  }

  predicate Distinct(s: seq<string>)
  {
    forall i, j :: 0 <= i < j < |s| ==> s[i] != s[j]
  }

  /** `s` with every occurrence of `x` removed, the rest in order. */
  function Without(s: seq<string>, x: string): (r: seq<string>)
    ensures forall y :: y in r <==> y in s && y != x
    ensures Distinct(s) ==> Distinct(r)
  {
    if s == [] then []
    else
      var rest := Without(s[1..], x);
      assert Distinct(s) ==> s[0] !in s[1..] && Distinct(s[1..]) by {
        if Distinct(s) {
          forall k | 0 <= k < |s| - 1 ensures s[1..][k] != s[0] {
            assert s[1..][k] == s[k + 1];
          }
        }
      }
      (if s[0] == x then [] else [s[0]]) + rest
  }

  /** Python's `xs[:limit]` on a list of length `n`: the number of elements kept. */
  function SliceLength(n: nat, limit: int): (k: nat)
    ensures k <= n
    ensures limit >= 0 ==> k == if limit < n then limit else n
    ensures limit < 0 ==> k == if n + limit > 0 then n + limit else 0
  {
    if limit >= 0 then (if limit < n then limit else n)
    else if n + limit > 0 then n + limit else 0
  }

  /** `list_incidents`' response body. */
  datatype IncidentList = IncidentList(count: nat, incidents: seq<Record>)

  class IncidentStore {
    /** The pending-incident files, by key. */
    var records: map<string, Record>
    /** The keys, oldest write first. */
    var writeOrder: seq<string>

    /** Every file has one place in the write order, and no key is empty. */
    ghost predicate Valid()
      reads this
    {
      && Distinct(writeOrder)
      && (forall id :: id in records <==> id in writeOrder)
      && "" !in records
    }

    constructor()
      ensures Valid()
      ensures records == map[] && writeOrder == []
    {
      records := map[];
      writeOrder := [];
    }

    /** `get_incident`: the stored record, or 404. */
    function GetIncident(incidentId: string): (r: Result<Record, HttpError>)
      reads this
      ensures r.Ok? <==> incidentId in records
      ensures r.Ok? ==> r.value == records[incidentId]
      ensures r.Err? ==> r.error == HttpError(404, "Incident not found")
    {
      if incidentId in records then Ok(records[incidentId]) else Err(HttpError(404, "Incident not found"))
    }

    /** `_load_incidents(limit)`: the records, most recently written first, cut
        to `limit` with Python's slice rules. */
    function LoadIncidents(limit: int): (items: seq<Record>)
      requires Valid()
      reads this
      ensures |items| == SliceLength(|writeOrder|, limit)
      ensures forall i :: 0 <= i < |items| ==> items[i] == records[writeOrder[|writeOrder| - 1 - i]]
    {
      seq(SliceLength(|writeOrder|, limit),
          i requires 0 <= i < SliceLength(|writeOrder|, limit) && Valid() reads this =>
            records[writeOrder[|writeOrder| - 1 - i]])
    }

    /** `list_incidents(limit)`: the loaded records and their number. */
    function ListIncidents(limit: int): (r: IncidentList)
      requires Valid()
      reads this
      ensures r.count == |r.incidents| == SliceLength(|writeOrder|, limit)
      ensures r.incidents == LoadIncidents(limit)
    {
      var items := LoadIncidents(limit);
      IncidentList(|items|, items)
    }

    /** `save_incident_file(incident)`: the write under `StorageKey` replaces
        any earlier file with that key and makes it the most recent one. A
        failed write (`writeOk` false) returns False and changes nothing. */
    method SaveIncidentFile(incident: Record, nowToken: string, writeOk: bool) returns (saved: bool)
      requires Valid()
      modifies this
      ensures Valid()
      ensures saved == writeOk
      ensures saved ==> records == old(records)[StorageKey(incident.incidentId, nowToken) := incident]
      ensures saved ==> writeOrder == Without(old(writeOrder), StorageKey(incident.incidentId, nowToken))
                                      + [StorageKey(incident.incidentId, nowToken)]
      ensures !saved ==> records == old(records) && writeOrder == old(writeOrder)
    {
      if writeOk {
        var key := StorageKey(incident.incidentId, nowToken);
        records := records[key := incident];
        var rest := Without(writeOrder, key);
        assert key !in rest;
        writeOrder := rest + [key];
      }
      saved := writeOk;
    }

    /** `report_threat(incident)`: the curated record is saved under the body's
        `incident_id` (or a generated key when it is empty); the response echoes
        the body's id. A failed write is a 500 and leaves the store unchanged. */
    method ReportThreat(p: ThreatIncident, sigmoid: real -> real, nowToken: string, writeOk: bool)
      returns (r: Result<IncidentResponse, HttpError>)
      requires Valid()
      modifies this
      ensures Valid()
      ensures r.Ok? <==> writeOk
      ensures r.Ok? ==> r.value == IncidentResponse(true, p.incidentId, "Incident received and saved")
      ensures r.Err? ==> r.error == HttpError(500, "Failed to persist incident")
      ensures r.Err? ==> records == old(records) && writeOrder == old(writeOrder)
      ensures r.Ok? ==> records == old(records)[StorageKey(Some(p.incidentId), nowToken) := Curate(p, sigmoid)]
      ensures r.Ok? ==> writeOrder == Without(old(writeOrder), StorageKey(Some(p.incidentId), nowToken))
                                      + [StorageKey(Some(p.incidentId), nowToken)]
      ensures r.Ok? ==> GetIncident(StorageKey(Some(p.incidentId), nowToken)) == Ok(Curate(p, sigmoid))
      ensures r.Ok? ==> LoadIncidents(1) == [Curate(p, sigmoid)]
      ensures r.Ok? && p.incidentId == "" ==> GetIncident(r.value.incidentId).Err?
    {
      var curated := Curate(p, sigmoid);
      var saved := SaveIncidentFile(curated, nowToken, writeOk);
      if !saved {
        return Err(HttpError(500, "Failed to persist incident"));
      }
      r := Ok(IncidentResponse(true, p.incidentId, "Incident received and saved"));
    }

    /** `heatmap_data(zone_step, limit)` */
    method GetHeatmapData(zoneStep: real, limit: int, sigmoid: real -> real) returns (count: nat, zones: seq<ZoneEntry>)
      requires Valid() && zoneStep != 0.0
      ensures zones == AggregatedZones(LoadIncidents(limit), zoneStep, sigmoid)
      ensures count == |zones|
    {
      var items := LoadIncidents(limit);
      zones := AggregateHeatmap(items, zoneStep, sigmoid);
      count := |zones|;
    }

    /** `heatmap_model(zone_step, limit)`: its own copy of the aggregation
        loop, which updates `rank_sum` and `count` through the dictionary, a
        comprehension over the zones and an in-place sort. It returns the same
        zones as `_aggregate_heatmap`. */
    method GetHeatmapModel(zoneStep: real, limit: int, sigmoid: real -> real) returns (count: nat, zones: seq<ZoneEntry>)
      requires Valid() && zoneStep != 0.0
      ensures zones == AggregatedZones(LoadIncidents(limit), zoneStep, sigmoid)
      ensures count == |zones|
    {
      var items := LoadIncidents(limit);
      zones := ModelZones(items, zoneStep, sigmoid);
      count := |zones|;
    }

    /** `incidents_nearby(lat, lng, radius_km, limit)` */
    method GetIncidentsNearby(lat: real, lng: real, radiusKm: real, limit: int, dist: Distance)
      returns (count: nat, incidents: seq<Near<Record>>)
      requires Valid()
      ensures incidents == NearbyIncidents(LoadIncidents(limit), lat, lng, radiusKm, dist)
      ensures count == |incidents|
    {
      var items := LoadIncidents(limit);
      incidents := IncidentsNearby(items, lat, lng, radiusKm, dist);
      count := |incidents|;
    }

    /** `heatmap_nearby(lat, lng, radius_km, zone_step, limit)` */
    method GetHeatmapNearby(lat: real, lng: real, radiusKm: real, zoneStep: real, limit: int,
                            sigmoid: real -> real, dist: Distance)
      returns (count: nat, zones: seq<Near<ZoneEntry>>)
      requires Valid() && zoneStep != 0.0
      ensures zones == NearbyZones(LoadIncidents(limit), lat, lng, radiusKm, zoneStep, sigmoid, dist)
      ensures count == |zones|
    {
      var items := LoadIncidents(limit);
      zones := HeatmapNearby(items, lat, lng, radiusKm, zoneStep, sigmoid, dist);
      count := |zones|;
    }

    /** `dataset_incidents(limit)` */
    method GetDatasetIncidents(limit: int, sigmoid: real -> real) returns (count: nat, rows: seq<DatasetRow>)
      requires Valid()
      ensures count == |rows| == SliceLength(|writeOrder|, limit)
      ensures forall i :: 0 <= i < |rows| ==> rows[i] == RowOf(LoadIncidents(limit)[i], sigmoid)
    {
      var items := LoadIncidents(limit);
      count, rows := DatasetIncidents(items, sigmoid);
    }
  }

  // ----- What a stored record yields when it is read back -----

  /** Re-deriving the tag from a stored record gives the tag stored with it:
      the classifier reads only fields that are copied unchanged. */
  lemma StoredTypeRederived(p: ThreatIncident, sigmoid: real -> real)
    ensures DeriveIncidentType(Curate(p, sigmoid)).Tag() == Curate(p, sigmoid).incidentType.value
    ensures RowOf(Curate(p, sigmoid), sigmoid).incidentType == Curate(p, sigmoid).incidentType.value
  {
    DeriveIncidentTypeDependsOnSignals(Curate(p, sigmoid), PayloadRecord(p));
  }

  /** The stored record has no `threat_score`, so every rank recomputed from it
      (heat map, proximity, dataset) reads the score as 0. The recomputed rank
      equals the stored one when the reported score was 0, and is never larger
      when the score was non-negative and the logistic is non-decreasing. */
  lemma StoredRankRederived(p: ThreatIncident, sigmoid: real -> real)
    ensures ExtractFeatures(Curate(p, sigmoid))[0] == 0.0
    ensures p.threatScore == 0.0 ==> RowOf(Curate(p, sigmoid), sigmoid).modelRank == Curate(p, sigmoid).modelRank.value
    ensures p.threatScore >= 0.0 && NonDecreasing(sigmoid) ==>
              RowOf(Curate(p, sigmoid), sigmoid).modelRank <= Curate(p, sigmoid).modelRank.value
  {
    var f := ExtractFeatures(Curate(p, sigmoid));
    var g := ExtractFeatures(PayloadRecord(p));
    assert f == g[0 := 0.0];
    if p.threatScore == 0.0 {
      assert f == g;
    }
    if p.threatScore >= 0.0 && NonDecreasing(sigmoid) {
      RankMonotone(f, g, sigmoid);
      RoundToMonotone(ModelRank(f, sigmoid), ModelRank(g, sigmoid), 3);
    }
  }
}
