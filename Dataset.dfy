/** `dataset_incidents` of Heatmap/backend_api.py: one training row per loaded
    incident, with the tag and the rank recomputed from the record. */
module Dataset {
  import opened Wrappers
  import opened Numeric
  import opened Incidents

  /** `{"incident_id", "timestamp", "type", "model_rank", "latitude", "longitude", "source_id"}` */
  datatype DatasetRow = DatasetRow(
    incidentId: Option<string>,
    timestamp: Option<string>,
    incidentType: string,
    modelRank: real,
    latitude: Option<real>,
    longitude: Option<real>,
    sourceId: Option<string>)

  /** The row for one incident: identity and location copied, the tag derived by
      the classifier, and the rank rounded to 3 decimals, which stays in [0, 1]. */
  function RowOf(it: Record, sigmoid: real -> real): (row: DatasetRow)
    ensures 0.0 <= row.modelRank <= 1.0
    ensures exists t: IncidentType :: row.incidentType == t.Tag()
  {
    var rank := ModelRank(ExtractFeatures(it), sigmoid);
    RoundToUnit(rank, 3);
    DatasetRow(it.incidentId, it.timestamp, DeriveIncidentType(it).Tag(), RoundTo(rank, 3),
               it.latitude, it.longitude, it.sourceId)
  }

  /** `dataset_incidents` over the loaded incidents `items`: the rows, in load order. */
  method DatasetIncidents(items: seq<Record>, sigmoid: real -> real) returns (count: nat, rows: seq<DatasetRow>)
    ensures count == |rows| == |items|
    ensures forall i :: 0 <= i < |items| ==> rows[i] == RowOf(items[i], sigmoid)
  {
    rows := [];
    for i := 0 to |items|
      invariant |rows| == i
      invariant forall k :: 0 <= k < i ==> rows[k] == RowOf(items[k], sigmoid)
    {
      var it := items[i];
      var rank := ModelRank(ExtractFeatures(it), sigmoid);
      var itype := DeriveIncidentType(it);
      rows := rows + [DatasetRow(it.incidentId, it.timestamp, itype.Tag(), RoundTo(rank, 3),
                                 it.latitude, it.longitude, it.sourceId)];
    }
    count := |rows|;
  }
}
