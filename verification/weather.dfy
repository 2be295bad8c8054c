/** The weather payload the app receives from the NASA POWER daily-point
    endpoint once `properties.parameter` has been extracted: an ordered
    mapping from parameter code to that parameter's daily readings, in
    chronological order, together with the fixed catalogue of display
    labels. */
module Weather {
  import opened Wrappers

  /** One parameter of the payload. The provider keys every reading by its
      date; the app only ever uses the readings in their stored order, so
      the dates are dropped and the order is kept. */
  datatype Entry = Entry(code: string, readings: seq<real>)

  predicate DistinctCodes(entries: seq<Entry>) {
    forall i, j :: 0 <= i < j < |entries| ==> entries[i].code != entries[j].code
  }

  /** The app holds the payload as a Python dict (the result of
      `response.json()`), whose keys are distinct; the sequence order is the
      dict's insertion order. */
  type Payload = entries: seq<Entry> | DistinctCodes(entries)

  /** The missing-value marker the provider writes for a day without data. */
  const Sentinel: real := -999.0

  const Precipitation: string := "PRECTOTCORR"
  const UVIndex: string := "ALLSKY_SFC_UV_INDEX"
  const WindSpeed: string := "WS10M"

  /** The thirteen codes the app requests, in request order. */
  const RequestedParameters: seq<string> := [
    "PRECTOTCORR", "GWETROOT", "GWETPROF", "GWETTOP", "EVPTRNS", "T2M", "WS10M",
    "WD10M", "ALLSKY_SFC_UV_INDEX", "ALLSKY_SRF_ALB", "RH2M", "ALLSKY_SFC_SW_DWN",
    "ALLSKY_KT"
  ]

  /** Display label of every catalogued code (Portuguese, as shown to the farmer). */
  const Catalog: map<string, string> := map[
    "PRECTOTCORR" := "Precipita\U{00E7}\U{00E3}o Corrigida (mm/hora)",
    "GWETROOT" := "Umidade na Camada Superior das Ra\U{00ED}zes",
    "GWETPROF" := "Umidade no Perfil do Solo",
    "GWETTOP" := "Umidade na Superf\U{00ED}cie do Solo",
    "EVPTRNS" := "Evapotranspira\U{00E7}\U{00E3}o (mm/hora)",
    "T2M" := "Temperatura a 2m (\U{00B0}C)",
    "WS10M" := "Velocidade do Vento a 10m (m/s)",
    "WD10M" := "Dire\U{00E7}\U{00E3}o do Vento a 10m (graus)",
    "ALLSKY_SFC_UV_INDEX" := "\U{00CD}ndice UV na Superf\U{00ED}cie",
    "ALLSKY_SRF_ALB" := "Albedo da Superf\U{00ED}cie",
    "RH2M" := "Umidade Relativa a 2m",
    "ALLSKY_SFC_SW_DWN" := "Irradia\U{00E7}\U{00E3}o Solar na Superf\U{00ED}cie",
    "ALLSKY_KT" := "Transmissividade da Atmosfera"
  ]

  /** Every requested code has a catalogue label, the catalogue labels
      nothing else, and the rule parameters are among the requested ones. */
  lemma CatalogCoversRequest()
    ensures Catalog.Keys == set c | c in RequestedParameters
    ensures |RequestedParameters| == 13
    ensures Precipitation in Catalog && UVIndex in Catalog && WindSpeed in Catalog
  {
  }

  /** The entry of `entries` that carries `code`, when there is one. */
  predicate HasEntry(entries: seq<Entry>, code: string, j: int) {
    0 <= j < |entries| && entries[j].code == code
  }

  /** `code` is in the payload with at least one reading. */
  predicate HasReadings(entries: seq<Entry>, code: string) {
    exists j :: 0 <= j < |entries| && entries[j].code == code && |entries[j].readings| > 0
  }

  /** Dictionary lookup `data.get(code)`: the readings stored under `code`. */
  function Get(entries: seq<Entry>, code: string): (r: Option<seq<real>>)
    ensures r.None? <==> forall j :: 0 <= j < |entries| ==> entries[j].code != code
    ensures r.Some? ==> exists j :: HasEntry(entries, code, j) && entries[j].readings == r.value
    ensures DistinctCodes(entries) ==>
              forall j :: HasEntry(entries, code, j) ==> r == Some(entries[j].readings)
  {
    if |entries| == 0 then None
    else if entries[0].code == code then Some(entries[0].readings)
    else
      var r := Get(entries[1..], code);
      assert forall j :: 1 <= j < |entries| ==> entries[j] == entries[1..][j - 1];
      r
  }

  /** `data.get(code, {})`: a missing parameter reads as an empty series. */
  function Readings(p: Payload, code: string): (r: seq<real>)
    ensures (forall j :: 0 <= j < |p| ==> p[j].code != code) ==> r == []
    ensures forall j :: HasEntry(p, code, j) ==> r == p[j].readings
    ensures |r| > 0 <==> HasReadings(p, code)
  {
    match Get(p, code)
    case None => []
    case Some(s) => s
  }

  /** The reading a rule decides on: the first reading of a present,
      non-empty series, or nothing when the series is missing or empty. */
  function FirstReading(p: Payload, code: string): (r: Option<real>)
    ensures r.Some? <==> HasReadings(p, code)
    ensures forall j :: HasEntry(p, code, j) && |p[j].readings| > 0 ==>
              r == Some(p[j].readings[0])
  {
    var s := Readings(p, code);
    if |s| > 0 then Some(s[0]) else None
  }

  /** `p` and `q` list the same parameters in the same order, and each
      parameter's series is empty in both or starts with the same reading
      in both; what follows the first reading may differ. */
  ghost predicate SameFirstReadings(p: seq<Entry>, q: seq<Entry>) {
    && |p| == |q|
    && forall i :: 0 <= i < |p| ==>
         && p[i].code == q[i].code
         && (|p[i].readings| > 0 <==> |q[i].readings| > 0)
         && (|p[i].readings| > 0 ==> p[i].readings[0] == q[i].readings[0])
  }

  /** Payloads that agree on every first reading agree on what
      `FirstReading` finds under any code. */
  lemma FirstReadingOnlySeesFirst(p: Payload, q: Payload, code: string)
    requires SameFirstReadings(p, q)
    ensures FirstReading(q, code) == FirstReading(p, code)
  {
    if HasReadings(p, code) {
      var j :| 0 <= j < |p| && p[j].code == code && |p[j].readings| > 0;
      assert HasEntry(q, code, j) && |q[j].readings| > 0;
    }
  }

  /** `p` and `q` hold the same entries for `code` (the same series, or
      none at all); everything else about them may differ, order included. */
  ghost predicate SameEntriesFor(p: seq<Entry>, q: seq<Entry>, code: string) {
    && (forall e :: e in p && e.code == code ==> e in q)
    && (forall e :: e in q && e.code == code ==> e in p)
  }

  /** What `FirstReading` finds under `code` depends only on the entry for
      `code`: not on other parameters, nor on where the entry sits. */
  lemma FirstReadingOnlySeesItsEntry(p: Payload, q: Payload, code: string)
    requires SameEntriesFor(p, q, code)
    ensures FirstReading(q, code) == FirstReading(p, code)
  {
    if HasReadings(p, code) {
      var j :| 0 <= j < |p| && p[j].code == code && |p[j].readings| > 0;
      assert p[j] in p;
      var i :| 0 <= i < |q| && q[i] == p[j];
      assert HasEntry(q, code, i);
    }
  }
}
