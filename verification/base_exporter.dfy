/** The metadata dictionary every exporter carries. Values are kept as text;
    the clock reading for the timestamp is a parameter. */
module BaseExporter {

  type Metadata = map<string, string>

  /** `set_metadata(**kwargs)`: `dict.update`. */
  function SetMetadata(m: Metadata, kwargs: Metadata): (r: Metadata)
    ensures r.Keys == m.Keys + kwargs.Keys
    ensures forall k :: k in kwargs ==> r[k] == kwargs[k]
    ensures forall k :: k in m && k !in kwargs ==> r[k] == m[k]
  {
    m + kwargs
  }

  /** `dict.setdefault(k, v)` with the result discarded. */
  function SetDefault(m: Metadata, k: string, v: string): (r: Metadata)
    ensures r.Keys == m.Keys + {k}
    ensures k in m ==> r == m
    ensures k !in m ==> r[k] == v && forall j :: j in m ==> r[j] == m[j]
  {
    if k in m then m else m[k := v]
  }

  /** `add_default_metadata`, with `now` the ISO text of the current time: it
      adds exactly the three keys, fills in only the absent ones and never
      overwrites a value that was already there. */
  function AddDefaultMetadata(m: Metadata, now: string): (r: Metadata)
    ensures r.Keys == m.Keys + {"timestamp", "application", "version"}
    ensures forall k :: k in m ==> r[k] == m[k]
    ensures "timestamp" !in m ==> r["timestamp"] == now
    ensures "application" !in m ==> r["application"] == "OpenTiler"
    ensures "version" !in m ==> r["version"] == "0.1.0"
  {
    SetDefault(SetDefault(SetDefault(m, "timestamp", now), "application", "OpenTiler"), "version", "0.1.0")
  }

  /** Adding the defaults a second time (at any later time) changes nothing. */
  lemma DefaultsIdempotent(m: Metadata, now: string, later: string)
    ensures AddDefaultMetadata(AddDefaultMetadata(m, now), later) == AddDefaultMetadata(m, now)
  {
    var r := AddDefaultMetadata(m, now);
    assert AddDefaultMetadata(r, later).Keys == r.Keys;
  }
}
