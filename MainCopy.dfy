/** main.py's `calcular_tempo_chegada` (main.py:60-90), the same routine as
    app.py's line for line: it is held to the same specification. */
module MainCopy {
  import opened Wrappers
  import Arrival

  /** main.py's copy: the nearest bus (first on ties), its minutes and its
      arrival time, failing on an empty fleet or a nearest bus at speed 0. */
  method CalcularTempoChegada(latitude: real, longitude: real, features: seq<Arrival.Bus>,
                              geodesic: Arrival.Geodesic, now: real)
    returns (r: Result<Arrival.Estimate>)
    ensures r == Arrival.Estimativa(latitude, longitude, features, geodesic, now)
  {
    r := Arrival.CalcularTempoChegada(latitude, longitude, features, geodesic, now);
  }
}
