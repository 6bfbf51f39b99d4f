/** The nearest-bus arrival estimate of app.py (`calcular_tempo_chegada`): the
    bus closest to the rider, and the minutes and the time it needs to reach
    them at its reported speed plus a fixed 20% allowance. */
module Arrival {
  import opened Wrappers

  // ---------------------------------------------------------------------------
  // Data model
  // ---------------------------------------------------------------------------

  /** One live bus position, as the three properties the routine reads. */
  datatype Bus = Bus(latitude: real, longitude: real, velocidade: real)

  /** The geodesic distance in kilometres between (lat, lon) and (lat', lon'). */
  type Geodesic = (real, real, real, real) -> real

  /** A running minimum that starts at `float('inf')`. */
  datatype Extended = Infinity | Finite(km: real)

  /** `d < m` against a running minimum. */
  predicate Below(d: real, m: Extended) {
    m.Infinity? || d < m.km
  }

  /** The routine's result: the nearest bus, the minutes it needs, and the
      time it arrives (in minutes on the same clock as `now`). */
  datatype Estimate = Estimate(onibus: Bus, tempoChegadaMinutos: real, horaChegada: real)

  // ---------------------------------------------------------------------------
  // Specification
  // ---------------------------------------------------------------------------

  /** The distance from the rider to each bus, in input order. */
  function Distances(latitude: real, longitude: real, features: seq<Bus>, geodesic: Geodesic): seq<real> {
    seq(|features|, i requires 0 <= i < |features| =>
      geodesic(latitude, longitude, features[i].latitude, features[i].longitude))
  }

  /** The position the running minimum settles on: a later distance replaces
      the current one only when strictly smaller. */
  function FirstMin(ds: seq<real>): (k: nat)
    requires ds != []
    ensures k < |ds|
  {
    if |ds| == 1 then 0
    else
      var k := FirstMin(ds[..|ds| - 1]);
      if ds[|ds| - 1] < ds[k] then |ds| - 1 else k
  }

  /** `FirstMin` is the first position of a smallest distance: nothing is
      smaller, and everything before it is strictly larger. */
  lemma {:induction false} FirstMinSpec(ds: seq<real>)
    requires ds != []
    ensures forall j :: 0 <= j < |ds| ==> ds[FirstMin(ds)] <= ds[j]
    ensures forall j :: 0 <= j < FirstMin(ds) ==> ds[FirstMin(ds)] < ds[j]
    decreases |ds|
  {
    if |ds| > 1 {
      var n := |ds| - 1;
      FirstMinSpec(ds[..n]);
      assert forall j :: 0 <= j < n ==> ds[..n][j] == ds[j];
    }
  }

  /** ... and it is the only position with these two properties. */
  lemma FirstMinUnique(ds: seq<real>, k: nat)
    requires k < |ds|
    requires forall j :: 0 <= j < |ds| ==> ds[k] <= ds[j]
    requires forall j :: 0 <= j < k ==> ds[k] < ds[j]
    ensures FirstMin(ds) == k
  {
    FirstMinSpec(ds);
  }

  /** Minutes to cover `d` km at `v` km/h plus 20%: hours times 60, plus a
      fifth of that. */
  function TotalMinutes(d: real, v: real): real
    requires v != 0.0
  {
    var minutos := d / v * 60.0;
    minutos + minutos * 0.20
  }

  /** The total is 72 minutes per (km per km/h): 1.2 times the travel time
      in minutes. */
  lemma TotalMinutesSpec(d: real, v: real)
    requires v != 0.0
    ensures TotalMinutes(d, v) * v == 72.0 * d
    ensures TotalMinutes(d, v) == 1.2 * (60.0 * d / v)
  {
    var h := d / v;
    assert h * v == d;
    calc {
      TotalMinutes(d, v) * v;
      (h * 60.0 + h * 60.0 * 0.20) * v;
      72.0 * (h * v);
    }
  }

  /** A positive speed gives a non-negative total for a non-negative
      distance; a negative speed, which the routine does not reject, gives a
      negative total for a positive distance. */
  lemma TotalMinutesSign(d: real, v: real)
    requires v != 0.0
    ensures v > 0.0 && d >= 0.0 ==> TotalMinutes(d, v) >= 0.0
    ensures v < 0.0 && d > 0.0 ==> TotalMinutes(d, v) < 0.0
  {
    TotalMinutesSpec(d, v);
    var r := TotalMinutes(d, v);
    if v > 0.0 && d >= 0.0 {
      assert r < 0.0 ==> r * v < 0.0;
    }
    if v < 0.0 && d > 0.0 {
      assert r >= 0.0 ==> r * v <= 0.0;
    }
  }

  /** What `calcular_tempo_chegada` returns: with no bus, `None['properties']`
      fails; with the nearest bus standing still, the division fails;
      otherwise the nearest bus and its estimate. */
  function Estimativa(latitude: real, longitude: real, features: seq<Bus>, geodesic: Geodesic, now: real)
    : Result<Estimate>
  {
    if features == [] then Err(NoneNotSubscriptable)
    else
      var ds := Distances(latitude, longitude, features, geodesic);
      var k := FirstMin(ds);
      FirstMinSpec(ds);
      var onibus := features[k];
      if onibus.velocidade == 0.0 then Err(ZeroDivision)
      else
        var total := TotalMinutes(ds[k], onibus.velocidade);
        Ok(Estimate(onibus, total, now + total))
  }

  /** The estimate fails exactly on an empty fleet (`None['properties']`) or
      on a nearest bus at speed 0 (a division by zero). */
  lemma EstimativaErrors(latitude: real, longitude: real, features: seq<Bus>, geodesic: Geodesic, now: real)
    ensures var r := Estimativa(latitude, longitude, features, geodesic, now);
      && (r == Err(NoneNotSubscriptable) <==> features == [])
      && (r == Err(ZeroDivision) <==>
            features != [] && features[FirstMin(Distances(latitude, longitude, features, geodesic))].velocidade == 0.0)
      && (r.Err? ==> r.error == NoneNotSubscriptable || r.error == ZeroDivision)
  {
  }

  /** Otherwise the estimate names a bus of the input at the smallest
      distance from the rider, the first such in input order; its minutes are
      1.2 times distance over speed in minutes, and it arrives that many
      minutes after `now`. */
  lemma EstimativaSpec(latitude: real, longitude: real, features: seq<Bus>, geodesic: Geodesic, now: real)
    requires Estimativa(latitude, longitude, features, geodesic, now).Ok?
    ensures var e := Estimativa(latitude, longitude, features, geodesic, now).value;
      var ds := Distances(latitude, longitude, features, geodesic);
      exists k :: 0 <= k < |features| && e.onibus == features[k]
        && (forall j :: 0 <= j < |features| ==> ds[k] <= ds[j])
        && (forall j :: 0 <= j < k ==> ds[k] < ds[j])
        && e.tempoChegadaMinutos * features[k].velocidade == 72.0 * ds[k]
        && e.horaChegada == now + e.tempoChegadaMinutos
  {
    var ds := Distances(latitude, longitude, features, geodesic);
    var k := FirstMin(ds);
    FirstMinSpec(ds);
    TotalMinutesSpec(ds[k], features[k].velocidade);
  }

  // ---------------------------------------------------------------------------
  // The routine (app.py:135-165)
  // ---------------------------------------------------------------------------

  /** `calcular_tempo_chegada`, with the distance function and the current
      time passed in. */
  method CalcularTempoChegada(latitude: real, longitude: real, features: seq<Bus>, geodesic: Geodesic, now: real)
    returns (r: Result<Estimate>)
    ensures r == Estimativa(latitude, longitude, features, geodesic, now)
  {
    ghost var ds := Distances(latitude, longitude, features, geodesic);
    var distanciaMinima := Infinity;
    var onibusMaisProximo: Option<Bus> := None;
    ghost var k := 0;
    var i := 0;
    while i < |features|
      invariant 0 <= i <= |features|
      invariant i == 0 <==> onibusMaisProximo.None?
      invariant i == 0 <==> distanciaMinima.Infinity?
      invariant i > 0 ==> k == FirstMin(ds[..i]) && k < i
      invariant i > 0 ==> onibusMaisProximo == Some(features[k]) && distanciaMinima == Finite(ds[k])
    {
      var onibus := features[i];
      var distancia := geodesic(latitude, longitude, onibus.latitude, onibus.longitude);
      assert ds[..i + 1][..i] == ds[..i];
      if Below(distancia, distanciaMinima) {
        distanciaMinima := Finite(distancia);
        onibusMaisProximo := Some(onibus);
        k := i;
      }
      i := i + 1;
    }
    if onibusMaisProximo.None? {
      return Err(NoneNotSubscriptable);
    }
    assert ds[..i] == ds;
    var onibus := onibusMaisProximo.value;
    var velocidade := onibus.velocidade;
    if velocidade == 0.0 {
      return Err(ZeroDivision);
    }
    var tempoEstimadoHoras := distanciaMinima.km / velocidade;
    var tempoEstimadoMinutos := tempoEstimadoHoras * 60.0;
    var tempoAdicionalMinutos := tempoEstimadoMinutos * 0.20;
    var tempoTotalMinutos := tempoEstimadoMinutos + tempoAdicionalMinutos;
    var horaChegada := now + tempoTotalMinutos;
    return Ok(Estimate(onibus, tempoTotalMinutos, horaChegada));
  }
}
