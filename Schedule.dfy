/** The schedule bucketizer of app.py (`processar_horarios`): scheduled trips
    grouped by weekday and by the hour part of their departure time. */
module Schedule {
  import opened Wrappers
  import opened PyStr

  // ---------------------------------------------------------------------------
  // Data model
  // ---------------------------------------------------------------------------

  /** The seven top-level keys of the result. */
  datatype Day = Domingo | Segunda | Terca | Quarta | Quinta | Sexta | Sabado

  /** The keys in the order of the dict literal, which is also the order the
      per-trip loop visits them in. */
  const DayOrder: seq<Day> := [Domingo, Segunda, Terca, Quarta, Quinta, Sexta, Sabado]

  const AllDays: set<Day> := {Domingo, Segunda, Terca, Quarta, Quinta, Sexta, Sabado}

  function DayIndex(d: Day): (i: nat)
    ensures i < |DayOrder| && DayOrder[i] == d
  {
    match d
    case Domingo => 0
    case Segunda => 1
    case Terca => 2
    case Quarta => 3
    case Quinta => 4
    case Sexta => 5
    case Sabado => 6
  }

  /** A map holding the seven keys holds every day. */
  lemma EveryDay<T>(m: map<Day, T>)
    requires Domingo in m && Segunda in m && Terca in m && Quarta in m
    requires Quinta in m && Sexta in m && Sabado in m
    ensures forall d: Day :: d in m
  {
    forall d: Day ensures d in m {
      match d
      case Domingo =>
      case Segunda =>
      case Terca =>
      case Quarta =>
      case Quinta =>
      case Sexta =>
      case Sabado =>
    }
  }

  lemma DayOrderIndex(j: nat)
    requires j < |DayOrder|
    ensures DayIndex(DayOrder[j]) == j
  {
  }

  /** The key under which a day appears in the result. */
  function DayName(d: Day): string {
    match d
    case Domingo => "domingo"
    case Segunda => "segunda"
    case Terca => "terca"
    case Quarta => "quarta"
    case Quinta => "quinta"
    case Sexta => "sexta"
    case Sabado => "sabado"
  }

  /** The property holding a trip's flag for day `d`: `st_` followed by the
      day's key. */
  function FlagKey(d: Day): string {
    match d
    case Domingo => "st_domingo"
    case Segunda => "st_segunda"
    case Terca => "st_terca"
    case Quarta => "st_quarta"
    case Quinta => "st_quinta"
    case Sexta => "st_sexta"
    case Sabado => "st_sabado"
  }

  /** The `properties` of one scheduled-trip feature. */
  type Props = map<string, string>

  /** The `info` part of an entry. */
  datatype Info = Info(operadora: string, denominacaoLinha: string, sentido: string)

  /** One entry of an hour bucket: `{horario, info}`. */
  datatype Entry = Entry(horario: string, info: Info)

  /** What one trip contributes: the hour key it goes under and its entry. */
  datatype Reading = Reading(hora: string, entry: Entry)

  /** One day's hour buckets, in the dict's key order. */
  type Buckets = seq<(string, seq<Entry>)>

  /** The whole result: weekday -> hour buckets. */
  type Index = map<Day, Buckets>

  /** The set of hour keys of a day. */
  function HourSet(b: Buckets): set<string> {
    set i | 0 <= i < |b| :: b[i].0
  }

  predicate DistinctHours(b: Buckets) {
    forall i, j :: 0 <= i < j < |b| ==> b[i].0 != b[j].0
  }

  /** Hour keys in strictly ascending Python string order. */
  predicate Ascending(b: Buckets) {
    forall i, j :: 0 <= i < j < |b| ==> Less(b[i].0, b[j].0)
  }

  /** `b[h]`, with a missing key read as the empty bucket. */
  function Lookup(b: Buckets, h: string): seq<Entry> {
    if b == [] then []
    else if b[0].0 == h then b[0].1
    else Lookup(b[1..], h)
  }

  /** The number of entries of a day, over all its buckets. */
  function Total(b: Buckets): nat {
    if b == [] then 0 else |b[0].1| + Total(b[1..])
  }

  // ---------------------------------------------------------------------------
  // Reading one trip (app.py:86-99)
  // ---------------------------------------------------------------------------

  /** Python's `s[1:]`: empty for the empty string. */
  function Tail(s: string): (r: string)
    ensures s != [] ==> [s[0]] + r == s
    ensures s == [] ==> r == []
  {
    if s == [] then [] else s[1..]
  }

  function IndexOf(s: string, c: char): (i: nat)
    requires c in s
    ensures i < |s| && s[i] == c && c !in s[..i]
  {
    if s[0] == c then 0
    else
      var i := 1 + IndexOf(s[1..], c);
      assert s[..i] == [s[0]] + s[1..][..i - 1];
      i
  }

  /** `s.split(':')` unpacked into `hora, minuto`, or `('00', s[1:])` when `s`
      has no colon. Two or more colons make the unpack fail. */
  function SplitTime(s: string): Result<(string, string)> {
    if ':' !in s then Ok(("00", Tail(s)))
    else
      var i := IndexOf(s, ':');
      if ':' in s[i + 1..] then Err(UnpackError) else Ok((s[..i], s[i + 1..]))
  }

  /** The hour key and the entry of one trip, or the exception raised while
      computing them: the keys are read in the order the code reads them. */
  function ReadTrip(p: Props): Result<Reading> {
    if "hora_prevista" !in p then Err(KeyError("hora_prevista"))
    else
      match SplitTime(Strip(p["hora_prevista"]))
      case Err(e) => Err(e)
      case Ok((hora, minuto)) =>
        if "nm_operadora" !in p then Err(KeyError("nm_operadora"))
        else if "tx_denominacao_linha" !in p then Err(KeyError("tx_denominacao_linha"))
        else if "cs_sentido" !in p then Err(KeyError("cs_sentido"))
        else
          var info := Info(p["nm_operadora"], p["tx_denominacao_linha"], p["cs_sentido"]);
          Ok(Reading(hora, Entry(hora + ":" + minuto, info)))
  }

  /** The first day flag, from position `j` of `DayOrder` on, missing from `p`. */
  function MissingFlagFrom(p: Props, j: nat): Option<PyError>
    requires j <= |DayOrder|
    decreases |DayOrder| - j
  {
    if j == |DayOrder| then None
    else if FlagKey(DayOrder[j]) !in p then Some(KeyError(FlagKey(DayOrder[j])))
    else MissingFlagFrom(p, j + 1)
  }

  /** The exception processing trip `p` raises, if any. */
  function TripError(p: Props): Option<PyError> {
    if ReadTrip(p).Err? then Some(ReadTrip(p).error) else MissingFlagFrom(p, 0)
  }

  /** The exception processing `fs` raises: that of its first failing trip. */
  function FirstError(fs: seq<Props>): Option<PyError> {
    if fs == [] then None
    else if FirstError(fs[..|fs| - 1]).Some? then FirstError(fs[..|fs| - 1])
    else TripError(fs[|fs| - 1])
  }

  /** The trip runs on day `d`: its flag is exactly "S". */
  predicate Flagged(p: Props, d: Day) {
    FlagKey(d) in p && p[FlagKey(d)] == "S"
  }

  /** The readings of the trips of `fs` that run on day `d`, in input order. */
  function Readings(fs: seq<Props>, d: Day): seq<Reading> {
    if fs == [] then []
    else
      var p := fs[|fs| - 1];
      Readings(fs[..|fs| - 1], d) + (if ReadTrip(p).Ok? && Flagged(p, d) then [ReadTrip(p).value] else [])
  }

  /** The entries of the readings whose hour is `h`, in order: the reference
      definition of an hour bucket. */
  function Select(rs: seq<Reading>, h: string): seq<Entry> {
    if rs == [] then []
    else
      var x := rs[|rs| - 1];
      Select(rs[..|rs| - 1], h) + (if x.hora == h then [x.entry] else [])
  }

  // ---------------------------------------------------------------------------
  // Building the buckets (app.py:101-108)
  // ---------------------------------------------------------------------------

  /** `if h not in b: b[h] = []` followed by `b[h].append(e)`: a new key goes
      last, an existing one keeps its place. */
  function AddEntry(b: Buckets, h: string, e: Entry): Buckets {
    if b == [] then [(h, [e])]
    else if b[0].0 == h then [(h, b[0].1 + [e])] + b[1..]
    else [b[0]] + AddEntry(b[1..], h, e)
  }

  /** The buckets of a day before sorting: every reading added in turn. */
  function Group(rs: seq<Reading>): Buckets {
    if rs == [] then []
    else
      var x := rs[|rs| - 1];
      AddEntry(Group(rs[..|rs| - 1]), x.hora, x.entry)
  }

  // ---------------------------------------------------------------------------
  // Sorting the buckets (app.py:111-112)
  // ---------------------------------------------------------------------------

  function Insert(x: (string, seq<Entry>), s: Buckets): Buckets {
    if s == [] then [x]
    else if Less(x.0, s[0].0) then [x] + s
    else [s[0]] + Insert(x, s[1..])
  }

  /** `sorted(b.items())`: the buckets ordered by hour key. */
  function SortByKey(b: Buckets): Buckets {
    if b == [] then [] else Insert(b[0], SortByKey(b[1..]))
  }

  // ---------------------------------------------------------------------------
  // The whole routine
  // ---------------------------------------------------------------------------

  /** The sorted buckets `processar_horarios` builds for day `d`. */
  function DayBuckets(fs: seq<Props>, d: Day): Buckets {
    SortByKey(Group(Readings(fs, d)))
  }

  /** The map from each of the seven days to `f` of it. */
  function DayMap<T>(f: Day -> T): map<Day, T> {
    map[Domingo := f(Domingo), Segunda := f(Segunda), Terca := f(Terca), Quarta := f(Quarta),
        Quinta := f(Quinta), Sexta := f(Sexta), Sabado := f(Sabado)]
  }

  lemma DayMapAt<T>(f: Day -> T, d: Day)
    ensures d in DayMap(f) && DayMap(f)[d] == f(d)
  {
    match d
    case Domingo =>
    case Segunda =>
    case Terca =>
    case Quarta =>
    case Quinta =>
    case Sexta =>
    case Sabado =>
  }

  /** What `processar_horarios` returns for the trips `fs`. */
  function Bucketize(fs: seq<Props>): (r: Result<Index>)
    ensures r.Ok? ==> forall d: Day :: d in r.value
    ensures r.Err? <==> FirstError(fs).Some?
  {
    match FirstError(fs)
    case Some(e) => Err(e)
    case None =>
      var m := DayMap(d => DayBuckets(fs, d));
      EveryDay(m);
      Ok(m)
  }

  /** Day `d` of a successful result holds that day's sorted buckets. */
  lemma BucketizeDay(fs: seq<Props>, d: Day)
    requires Bucketize(fs).Ok?
    ensures Bucketize(fs).value[d] == DayBuckets(fs, d)
  {
    DayMapAt(d => DayBuckets(fs, d), d);
  }

  /** One more trip adds its reading at the end of a day's readings when it
      reads and is flagged for that day. */
  lemma ReadingsSnoc(fs: seq<Props>, p: Props, d: Day)
    ensures Readings(fs + [p], d)
            == Readings(fs, d) + if ReadTrip(p).Ok? && Flagged(p, d) then [ReadTrip(p).value] else []
  {
    assert (fs + [p])[..|fs|] == fs;
  }

  lemma GroupSnoc(rs: seq<Reading>, x: Reading)
    ensures Group(rs + [x]) == AddEntry(Group(rs), x.hora, x.entry)
  {
    assert (rs + [x])[..|rs|] == rs;
  }

  /** An error in a prefix of the trips is the error of all of them. */
  lemma {:induction false} FirstErrorPrefix(fs: seq<Props>, n: nat)
    requires n <= |fs| && FirstError(fs[..n]).Some?
    ensures FirstError(fs) == FirstError(fs[..n])
    decreases |fs| - n
  {
    if n < |fs| {
      assert fs[..n + 1][..n] == fs[..n];
      FirstErrorPrefix(fs, n + 1);
    } else {
      assert fs[..n] == fs;
    }
  }

  /** What one trip does to the buckets of day `d` (app.py:102-108). */
  function AddTripTo(b: Buckets, p: Props, x: Reading, d: Day): Buckets {
    if Flagged(p, d) then AddEntry(b, x.hora, x.entry) else b
  }

  lemma AddTripStep(fs: seq<Props>, i: nat, d: Day)
    requires i < |fs| && ReadTrip(fs[i]).Ok?
    ensures Group(Readings(fs[..i + 1], d))
            == AddTripTo(Group(Readings(fs[..i], d)), fs[i], ReadTrip(fs[i]).value, d)
  {
    assert fs[..i + 1] == fs[..i] + [fs[i]];
    ReadingsSnoc(fs[..i], fs[i], d);
    var x, rs := ReadTrip(fs[i]).value, Readings(fs[..i], d);
    if Flagged(fs[i], d) {
      assert Readings(fs[..i + 1], d) == rs + [x];
      GroupSnoc(rs, x);
    } else {
      assert Readings(fs[..i + 1], d) == rs;
    }
  }

  /** `out` is `horarios` after the per-trip loop has visited its first `j`
      days with trip `p`, whose reading is `x`. */
  predicate AddedUpTo(horarios: Index, out: Index, p: Props, x: Reading, j: nat) {
    forall d: Day :: d in horarios && d in out &&
      out[d] == if DayIndex(d) < j then AddTripTo(horarios[d], p, x, d) else horarios[d]
  }

  lemma AddedStep(horarios: Index, out: Index, p: Props, x: Reading, j: nat)
    requires j < |DayOrder| && AddedUpTo(horarios, out, p, x, j)
    ensures Flagged(p, DayOrder[j]) ==>
              AddedUpTo(horarios, out[DayOrder[j] := AddEntry(out[DayOrder[j]], x.hora, x.entry)], p, x, j + 1)
    ensures !Flagged(p, DayOrder[j]) ==> AddedUpTo(horarios, out, p, x, j + 1)
  {
    DayOrderIndex(j);
  }

  /** The `for dia in horarios` loop for one trip (app.py:101-108): each day, in
      key order, reads its flag (a missing one raises) and, on "S", appends the
      trip's entry to the bucket of its hour. */
  method AddTrip(horarios: Index, p: Props, x: Reading) returns (err: Option<PyError>, out: Index)
    requires forall d: Day :: d in horarios
    ensures err == MissingFlagFrom(p, 0)
    ensures err.None? ==> AddedUpTo(horarios, out, p, x, |DayOrder|)
  {
    out := horarios;
    var j := 0;
    while j < |DayOrder|
      invariant 0 <= j <= |DayOrder|
      invariant MissingFlagFrom(p, 0) == MissingFlagFrom(p, j)
      invariant AddedUpTo(horarios, out, p, x, j)
    {
      var dia := DayOrder[j];
      if FlagKey(dia) !in p {
        return Some(KeyError(FlagKey(dia))), out;
      }
      AddedStep(horarios, out, p, x, j);
      if p[FlagKey(dia)] == "S" {
        out := out[dia := AddEntry(out[dia], x.hora, x.entry)];
      }
      j := j + 1;
    }
    return None, out;
  }

  /** `h` holds, for every day, the unsorted buckets of the trips `fs`. */
  predicate GroupedAs(h: Index, fs: seq<Props>) {
    forall d: Day :: d in h && h[d] == Group(Readings(fs, d))
  }

  lemma GroupedStep(fs: seq<Props>, i: nat, h: Index, out: Index)
    requires i < |fs| && ReadTrip(fs[i]).Ok?
    requires GroupedAs(h, fs[..i]) && AddedUpTo(h, out, fs[i], ReadTrip(fs[i]).value, |DayOrder|)
    ensures GroupedAs(out, fs[..i + 1])
  {
    forall d: Day ensures d in out && out[d] == Group(Readings(fs[..i + 1], d)) {
      AddTripStep(fs, i, d);
    }
  }

  /** The first `j` days of `h` are sorted, the others still as grouped. */
  predicate SortedUpTo(h: Index, fs: seq<Props>, j: nat) {
    forall d: Day :: d in h &&
      h[d] == if DayIndex(d) < j then DayBuckets(fs, d) else Group(Readings(fs, d))
  }

  lemma SortedStep(h: Index, fs: seq<Props>, j: nat)
    requires j < |DayOrder| && SortedUpTo(h, fs, j)
    ensures SortedUpTo(h[DayOrder[j] := SortByKey(h[DayOrder[j]])], fs, j + 1)
  {
    var dia := DayOrder[j];
    DayOrderIndex(j);
    var h' := h[dia := SortByKey(h[dia])];
    forall d: Day
      ensures d in h' && h'[d] == if DayIndex(d) < j + 1 then DayBuckets(fs, d) else Group(Readings(fs, d))
    {
      if d == dia {
        assert h'[d] == SortByKey(Group(Readings(fs, d)));
      } else {
        assert DayIndex(d) != j;
        assert h'[d] == h[d];
      }
    }
  }

  lemma SortedAll(h: Index, fs: seq<Props>)
    requires SortedUpTo(h, fs, |DayOrder|) && FirstError(fs).None?
    ensures Bucketize(fs) == Ok(h)
  {
    var f := d => DayBuckets(fs, d);
    var b := DayMap(f);
    forall d: Day ensures d in b && h[d] == b[d] {
      DayMapAt(f, d);
    }
    assert h.Keys == b.Keys;
    assert h == b;
  }

  /** `processar_horarios` (app.py:72-114), on the `features` of the upstream
      response. */
  method ProcessarHorarios(features: seq<Props>) returns (r: Result<Index>)
    ensures r == Bucketize(features)
  {
    var horarios: Index := map[Domingo := [], Segunda := [], Terca := [], Quarta := [],
                               Quinta := [], Sexta := [], Sabado := []];
    var i := 0;
    assert features[..i] == [];
    EveryDay(horarios);
    while i < |features|
      invariant 0 <= i <= |features|
      invariant FirstError(features[..i]).None?
      invariant GroupedAs(horarios, features[..i])
    {
      var p := features[i];
      assert features[..i + 1][..i] == features[..i];
      var reading := ReadTrip(p);
      if reading.Err? {
        FirstErrorPrefix(features, i + 1);
        return Err(reading.error);
      }
      var err, out := AddTrip(horarios, p, reading.value);
      if err.Some? {
        FirstErrorPrefix(features, i + 1);
        return Err(err.value);
      }
      GroupedStep(features, i, horarios, out);
      horarios := out;
      i := i + 1;
    }
    assert features[..i] == features;
    var j := 0;
    while j < |DayOrder|
      invariant 0 <= j <= |DayOrder|
      invariant SortedUpTo(horarios, features, j)
    {
      var dia := DayOrder[j];
      SortedStep(horarios, features, j);
      horarios := horarios[dia := SortByKey(horarios[dia])];
      j := j + 1;
    }
    SortedAll(horarios, features);
    return Ok(horarios);
  }
}
