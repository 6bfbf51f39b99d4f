/** Properties of the schedule bucketizer: how one departure time is read, how
    the hour buckets grow, what sorting keeps, and what the whole index holds. */
module ScheduleProofs {
  import opened Wrappers
  import opened PyStr
  import opened Schedule

  // ---------------------------------------------------------------------------
  // Splitting a departure time (app.py:86-91)
  // ---------------------------------------------------------------------------

  /** The number of occurrences of `c` in `s`. */
  function Count(s: string, c: char): nat {
    if s == [] then 0 else (if s[0] == c then 1 else 0) + Count(s[1..], c)
  }

  lemma {:induction false} CountZero(s: string, c: char)
    ensures Count(s, c) == 0 <==> c !in s
  {
    if s != [] {
      CountZero(s[1..], c);
      assert s == [s[0]] + s[1..];
    }
  }

  lemma {:induction false} CountAppend(a: string, b: string, c: char)
    ensures Count(a + b, c) == Count(a, c) + Count(b, c)
  {
    if a == [] {
      assert a + b == b;
    } else {
      assert (a + b)[1..] == a[1..] + b;
      CountAppend(a[1..], b, c);
    }
  }

  /** The first occurrence of a character is unique. */
  lemma FirstOccurrence(s: string, c: char, i: nat)
    requires i < |s| && s[i] == c && c !in s[..i]
    ensures IndexOf(s, c) == i
  {
    var j := IndexOf(s, c);
    assert forall k :: 0 <= k < i ==> s[..i][k] == s[k];
    assert forall k :: 0 <= k < j ==> s[..j][k] == s[k];
  }

  /** A time splits into hour and minute exactly when it holds at most one
      colon: with none, the hour is "00" and the minute drops the first
      character; with one, the two parts are the text around it; with more, the
      unpack fails. */
  lemma SplitTimeSpec(s: string)
    ensures SplitTime(s).Err? <==> Count(s, ':') >= 2
    ensures SplitTime(s).Err? ==> SplitTime(s).error == UnpackError
    ensures Count(s, ':') == 0 ==> SplitTime(s) == Ok(("00", Tail(s)))
    ensures Count(s, ':') == 1 ==>
              SplitTime(s).Ok? &&
              var (hora, minuto) := SplitTime(s).value;
              ':' !in hora && ':' !in minuto && hora + ":" + minuto == s
  {
    CountZero(s, ':');
    if ':' in s {
      var i := IndexOf(s, ':');
      assert s == s[..i] + [':'] + s[i + 1..];
      CountAppend(s[..i] + [':'], s[i + 1..], ':');
      CountAppend(s[..i], [':'], ':');
      CountZero(s[..i], ':');
      CountZero(s[i + 1..], ':');
    }
  }

  /** Joining an hour and a minute without colons and splitting again gives
      them back. */
  lemma SplitJoin(hora: string, minuto: string)
    requires ':' !in hora && ':' !in minuto
    ensures SplitTime(hora + ":" + minuto) == Ok((hora, minuto))
  {
    var s := hora + ":" + minuto;
    assert s[|hora|] == ':' && s[..|hora|] == hora && s[|hora| + 1..] == minuto;
    FirstOccurrence(s, ':', |hora|);
  }

  // ---------------------------------------------------------------------------
  // Reading one trip (app.py:86-99)
  // ---------------------------------------------------------------------------

  /** The stripped departure time of a trip. */
  function Time(p: Props): string
    requires "hora_prevista" in p
  {
    Strip(p["hora_prevista"])
  }

  /** Reading a trip fails on the first missing property, in the order the
      code reads them, or on a time with two or more colons; otherwise its
      entry carries the time (with "00:" in front when it has no colon) and
      the three properties copied verbatim, and its hour key is the part of
      the time before the colon. */
  lemma ReadTripSpec(p: Props)
    ensures "hora_prevista" !in p ==> ReadTrip(p) == Err(KeyError("hora_prevista"))
    ensures "hora_prevista" in p && Count(Time(p), ':') >= 2 ==> ReadTrip(p) == Err(UnpackError)
    ensures "hora_prevista" in p && Count(Time(p), ':') < 2 ==>
              if "nm_operadora" !in p then ReadTrip(p) == Err(KeyError("nm_operadora"))
              else if "tx_denominacao_linha" !in p then ReadTrip(p) == Err(KeyError("tx_denominacao_linha"))
              else if "cs_sentido" !in p then ReadTrip(p) == Err(KeyError("cs_sentido"))
              else ReadTrip(p).Ok?
    ensures ReadTrip(p).Ok? ==>
              var x := ReadTrip(p).value;
              && x.entry.info == Info(p["nm_operadora"], p["tx_denominacao_linha"], p["cs_sentido"])
              && ':' !in x.hora
              && (Count(Time(p), ':') == 1 ==> x.entry.horario == Time(p) && x.hora + ":" <= Time(p))
              && (Count(Time(p), ':') == 0 ==> x.hora == "00" && x.entry.horario == "00:" + Tail(Time(p)))
  {
    if "hora_prevista" in p {
      SplitTimeSpec(Time(p));
      if ReadTrip(p).Ok? && Count(Time(p), ':') == 1 {
        var x := ReadTrip(p).value;
        var (hora, minuto) := SplitTime(Time(p)).value;
        assert x.entry.horario == hora + ":" + minuto;
        assert (hora + ":") + minuto == Time(p);
      }
    }
  }

  /** Every reading's entry time starts with its hour key and a colon. */
  lemma HorarioPrefixed(p: Props)
    requires ReadTrip(p).Ok?
    ensures var x := ReadTrip(p).value; x.hora + ":" <= x.entry.horario
  {
    var x := ReadTrip(p).value;
    var (hora, minuto) := SplitTime(Time(p)).value;
    assert x.entry.horario == (hora + ":") + minuto;
  }

  // ---------------------------------------------------------------------------
  // Growing the buckets (app.py:101-108)
  // ---------------------------------------------------------------------------

  lemma HourSetCons(b: Buckets)
    requires b != []
    ensures HourSet(b) == {b[0].0} + HourSet(b[1..])
  {
    assert forall i :: 1 <= i < |b| ==> b[i] == b[1..][i - 1];
    assert forall i :: 0 <= i < |b| - 1 ==> b[1..][i] == b[i + 1];
  }

  /** Appending entry `e` under hour `h` extends bucket `h` by `e` at its end
      and leaves every other bucket as it was. */
  lemma {:induction false} AddEntryLookup(b: Buckets, h: string, e: Entry, k: string)
    ensures Lookup(AddEntry(b, h, e), k) == if k == h then Lookup(b, k) + [e] else Lookup(b, k)
  {
    if b != [] && b[0].0 != h {
      AddEntryLookup(b[1..], h, e, k);
      assert AddEntry(b, h, e)[1..] == AddEntry(b[1..], h, e);
    }
  }

  /** The hour keys grow by `h`, and stay distinct. */
  lemma {:induction false} AddEntryHours(b: Buckets, h: string, e: Entry)
    ensures HourSet(AddEntry(b, h, e)) == HourSet(b) + {h}
    ensures DistinctHours(b) ==> DistinctHours(AddEntry(b, h, e))
  {
    if b != [] {
      HourSetCons(b);
      if b[0].0 == h {
        var r := AddEntry(b, h, e);
        HourSetCons(r);
        assert r[1..] == b[1..];
        assert forall i :: 0 <= i < |b| ==> r[i].0 == b[i].0 by {
          forall i | 1 <= i < |b| ensures r[i].0 == b[i].0 {
            assert r[i] == r[1..][i - 1];
          }
        }
      } else {
        AddEntryHours(b[1..], h, e);
        var r, t := AddEntry(b, h, e), AddEntry(b[1..], h, e);
        HourSetCons(r);
        assert r[1..] == t;
        if DistinctHours(b) {
          assert b[0].0 !in HourSet(b[1..]) by {
            forall i | 0 <= i < |b[1..]| ensures b[1..][i].0 != b[0].0 {
              assert b[1..][i] == b[i + 1];
            }
          }
          forall i, j | 0 <= i < j < |r| ensures r[i].0 != r[j].0 {
            if i == 0 {
              assert r[j] == t[j - 1];
              assert r[j].0 in HourSet(t);
            } else {
              assert r[i] == t[i - 1] && r[j] == t[j - 1];
            }
          }
        }
      }
    } else {
      var r := AddEntry(b, h, e);
      HourSetCons(r);
      assert r[1..] == [];
    }
  }

  /** One more entry in all. */
  lemma {:induction false} AddEntryTotal(b: Buckets, h: string, e: Entry)
    ensures Total(AddEntry(b, h, e)) == Total(b) + 1
  {
    if b != [] {
      if b[0].0 == h {
        assert AddEntry(b, h, e)[1..] == b[1..];
      } else {
        AddEntryTotal(b[1..], h, e);
        assert AddEntry(b, h, e)[1..] == AddEntry(b[1..], h, e);
      }
    }
  }

  /** A new hour key goes last; an existing one keeps its place. */
  lemma {:induction false} AddEntryPlace(b: Buckets, h: string, e: Entry)
    ensures h !in HourSet(b) ==> AddEntry(b, h, e) == b + [(h, [e])]
    ensures h in HourSet(b) ==>
              (|AddEntry(b, h, e)| == |b| && forall i :: 0 <= i < |b| ==> AddEntry(b, h, e)[i].0 == b[i].0)
  {
    if b != [] {
      HourSetCons(b);
      if b[0].0 != h {
        AddEntryPlace(b[1..], h, e);
        var r := AddEntry(b, h, e);
        assert r[1..] == AddEntry(b[1..], h, e);
        if h !in HourSet(b) {
          assert b == [b[0]] + b[1..];
        } else {
          assert forall i :: 1 <= i < |b| ==> r[i] == r[1..][i - 1] && b[i] == b[1..][i - 1];
        }
      }
    }
  }

  /** The bucket of hour `h` holds the entries of the readings with that hour,
      in reading order: entries are only ever appended. */
  lemma {:induction false} GroupLookup(rs: seq<Reading>, h: string)
    ensures Lookup(Group(rs), h) == Select(rs, h)
    decreases |rs|
  {
    if rs != [] {
      var x := rs[|rs| - 1];
      GroupLookup(rs[..|rs| - 1], h);
      AddEntryLookup(Group(rs[..|rs| - 1]), x.hora, x.entry, h);
    }
  }

  /** The hour keys after grouping are those of the readings, each once, and
      every reading has its entry in some bucket. */
  lemma {:induction false} GroupShape(rs: seq<Reading>)
    ensures HourSet(Group(rs)) == set k | 0 <= k < |rs| :: rs[k].hora
    ensures DistinctHours(Group(rs))
    ensures Total(Group(rs)) == |rs|
    decreases |rs|
  {
    if rs != [] {
      var n := |rs| - 1;
      var x := rs[n];
      GroupShape(rs[..n]);
      AddEntryHours(Group(rs[..n]), x.hora, x.entry);
      AddEntryTotal(Group(rs[..n]), x.hora, x.entry);
      assert forall k :: 0 <= k < n ==> rs[..n][k] == rs[k];
      assert (set k | 0 <= k < |rs| :: rs[k].hora) == (set k | 0 <= k < n :: rs[..n][k].hora) + {x.hora};
    }
  }

  // ---------------------------------------------------------------------------
  // Sorting the buckets (app.py:111-112)
  // ---------------------------------------------------------------------------

  /** A bucket in front of ascending buckets whose keys are all above its own
      keeps them ascending. */
  lemma AscendingCons(y: (string, seq<Entry>), t: Buckets)
    requires Ascending(t)
    requires forall k | k in HourSet(t) :: Less(y.0, k)
    ensures Ascending([y] + t)
  {
    var r := [y] + t;
    forall i, j | 0 <= i < j < |r| ensures Less(r[i].0, r[j].0) {
      assert r[j] == t[j - 1];
      if i == 0 {
        assert t[j - 1].0 in HourSet(t);
      } else {
        assert r[i] == t[i - 1];
      }
    }
  }

  /** Inserting one bucket adds its key to the keys, its entries to the
      total and itself to the multiset of buckets. */
  lemma {:induction false} InsertKeeps(x: (string, seq<Entry>), s: Buckets)
    ensures HourSet(Insert(x, s)) == {x.0} + HourSet(s)
    ensures Total(Insert(x, s)) == |x.1| + Total(s)
  {
    var r := Insert(x, s);
    HourSetCons(r);
    if s == [] {
      assert r[1..] == [];
    } else if Less(x.0, s[0].0) {
      assert r[1..] == s;
    } else {
      InsertKeeps(x, s[1..]);
      HourSetCons(s);
      assert r[1..] == Insert(x, s[1..]);
    }
  }

  lemma {:induction false} InsertPermutes(x: (string, seq<Entry>), s: Buckets)
    ensures multiset(Insert(x, s)) == multiset(s) + multiset{x}
  {
    if s != [] && !Less(x.0, s[0].0) {
      InsertPermutes(x, s[1..]);
      assert Insert(x, s) == [s[0]] + Insert(x, s[1..]);
      assert s == [s[0]] + s[1..];
    }
  }

  /** A bucket with a new key is found under that key only. */
  lemma {:induction false} InsertLookup(x: (string, seq<Entry>), s: Buckets, k: string)
    requires x.0 !in HourSet(s)
    ensures Lookup(Insert(x, s), k) == if k == x.0 then x.1 else Lookup(s, k)
  {
    if s != [] && !Less(x.0, s[0].0) {
      HourSetCons(s);
      InsertLookup(x, s[1..], k);
      assert Insert(x, s)[1..] == Insert(x, s[1..]);
    }
  }

  lemma AscendingTail(s: Buckets)
    requires s != [] && Ascending(s)
    ensures Ascending(s[1..])
    ensures forall k | k in HourSet(s[1..]) :: Less(s[0].0, k)
  {
    forall i, j | 0 <= i < j < |s[1..]| ensures Less(s[1..][i].0, s[1..][j].0) {
      assert s[1..][i] == s[i + 1] && s[1..][j] == s[j + 1];
    }
    forall k | k in HourSet(s[1..]) ensures Less(s[0].0, k) {
      var j :| 0 <= j < |s[1..]| && s[1..][j].0 == k;
      assert s[1..][j] == s[j + 1];
    }
  }

  /** Inserting a bucket with a new key into ascending buckets keeps them
      ascending. */
  lemma {:induction false} InsertAscending(x: (string, seq<Entry>), s: Buckets)
    requires x.0 !in HourSet(s) && Ascending(s)
    ensures Ascending(Insert(x, s))
  {
    if s == [] {
    } else if Less(x.0, s[0].0) {
      AscendingTail(s);
      HourSetCons(s);
      forall k | k in HourSet(s) ensures Less(x.0, k) {
        if k != s[0].0 {
          LessTransitive(x.0, s[0].0, k);
        }
      }
      AscendingCons(x, s);
    } else {
      var t := Insert(x, s[1..]);
      HourSetCons(s);
      AscendingTail(s);
      InsertAscending(x, s[1..]);
      InsertKeeps(x, s[1..]);
      LessTotal(x.0, s[0].0);
      assert Insert(x, s) == [s[0]] + t;
      AscendingCons(s[0], t);
    }
  }

  lemma DistinctTail(b: Buckets)
    requires b != [] && DistinctHours(b)
    ensures DistinctHours(b[1..]) && b[0].0 !in HourSet(b[1..])
  {
    forall i, j | 0 <= i < j < |b[1..]| ensures b[1..][i].0 != b[1..][j].0 {
      assert b[1..][i] == b[i + 1] && b[1..][j] == b[j + 1];
    }
    forall i | 0 <= i < |b[1..]| ensures b[1..][i].0 != b[0].0 {
      assert b[1..][i] == b[i + 1];
    }
  }

  /** `sorted(b.items())` keeps the keys, the entries and the buckets
      themselves: it only reorders them. */
  lemma {:induction false} SortKeeps(b: Buckets)
    ensures HourSet(SortByKey(b)) == HourSet(b)
    ensures Total(SortByKey(b)) == Total(b)
    ensures multiset(SortByKey(b)) == multiset(b)
  {
    if b != [] {
      SortKeeps(b[1..]);
      InsertKeeps(b[0], SortByKey(b[1..]));
      InsertPermutes(b[0], SortByKey(b[1..]));
      HourSetCons(b);
      assert b == [b[0]] + b[1..];
    }
  }

  /** With distinct keys, `sorted(b.items())` puts them in strictly ascending
      order and each key still finds its own bucket. */
  lemma {:induction false} SortOrders(b: Buckets)
    requires DistinctHours(b)
    ensures Ascending(SortByKey(b))
    ensures forall k :: Lookup(SortByKey(b), k) == Lookup(b, k)
  {
    if b != [] {
      var t := SortByKey(b[1..]);
      DistinctTail(b);
      SortOrders(b[1..]);
      SortKeeps(b[1..]);
      InsertAscending(b[0], t);
      forall k ensures Lookup(SortByKey(b), k) == Lookup(b, k) {
        InsertLookup(b[0], t, k);
      }
    }
  }

  /** Hour keys come out in string order, not numeric order: "10" before "5". */
  lemma SortIsTextual(a: seq<Entry>, b: seq<Entry>)
    ensures SortByKey([("5", a), ("10", b)]) == [("10", b), ("5", a)]
  {
    var x, y := ("5", a), ("10", b);
    TenBeforeFive();
    assert [x, y][1..] == [y];
    assert SortByKey([y]) == [y];
    assert Insert(x, [y]) == [y] + Insert(x, []);
  }

  // ---------------------------------------------------------------------------
  // Which trips fail (app.py:86-102)
  // ---------------------------------------------------------------------------

  /** The flag of a day is read from the property `st_` + the day's key. */
  lemma FlagKeyIsPrefixed(d: Day)
    ensures FlagKey(d) == "st_" + DayName(d)
  {
    match d
    case Domingo =>
    case Segunda =>
    case Terca =>
    case Quarta =>
    case Quinta =>
    case Sexta =>
    case Sabado =>
  }

  /** A trip passes the flag reads exactly when it has the flag of every day;
      otherwise it fails on the first day, in key order, whose flag is
      missing. */
  lemma MissingFlagSpec(p: Props)
    ensures MissingFlagFrom(p, 0).None? <==> forall d: Day :: FlagKey(d) in p
    ensures MissingFlagFrom(p, 0).Some? ==>
              exists d: Day :: FlagKey(d) !in p && MissingFlagFrom(p, 0) == Some(KeyError(FlagKey(d)))
                && forall d': Day :: DayIndex(d') < DayIndex(d) ==> FlagKey(d') in p
  {
    MissingFlagNone(p, 0);
    if MissingFlagFrom(p, 0).None? {
      forall d: Day ensures FlagKey(d) in p {
        assert DayOrder[DayIndex(d)] == d;
      }
    } else {
      var j := MissingFlagSome(p, 0);
      var d := DayOrder[j];
      DayOrderIndex(j);
      forall d': Day | DayIndex(d') < DayIndex(d) ensures FlagKey(d') in p {
        assert DayOrder[DayIndex(d')] == d';
      }
    }
  }

  lemma {:induction false} MissingFlagNone(p: Props, j: nat)
    requires j <= |DayOrder|
    ensures MissingFlagFrom(p, j).None? <==> forall k :: j <= k < |DayOrder| ==> FlagKey(DayOrder[k]) in p
    decreases |DayOrder| - j
  {
    if j < |DayOrder| {
      MissingFlagNone(p, j + 1);
    }
  }

  /** The position, from `j` on, of the day whose flag is reported missing. */
  lemma {:induction false} MissingFlagSome(p: Props, j: nat) returns (k: nat)
    requires j <= |DayOrder| && MissingFlagFrom(p, j).Some?
    ensures j <= k < |DayOrder| && FlagKey(DayOrder[k]) !in p
    ensures MissingFlagFrom(p, j) == Some(KeyError(FlagKey(DayOrder[k])))
    ensures forall k' :: j <= k' < k ==> FlagKey(DayOrder[k']) in p
    decreases |DayOrder| - j
  {
    if FlagKey(DayOrder[j]) !in p {
      k := j;
    } else {
      k := MissingFlagSome(p, j + 1);
    }
  }

  /** Processing a trip raises nothing exactly when it reads and has every
      day flag. */
  lemma TripErrorSpec(p: Props)
    ensures TripError(p).None? <==> ReadTrip(p).Ok? && forall d: Day :: FlagKey(d) in p
  {
    MissingFlagSpec(p);
  }

  /** No trip of `fs` raises. */
  predicate AllPass(fs: seq<Props>) {
    forall k :: 0 <= k < |fs| ==> TripError(fs[k]).None?
  }

  lemma AllPassSnoc(fs: seq<Props>)
    requires fs != []
    ensures AllPass(fs) <==> AllPass(fs[..|fs| - 1]) && TripError(fs[|fs| - 1]).None?
  {
    var n := |fs| - 1;
    var init := fs[..n];
    if AllPass(fs) {
      forall k | 0 <= k < n ensures TripError(init[k]).None? {
        assert init[k] == fs[k];
      }
    }
    if AllPass(init) && TripError(fs[n]).None? {
      forall k | 0 <= k < |fs| ensures TripError(fs[k]).None? {
        if k < n {
          assert init[k] == fs[k];
        }
      }
    }
  }

  lemma {:induction false} NoFirstError(fs: seq<Props>)
    ensures FirstError(fs).None? <==> AllPass(fs)
    decreases |fs|
  {
    if fs != [] {
      NoFirstError(fs[..|fs| - 1]);
      AllPassSnoc(fs);
    }
  }

  /** The routine raises exactly when some trip does, and then with the
      exception of the first such trip. */
  lemma {:induction false} FirstErrorSpec(fs: seq<Props>)
    requires FirstError(fs).Some?
    ensures exists k :: 0 <= k < |fs| && FirstError(fs) == TripError(fs[k])
              && forall j :: 0 <= j < k ==> TripError(fs[j]).None?
    decreases |fs|
  {
    var n := |fs| - 1;
    var init := fs[..n];
    assert forall k :: 0 <= k < n ==> init[k] == fs[k];
    if FirstError(init).Some? {
      FirstErrorSpec(init);
      var k :| 0 <= k < n && FirstError(init) == TripError(init[k])
               && forall j :: 0 <= j < k ==> TripError(init[j]).None?;
      assert FirstError(fs) == TripError(fs[k]);
    } else {
      NoFirstError(init);
      assert FirstError(fs) == TripError(fs[n]);
    }
  }

  // ---------------------------------------------------------------------------
  // The whole index (app.py:72-114)
  // ---------------------------------------------------------------------------

  /** The index has exactly the seven weekday keys. */
  lemma BucketizeKeys(fs: seq<Props>)
    requires Bucketize(fs).Ok?
    ensures Bucketize(fs).value.Keys == AllDays
  {
    var m := Bucketize(fs).value;
    forall d | d in m ensures d in AllDays {
      match d
      case Domingo =>
      case Segunda =>
      case Terca =>
      case Quarta =>
      case Quinta =>
      case Sexta =>
      case Sabado =>
    }
  }

  /** No trips: seven empty days. */
  lemma BucketizeEmpty()
    ensures Bucketize([]) == Ok(map[Domingo := [], Segunda := [], Terca := [], Quarta := [],
                                    Quinta := [], Sexta := [], Sabado := []])
  {
  }

  /** The bucket of hour `h` on day `d` holds the entries of the trips running
      on `d` whose hour key is `h`, in input order. */
  lemma BucketContents(fs: seq<Props>, d: Day, h: string)
    requires Bucketize(fs).Ok?
    ensures Lookup(Bucketize(fs).value[d], h) == Select(Readings(fs, d), h)
  {
    BucketizeDay(fs, d);
    var g := Group(Readings(fs, d));
    GroupShape(Readings(fs, d));
    SortOrders(g);
    GroupLookup(Readings(fs, d), h);
  }

  /** Each day's hour keys are strictly ascending and are exactly the hour
      keys of its trips. */
  lemma BucketHours(fs: seq<Props>, d: Day)
    requires Bucketize(fs).Ok?
    ensures var b := Bucketize(fs).value[d];
      var rs := Readings(fs, d);
      Ascending(b) && HourSet(b) == set k | 0 <= k < |rs| :: rs[k].hora
  {
    BucketizeDay(fs, d);
    var g := Group(Readings(fs, d));
    GroupShape(Readings(fs, d));
    SortOrders(g);
    SortKeeps(g);
  }

  /** The number of trips of `fs` flagged for day `d`. */
  function CountFlagged(fs: seq<Props>, d: Day): nat {
    if fs == [] then 0
    else CountFlagged(fs[..|fs| - 1], d) + if Flagged(fs[|fs| - 1], d) then 1 else 0
  }

  lemma {:induction false} ReadingsCount(fs: seq<Props>, d: Day)
    requires FirstError(fs).None?
    ensures |Readings(fs, d)| == CountFlagged(fs, d)
    decreases |fs|
  {
    if fs != [] {
      var n := |fs| - 1;
      NoFirstError(fs);
      NoFirstError(fs[..n]);
      assert forall k :: 0 <= k < n ==> fs[..n][k] == fs[k];
      ReadingsCount(fs[..n], d);
      TripErrorSpec(fs[n]);
    }
  }

  /** Day `d` holds one entry per trip whose flag for `d` is "S". */
  lemma EntryCount(fs: seq<Props>, d: Day)
    requires Bucketize(fs).Ok?
    ensures Total(Bucketize(fs).value[d]) == CountFlagged(fs, d)
  {
    BucketizeDay(fs, d);
    var g := Group(Readings(fs, d));
    GroupShape(Readings(fs, d));
    SortKeeps(g);
    ReadingsCount(fs, d);
  }

  /** Every reading's entry time starts with its hour key and a colon. */
  predicate Prefixed(rs: seq<Reading>) {
    forall k :: 0 <= k < |rs| ==> rs[k].hora + ":" <= rs[k].entry.horario
  }

  lemma {:induction false} ReadingsPrefixed(fs: seq<Props>, d: Day)
    ensures Prefixed(Readings(fs, d))
    decreases |fs|
  {
    if fs != [] {
      var n := |fs| - 1;
      ReadingsPrefixed(fs[..n], d);
      if ReadTrip(fs[n]).Ok? {
        HorarioPrefixed(fs[n]);
      }
    }
  }

  lemma {:induction false} SelectPrefixed(rs: seq<Reading>, h: string)
    requires Prefixed(rs)
    ensures forall e | e in Select(rs, h) :: h + ":" <= e.horario
    decreases |rs|
  {
    if rs != [] {
      var n := |rs| - 1;
      assert forall k :: 0 <= k < n ==> rs[..n][k] == rs[k];
      SelectPrefixed(rs[..n], h);
    }
  }

  lemma LookupAt(b: Buckets, i: nat)
    requires i < |b| && DistinctHours(b)
    ensures Lookup(b, b[i].0) == b[i].1
  {
    if i > 0 {
      DistinctTail(b);
      LookupAt(b[1..], i - 1);
    }
  }

  lemma AscendingDistinct(b: Buckets)
    requires Ascending(b)
    ensures DistinctHours(b)
  {
    forall i, j | 0 <= i < j < |b| ensures b[i].0 != b[j].0 {
      LessIrreflexive(b[i].0);
    }
  }

  /** Every entry's time starts with the key of its bucket and a colon. */
  predicate KeyPrefixed(b: Buckets) {
    forall i, e | 0 <= i < |b| && e in b[i].1 :: b[i].0 + ":" <= e.horario
  }

  /** In the sorted grouping of readings whose times start with their hours,
      every entry's time starts with the key of its bucket. */
  lemma SortedGroupPrefixed(rs: seq<Reading>)
    requires Prefixed(rs)
    ensures KeyPrefixed(SortByKey(Group(rs)))
  {
    var g := Group(rs);
    var b := SortByKey(g);
    GroupShape(rs);
    SortOrders(g);
    AscendingDistinct(b);
    forall i, e | 0 <= i < |b| && e in b[i].1 ensures b[i].0 + ":" <= e.horario {
      LookupAt(b, i);
      GroupLookup(rs, b[i].0);
      SelectPrefixed(rs, b[i].0);
    }
  }

  /** Every entry stored under hour key `h` has a time starting with `h`
      and a colon. */
  lemma HorarioPrefix(fs: seq<Props>, d: Day)
    requires Bucketize(fs).Ok?
    ensures KeyPrefixed(Bucketize(fs).value[d])
  {
    BucketizeDay(fs, d);
    ReadingsPrefixed(fs, d);
    SortedGroupPrefixed(Readings(fs, d));
  }

  lemma SelectSnoc(rs: seq<Reading>, x: Reading, h: string)
    ensures Select(rs + [x], h) == Select(rs, h) + if x.hora == h then [x.entry] else []
  {
    assert (rs + [x])[..|rs|] == rs;
  }

  lemma FirstErrorSnoc(fs: seq<Props>, p: Props)
    ensures FirstError(fs + [p]) == if FirstError(fs).Some? then FirstError(fs) else TripError(p)
  {
    assert (fs + [p])[..|fs|] == fs;
  }

  /** One more trip at the end of the input: the bucket of its hour on each
      day it is flagged for gains its entry at the end; every other bucket,
      and every other day, is unchanged. */
  lemma AppendTrip(fs: seq<Props>, p: Props, d: Day, h: string)
    requires Bucketize(fs + [p]).Ok?
    ensures Bucketize(fs).Ok? && ReadTrip(p).Ok?
    ensures var x := ReadTrip(p).value;
      Lookup(Bucketize(fs + [p]).value[d], h)
      == Lookup(Bucketize(fs).value[d], h) + if Flagged(p, d) && x.hora == h then [x.entry] else []
  {
    FirstErrorSnoc(fs, p);
    ReadingsSnoc(fs, p, d);
    BucketContents(fs + [p], d, h);
    BucketContents(fs, d, h);
    var x, rs := ReadTrip(p).value, Readings(fs, d);
    if Flagged(p, d) {
      assert Readings(fs + [p], d) == rs + [x];
      SelectSnoc(rs, x, h);
    } else {
      assert Readings(fs + [p], d) == rs;
    }
  }

  /** A trip leaving at " 5:30" on Mondays only (every other flag "N"). */
  predicate MondayTrip(p: Props) {
    && "hora_prevista" in p && p["hora_prevista"] == " 5:30"
    && "nm_operadora" in p && "tx_denominacao_linha" in p && "cs_sentido" in p
    && forall d: Day :: FlagKey(d) in p && p[FlagKey(d)] == if d == Segunda then "S" else "N"
  }

  /** Such a trip is read with hour key "5", unpadded, and time "5:30". */
  lemma MondayTripReading(p: Props)
    requires MondayTrip(p)
    ensures ReadTrip(p).Ok?
    ensures ReadTrip(p).value.hora == "5" && ReadTrip(p).value.entry.horario == "5:30"
  {
    assert LStrip(" 5:30") == "5:30" by {
      assert " 5:30"[1..] == "5:30";
    }
    assert RStrip("5:30") == "5:30" by {
      assert "5:30"[..3] == "5:3";
    }
    assert Strip(" 5:30") == "5:30";
    SplitJoin("5", "30");
    assert "5" + ":" + "30" == "5:30";
  }

  /** A single reading makes a single bucket. */
  lemma SingleReading(x: Reading)
    ensures SortByKey(Group([x])) == [(x.hora, [x.entry])]
  {
    assert [x][..0] == [];
    assert Group([x]) == [(x.hora, [x.entry])];
  }

  lemma MondayTripOk(p: Props)
    requires MondayTrip(p)
    ensures FirstError([p]).None? && Bucketize([p]).Ok?
  {
    MondayTripReading(p);
    MissingFlagSpec(p);
    var none: seq<Props> := [];
    assert [p][..0] == none;
  }

  /** It lands alone under "5" on Monday, and every other day is empty. */
  lemma MondayTripIndex(p: Props, d: Day)
    requires MondayTrip(p)
    ensures Bucketize([p]).Ok?
    ensures Bucketize([p]).value[d]
            == if d == Segunda then [("5", [Entry("5:30", ReadTrip(p).value.entry.info)])] else []
  {
    MondayTripOk(p);
    MondayTripReading(p);
    BucketizeDay([p], d);
    FirstErrorSnoc([], p);
    ReadingsSnoc([], p, d);
    assert [] + [p] == [p];
    var x := ReadTrip(p).value;
    if d == Segunda {
      assert Readings([p], d) == [x];
      SingleReading(x);
    } else {
      assert Readings([p], d) == [];
    }
  }
}
