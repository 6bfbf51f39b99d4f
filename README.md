# Bus schedules and arrival estimates, in Dafny

This project models the two data transformations of the Federal District bus
API (`app.py`, with a copy of one of them in `main.py`) and proves what they
promise.

- **Schedule bucketizer** (`processar_horarios`). The upstream service returns
  a list of scheduled trips. The routine turns them into an index with seven
  weekday keys, from `domingo` to `sabado`. Each key maps an hour key (the text
  before the `:` of the trip's time) to the list of `{horario, info}` entries
  for that hour. The hour keys are then sorted in string order.
  - `Schedule.ProcessarHorarios` is the imperative model. The outer loop runs
    over the trips and the inner loop over the days (`Schedule.AddTrip`), as
    in the source. A final loop sorts each day.
  - The method is proved equal to the reference function `Schedule.Bucketize`.
  - `ScheduleProofs` proves what that function means:
    - which trips raise, and with which exception;
    - that each bucket holds exactly the entries of its hour, in input order;
    - that hour keys are strictly ascending in Python string order;
    - that entry counts per day match the trips flagged for that day.
  - Python's `str.strip` and `str.__lt__` are modelled in `PyStr`.
- **Nearest-bus arrival estimate** (`calcular_tempo_chegada`). This is a
  running-minimum loop over the live bus positions followed by a travel-time
  formula: distance / speed in hours, times 60, plus 20%.
  - `Arrival.CalcularTempoChegada` is the imperative model. It is proved
    equal to `Arrival.Estimativa`, whose meaning `Arrival.EstimativaSpec`
    states: the bus returned is the first bus at minimal distance.
  - The copy in `main.py` is `MainCopy.CalcularTempoChegada`, held to the
    same specification.

Python exceptions are values: `Wrappers.Result` carries either the result or
the `PyError` raised, which is one of `KeyError`, a failed two-value unpack,
`None[...]`, or a division by zero. Each of these is raised where the source
raises it; the exceptions the model does not raise are listed under
"## Left out".

On these points the code behaves differently from what a reader may expect,
and the model follows the code:

- Hour keys are not zero-padded. `"5:30"` goes under `"5"` with horario
  `"5:30"`, not under `"05"` (`ScheduleProofs.MondayTripIndex`).
- Hour keys sort as strings, so `"10"` comes before `"5"`
  (`ScheduleProofs.SortIsTextual`).
- A speed of zero raises a division by zero, but a negative speed is not
  rejected. It yields a negative number of minutes
  (`Arrival.TotalMinutesSign`).
- An empty fleet is not a dedicated error. `onibus_mais_proximo` stays `None`
  and reading its properties raises (`NoneNotSubscriptable`).

## Model

| member | source | states |
|---|---|---|
| `Schedule.ProcessarHorarios` | app.py:72-114 | the loops return exactly `Bucketize(features)`: the same seven-day index, or the exception of the first trip that raises |
| `Schedule.AddTrip` | app.py:101-108 | visiting the days in key order, the trip raises `KeyError` for the first missing `st_<dia>`; otherwise each day's buckets gain the entry exactly when that day's flag is "S", and every other day is unchanged |
| `Schedule.Bucketize` | app.py:72-114 | a successful result holds every weekday, and the routine fails exactly when some trip raises |
| `Schedule.FirstErrorPrefix` | app.py:85-108 | once a prefix of the trips has raised, the whole input raises the same exception |
| `Schedule.AddTripStep` | app.py:101-108 | one more trip changes a day's unsorted buckets exactly by appending its entry when the trip is flagged for that day |
| `Schedule.IndexOf` | app.py:89 | the position of the first colon: a colon, with none before it |
| `Schedule.Tail` | app.py:89 | `s[1:]` drops exactly the first character, and is empty for the empty string |
| `ScheduleProofs.SplitTimeSpec` | app.py:89 | `Schedule.SplitTime` (the split and unpack of line 89): it fails (unpack error) exactly when the stripped time has two or more colons; with no colon the hour is "00" and the minute is the time minus its first character; with one colon, hour and minute are the colon-free text on either side of it |
| `ScheduleProofs.SplitJoin` | app.py:89-91 | splitting `hora + ":" + minuto` gives back `hora` and `minuto` when neither has a colon |
| `ScheduleProofs.ReadTripSpec` | app.py:86-99 | `Schedule.ReadTrip` (reading one trip): it raises `KeyError` for the first missing property in read order (`hora_prevista`, then the unpack, then `nm_operadora`, `tx_denominacao_linha`, `cs_sentido`); otherwise its info copies the three properties, its hour has no colon, its horario equals the stripped time when that has one colon, and it is "00:" + the time minus its first character when it has none |
| `ScheduleProofs.HorarioPrefixed` | app.py:89-91 | a trip's horario starts with its hour key followed by ":" |
| `ScheduleProofs.FlagKeyIsPrefixed` | app.py:101-102 | a day's flag is the property `st_` + the day's key |
| `ScheduleProofs.AddEntryLookup` | app.py:103-108 | `Schedule.AddEntry` (the dict append): appending under hour `h` extends bucket `h` by the entry at its end and leaves every other bucket unchanged |
| `ScheduleProofs.AddEntryHours` | app.py:103-104 | the hour keys gain `h` and nothing else, and stay distinct |
| `ScheduleProofs.AddEntryTotal` | app.py:105-108 | exactly one entry is added |
| `ScheduleProofs.AddEntryPlace` | app.py:103-104 | a new hour key is inserted last; an existing key keeps its position |
| `ScheduleProofs.GroupLookup` | app.py:101-108 | after all trips, bucket `h` holds the entries of the readings with hour `h`, in input order |
| `ScheduleProofs.GroupShape` | app.py:101-108 | after all trips, the hour keys are exactly the readings' hours, each once, and there is one entry per reading |
| `ScheduleProofs.InsertKeeps` | app.py:112 | inserting a bucket adds its key to the hour keys and its entries to the total, and nothing else |
| `ScheduleProofs.InsertPermutes` | app.py:112 | inserting a bucket adds exactly that bucket to the multiset of buckets |
| `ScheduleProofs.InsertLookup` | app.py:112 | a bucket inserted with a new key is found under that key only |
| `ScheduleProofs.InsertAscending` | app.py:112 | inserting a new key into strictly ascending keys keeps them strictly ascending |
| `ScheduleProofs.SortKeeps` | app.py:111-112 | `Schedule.SortByKey` (the `sorted(...)` of line 112): sorting keeps the set of hour keys, the total number of entries, and the multiset of buckets |
| `ScheduleProofs.SortOrders` | app.py:111-112 | with distinct keys, sorting gives strictly ascending keys in Python string order, and each key keeps its bucket |
| `ScheduleProofs.SortIsTextual` | app.py:112 | string order is not numeric order: buckets "5" and "10" come out as "10", "5" |
| `ScheduleProofs.MissingFlagSpec` | app.py:101-102 | the flag reads pass exactly when all seven `st_<dia>` properties exist; otherwise the `KeyError` names the first missing day in key order |
| `ScheduleProofs.TripErrorSpec` | app.py:86-102 | processing a trip raises nothing exactly when it reads and has every day flag |
| `ScheduleProofs.NoFirstError` | app.py:85-108 | the routine raises nothing exactly when no trip raises |
| `ScheduleProofs.FirstErrorSpec` | app.py:85-108 | when the routine raises, it raises the exception of a trip that all earlier trips got past without raising |
| `ScheduleProofs.BucketizeKeys` | app.py:76-84 | the index has exactly the seven weekday keys |
| `ScheduleProofs.BucketizeEmpty` | app.py:76-114 | with no trips, the result is the seven days, each empty |
| `ScheduleProofs.BucketContents` | app.py:101-112 | in the result, hour `h` of day `d` holds the entries of the trips flagged "S" for `d` whose hour is `h`, in input order |
| `ScheduleProofs.BucketHours` | app.py:101-112 | each day's hour keys are strictly ascending and are exactly the hours of the trips flagged for that day |
| `ScheduleProofs.EntryCount` | app.py:101-108 | day `d` holds as many entries as there are trips whose `st_<d>` is "S" |
| `ScheduleProofs.HorarioPrefix` | app.py:89-107 | every entry stored under hour key `h` has a horario starting with `h` + ":" |
| `ScheduleProofs.AppendTrip` | app.py:101-108 | one more trip appends its entry at the end of its hour's bucket on exactly the days it is flagged for; every other bucket and day is unchanged |
| `ScheduleProofs.MondayTripReading` | app.py:86-91 | the time " 5:30" gives hour key "5" (unpadded) and horario "5:30" |
| `ScheduleProofs.MondayTripIndex` | app.py:72-114 | a single trip at " 5:30" flagged for Monday only gives `segunda = {"5": [its entry]}` and leaves the other six days empty |
| `PyStr.StripSpec` | app.py:86 | `PyStr.Strip` (`str.strip()` over Python's white-space set) keeps the slice between the leading and the trailing white space, and that slice neither starts nor ends with white space |
| `PyStr.StripTrimmed` | app.py:86 | a string with no white space at either end is left unchanged |
| `PyStr.LessIrreflexive` | app.py:112 | string `<` is irreflexive |
| `PyStr.LessTransitive` | app.py:112 | `PyStr.Less` (Python's string `<`, lexicographic on code points) is transitive |
| `PyStr.LessTotal` | app.py:112 | distinct strings are ordered one way or the other, so the sorted order of distinct keys is unique |
| `PyStr.LessAsymmetric` | app.py:112 | string `<` is asymmetric |
| `PyStr.TenBeforeFive` | app.py:112 | "10" < "5" and not "5" < "10" |
| `Arrival.CalcularTempoChegada` | app.py:135-165 | the running-minimum loop and the formula return exactly `Arrival.Estimativa` (the reference definition of the routine): the error for an empty fleet or a nearest bus at speed 0, otherwise the nearest bus, its minutes and its arrival time |
| `Arrival.FirstMin` | app.py:137-148 | the running minimum settles on a position inside the input |
| `Arrival.FirstMinSpec` | app.py:144-148 | that position has the smallest distance, and every earlier bus is strictly farther, because ties keep the first bus (strict `<`) |
| `Arrival.FirstMinUnique` | app.py:146-148 | no other position is a first smallest distance |
| `Arrival.TotalMinutesSpec` | app.py:153-160 | `Arrival.TotalMinutes` (the formula of lines 153-160): total minutes times speed is 72 times distance, i.e. 1.2 times (60 times distance over speed) |
| `Arrival.TotalMinutesSign` | app.py:153-160 | a positive speed gives non-negative minutes for a non-negative distance; a negative speed, which is not rejected, gives negative minutes for a positive distance |
| `Arrival.EstimativaErrors` | app.py:137-153 | the estimate fails exactly for an empty fleet (`None['properties']`) or a nearest bus at speed 0 (division by zero), and with no other error |
| `Arrival.EstimativaSpec` | app.py:135-165 | a successful estimate returns a bus of the input at minimal distance, the first one on ties, with minutes times speed equal to 72 times distance, and an arrival time of `now` plus those minutes |
| `MainCopy.CalcularTempoChegada` | main.py:60-90 | main.py's copy returns exactly the same as app.py's: the same nearest bus, minutes, arrival time and errors |

## Left out

- HTTP routes, the upstream WFS requests and the translation of errors into HTTP responses: these are framework wiring and network I/O.
- The `data['features']` and `viagem['properties']` lookups: the model starts from the list of trips' property maps, so a response without `features` or a trip without `properties` is not modelled.
- Non-string property values: a trip's properties are text, so a `hora_prevista` that is not a string (which would fail at `.strip()`) is not modelled.
- The bus properties `latitude`, `longitude` and `velocidade` are fields of `Arrival.Bus`, so the `KeyError` raised by a bus record without them is not modelled, nor are the other properties returned to the caller.
- `geopy`'s geodesic distance is a parameter: any function from two coordinate pairs to kilometres. `datetime.now()` is the parameter `now`, a time in minutes, and `strftime` formatting is left out.
- Floating point: distances, speeds and minutes are exact reals. `float('inf')` is the `Infinity` case of `Arrival.Extended`, and NaN distances and rounding are not modelled.
- `mapa.py` (map rendering and coordinate transforms) is not part of this model.
- Errors raised by `geodesic` (app.py:144), such as the `ValueError` for a latitude outside [-90, 90] or a non-finite coordinate: `Arrival.Geodesic` is any total function, so the estimate never fails there.
- The `OverflowError` of `datetime.now() + timedelta(minutes=...)` (app.py:163) when the total leaves the datetime range, as for a speed very close to 0: the model's `now + total` is a real addition and never fails.
- The order of the weekday keys in the result dict (`domingo` to `sabado`, app.py:76-84): `Schedule.Index` is a map from `Schedule.Day`, which has no order, so only the set of keys is modelled (`ScheduleProofs.BucketizeKeys`).
- Dict aliasing: the one `info` dict shared by a trip's entries on several days is a value in the model.
