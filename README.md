# Adopt Me pet values: verified model of the snapshot history

The program scrapes a page that lists Adopt Me pets and their values. It
keeps an append-only history of timestamped snapshots and serves that
history in three ways: as JSON, as its latest entry, and as a line chart
with one line per pet. This project models three parts of it in Dafny:

- **Ingest** builds one snapshot from one scrape. Each `div.pet` on the page
  gives a name and a value text. Commas are removed from the text, then
  Python's `int()` converts it, and a text it rejects is recorded as 0. When
  a name occurs twice, the later occurrence wins. If anything in the scrape
  raises, nothing is recorded.
- **History** is the store. It is loaded once (the persisted list, or an empty
  list) and then only appended to. It has two read operations: the whole list
  (`/api/history`) and the newest entry or the empty object `{}`
  (`/api/latest`).
- **Series** is the chart page's script. It collects every pet name ever
  seen, in the order names first appear. Each name gets a trace whose `x`
  holds the timestamps and whose `y` holds the values of exactly the
  snapshots that contain that name. A gap is skipped, not filled with zero.

Modules:

- `Wrappers` holds `Option`.
- `Snapshots` holds the `Item` and `Snapshot` records.
- `ValueText` models the parse of a value: comma removal, Python's `int()`
  as a character-by-character scan, and the grammar of the texts it accepts.
- `Renderings` holds the decimal renderings a page may print (`str(n)` and
  `f"{n:,}"`) and what is recorded for each.
- `History` holds the `Store` class.
- `Ingest` models `fetch_pet_values` and a sequence of scheduled runs.
- `Series` models the chart script.

How the model treats the program's outside world:

- The HTTP request and the HTML parse are represented by their result.
  `Some(items)` is the `div.pet` list in page order. `None` means the
  request or the parse raised, or a pet `div` lacked its `h2` or `p`. Each of
  these aborts the whole scrape.
- The clock is a `now` parameter.
- The persisted file's content is the constructor's `Option` argument.
- The scheduler is a sequence of `Cycle`s, one per run of the job, starting
  with the run at start-up.

`History.Store.All` is the list `/api/history` serves. Dafny sequences are
values, so callers cannot change the store through what it returns.

The order of the chart's lines follows from the script. It adds names to a
JavaScript `Set`, and a `Set` iterates in insertion order. So
`Series.CollectPets` and `Series.Materialize` promise the names in the order
they first appear across snapshots.

## Model

| member | source | states |
|---|---|---|
| ValueText.RemoveCommas | main.py:33 | the result holds no comma, and text without commas comes back unchanged |
| ValueText.RemoveCommasAppend | main.py:33 | comma removal works piece by piece: the result for two joined texts is the two results joined |
| ValueText.RemoveCommasOneChar | main.py:33 | a lone comma is removed (`RemoveCommas(",") == ""`) and any other single character is kept; with the previous row this fixes the result for every text |
| ValueText.RemoveCommasKeeps | main.py:33 | every character of the text other than a comma is still in the result |
| ValueText.ParseInt | main.py:35 | `int()` returns `n` exactly when the text is a literal of `n`: optional whitespace, an optional `+` or `-`, ASCII digits with single underscores between digits, optional whitespace, and at most 4300 digits; for every other text it raises |
| ValueText.ScanLiteral | main.py:35 | the conversion accepts every well-formed literal with its signed value when it has at most 4300 digits, and raises when it has more |
| ValueText.AcceptedIsLiteral | main.py:35 | every text the conversion accepts is a well-formed literal |
| ValueText.ScanAgreesWithGrammar | main.py:35 | the character-by-character conversion and the literal grammar agree in both directions, value included |
| ValueText.ValueOf | main.py:33-37 | the recorded value is the number the comma-free text is a literal of, and 0 for every text whose comma-free form is no literal (`""`, `"-"`, `"1__0"`, `"1 2"`, ...) |
| ValueText.ScanRejects | main.py:35 | a character that is not a digit, a sign, an underscore or whitespace makes `int()` fail from any state of the scan |
| ValueText.NonNumericIsZero | main.py:34-37 | a value text holding such a character (other than a comma) is recorded as 0 |
| ValueText.TooManyDigitsIsZero | main.py:34-37 | a comma-free literal of more than 4300 digits makes `int()` raise, so it is recorded as 0 |
| Renderings.ShowRoundTrip | main.py:33-37 | the text `str(n)` prints converts back to `n`, so such a value is recorded as itself |
| Renderings.HugeNumberIsZero | main.py:34-37 | `str(n)` of a number of more than 4300 digits is recorded as 0 |
| Renderings.GroupedWithoutCommas | main.py:33 | removing the commas from a thousands-grouped rendering leaves the plain decimal digits |
| Renderings.GroupedRoundTrip | main.py:33-37 | a value printed with thousands separators, such as `-1,250,000`, is recorded as the number it shows |
| Ingest.Parsed | main.py:31-37 | one pair per item in page order: the item's name with its int-or-zero value |
| Ingest.Assign | main.py:38 | after `d[name] = value` over a list of pairs, every name of the list is a key |
| Ingest.AssignHasOnlyGivenKeys | main.py:38 | every key of that dict is a name from the list |
| Ingest.AssignLastWins | main.py:38 | a name's entry holds the value of its last pair |
| Ingest.PetValues | main.py:30-38 | every name on the page is a key of the snapshot's map |
| Ingest.PetValuesKeys | main.py:30-38 | the snapshot's map has no key that is not a name on the page |
| Ingest.PetValuesLastWins | main.py:30-38 | a name that occurs several times on the page maps to the value of its last occurrence |
| Ingest.BuildPetValues | main.py:30-38 | the scrape loop builds exactly the map `PetValues` describes |
| Ingest.FetchPetValues | main.py:25-49 | a failed scrape leaves the history unchanged; a successful one appends exactly one snapshot with the given timestamp and the page's map, and that snapshot becomes the latest |
| Ingest.RecordedAtMostOnePerCycle | main.py:25-49 | no run of the job appends more than one snapshot |
| Ingest.RecordedWhenAllSucceed | main.py:40-41 | when every run succeeds, there are as many snapshots as runs, and snapshot i carries run i's timestamp and values |
| Ingest.RunCycles | main.py:19-59 | after loading and any sequence of runs, the history is the loaded list followed by the recorded snapshots in run order |
| History.Store.Load | main.py:19-23 | the store starts with the persisted list when there is one, and empty otherwise |
| History.Store.Append | main.py:41 | the history becomes the old one followed by the new snapshot, which is then the latest |
| History.Store.Latest | main.py:115-117 | the empty marker exactly when the history is empty, and otherwise its last snapshot |
| History.Store.All | main.py:119-121 | the served list is empty exactly when `/api/latest` answers `{}`, and otherwise ends with the snapshot `/api/latest` answers |
| Series.FirstSeen | main.py:74-77 | the index of the first snapshot that has the name; no earlier snapshot has it; the value is the history's length when no snapshot has it |
| Series.KeyUniverse | main.py:74-77 | a name is in the `pets` set exactly when it has a first appearance in the history |
| Series.KeyUniverseMembers | main.py:74-77 | a name is in the `pets` set exactly when some snapshot of the history contains it |
| Series.Hits | main.py:83-88 | the indices of the snapshots that contain the name, strictly increasing; an index is listed exactly when its snapshot has the name |
| Series.TraceOf | main.py:80-95 | a trace whose name is the pet, with `x` and `y` of equal length |
| Series.TraceOfHits | main.py:83-88 | the trace has one point per snapshot containing the pet, and point i is the timestamp and value of the i-th such snapshot |
| Series.TraceOfAppend | main.py:83-88 | a new snapshot adds at most one point to a line: its own, at the end, exactly when it contains the pet |
| Series.TraceStartsAtFirstSeen | main.py:80-88 | a name in the set has a nonempty trace whose first point comes from the snapshot where the name first appears |
| Series.UnseenNameHasNoPoints | main.py:83-88 | a name no snapshot has gets no points |
| Series.AddAll | main.py:76 | `pets.add` for one snapshot's keys: names already present keep their places, new ones are appended, and nothing is listed twice |
| Series.CollectPets | main.py:74-77 | the names listed are every key of the history, each exactly once, ordered by first appearance |
| Series.BuildTrace | main.py:81-88 | the loop over the history builds exactly `TraceOf` for the pet |
| Series.BuildTraces | main.py:79-95 | one trace per listed name, in the same order, each equal to `TraceOf` for its name |
| Series.Materialize | main.py:73-95 | one trace per distinct name in first-seen order, each equal to `TraceOf` for its name; the number of traces equals the number of distinct names; an empty history gives no traces |
| Series.HitsAsWritten | main.py:84 | the snapshots that the `!== undefined` test as written accepts: those that own the name, or all of them when the name is inherited from `Object.prototype` |
| Series.HitsAsWrittenAgrees | main.py:84 | for any name not inherited from `Object.prototype`, the test as written accepts exactly the snapshots that contain the name |
| Series.InheritedNameCounterexample | main.py:84 | for a pet named `constructor`, the test as written also accepts a snapshot that lacks it |
| Series.TraceOfThree | main.py:83-88 | the line of a three-snapshot history is the points of the three snapshots, in order |
| Series.GapIsSkippedForA | main.py:83-88 | a pet missing from the middle snapshot of three gets a line through the first and third snapshots only |
| Series.GapIsSkippedForB | main.py:83-88 | a pet missing from the first snapshot gets a line that starts at the second |

## Left out

- Flask routing, template rendering and the JSON encoding of responses are left out. The model states what each route returns as a value.
- The rendering of the history into the page is left out. The page receives it through `{{ history | safe }}`. That is Python's `repr`, read back as a JavaScript literal, and names with quotes or backslashes are not modelled.
- The HTTP request and BeautifulSoup's HTML parsing are left out. Their outcome is the `Option` list of items.
- Reading the history file with `json.load` is left out. Its result is the constructor's argument.
- Writing the file with `json.dump` after each append is left out. The file format is foreign code, and a failing write leaves the in-memory append in place, as the model does.
- APScheduler and the random choice of hour and minute are left out. The runs are given as a sequence.
- `datetime.now()` is left out. The timestamp is a parameter.
- Both `print` calls are left out. Logging has no effect on the model.
- Concurrency between the scheduler thread and request handlers is left out. Each operation is modelled as atomic.
- ValueText.ParseInt: Python's `int()` also accepts decimal digits from other Unicode scripts, such as Arabic-Indic or full-width digits. Only ASCII digits are modelled, because Dafny has no Unicode digit table.
- ValueText.ParseInt: the 4300-digit limit is the default on Python 3.11 and later and on the security releases 3.10.7, 3.9.14, 3.8.14 and 3.7.14. Older releases have no limit, and a process can change it. The model fixes it at 4300.
- Series.CollectPets: the order of the new names within one snapshot is left unspecified. `Object.keys` yields integer-like names first in ascending order and then the others in insertion order, but a snapshot's values are modelled as a map, which has no order.
- Series.CollectPets: a pet named `__proto__` does not become an own property in the page's object literal, so the script never lists it. The model lists it like any other name.
- Series.TraceOf: the page reads the values as JavaScript numbers, because the history is written into the script as literals (main.py:73). Values beyond 2^53 are rounded to the nearest double, and values of about 309 digits or more become `Infinity`. The model keeps every value as an exact integer.
- The constant `mode: 'lines+markers'`, the layout and the `Plotly.newPlot` call are left out. They only draw.

## Findings

| source | as written | input that shows it | evidently intended | confidence | as-written member | corrected member |
|---|---|---|---|---|---|---|
| main.py:84 | `entry.values[pet] !== undefined` also holds for names every object inherits from `Object.prototype` (`constructor`, `toString`, `valueOf`, ...) | history `[{t1, {}}, {t2, {"constructor": 5}}]`: the `constructor` line gets a point at `t1`, and its `y` is the inherited function | plot a snapshot only when it has the name as its own key | not executed | Series.InheritedNameCounterexample | Series.Hits |
