# Satellite tracker: catalog lookup and map visibility, in Dafny

A model of the two pieces of logic in `4Ssat.py`, the script that draws four
satellites (ISS, NOAA 15, TIANMU-1 14, METEOR-M2 4) on an interactive world
map.

- **Catalog record lookup** (`get_tle_iss`, `get_tle_noaa`, `get_tle_tianmu`,
  `get_tle_meteor`). The fetched CelesTrak text is normalised with
  `strip().split("\n")`. The lines are then walked in strides of three: a name
  line followed by the two lines of a NORAD two-line element set. The first
  record whose name line contains one of the target substrings is returned.
  The outcome is `Found(name, line1, line2)`, `NotFound` (the script's
  `ValueError`) or `Truncated`. `Truncated` is the `IndexError` raised when
  the matching name line has fewer than two lines after it. METEOR accepts
  two spellings, so targets are a list of substrings.
- **Startup** resolves the four satellites in order and stops at the first
  lookup that fails.
- **Map visibility state.** The map holds one entry per satellite: a marker
  and a hidden dashed track. It also holds the observer marker and a tooltip.
  - *Hover* (`on_hover`): each track's visibility becomes its marker's hit
    test result. The tooltip is shown iff some marker was hit. It then
    describes the last hit entry, because the loop overwrites the text.
  - *Reload*: removes every entry and draws four fresh ones in tracking
    order.
  - Entry `i` always belongs to `Tracked[i]`, the list the hover handler
    indexes (`4Ssat.py:146`).

Modules: `Text` (Python `strip`, `split`, `join`, `in`), `Catalog` (the
stride-3 scan), `Fleet` (satellites, their target substrings, startup) and
`Display` (screen state, hover, reload, event sequences). The satellite
markers, tracks and observer markers on the axes are numbered; these form the
artist map. `next` is the first unused number, so newly drawn artists are
distinct from earlier ones. Each marker's hit test (`contains(event)`) is a
boolean input, one per entry.

Three details of the script's behaviour shape the model:
- reload does not fetch the catalogs again: it redraws the satellites built at
  startup;
- `draw_idle` is requested only when the pointer is inside the axes;
- the observer marker is added again on every reload (see Findings). The
  event loop is modelled twice: as written (`StepAsWritten`, `RunAsWritten`),
  and with the corrected reload (`Step`, `Run`).

## Model

| member | source | states |
|---|---|---|
| Text.IsSpace | 4Ssat.py:17 | the characters `str.isspace()` accepts, which `strip()` removes: ASCII whitespace, the separators U+001C to U+001F, U+0085, U+00A0, U+1680, U+2000 to U+200A, U+2028, U+2029, U+202F, U+205F and U+3000 |
| Text.StripLeft | 4Ssat.py:17 | the result is a suffix of the input, everything dropped is whitespace, and it does not start with whitespace |
| Text.StripRight | 4Ssat.py:17 | the result is a prefix of the input, everything dropped is whitespace, and it does not end with whitespace |
| Text.Strip | 4Ssat.py:17 | `str.strip()` leaves a piece of the text with no whitespace at either end and only whitespace around it |
| Text.StripIsUniqueCore | 4Ssat.py:17 | any trimmed piece with whitespace borders is exactly what strip returns, so strip is fully determined |
| Text.StripIdempotent | 4Ssat.py:17 | stripping twice is stripping once |
| Text.StripAllSpace | 4Ssat.py:17 | whitespace-only text strips to the empty string |
| Text.Split | 4Ssat.py:17 | `split("\n")` yields at least one piece, and no piece contains the separator |
| Text.SplitCount | 4Ssat.py:17 | there is one more piece than there are separators in the text |
| Text.JoinSplit | 4Ssat.py:17 | joining the pieces with the separator gives back the text |
| Text.SplitJoin | 4Ssat.py:17 | splitting a join of separator-free pieces gives back the pieces |
| Text.Contains | 4Ssat.py:19 | Python's `target in line`: the target is a prefix of some suffix of the line, so the empty target is in every line |
| Text.ContainsAt | 4Ssat.py:19 | the substring test holds iff the target starts at some offset of the line |
| Text.ShortLineLacks | 4Ssat.py:19 | a line shorter than the target never contains it |
| Catalog.Matches | 4Ssat.py:46 | a name line is accepted when it contains any target: the `or` of the METEOR test, and with one target the plain `in` test of line 19 |
| Catalog.RecordAt | 4Ssat.py:20 | once the name line at k is chosen: its three lines verbatim when line k+2 exists, otherwise the IndexError, as Truncated |
| Catalog.Scan | 4Ssat.py:18-21 | from stride position i, NotFound iff no later name line matches; otherwise the outcome is the record at the first matching stride position |
| Catalog.Lookup | 4Ssat.py:18-21 | NotFound iff no line at index 0, 3, 6, ... matches; the first matching stride index k gives lines k, k+1, k+2 verbatim, or Truncated when k+2 is past the end; a found name line contains a target |
| Catalog.CatalogLines | 4Ssat.py:17 | the normalised lines are non-empty, free of newlines, and join back to the stripped text |
| Catalog.LookupText | 4Ssat.py:17-21 | on fetched text, a found record's name contains a target and no returned line contains a newline; NotFound iff no stride line matches |
| Catalog.ElementLinesIgnored | 4Ssat.py:18-19 | catalogs of the same length that agree on every stride-position line give the same outcome kind and name, so a target on an element line is never matched |
| Catalog.MatchesConcat | 4Ssat.py:46 | accepting any substring of a combined list is accepting one of either part |
| Catalog.FirstMatchOfUnion | 4Ssat.py:45-47 | the first match for a combined list is the earlier of the first matches of its two parts |
| Catalog.UnionWithAbsent | 4Ssat.py:44-48 | if one part of the list matches no name line, the other part alone decides the lookup; the combined lookup fails iff both parts fail |
| Catalog.SecondBlock | 4Ssat.py:18-20 | for any catalog of at least six lines and any targets: if line 0 is not accepted and line 3 is, the lookup returns lines 3, 4 and 5 verbatim |
| Catalog.FirstMatchCutShort | 4Ssat.py:18-20 | for any catalog and targets: if the first accepted name line at a stride position k has fewer than two lines after it, the lookup is Truncated (the IndexError), whatever comes later |
| Catalog.BlankCatalogNotFound | 4Ssat.py:17-21 | an empty or whitespace-only catalog yields NotFound for non-empty targets |
| Fleet.Tracked | 4Ssat.py:146 | the satellites in the order the hover handler's list indexes them: ISS, NOAA 15, TIANMU-1 14, METEOR-M2 4 |
| Fleet.Targets | 4Ssat.py:19-46 | the only difference between the four `get_tle_*` functions: `Targets(Iss)` is line 19's "ISS (ZARYA)", `Targets(Noaa)` line 28's "NOAA 15", `Targets(Tianmu)` line 37's "TIANMU-1 14", and `Targets(Meteor)` both spellings of line 46 |
| Fleet.GetTle | 4Ssat.py:14-48 | each satellite's lookup returns a name containing one of its own target substrings; NotFound iff none of its targets is on a stride line |
| Fleet.MeteorEitherSpelling | 4Ssat.py:44-48 | the METEOR lookup equals the single-spelling lookup when the other spelling is absent, and fails iff both spellings are absent |
| Fleet.NoaaInSecondBlock | 4Ssat.py:26-29 | on the six-line catalog GOES 16 / NOAA 15 (a GOES 16 block, then a NOAA 15 block) the NOAA lookup returns the second block's three lines; the general fact is Catalog.SecondBlock |
| Fleet.IssCutShort | 4Ssat.py:17-20 | on the two-line catalog ["ISS (ZARYA)", "1 25544U"] the ISS lookup gives Truncated, not a partial record; the general fact is Catalog.FirstMatchCutShort |
| Fleet.Collect | 4Ssat.py:53-63 | all lookups found gives one record per satellite in order; otherwise the first failing satellite and its outcome |
| Fleet.LoadAll | 4Ssat.py:53-63 | startup succeeds iff every satellite's lookup succeeds, records aligned with the satellite order; else it stops at the first failure |
| Fleet.Startup | 4Ssat.py:53-63 | four records on success; an abort names a tracked satellite whose lookup failed, and ISS was found unless ISS is the one that failed |
| Display.DrawOne | 4Ssat.py:96-98 | one `scatter` and one `plot` call: the satellite's marker numbered `next` and its track `next + 1`, earlier artists kept, no observer added |
| Display.DrawSatellites | 4Ssat.py:93-123 | one new marker and hidden track per satellite, in order, with fresh numbers; earlier artists are untouched |
| Display.DrawnKeys | 4Ssat.py:93-123 | the artists after drawing are exactly the earlier ones plus the new entries' markers and tracks |
| Display.DrawKeepsObservers | 4Ssat.py:93-123 | drawing the satellites adds no observer marker and removes none |
| Display.PlaceObserver | 4Ssat.py:126-127 | plotting the observer adds exactly one observer marker and changes nothing else |
| Display.Start | 4Ssat.py:91-136 | for any satellite list, start-up draws one entry per satellite in order with its track hidden, exactly one observer marker, and a hidden ownerless tooltip |
| Display.StartTidy | 4Ssat.py:91-127 | right after start-up the artist map holds exactly the entries' markers and tracks and the observer marker: no stray satellite marker or track |
| Display.Initial | 4Ssat.py:91-136 | the first screen is aligned with the tracked satellites, has one observer marker, hidden tracks and a hidden ownerless tooltip, and no satellite marker or track other than the entries' |
| Display.HoverLoop | 4Ssat.py:142-159 | the loop sets each track to its hit result, records whether anything was hit, and leaves the tooltip on the last hit entry or untouched |
| Display.Hover | 4Ssat.py:139-162 | outside the axes nothing changes; inside, each track's visibility equals its hit, the tooltip is visible iff something was hit, and it is anchored at the pointer on the last hit entry |
| Display.LastHitExists | 4Ssat.py:142-159 | a hit vector with a hit has a last hit |
| Display.HoverIdempotent | 4Ssat.py:140-161 | handling the same pointer event twice is handling it once |
| Display.HoverSingleHit | 4Ssat.py:142-159 | with exactly one marker hit, exactly that track is shown and the tooltip belongs to it |
| Display.HoverNoHit | 4Ssat.py:142-161 | with no marker hit, every track and the tooltip are hidden |
| Display.HoverKeepsAlignment | 4Ssat.py:142-146 | hover keeps entries aligned with the tracked list; the tooltip's index is hit, and its entry's marker draws the satellite the handler looks up |
| Display.EntryArtists | 4Ssat.py:168-170 | the removed set holds exactly the entries' marker and track numbers |
| Display.RemoveEntries | 4Ssat.py:168-171 | every entry's marker and track leave the axes; all other artists, observer markers included, stay |
| Display.ReloadAsWritten | 4Ssat.py:167-206 | the script's reload: old entries gone, four fresh hidden-track entries in tracking order, other artists and the tooltip kept, and exactly one artist added beyond the new entries: a new observer marker |
| Display.ReloadLeaksObserver | 4Ssat.py:205-206 | one reload after startup leaves two observer markers |
| Display.Reload | 4Ssat.py:167-203 | reload with the observer left in place: the old entries' markers and tracks are gone, four fresh hidden-track entries in tracking order replace them, every other artist and the tooltip are kept, the new entries' markers and tracks are the only artists added, and the observer markers are unchanged |
| Display.ReloadTidy | 4Ssat.py:167-203 | if the artist map held no stray satellite marker or track (only entries' artists and observer markers), the corrected reload keeps it so |
| Display.ReloadAsWrittenTidy | 4Ssat.py:167-206 | likewise for the script's reload, whose one extra artist is an observer marker |
| Display.HoverTidy | 4Ssat.py:139-162 | hover adds and removes no artist, so the artist map keeps holding only entries' artists and observer markers |
| Display.ReloadKeepsAlignment | 4Ssat.py:168-203 | both reloads keep entries aligned with the list the hover handler indexes |
| Display.StepAsWritten | 4Ssat.py:139-213 | one callback of the script (pointer move, or reload click) keeps the alignment the hover handler needs; a click adds exactly one observer marker, a move none |
| Display.RunAsWritten | 4Ssat.py:139-213 | any sequence of the script's callbacks keeps the alignment, and the observer markers grow by the number of clicks |
| Display.ObserversPileUp | 4Ssat.py:91-213 | from start-up, the script as written keeps four entries but ends with one observer marker plus one per reload click |
| Display.Step | 4Ssat.py:139-203 | one callback with the corrected reload keeps the alignment and leaves the observer markers unchanged |
| Display.Run | 4Ssat.py:139-203 | any sequence of callbacks with the corrected reload keeps the alignment and the observer markers |
| Display.FourEntriesOneObserver | 4Ssat.py:91-203 | from start-up, with the corrected reload, after any moves and reloads exactly four entries and one observer marker exist, and no satellite marker or track other than the entries' |

## Left out

- Network fetches (`requests.get`, the three catalog URLs, timeouts, status codes): each lookup takes the fetched text as input.
- skyfield (`EarthSatellite`, `ts.now()`, `.at()`, `subpoint()`, velocity, the 100-point day-long ground-track sample): foreign propagation code and floating point.
- Basemap projection, and matplotlib drawing, button and event dispatch: only the presence and visibility of satellite markers, tracks and observer markers are modelled.
- The map background (coastlines, country borders, boundary and continents, 4Ssat.py:85-89), the tooltip annotation (4Ssat.py:130) and the legend (4Ssat.py:216) are artists on the same axes, but they are not in the artist map; `Display.Tidy` and the rows that use it speak only of satellite markers, tracks and observer markers.
- Tooltip text: the model records only which entry the text describes. The fixed-decimal formatting of position and speed is float formatting of library output.
- Observer coordinates, colours and marker sizes: constants with no behaviour.
- The error message strings of the `ValueError`s, which the model represents as `NotFound`.
- The `IndexError` hover would raise for a hit at entry index 4 or more: no reachable screen has more than four entries (`Display.RunAsWritten` keeps `Aligned`).
- `draw_idle` and `plt.draw` redraw requests: rendering only.
- Fleet.Startup: states only the shape of the result; the full per-satellite contract is on Fleet.LoadAll.

## Findings

| source | as written | input that shows it | evidently intended | confidence | as-written member | corrected member |
|---|---|---|---|---|---|---|
| 4Ssat.py:205-206 | reload plots the "My Location" marker again after redrawing, but nothing removes the one drawn before | start up, then press Reload once: two observer markers are on the axes, one more per further press | reload leaves exactly one observer marker, like the four satellite entries it replaces | medium; not executed | Display.ReloadAsWritten, Display.ReloadLeaksObserver, Display.RunAsWritten, Display.ObserversPileUp | Display.Reload, Display.Step, Display.Run, Display.FourEntriesOneObserver |
