/**
 The interactive map as visibility state: one entry per tracked satellite
 (a marker and an initially hidden dashed track), the fixed observer
 marker, and a tooltip. Pointer moves show the tracks of the markers under
 the pointer and point the tooltip at the last of them; the reload button
 removes every entry and draws four fresh ones in tracking order.

 Satellite markers, tracks and observer markers on the map axes are
 identified by number; `next` is the first number not yet handed out, so
 every newly drawn artist is distinct from every earlier one. Each marker's
 hit test is an input (`hits`), one boolean per entry.
 */
module Display {
  import opened Fleet

  /** A position in map coordinates (the event's `xdata`, `ydata`). */
  datatype Point = Point(x: real, y: real)

  /** What an artist on the map axes draws. */
  datatype Kind = Marker(sat: Sat) | Track(sat: Sat) | Observer

  /** One `{"scatter": ..., "path": ...}` entry of the `satellites` list. */
  datatype Entry = Entry(marker: nat, track: nat, trackVisible: bool)

  /** The entry whose satellite the tooltip text describes, if any yet. */
  datatype Owner = Nobody | Owner(index: nat)

  datatype Tooltip = Tooltip(visible: bool, owner: Owner, anchor: Point)

  datatype Screen = Screen(entries: seq<Entry>, tooltip: Tooltip, artists: map<nat, Kind>, next: nat)

  /** A pointer-move event: whether it is over the map axes, where, and each
      entry's marker hit test, in entry order. */
  datatype Pointer = Pointer(inAxes: bool, at: Point, hits: seq<bool>)

  /** The observer ("My Location") markers on the axes. */
  function Observers(artists: map<nat, Kind>): set<nat>
  {
    set id | id in artists && artists[id] == Observer
  }

  /** Entry `i` draws `sats[i]`: its marker and its track are on the axes. */
  predicate Shows(entries: seq<Entry>, sats: seq<Sat>, artists: map<nat, Kind>)
  {
    && |entries| == |sats|
    && forall i :: 0 <= i < |entries| ==>
         && entries[i].marker in artists && artists[entries[i].marker] == Marker(sats[i])
         && entries[i].track in artists && artists[entries[i].track] == Track(sats[i])
  }

  /** Every artist number in use is below `next`. */
  predicate Allocated(s: Screen)
  {
    && (forall id :: id in s.artists ==> id < s.next)
    && forall i :: 0 <= i < |s.entries| ==>
         && s.entries[i].marker in s.artists && s.artists[s.entries[i].marker].Marker?
         && s.entries[i].track in s.artists && s.artists[s.entries[i].track].Track?
  }

  /** The state the hover handler relies on: entry `i` belongs to
      `Tracked[i]`, and the tooltip owner indexes that list. */
  predicate Aligned(s: Screen)
  {
    && Allocated(s)
    && Shows(s.entries, Tracked, s.artists)
    && (s.tooltip.owner.Owner? ==> s.tooltip.owner.index < |Tracked|)
  }

  /** No stray satellite artists: every satellite marker or track in the
      artist map belongs to an entry, and the only other artists in it are
      observer markers. (The map background, the tooltip annotation and the
      legend are also on the axes but are not in the artist map.) */
  predicate Tidy(s: Screen)
  {
    s.artists.Keys == EntryArtists(s.entries) + Observers(s.artists)
  }

  // ---------------------------------------------------------------------
  // Drawing

  datatype Drawn = Drawn(entries: seq<Entry>, artists: map<nat, Kind>, next: nat)

  /** One marker and one hidden track per satellite, in the order given,
      added to `artists` with fresh numbers. */
  function DrawSatellites(sats: seq<Sat>, artists: map<nat, Kind>, next: nat): (r: Drawn)
    requires forall id :: id in artists ==> id < next
    ensures Shows(r.entries, sats, r.artists)
    ensures forall i :: 0 <= i < |r.entries| ==>
              !r.entries[i].trackVisible && next <= r.entries[i].marker && next <= r.entries[i].track
    ensures forall id :: id in artists ==> id in r.artists && r.artists[id] == artists[id]
    ensures r.next == next + 2 * |sats|
    ensures forall id :: id in r.artists ==> id in artists || next <= id < r.next
    decreases |sats|
  {
    if |sats| == 0 then Drawn([], artists, next)
    else
      var drawn := DrawOne(sats[0], artists, next);
      var rest := DrawSatellites(sats[1..], drawn, next + 2);
      var entries := [Entry(next, next + 1, false)] + rest.entries;
      ShowsCons(Entry(next, next + 1, false), rest.entries, sats[0], sats[1..], rest.artists);
      assert [sats[0]] + sats[1..] == sats;
      Drawn(entries, rest.artists, rest.next)
  }

  lemma ShowsCons(e: Entry, entries: seq<Entry>, sat: Sat, sats: seq<Sat>, artists: map<nat, Kind>)
    requires Shows(entries, sats, artists)
    requires e.marker in artists && artists[e.marker] == Marker(sat)
    requires e.track in artists && artists[e.track] == Track(sat)
    ensures Shows([e] + entries, [sat] + sats, artists)
  {
    assert forall i :: 1 <= i < |entries| + 1 ==> ([e] + entries)[i] == entries[i - 1] && ([sat] + sats)[i] == sats[i - 1];
  }

  lemma KeysUnion(a: set<nat>, b: set<nat>, c: set<nat>, x: set<nat>, y: set<nat>)
    requires b == a + x && c == b + y
    ensures c == a + (x + y)
  {
  }

  /** `ax.scatter(...)` and `ax.plot(...)` for one satellite: its marker
      numbered `next`, its track `next + 1`. */
  function DrawOne(sat: Sat, artists: map<nat, Kind>, next: nat): (r: map<nat, Kind>)
    requires forall id :: id in artists ==> id < next
    ensures forall id :: id in artists ==> id in r && r[id] == artists[id]
    ensures next in r && r[next] == Marker(sat) && next + 1 in r && r[next + 1] == Track(sat)
    ensures forall id :: id in r ==> id < next + 2 && (id in artists || next <= id)
    ensures Observers(r) == Observers(artists)
    ensures r.Keys == artists.Keys + {next, next + 1}
  {
    artists[next := Marker(sat)][next + 1 := Track(sat)]
  }

  /** A freshly drawn list of entries is allocated, whatever the tooltip. */
  lemma DrawnAllocated(sats: seq<Sat>, artists: map<nat, Kind>, next: nat, tip: Tooltip)
    requires forall id :: id in artists ==> id < next
    ensures var d := DrawSatellites(sats, artists, next);
            Allocated(Screen(d.entries, tip, d.artists, d.next))
  {
  }

  /** Drawing satellites adds exactly the new entries' markers and tracks
      to the axes. */
  lemma {:induction false} DrawnKeys(sats: seq<Sat>, artists: map<nat, Kind>, next: nat)
    requires forall id :: id in artists ==> id < next
    ensures var d := DrawSatellites(sats, artists, next);
            d.artists.Keys == artists.Keys + EntryArtists(d.entries)
    decreases |sats|
  {
    if |sats| > 0 {
      var drawn := DrawOne(sats[0], artists, next);
      var rest := DrawSatellites(sats[1..], drawn, next + 2);
      DrawnKeys(sats[1..], drawn, next + 2);
      EntryArtistsCons(Entry(next, next + 1, false), rest.entries);
      KeysUnion(artists.Keys, drawn.Keys, rest.artists.Keys, {next, next + 1}, EntryArtists(rest.entries));
    }
  }

  /** Drawing satellites adds no observer marker and removes none. */
  lemma {:induction false} DrawKeepsObservers(sats: seq<Sat>, artists: map<nat, Kind>, next: nat)
    requires forall id :: id in artists ==> id < next
    ensures Observers(DrawSatellites(sats, artists, next).artists) == Observers(artists)
    decreases |sats|
  {
    if |sats| > 0 {
      DrawKeepsObservers(sats[1..], DrawOne(sats[0], artists, next), next + 2);
    }
  }

  /** The map as first shown: the four satellites in tracking order, the
      observer marker, and an empty hidden tooltip at (0, 0). */
  function Initial(): (s: Screen)
    ensures Aligned(s) && Tidy(s)
    ensures |Observers(s.artists)| == 1
    ensures forall i :: 0 <= i < |s.entries| ==> !s.entries[i].trackVisible
    ensures !s.tooltip.visible && s.tooltip.owner == Nobody
  {
    StartTidy(Tracked);
    Start(Tracked)
  }

  /** Start-up drawing for any satellite list: one entry per satellite,
      then the observer marker. */
  function Start(sats: seq<Sat>): (s: Screen)
    ensures Allocated(s) && Shows(s.entries, sats, s.artists)
    ensures |Observers(s.artists)| == 1
    ensures forall i :: 0 <= i < |s.entries| ==> !s.entries[i].trackVisible
    ensures s.tooltip == Tooltip(false, Nobody, Point(0.0, 0.0))
  {
    var d := DrawSatellites(sats, map[], 0);
    var s0 := Screen(d.entries, Tooltip(false, Nobody, Point(0.0, 0.0)), d.artists, d.next);
    DrawnAllocated(sats, map[], 0, s0.tooltip);
    DrawKeepsObservers(sats, map[], 0);
    ObserverKeepsEntries(s0);
    assert Observers(map[]) == {};
    s0.(artists := PlaceObserver(d.artists, d.next), next := d.next + 1)
  }

  /** At start-up the artist map holds the entries' markers and tracks and
      the observer marker only. */
  lemma StartTidy(sats: seq<Sat>)
    ensures Tidy(Start(sats))
  {
    var empty: map<nat, Kind> := map[];
    var d := DrawSatellites(sats, empty, 0);
    DrawnKeys(sats, empty, 0);
    DrawKeepsObservers(sats, empty, 0);
    assert Observers(empty) == {} && empty.Keys == {};
    ObserverTidy(d.entries, d.artists, d.next);
  }

  /** Plotting the observer onto a map that holds only entries and observers
      keeps it so. */
  lemma ObserverTidy(entries: seq<Entry>, artists: map<nat, Kind>, next: nat)
    requires forall id :: id in artists ==> id < next
    requires artists.Keys == EntryArtists(entries) + Observers(artists)
    ensures var r := PlaceObserver(artists, next);
            r.Keys == EntryArtists(entries) + Observers(r)
  {
  }

  /** `ax.scatter(x_my, y_my, ...)`: one more observer marker, numbered `next`. */
  function PlaceObserver(artists: map<nat, Kind>, next: nat): (r: map<nat, Kind>)
    requires forall id :: id in artists ==> id < next
    ensures Observers(r) == Observers(artists) + {next} && next !in Observers(artists)
    ensures |Observers(r)| == |Observers(artists)| + 1
    ensures forall id :: id in artists ==> id in r && r[id] == artists[id]
    ensures forall id :: id in r ==> id in artists || id == next
    ensures r.Keys == artists.Keys + {next}
  {
    var r := artists[next := Observer];
    assert r.Keys == artists.Keys + {next};
    assert Observers(r) == Observers(artists) + {next};
    r
  }

  // ---------------------------------------------------------------------
  // Hover

  /** `k` is the last entry whose marker is hit. */
  ghost predicate LastHit(hits: seq<bool>, k: int)
  {
    0 <= k < |hits| && hits[k] && forall j :: k < j < |hits| ==> !hits[j]
  }

  ghost predicate AnyHit(hits: seq<bool>)
  {
    exists i :: 0 <= i < |hits| && hits[i]
  }

  datatype Sweep = Sweep(entries: seq<Entry>, tooltip: Tooltip, show: bool)

  /** The handler's loop over the entries from index `i` on: each track
      takes its marker's hit result, and every hit re-points the tooltip. */
  function HoverLoop(es: seq<Entry>, hits: seq<bool>, at: Point, i: nat, tip: Tooltip, show: bool): (r: Sweep)
    requires |hits| == |es| && i <= |es|
    ensures |r.entries| == |es|
    ensures forall k :: 0 <= k < i ==> r.entries[k] == es[k]
    ensures forall k :: i <= k < |es| ==> r.entries[k] == es[k].(trackVisible := hits[k])
    ensures r.show <==> show || exists k :: i <= k < |es| && hits[k]
    ensures forall k :: i <= k && LastHit(hits, k) ==> r.tooltip == Tooltip(true, Owner(k), at)
    ensures (forall k :: i <= k < |hits| ==> !hits[k]) ==> r.tooltip == tip
    decreases |es| - i
  {
    if i == |es| then Sweep(es, tip, show)
    else
      var es' := es[i := es[i].(trackVisible := hits[i])];
      if hits[i] then HoverLoop(es', hits, at, i + 1, Tooltip(true, Owner(i), at), true)
      else HoverLoop(es', hits, at, i + 1, tip, show)
  }

  /** The pointer-move handler. Outside the map axes it does nothing. */
  function Hover(s: Screen, p: Pointer): (r: Screen)
    requires |p.hits| == |s.entries|
    ensures !p.inAxes ==> r == s
    ensures r.artists == s.artists && r.next == s.next
    ensures p.inAxes ==> |r.entries| == |s.entries|
    ensures p.inAxes ==> forall i :: 0 <= i < |s.entries| ==>
              r.entries[i].trackVisible == p.hits[i]
              && r.entries[i].marker == s.entries[i].marker && r.entries[i].track == s.entries[i].track
    ensures p.inAxes ==> (r.tooltip.visible <==> AnyHit(p.hits))
    ensures p.inAxes ==> forall k :: LastHit(p.hits, k) ==> r.tooltip.owner == Owner(k) && r.tooltip.anchor == p.at
    ensures p.inAxes && !AnyHit(p.hits) ==>
              r.tooltip.owner == s.tooltip.owner && r.tooltip.anchor == s.tooltip.anchor
  {
    if !p.inAxes then s
    else
      var sw := HoverLoop(s.entries, p.hits, p.at, 0, s.tooltip, false);
      var tip := if sw.show then sw.tooltip else sw.tooltip.(visible := false);
      LastHitExists(p.hits);
      s.(entries := sw.entries, tooltip := tip)
  }

  /** A hit vector with a hit has a last hit. */
  lemma {:induction false} LastHitExists(hits: seq<bool>)
    ensures AnyHit(hits) ==> exists k :: LastHit(hits, k)
    decreases |hits|
  {
    if !AnyHit(hits) {
    } else if hits[|hits| - 1] {
      assert LastHit(hits, |hits| - 1);
    } else {
      var i :| 0 <= i < |hits| && hits[i];
      var front := hits[..|hits| - 1];
      assert front[i] == hits[i];
      LastHitExists(front);
      var k :| LastHit(front, k);
      assert LastHit(hits, k);
    }
  }

  /** Handling the same pointer event twice is handling it once. */
  lemma HoverIdempotent(s: Screen, p: Pointer)
    requires |p.hits| == |s.entries|
    ensures Hover(Hover(s, p), p) == Hover(s, p)
  {
    var r := Hover(s, p);
    var r2 := Hover(r, p);
    if p.inAxes {
      if AnyHit(p.hits) {
        LastHitExists(p.hits);
      }
      assert r2.entries == r.entries;
    }
  }

  /** A pointer over exactly one marker shows exactly that satellite's track
      and points the tooltip at it. */
  lemma HoverSingleHit(s: Screen, p: Pointer, k: nat)
    requires |p.hits| == |s.entries|
    requires p.inAxes
    requires k < |p.hits| && forall i :: 0 <= i < |p.hits| ==> (p.hits[i] <==> i == k)
    ensures forall i :: 0 <= i < |s.entries| ==> (Hover(s, p).entries[i].trackVisible <==> i == k)
    ensures Hover(s, p).tooltip.visible && Hover(s, p).tooltip.owner == Owner(k)
  {
    assert LastHit(p.hits, k);
  }

  /** A pointer over no marker hides every track and the tooltip. */
  lemma HoverNoHit(s: Screen, p: Pointer)
    requires |p.hits| == |s.entries|
    requires p.inAxes
    requires forall i :: 0 <= i < |p.hits| ==> !p.hits[i]
    ensures forall i :: 0 <= i < |s.entries| ==> !Hover(s, p).entries[i].trackVisible
    ensures !Hover(s, p).tooltip.visible
  {
  }

  /** Hover keeps entries and tracked satellites aligned, and the tooltip
      names the satellite whose marker was hit last: the marker of entry
      `owner` draws `Tracked[owner]`, the satellite `on_hover` looks up. */
  lemma HoverKeepsAlignment(s: Screen, p: Pointer)
    requires Aligned(s)
    requires |p.hits| == |s.entries|
    ensures Aligned(Hover(s, p))
    ensures p.inAxes && AnyHit(p.hits) ==>
              var r := Hover(s, p);
              && r.tooltip.owner.Owner?
              && r.tooltip.owner.index < |Tracked|
              && p.hits[r.tooltip.owner.index]
              && r.artists[r.entries[r.tooltip.owner.index].marker] == Marker(Tracked[r.tooltip.owner.index])
  {
    if p.inAxes && AnyHit(p.hits) {
      LastHitExists(p.hits);
    }
  }

  // ---------------------------------------------------------------------
  // Reload

  /** The numbers of every entry's marker and track. */
  function EntryArtists(entries: seq<Entry>): (r: set<nat>)
    ensures forall i :: 0 <= i < |entries| ==> entries[i].marker in r && entries[i].track in r
    ensures forall id :: id in r ==> exists i :: 0 <= i < |entries| && (id == entries[i].marker || id == entries[i].track)
  {
    (set e | e in entries :: e.marker) + (set e | e in entries :: e.track)
  }

  lemma EntryArtistsCons(e: Entry, entries: seq<Entry>)
    ensures EntryArtists([e] + entries) == {e.marker, e.track} + EntryArtists(entries)
  {
    assert forall x :: x in [e] + entries <==> x == e || x in entries;
  }

  /** Entries with the same markers and tracks, whatever their visibility,
      hold the same artists. */
  lemma SameEntryArtists(a: seq<Entry>, b: seq<Entry>)
    requires |a| == |b|
    requires forall i :: 0 <= i < |a| ==> a[i].marker == b[i].marker && a[i].track == b[i].track
    ensures EntryArtists(a) == EntryArtists(b)
  {
  }

  /** An observer marker is never an entry's marker or track. */
  lemma ObserversOffEntries(s: Screen)
    requires Allocated(s)
    ensures Observers(s.artists) * EntryArtists(s.entries) == {}
  {
  }

  /** `sat["scatter"].remove()` and `sat["path"].remove()` for every entry. */
  function RemoveEntries(s: Screen): (r: map<nat, Kind>)
    requires Allocated(s)
    ensures forall i :: 0 <= i < |s.entries| ==> s.entries[i].marker !in r && s.entries[i].track !in r
    ensures forall id :: id in s.artists && id !in EntryArtists(s.entries) ==> id in r && r[id] == s.artists[id]
    ensures forall id :: id in r ==> id in s.artists && id < s.next
    ensures r.Keys == s.artists.Keys - EntryArtists(s.entries)
    ensures Observers(r) == Observers(s.artists)
  {
    var gone := EntryArtists(s.entries);
    var r := s.artists - gone;
    assert forall id :: id in gone ==> id in s.artists && !(s.artists[id] == Observer);
    r
  }

  /** The reload handler with the observer marker left in place (the
      corrected reload): remove every entry's marker and track, clear the
      list, and draw the four satellites again in tracking order. The
      tooltip and every artist that is not an entry's are left as they were. */
  function Reload(s: Screen): (r: Screen)
    requires Allocated(s)
    ensures Allocated(r)
    ensures Shows(r.entries, Tracked, r.artists)
    ensures forall i :: 0 <= i < |r.entries| ==> !r.entries[i].trackVisible
    ensures forall i :: 0 <= i < |s.entries| ==> s.entries[i].marker !in r.artists && s.entries[i].track !in r.artists
    ensures forall id :: id in s.artists && id !in EntryArtists(s.entries) ==> id in r.artists && r.artists[id] == s.artists[id]
    ensures forall id :: id in r.artists ==> id in s.artists || s.next <= id
    ensures r.artists.Keys == (s.artists.Keys - EntryArtists(s.entries)) + EntryArtists(r.entries)
    ensures r.tooltip == s.tooltip
    ensures Observers(r.artists) == Observers(s.artists)
    ensures s.next <= r.next
  {
    var kept := RemoveEntries(s);
    var d := DrawSatellites(Tracked, kept, s.next);
    DrawKeepsObservers(Tracked, kept, s.next);
    DrawnAllocated(Tracked, kept, s.next, s.tooltip);
    DrawnKeys(Tracked, kept, s.next);
    Screen(d.entries, s.tooltip, d.artists, d.next)
  }

  /** The reload handler as written: `Reload`, then the observer marker is
      plotted again, and the one drawn before is never removed. */
  function ReloadAsWritten(s: Screen): (r: Screen)
    requires Allocated(s)
    ensures Allocated(r) && Shows(r.entries, Tracked, r.artists)
    ensures forall i :: 0 <= i < |r.entries| ==> !r.entries[i].trackVisible
    ensures forall i :: 0 <= i < |s.entries| ==> s.entries[i].marker !in r.artists && s.entries[i].track !in r.artists
    ensures forall id :: id in s.artists && id !in EntryArtists(s.entries) ==> id in r.artists && r.artists[id] == s.artists[id]
    ensures r.tooltip == s.tooltip
    ensures exists id :: NewObserver(s, r, id)
    ensures |Observers(r.artists)| == |Observers(s.artists)| + 1
  {
    var d := Reload(s);
    ObserverKeepsEntries(d);
    var r := d.(artists := PlaceObserver(d.artists, d.next), next := d.next + 1);
    assert NewObserver(s, r, d.next);
    r
  }

  /** `r` is `s` after a reload that also plotted observer marker `id`:
      `id` is a new number, the observers are the old ones plus `id`, and
      the artists are the old ones minus the old entries, plus the new
      entries and `id`. */
  ghost predicate NewObserver(s: Screen, r: Screen, id: nat)
  {
    && id !in s.artists
    && id !in EntryArtists(r.entries)
    && Observers(r.artists) == Observers(s.artists) + {id}
    && r.artists.Keys == (s.artists.Keys - EntryArtists(s.entries)) + EntryArtists(r.entries) + {id}
  }

  lemma ObserverKeepsEntries(d: Screen)
    requires Allocated(d)
    ensures Allocated(d.(artists := PlaceObserver(d.artists, d.next), next := d.next + 1))
    ensures forall sats :: Shows(d.entries, sats, d.artists) ==>
              Shows(d.entries, sats, PlaceObserver(d.artists, d.next))
  {
  }

  /** One reload after start-up leaves two observer markers on the map. */
  lemma ReloadLeaksObserver()
    ensures |Observers(Initial().artists)| == 1
    ensures |Observers(ReloadAsWritten(Initial()).artists)| == 2
  {
  }

  /** Reload leaves no stray satellite marker or track in the artist map,
      if there was none before. */
  lemma ReloadTidy(s: Screen)
    requires Allocated(s)
    ensures Tidy(s) ==> Tidy(Reload(s))
  {
    if Tidy(s) {
      var r := Reload(s);
      ObserversOffEntries(s);
      SetFrameKeep(EntryArtists(s.entries), Observers(s.artists), EntryArtists(r.entries),
                   r.artists.Keys, Observers(r.artists));
    }
  }

  /** So does the script's reload: the one artist it adds is an observer. */
  lemma ReloadAsWrittenTidy(s: Screen)
    requires Allocated(s)
    ensures Tidy(s) ==> Tidy(ReloadAsWritten(s))
  {
    if Tidy(s) {
      var w := ReloadAsWritten(s);
      var id :| NewObserver(s, w, id);
      ObserversOffEntries(s);
      SetFrame(EntryArtists(s.entries), Observers(s.artists), EntryArtists(w.entries), {id},
               w.artists.Keys, Observers(w.artists));
    }
  }

  /** `SetFrame` with no extra observers. It is stated separately because
      instantiating `SetFrame` with `extra := {}` makes the solver's set
      reasoning far more expensive at the call site. */
  lemma SetFrameKeep(oldEntries: set<nat>, observers: set<nat>, newEntries: set<nat>,
                     keys: set<nat>, observers': set<nat>)
    requires observers * oldEntries == {}
    requires keys == ((oldEntries + observers) - oldEntries) + newEntries
    requires observers' == observers
    ensures keys == newEntries + observers'
  {
    forall x | x in observers ensures x !in oldEntries {
      assert x in observers * oldEntries <==> x in oldEntries;
    }
    assert (oldEntries + observers) - oldEntries == observers;
  }

  /** Set algebra of a reload: remove the old entries from artists that are
      old entries and observers, add new entries and extra observers. */
  lemma SetFrame(oldEntries: set<nat>, observers: set<nat>, newEntries: set<nat>, extra: set<nat>,
                 keys: set<nat>, observers': set<nat>)
    requires observers * oldEntries == {}
    requires keys == ((oldEntries + observers) - oldEntries) + newEntries + extra
    requires observers' == observers + extra
    ensures keys == newEntries + observers'
  {
    forall x | x in observers ensures x !in oldEntries {
      assert x in observers * oldEntries <==> x in oldEntries;
    }
    assert (oldEntries + observers) - oldEntries == observers;
  }

  /** Hover adds and removes no artist, so it keeps the artist map tidy. */
  lemma HoverTidy(s: Screen, p: Pointer)
    requires |p.hits| == |s.entries|
    ensures Tidy(s) ==> Tidy(Hover(s, p))
  {
    if p.inAxes {
      SameEntryArtists(s.entries, Hover(s, p).entries);
    }
  }

  /** Reload preserves the alignment the hover handler relies on. */
  lemma ReloadKeepsAlignment(s: Screen)
    requires Aligned(s)
    ensures Aligned(Reload(s))
    ensures Aligned(ReloadAsWritten(s))
  {
  }

  // ---------------------------------------------------------------------
  // Event sequences

  datatype Event = Move(p: Pointer) | Click

  /** Hit vectors come one per entry: four, as four markers are drawn. */
  predicate WellFormed(events: seq<Event>)
  {
    forall i :: 0 <= i < |events| ==> events[i].Move? ==> |events[i].p.hits| == |Tracked|
  }

  lemma WellFormedTail(events: seq<Event>)
    requires |events| > 0 && WellFormed(events)
    ensures WellFormed(events[1..])
  {
  }

  /** One callback as the script handles it: a pointer move, or a click on
      the reload button, which plots one more observer marker. */
  function StepAsWritten(s: Screen, e: Event): (r: Screen)
    requires Aligned(s)
    requires e.Move? ==> |e.p.hits| == |s.entries|
    ensures Aligned(r)
    ensures Observers(s.artists) <= Observers(r.artists)
    ensures |Observers(r.artists)| == |Observers(s.artists)| + (if e.Click? then 1 else 0)
    ensures Tidy(s) ==> Tidy(r)
  {
    match e
    case Click =>
      ReloadKeepsAlignment(s);
      ReloadAsWrittenTidy(s);
      ReloadAsWritten(s)
    case Move(p) => HoverKeepsAlignment(s, p); HoverTidy(s, p); Hover(s, p)
  }

  /** The number of clicks on the reload button. */
  function Clicks(events: seq<Event>): (n: nat)
    ensures n <= |events|
    ensures n == 0 <==> forall i :: 0 <= i < |events| ==> events[i].Move?
  {
    if |events| == 0 then 0
    else (if events[0].Click? then 1 else 0) + Clicks(events[1..])
  }

  /** The script's event loop: every click adds one observer marker, and
      the entries stay aligned with the tracked list throughout. */
  function RunAsWritten(s: Screen, events: seq<Event>): (r: Screen)
    requires Aligned(s) && WellFormed(events)
    ensures Aligned(r)
    ensures |Observers(r.artists)| == |Observers(s.artists)| + Clicks(events)
    ensures Tidy(s) ==> Tidy(r)
    decreases |events|
  {
    if |events| == 0 then s
    else
      var s' := StepAsWritten(s, events[0]);
      WellFormedTail(events);
      RunAsWritten(s', events[1..])
  }

  /** From start-up, the script as written keeps four aligned entries but
      ends with one observer marker per reload plus the first one. */
  lemma ObserversPileUp(events: seq<Event>)
    requires WellFormed(events)
    ensures |RunAsWritten(Initial(), events).entries| == 4
    ensures |Observers(RunAsWritten(Initial(), events).artists)| == 1 + Clicks(events)
    ensures Tidy(RunAsWritten(Initial(), events))
  {
  }

  /** One callback with the corrected reload, which leaves the observer
      marker in place. */
  function Step(s: Screen, e: Event): (r: Screen)
    requires Aligned(s)
    requires e.Move? ==> |e.p.hits| == |s.entries|
    ensures Aligned(r)
    ensures Observers(r.artists) == Observers(s.artists)
    ensures Tidy(s) ==> Tidy(r)
  {
    match e
    case Click => ReloadKeepsAlignment(s); ReloadTidy(s); Reload(s)
    case Move(p) => HoverKeepsAlignment(s, p); HoverTidy(s, p); Hover(s, p)
  }

  /** The event loop, one callback at a time, with the corrected reload. */
  function Run(s: Screen, events: seq<Event>): (r: Screen)
    requires Aligned(s) && WellFormed(events)
    ensures Aligned(r)
    ensures Observers(r.artists) == Observers(s.artists)
    ensures Tidy(s) ==> Tidy(r)
    decreases |events|
  {
    if |events| == 0 then s
    else
      var s' := Step(s, events[0]);
      WellFormedTail(events);
      Run(s', events[1..])
  }

  /** From start-up, any sequence of moves and corrected reloads leaves
      exactly four satellite entries and one observer marker, and no
      satellite marker or track other than the entries'. */
  lemma FourEntriesOneObserver(events: seq<Event>)
    requires WellFormed(events)
    ensures |Run(Initial(), events).entries| == 4
    ensures |Observers(Run(Initial(), events).artists)| == 1
    ensures Run(Initial(), events).artists.Keys ==
              EntryArtists(Run(Initial(), events).entries) + Observers(Run(Initial(), events).artists)
  {
  }
}
