/**
 The four tracked satellites, the substrings their catalog lookups accept,
 and the startup sequence that resolves each of them from its fetched
 catalog text, in order, aborting on the first failure.
 */
module Fleet {
  import opened Text
  import opened Catalog

  datatype Sat = Iss | Noaa | Tianmu | Meteor

  /** Tracking order: the order satellites are looked up and rendered, and
      the list the hover handler indexes. */
  const Tracked: seq<Sat> := [Iss, Noaa, Tianmu, Meteor]

  /** The name-line substrings each `get_tle_*` function accepts. */
  function Targets(sat: Sat): seq<string>
  {
    match sat
    case Iss => ["ISS (ZARYA)"]
    case Noaa => ["NOAA 15"]
    case Tianmu => ["TIANMU-1 14"]
    case Meteor => ["METEOR-M 2 4", "METEOR-M2 4"]
  }

  /** `get_tle_iss`, `get_tle_noaa`, `get_tle_tianmu`, `get_tle_meteor` on the
      text the fetch returned. */
  function GetTle(sat: Sat, text: string): (r: Outcome)
    ensures r.Found? ==> exists j :: 0 <= j < |Targets(sat)| && Contains(r.name, Targets(sat)[j])
    ensures r.NotFound? <==> NoMatchFrom(CatalogLines(text), Targets(sat), 0)
  {
    LookupText(text, Targets(sat))
  }

  /** The METEOR lookup accepts either spelling: when one spelling is on no
      name line, it is the lookup for the other, and it fails exactly when
      both are absent. */
  lemma MeteorEitherSpelling(text: string)
    ensures LookupText(text, ["METEOR-M 2 4"]).NotFound? ==> GetTle(Meteor, text) == LookupText(text, ["METEOR-M2 4"])
    ensures LookupText(text, ["METEOR-M2 4"]).NotFound? ==> GetTle(Meteor, text) == LookupText(text, ["METEOR-M 2 4"])
    ensures GetTle(Meteor, text).NotFound? <==>
              LookupText(text, ["METEOR-M 2 4"]).NotFound? && LookupText(text, ["METEOR-M2 4"]).NotFound?
  {
    var lines, a, b := CatalogLines(text), ["METEOR-M 2 4"], ["METEOR-M2 4"];
    assert Targets(Meteor) == a + b;
    assert GetTle(Meteor, text) == Lookup(lines, a + b);
    UnionWithAbsent(lines, a, b);
  }

  /** Example: on this six-line catalog, whose second block is NOAA 15,
      the NOAA lookup yields that block verbatim. */
  lemma NoaaInSecondBlock(lines: seq<string>)
    requires lines == ["GOES 16", "1 41866U", "2 41866", "NOAA 15", "1 25338U", "2 25338"]
    ensures Lookup(lines, Targets(Noaa)) == Found("NOAA 15", "1 25338U", "2 25338")
  {
    var t := Targets(Noaa);
    assert t == ["NOAA 15"];
    NoaaLacking(lines[0]);
    assert !Matches(lines[0], t);
    assert StartsWith(lines[3], t[0]) by {
      assert lines[3][..7] == lines[3];
    }
    assert Matches(lines[3], t);
    assert Scan(lines, t, 3) == RecordAt(lines, 3);
    assert Lookup(lines, t) == Scan(lines, t, 3);
  }

  lemma NoaaLacking(line: string)
    requires line == "GOES 16"
    ensures !Contains(line, "NOAA 15")
  {
    assert line[0] != "NOAA 15"[0];
    assert line[..7] != "NOAA 15";
    ShortLineLacks(line[1..], "NOAA 15");
  }

  /** Example: this catalog ends right after the ISS name line and its
      first element line, so the lookup fails instead of returning a
      partial record. */
  lemma IssCutShort(lines: seq<string>)
    requires lines == ["ISS (ZARYA)", "1 25544U"]
    ensures Lookup(lines, Targets(Iss)) == Truncated
  {
  }

  /** A two-line-element set as the script returns it: name, line 1, line 2. */
  datatype Tle = Tle(name: string, line1: string, line2: string)

  /** Startup either resolves every satellite or stops at the first lookup
      that fails, with that lookup's outcome. */
  datatype Loaded = Loaded(tles: seq<Tle>) | Aborted(sat: Sat, outcome: Outcome)

  /** Stop at the first lookup outcome that is not a record; `outcomes[i]`
      is the lookup of `sats[i]`. */
  function Collect(sats: seq<Sat>, outcomes: seq<Outcome>): (r: Loaded)
    requires |outcomes| == |sats|
    ensures r.Loaded? <==> forall i :: 0 <= i < |sats| ==> outcomes[i].Found?
    ensures r.Loaded? ==> |r.tles| == |sats|
    ensures r.Loaded? ==> forall i :: 0 <= i < |sats| ==>
              r.tles[i] == Tle(outcomes[i].name, outcomes[i].line1, outcomes[i].line2)
    ensures r.Aborted? ==> exists k :: FirstFailure(sats, outcomes, k) && r == Aborted(sats[k], outcomes[k])
    decreases |sats|
  {
    if |sats| == 0 then Loaded([])
    else
      var o := outcomes[0];
      if !o.Found? then
        assert FirstFailure(sats, outcomes, 0);
        Aborted(sats[0], o)
      else
        match Collect(sats[1..], outcomes[1..])
        case Loaded(rest) => Loaded([Tle(o.name, o.line1, o.line2)] + rest)
        case Aborted(s, e) =>
          assert forall k :: FirstFailure(sats[1..], outcomes[1..], k) ==> FirstFailure(sats, outcomes, k + 1);
          Aborted(s, e)
  }

  /** `k` is the first position whose lookup failed. */
  ghost predicate FirstFailure(sats: seq<Sat>, outcomes: seq<Outcome>, k: int)
  {
    && 0 <= k < |sats| == |outcomes|
    && !outcomes[k].Found?
    && forall i :: 0 <= i < k ==> outcomes[i].Found?
  }

  /** Resolve `sats` in order, `texts[i]` being the catalog fetched for `sats[i]`. */
  function LoadAll(sats: seq<Sat>, texts: seq<string>): (r: Loaded)
    requires |texts| == |sats|
    ensures r.Loaded? <==> forall i :: 0 <= i < |sats| ==> GetTle(sats[i], texts[i]).Found?
    ensures r.Loaded? ==> |r.tles| == |sats|
    ensures r.Loaded? ==> forall i :: 0 <= i < |sats| ==>
              r.tles[i] == Tle(GetTle(sats[i], texts[i]).name, GetTle(sats[i], texts[i]).line1, GetTle(sats[i], texts[i]).line2)
    ensures r.Aborted? ==>
              exists k :: FirstFailure(sats, Lookups(sats, texts), k) && r == Aborted(sats[k], GetTle(sats[k], texts[k]))
  {
    Collect(sats, Lookups(sats, texts))
  }

  function Lookups(sats: seq<Sat>, texts: seq<string>): (r: seq<Outcome>)
    requires |texts| == |sats|
    ensures |r| == |sats|
    ensures forall i :: 0 <= i < |sats| ==> r[i] == GetTle(sats[i], texts[i])
  {
    seq(|sats|, i requires 0 <= i < |sats| => GetTle(sats[i], texts[i]))
  }

  /** Module start-up: the four lookups, one fetched catalog text each. */
  function Startup(texts: seq<string>): (r: Loaded)
    requires |texts| == |Tracked|
    ensures r.Loaded? ==> |r.tles| == |Tracked|
    ensures r.Aborted? ==> r.sat in Tracked && !r.outcome.Found?
    ensures r.Aborted? && r.sat != Iss ==> GetTle(Iss, texts[0]).Found?
  {
    LoadAll(Tracked, texts)
  }
}
