/**
 Record lookup in a CelesTrak catalog: the text is a run of three-line
 NORAD element sets (a name line, then element lines 1 and 2). The lookup
 walks the name lines at indices 0, 3, 6, ... and returns the first record
 whose name line contains one of the target substrings.
 */
module Catalog {
  import opened Text

  /** Outcome of a lookup. `NotFound` is the script's `ValueError`;
      `Truncated` is the `IndexError` raised when the matching name line has
      fewer than two lines after it. */
  datatype Outcome = Found(name: string, line1: string, line2: string) | NotFound | Truncated

  /** A name line is accepted when it contains any of the target substrings. */
  predicate Matches(line: string, targets: seq<string>)
  {
    exists j :: 0 <= j < |targets| && Contains(line, targets[j])
  }

  /** No name line at a stride position from `i` on is accepted. */
  ghost predicate NoMatchFrom(lines: seq<string>, targets: seq<string>, i: nat)
  {
    forall j :: i <= j < |lines| && j % 3 == 0 ==> !Matches(lines[j], targets)
  }

  /** `k` is the first stride position at or after `i` whose name line is accepted. */
  ghost predicate FirstFrom(lines: seq<string>, targets: seq<string>, i: nat, k: int)
  {
    && i <= k < |lines|
    && k % 3 == 0
    && Matches(lines[k], targets)
    && forall j :: i <= j < k && j % 3 == 0 ==> !Matches(lines[j], targets)
  }

  ghost predicate IsFirstMatch(lines: seq<string>, targets: seq<string>, k: int)
  {
    FirstFrom(lines, targets, 0, k)
  }

  /** What the script returns once it has settled on the name line at `k`:
      the three lines verbatim, or an index error if the block is cut short. */
  function RecordAt(lines: seq<string>, k: nat): Outcome
    requires k < |lines|
  {
    if k + 2 < |lines| then Found(lines[k], lines[k + 1], lines[k + 2]) else Truncated
  }

  /** The `range(0, len(lines), 3)` walk, resumed at stride position `i`. */
  function Scan(lines: seq<string>, targets: seq<string>, i: nat): (r: Outcome)
    requires i % 3 == 0
    ensures r.NotFound? <==> NoMatchFrom(lines, targets, i)
    ensures forall k :: FirstFrom(lines, targets, i, k) ==> r == RecordAt(lines, k)
    ensures !r.NotFound? ==> exists k :: FirstFrom(lines, targets, i, k) && r == RecordAt(lines, k)
    decreases |lines| - i
  {
    if i >= |lines| then NotFound
    else if Matches(lines[i], targets) then
      assert FirstFrom(lines, targets, i, i);
      RecordAt(lines, i)
    else
      var r := Scan(lines, targets, i + 3);
      StrideStep(i);
      assert NoMatchFrom(lines, targets, i) <==> NoMatchFrom(lines, targets, i + 3);
      assert forall k :: FirstFrom(lines, targets, i, k) <==> FirstFrom(lines, targets, i + 3, k);
      r
  }

  /** Stride positions after `i` start at `i + 3`. */
  lemma StrideStep(i: nat)
    requires i % 3 == 0
    ensures forall j :: i < j < i + 3 ==> j % 3 != 0
  {
  }

  /** The catalog scan shared by the four `get_tle_*` functions. */
  function Lookup(lines: seq<string>, targets: seq<string>): (r: Outcome)
    ensures r.NotFound? <==> NoMatchFrom(lines, targets, 0)
    ensures forall k :: IsFirstMatch(lines, targets, k) ==> r == RecordAt(lines, k)
    ensures !r.NotFound? ==> exists k :: IsFirstMatch(lines, targets, k) && r == RecordAt(lines, k)
    ensures r.Found? ==> Matches(r.name, targets)
  {
    Scan(lines, targets, 0)
  }

  /** The catalog text as the script normalises it: `text.strip().split("\n")`. */
  function CatalogLines(text: string): (r: seq<string>)
    ensures |r| >= 1
    ensures forall k :: 0 <= k < |r| ==> '\n' !in r[k]
    ensures Join(r, '\n') == Strip(text)
  {
    JoinSplit(Strip(text), '\n');
    Split(Strip(text), '\n')
  }

  /** Fetch-free form of a `get_tle_*` function: lookup on the fetched text. */
  function LookupText(text: string, targets: seq<string>): (r: Outcome)
    ensures r.Found? ==> Matches(r.name, targets) && '\n' !in r.name && '\n' !in r.line1 && '\n' !in r.line2
    ensures r.NotFound? <==> NoMatchFrom(CatalogLines(text), targets, 0)
  {
    Lookup(CatalogLines(text), targets)
  }

  // ---------------------------------------------------------------------
  // Properties of the lookup

  /** Only name lines are tested: two catalogs that agree on every line at
      a stride position, and have the same length, give the same outcome
      kind and the same name; a target on an element line is never seen. */
  lemma ElementLinesIgnored(a: seq<string>, b: seq<string>, targets: seq<string>)
    requires |a| == |b|
    requires forall j :: 0 <= j < |a| && j % 3 == 0 ==> a[j] == b[j]
    ensures Lookup(a, targets).NotFound? == Lookup(b, targets).NotFound?
    ensures Lookup(a, targets).Truncated? == Lookup(b, targets).Truncated?
    ensures Lookup(a, targets).Found? == Lookup(b, targets).Found?
    ensures Lookup(a, targets).Found? ==> Lookup(a, targets).name == Lookup(b, targets).name
  {
  }

  /** Accepting any of `t1 + t2` is accepting some of `t1` or some of `t2`. */
  lemma MatchesConcat(line: string, t1: seq<string>, t2: seq<string>)
    ensures Matches(line, t1 + t2) <==> Matches(line, t1) || Matches(line, t2)
  {
    if Matches(line, t1 + t2) {
      var j :| 0 <= j < |t1 + t2| && Contains(line, (t1 + t2)[j]);
      if j >= |t1| {
        assert t2[j - |t1|] == (t1 + t2)[j];
      }
    }
    if Matches(line, t1) {
      var j :| 0 <= j < |t1| && Contains(line, t1[j]);
      assert (t1 + t2)[j] == t1[j];
    }
    if Matches(line, t2) {
      var j :| 0 <= j < |t2| && Contains(line, t2[j]);
      assert (t1 + t2)[|t1| + j] == t2[j];
    }
  }

  /** With a list of acceptable spellings, the first accepted name line is
      the earlier of the first lines accepted by either part of the list. */
  lemma FirstMatchOfUnion(lines: seq<string>, t1: seq<string>, t2: seq<string>, k: int)
    ensures IsFirstMatch(lines, t1 + t2, k) <==>
              || (IsFirstMatch(lines, t1, k) && NoMatchBefore(lines, t2, k))
              || (IsFirstMatch(lines, t2, k) && NoMatchBefore(lines, t1, k))
  {
    forall j | 0 <= j < |lines| {
      MatchesConcat(lines[j], t1, t2);
    }
  }

  ghost predicate NoMatchBefore(lines: seq<string>, targets: seq<string>, k: int)
  {
    forall j :: 0 <= j < k && j < |lines| && j % 3 == 0 ==> !Matches(lines[j], targets)
  }

  /** When no name line carries a spelling from one part of the list, the
      other part alone decides the lookup. */
  lemma UnionWithAbsent(lines: seq<string>, t1: seq<string>, t2: seq<string>)
    ensures Lookup(lines, t1).NotFound? ==> Lookup(lines, t1 + t2) == Lookup(lines, t2)
    ensures Lookup(lines, t2).NotFound? ==> Lookup(lines, t1 + t2) == Lookup(lines, t1)
    ensures Lookup(lines, t1 + t2).NotFound? <==> Lookup(lines, t1).NotFound? && Lookup(lines, t2).NotFound?
  {
    forall j | 0 <= j < |lines| {
      MatchesConcat(lines[j], t1, t2);
    }
    var r1, r2 := Lookup(lines, t1), Lookup(lines, t2);
    if r1.NotFound? && !r2.NotFound? {
      var k :| IsFirstMatch(lines, t2, k) && r2 == RecordAt(lines, k);
      assert IsFirstMatch(lines, t1 + t2, k);
    }
    if r2.NotFound? && !r1.NotFound? {
      var k :| IsFirstMatch(lines, t1, k) && r1 == RecordAt(lines, k);
      assert IsFirstMatch(lines, t1 + t2, k);
    }
  }

  /** When the first block is not accepted and the second is, the lookup
      returns the second block's three lines verbatim. */
  lemma SecondBlock(lines: seq<string>, targets: seq<string>)
    requires |lines| >= 6
    requires !Matches(lines[0], targets) && Matches(lines[3], targets)
    ensures Lookup(lines, targets) == Found(lines[3], lines[4], lines[5])
  {
    StrideStep(0);
    assert IsFirstMatch(lines, targets, 3);
  }

  /** When the first accepted name line has fewer than two lines after it,
      the lookup fails with the index error, whatever later lines hold. */
  lemma FirstMatchCutShort(lines: seq<string>, targets: seq<string>, k: int)
    requires IsFirstMatch(lines, targets, k)
    requires k + 2 >= |lines|
    ensures Lookup(lines, targets) == Truncated
  {
  }

  /** An empty or whitespace-only catalog has one empty line, which matches
      no non-empty target. */
  lemma BlankCatalogNotFound(text: string, targets: seq<string>)
    requires AllSpace(text)
    requires forall j :: 0 <= j < |targets| ==> |targets[j]| > 0
    ensures LookupText(text, targets) == NotFound
  {
  }
}
