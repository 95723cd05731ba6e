/**
 The gate on appcast build numbers: floors derived from a calendar version, and the check that every
 dated item of the feed reaches the floor that applies to it.
 */
module Appcast {
  import opened Text

  /** A short version read as year.month.day and the rest after the day; anything else has no date. */
  datatype ShortVersion = Dated(year: nat, month: nat, day: nat, suffix: string) | Undated

  datatype Floors = Floors(dateKey: nat, legacyFloor: nat, laneFloor: nat, lane: nat)

  const LANE_BUILD_MIN: nat := 1_000_000_000
  const LANE_FLOOR_ADOPTION: nat := 20260227

  predicate IsDigit(c: char) {
    '0' <= c <= '9'
  }

  /** The value of the digits at the end of a text, if there are any. */
  function TrailingNumber(s: string): Option<nat> {
    if s == "" || !IsDigit(s[|s| - 1]) then None
    else
      var head := TrailingNumber(s[..|s| - 1]);
      var digit := (s[|s| - 1] - '0') as nat;
      Some((if head.Some? then head.value * 10 else 0) + digit)
  }

  function Min(a: nat, b: nat): nat {
    if a <= b then a else b
  }

  function Lane(suffix: string): nat {
    if suffix == "" then 90
    else if TrailingNumber(suffix).Some? then Min(TrailingNumber(suffix).value, 89)
    else 1
  }

  /** `sparkleBuildFloorsFromShortVersion`: year, two-digit month and day, and lane as decimal digits. */
  function FloorsOf(v: ShortVersion): Option<Floors> {
    if v.Undated? || !(1 <= v.month <= 12) || !(1 <= v.day <= 31) then None
    else
      var dateKey := v.year * 10000 + v.month * 100 + v.day;
      var lane := Lane(v.suffix);
      Some(Floors(dateKey, dateKey * 10, dateKey * 100 + lane, lane))
  }

  function CanonicalBuild(v: ShortVersion): Option<nat> {
    match FloorsOf(v) case None => None case Some(f) => Some(f.laneFloor)
  }

  datatype Item = Item(title: string, short: Option<ShortVersion>, build: Option<string>)

  datatype Error =
    | NoItems
    | MissingVersion(title: string)
    | NotNumeric(title: string, version: string)
    | BelowFloor(title: string, build: nat, floor: nat, laneFloor: bool)

  predicate Numeric(s: string) {
    s != "" && forall i :: 0 <= i < |s| ==> IsDigit(s[i])
  }

  datatype Calver = Calver(title: string, build: nat, floors: Floors)

  /** The dated item of a feed item, if it has a numeric build and a calendar version. */
  function CalverOf(item: Item): Option<Calver> {
    if item.build.None? || !Numeric(item.build.value) || item.short.None? then None
    else
      match FloorsOf(item.short.value)
      case None => None
      case Some(f) =>
        var n := TrailingNumber(item.build.value);
        Some(Calver(item.title, if n.Some? then n.value else 0, f))
  }

  function VersionError(item: Item): Option<Error> {
    if item.build.None? || item.build.value == "" then Some(MissingVersion(item.title))
    else if !Numeric(item.build.value) then Some(NotNumeric(item.title, item.build.value))
    else None
  }

  function VersionErrors(items: seq<Item>): seq<Error> {
    if items == [] then []
    else
      var e := VersionError(items[|items| - 1]);
      VersionErrors(items[..|items| - 1]) + (if e.Some? then [e.value] else [])
  }

  function CalverItems(items: seq<Item>): seq<Calver> {
    if items == [] then []
    else
      var c := CalverOf(items[|items| - 1]);
      CalverItems(items[..|items| - 1]) + (if c.Some? then [c.value] else [])
  }

  /** The earliest date with a build in the lane range, or the fixed adoption date if that is earlier. */
  function Adoption(items: seq<Calver>): nat {
    if items == [] then LANE_FLOOR_ADOPTION
    else
      var last := items[|items| - 1];
      var rest := Adoption(items[..|items| - 1]);
      if last.build >= LANE_BUILD_MIN then Min(last.floors.dateKey, rest) else rest
  }

  predicate ExpectsLaneFloor(c: Calver, adoption: nat) {
    c.build >= LANE_BUILD_MIN || c.floors.dateKey >= adoption
  }

  function FloorFor(c: Calver, adoption: nat): nat {
    if ExpectsLaneFloor(c, adoption) then c.floors.laneFloor else c.floors.legacyFloor
  }

  function FloorErrors(items: seq<Calver>, adoption: nat): seq<Error> {
    if items == [] then []
    else
      var c := items[|items| - 1];
      FloorErrors(items[..|items| - 1], adoption)
      + (if c.build < FloorFor(c, adoption) then [BelowFloor(c.title, c.build, FloorFor(c, adoption), ExpectsLaneFloor(c, adoption))] else [])
  }

  function Errors(items: seq<Item>): seq<Error> {
    (if items == [] then [NoItems] else []) + VersionErrors(items)
    + FloorErrors(CalverItems(items), Adoption(CalverItems(items)))
  }

  lemma OnlyGoodBuilds(item: Item)
    ensures VersionError(item).Some? ==> CalverOf(item).None?
  {
  }

  lemma FeedStep(items: seq<Item>, i: nat)
    requires i < |items|
    ensures var e := VersionError(items[i]);
      VersionErrors(items[..i + 1]) == VersionErrors(items[..i]) + (if e.Some? then [e.value] else [])
    ensures var c := CalverOf(items[i]);
      CalverItems(items[..i + 1]) == CalverItems(items[..i]) + (if c.Some? then [c.value] else [])
  {
    hide VersionError, CalverOf;
    assert items[..i + 1][..i] == items[..i];
  }

  lemma FloorStep(items: seq<Calver>, i: nat, adoption: nat)
    requires i < |items|
    ensures var c := items[i];
      FloorErrors(items[..i + 1], adoption) == FloorErrors(items[..i], adoption)
        + (if c.build < FloorFor(c, adoption) then [BelowFloor(c.title, c.build, FloorFor(c, adoption), ExpectsLaneFloor(c, adoption))] else [])
  {
    hide FloorFor, ExpectsLaneFloor;
    assert items[..i + 1][..i] == items[..i];
  }

  method CollectAppcastSparkleVersionErrors(items: seq<Item>) returns (errors: seq<Error>)
    ensures errors == Errors(items)
  {
    hide FloorsOf, TrailingNumber, Adoption, CalverOf, Numeric;
    errors := [];
    var calverItems: seq<Calver> := [];
    if |items| == 0 {
      errors := errors + [NoItems];
    }
    ghost var none := errors;
    for i := 0 to |items|
      invariant errors == none + VersionErrors(items[..i])
      invariant calverItems == CalverItems(items[..i])
    {
      hide VersionErrors, CalverItems;
      var item := items[i];
      FeedStep(items, i);
      OnlyGoodBuilds(item);
      if item.build == None || item.build.value == "" {
        errors := errors + [MissingVersion(item.title)];
        continue;
      }
      if !Numeric(item.build.value) {
        errors := errors + [NotNumeric(item.title, item.build.value)];
        continue;
      }
      var c := CalverOf(item);
      if c == None {
        continue;
      }
      calverItems := calverItems + [c.value];
    }
    assert items[..|items|] == items;
    var below := CollectFloorErrors(calverItems);
    errors := errors + below;
  }

  /** The second loop. */
  method CollectFloorErrors(calverItems: seq<Calver>) returns (errors: seq<Error>)
    ensures errors == FloorErrors(calverItems, Adoption(calverItems))
  {
    errors := [];
    var adoption := Adoption(calverItems);
    for i := 0 to |calverItems|
      invariant errors == FloorErrors(calverItems[..i], adoption)
    {
      hide FloorErrors;
      var item := calverItems[i];
      FloorStep(calverItems, i, adoption);
      var expectLaneFloor := item.build >= LANE_BUILD_MIN || item.floors.dateKey >= adoption;
      var floor := if expectLaneFloor then item.floors.laneFloor else item.floors.legacyFloor;
      if item.build < floor {
        errors := errors + [BelowFloor(item.title, item.build, floor, expectLaneFloor)];
      }
    }
    assert calverItems[..|calverItems|] == calverItems;
  }

  // ---- acceptance ----

  predicate Accepted(items: seq<Item>) {
    Errors(items) == []
  }

  ghost predicate Passes(c: Calver, adoption: nat) {
    c.build >= FloorFor(c, adoption)
  }

  lemma {:induction false} NoVersionErrors(items: seq<Item>)
    ensures VersionErrors(items) == [] <==> forall x :: x in items ==> VersionError(x) == None
    decreases |items|
  {
    if items != [] {
      var n := |items| - 1;
      assert items == items[..n] + [items[n]];
      NoVersionErrors(items[..n]);
      var e := if VersionError(items[n]).Some? then 1 else 0;
      assert |VersionErrors(items)| == |VersionErrors(items[..n])| + e;
    }
  }

  lemma {:induction false} NoFloorErrors(items: seq<Calver>, adoption: nat)
    ensures FloorErrors(items, adoption) == [] <==> forall c :: c in items ==> Passes(c, adoption)
    decreases |items|
  {
    if items != [] {
      var n := |items| - 1;
      assert items == items[..n] + [items[n]];
      NoFloorErrors(items[..n], adoption);
      assert forall c :: c in items <==> c in items[..n] || c == items[n];
      var e := if items[n].build < FloorFor(items[n], adoption) then 1 else 0;
      assert |FloorErrors(items, adoption)| == |FloorErrors(items[..n], adoption)| + e;
      assert e == 0 <==> Passes(items[n], adoption);
      assert items[n] in items;
    }
  }

  lemma {:induction false} CalverItemsFrom(items: seq<Item>, c: Calver)
    ensures c in CalverItems(items) <==> exists x :: x in items && CalverOf(x) == Some(c)
    decreases |items|
  {
    if items != [] {
      var n := |items| - 1;
      assert items == items[..n] + [items[n]];
      CalverItemsFrom(items[..n], c);
      assert CalverOf(items[n]) == Some(c) ==> items[n] in items;
    }
  }

  /** The adoption date is at most the fixed one and every lane build's date, and it is one of those. */
  lemma {:induction false} AdoptionIsEarliest(items: seq<Calver>)
    ensures Adoption(items) <= 20260227
    ensures forall c :: c in items && c.build >= 1_000_000_000 ==> Adoption(items) <= c.floors.dateKey
    ensures Adoption(items) == 20260227
         || exists c :: c in items && c.build >= 1_000_000_000 && c.floors.dateKey == Adoption(items)
    decreases |items|
  {
    if items != [] {
      var n := |items| - 1;
      assert items == items[..n] + [items[n]];
      AdoptionIsEarliest(items[..n]);
    }
  }

  /** A feed is accepted exactly when it has items, all with numeric builds, and all dated ones pass. */
  lemma AcceptedExactly(items: seq<Item>)
    ensures Accepted(items) <==>
      && items != []
      && (forall x :: x in items ==> VersionError(x) == None)
      && (forall c :: c in CalverItems(items) ==> Passes(c, Adoption(CalverItems(items))))
  {
    NoVersionErrors(items);
    NoFloorErrors(CalverItems(items), Adoption(CalverItems(items)));
    assert |Errors(items)| == (if items == [] then 1 else 0) + |VersionErrors(items)|
      + |FloorErrors(CalverItems(items), Adoption(CalverItems(items)))|;
  }

  // ---- floors ----

  /** Lane floors order versions by date first and lane second, above the legacy floor of the same date. */
  lemma FloorsAreLexicographic(a: ShortVersion, b: ShortVersion)
    requires FloorsOf(a).Some? && FloorsOf(b).Some?
    ensures var f, g := FloorsOf(a).value, FloorsOf(b).value;
      && (f.laneFloor < g.laneFloor <==> f.dateKey < g.dateKey || (f.dateKey == g.dateKey && f.lane < g.lane))
      && (f.dateKey < g.dateKey <==>
            a.year < b.year || (a.year == b.year && (a.month < b.month || (a.month == b.month && a.day < b.day))))
      && f.legacyFloor <= f.laneFloor
      && (a.year >= 1000 ==> LANE_BUILD_MIN <= f.laneFloor)
      && (a.year <= 9999 ==> f.legacyFloor < LANE_BUILD_MIN)
  {
  }

  // ---- what acceptance promises ----

  ghost predicate FromYear1000(items: seq<Item>) {
    forall x :: x in items && x.short.Some? && x.short.value.Dated? ==> x.short.value.year >= 1000
  }

  lemma CalverFloors(items: seq<Item>, c: Calver)
    requires c in CalverItems(items) && FromYear1000(items)
    ensures LANE_BUILD_MIN <= c.floors.laneFloor
  {
  }

  /** An accepted feed splits at its adoption date: all builds before it are smaller than all on or after it. */
  lemma AcceptedFeedSplits(items: seq<Item>, c: Calver, d: Calver)
    requires Accepted(items) && FromYear1000(items)
    requires c in CalverItems(items) && d in CalverItems(items)
    requires c.floors.dateKey < Adoption(CalverItems(items)) <= d.floors.dateKey
    ensures c.build < LANE_BUILD_MIN <= d.build
  {
    AcceptedExactly(items);
    AdoptionIsEarliest(CalverItems(items));
    assert Passes(d, Adoption(CalverItems(items)));
    CalverFloors(items, d);
  }

  function Decimal(n: nat): string {
    (if n < 10 then "" else Decimal(n / 10)) + [(n % 10) as char + '0']
  }

  /** A build number that is printed and read again is the same number. */
  lemma {:induction false} DecimalReads(n: nat)
    ensures Numeric(Decimal(n)) && TrailingNumber(Decimal(n)) == Some(n)
  {
    var head := if n < 10 then "" else Decimal(n / 10);
    if n >= 10 { DecimalReads(n / 10); }
    AppendDigit(head, n % 10);
    assert Decimal(n) == head + [(n % 10) as char + '0'];
  }

  lemma AppendDigit(s: string, d: nat)
    requires d < 10
    ensures var v := TrailingNumber(s);
      TrailingNumber(s + [d as char + '0']) == Some((if v.Some? then v.value * 10 else 0) + d)
  {
    var t := s + [d as char + '0'];
    assert t[..|t| - 1] == s && t[|t| - 1] == d as char + '0';
  }

  /** A feed item with a version and a build number. */
  function Release(title: string, v: ShortVersion, build: nat): Item {
    Item(title, Some(v), Some(Decimal(build)))
  }

  lemma ReleaseCalver(title: string, v: ShortVersion, build: nat)
    requires FloorsOf(v).Some?
    ensures VersionError(Release(title, v, build)) == None
    ensures CalverOf(Release(title, v, build)) == Some(Calver(title, build, FloorsOf(v).value))
  {
    DecimalReads(build);
  }

  lemma ThreeCalvers(x: Item, y: Item, z: Item, a: Calver, b: Calver, c: Calver)
    requires CalverOf(x) == Some(a) && CalverOf(y) == Some(b) && CalverOf(z) == Some(c)
    ensures CalverItems([x, y, z]) == [a, b, c]
  {
    hide CalverOf;
    var items := [x, y, z];
    assert items[..2] == [x, y] && [x, y][..1] == [x] && [x][..0] == [];
    assert CalverItems([x]) == [a];
    assert CalverItems([x, y]) == [a, b];
  }

  lemma FirstIsAdoption(a: Calver, b: Calver, c: Calver)
    requires a.build >= LANE_BUILD_MIN > b.build && LANE_BUILD_MIN > c.build && a.floors.dateKey < LANE_FLOOR_ADOPTION
    ensures Adoption([a, b, c]) == a.floors.dateKey
  {
    AdoptionIsEarliest([a, b, c]);
    assert a in [a, b, c];
  }

  /** Floors of versions before the year 1000 stay below the lane range. */
  lemma EarlyFloors(v: ShortVersion)
    requires FloorsOf(v).Some? && v.year <= 999
    ensures var f := FloorsOf(v).value;
      f.laneFloor < 999_999_999 && f.legacyFloor < 999_999_999 && f.dateKey < LANE_FLOOR_ADOPTION
  {
    assert Lane(v.suffix) <= 90;
  }

  /** Two dated items with the versions, in an accepted feed that was adopted between their dates. */
  ghost predicate AcrossAdoption(items: seq<Item>, c: Calver, d: Calver, vc: ShortVersion, vd: ShortVersion) {
    && Accepted(items) && c in CalverItems(items) && d in CalverItems(items)
    && FloorsOf(vc) == Some(c.floors) && FloorsOf(vd) == Some(d.floors)
    && c.floors.dateKey < Adoption(CalverItems(items)) <= d.floors.dateKey
  }

  /** For a later version before the year 1000 an accepted feed of three items does not split. */
  lemma EarlyYearsNeedNotSplit(vc: ShortVersion, vd: ShortVersion)
    requires FloorsOf(vc).Some? && FloorsOf(vd).Some? && vd.year <= 999
    requires FloorsOf(vc).value.dateKey < FloorsOf(vd).value.dateKey
    ensures exists items, c, d :: AcrossAdoption(items, c, d, vc, vd) && c.build > d.build
  {
    hide FloorsOf, Release, CalverOf, VersionError, CalverItems, Adoption, Accepted;
    var f, g := FloorsOf(vc).value, FloorsOf(vd).value;
    EarlyFloors(vd);
    FloorsAreLexicographic(vc, vd);
    EarlyFloors(vc);
    var x, y, z := Release("a", vd, LANE_BUILD_MIN), Release("b", vd, g.laneFloor), Release("c", vc, 999_999_999);
    ReleaseCalver("a", vd, LANE_BUILD_MIN);
    ReleaseCalver("b", vd, g.laneFloor);
    ReleaseCalver("c", vc, 999_999_999);
    var lane, late, early := CalverOf(x).value, CalverOf(y).value, CalverOf(z).value;
    ThreeCalvers(x, y, z, lane, late, early);
    FirstIsAdoption(lane, late, early);
    AcceptedExactly([x, y, z]);
    assert early in [lane, late, early] && late in [lane, late, early];
    assert AcrossAdoption([x, y, z], early, late, vc, vd);
  }

  /**
   Every accepted feed adopted between the dates of two versions has the smaller build at the earlier one,
   exactly when the later one is of the year 1000 or after.
   */
  lemma SplitsExactly(vc: ShortVersion, vd: ShortVersion)
    requires FloorsOf(vc).Some? && FloorsOf(vd).Some?
    requires FloorsOf(vc).value.dateKey < FloorsOf(vd).value.dateKey
    ensures (forall items, c, d :: AcrossAdoption(items, c, d, vc, vd) ==> c.build < d.build) <==> vd.year >= 1000
  {
    if vd.year >= 1000 {
      forall items, c, d | AcrossAdoption(items, c, d, vc, vd) ensures c.build < d.build {
        AcceptedExactly(items);
        AdoptionIsEarliest(CalverItems(items));
        FloorsAreLexicographic(vc, vd);
        FloorsAreLexicographic(vd, vd);
        assert Passes(d, Adoption(CalverItems(items)));
      }
    } else {
      EarlyYearsNeedNotSplit(vc, vd);
    }
  }

  lemma CalverOfSome(c: Calver, x: Item)
    requires CalverOf(x) == Some(c)
    ensures c.floors.legacyFloor <= c.floors.laneFloor
  {
  }

  lemma SubfeedCalver(items: seq<Item>, some: seq<Item>, c: Calver)
    requires (forall x :: x in some ==> x in items) && c in CalverItems(some)
    ensures c in CalverItems(items) && c.floors.legacyFloor <= c.floors.laneFloor
  {
    CalverItemsFrom(some, c);
    CalverItemsFrom(items, c);
    var x :| x in some && CalverOf(x) == Some(c);
    CalverOfSome(c, x);
  }

  lemma PassesLater(c: Calver, adoption: nat, later: nat)
    requires Passes(c, adoption) && adoption <= later && c.floors.legacyFloor <= c.floors.laneFloor
    ensures Passes(c, later)
  {
  }

  lemma SubfeedPasses(items: seq<Item>, some: seq<Item>, c: Calver)
    requires (forall x :: x in some ==> x in items) && c in CalverItems(some)
    requires forall d :: d in CalverItems(items) ==> Passes(d, Adoption(CalverItems(items)))
    requires Adoption(CalverItems(items)) <= Adoption(CalverItems(some))
    ensures Passes(c, Adoption(CalverItems(some)))
  {
    SubfeedCalver(items, some, c);
    PassesLater(c, Adoption(CalverItems(items)), Adoption(CalverItems(some)));
  }

  lemma SubfeedAdoption(items: seq<Item>, some: seq<Item>)
    requires forall x :: x in some ==> x in items
    ensures Adoption(CalverItems(items)) <= Adoption(CalverItems(some))
  {
    forall c | c in CalverItems(some) ensures c in CalverItems(items) { SubfeedCalver(items, some, c); }
    LaterAdoption(CalverItems(items), CalverItems(some));
  }

  /** Taking items away from an accepted feed, but for the last one, leaves it accepted. */
  lemma SubfeedAccepted(items: seq<Item>, some: seq<Item>)
    requires Accepted(items) && some != [] && forall x :: x in some ==> x in items
    ensures Accepted(some)
  {
    AcceptedExactly(items);
    AcceptedExactly(some);
    SubfeedAdoption(items, some);
    forall c | c in CalverItems(some) ensures Passes(c, Adoption(CalverItems(some))) {
      SubfeedPasses(items, some, c);
    }
  }

  lemma LaterAdoption(all: seq<Calver>, part: seq<Calver>)
    requires forall c :: c in part && c.build >= LANE_BUILD_MIN ==> c in all
    ensures Adoption(all) <= Adoption(part)
  {
    AdoptionIsEarliest(all);
    AdoptionIsEarliest(part);
  }

  /** A release with its canonical build passes in every feed, wherever the adoption date lies. */
  lemma CanonicalBuildPasses(v: ShortVersion, title: string, adoption: nat)
    requires FloorsOf(v).Some?
    ensures Passes(Calver(title, CanonicalBuild(v).value, FloorsOf(v).value), adoption)
  {
  }

  /** Adding a release of a date from the adoption on, with its canonical build, keeps a feed accepted. */
  lemma CanonicalReleaseKeepsFeed(items: seq<Item>, item: Item)
    requires Accepted(items) && VersionError(item) == None && item.short.Some? && CalverOf(item).Some?
    requires Some(CalverOf(item).value.build) == CanonicalBuild(item.short.value)
    requires CalverOf(item).value.floors.dateKey >= Adoption(CalverItems(items))
    ensures Accepted(items + [item])
  {
  }

  // ---- versions in digits ----

  /** A number behind a text that does not end in a digit is the text's trailing number. */
  lemma {:induction false} TrailingAfter(p: string, n: nat)
    requires p == "" || !IsDigit(p[|p| - 1])
    ensures TrailingNumber(p + Decimal(n)) == Some(n)
    decreases n
  {
    var s := p + Decimal(n);
    var head := if n < 10 then p else p + Decimal(n / 10);
    assert s[..|s| - 1] == head;
    assert s[|s| - 1] == Decimal(n)[|Decimal(n)| - 1] == (n % 10) as char + '0';
    if n >= 10 { TrailingAfter(p, n / 10); }
  }

  /** A release without suffix is in lane 90, above all others; a suffix gives its number, at most 89, or else 1. */
  lemma LaneSays(p: string, n: nat)
    ensures Lane("") == 90
    ensures p != "" ==> Lane(p) <= 89
    ensures p != "" && !IsDigit(p[|p| - 1]) ==> Lane(p) == 1 && Lane(p + Decimal(n)) == if n <= 89 then n else 89
  {
    if p != "" && !IsDigit(p[|p| - 1]) { TrailingAfter(p, n); }
  }

  /** Two digits, with a leading zero where needed. */
  function TwoDigits(n: nat): string
    requires n < 100
  {
    [(n / 10) as char + '0', (n % 10) as char + '0']
  }

  lemma AppendTwo(s: string, v: nat, n: nat)
    requires TrailingNumber(s) == Some(v) && n < 100
    ensures TrailingNumber(s + TwoDigits(n)) == Some(v * 100 + n)
  {
    hide TrailingNumber;
    AppendDigit(s, n / 10);
    AppendDigit(s + [(n / 10) as char + '0'], n % 10);
    assert s + TwoDigits(n) == s + [(n / 10) as char + '0'] + [(n % 10) as char + '0'];
  }

  lemma AppendZero(s: string, v: nat)
    requires TrailingNumber(s) == Some(v)
    ensures TrailingNumber(s + "0") == Some(v * 10)
  {
    AppendDigit(s, 0);
  }

  lemma DateReads(year: nat, month: nat, day: nat)
    requires month < 100 && day < 100
    ensures TrailingNumber(Decimal(year) + TwoDigits(month) + TwoDigits(day)) == Some(year * 10000 + month * 100 + day)
  {
    hide TrailingNumber, Decimal, TwoDigits;
    DecimalReads(year);
    AppendTwo(Decimal(year), year, month);
    AppendTwo(Decimal(year) + TwoDigits(month), year * 100 + month, day);
  }

  lemma LaneBelow(suffix: string)
    ensures Lane(suffix) < 100
  {
  }

  /** The floors are the numbers written as year, two-digit month and day, and a zero or the two-digit lane. */
  lemma FloorsAreDecimal(v: ShortVersion)
    requires v.Dated? && 1 <= v.month <= 12 && 1 <= v.day <= 31
    ensures FloorsOf(v).Some?
    ensures var f := FloorsOf(v).value;
      var date := Decimal(v.year) + TwoDigits(v.month) + TwoDigits(v.day);
      && f.lane < 100 && f.lane == Lane(v.suffix) && CanonicalBuild(v) == Some(f.laneFloor)
      && TrailingNumber(date) == Some(f.dateKey)
      && TrailingNumber(date + "0") == Some(f.legacyFloor)
      && TrailingNumber(date + TwoDigits(f.lane)) == Some(f.laneFloor)
  {
    hide TrailingNumber, Decimal, TwoDigits, Lane;
    var date := Decimal(v.year) + TwoDigits(v.month) + TwoDigits(v.day);
    var f := FloorsOf(v).value;
    LaneBelow(v.suffix);
    DateReads(v.year, v.month, v.day);
    AppendTwo(date, f.dateKey, f.lane);
    AppendZero(date, f.dateKey);
  }

  lemma VersionWithoutDate(v: ShortVersion)
    requires v.Undated? || v.month < 1 || v.month > 12 || v.day < 1 || v.day > 31
    ensures FloorsOf(v).None? && CanonicalBuild(v).None?
  {
  }

  // ---- the errors one by one ----

  lemma {:induction false} VersionErrorsFrom(items: seq<Item>, e: Error)
    ensures e in VersionErrors(items) <==> exists x :: x in items && VersionError(x) == Some(e)
    decreases |items|
  {
    if items != [] {
      var n := |items| - 1;
      assert items == items[..n] + [items[n]];
      VersionErrorsFrom(items[..n], e);
      assert VersionError(items[n]) == Some(e) ==> items[n] in items;
    }
  }

  lemma {:induction false} FloorErrorsFrom(items: seq<Calver>, adoption: nat, e: Error)
    ensures e in FloorErrors(items, adoption) <==>
      exists c :: c in items && c.build < FloorFor(c, adoption)
        && e == BelowFloor(c.title, c.build, FloorFor(c, adoption), ExpectsLaneFloor(c, adoption))
    decreases |items|
  {
    if items != [] {
      var n := |items| - 1;
      assert items == items[..n] + [items[n]];
      FloorErrorsFrom(items[..n], adoption, e);
      assert items[n] in items;
    }
  }

  /** The feed has an item with the title and version text. */
  ghost predicate HasItem(items: seq<Item>, title: string, build: Option<string>) {
    exists x :: x in items && x.title == title && x.build == build
  }

  /** The feed has a dated item whose build misses the floor; for builds of the lane range or dates since the adoption that is the lane floor. */
  ghost predicate MissesFloor(items: seq<Item>, title: string, build: nat, floor: nat, lane: bool) {
    exists c :: c in CalverItems(items) && c.title == title && c.build == build && build < floor
      && floor == (if lane then c.floors.laneFloor else c.floors.legacyFloor)
      && (lane <==> build >= 1_000_000_000 || c.floors.dateKey >= Adoption(CalverItems(items)))
  }

  /** Which errors are reported, each with what it names. */
  lemma ErrorsExactly(items: seq<Item>, title: string, version: string, build: nat, floor: nat, lane: bool)
    ensures NoItems in Errors(items) <==> items == []
    ensures MissingVersion(title) in Errors(items) <==> HasItem(items, title, None) || HasItem(items, title, Some(""))
    ensures NotNumeric(title, version) in Errors(items) <==>
      version != "" && (exists i :: 0 <= i < |version| && !('0' <= version[i] <= '9')) && HasItem(items, title, Some(version))
    ensures BelowFloor(title, build, floor, lane) in Errors(items) <==> MissesFloor(items, title, build, floor, lane)
  {
    ErrorFrom(items, NoItems);
    ErrorFrom(items, MissingVersion(title));
    ErrorFrom(items, NotNumeric(title, version));
    ErrorFrom(items, BelowFloor(title, build, floor, lane));
    MissingFrom(items, title);
    NotNumericFrom(items, title, version);
    BelowFrom(items, title, build, floor, lane);
  }

  /** An error is of the feed, of an item's version, or of a dated item's floor. */
  lemma ErrorFrom(items: seq<Item>, e: Error)
    ensures e in Errors(items) <==> match e
      case NoItems => items == []
      case MissingVersion(_) => e in VersionErrors(items)
      case NotNumeric(_, _) => e in VersionErrors(items)
      case BelowFloor(_, _, _, _) => e in FloorErrors(CalverItems(items), Adoption(CalverItems(items)))
  {
    VersionErrorsFrom(items, e);
    FloorErrorsFrom(CalverItems(items), Adoption(CalverItems(items)), e);
  }

  lemma MissingFrom(items: seq<Item>, title: string)
    ensures MissingVersion(title) in VersionErrors(items) <==> HasItem(items, title, None) || HasItem(items, title, Some(""))
  {
    VersionErrorsFrom(items, MissingVersion(title));
  }

  lemma NotNumericFrom(items: seq<Item>, title: string, version: string)
    ensures NotNumeric(title, version) in VersionErrors(items) <==>
      version != "" && (exists i :: 0 <= i < |version| && !('0' <= version[i] <= '9')) && HasItem(items, title, Some(version))
  {
    VersionErrorsFrom(items, NotNumeric(title, version));
    assert Numeric(version) <==> version != "" && forall i :: 0 <= i < |version| ==> '0' <= version[i] <= '9';
  }

  lemma BelowFrom(items: seq<Item>, title: string, build: nat, floor: nat, lane: bool)
    ensures BelowFloor(title, build, floor, lane) in FloorErrors(CalverItems(items), Adoption(CalverItems(items))) <==>
      MissesFloor(items, title, build, floor, lane)
  {
    FloorErrorsFrom(CalverItems(items), Adoption(CalverItems(items)), BelowFloor(title, build, floor, lane));
  }
}
