/** The generated roster and the registry seeded from it (simulator/model.go, simulator/registry.go). */
module Roster {
  import opened Validation
  import opened ChargingModel
  import opened Naming

  datatype City = City(code: string, name: string, lat: real, lon: real)

  /** What one round of the roster loop draws. */
  datatype SiteDraw = SiteDraw(city: City, operatorId: string, latJitter: real, lonJitter: real, ratings: seq<nat>)

  datatype Site = Site(st: Station, ratings: seq<(real, bool)>)

  /** pickConnectorRating: rating and whether it is DC. */
  function RatingOf(draw: nat): (real, bool) {
    if draw < 3 then (22.0, false)
    else if draw < 6 then (50.0, true)
    else if draw < 8 then (150.0, true)
    else (350.0, true)
  }

  function Ratings(draws: seq<nat>): (r: seq<(real, bool)>)
    ensures |r| == |draws|
    ensures forall i | 0 <= i < |r| :: 22.0 <= r[i].0 <= 350.0
  {
    seq(|draws|, i requires 0 <= i < |draws| => RatingOf(draws[i]))
  }

  /** How many of the first draws picked this city code. */
  function Uses(draws: seq<SiteDraw>, code: string): nat {
    if draws == [] then 0
    else Uses(draws[..|draws| - 1], code) + (if draws[|draws| - 1].city.code == code then 1 else 0)
  }

  function SiteFor(d: SiteDraw, number: nat): Site {
    Site(Station(StationId(d.city.code, number), d.operatorId, d.city.name, "TR",
                 d.city.lat + d.latJitter, d.city.lon + d.lonJitter),
         Ratings(d.ratings))
  }

  /** Site `i` carries the number of times its city has been picked so far. */
  function NumberAt(draws: seq<SiteDraw>, i: nat): nat
    requires i < |draws|
  {
    Uses(draws[..i], draws[i].city.code) + 1
  }

  predicate BuiltFrom(sites: seq<Site>, draws: seq<SiteDraw>) {
    |sites| == |draws| && forall i | 0 <= i < |sites| :: sites[i] == SiteFor(draws[i], NumberAt(draws, i))
  }

  predicate DistinctIds(sites: seq<Site>) {
    forall i, j | 0 <= i < j < |sites| :: sites[i].st.id != sites[j].st.id
  }

  /** The roster loop with its per-city counters; ids never repeat, whatever the city codes are. */
  method BuildStations(draws: seq<SiteDraw>) returns (sites: seq<Site>)
    ensures BuiltFrom(sites, draws)
    ensures DistinctIds(sites)
  {
    var perCity: map<string, nat> := map[];
    ghost var all := seq(|draws|, i requires 0 <= i < |draws| => SiteFor(draws[i], NumberAt(draws, i)));
    sites := [];
    for i := 0 to |draws|
      invariant Counts(perCity, draws[..i])
      invariant sites == all[..i]
    {
      var code := draws[i].city.code;
      var number := CountOf(perCity, code) + 1;
      CountsSnoc(perCity, draws, i);
      perCity := perCity[code := number];
      sites := sites + [SiteFor(draws[i], number)];
    }
    NumbersNeverRepeat(sites, draws);
  }

  function CountOf(perCity: map<string, nat>, code: string): nat {
    if code in perCity then perCity[code] else 0
  }

  /** The counters agree with the picks so far. */
  ghost predicate Counts(perCity: map<string, nat>, draws: seq<SiteDraw>) {
    forall code :: CountOf(perCity, code) == Uses(draws, code)
  }

  lemma {:induction false} CountsSnoc(perCity: map<string, nat>, draws: seq<SiteDraw>, i: nat)
    requires i < |draws| && Counts(perCity, draws[..i])
    ensures var code := draws[i].city.code;
            Counts(perCity[code := CountOf(perCity, code) + 1], draws[..i + 1])
  {
    assert draws[..i + 1][..i] == draws[..i];
    var code := draws[i].city.code;
    var after := perCity[code := CountOf(perCity, code) + 1];
    forall c
      ensures CountOf(after, c) == Uses(draws[..i + 1], c)
    {
      assert CountOf(perCity, c) == Uses(draws[..i], c);
    }
  }

  /** The positions among the first `n` picks that picked this city code. */
  function PicksOf(draws: seq<SiteDraw>, code: string, n: nat): set<nat>
    requires n <= |draws|
  {
    set i: nat | i < n && draws[i].city.code == code
  }

  /** A site's number counts the picks of its city up to and including its own. */
  lemma {:induction false} NumbersCountPicks(draws: seq<SiteDraw>, i: nat)
    requires i < |draws|
    ensures NumberAt(draws, i) == |PicksOf(draws, draws[i].city.code, i + 1)|
  {
    var code := draws[i].city.code;
    UsesCountPicks(draws, code, i);
    assert PicksOf(draws, code, i + 1) == PicksOf(draws, code, i) + {i};
  }

  lemma {:induction false} UsesCountPicks(draws: seq<SiteDraw>, code: string, n: nat)
    requires n <= |draws|
    ensures Uses(draws[..n], code) == |PicksOf(draws, code, n)|
  {
    if n == 0 {
      assert PicksOf(draws, code, 0) == {};
    } else {
      UsesCountPicks(draws, code, n - 1);
      assert draws[..n][..n - 1] == draws[..n - 1];
      assert PicksOf(draws, code, n)
             == PicksOf(draws, code, n - 1) + if draws[n - 1].city.code == code then {n - 1} else {};
    }
  }

  lemma {:induction false} UsesGrow(draws: seq<SiteDraw>, i: nat, j: nat)
    requires i < j <= |draws|
    ensures Uses(draws[..i], draws[i].city.code) < Uses(draws[..j], draws[i].city.code)
    decreases j
  {
    assert draws[..j][..j - 1] == draws[..j - 1];
    if i < j - 1 {
      UsesGrow(draws, i, j - 1);
    }
  }

  lemma {:induction false} IdOf(sites: seq<Site>, draws: seq<SiteDraw>, i: nat)
    requires BuiltFrom(sites, draws) && i < |sites|
    ensures sites[i].st.id == StationId(draws[i].city.code, Uses(draws[..i], draws[i].city.code) + 1)
  {
  }

  lemma {:induction false} IdsDiffer(c: string, m: nat, d: string, n: nat)
    requires c == d ==> m < n
    ensures StationId(c, m) != StationId(d, n)
  {
    if StationId(c, m) == StationId(d, n) {
      StationIdInjective(c, m, d, n);
    }
  }

  lemma {:induction false} NumbersNeverRepeat(sites: seq<Site>, draws: seq<SiteDraw>)
    requires BuiltFrom(sites, draws)
    ensures DistinctIds(sites)
  {
    forall i, j | 0 <= i < j < |sites|
      ensures sites[i].st.id != sites[j].st.id
    {
      IdOf(sites, draws, i);
      IdOf(sites, draws, j);
      UsesGrow(draws, i, j);
      IdsDiffer(draws[i].city.code, Uses(draws[..i], draws[i].city.code) + 1,
                draws[j].city.code, Uses(draws[..j], draws[j].city.code) + 1);
    }
  }

  // ---------------------------------------------------------------------------------------
  // The registry
  // ---------------------------------------------------------------------------------------

  function Meta(site: Site): StationMeta {
    StationMeta(|site.ratings|, site.st.operatorId, site.st.city, site.st.country, site.st.lat, site.st.lon)
  }

  function SeededStations(sites: seq<Site>): map<string, StationMeta> {
    if sites == [] then map[]
    else SeededStations(sites[..|sites| - 1])[sites[|sites| - 1].st.id := Meta(sites[|sites| - 1])]
  }

  function SeededTariffs(): set<string> {
    set i | 0 <= i < |CATALOG| :: CATALOG[i].id
  }

  /** What the processor's registry holds after the simulator seeded it. */
  function Seeded(sites: seq<Site>): View {
    View(SeededStations(sites), SeededTariffs())
  }

  /** With distinct ids every station finds its own row. */
  lemma {:induction false} SeededKnows(sites: seq<Site>, i: nat)
    requires DistinctIds(sites) && i < |sites|
    ensures sites[i].st.id in SeededStations(sites) && SeededStations(sites)[sites[i].st.id] == Meta(sites[i])
  {
    var n := |sites| - 1;
    if i < n {
      SeededKnows(sites[..n], i);
    }
  }
}
