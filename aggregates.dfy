/**
  The four result tables of the dashboard, computed on the filtered tables:
  top winning teams (app.py line 109), top six hitters (line 124), top
  wicket takers (line 140) and matches per season (line 156).
*/
module Aggregates {
  import opened Seqs
  import opened Order
  import opened Tables
  import opened Ranking
  import opened Filters

  /** The cut-off of the three ranked tables (`head(10)`). */
  const TopLimit: nat := 10

  function WonBy(team: string): Match -> bool {
    (m: Match) => m.winningTeam == Some(team)
  }

  function HitSix(batter: string): Delivery -> bool {
    (d: Delivery) => d.batter == batter && d.batsmanRun == 6
  }

  function TookWicket(bowler: string): Delivery -> bool {
    (d: Delivery) => d.bowler == bowler && d.isWicketDelivery
  }

  function PlayedIn(season: int): Match -> bool {
    (m: Match) => m.season == season
  }

  /** Matches of `df` won by `team`. */
  function Wins(df: seq<Match>, team: string): nat {
    |Filter(df, WonBy(team))|
  }

  /** Deliveries of `balls` on which `batter` scored six off the bat. */
  function Sixes(balls: seq<Delivery>, batter: string): nat {
    |Filter(balls, HitSix(batter))|
  }

  /** Wicket deliveries of `balls` bowled by `bowler`. */
  function Wickets(balls: seq<Delivery>, bowler: string): nat {
    |Filter(balls, TookWicket(bowler))|
  }

  /** Matches of `df` played in `season`. */
  function MatchesIn(df: seq<Match>, season: int): nat {
    |Filter(df, PlayedIn(season))|
  }

  /** Counting a team in the `WinningTeam` column counts its wins. */
  lemma WinsCounted(df: seq<Match>)
    ensures forall t :: Count(Project(df, WinnerOf), t) == Wins(df, t)
  {
    forall t ensures Count(Project(df, WinnerOf), t) == Wins(df, t) {
      CountProject(df, WinnerOf, t);
      FilterSameMask(df, KeyIs(WinnerOf, t), WonBy(t));
    }
  }

  lemma SixesCounted(balls: seq<Delivery>)
    ensures forall b :: Count(Project(balls, SixHitterOf), b) == Sixes(balls, b)
  {
    forall b ensures Count(Project(balls, SixHitterOf), b) == Sixes(balls, b) {
      CountProject(balls, SixHitterOf, b);
      FilterSameMask(balls, KeyIs(SixHitterOf, b), HitSix(b));
    }
  }

  lemma WicketsCounted(balls: seq<Delivery>)
    ensures forall b :: Count(Project(balls, WicketTakerOf), b) == Wickets(balls, b)
  {
    forall b ensures Count(Project(balls, WicketTakerOf), b) == Wickets(balls, b) {
      CountProject(balls, WicketTakerOf, b);
      FilterSameMask(balls, KeyIs(WicketTakerOf, b), TookWicket(b));
    }
  }

  lemma SeasonMatchesCounted(df: seq<Match>)
    ensures forall s :: Count(Project(df, SeasonOf), s) == MatchesIn(df, s)
  {
    forall s ensures Count(Project(df, SeasonOf), s) == MatchesIn(df, s) {
      CountProject(df, SeasonOf, s);
      FilterSameMask(df, KeyIs(SeasonOf, s), PlayedIn(s));
    }
  }

  lemma SameScore<K(!new)>(r: seq<Entry<K>>, labels: seq<K>, f: K -> nat, g: K -> nat, n: nat)
    requires IsTopN(r, labels, f, n) && forall k :: f(k) == g(k)
    ensures IsTopN(r, labels, g, n)
  {
  }

  /** In a top-n table of a column by its own counts, every label occurs in
      the column, hence with a positive count. */
  lemma TopRowsOccur<K(!new)>(r: seq<Entry<K>>, w: seq<K>, n: nat)
    requires IsTopN(r, w, k => Count(w, k), n)
    ensures forall i :: 0 <= i < |r| ==> r[i].key in w && r[i].count > 0
  {
    forall i | 0 <= i < |r| ensures r[i].key in w && r[i].count > 0 {
      assert r[i].count == Count(w, r[i].key);
    }
  }

  /** Line 109: `WinningTeam.value_counts().head(10)`. Matches without a
      winner are not counted. */
  function TopWinningTeams(df: seq<Match>): (r: seq<Entry<string>>)
    ensures IsTopN(r, Project(df, WinnerOf), t => Wins(df, t), TopLimit)
    ensures forall i :: 0 <= i < |r| ==> r[i].count > 0
    ensures forall i :: 0 <= i < |r| ==> exists m :: m in df && m.winningTeam == Some(r[i].key)
  {
    var w := Project(df, WinnerOf);
    var r := TopCounts(w, w, TopLimit);
    assert forall i :: 0 <= i < |r| ==> r[i].key in w && r[i].count > 0 by {
      TopRowsOccur(r, w, TopLimit);
    }
    assert IsTopN(r, w, t => Wins(df, t), TopLimit) by {
      WinsCounted(df);
      SameScore(r, w, k => Count(w, k), t => Wins(df, t), TopLimit);
    }
    r
  }

  /** Line 124: per batter of the filtered deliveries the number of balls
      with `batsman_run == 6`, sorted descending, first 10. Every batter
      present is a candidate, so batters without a six can appear. */
  function TopSixHitters(balls: seq<Delivery>): (r: seq<Entry<string>>)
    ensures IsTopN(r, Project(balls, BatterOf), b => Sixes(balls, b), TopLimit)
    ensures forall i :: 0 <= i < |r| ==> exists d :: d in balls && d.batter == r[i].key
  {
    var six := Project(balls, SixHitterOf);
    var r := TopCounts(Project(balls, BatterOf), six, TopLimit);
    assert IsTopN(r, Project(balls, BatterOf), b => Sixes(balls, b), TopLimit) by {
      SixesCounted(balls);
      SameScore(r, Project(balls, BatterOf), k => Count(six, k), b => Sixes(balls, b), TopLimit);
    }
    r
  }

  /** Line 140: `bowler.value_counts().head(10)` over the wicket deliveries. */
  function TopWicketTakers(balls: seq<Delivery>): (r: seq<Entry<string>>)
    ensures IsTopN(r, Project(balls, WicketTakerOf), b => Wickets(balls, b), TopLimit)
    ensures forall i :: 0 <= i < |r| ==> r[i].count > 0
    ensures forall i :: 0 <= i < |r| ==>
      exists d :: d in balls && d.isWicketDelivery && d.bowler == r[i].key
  {
    var w := Project(balls, WicketTakerOf);
    var r := TopCounts(w, w, TopLimit);
    assert forall i :: 0 <= i < |r| ==> r[i].key in w && r[i].count > 0 by {
      TopRowsOccur(r, w, TopLimit);
    }
    forall i | 0 <= i < |r| ensures exists d :: d in balls && d.isWicketDelivery && d.bowler == r[i].key {
      var d :| d in balls && WicketTakerOf(d) == Some(r[i].key);
      assert d.isWicketDelivery && d.bowler == r[i].key;
    }
    assert IsTopN(r, w, b => Wickets(balls, b), TopLimit) by {
      WicketsCounted(balls);
      SameScore(r, w, k => Count(w, k), b => Wickets(balls, b), TopLimit);
    }
    r
  }

  /** Line 156: `Season.value_counts().sort_index()`: one row per season
      present, in ascending season order, with its number of matches; the
      counts add up to the number of matches. */
  function MatchesPerSeason(df: seq<Match>): (r: seq<Entry<int>>)
    ensures forall i, j :: 0 <= i < j < |r| ==> r[i].key < r[j].key
    ensures forall s :: s in Keys(r) <==> exists m :: m in df && m.season == s
    ensures forall i :: 0 <= i < |r| ==> r[i].count == MatchesIn(df, r[i].key) && r[i].count > 0
    ensures Total(r) == |df|
  {
    IntLessIsStrictOrder();
    var ks := SortedSet(Project(df, SeasonOf), IntLess);
    PerSeasonKeys(df, ks);
    PerSeasonCounts(df, ks);
    Tally(ks, Project(df, SeasonOf))
  }

  lemma PerSeasonKeys(df: seq<Match>, ks: seq<int>)
    requires StrictlySorted(ks, IntLess) && forall s :: s in ks <==> s in Project(df, SeasonOf)
    ensures var r := Tally(ks, Project(df, SeasonOf));
      && (forall i, j :: 0 <= i < j < |r| ==> r[i].key < r[j].key)
      && (forall s :: s in Keys(r) <==> exists m :: m in df && m.season == s)
  {
    var r := Tally(ks, Project(df, SeasonOf));
    assert Keys(r) == ks;
    forall s ensures s in Project(df, SeasonOf) <==> exists m :: m in df && m.season == s {
      assert forall m :: SeasonOf(m) == Some(s) <==> m.season == s;
    }
  }

  lemma PerSeasonCounts(df: seq<Match>, ks: seq<int>)
    requires StrictlySorted(ks, IntLess) && forall s :: s in ks <==> s in Project(df, SeasonOf)
    ensures var r := Tally(ks, Project(df, SeasonOf));
      && (forall i :: 0 <= i < |r| ==> r[i].count == MatchesIn(df, r[i].key) && r[i].count > 0)
      && Total(r) == |df|
  {
    var seasons := Project(df, SeasonOf);
    assert NoDup(ks);
    TallyTotal(ks, seasons);
    ProjectLength(df, SeasonOf);
    SeasonMatchesCounted(df);
    var r := Tally(ks, seasons);
    forall i | 0 <= i < |r| ensures r[i].count == MatchesIn(df, r[i].key) && r[i].count > 0 {
      assert ks[i] in ks;
      assert ks[i] in Project(df, SeasonOf);
      assert r[i].count == Count(seasons, ks[i]);
    }
  }

  /** The four tables the dashboard draws. */
  datatype Report = Report(
    topWins: seq<Entry<string>>,
    topSixes: seq<Entry<string>>,
    topWickets: seq<Entry<string>>,
    perSeason: seq<Entry<int>>)

  /** Filters, then the four aggregates on the filtered tables. */
  function Dashboard(matches: seq<Match>, balls: seq<Delivery>, sel: Selection): (r: Report)
    ensures |r.topWins| <= TopLimit && |r.topSixes| <= TopLimit && |r.topWickets| <= TopLimit
  {
    var v := ApplyFilters(matches, balls, sel);
    Report(TopWinningTeams(v.matches), TopSixHitters(v.balls), TopWicketTakers(v.balls), MatchesPerSeason(v.matches))
  }

  /** No season chosen: all four tables are empty. */
  lemma NoSeasonsEmptyReport(matches: seq<Match>, balls: seq<Delivery>, sel: Selection)
    requires sel.seasons == {}
    ensures Dashboard(matches, balls, sel) == Report([], [], [], [])
  {
    NoSeasonsNoRows(matches, balls, sel);
  }

  /** Every season of the per-season table is a chosen season, and its counts
      add up to the number of surviving matches. */
  lemma PerSeasonWithinSelection(matches: seq<Match>, balls: seq<Delivery>, sel: Selection)
    ensures var r := Dashboard(matches, balls, sel).perSeason;
      && (forall i :: 0 <= i < |r| ==> r[i].key in sel.seasons)
      && Total(r) == |ApplyFilters(matches, balls, sel).matches|
  {
    var v := ApplyFilters(matches, balls, sel);
    var r := MatchesPerSeason(v.matches);
    SeasonSelected(matches, balls, sel);
    forall i | 0 <= i < |r| ensures r[i].key in sel.seasons {
      assert r[i].key in Keys(r);
    }
  }

  /** All seasons, "All Teams" and "All Players" on consistent tables give the
      aggregates of the unfiltered tables. */
  lemma IdentityReport(matches: seq<Match>, balls: seq<Delivery>, sel: Selection)
    requires Consistent(matches, balls)
    requires forall m :: m in matches ==> m.season in sel.seasons
    requires sel.team == PickLists.AllTeams && sel.player == PickLists.AllPlayers
    ensures Dashboard(matches, balls, sel)
         == Report(TopWinningTeams(matches), TopSixHitters(balls), TopWicketTakers(balls), MatchesPerSeason(matches))
  {
    IdentitySelection(matches, balls, sel);
  }
}
