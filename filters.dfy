/**
  The filter stage of the dashboard (app.py lines 79-89): the matches table
  is narrowed to the chosen seasons, deliveries to the surviving match IDs,
  then both optionally by team, and deliveries optionally by player. Each
  stage is a boolean-mask selection; later stages narrow the output of
  earlier ones.
*/
module Filters {
  import opened Seqs
  import opened Tables
  import opened PickLists

  /** The sidebar state: the chosen pick-list entries and season set. */
  datatype Selection = Selection(team: string, player: string, seasons: set<int>)

  /** The two filtered tables, `df` and `balls_filtered`. */
  datatype View = View(matches: seq<Match>, balls: seq<Delivery>)

  function InSeasons(seasons: set<int>): Match -> bool {
    (m: Match) => m.season in seasons
  }

  function InMatches(ids: set<int>): Delivery -> bool {
    (d: Delivery) => d.id in ids
  }

  /** The team is one of the two sides of the match. */
  function Plays(team: string): Match -> bool {
    (m: Match) => m.team1 == team || m.team2 == team
  }

  /** The team was batting when the ball was bowled. */
  function BatsFor(team: string): Delivery -> bool {
    (d: Delivery) => d.battingTeam == team
  }

  /** The player faced or bowled the ball. */
  function Involves(player: string): Delivery -> bool {
    (d: Delivery) => d.batter == player || d.bowler == player
  }

  /** Lines 79-80: matches of the chosen seasons, and the deliveries of those
      matches. */
  function SeasonStage(matches: seq<Match>, balls: seq<Delivery>, seasons: set<int>): (v: View)
    ensures forall m :: multiset(v.matches)[m] == if m.season in seasons then multiset(matches)[m] else 0
    ensures forall d ::
      multiset(v.balls)[d] == if exists m :: m in v.matches && m.id == d.id then multiset(balls)[d] else 0
    ensures IsSubsequence(v.matches, matches) && IsSubsequence(v.balls, balls)
    ensures seasons == {} ==> v == View([], [])
  {
    var df := Filter(matches, InSeasons(seasons));
    View(df, Filter(balls, InMatches(MatchIds(df))))
  }

  /** Lines 82-84: with a team chosen, the matches it played and the balls it
      batted; the deliveries it bowled are dropped. "All Teams" changes
      nothing. */
  function TeamStage(v: View, team: string): (r: View)
    ensures team == AllTeams ==> r == v
    ensures team != AllTeams ==>
      && (forall m :: multiset(r.matches)[m] ==
            if m.team1 == team || m.team2 == team then multiset(v.matches)[m] else 0)
      && (forall d :: multiset(r.balls)[d] == if d.battingTeam == team then multiset(v.balls)[d] else 0)
    ensures IsSubsequence(r.matches, v.matches) && IsSubsequence(r.balls, v.balls)
  {
    if team != AllTeams then View(Filter(v.matches, Plays(team)), Filter(v.balls, BatsFor(team)))
    else
      SubsequenceReflexive(v.matches);
      SubsequenceReflexive(v.balls);
      v
  }

  /** Lines 86-89: with a player chosen, the balls they faced or bowled, each
      kept once; the matches are untouched. "All Players" changes nothing. */
  function PlayerStage(v: View, player: string): (r: View)
    ensures r.matches == v.matches
    ensures player == AllPlayers ==> r == v
    ensures player != AllPlayers ==>
      forall d :: multiset(r.balls)[d] ==
        if d.batter == player || d.bowler == player then multiset(v.balls)[d] else 0
    ensures IsSubsequence(r.balls, v.balls)
  {
    if player != AllPlayers then View(v.matches, Filter(v.balls, Involves(player)))
    else
      SubsequenceReflexive(v.balls);
      v
  }

  /** The whole filter stage, lines 79-89, in the source's order. */
  function ApplyFilters(matches: seq<Match>, balls: seq<Delivery>, sel: Selection): (v: View)
    ensures IsSubsequence(v.matches, matches) && IsSubsequence(v.balls, balls)
  {
    var s := SeasonStage(matches, balls, sel.seasons);
    var t := TeamStage(s, sel.team);
    SubsequenceTransitive(t.matches, s.matches, matches);
    SubsequenceTransitive(t.balls, s.balls, balls);
    SubsequenceTransitive(PlayerStage(t, sel.player).balls, t.balls, balls);
    PlayerStage(t, sel.player)
  }

  /** A match survives exactly when it is of a chosen season and, with a team
      chosen, that team is one of its sides. */
  ghost predicate KeepsMatch(sel: Selection, m: Match) {
    && m.season in sel.seasons
    && (sel.team != AllTeams ==> m.team1 == sel.team || m.team2 == sel.team)
  }

  /** A delivery survives exactly when its match is of a chosen season, with a
      team chosen that team batted, and with a player chosen that player
      batted or bowled. Whether the chosen team played the match is not
      asked: the join on `ID` happens before the team filter. */
  ghost predicate KeepsDelivery(matches: seq<Match>, sel: Selection, d: Delivery) {
    && (exists m :: m in matches && m.season in sel.seasons && m.id == d.id)
    && (sel.team != AllTeams ==> d.battingTeam == sel.team)
    && (sel.player != AllPlayers ==> d.batter == sel.player || d.bowler == sel.player)
  }

  /** The filter stage keeps exactly the qualifying rows of each table, each
      as often as it occurs in the input, in input order. */
  lemma {:induction false} ApplyFiltersSelects(matches: seq<Match>, balls: seq<Delivery>, sel: Selection)
    ensures var v := ApplyFilters(matches, balls, sel);
      && (forall m :: multiset(v.matches)[m] == if KeepsMatch(sel, m) then multiset(matches)[m] else 0)
      && (forall d :: multiset(v.balls)[d] == if KeepsDelivery(matches, sel, d) then multiset(balls)[d] else 0)
      && IsSubsequence(v.matches, matches)
      && IsSubsequence(v.balls, balls)
  {
    var s := SeasonStage(matches, balls, sel.seasons);
    var t := TeamStage(s, sel.team);
    var v := PlayerStage(t, sel.player);
    forall d: Delivery ensures (exists m :: m in s.matches && m.id == d.id) <==>
                     (exists m :: m in matches && m.season in sel.seasons && m.id == d.id) {
      if m :| m in matches && m.season in sel.seasons && m.id == d.id {
        assert multiset(s.matches)[m] > 0;
      }
    }
  }

  /** Every surviving match is of a chosen season. */
  lemma SeasonSelected(matches: seq<Match>, balls: seq<Delivery>, sel: Selection)
    ensures forall m :: m in ApplyFilters(matches, balls, sel).matches ==> m.season in sel.seasons
  {
    var s := SeasonStage(matches, balls, sel.seasons);
    var t := TeamStage(s, sel.team);
    forall m | m in ApplyFilters(matches, balls, sel).matches ensures m.season in sel.seasons {
      assert multiset(t.matches)[m] > 0;
      assert multiset(s.matches)[m] > 0;
    }
  }

  /** With a team chosen, every surviving match involves it and every surviving
      delivery was batted by it. */
  lemma TeamSelected(matches: seq<Match>, balls: seq<Delivery>, sel: Selection)
    requires sel.team != AllTeams
    ensures var v := ApplyFilters(matches, balls, sel);
      && (forall m :: m in v.matches ==> m.team1 == sel.team || m.team2 == sel.team)
      && (forall d :: d in v.balls ==> d.battingTeam == sel.team)
  {
    var s := SeasonStage(matches, balls, sel.seasons);
    var t := TeamStage(s, sel.team);
    var v := PlayerStage(t, sel.player);
    forall m | m in v.matches ensures m.team1 == sel.team || m.team2 == sel.team {
      assert multiset(t.matches)[m] > 0;
    }
    forall d | d in v.balls ensures d.battingTeam == sel.team {
      assert multiset(v.balls)[d] > 0;
      assert multiset(t.balls)[d] > 0;
    }
  }

  /** The asymmetry of the team filter: a delivery bowled by the chosen team
      (another side batting) is dropped even when the match itself is kept. */
  lemma BowlingSideDropped(matches: seq<Match>, balls: seq<Delivery>, sel: Selection, d: Delivery)
    requires sel.team != AllTeams && d.battingTeam != sel.team
    ensures d !in ApplyFilters(matches, balls, sel).balls
  {
    TeamSelected(matches, balls, sel);
  }

  /** With a player chosen, every surviving delivery was batted or bowled by
      them. */
  lemma PlayerSelected(matches: seq<Match>, balls: seq<Delivery>, sel: Selection)
    requires sel.player != AllPlayers
    ensures forall d :: d in ApplyFilters(matches, balls, sel).balls ==>
      d.batter == sel.player || d.bowler == sel.player
  {
    var v := ApplyFilters(matches, balls, sel);
    forall d | d in v.balls ensures d.batter == sel.player || d.bowler == sel.player {
      assert multiset(v.balls)[d] > 0;
    }
  }

  /** Choosing a player never changes the matches table. */
  lemma PlayerKeepsMatches(matches: seq<Match>, balls: seq<Delivery>, sel: Selection, player: string)
    ensures ApplyFilters(matches, balls, sel.(player := player)).matches
         == ApplyFilters(matches, balls, sel.(player := AllPlayers)).matches
  {
  }

  /** No season chosen gives two empty tables, not the whole data set. */
  lemma NoSeasonsNoRows(matches: seq<Match>, balls: seq<Delivery>, sel: Selection)
    requires sel.seasons == {}
    ensures ApplyFilters(matches, balls, sel) == View([], [])
  {
  }

  /** Every delivery belongs to a match of the table. */
  ghost predicate Consistent(matches: seq<Match>, balls: seq<Delivery>) {
    forall d :: d in balls ==> exists m :: m in matches && m.id == d.id
  }

  /** All seasons, "All Teams" and "All Players" leave consistent tables as
      they are. */
  lemma {:induction false} IdentitySelection(matches: seq<Match>, balls: seq<Delivery>, sel: Selection)
    requires Consistent(matches, balls)
    requires forall m :: m in matches ==> m.season in sel.seasons
    requires sel.team == AllTeams && sel.player == AllPlayers
    ensures ApplyFilters(matches, balls, sel) == View(matches, balls)
  {
    FilterKeepsAll(matches, InSeasons(sel.seasons));
    FilterKeepsAll(balls, InMatches(MatchIds(matches)));
  }
}
