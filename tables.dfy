/**
  The two tables the dashboard reads: one row per match and one row per
  ball bowled. Only the columns the dashboard uses are modelled.
*/
module Tables {
  import opened Seqs

  datatype Option<T> = None | Some(value: T)

  /** A row of the matches table: columns `ID`, `Season`, `Team1`, `Team2`
      and `WinningTeam` (missing for a match without a result). */
  datatype Match = Match(id: int, season: int, team1: string, team2: string, winningTeam: Option<string>)

  /** A row of the ball-by-ball table: columns `ID` (the match), `BattingTeam`,
      `batter`, `bowler`, `batsman_run` and `isWicketDelivery`. */
  datatype Delivery = Delivery(
    id: int,
    battingTeam: string,
    batter: string,
    bowler: string,
    batsmanRun: int,
    isWicketDelivery: bool)

  /** The values of column `key` over the rows of `s`, in row order, with the
      rows whose value is missing dropped. */
  function Project<T, K(!new)>(s: seq<T>, key: T -> Option<K>): (r: seq<K>)
    ensures forall k :: k in r <==> exists x :: x in s && key(x) == Some(k)
  {
    if s == [] then []
    else
      assert s == [s[0]] + s[1..];
      match key(s[0])
      case Some(k) => [k] + Project(s[1..], key)
      case None => Project(s[1..], key)
  }

  /** A column without missing values has one value per row. */
  lemma {:induction false} ProjectLength<T, K(!new)>(s: seq<T>, key: T -> Option<K>)
    requires forall x :: x in s ==> key(x).Some?
    ensures |Project(s, key)| == |s|
  {
    if s != [] {
      assert s[0] in s;
      ProjectLength(s[1..], key);
    }
  }

  /** The rows of `s` whose value in column `key` is `k`. */
  function KeyIs<T, K(==)>(key: T -> Option<K>, k: K): T -> bool {
    x => key(x) == Some(k)
  }

  /** Counting a value in a projected column counts the rows holding it. */
  lemma {:induction false} CountProject<T(!new), K(!new)>(s: seq<T>, key: T -> Option<K>, k: K)
    ensures Count(Project(s, key), k) == |Filter(s, KeyIs(key, k))|
  {
    if s != [] {
      CountProject(s[1..], key, k);
      match key(s[0])
      case Some(k') =>
        assert Project(s, key) == [k'] + Project(s[1..], key);
        assert ([k'] + Project(s[1..], key))[1..] == Project(s[1..], key);
      case None =>
    }
  }

  /** The `ID` column of a match table, as a set (the argument of `isin`). */
  function MatchIds(df: seq<Match>): (ids: set<int>)
    ensures forall id :: id in ids <==> exists m :: m in df && m.id == id
  {
    set m | m in df :: m.id
  }

  function SeasonOf(m: Match): Option<int> { Some(m.season) }
  function WinnerOf(m: Match): Option<string> { m.winningTeam }
  function BatterOf(d: Delivery): Option<string> { Some(d.batter) }
  function BowlerOf(d: Delivery): Option<string> { Some(d.bowler) }

  /** The batter of a delivery on which six runs came off the bat. */
  function SixHitterOf(d: Delivery): Option<string> {
    if d.batsmanRun == 6 then Some(d.batter) else None
  }

  /** The bowler of a wicket delivery. */
  function WicketTakerOf(d: Delivery): Option<string> {
    if d.isWicketDelivery then Some(d.bowler) else None
  }
}
