/**
  The two sidebar pick lists: a sentinel entry followed by the candidates
  that contain the search text, compared case-insensitively (app.py lines
  63 and 71), and the universe of player names (line 67).
*/
module PickLists {
  import opened Seqs
  import opened Order
  import opened Tables

  /** The sentinel entries that mean "no team filter" / "no player filter". */
  const AllTeams: string := "All Teams"
  const AllPlayers: string := "All Players"

  /** The ten franchises offered in the team pick list, in display order. */
  const ActiveTeams: seq<string> := [
    "Mumbai Indians",
    "Chennai Super Kings",
    "Royal Challengers Bangalore",
    "Kolkata Knight Riders",
    "Rajasthan Royals",
    "Sunrisers Hyderabad",
    "Delhi Capitals",
    "Punjab Kings",
    "Gujarat Titans",
    "Lucknow Super Giants"
  ]

  /** ASCII lower-casing of one character. */
  function LowerChar(c: char): (l: char)
    ensures 'A' <= c <= 'Z' ==> 'a' <= l <= 'z' && l as int - c as int == 32
    ensures !('A' <= c <= 'Z') ==> l == c
  {
    if 'A' <= c <= 'Z' then (c as int + 32) as char else c
  }

  /** `str.lower()` on ASCII text. */
  function Lower(s: string): (r: string)
    ensures |r| == |s|
    ensures forall i :: 0 <= i < |s| ==> r[i] == LowerChar(s[i])
  {
    seq(|s|, i requires 0 <= i < |s| => LowerChar(s[i]))
  }

  /** Python's `q in s` on strings: `q` occurs in `s` as a contiguous block. */
  function Contains(s: string, q: string): bool
    decreases |s|
  {
    if q <= s then true
    else if s == [] then false
    else Contains(s[1..], q)
  }

  /** `q` occurs in `s` starting at position `i`. */
  ghost predicate OccursAt(s: string, q: string, i: int) {
    0 <= i <= |s| - |q| && s[i..i + |q|] == q
  }

  /** `Contains` holds exactly when `q` occurs somewhere in `s`. */
  lemma {:induction false} ContainsIffOccurs(s: string, q: string)
    ensures Contains(s, q) <==> exists i :: OccursAt(s, q, i)
    decreases |s|
  {
    OccursAtStart(s, q);
    if q <= s {
    } else if s == [] {
    } else {
      ContainsIffOccurs(s[1..], q);
      if Contains(s[1..], q) {
        var i :| OccursAt(s[1..], q, i);
        OccursShifted(s, q, i);
      }
      if i :| OccursAt(s, q, i) {
        OccursShifted(s, q, i - 1);
      }
    }
  }

  /** An occurrence at position 0 is a prefix. */
  lemma OccursAtStart(s: string, q: string)
    ensures OccursAt(s, q, 0) <==> q <= s
  {
  }

  /** Dropping the first character moves every later occurrence one place
      to the left. */
  lemma OccursShifted(s: string, q: string, i: int)
    requires s != [] && i >= 0
    ensures OccursAt(s[1..], q, i) <==> OccursAt(s, q, i + 1)
  {
    if 0 <= i <= |s| - 1 - |q| {
      forall k {:trigger s[1..][i..i + |q|][k]} | 0 <= k < |q|
        ensures s[1..][i..i + |q|][k] == s[i + 1..i + 1 + |q|][k]
      {
      }
      assert s[i + 1..i + 1 + |q|] == s[1..][i..i + |q|];
    }
  }

  /** Does candidate `c` match the search text `query`, ignoring ASCII case? */
  function MatchesQuery(query: string): string -> bool {
    c => Contains(Lower(c), Lower(query))
  }

  /** The sentinel, then the candidates matching the search text, in order. */
  function PickList(sentinel: string, candidates: seq<string>, query: string): (r: seq<string>)
    ensures 1 <= |r| <= |candidates| + 1 && r[0] == sentinel
    ensures forall i :: 1 <= i < |r| ==> r[i] in candidates && Contains(Lower(r[i]), Lower(query))
    ensures forall c :: c in candidates && Contains(Lower(c), Lower(query)) ==> c in r[1..]
    ensures forall c :: multiset(r[1..])[c] == if Contains(Lower(c), Lower(query)) then multiset(candidates)[c] else 0
    ensures IsSubsequence(r[1..], candidates)
  {
    var hits := Filter(candidates, MatchesQuery(query));
    HitsMatch(candidates, query, hits);
    HitsCounted(candidates, query, hits);
    assert ([sentinel] + hits)[1..] == hits;
    [sentinel] + hits
  }

  /** The selected candidates are exactly the matching ones. */
  lemma HitsMatch(candidates: seq<string>, query: string, hits: seq<string>)
    requires hits == Filter(candidates, MatchesQuery(query))
    ensures |hits| <= |candidates|
    ensures forall i :: 0 <= i < |hits| ==> hits[i] in candidates && Contains(Lower(hits[i]), Lower(query))
    ensures forall c :: c in candidates && Contains(Lower(c), Lower(query)) ==> c in hits
  {
    forall i | 0 <= i < |hits| ensures hits[i] in candidates && Contains(Lower(hits[i]), Lower(query)) {
      assert hits[i] in hits;
    }
  }

  /** The selected candidates keep their multiplicity and their order. */
  lemma HitsCounted(candidates: seq<string>, query: string, hits: seq<string>)
    requires hits == Filter(candidates, MatchesQuery(query))
    ensures forall c :: multiset(hits)[c] == if Contains(Lower(c), Lower(query)) then multiset(candidates)[c] else 0
    ensures IsSubsequence(hits, candidates)
  {
  }

  /** An empty search box offers every candidate. */
  lemma EmptyQueryKeepsAll(sentinel: string, candidates: seq<string>)
    ensures PickList(sentinel, candidates, "") == [sentinel] + candidates
  {
    forall c | c in candidates ensures MatchesQuery("")(c) {
      assert Lower("") == "";
    }
    FilterKeepsAll(candidates, MatchesQuery(""));
  }

  /** The team pick list (app.py line 63). */
  function TeamOptions(query: string): (r: seq<string>)
    ensures 1 <= |r| <= 11 && r[0] == AllTeams
    ensures forall i :: 1 <= i < |r| ==> r[i] in ActiveTeams && Contains(Lower(r[i]), Lower(query))
    ensures forall t :: t in ActiveTeams && Contains(Lower(t), Lower(query)) ==> t in r[1..]
    ensures IsSubsequence(r[1..], ActiveTeams)
  {
    PickList(AllTeams, ActiveTeams, query)
  }

  /** Every batter and every bowler, each once, in ascending order (line 67). */
  function AllPlayerNames(balls: seq<Delivery>): (r: seq<string>)
    ensures StrictlySorted(r, StrLess)
    ensures NoDup(r)
    ensures forall p :: p in r <==> exists d :: d in balls && (d.batter == p || d.bowler == p)
  {
    StrLessIsStrictOrder();
    var r := SortedSet(Project(balls, BatterOf) + Project(balls, BowlerOf), StrLess);
    assert forall p :: p in r <==> p in Project(balls, BatterOf) || p in Project(balls, BowlerOf);
    r
  }

  /** The player pick list (app.py line 71). */
  function PlayerOptions(balls: seq<Delivery>, query: string): (r: seq<string>)
    ensures |r| >= 1 && r[0] == AllPlayers
    ensures forall i :: 1 <= i < |r| ==> r[i] in AllPlayerNames(balls) && Contains(Lower(r[i]), Lower(query))
    ensures forall p :: p in AllPlayerNames(balls) && Contains(Lower(p), Lower(query)) ==> p in r[1..]
    ensures IsSubsequence(r[1..], AllPlayerNames(balls))
  {
    PickList(AllPlayers, AllPlayerNames(balls), query)
  }

  /** The options of the season multiselect, also its default (line 75):
      every season of the matches table, each once, ascending. */
  function SeasonOptions(matches: seq<Match>): (r: seq<int>)
    ensures forall i, j :: 0 <= i < j < |r| ==> r[i] < r[j]
    ensures forall s :: s in r <==> exists m :: m in matches && m.season == s
  {
    IntLessIsStrictOrder();
    var r := SortedSet(Project(matches, SeasonOf), IntLess);
    forall s ensures s in Project(matches, SeasonOf) <==> exists m :: m in matches && m.season == s {
      assert forall m :: SeasonOf(m) == Some(s) <==> m.season == s;
    }
    r
  }
}
