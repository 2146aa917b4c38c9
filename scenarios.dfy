/** Worked examples of the result tables on small tables. */
module Scenarios {
  import opened Seqs
  import opened Tables
  import opened Ranking
  import opened Aggregates

  /** Three 2020 matches: Rockets win twice, Tigers once. */
  function ThreeMatches(): seq<Match> {
    [ Match(1, 2020, "Rockets", "Tigers", Some("Rockets")),
      Match(2, 2020, "Rockets", "Tigers", Some("Tigers")),
      Match(3, 2020, "Rockets", "Lions", Some("Rockets")) ]
  }

  lemma ThreeMatchesWinners()
    ensures Project(ThreeMatches(), WinnerOf) == ["Rockets", "Tigers", "Rockets"]
  {
    var df := ThreeMatches();
    assert df[1..] == [df[1], df[2]];
    assert df[1..][1..] == [df[2]];
    assert df[1..][1..][1..] == [];
  }

  lemma ThreeMatchesDistinct()
    ensures Distinct(["Rockets", "Tigers", "Rockets"]) == ["Rockets", "Tigers"]
  {
    var w := ["Rockets", "Tigers", "Rockets"];
    assert w[..2] == ["Rockets", "Tigers"];
    assert w[..2][..1] == ["Rockets"];
    assert ["Rockets"][..0] == [];
    assert Distinct(["Rockets"]) == ["Rockets"];
  }

  lemma ThreeMatchesTally()
    ensures Tally(["Rockets", "Tigers"], ["Rockets", "Tigers", "Rockets"]) == [Entry("Rockets", 2), Entry("Tigers", 1)]
  {
    var w := ["Rockets", "Tigers", "Rockets"];
    assert "Rockets" != "Tigers";
    assert Count(w, "Rockets") == 2;
    assert Count(w, "Tigers") == 1;
  }

  lemma ThreeMatchesSorted()
    ensures SortDesc([Entry("Rockets", 2), Entry("Tigers", 1)]) == [Entry("Rockets", 2), Entry("Tigers", 1)]
  {
    var t := [Entry("Rockets", 2), Entry("Tigers", 1)];
    assert t[1..] == [Entry("Tigers", 1)];
    assert SortDesc(t[1..]) == [Entry("Tigers", 1)];
  }

  /** The "Top Winning Teams" table of the three matches. */
  lemma WinningTeamsExample()
    ensures TopWinningTeams(ThreeMatches()) == [Entry("Rockets", 2), Entry("Tigers", 1)]
  {
    ThreeMatchesWinners();
    ThreeMatchesDistinct();
    ThreeMatchesTally();
    ThreeMatchesSorted();
  }

  /** Three deliveries: Asha hits two sixes, Bo scores a single. */
  function ThreeBalls(): seq<Delivery> {
    [ Delivery(1, "Rockets", "Asha", "Kim", 6, false),
      Delivery(1, "Rockets", "Asha", "Kim", 6, false),
      Delivery(1, "Rockets", "Bo", "Kim", 1, true) ]
  }

  lemma ThreeBallsBatters()
    ensures Project(ThreeBalls(), BatterOf) == ["Asha", "Asha", "Bo"]
  {
    var b := ThreeBalls();
    assert b[1..] == [b[1], b[2]];
    assert b[1..][1..] == [b[2]];
    assert b[1..][1..][1..] == [];
  }

  lemma ThreeBallsSixes()
    ensures Sixes(ThreeBalls(), "Asha") == 2 && Sixes(ThreeBalls(), "Bo") == 0
  {
    var b := ThreeBalls();
    assert b[1..] == [b[1], b[2]];
    assert b[1..][1..] == [b[2]];
    assert b[1..][1..][1..] == [];
  }

  /** The "Top Six Hitters" table of the three deliveries: Bo is listed with
      no six, since every batter present is ranked. */
  lemma SixHittersExample()
    ensures TopSixHitters(ThreeBalls()) == [Entry("Asha", 2), Entry("Bo", 0)]
  {
    var b := ThreeBalls();
    ThreeBallsBatters();
    ThreeBallsSixes();
    TopNOfTwo(TopSixHitters(b), Project(b, BatterOf), k => Sixes(b, k), TopLimit, "Asha", "Bo");
  }
}
