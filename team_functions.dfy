/** Team-name normalisation (team_functions.py `_process_team_continuity`): a row's team
    abbreviation is rewritten to the franchise's current one, with the season year deciding
    the rules for franchises that moved. */
module TeamFunctions {

  /** The two columns of a row the rewrite reads: the team abbreviation and the season. */
  datatype Row = Row(name: string, year: int)

  /** The abbreviation a row ends with, franchise by franchise: five plain renames, then
      the moves, each bounded by a season. St. Louis is the Cardinals (now ARI) before 1988,
      the Rams (now LA) after 1994, and is kept in between. A Browns row before 1996 becomes
      BAL, even before 1984 when BAL meant the Colts. */
  function Continuity(name: string, year: int): string {
    if name == "BOS" then "NE"
    else if name == "JAC" then "JAX"
    else if name == "PHO" then "ARI"
    else if name == "SD" then "LAC"
    else if name == "RAI" then "OAK"
    else if name == "BAL" then (if year < 1984 then "IND" else "BAL")
    else if name == "STL" then (if year < 1988 then "ARI" else if year > 1994 then "LA" else "STL")
    else if name == "HOU" then (if year < 1997 then "TEN" else "HOU")
    else if name == "CLE" then (if year < 1996 then "BAL" else "CLE")
    else if name == "RAM" then "LA"
    else name
  }

  /** The abbreviations some rule mentions. */
  const RuleNames: set<string> := {"BOS", "JAC", "PHO", "SD", "RAI", "BAL", "STL", "HOU", "CLE", "RAM"}

  /** `_process_team_continuity`: the ordered checks, each reading the abbreviation the
      previous ones left. The season is never rewritten. */
  method ProcessTeamContinuity(row: Row) returns (r: Row)
    ensures r.year == row.year
    ensures r.name == Continuity(row.name, row.year)
  {
    var name := row.name;
    if name == "BOS" {
      name := "NE";
    }
    if name == "JAC" {
      name := "JAX";
    }
    if name == "PHO" {
      name := "ARI";
    }
    if name == "SD" {
      name := "LAC";
    }
    if name == "RAI" {
      name := "OAK";
    }
    if name == "BAL" && row.year < 1984 {
      name := "IND";
    }
    if name == "STL" && row.year < 1988 {
      name := "ARI";
    }
    if name == "HOU" && row.year < 1997 {
      name := "TEN";
    }
    if name == "CLE" && row.year < 1996 {
      name := "BAL";
    }
    if name == "RAM" || (name == "STL" && row.year > 1994) {
      name := "LA";
    }
    r := row.(name := name);
  }

  /** The five renames hold in every season. */
  lemma RenamesAnyYear(year: int)
    ensures Continuity("BOS", year) == "NE" && Continuity("JAC", year) == "JAX" &&
            Continuity("PHO", year) == "ARI" && Continuity("SD", year) == "LAC" &&
            Continuity("RAI", year) == "OAK"
  {
  }

  /** The moves: each takes effect only in the seasons its rule names. */
  lemma MovesByYear(year: int)
    ensures Continuity("BAL", year) == (if year < 1984 then "IND" else "BAL")
    ensures Continuity("HOU", year) == (if year < 1997 then "TEN" else "HOU")
    ensures Continuity("STL", year) == (if year < 1988 then "ARI" else if year > 1994 then "LA" else "STL")
    ensures Continuity("RAM", year) == "LA"
    ensures Continuity("CLE", year) == (if year < 1996 then "BAL" else "CLE")
  {
  }

  /** An abbreviation no rule mentions comes back unchanged, and exactly those do. */
  lemma UnmatchedUnchanged(name: string, year: int)
    ensures name !in RuleNames ==> Continuity(name, year) == name
    ensures Continuity(name, year) == name <==>
              name !in RuleNames || (name == "BAL" && year >= 1984) || (name == "STL" && 1988 <= year <= 1994) ||
              (name == "HOU" && year >= 1997) || (name == "CLE" && year >= 1996)
  {
  }

  /** Rewriting a rewritten row again changes nothing, except for a Browns row before 1984:
      its BAL is then read as the Colts and becomes IND. */
  lemma ContinuityIdempotent(name: string, year: int)
    ensures Continuity(Continuity(name, year), year) == Continuity(name, year) <==> !(name == "CLE" && year < 1984)
  {
    var r := Continuity(name, year);
    if name == "CLE" && year < 1996 {
      assert r == "BAL";
    } else if name in RuleNames {
      assert r == name || r in CurrentNames;
      if r != name {
        CurrentNamesFixed(r, year);
      }
    }
  }

  /** The abbreviations the rules produce other than BAL. */
  const CurrentNames: set<string> := {"NE", "JAX", "ARI", "LAC", "OAK", "IND", "LA", "TEN"}

  /** No rule mentions a current abbreviation other than BAL. */
  lemma CurrentNamesFixed(name: string, year: int)
    requires name in CurrentNames
    ensures Continuity(name, year) == name
  {
    // each differs from every rule name in its first letter, or else in its length or last letter
    if name == "NE" || name == "JAX" || name == "ARI" || name == "LAC" {
      assert name[0] !in {'B', 'P', 'S', 'R', 'H', 'C'};
    } else {
      assert name[0] !in {'B', 'J', 'P', 'S', 'R', 'H', 'C'};
    }
  }

  /** The rewrite as written, applied twice to one Browns row of 1983. */
  lemma SecondPassMovesBrowns()
    ensures Continuity("CLE", 1983) == "BAL" && Continuity(Continuity("CLE", 1983), 1983) == "IND"
  {
  }
}
