/** The player record decoded from the `players` endpoint, the team embedded in it,
    and the strings derived from a player. Every field of both structures is a `let`,
    so both are values here. */
module PlayerModel {
  import opened Text

  datatype Team = Team(
    id: int,
    abbreviation: string,
    city: string,
    conference: string,
    division: string,
    fullName: string,
    name: string)

  datatype PlayerInfo = PlayerInfo(
    id: int,
    firstName: string,
    lastName: string,
    position: string,
    team: Team)

  /** The `{ "data": [...] }` wrapper of a players response. */
  datatype PlayerContainer = PlayerContainer(data: seq<PlayerInfo>)

  /** `stringID`: the decimal rendering of the id, which parses back to the id. It is
      digits only, after a minus sign for a negative id, with no leading zero. */
  function StringID(p: PlayerInfo): (r: string)
    ensures r != []
    ensures p.id >= 0 ==> forall i :: 0 <= i < |r| ==> IsDigit(r[i])
    ensures p.id < 0 ==> |r| >= 2 && r[0] == '-' && forall i :: 1 <= i < |r| ==> IsDigit(r[i])
    ensures r[0] == '0' ==> p.id == 0 && r == "0"
    ensures p.id < 0 ==> r[1] != '0'
    ensures ParseInt(r) == Some(p.id)
  {
    IntToStringRoundTrip(p.id);
    IntToString(p.id)
  }

  /** `fullName`: the first name, one space, then the last name. */
  function FullName(p: PlayerInfo): (r: string)
    ensures |r| == |p.firstName| + |p.lastName| + 1
    ensures p.firstName <= r && r[|p.firstName|] == ' '
    ensures r[|p.firstName| + 1..] == p.lastName
  {
    p.firstName + " " + p.lastName
  }

  /** `infoText`: the full name, a middle dot between spaces, then the team abbreviation. */
  function InfoText(p: PlayerInfo): (r: string)
    ensures |r| == |FullName(p)| + 3 + |p.team.abbreviation|
    ensures FullName(p) <= r && r[|FullName(p)|..|FullName(p)| + 3] == " · "
    ensures r[|FullName(p)| + 3..] == p.team.abbreviation
  {
    FullName(p) + " · " + p.team.abbreviation
  }

  /** The player the mock service returns. */
  const LeBron := PlayerInfo(237, "LeBron", "James", "F",
    Team(14, "LAL", "Los Angeles", "West", "Pacific", "Los Angeles Lakers", "Lakers"))

  lemma LeBronStrings()
    ensures StringID(LeBron) == "237"
    ensures FullName(LeBron) == "LeBron James"
    ensures InfoText(LeBron) == "LeBron James · LAL"
  {
  }
}
