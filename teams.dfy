/** The team records kept in teams.json and the pure score mutations that the
    control panel's handlers apply to them before writing the file back. */
module Teams {
  import opened Python

  /** A colour as stored in teams.json: a list of three channel values. */
  datatype Rgb = Rgb(r: int, g: int, b: int)

  /** One team. Identity is the team's position in the list. */
  datatype Team = Team(name: string, score: int, color: Rgb)

  /** The four teams written on first start. */
  const InitialTeams: seq<Team> := [
    Team("Red", 0, Rgb(255, 0, 0)),
    Team("Blue", 0, Rgb(0, 0, 255)),
    Team("Yellow", 0, Rgb(255, 255, 0)),
    Team("Green", 0, Rgb(0, 255, 0))
  ]

  /** `max(0, x)`: the clamp applied after every score mutation and before
      every share computation. */
  function Clamp(x: int): (r: int)
    ensures r >= 0
    ensures x >= 0 ==> r == x
    ensures x < 0 ==> r == 0
  {
    if x < 0 then 0 else x
  }

  /** Every score in the list is non-negative: what every committed write keeps. */
  predicate NonNegative(teams: seq<Team>) {
    forall i :: 0 <= i < |teams| ==> teams[i].score >= 0
  }

  /** Sum of the clamped scores, `sum(max(0, t['score']) for t in teams)`,
      accumulated left to right. */
  function ClampedSum(teams: seq<Team>): (r: int)
    ensures r >= 0
  {
    if teams == [] then 0 else ClampedSum(teams[..|teams| - 1]) + Clamp(teams[|teams| - 1].score)
  }

  /** The divisor of every share in the display windows: the clamped total,
      replaced by 1 when it is 0. */
  function ShareDivisor(teams: seq<Team>): (r: int)
    ensures r >= 1
    ensures ClampedSum(teams) > 0 ==> r == ClampedSum(teams)
  {
    if ClampedSum(teams) == 0 then 1 else ClampedSum(teams)
  }

  /** Team k's fraction of the clamped total, `max(0, score) / total`: the
      quantity every display window draws. */
  function Share(teams: seq<Team>, k: nat): real
    requires k < |teams|
  {
    Clamp(teams[k].score) as real / ShareDivisor(teams) as real
  }

  /** One team's clamped score never exceeds the clamped total. */
  lemma {:induction false} ClampedScoreAtMostSum(teams: seq<Team>, k: nat)
    requires k < |teams|
    ensures Clamp(teams[k].score) <= ClampedSum(teams)
    decreases |teams|
  {
    var front := teams[..|teams| - 1];
    if k < |teams| - 1 {
      ClampedScoreAtMostSum(front, k);
      assert front[k] == teams[k];
    }
  }

  /** Every share is a fraction between 0 and 1. */
  lemma ShareBounds(teams: seq<Team>, k: nat)
    requires k < |teams|
    ensures 0.0 <= Share(teams, k) <= 1.0
  {
    ClampedScoreAtMostSum(teams, k);
    FractionBounds(Clamp(teams[k].score) as real, ShareDivisor(teams) as real);
  }

  /** Extending a prefix by one team adds that team's clamped score. */
  lemma ClampedSumLast(teams: seq<Team>, n: nat)
    requires 0 < n <= |teams|
    ensures ClampedSum(teams[..n]) == ClampedSum(teams[..n - 1]) + Clamp(teams[n - 1].score)
  {
    assert teams[..n][..n - 1] == teams[..n - 1];
  }

  /** A clamped prefix sum never exceeds the sum of a longer prefix. */
  lemma {:induction false} ClampedSumPrefixMonotone(teams: seq<Team>, j: nat, k: nat)
    requires j <= k <= |teams|
    ensures ClampedSum(teams[..j]) <= ClampedSum(teams[..k])
    decreases k - j
  {
    if j < k {
      ClampedSumPrefixMonotone(teams, j, k - 1);
      assert teams[..k][..k - 1] == teams[..k - 1];
      assert ClampedSum(teams[..k]) == ClampedSum(teams[..k - 1]) + Clamp(teams[k - 1].score);
    }
  }

  /** The list after `teams[i]['score'] += points` and the clamp to 0. */
  function Adjusted(teams: seq<Team>, i: nat, points: int): (r: seq<Team>)
    requires i < |teams|
    ensures |r| == |teams|
    ensures r[i].score == Clamp(teams[i].score + points)
    ensures r[i].name == teams[i].name && r[i].color == teams[i].color
    ensures forall k :: 0 <= k < |teams| && k != i ==> r[k] == teams[k]
    ensures NonNegative(teams) ==> NonNegative(r)
  {
    teams[i := teams[i].(score := Clamp(teams[i].score + points))]
  }

  /** The list after the reset branch: every score 0, names and colours kept. */
  function Reset(teams: seq<Team>): (r: seq<Team>)
    ensures |r| == |teams|
    ensures forall k :: 0 <= k < |teams| ==> r[k] == teams[k].(score := 0)
    ensures NonNegative(r) && ClampedSum(r) == 0
  {
    if teams == [] then []
    else
      var front := Reset(teams[..|teams| - 1]);
      var r := front + [teams[|teams| - 1].(score := 0)];
      assert r[..|r| - 1] == front;
      r
  }

  /** The character of a decimal digit. */
  function DigitChar(d: int): char
    requires 0 <= d < 10
  {
    ('0' as int + d) as char
  }

  /** The number a string of decimal digits denotes, most significant first. */
  function DigitsValue(s: string): int {
    if s == [] then 0 else DigitsValue(s[..|s| - 1]) * 10 + (s[|s| - 1] as int - '0' as int)
  }

  /** `str(n)` for a natural number: a non-empty string of decimal digits,
      without a leading zero, that reads back as n. */
  function NatToString(n: nat): (r: string)
    ensures |r| >= 1 && forall i :: 0 <= i < |r| ==> '0' <= r[i] <= '9'
    ensures |r| > 1 ==> r[0] != '0'
    ensures DigitsValue(r) == n
  {
    if n < 10 then
      var r := [DigitChar(n)];
      assert r[..0] == [];
      r
    else
      var r := NatToString(n / 10) + [DigitChar(n % 10)];
      assert r[..|r| - 1] == NatToString(n / 10);
      r
  }

  /** The caption `f"{name} {int(score)}"` of both kinds of window, for the
      clamped score. */
  function LabelText(t: Team): string {
    t.name + " " + NatToString(Clamp(t.score))
  }

  /** A caption is the team's name, one space, then decimal digits that read
      back as the clamped score. */
  lemma LabelTextParts(t: Team)
    ensures var r := LabelText(t);
            && |r| > |t.name| + 1 && r[..|t.name|] == t.name && r[|t.name|] == ' '
            && (forall i :: |t.name| < i < |r| ==> '0' <= r[i] <= '9')
            && DigitsValue(r[|t.name| + 1..]) == Clamp(t.score)
  {
    var r := LabelText(t);
    assert r[|t.name| + 1..] == NatToString(Clamp(t.score));
  }
}
