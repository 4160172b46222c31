/** The web control panel's state changes: the contents of teams.json and
    config.json, the handlers of the score page and the configuration page,
    and the frames they push to the LED strip. */
module ControlServer {
  import opened Python
  import opened Teams
  import Dmx

  /** Lighting destination used while config.json does not exist. */
  const DefaultSacnIp: string := "10.0.0.162"

  datatype Status = Redirect | BadRequest | ServerError

  /** The `action` form field: absent or empty, not an integer, or a number
      of points. */
  datatype Action = NoAction | NotANumber | Points(points: int)

  /** A POST to the score page: the `adjust` branch with its parsed
      `team_index` (None when missing or not an integer), or anything else. */
  datatype IndexForm = Adjust(teamIndex: Option<int>, action: Action) | OtherIndexForm

  /** The `name_i` and `score_i` fields of one team (None when missing, or
      for the score when not an integer). */
  datatype TeamRow = TeamRow(name: Option<string>, score: Option<int>)

  /** A POST to the configuration page, one constructor per branch. */
  datatype ConfigForm = SetTeams(rows: seq<TeamRow>) | ResetScores | SetSacnIp(ip: string) | OtherConfigForm

  /** One frame sent to the lighting transport. */
  datatype Push = Push(destination: string, frame: seq<int>)

  /** Row i of the manual form is present and parses. */
  predicate RowsComplete(rows: seq<TeamRow>, n: nat) {
    n <= |rows| && forall i :: 0 <= i < n ==> rows[i].name.Some? && rows[i].score.Some?
  }

  class Server {
    /** teams.json; None while the file does not exist. */
    var teamsFile: Option<seq<Team>>
    /** The `sacn_ip` of config.json; None while the file does not exist. */
    var configFile: Option<string>
    /** Every frame pushed to the strip, oldest first. */
    var pushed: seq<Push>

    constructor ()
      ensures teamsFile == None && configFile == None && pushed == []
    {
      teamsFile := None;
      configFile := None;
      pushed := [];
    }

    /** The configured lighting destination, or the default. */
    function Destination(): string
      reads this
    {
      if configFile.Some? then configFile.value else DefaultSacnIp
    }

    /** Seeds teams.json with the four initial teams only when it is absent. */
    method InitializeTeams()
      modifies this`teamsFile
      ensures teamsFile == if old(teamsFile).None? then Some(InitialTeams) else old(teamsFile)
    {
      if teamsFile.None? {
        teamsFile := Some(InitialTeams);
      }
    }

    /** `update_sacn`: read teams.json back and push its frame; fewer than
        four teams raise IndexError and nothing is pushed. */
    method UpdateSacn() returns (ok: bool)
      requires teamsFile.Some?
      modifies this`pushed
      ensures ok <==> |teamsFile.value| >= 4
      ensures !ok ==> pushed == old(pushed)
      ensures ok ==> |pushed| == |old(pushed)| + 1 && pushed[..|old(pushed)|] == old(pushed)
      ensures ok ==> pushed[|old(pushed)|].destination == Destination()
      ensures ok ==> Dmx.IsFrameOf(teamsFile.value, pushed[|old(pushed)|].frame)
    {
      var teams := teamsFile.value;
      if |teams| < 4 {
        return false;
      }
      var frame := Dmx.BuildFrame(teams);
      pushed := pushed + [Push(Destination(), frame)];
      ok := true;
    }

    /** POST to the score page. The file is read first; then `team_index` is
        parsed, the action checked and parsed, and the team looked up with
        Python indexing. Only a successful adjustment writes the file and
        relights the strip; a relight failure after the write still answers
        500. */
    method PostIndex(form: IndexForm) returns (status: Status)
      modifies this`teamsFile, this`pushed
      ensures old(teamsFile).None? ==> status == ServerError && teamsFile == old(teamsFile) && pushed == old(pushed)
      ensures old(teamsFile).Some? && form.OtherIndexForm? ==>
                status == BadRequest && teamsFile == old(teamsFile) && pushed == old(pushed)
      ensures old(teamsFile).Some? && form.Adjust? && form.teamIndex.None? ==>
                status == ServerError && teamsFile == old(teamsFile) && pushed == old(pushed)
      ensures old(teamsFile).Some? && form.Adjust? && form.teamIndex.Some? && form.action.NoAction? ==>
                status == BadRequest && teamsFile == old(teamsFile) && pushed == old(pushed)
      ensures old(teamsFile).Some? && form.Adjust? && form.teamIndex.Some? && form.action.NotANumber? ==>
                status == ServerError && teamsFile == old(teamsFile) && pushed == old(pushed)
      ensures old(teamsFile).Some? && form.Adjust? && form.teamIndex.Some? && form.action.Points? &&
              ListIndex(form.teamIndex.value, |old(teamsFile).value|).None? ==>
                status == ServerError && teamsFile == old(teamsFile) && pushed == old(pushed)
      ensures old(teamsFile).Some? && form.Adjust? && form.teamIndex.Some? && form.action.Points? &&
              ListIndex(form.teamIndex.value, |old(teamsFile).value|).Some? ==>
                && teamsFile == Some(Adjusted(old(teamsFile).value, ListIndex(form.teamIndex.value, |old(teamsFile).value|).value, form.action.points))
                && (status == Redirect <==> |old(teamsFile).value| >= 4)
                && (status != Redirect ==> status == ServerError && pushed == old(pushed))
                && (status == Redirect ==>
                      && |pushed| == |old(pushed)| + 1 && pushed[..|old(pushed)|] == old(pushed)
                      && pushed[|old(pushed)|].destination == Destination()
                      && Dmx.IsFrameOf(teamsFile.value, pushed[|old(pushed)|].frame))
    {
      if teamsFile.None? {
        return ServerError;
      }
      var teams := teamsFile.value;
      if form.OtherIndexForm? {
        return BadRequest;
      }
      if form.teamIndex.None? {
        return ServerError;
      }
      match form.action
      case NoAction =>
        status := BadRequest;
      case NotANumber =>
        status := ServerError;
      case Points(points) =>
        var index := ListIndex(form.teamIndex.value, |teams|);
        if index.None? {
          return ServerError;
        }
        teamsFile := Some(Adjusted(teams, index.value, points));
        var ok := UpdateSacn();
        status := if ok then Redirect else ServerError;
    }

    /** POST to the configuration page. The teams file is read first; the
        manual form overwrites every name and clamped score in one write (a
        missing or malformed field aborts before writing) and does not relight;
        reset zeroes every score, writes and relights; an address change
        rewrites config.json only. */
    method PostConfig(form: ConfigForm) returns (status: Status)
      modifies this
      ensures old(teamsFile).None? ==>
                status == ServerError && teamsFile == old(teamsFile) && configFile == old(configFile) && pushed == old(pushed)
      ensures old(teamsFile).Some? && form.SetTeams? ==>
                && configFile == old(configFile) && pushed == old(pushed)
                && (status == Redirect <==> RowsComplete(form.rows, |old(teamsFile).value|))
                && (status != Redirect ==> status == ServerError && teamsFile == old(teamsFile))
                && (status == Redirect ==>
                      teamsFile.Some? && |teamsFile.value| == |old(teamsFile).value| && NonNegative(teamsFile.value) &&
                      forall k :: 0 <= k < |teamsFile.value| ==>
                        teamsFile.value[k] == Team(form.rows[k].name.value, Clamp(form.rows[k].score.value), old(teamsFile).value[k].color))
      ensures old(teamsFile).Some? && form.ResetScores? ==>
                && configFile == old(configFile)
                && teamsFile == Some(Reset(old(teamsFile).value))
                && (status == Redirect <==> |old(teamsFile).value| >= 4)
                && (status != Redirect ==> status == ServerError && pushed == old(pushed))
                && (status == Redirect ==>
                      && |pushed| == |old(pushed)| + 1 && pushed[..|old(pushed)|] == old(pushed)
                      && pushed[|old(pushed)|].destination == Destination()
                      && Dmx.IsFrameOf(teamsFile.value, pushed[|old(pushed)|].frame))
      ensures old(teamsFile).Some? && form.SetSacnIp? ==>
                status == Redirect && configFile == Some(form.ip) && teamsFile == old(teamsFile) && pushed == old(pushed)
      ensures old(teamsFile).Some? && form.OtherConfigForm? ==>
                status == BadRequest && teamsFile == old(teamsFile) && configFile == old(configFile) && pushed == old(pushed)
    {
      if teamsFile.None? {
        return ServerError;
      }
      var teams := teamsFile.value;
      match form
      case SetTeams(rows) =>
        var i := 0;
        while i < |teams|
          invariant 0 <= i <= |teams| == |old(teamsFile).value|
          invariant RowsComplete(rows, i)
          invariant forall k :: 0 <= k < i ==>
                      teams[k] == Team(rows[k].name.value, Clamp(rows[k].score.value), old(teamsFile).value[k].color)
          invariant forall k :: i <= k < |teams| ==> teams[k] == old(teamsFile).value[k]
        {
          if i >= |rows| || rows[i].name.None? || rows[i].score.None? {
            return ServerError;
          }
          teams := teams[i := teams[i].(name := rows[i].name.value, score := Clamp(rows[i].score.value))];
          i := i + 1;
        }
        teamsFile := Some(teams);
        status := Redirect;
      case ResetScores =>
        var i := 0;
        while i < |teams|
          invariant 0 <= i <= |teams| == |old(teamsFile).value|
          invariant forall k :: 0 <= k < i ==> teams[k] == old(teamsFile).value[k].(score := 0)
          invariant forall k :: i <= k < |teams| ==> teams[k] == old(teamsFile).value[k]
        {
          teams := teams[i := teams[i].(score := 0)];
          i := i + 1;
        }
        assert teams == Reset(old(teamsFile).value);
        teamsFile := Some(teams);
        var ok := UpdateSacn();
        status := if ok then Redirect else ServerError;
      case SetSacnIp(ip) =>
        configFile := Some(ip);
        status := Redirect;
      case OtherConfigForm =>
        status := BadRequest;
    }
  }
}
