/** The trading control rows and the four ways they change. */
module ControlRows {
  import opened Common

  datatype Level = NoKillSwitch | BlockNewExposure | Emergency

  datatype Row = Row(armed: bool, level: Level, version: int)

  datatype SafetyAction = Disarm | Halt | EmergencyStop

  datatype DangerousAction = ClearHalt | Arm

  datatype ControlState = ControlState(armed: bool, level: Level)

  datatype ControlError = NothingToControl | StillHalted

  function Rank(level: Level): int {
    match level
    case NoKillSwitch => 0
    case BlockNewExposure => 1
    case Emergency => 2
  }

  /** The strongest level among the rows, looked for from the top. */
  function Strongest(rows: seq<Row>): Level {
    if exists i :: 0 <= i < |rows| && rows[i].level == Emergency then Emergency
    else if exists i :: 0 <= i < |rows| && rows[i].level == BlockNewExposure then BlockNewExposure
    else NoKillSwitch
  }

  lemma StrongestIsTheMaximum(rows: seq<Row>)
    ensures forall i :: 0 <= i < |rows| ==> Rank(rows[i].level) <= Rank(Strongest(rows))
    ensures Strongest(rows) == NoKillSwitch || exists i :: 0 <= i < |rows| && rows[i].level == Strongest(rows)
  {
  }

  function StateOf(rows: seq<Row>): ControlState {
    ControlState(forall i :: 0 <= i < |rows| ==> rows[i].armed, Strongest(rows))
  }

  /** What the trading loop and the screen both call armed. */
  predicate Tradable(rows: seq<Row>) {
    rows != [] && forall i :: 0 <= i < |rows| ==> rows[i].armed && rows[i].level == NoKillSwitch
  }

  /** Disarmed on every row, with a kill switch down on every row. */
  predicate Halted(rows: seq<Row>) {
    forall i :: 0 <= i < |rows| ==> !rows[i].armed && rows[i].level != NoKillSwitch
  }

  predicate Disarmed(rows: seq<Row>) { forall i :: 0 <= i < |rows| ==> !rows[i].armed }

  predicate EveryRowStopped(rows: seq<Row>) { forall i :: 0 <= i < |rows| ==> rows[i].level != NoKillSwitch }

  // ---- Row changes ----

  function LevelOf(action: SafetyAction, current: Level): Level {
    match action
    case Disarm => current
    case Halt => BlockNewExposure
    case EmergencyStop => Emergency
  }

  function SafeRow(row: Row, action: SafetyAction): Row {
    Row(false, LevelOf(action, row.level), row.version + 1)
  }

  function ExposedRow(row: Row, action: DangerousAction): Row {
    match action
    case Arm => row.(armed := true, version := row.version + 1)
    case ClearHalt => row.(level := NoKillSwitch, version := row.version + 1)
  }

  function RaisedRow(row: Row, level: Level, disarm: bool): Row {
    var raised :=
      if Rank(row.level) < Rank(level) then row.(level := level, version := row.version + 1)
      else if disarm && row.armed then row.(version := row.version + 1)
      else row;
    if disarm then raised.(armed := false) else raised
  }

  function SafeRows(rows: seq<Row>, action: SafetyAction): seq<Row> {
    seq(|rows|, i requires 0 <= i < |rows| => SafeRow(rows[i], action))
  }

  function ExposedRows(rows: seq<Row>, action: DangerousAction): seq<Row> {
    seq(|rows|, i requires 0 <= i < |rows| => ExposedRow(rows[i], action))
  }

  function RaisedRows(rows: seq<Row>, level: Level, disarm: bool): seq<Row> {
    seq(|rows|, i requires 0 <= i < |rows| => RaisedRow(rows[i], level, disarm))
  }

  /** The table the commands lock and mutate row by row. */
  class ControlTable {
    var rows: seq<Row>

    constructor (initial: seq<Row>)
      ensures rows == initial
    {
      rows := initial;
    }

    /** A safety command: every action disarms, and a halt sets its level whatever it was. */
    method ApplySafety(action: SafetyAction) returns (r: Result<ControlState, ControlError>)
      modifies this
      ensures old(rows) == [] ==> r == Err(NothingToControl) && rows == []
      ensures old(rows) != [] ==> rows == SafeRows(old(rows), action) && r == Ok(StateOf(rows))
    {
      if rows == [] {
        return Err(NothingToControl);
      }
      for i := 0 to |rows|
        invariant |rows| == |old(rows)|
        invariant forall k :: 0 <= k < i ==> rows[k] == SafeRow(old(rows)[k], action)
        invariant forall k :: i <= k < |rows| ==> rows[k] == old(rows)[k]
      {
        var row := rows[i].(armed := false);
        if action != Disarm {
          row := row.(level := if action == Halt then BlockNewExposure else Emergency);
        }
        rows := rows[i := row.(version := row.version + 1)];
      }
      r := Ok(StateOf(rows));
    }

    /** An approved exposure command: arming through a halt is refused and changes nothing. */
    method ApplyExposure(action: DangerousAction) returns (r: Result<ControlState, ControlError>)
      modifies this
      ensures old(rows) == [] ==> r == Err(NothingToControl) && rows == []
      ensures old(rows) != [] && action == Arm && Strongest(old(rows)) != NoKillSwitch ==>
                r == Err(StillHalted) && rows == old(rows)
      ensures old(rows) != [] && (action == ClearHalt || Strongest(old(rows)) == NoKillSwitch) ==>
                rows == ExposedRows(old(rows), action) && r == Ok(StateOf(rows))
    {
      if rows == [] {
        return Err(NothingToControl);
      }
      var before := StateOf(rows);
      if action == Arm && before.level != NoKillSwitch {
        return Err(StillHalted);
      }
      for i := 0 to |rows|
        invariant |rows| == |old(rows)|
        invariant forall k :: 0 <= k < i ==> rows[k] == ExposedRow(old(rows)[k], action)
        invariant forall k :: i <= k < |rows| ==> rows[k] == old(rows)[k]
      {
        var row := rows[i];
        row := if action == Arm then row.(armed := true) else row.(level := NoKillSwitch);
        rows := rows[i := row.(version := row.version + 1)];
      }
      r := Ok(StateOf(rows));
    }

    /** The protection service's own action: only ever upward, disarming when asked. */
    method RaiseTo(level: Level, disarm: bool)
      modifies this
      ensures rows == RaisedRows(old(rows), level, disarm)
    {
      for i := 0 to |rows|
        invariant |rows| == |old(rows)|
        invariant forall k :: 0 <= k < i ==> rows[k] == RaisedRow(old(rows)[k], level, disarm)
        invariant forall k :: i <= k < |rows| ==> rows[k] == old(rows)[k]
      {
        var row := rows[i];
        if Rank(row.level) < Rank(level) {
          row := row.(level := level, version := row.version + 1);
        } else if disarm && row.armed {
          row := row.(version := row.version + 1);
        }
        if disarm {
          row := row.(armed := false);
        }
        rows := rows[i := row];
      }
    }
  }

  // ---- What the changes mean ----

  /** A halt, an emergency and an account halt each leave every row disarmed and stopped. */
  lemma HaltsHalt(rows: seq<Row>)
    ensures Halted(SafeRows(rows, Halt))
    ensures Halted(SafeRows(rows, EmergencyStop))
    ensures Halted(RaisedRows(rows, Emergency, true))
  {
  }

  /** What each safety action does to each row: it disarms it, and sets the level a halt or an emergency
      names, or leaves it. */
  lemma SafetyMeans(rows: seq<Row>, action: SafetyAction)
    ensures var safe := SafeRows(rows, action);
            |safe| == |rows| && forall i :: 0 <= i < |rows| ==>
              && !safe[i].armed && safe[i].version == rows[i].version + 1
              && (action == Disarm ==> safe[i].level == rows[i].level)
              && (action == Halt ==> safe[i].level == BlockNewExposure)
              && (action == EmergencyStop ==> safe[i].level == Emergency)
  {
  }

  /** A clear lifts every kill switch and arms nothing; an arm arms every row and lifts nothing. */
  lemma ExposureMeans(rows: seq<Row>, action: DangerousAction)
    ensures var exposed := ExposedRows(rows, action);
            |exposed| == |rows| && forall i :: 0 <= i < |rows| ==>
              && exposed[i].version == rows[i].version + 1
              && (action == ClearHalt ==> exposed[i].level == NoKillSwitch && exposed[i].armed == rows[i].armed)
              && (action == Arm ==> exposed[i].armed && exposed[i].level == rows[i].level)
  {
  }

  /** Raising leaves every row at the stronger of its own level and the one asked for, disarms exactly when
      asked to, and moves a row's version on exactly when it changes the row. */
  lemma RaisingOnlyRaises(rows: seq<Row>, level: Level, disarm: bool)
    ensures var raised := RaisedRows(rows, level, disarm);
            |raised| == |rows| && forall i :: 0 <= i < |rows| ==>
              && raised[i].level == (if Rank(level) > Rank(rows[i].level) then level else rows[i].level)
              && raised[i].armed == (rows[i].armed && !disarm)
              && raised[i].version == rows[i].version +
                 (if raised[i].level != rows[i].level || raised[i].armed != rows[i].armed then 1 else 0)
  {
    forall i | 0 <= i < |rows|
      ensures var raised := RaisedRow(rows[i], level, disarm);
              && raised.level == (if Rank(level) > Rank(rows[i].level) then level else rows[i].level)
              && raised.armed == (rows[i].armed && !disarm)
              && raised.version == rows[i].version +
                 (if raised.level != rows[i].level || raised.armed != rows[i].armed then 1 else 0)
    {
    }
  }

  /** The collapsed state is armed exactly when every row is; with it, the loop's own rule for trading. */
  lemma StateMeans(rows: seq<Row>)
    ensures StateOf(rows).armed <==> forall i :: 0 <= i < |rows| ==> rows[i].armed
    ensures forall i :: 0 <= i < |rows| ==> Rank(rows[i].level) <= Rank(StateOf(rows).level)
    ensures StateOf(rows).level == NoKillSwitch || exists i :: 0 <= i < |rows| && rows[i].level == StateOf(rows).level
    ensures Tradable(rows) <==> rows != [] && StateOf(rows).armed && StateOf(rows).level == NoKillSwitch
  {
    StrongestIsTheMaximum(rows);
  }

  /** Levels do not only rise: a safety action lowers a row exactly when it is a HALT and the row is in
      EMERGENCY. */
  lemma SafetyLowersIff(row: Row, action: SafetyAction)
    ensures Rank(SafeRow(row, action).level) < Rank(row.level) <==> action == Halt && row.level == Emergency
  {
  }

  /** Over the table: some row is lowered exactly when a HALT finds one in EMERGENCY, and the level shown
      for the table falls exactly then too. */
  lemma SafetyLowersTheTableIff(rows: seq<Row>, action: SafetyAction)
    ensures (exists i :: 0 <= i < |rows| && Rank(SafeRows(rows, action)[i].level) < Rank(rows[i].level)) <==>
              action == Halt && Strongest(rows) == Emergency
    ensures Rank(Strongest(SafeRows(rows, action))) < Rank(Strongest(rows)) <==>
              action == Halt && Strongest(rows) == Emergency
  {
    var safe := SafeRows(rows, action);
    forall i | 0 <= i < |rows|
      ensures Rank(safe[i].level) < Rank(rows[i].level) <==> action == Halt && rows[i].level == Emergency
    {
      SafetyLowersIff(rows[i], action);
    }
    if action == Disarm {
      assert forall i :: 0 <= i < |rows| ==> safe[i].level == rows[i].level;
      SameLevels(rows, safe);
    } else if rows != [] {
      assert forall i :: 0 <= i < |rows| ==> safe[i].level == if action == Halt then BlockNewExposure else Emergency;
      assert safe[0].level == if action == Halt then BlockNewExposure else Emergency;
    }
  }

  lemma SameLevels(a: seq<Row>, b: seq<Row>)
    requires |a| == |b| && forall i :: 0 <= i < |a| ==> b[i].level == a[i].level
    ensures Strongest(b) == Strongest(a)
  {
    if i :| 0 <= i < |a| && a[i].level == Emergency {
      assert b[i].level == Emergency;
    } else if i :| 0 <= i < |a| && a[i].level == BlockNewExposure {
      assert b[i].level == BlockNewExposure;
    }
  }
}
