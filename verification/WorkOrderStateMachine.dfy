/** The work-order life cycle: eight states, seven actions, one transition table. */
module WorkOrderStateMachine {
  import opened Results

  datatype Status =
    | PendingSchedule | Scheduled | Released | InProgress | Paused | Completed | Closed | Cancelled

  datatype Action = Schedule | Release | Start | Pause | Complete | Close | Cancel

  datatype Transition = Transition(from: Status, action: Action, to: Status)

  const TABLE: seq<Transition> :=
    [
      Transition(PendingSchedule, Schedule, Scheduled),
      Transition(Scheduled, Release, Released),
      Transition(Released, Start, InProgress),
      Transition(InProgress, Pause, Paused),
      Transition(Paused, Start, InProgress),
      Transition(InProgress, Complete, Completed),
      Transition(Completed, Close, Closed),
      Transition(PendingSchedule, Cancel, Cancelled),
      Transition(Scheduled, Cancel, Cancelled),
      Transition(Released, Cancel, Cancelled)
    ]

  /** The life cycle as one reads it off the design document, state by state. */
  function Next(from: Status, action: Action): Option<Status> {
    match (from, action)
    case (PendingSchedule, Schedule) => Some(Scheduled)
    case (Scheduled, Release) => Some(Released)
    case (Released, Start) => Some(InProgress)
    case (Paused, Start) => Some(InProgress)
    case (InProgress, Pause) => Some(Paused)
    case (InProgress, Complete) => Some(Completed)
    case (Completed, Close) => Some(Closed)
    case (PendingSchedule, Cancel) => Some(Cancelled)
    case (Scheduled, Cancel) => Some(Cancelled)
    case (Released, Cancel) => Some(Cancelled)
    case _ => None
  }

  ghost predicate Edge(from: Status, to: Status) {
    exists action :: Next(from, action) == Some(to)
  }

  predicate IsTerminal(s: Status) {
    s == Closed || s == Cancelled
  }

  function ActionOf(name: string): Option<Action> {
    if name == "schedule" then Some(Schedule)
    else if name == "release" then Some(Release)
    else if name == "start" then Some(Start)
    else if name == "pause" then Some(Pause)
    else if name == "complete" then Some(Complete)
    else if name == "close" then Some(Close)
    else if name == "cancel" then Some(Cancel)
    else None
  }

  /** The place of the row for a state and an action, where there is one. */
  function RowIndex(from: Status, action: Action): nat {
    match (from, action)
    case (PendingSchedule, Schedule) => 0
    case (Scheduled, Release) => 1
    case (Released, Start) => 2
    case (InProgress, Pause) => 3
    case (Paused, Start) => 4
    case (InProgress, Complete) => 5
    case (Completed, Close) => 6
    case (PendingSchedule, Cancel) => 7
    case (Scheduled, Cancel) => 8
    case _ => 9
  }

  /** The published rows are exactly the life cycle. */
  lemma TableRows(from: Status, action: Action, to: Status)
    ensures Transition(from, action, to) in TABLE <==> Next(from, action) == Some(to)
  {
    if Next(from, action) == Some(to) {
      assert TABLE[RowIndex(from, action)] == Transition(from, action, to);
    }
  }

  /** No two rows of the table share state and action. */
  lemma TableKeysAreDistinct(i: nat, j: nat)
    requires i < j < |TABLE|
    ensures TABLE[i].from != TABLE[j].from || TABLE[i].action != TABLE[j].action
  {
    RowIsAtItsIndex(i);
    RowIsAtItsIndex(j);
  }

  lemma RowIsAtItsIndex(i: nat)
    requires i < |TABLE|
    ensures RowIndex(TABLE[i].from, TABLE[i].action) == i
  {
  }

  /** next: searches the table from the front; the first row for this state and action wins. */
  method FindNext(from: Status, action: Action) returns (r: Option<Status>)
    ensures r == Next(from, action)
  {
    var table := TABLE;
    for i := 0 to |table|
      invariant forall j | 0 <= j < i :: table[j].from != from || table[j].action != action
    {
      if table[i].from == from && table[i].action == action {
        assert table[i] in TABLE;
        TableRows(from, action, table[i].to);
        return Some(table[i].to);
      }
    }
    if Next(from, action).Some? {
      TableRows(from, action, Next(from, action).value);
    }
    return None;
  }

  /** The edges, state by state. */
  lemma EdgesOf(from: Status, to: Status)
    ensures Edge(from, to) <==>
            match from
            case PendingSchedule => to == Scheduled || to == Cancelled
            case Scheduled => to == Released || to == Cancelled
            case Released => to == InProgress || to == Cancelled
            case InProgress => to == Paused || to == Completed
            case Paused => to == InProgress
            case Completed => to == Closed
            case Closed => false
            case Cancelled => false
  {
    var action :=
      if to == Cancelled then Cancel
      else match from
        case PendingSchedule => Schedule
        case Scheduled => Release
        case Released => Start
        case InProgress => if to == Paused then Pause else Complete
        case Paused => Start
        case _ => Close;
    assert Next(from, action) == Some(to) ==> Edge(from, to);
  }

  /** A state is terminal exactly when no action leaves it. */
  lemma TerminalMeansNoExit(s: Status)
    ensures IsTerminal(s) <==> forall action :: Next(s, action) == None
  {
    var exit := match s
      case PendingSchedule => Schedule
      case Scheduled => Release
      case Released => Start
      case InProgress => Complete
      case Paused => Start
      case _ => Close;
    assert IsTerminal(s) || Next(s, exit).Some?;
  }
}
