/**
 The top-level orchestrator: which screen is shown, which stations are
 completed, which station is current, and the chosen avatar.

 Every handler of the orchestrator is a plain state assignment that does not
 look at the screen it is called from; which handler can be reached from which
 screen is decided by the screens themselves (see module `Game`).
 */
module App {
  import opened Collections

  /** The number of a station on the journey. */
  type StationNumber = n: int | 1 <= n <= 4 witness 1

  /**
   The twelve screens: start, avatar selection, map, a game and a reward
   screen for each of the four stations, and the final celebration.
   */
  datatype Screen =
    | Start
    | AvatarSelection
    | Map
    | StationGame(station: StationNumber)
    | StationReward(station: StationNumber)
    | Final

  /** A player identity; purely cosmetic, never read by the game logic. */
  datatype Avatar = Avatar(id: string, name: string, color: string, emoji: string, description: string)

  /** The orchestrator's four pieces of state. */
  datatype State = State(
    screen: Screen,
    completed: seq<bool>,
    currentStation: int,
    avatar: Option<Avatar>)

  /** The progress record assigned by the station-4 reward. */
  const AllCompleted: seq<bool> := [true, true, true, true]

  /** The state the game opens with. */
  function Init(): (s: State)
    ensures s.screen == Start && s.avatar == None && s.currentStation == 0
    ensures |s.completed| == 4 && forall i :: 0 <= i < 4 ==> !s.completed[i]
  {
    State(Start, [false, false, false, false], 0, None)
  }

  /** The start screen's button: go to avatar selection. */
  function HandleStart(s: State): (r: State)
    ensures r.screen == AvatarSelection
    ensures r.completed == s.completed && r.currentStation == s.currentStation && r.avatar == s.avatar
  {
    s.(screen := AvatarSelection)
  }

  /** An avatar was chosen: remember it and show the map. */
  function HandleAvatarSelect(s: State, a: Avatar): (r: State)
    ensures r.screen == Map && r.avatar == Some(a)
    ensures r.completed == s.completed && r.currentStation == s.currentStation
  {
    s.(avatar := Some(a), screen := Map)
  }

  /**
   A station was chosen on the map. The handler itself accepts every station
   number from 1 to 4, whatever the progress; any other number is ignored.
   */
  function HandleStationSelect(s: State, stationId: int): (r: State)
    ensures 1 <= stationId <= 4 ==> r.screen == StationGame(stationId)
    ensures !(1 <= stationId <= 4) ==> r == s
    ensures r.completed == s.completed && r.currentStation == s.currentStation && r.avatar == s.avatar
  {
    match stationId
    case 1 => s.(screen := StationGame(1))
    case 2 => s.(screen := StationGame(2))
    case 3 => s.(screen := StationGame(3))
    case 4 => s.(screen := StationGame(4))
    case _ => s
  }

  /** A station game reported completion: show its reward; progress is not recorded yet. */
  function HandleStationComplete(s: State, n: StationNumber): (r: State)
    ensures r.screen == StationReward(n)
    ensures r.completed == s.completed && r.currentStation == s.currentStation && r.avatar == s.avatar
  {
    s.(screen := StationReward(n))
  }

  /**
   A reward was acknowledged. Each handler assigns a whole literal progress
   record; stations 1 to 3 also move the current station and return to the
   map, while station 4 leaves the current station as it was and shows the
   final screen.
   */
  function HandleStationReward(s: State, n: StationNumber): (r: State)
    ensures |r.completed| == 4 && r.avatar == s.avatar
    ensures n < 4 ==> r.screen == Map && r.currentStation == n
    ensures n < 4 ==> forall i :: 0 <= i < 4 ==> (r.completed[i] <==> i < n)
    ensures n == 4 ==> r.screen == Final && r.currentStation == s.currentStation
    ensures n == 4 ==> forall i :: 0 <= i < 4 ==> r.completed[i]
  {
    match n
    case 1 => s.(completed := [true, false, false, false], currentStation := 1, screen := Map)
    case 2 => s.(completed := [true, true, false, false], currentStation := 2, screen := Map)
    case 3 => s.(completed := [true, true, true, false], currentStation := 3, screen := Map)
    case 4 => s.(completed := AllCompleted, screen := Final)
  }

  /** The final screen's button: back to the very beginning. */
  function HandleRestart(s: State): (r: State)
    ensures r == Init()
  {
    State(Start, [false, false, false, false], 0, None)
  }

  /** Station `i + 1` is completed exactly when it comes before the current station. */
  ghost predicate UnlockOrder(s: State) {
    |s.completed| == 4 && forall i :: 0 <= i < 4 ==> (s.completed[i] <==> i < s.currentStation)
  }

  /** The rewards of stations 1 to 3 establish the unlock order, whatever came before. */
  lemma RewardEstablishesUnlockOrder(s: State, n: StationNumber)
    requires n < 4
    ensures UnlockOrder(HandleStationReward(s, n))
  {
  }

  /**
   The station-4 reward breaks the unlock order: reached in the normal way,
   with station 3 current, it completes station 4 but leaves the current
   station at 3.
   */
  lemma FinalRewardKeepsCurrentStation(s: State)
    requires s.currentStation == 3
    ensures var r := HandleStationReward(s, 4);
      r.completed[3] && r.currentStation == 3 && !UnlockOrder(r)
  {
  }

  /** A reward overwrites the whole progress record: the previous record does not matter. */
  lemma RewardIgnoresPriorProgress(s: State, t: State, n: StationNumber)
    requires n < 4 || s.currentStation == t.currentStation
    ensures HandleStationReward(s, n).completed == HandleStationReward(t, n).completed
    ensures HandleStationReward(s, n).currentStation == HandleStationReward(t, n).currentStation
  {
  }

  /** Restart forgets everything: any two states restart to the same state. */
  lemma RestartForgetsEverything(s: State, t: State)
    ensures HandleRestart(s) == HandleRestart(t)
    ensures HandleRestart(s).screen == Start && HandleRestart(s).avatar == None
  {
  }
}
