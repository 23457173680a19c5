/**
 The whole game as the player meets it: the orchestrator's state together
 with the station component that is mounted, and the actions each screen
 wires up. A screen only offers its own buttons and drop targets, so an
 action the current screen does not offer changes nothing. A station
 component is mounted afresh, in its initial state, each time its game
 screen is entered, and is dropped when the screen is left.
 */
module Game {
  import opened Collections
  import App
  import MapScreen
  import Station1
  import Station2
  import Station3
  import Station4

  /** The station component on screen and its local state; `Idle` outside the station games. */
  datatype Engine =
    | Idle
    | Forest(forest: Station1.State)
    | River(river: Station2.State)
    | City(city: Station3.State)
    | Mountain(mountain: Station4.State)

  datatype Session = Session(app: App.State, engine: Engine)

  /** What the player can do, screen by screen. */
  datatype Action =
    | PressStart                           // start screen
    | ChooseAvatar(avatar: App.Avatar)     // avatar selection
    | PressCard(slot: int)                 // map: the card at position `slot` of the page shown
    | Plant(plant: Station1.Move)          // station 1 game
    | Clean(clean: Station2.Drag)          // station 2 game
    | Power(power: Station3.Move)          // station 3 game
    | Rescue(rescue: Station4.Drag)        // station 4 game
    | PressContinue                        // a station game's success button
    | CollectReward                        // a reward screen's button
    | PlayAgain                            // final screen

  /** The session the game opens with. */
  function Begin(): (s: Session)
    ensures s.app == App.Init() && s.engine.Idle?
  {
    Session(App.Init(), Idle)
  }

  /** Whether the engine is the component of station `n`, with its pieces told apart by id. */
  predicate EngineFor(e: Engine, n: App.StationNumber) {
    match e
    case Idle => false
    case Forest(st) => n == 1 && Station1.UniqueIds(st.spots)
    case River(st) => n == 2 && Station2.UniqueIds(st.items)
    case City(st) => n == 3 && Station3.UniqueIds(st.houses)
    case Mountain(st) => n == 4 && Station4.UniqueIds(st.animals)
  }

  /** Whether the mounted station shows its success button. */
  predicate Finished(e: Engine): (b: bool)
    ensures e.Idle? ==> !b
    ensures e.Forest? ==> (b <==> forall i :: 0 <= i < |e.forest.spots| ==> e.forest.spots[i].state == Station1.Grown)
    ensures e.River? ==> (b <==> forall i :: 0 <= i < |e.river.items| ==> e.river.items[i].isCleaned)
    ensures e.City? ==> (b <==> forall i :: 0 <= i < |e.city.houses| ==> !e.city.houses[i].lightsOn && e.city.houses[i].hasPanel)
    ensures e.Mountain? ==> (b <==> forall i :: 0 <= i < |e.mountain.animals| ==> e.mountain.animals[i].rescued)
  {
    match e
    case Idle => false
    case Forest(st) => Station1.ContinueVisible(st)
    case River(st) => Station2.IsComplete(st.items)
    case City(st) => Station3.ContinueVisible(st)
    case Mountain(st) => Station4.ContinueVisible(st)
  }

  /** The component of station `n` as it mounts: its initial layout, not yet finished. */
  function Mount(n: App.StationNumber): (e: Engine)
    ensures EngineFor(e, n) && !Finished(e)
    ensures n == 1 ==> e == Forest(Station1.Initial())
    ensures n == 2 ==> e == River(Station2.Initial())
    ensures n == 3 ==> e == City(Station3.Initial())
    ensures n == 4 ==> e == Mountain(Station4.Initial())
  {
    match n
    case 1 => Forest(Station1.Initial())
    case 2 => River(Station2.Initial())
    case 3 =>
      assert !Station3.Initial().houses[0].hasPanel;
      City(Station3.Initial())
    case 4 =>
      assert !Station4.Initial().animals[0].rescued;
      Mountain(Station4.Initial())
  }

  /**
   A press on the map: the card at position `slot` of the page shown reports
   its station only if it is the next one, and the orchestrator then shows
   that station's game with its component freshly mounted.
   */
  function PressOnMap(s: Session, slot: int): (r: Session)
    ensures r != s ==> && 0 <= slot < 2 && |s.app.completed| == 4
                       && MapScreen.VisibleStations(s.app.completed, s.app.currentStation)[slot].id == s.app.currentStation + 1
    ensures r != s ==> && 0 <= s.app.currentStation <= 3
                       && r.app == s.app.(screen := App.StationGame(s.app.currentStation + 1))
                       && r.engine == Mount(s.app.currentStation + 1)
  {
    if !(0 <= slot < 2) || |s.app.completed| != 4 then s
    else
      var card := MapScreen.VisibleStations(s.app.completed, s.app.currentStation)[slot];
      match MapScreen.PressCard(card, s.app.currentStation)
      case None => s
      case Some(id) =>
        if 1 <= id <= 4 then Session(App.HandleStationSelect(s.app, id), Mount(id))
        else s.(app := App.HandleStationSelect(s.app, id))
  }

  /**
   An action on a station game screen: a move goes to the mounted component
   of the matching station; the success button, once shown, reports the
   completion to the orchestrator and unmounts the component.
   */
  function PlayStation(s: Session, n: App.StationNumber, a: Action): (r: Session)
    ensures !a.PressContinue? ==> r.app == s.app
    ensures a.PressContinue? && !Finished(s.engine) ==> r == s
    ensures a.PressContinue? && Finished(s.engine) ==> r.app == s.app.(screen := App.StationReward(n)) && r.engine.Idle?
  {
    match a
    case Plant(m) => if s.engine.Forest? then s.(engine := Forest(Station1.HandleInteract(s.engine.forest, m.spotId, m.tool))) else s
    case Clean(d) => if s.engine.River? then s.(engine := River(Station2.DragToBin(s.engine.river, d))) else s
    case Power(m) => if s.engine.City? then s.(engine := City(Station3.Apply(s.engine.city, m))) else s
    case Rescue(d) => if s.engine.Mountain? then s.(engine := Mountain(Station4.DragToZone(s.engine.mountain, d))) else s
    case PressContinue => if Finished(s.engine) then Session(App.HandleStationComplete(s.app, n), Idle) else s
    case _ => s
  }

  /** Whether `screen` wires up action `a`: its button, its cards or its drop targets. */
  predicate Offers(screen: App.Screen, a: Action) {
    match screen
    case Start => a.PressStart?
    case AvatarSelection => a.ChooseAvatar?
    case Map => a.PressCard?
    case StationGame(n) =>
      || a.PressContinue?
      || (n == 1 && a.Plant?) || (n == 2 && a.Clean?) || (n == 3 && a.Power?) || (n == 4 && a.Rescue?)
    case StationReward(_) => a.CollectReward?
    case Final => a.PlayAgain?
  }

  /**
   One action of the player, on whatever screen is shown. An action the
   screen does not offer changes nothing; outside the station games the
   mounted component is dropped or left alone, and only a press on the map
   mounts one.
   */
  function Step(s: Session, a: Action): (r: Session)
    ensures Consistent(s) && !Offers(s.app.screen, a) ==> r == s
    ensures s.app.screen.Start? && a.PressStart? ==> r.app.screen == App.AvatarSelection
    ensures s.app.screen.AvatarSelection? && a.ChooseAvatar? ==> r.app.screen == App.Map && r.app.avatar == Some(a.avatar)
    ensures s.app.screen.Final? && a.PlayAgain? ==> r == Begin()
  {
    match s.app.screen
    case Start => if a.PressStart? then s.(app := App.HandleStart(s.app)) else s
    case AvatarSelection => if a.ChooseAvatar? then s.(app := App.HandleAvatarSelect(s.app, a.avatar)) else s
    case Map => if a.PressCard? then PressOnMap(s, a.slot) else s
    case StationGame(n) => PlayStation(s, n, a)
    case StationReward(n) => if a.CollectReward? then s.(app := App.HandleStationReward(s.app, n)) else s
    case Final => if a.PlayAgain? then Session(App.HandleRestart(s.app), Idle) else s
  }

  /** The session after a sequence of actions. */
  function Run(s: Session, actions: seq<Action>): Session
    decreases |actions|
  {
    if |actions| == 0 then s else Run(Step(s, actions[0]), actions[1..])
  }

  /**
   What holds of every session the player can reach: before the avatar is
   chosen nothing has happened; from the map on, an avatar is chosen and the
   stations before the current one, and only those, are completed; a station
   game or reward screen belongs to the station after the current one; the
   final screen comes with every station completed; and a component is
   mounted exactly on the station game screens, for that station.
   */
  ghost predicate Consistent(s: Session) {
    var a := s.app;
    && |a.completed| == 4 && 0 <= a.currentStation <= 3
    && ((a.screen.Start? || a.screen.AvatarSelection?) ==> a == App.Init().(screen := a.screen))
    && ((a.screen.Map? || a.screen.StationGame? || a.screen.StationReward?) ==>
          a.avatar.Some? && App.UnlockOrder(a))
    && ((a.screen.StationGame? || a.screen.StationReward?) ==> a.screen.station == a.currentStation + 1)
    && (a.screen.Final? ==>
          a.avatar.Some? && a.currentStation == 3 && forall i :: 0 <= i < 4 ==> a.completed[i])
    && (if a.screen.StationGame? then EngineFor(s.engine, a.screen.station) else s.engine.Idle?)
  }

  /**
   The map's progress counter shows the current station: on every screen
   from the map to a reward the completed stations are exactly the ones
   before the current station, so the counter equals it; on the final
   screen it shows all four.
   */
  lemma ProgressShowsCurrentStation(s: Session)
    requires Consistent(s) && !s.app.screen.Start? && !s.app.screen.AvatarSelection?
    ensures !s.app.screen.Final? ==> MapScreen.ProgressCount(s.app.completed) == s.app.currentStation
    ensures s.app.screen.Final? ==> MapScreen.ProgressCount(s.app.completed) == 4
  {
    if s.app.screen.Final? {
      MapScreen.ProgressCountMatchesCompletion(s.app.completed);
    } else {
      MapScreen.ProgressCountOfUnlocked(s.app.completed, s.app.currentStation);
    }
  }

  /** The game opens in a consistent session. */
  lemma BeginConsistent()
    ensures Consistent(Begin())
  {
  }

  /** Which card a press on the map hits: the next station's, or a disabled one that does nothing. */
  lemma PressOnMapOutcome(s: Session, slot: int)
    requires Consistent(s) && s.app.screen.Map?
    ensures var r := Step(s, PressCard(slot));
      && (r != s <==> 0 <= slot < 2 && MapScreen.VisibleStations(s.app.completed, s.app.currentStation)[slot].id == s.app.currentStation + 1)
      && (r != s ==> r.app == s.app.(screen := App.StationGame(s.app.currentStation + 1)) && r.engine == Mount(s.app.currentStation + 1))
  {
    if 0 <= slot < 2 {
      var card := MapScreen.VisibleStations(s.app.completed, s.app.currentStation)[slot];
      if card.id == s.app.currentStation + 1 {
        assert PressOnMap(s, slot) == Session(App.HandleStationSelect(s.app, card.id), Mount(card.id));
      } else {
        assert PressOnMap(s, slot) == s;
      }
    }
  }

  /** A station component keeps its pieces told apart by id whatever move is made. */
  lemma PlayStationKeepsEngine(s: Session, n: App.StationNumber, a: Action)
    requires EngineFor(s.engine, n)
    requires !a.PressContinue?
    ensures PlayStation(s, n, a).app == s.app && EngineFor(PlayStation(s, n, a).engine, n)
  {
    match a
    case Plant(m) =>
      if s.engine.Forest? {
        var st := s.engine.forest;
        assert Station1.HandleInteract(st, m.spotId, m.tool).spots == Station1.UpdateSpots(st.spots, m.spotId, m.tool);
      }
    case Clean(d) =>
      if s.engine.River? {
        var st := s.engine.river;
        if 0 <= d.piece < |st.items| && !st.items[d.piece].isCleaned {
          Station2.DropKeepsShape(st, st.items[d.piece].id, d.bin);
        }
      }
    case Power(m) =>
      if s.engine.City? {
        Station3.ApplyEffect(s.engine.city, m);
      }
    case Rescue(d) =>
      if s.engine.Mountain? {
        Station4.DragEffect(s.engine.mountain, d);
      }
    case _ =>
  }

  /** Every action keeps the session consistent. */
  lemma StepPreservesConsistent(s: Session, a: Action)
    requires Consistent(s)
    ensures Consistent(Step(s, a))
  {
    match s.app.screen
    case Map =>
      if a.PressCard? {
        PressOnMapConsistent(s, a.slot);
      }
    case StationGame(n) =>
      if a.PressContinue? {
        ContinueConsistent(s);
      } else {
        PlayStationKeepsEngine(s, n, a);
      }
    case StationReward(n) =>
      if a.CollectReward? {
        CollectConsistent(s);
      }
    case _ =>
  }

  /** A press on the map keeps the session consistent. */
  lemma PressOnMapConsistent(s: Session, slot: int)
    requires Consistent(s) && s.app.screen.Map?
    ensures Consistent(PressOnMap(s, slot))
  {
    var r := PressOnMap(s, slot);
    if r != s {
      assert r.app.completed == s.app.completed && r.app.currentStation == s.app.currentStation;
      assert App.UnlockOrder(r.app);
    }
  }

  /** The success button of a station game keeps the session consistent. */
  lemma ContinueConsistent(s: Session)
    requires Consistent(s) && s.app.screen.StationGame?
    ensures Consistent(Step(s, PressContinue))
  {
  }

  /** Collecting a reward keeps the session consistent. */
  lemma CollectConsistent(s: Session)
    requires Consistent(s) && s.app.screen.StationReward?
    ensures Consistent(Step(s, CollectReward))
  {
  }

  /** Every sequence of actions keeps the session consistent. */
  lemma {:induction false} RunPreservesConsistent(s: Session, actions: seq<Action>)
    requires Consistent(s)
    ensures Consistent(Run(s, actions))
    decreases |actions|
  {
    if |actions| > 0 {
      StepPreservesConsistent(s, actions[0]);
      RunPreservesConsistent(Step(s, actions[0]), actions[1..]);
    }
  }

  /** Every session the player can reach from the start is consistent. */
  lemma ReachableIsConsistent(actions: seq<Action>)
    ensures Consistent(Run(Begin(), actions))
  {
    BeginConsistent();
    RunPreservesConsistent(Begin(), actions);
  }

  /**
   A station's game screen is only ever shown after every earlier station,
   and not this one, has been completed.
   */
  lemma StationsPlayedInOrder(s: Session)
    requires Consistent(s) && s.app.screen.StationGame?
    ensures var n := s.app.screen.station;
      && (forall i :: 0 <= i < n - 1 ==> s.app.completed[i])
      && !s.app.completed[n - 1]
  {
  }

  /** On the map the next station can always be entered: its card is on the page shown. */
  lemma NextStationReachable(s: Session)
    requires Consistent(s) && s.app.screen.Map?
    ensures exists slot :: 0 <= slot < 2 && Step(s, PressCard(slot)).app.screen == App.StationGame(s.app.currentStation + 1)
  {
    MapScreen.SelectableIsVisible(s.app.completed, s.app.currentStation);
    var v := MapScreen.VisibleStations(s.app.completed, s.app.currentStation);
    var k :| 0 <= k < 2 && MapScreen.Selectable(v[k], s.app.currentStation);
    PressOnMapOutcome(s, k);
  }

  /** The success button of a station game leads to its reward exactly when the station is finished. */
  lemma ContinueOnlyWhenFinished(s: Session)
    requires Consistent(s) && s.app.screen.StationGame?
    ensures var r := Step(s, PressContinue);
      (r.app.screen == App.StationReward(s.app.screen.station) <==> Finished(s.engine))
      && (!Finished(s.engine) ==> r == s)
  {
  }

  /**
   Progress is never lost: apart from the final screen's restart, no action
   un-completes a station, moves the current station back or forgets the
   avatar.
   */
  lemma ProgressNeverLost(s: Session, a: Action)
    requires Consistent(s)
    requires !(s.app.screen.Final? && a.PlayAgain?)
    ensures var r := Step(s, a);
      && |r.app.completed| == 4
      && (forall i :: 0 <= i < 4 && s.app.completed[i] ==> r.app.completed[i])
      && s.app.currentStation <= r.app.currentStation
      && (s.app.avatar.Some? ==> r.app.avatar == s.app.avatar)
  {
  }

  /** The final screen's button forgets everything and opens the game anew. */
  lemma PlayAgainStartsOver(s: Session)
    requires s.app.screen.Final?
    ensures Step(s, PlayAgain) == Begin()
  {
  }

  /** The moves of station 1 as game actions. */
  function Plants(moves: seq<Station1.Move>): (acts: seq<Action>)
    ensures |acts| == |moves|
  {
    seq(|moves|, i requires 0 <= i < |moves| => Plant(moves[i]))
  }

  /** The drags of station 2 as game actions. */
  function Cleans(drags: seq<Station2.Drag>): (acts: seq<Action>)
    ensures |acts| == |drags|
  {
    seq(|drags|, i requires 0 <= i < |drags| => Clean(drags[i]))
  }

  /** The moves of station 3 as game actions. */
  function Powers(moves: seq<Station3.Move>): (acts: seq<Action>)
    ensures |acts| == |moves|
  {
    seq(|moves|, i requires 0 <= i < |moves| => Power(moves[i]))
  }

  /** The drags of station 4 as game actions. */
  function Rescues(drags: seq<Station4.Drag>): (acts: seq<Action>)
    ensures |acts| == |drags|
  {
    seq(|drags|, i requires 0 <= i < |drags| => Rescue(drags[i]))
  }

  /** Playing station 1 inside the game is playing the station on its own. */
  lemma {:induction false} ForestRun(s: Session, moves: seq<Station1.Move>)
    requires s.app.screen == App.StationGame(1) && s.engine.Forest?
    ensures Run(s, Plants(moves)) == s.(engine := Forest(Station1.Play(s.engine.forest, moves)))
    decreases |moves|
  {
    if |moves| > 0 {
      assert Plants(moves)[1..] == Plants(moves[1..]);
      ForestRun(Step(s, Plant(moves[0])), moves[1..]);
    }
  }

  /** Playing station 2 inside the game is playing the station on its own. */
  lemma {:induction false} RiverRun(s: Session, drags: seq<Station2.Drag>)
    requires s.app.screen == App.StationGame(2) && s.engine.River?
    ensures Run(s, Cleans(drags)) == s.(engine := River(Station2.Play(s.engine.river, drags)))
    decreases |drags|
  {
    if |drags| > 0 {
      assert Cleans(drags)[1..] == Cleans(drags[1..]);
      RiverRun(Step(s, Clean(drags[0])), drags[1..]);
    }
  }

  /** Playing station 3 inside the game is playing the station on its own. */
  lemma {:induction false} CityRun(s: Session, moves: seq<Station3.Move>)
    requires s.app.screen == App.StationGame(3) && s.engine.City?
    ensures Run(s, Powers(moves)) == s.(engine := City(Station3.Play(s.engine.city, moves)))
    decreases |moves|
  {
    if |moves| > 0 {
      assert Powers(moves)[1..] == Powers(moves[1..]);
      CityRun(Step(s, Power(moves[0])), moves[1..]);
    }
  }

  /** Playing station 4 inside the game is playing the station on its own. */
  lemma {:induction false} MountainRun(s: Session, drags: seq<Station4.Drag>)
    requires s.app.screen == App.StationGame(4) && s.engine.Mountain?
    ensures Run(s, Rescues(drags)) == s.(engine := Mountain(Station4.Play(s.engine.mountain, drags)))
    decreases |drags|
  {
    if |drags| > 0 {
      assert Rescues(drags)[1..] == Rescues(drags[1..]);
      MountainRun(Step(s, Rescue(drags[0])), drags[1..]);
    }
  }

  /** Running two sequences of actions is running their concatenation. */
  lemma {:induction false} RunAppend(s: Session, xs: seq<Action>, ys: seq<Action>)
    ensures Run(s, xs + ys) == Run(Run(s, xs), ys)
    decreases |xs|
  {
    if |xs| == 0 {
      assert xs + ys == ys;
    } else {
      assert (xs + ys)[0] == xs[0];
      assert (xs + ys)[1..] == xs[1..] + ys;
      RunAppend(Step(s, xs[0]), xs[1..], ys);
    }
  }

  /** Every piece of trash into its own bin. */
  function RiverDrags(): seq<Station2.Drag> {
    seq(6, i requires 0 <= i < 6 => Station2.Drag(i, Station2.Initial().items[i].kind))
  }

  /** Every animal to its own habitat. */
  function MountainDrags(): seq<Station4.Drag> {
    seq(5, i requires 0 <= i < 5 => Station4.Drag(i, Station4.Initial().animals[i].habitat))
  }

  /** A winning play of station `n`, from its initial layout. */
  function WinningMoves(n: App.StationNumber): seq<Action> {
    match n
    case 1 => Plants(Station1.PlantFirst(5))
    case 2 => Cleans(RiverDrags())
    case 3 => Powers(Station3.CityMoves())
    case 4 => Rescues(MountainDrags())
  }

  /** Seeding and watering every spot in turn finishes the forest. */
  lemma ForestWon(s: Session)
    requires s.app.screen == App.StationGame(1) && s.engine == Mount(1)
    ensures var r := Run(s, WinningMoves(1));
      r.app == s.app && r.engine.Forest? && Finished(r.engine)
  {
    ForestRun(s, Station1.PlantFirst(5));
    Station1.PlantEverySpot();
  }

  /** Putting every piece of trash into its own bin finishes the river. */
  lemma RiverWon(s: Session)
    requires s.app.screen == App.StationGame(2) && s.engine == Mount(2)
    ensures var r := Run(s, WinningMoves(2));
      r.app == s.app && r.engine.River? && Finished(r.engine)
  {
    var drags := RiverDrags();
    RiverRun(s, drags);
    forall i | 0 <= i < 6 ensures Station2.Drag(i, Station2.Initial().items[i].kind) in drags {
      assert drags[i] == Station2.Drag(i, Station2.Initial().items[i].kind);
    }
    Station2.AnyOrderCleansRiver(drags);
  }

  /** Switching every light off and giving every building a panel finishes the city. */
  lemma CityWon(s: Session)
    requires s.app.screen == App.StationGame(3) && s.engine == Mount(3)
    ensures var r := Run(s, WinningMoves(3));
      r.app == s.app && r.engine.City? && Finished(r.engine)
  {
    CityRun(s, Station3.CityMoves());
    Station3.CityMovesTouchEachOnce();
    Station3.AnyOrderCompletesCity(Station3.Initial(), Station3.CityMoves());
  }

  /** Taking every animal to its own habitat finishes the mountain. */
  lemma MountainWon(s: Session)
    requires s.app.screen == App.StationGame(4) && s.engine == Mount(4)
    ensures var r := Run(s, WinningMoves(4));
      r.app == s.app && r.engine.Mountain? && Finished(r.engine)
  {
    var drags := MountainDrags();
    MountainRun(s, drags);
    forall i | 0 <= i < 5 ensures Station4.Drag(i, Station4.Initial().animals[i].habitat) in drags {
      assert drags[i] == Station4.Drag(i, Station4.Initial().animals[i].habitat);
    }
    Station4.AnyOrderRescuesAll(Station4.Initial(), drags);
  }

  /** The winning moves of each station finish it, and leave the orchestrator alone. */
  lemma WinningMovesFinish(s: Session, n: App.StationNumber)
    requires s.app.screen == App.StationGame(n) && s.engine == Mount(n)
    ensures var r := Run(s, WinningMoves(n));
      r.app == s.app && Finished(r.engine)
  {
    match n
    case 1 => ForestWon(s);
    case 2 => RiverWon(s);
    case 3 => CityWon(s);
    case 4 => MountainWon(s);
  }

  /** The map position of station `n`'s card: left for the odd stations, right for the even ones. */
  function Slot(n: App.StationNumber): int {
    if n == 1 || n == 3 then 0 else 1
  }

  /** One round of the journey: enter the next station, win it, continue, collect the reward. */
  function Round(n: App.StationNumber): seq<Action> {
    [PressCard(Slot(n))] + WinningMoves(n) + [PressContinue, CollectReward]
  }

  /** Two actions in a row. */
  lemma RunTwo(s: Session, a: Action, b: Action)
    ensures Run(s, [a, b]) == Step(Step(s, a), b)
  {
    var acts := [a, b];
    assert acts[1..] == [b];
    assert Run(s, acts) == Run(Step(s, a), [b]);
    assert [b][1..] == [];
    assert Run(Step(s, a), [b]) == Run(Step(Step(s, a), b), []);
  }

  /** From the map with station `n` next, pressing its card opens its game with the component mounted. */
  lemma EnterStation(s: Session, n: App.StationNumber)
    requires Consistent(s) && s.app.screen.Map? && s.app.currentStation == n - 1
    ensures Run(s, [PressCard(Slot(n))]) == Session(s.app.(screen := App.StationGame(n)), Mount(n))
  {
    var card := MapScreen.VisibleStations(s.app.completed, s.app.currentStation)[Slot(n)];
    assert card.id == n;
    PressOnMapOutcome(s, Slot(n));
    assert [PressCard(Slot(n))][1..] == [];
  }

  /** From a finished station game, continuing and collecting the reward records the station. */
  lemma LeaveStation(s: Session, n: App.StationNumber)
    requires s.app.screen == App.StationGame(n) && Finished(s.engine)
    ensures Run(s, [PressContinue, CollectReward]) == Session(App.HandleStationReward(s.app, n), Idle)
  {
    RunTwo(s, PressContinue, CollectReward);
  }

  /**
   A round played from the map with station `n` next completes station `n`:
   back on the map with `n` as the current station, or, after the last
   station, on the final screen.
   */
  lemma RoundCompletesStation(s: Session, n: App.StationNumber)
    requires Consistent(s) && s.app.screen.Map? && s.app.currentStation == n - 1
    ensures var r := Run(s, Round(n));
      && Consistent(r) && r.app.avatar == s.app.avatar
      && (forall i :: 0 <= i < n ==> r.app.completed[i])
      && (n < 4 ==> r.app.screen.Map? && r.app.currentStation == n)
      && (n == 4 ==> r.app.screen.Final?)
  {
    var enter := [PressCard(Slot(n))];
    var leave := [PressContinue, CollectReward];
    EnterStation(s, n);
    var s1 := Run(s, enter);
    WinningMovesFinish(s1, n);
    var s2 := Run(s1, WinningMoves(n));
    LeaveStation(s2, n);
    RunAppend(s, enter, WinningMoves(n));
    RunAppend(s, enter + WinningMoves(n), leave);
    assert Round(n) == enter + WinningMoves(n) + leave;
    RunPreservesConsistent(s, Round(n));
  }

  /** The whole journey: start, choose an avatar, then one round per station. */
  function Journey(avatar: App.Avatar): seq<Action> {
    [PressStart, ChooseAvatar(avatar)] + Round(1) + Round(2) + Round(3) + Round(4)
  }

  /** Playing the journey from the start reaches the final screen with every station completed. */
  lemma JourneyReachesFinal(avatar: App.Avatar)
    ensures var r := Run(Begin(), Journey(avatar));
      && r.app.screen.Final? && r.app.avatar == Some(avatar) && |r.app.completed| == 4
      && forall i :: 0 <= i < 4 ==> r.app.completed[i]
  {
    var s0 := Begin();
    var intro := [PressStart, ChooseAvatar(avatar)];
    var m := Run(s0, intro);
    RunTwo(s0, PressStart, ChooseAvatar(avatar));
    assert m.app.screen.Map? && Consistent(m);
    RoundCompletesStation(m, 1);
    var m1 := Run(m, Round(1));
    RoundCompletesStation(m1, 2);
    var m2 := Run(m1, Round(2));
    RoundCompletesStation(m2, 3);
    var m3 := Run(m2, Round(3));
    RoundCompletesStation(m3, 4);
    RunAppend(s0, intro + Round(1) + Round(2) + Round(3), Round(4));
    RunAppend(s0, intro + Round(1) + Round(2), Round(3));
    RunAppend(s0, intro + Round(1), Round(2));
    RunAppend(s0, intro, Round(1));
  }
}
