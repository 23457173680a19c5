/**
 Station 3, the city: four buildings whose lights are switched by tapping
 them and which each take a solar panel dragged onto them. The station is
 complete while every light is off and every building has a panel; since a
 light can be switched back on, completion can be undone.
 */
module Station3 {
  import opened Collections

  datatype BuildingKind = House | Building

  datatype HouseData = HouseData(id: int, kind: BuildingKind, x: int, y: int, lightsOn: bool, hasPanel: bool)

  /** The guide's messages, one per distinct text the station shows. */
  datatype Guide =
    | Modernize       // let us modernise the city with solar energy
    | SwitchingOff    // good, switching off unneeded lights
    | PanelInstalled  // panel installed, clean energy
    | CityDone        // the future city is complete

  datatype State = State(houses: seq<HouseData>, guide: Guide)

  /** The layout the station mounts with: two houses and two tall buildings, lit, without panels. */
  function Initial(): (st: State)
    ensures |st.houses| == 4 && st.guide == Modernize
    ensures forall i :: 0 <= i < 4 ==>
      st.houses[i].id == i + 1 && st.houses[i].lightsOn && !st.houses[i].hasPanel
  {
    State([ HouseData(1, House, 10, 35, true, false),
            HouseData(2, Building, 38, 20, true, false),
            HouseData(3, House, 65, 45, true, false),
            HouseData(4, Building, 85, 25, true, false) ],
          Modernize)
  }

  predicate AllLightsOff(houses: seq<HouseData>) {
    forall i :: 0 <= i < |houses| ==> !houses[i].lightsOn
  }

  predicate AllPanelsPlaced(houses: seq<HouseData>) {
    forall i :: 0 <= i < |houses| ==> houses[i].hasPanel
  }

  /** Complete means both: all lights off and all panels placed. */
  predicate IsComplete(houses: seq<HouseData>) {
    AllLightsOff(houses) && AllPanelsPlaced(houses)
  }

  /** The message after a step: the completion message when this step completed the city, `g` otherwise. */
  function Settle(before: seq<HouseData>, after: seq<HouseData>, g: Guide): (r: Guide)
    ensures IsComplete(after) && !IsComplete(before) ==> r == CityDone
    ensures !(IsComplete(after) && !IsComplete(before)) ==> r == g
  {
    if IsComplete(after) && !IsComplete(before) then CityDone else g
  }

  /**
   A tap on building `id`: its light flips and nothing else about the
   buildings changes. The guide praises the tap when the building's light was
   on before it.
   */
  function HandleToggleLight(st: State, id: int): (r: State)
    ensures |r.houses| == |st.houses|
    ensures forall i :: 0 <= i < |r.houses| ==>
      r.houses[i] == if st.houses[i].id == id then st.houses[i].(lightsOn := !st.houses[i].lightsOn) else st.houses[i]
    ensures var found := Find(st.houses, (h: HouseData) => h.id == id);
      r.guide == Settle(st.houses, r.houses, if found.Some? && found.value.lightsOn then SwitchingOff else st.guide)
  {
    var houses := seq(|st.houses|, i requires 0 <= i < |st.houses| =>
      if st.houses[i].id == id then st.houses[i].(lightsOn := !st.houses[i].lightsOn) else st.houses[i]);
    var g := match Find(st.houses, (h: HouseData) => h.id == id)
      case Some(h) => if h.lightsOn then SwitchingOff else st.guide
      case None => st.guide;
    State(houses, Settle(st.houses, houses, g))
  }

  /**
   A solar panel dropped on building `id`: the building has a panel from now
   on, its light is untouched, and the guide reports the installation.
   */
  function HandlePlacePanel(st: State, id: int): (r: State)
    ensures |r.houses| == |st.houses|
    ensures forall i :: 0 <= i < |r.houses| ==>
      r.houses[i] == if st.houses[i].id == id then st.houses[i].(hasPanel := true) else st.houses[i]
    ensures r.guide == Settle(st.houses, r.houses, PanelInstalled)
  {
    var houses := seq(|st.houses|, i requires 0 <= i < |st.houses| =>
      if st.houses[i].id == id then st.houses[i].(hasPanel := true) else st.houses[i]);
    State(houses, Settle(st.houses, houses, PanelInstalled))
  }

  /**
   A building receiving a dragged solar panel. It accepts every panel; there
   is no check and so no rejection.
   */
  function PanelDrop(st: State, buildingId: int): (r: State)
    ensures |r.houses| == |st.houses|
    ensures forall i :: 0 <= i < |st.houses| && st.houses[i].id == buildingId ==> r.houses[i].hasPanel
  {
    HandlePlacePanel(st, buildingId)
  }

  /** The next button is on screen exactly while the station is complete. */
  function ContinueVisible(st: State): (visible: bool)
    ensures visible <==> forall i :: 0 <= i < |st.houses| ==> !st.houses[i].lightsOn && st.houses[i].hasPanel
  {
    IsComplete(st.houses)
  }

  /** Tapping the same building twice restores every building. */
  lemma ToggleTwiceRestores(st: State, id: int)
    ensures HandleToggleLight(HandleToggleLight(st, id), id).houses == st.houses
  {
    var r := HandleToggleLight(HandleToggleLight(st, id), id).houses;
    assert |r| == |st.houses|;
    forall i | 0 <= i < |r| ensures r[i] == st.houses[i] {
      assert r[i].x == st.houses[i].x && r[i].y == st.houses[i].y;
    }
  }

  /** Placing a panel twice leaves the buildings as placing it once does. */
  lemma PlacePanelIdempotent(st: State, id: int)
    ensures HandlePlacePanel(HandlePlacePanel(st, id), id).houses == HandlePlacePanel(st, id).houses
  {
  }

  /** A panel once placed is never removed: neither a tap nor a drop takes it away. */
  lemma PanelsStay(st: State, id: int, k: nat)
    requires k < |st.houses| && st.houses[k].hasPanel
    ensures HandleToggleLight(st, id).houses[k].hasPanel
    ensures HandlePlacePanel(st, id).houses[k].hasPanel
  {
  }

  /** The panel indicator, once lit, stays lit whatever the next move is. */
  lemma PanelIndicatorStays(st: State, id: int)
    requires AllPanelsPlaced(st.houses)
    ensures AllPanelsPlaced(HandleToggleLight(st, id).houses)
    ensures AllPanelsPlaced(HandlePlacePanel(st, id).houses)
  {
    forall k | 0 <= k < |st.houses| {
      PanelsStay(st, id, k);
    }
  }

  /** Whether no two buildings share an id. */
  predicate UniqueIds(houses: seq<HouseData>) {
    forall i, j :: 0 <= i < j < |houses| ==> houses[i].id != houses[j].id
  }

  /**
   The guide after a tap on building `k`: switching a light off is praised
   (or completes the city), switching it back on leaves the message alone.
   */
  lemma ToggleGuide(st: State, k: nat)
    requires UniqueIds(st.houses) && k < |st.houses|
    ensures var r := HandleToggleLight(st, st.houses[k].id);
      && (st.houses[k].lightsOn ==> r.guide == (if IsComplete(r.houses) then CityDone else SwitchingOff))
      && (!st.houses[k].lightsOn ==> r.guide == st.guide)
  {
    var p := (h: HouseData) => h.id == st.houses[k].id;
    FindFirst(st.houses, p, k);
    var r := HandleToggleLight(st, st.houses[k].id);
    if st.houses[k].lightsOn {
      assert !IsComplete(st.houses);
    } else {
      assert r.houses[k].lightsOn;
    }
  }

  /**
   Panels alone do not complete the city: with every panel placed and only
   building `k` still lit the station is not complete, and tapping that
   building completes it and brings up the completion message.
   */
  lemma CompletionNeedsBoth(st: State, k: nat)
    requires UniqueIds(st.houses) && k < |st.houses|
    requires AllPanelsPlaced(st.houses) && st.houses[k].lightsOn
    requires forall i :: 0 <= i < |st.houses| && i != k ==> !st.houses[i].lightsOn
    ensures !IsComplete(st.houses)
    ensures IsComplete(HandleToggleLight(st, st.houses[k].id).houses)
    ensures HandleToggleLight(st, st.houses[k].id).guide == CityDone
  {
    var r := HandleToggleLight(st, st.houses[k].id).houses;
    forall i | 0 <= i < |r| ensures !r[i].lightsOn && r[i].hasPanel {
      if i != k {
        assert st.houses[i].id != st.houses[k].id;
      }
    }
  }

  /** Completion is not latched: tapping any building of a complete city undoes it. */
  lemma CompletionNotLatched(st: State, k: nat)
    requires IsComplete(st.houses) && k < |st.houses|
    ensures !IsComplete(HandleToggleLight(st, st.houses[k].id).houses)
  {
    assert HandleToggleLight(st, st.houses[k].id).houses[k].lightsOn;
  }

  /** What the player does to the building at position `building`: tap its lights, or drop a panel on it. */
  datatype Move = Tap(building: int) | Panel(building: int)

  /** One move as the screen allows it: only the rendered buildings can be tapped or receive a panel. */
  function Apply(st: State, m: Move): (r: State)
    ensures !(0 <= m.building < |st.houses|) ==> r == st
  {
    if !(0 <= m.building < |st.houses|) then st
    else match m
      case Tap(k) => HandleToggleLight(st, st.houses[k].id)
      case Panel(k) => PanelDrop(st, st.houses[k].id)
  }

  /** The station after a sequence of moves. */
  function Play(st: State, moves: seq<Move>): State
    decreases |moves|
  {
    if |moves| == 0 then st else Play(Apply(st, moves[0]), moves[1..])
  }

  /** Whether building `k` was tapped an odd number of times. */
  function OddTaps(moves: seq<Move>, k: int): bool
    decreases |moves|
  {
    if |moves| == 0 then false else (moves[0] == Tap(k)) != OddTaps(moves[1..], k)
  }

  /** One move flips exactly the tapped building's light and adds exactly the dropped panel. */
  lemma ApplyEffect(st: State, m: Move)
    requires UniqueIds(st.houses)
    ensures var r := Apply(st, m);
      |r.houses| == |st.houses| && UniqueIds(r.houses)
      && (forall i :: 0 <= i < |r.houses| ==> r.houses[i].id == st.houses[i].id)
      && (forall i :: 0 <= i < |r.houses| ==> r.houses[i].lightsOn == (st.houses[i].lightsOn != (m == Tap(i))))
      && (forall i :: 0 <= i < |r.houses| ==> r.houses[i].hasPanel == (st.houses[i].hasPanel || m == Panel(i)))
  {
  }

  /**
   With unique ids, after a sequence of moves a building's light is on exactly
   when it was on before and was tapped an even number of times, or was off
   and tapped an odd number of times; it has a panel exactly when it had one
   before or a panel was dropped on it.
   */
  lemma {:induction false} PlayOutcome(st: State, moves: seq<Move>)
    requires UniqueIds(st.houses)
    ensures var r := Play(st, moves);
      |r.houses| == |st.houses|
      && (forall i :: 0 <= i < |r.houses| ==> r.houses[i].id == st.houses[i].id)
      && (forall i :: 0 <= i < |r.houses| ==>
            r.houses[i].lightsOn == (st.houses[i].lightsOn != OddTaps(moves, i)))
      && (forall i :: 0 <= i < |r.houses| ==>
            r.houses[i].hasPanel == (st.houses[i].hasPanel || Panel(i) in moves))
    decreases |moves|
  {
    if |moves| > 0 {
      var m := moves[0];
      var next := Apply(st, m);
      ApplyEffect(st, m);
      PlayOutcome(next, moves[1..]);
      assert Play(st, moves) == Play(next, moves[1..]);
      assert forall e :: e in moves <==> e == m || e in moves[1..] by {
        assert moves == [m] + moves[1..];
      }
    }
  }

  /** Tap every building once, then give each a panel. */
  function CityMoves(): seq<Move> {
    [Tap(0), Tap(1), Tap(2), Tap(3), Panel(0), Panel(1), Panel(2), Panel(3)]
  }

  /**
   In a city whose buildings are all lit, any moves that tap every building
   an odd number of times and give each a panel, in any order, complete it.
   */
  lemma AnyOrderCompletesCity(st: State, moves: seq<Move>)
    requires UniqueIds(st.houses)
    requires forall i :: 0 <= i < |st.houses| ==> st.houses[i].lightsOn
    requires forall i :: 0 <= i < |st.houses| ==> OddTaps(moves, i) && Panel(i) in moves
    ensures IsComplete(Play(st, moves).houses)
  {
    PlayOutcome(st, moves);
  }

  /** The scripted moves tap every building an odd number of times and panel every one. */
  lemma CityMovesTouchEachOnce()
    ensures forall i :: 0 <= i < 4 ==> OddTaps(CityMoves(), i) && Panel(i) in CityMoves()
  {
    var moves := CityMoves();
    forall i | 0 <= i < 4 ensures OddTaps(moves, i) && Panel(i) in moves {
      assert moves[i] == Tap(i) && moves[4 + i] == Panel(i);
      assert forall j :: 0 <= j < 8 && j != i ==> moves[j] != Tap(i);
      TapsOnce(moves, i, i);
    }
  }

  /** A move sequence holding exactly one tap of building `k`, at position `j`, taps it once. */
  lemma {:induction false} TapsOnce(moves: seq<Move>, k: int, j: nat)
    requires j < |moves| && moves[j] == Tap(k)
    requires forall i :: 0 <= i < |moves| && i != j ==> moves[i] != Tap(k)
    ensures OddTaps(moves, k)
    decreases |moves|
  {
    var t := moves[1..];
    if j == 0 {
      NoTaps(t, k);
    } else {
      TapsOnce(t, k, j - 1);
    }
  }

  /** A building never tapped has not been tapped an odd number of times. */
  lemma {:induction false} NoTaps(moves: seq<Move>, k: int)
    requires forall i :: 0 <= i < |moves| ==> moves[i] != Tap(k)
    ensures !OddTaps(moves, k)
    decreases |moves|
  {
    if |moves| > 0 {
      NoTaps(moves[1..], k);
    }
  }
}
