/**
 Station 1, the forest: five planting spots, each of which goes from empty
 to seeded to grown when the seed tool and then the water tool are dropped
 on it. The station is complete when every spot has grown.
 */
module Station1 {
  import opened Collections

  datatype SpotState = Empty | Seeded | Grown

  /** The two tools on the panel; a drop on a spot carries the tool's kind. */
  datatype Tool = Seed | Water

  datatype PlantingSpot = PlantingSpot(id: int, x: int, y: int, state: SpotState)

  /** The guide's messages, one per distinct text the station shows. */
  datatype Guide =
    | Welcome        // drag the seeds to the soil
    | WellSown       // now it needs water
    | TreeGrew       // a tree grew
    | SeedFirst      // water on bare soil: a seed is needed first
    | AlreadyStrong  // this tree is already grown
    | MissionDone    // every spot has grown

  datatype State = State(spots: seq<PlantingSpot>, guide: Guide)

  /** The layout the station mounts with: spots 1 to 5 in a row, all empty. */
  function Initial(): (st: State)
    ensures |st.spots| == 5 && st.guide == Welcome
    ensures forall i :: 0 <= i < 5 ==> st.spots[i].id == i + 1 && st.spots[i].state == Empty
  {
    State([ PlantingSpot(1, 20, 65, Empty),
            PlantingSpot(2, 35, 65, Empty),
            PlantingSpot(3, 50, 65, Empty),
            PlantingSpot(4, 65, 65, Empty),
            PlantingSpot(5, 80, 65, Empty) ],
          Welcome)
  }

  /** How far a spot has come: empty < seeded < grown. */
  function Rank(s: SpotState): nat {
    match s
    case Empty => 0
    case Seeded => 1
    case Grown => 2
  }

  /** The tool a spot is waiting for, if any. */
  function Needs(s: SpotState): Option<Tool> {
    match s
    case Empty => Some(Seed)
    case Seeded => Some(Water)
    case Grown => None
  }

  /**
   The transition of one spot under a dropped tool: the spot moves one step
   forward exactly when it receives the tool it is waiting for, and otherwise
   stays as it is.
   */
  function Next(state: SpotState, tool: Tool): (r: SpotState)
    ensures r != state <==> Needs(state) == Some(tool)
    ensures r != state ==> Rank(r) == Rank(state) + 1
  {
    if state == Empty && tool == Seed then Seeded
    else if state == Seeded && tool == Water then Grown
    else state
  }

  /** The message the drop handler writes for a spot it visits (`g` when it writes none). */
  function Feedback(state: SpotState, tool: Tool, g: Guide): (r: Guide)
    ensures Next(state, tool) != state ==> r == (if tool == Seed then WellSown else TreeGrew)
    ensures state == Empty && tool == Water ==> r == SeedFirst
    ensures state == Grown ==> r == AlreadyStrong
    ensures state == Seeded && tool == Seed ==> r == g
  {
    if state == Empty && tool == Seed then WellSown
    else if state == Seeded && tool == Water then TreeGrew
    else if state == Empty && tool == Water then SeedFirst
    else if state == Grown then AlreadyStrong
    else g
  }

  /** The spots after a tool is dropped on spot `id`: every spot with that id takes its transition. */
  function UpdateSpots(spots: seq<PlantingSpot>, id: int, tool: Tool): (r: seq<PlantingSpot>)
    ensures |r| == |spots|
    ensures forall i :: 0 <= i < |r| ==>
      r[i].id == spots[i].id && r[i].x == spots[i].x && r[i].y == spots[i].y
    ensures forall i :: 0 <= i < |r| && spots[i].id != id ==> r[i] == spots[i]
    ensures forall i :: 0 <= i < |r| && spots[i].id == id ==> r[i].state == Next(spots[i].state, tool)
  {
    seq(|spots|, i requires 0 <= i < |spots| =>
      if spots[i].id == id then spots[i].(state := Next(spots[i].state, tool)) else spots[i])
  }

  /**
   The message after the drop handler has visited every spot in order; the
   last spot with the given id decides it.
   */
  function GuideAfter(spots: seq<PlantingSpot>, id: int, tool: Tool, g: Guide): Guide
    decreases |spots|
  {
    if |spots| == 0 then g
    else
      var g' := if spots[0].id == id then Feedback(spots[0].state, tool, g) else g;
      GuideAfter(spots[1..], id, tool, g')
  }

  /** Number of spots that have grown into trees. */
  function PlantedCount(spots: seq<PlantingSpot>): (n: nat)
    ensures n <= |spots|
  {
    CountWhere(spots, (s: PlantingSpot) => s.state == Grown)
  }

  /** The station is complete when the planted count reaches the number of spots. */
  function IsComplete(spots: seq<PlantingSpot>): (b: bool)
    ensures b <==> forall i :: 0 <= i < |spots| ==> spots[i].state == Grown
  {
    PlantedCount(spots) == |spots|
  }

  /**
   A tool dropped on spot `id`. The spots take their transitions, the guide
   shows the handler's feedback, and when this drop completes the station
   the completion message replaces it.
   */
  function HandleInteract(st: State, id: int, tool: Tool): (r: State)
    ensures |r.spots| == |st.spots|
    ensures forall i :: 0 <= i < |r.spots| ==>
      r.spots[i] == if st.spots[i].id == id then st.spots[i].(state := Next(st.spots[i].state, tool)) else st.spots[i]
    ensures forall i :: 0 <= i < |r.spots| ==> Rank(st.spots[i].state) <= Rank(r.spots[i].state)
    ensures IsComplete(r.spots) && !IsComplete(st.spots) ==> r.guide == MissionDone
    ensures !(IsComplete(r.spots) && !IsComplete(st.spots)) ==> r.guide == GuideAfter(st.spots, id, tool, st.guide)
  {
    var spots := UpdateSpots(st.spots, id, tool);
    var g := GuideAfter(st.spots, id, tool, st.guide);
    State(spots, if IsComplete(spots) && !IsComplete(st.spots) then MissionDone else g)
  }

  /** The continue button is on screen exactly when the station is complete. */
  function ContinueVisible(st: State): (visible: bool)
    ensures visible <==> forall i :: 0 <= i < |st.spots| ==> st.spots[i].state == Grown
  {
    IsComplete(st.spots)
  }

  /** Whether no two spots share an id. */
  predicate UniqueIds(spots: seq<PlantingSpot>) {
    forall i, j :: 0 <= i < j < |spots| ==> spots[i].id != spots[j].id
  }

  /** With unique ids the message is the feedback for the one spot dropped on. */
  lemma {:induction false} GuideOfDroppedSpot(spots: seq<PlantingSpot>, k: nat, tool: Tool, g: Guide)
    requires UniqueIds(spots)
    requires k < |spots|
    ensures GuideAfter(spots, spots[k].id, tool, g) == Feedback(spots[k].state, tool, g)
    decreases |spots|
  {
    var id := spots[k].id;
    var t := spots[1..];
    assert UniqueIds(t) by {
      forall i, j | 0 <= i < j < |t| ensures t[i].id != t[j].id {
        assert t[i] == spots[i + 1] && t[j] == spots[j + 1];
      }
    }
    if k == 0 {
      GuideUnknownSpot(t, id, tool, Feedback(spots[0].state, tool, g));
    } else {
      assert spots[0].id != id;
      assert t[k - 1] == spots[k];
      GuideOfDroppedSpot(t, k - 1, tool, g);
    }
  }

  /** A drop on an id no spot has leaves the message alone. */
  lemma {:induction false} GuideUnknownSpot(spots: seq<PlantingSpot>, id: int, tool: Tool, g: Guide)
    requires forall i :: 0 <= i < |spots| ==> spots[i].id != id
    ensures GuideAfter(spots, id, tool, g) == g
    decreases |spots|
  {
    if |spots| > 0 {
      GuideUnknownSpot(spots[1..], id, tool, g);
    }
  }

  /** A drop on an id no spot has changes nothing at all. */
  lemma DropOutsideSpotsIsNoOp(st: State, id: int, tool: Tool)
    requires forall i :: 0 <= i < |st.spots| ==> st.spots[i].id != id
    ensures HandleInteract(st, id, tool) == st
  {
    GuideUnknownSpot(st.spots, id, tool, st.guide);
    assert UpdateSpots(st.spots, id, tool) == st.spots;
  }

  /** Dropping the same tool twice on a spot does what dropping it once does. */
  lemma InteractIdempotent(st: State, id: int, tool: Tool)
    ensures HandleInteract(HandleInteract(st, id, tool), id, tool).spots == HandleInteract(st, id, tool).spots
  {
    var once := HandleInteract(st, id, tool).spots;
    var twice := HandleInteract(HandleInteract(st, id, tool), id, tool).spots;
    forall i | 0 <= i < |once| ensures twice[i] == once[i] {
      if st.spots[i].id == id {
        assert Next(Next(st.spots[i].state, tool), tool) == Next(st.spots[i].state, tool);
      }
    }
  }

  /** Once every tree has grown, no further drop changes the spots. */
  lemma CompletionIsFinal(st: State, id: int, tool: Tool)
    requires IsComplete(st.spots)
    ensures HandleInteract(st, id, tool).spots == st.spots
  {
    var r := HandleInteract(st, id, tool).spots;
    forall i | 0 <= i < |r| ensures r[i] == st.spots[i] {
      assert st.spots[i].state == Grown;
    }
  }

  /** Water poured on bare soil changes no spot, and the guide asks for a seed first. */
  lemma WaterOnEmpty(st: State, k: nat)
    requires UniqueIds(st.spots) && k < |st.spots| && st.spots[k].state == Empty
    ensures HandleInteract(st, st.spots[k].id, Water).spots == st.spots
    ensures HandleInteract(st, st.spots[k].id, Water).guide == SeedFirst
  {
    var id := st.spots[k].id;
    var spots := UpdateSpots(st.spots, id, Water);
    forall i | 0 <= i < |spots| ensures spots[i] == st.spots[i] {
      if i != k {
        assert st.spots[i].id != id;
      }
    }
    assert spots == st.spots;
    GuideOfDroppedSpot(st.spots, k, Water, st.guide);
  }

  /** A drop of a tool on one spot, as the player makes it. */
  datatype Move = Move(spotId: int, tool: Tool)

  /** The station after a sequence of drops. */
  function Play(st: State, moves: seq<Move>): State
    decreases |moves|
  {
    if |moves| == 0 then st else Play(HandleInteract(st, moves[0].spotId, moves[0].tool), moves[1..])
  }

  /** Seed and then water on spot `id`. */
  function SeedAndWater(id: int): seq<Move> {
    [Move(id, Seed), Move(id, Water)]
  }

  /** Seeding and watering a spot, in that order, grows it and leaves every other spot alone. */
  lemma SeedAndWaterGrows(st: State, k: nat)
    requires k < |st.spots| && st.spots[k].state == Empty
    requires forall i :: 0 <= i < |st.spots| && i != k ==> st.spots[i].id != st.spots[k].id
    ensures var r := Play(st, SeedAndWater(st.spots[k].id));
      |r.spots| == |st.spots| && r.spots[k] == st.spots[k].(state := Grown)
      && forall i :: 0 <= i < |st.spots| && i != k ==> r.spots[i] == st.spots[i]
  {
    var id := st.spots[k].id;
    var a := HandleInteract(st, id, Seed);
    var b := HandleInteract(a, id, Water);
    var moves := SeedAndWater(id);
    assert Play(st, moves) == Play(a, moves[1..]);
    assert Play(a, moves[1..]) == Play(b, moves[2..]);
    assert moves[2..] == [];
  }

  /** Seed and water for spots 1 to `j`, spot by spot. */
  function PlantFirst(j: nat): seq<Move> {
    if j == 0 then [] else PlantFirst(j - 1) + SeedAndWater(j)
  }

  /** Five spots numbered 1 to 5 of which exactly the first `j` have grown and the rest are empty. */
  ghost predicate FirstGrown(spots: seq<PlantingSpot>, j: nat) {
    && |spots| == 5
    && (forall i :: 0 <= i < 5 ==> spots[i].id == i + 1)
    && (forall i :: 0 <= i < 5 ==> spots[i].state == (if i < j then Grown else Empty))
  }

  /** Planting the next spot of such a row extends the grown prefix by one. */
  lemma PlantNext(st: State, j: nat)
    requires j < 5 && FirstGrown(st.spots, j)
    ensures FirstGrown(Play(st, SeedAndWater(j + 1)).spots, j + 1)
  {
    assert st.spots[j].id == j + 1;
    SeedAndWaterGrows(st, j);
  }

  /** After planting the first `j` spots of the initial layout, exactly those have grown. */
  lemma {:induction false} PlantFirstGrows(j: nat)
    requires j <= 5
    ensures FirstGrown(Play(Initial(), PlantFirst(j)).spots, j)
  {
    if j > 0 {
      PlantFirstGrows(j - 1);
      var before := Play(Initial(), PlantFirst(j - 1));
      PlayAppend(Initial(), PlantFirst(j - 1), SeedAndWater(j));
      PlantNext(before, j - 1);
    }
  }

  /** Seeding and watering the five spots one after the other completes the station. */
  lemma PlantEverySpot()
    ensures IsComplete(Play(Initial(), PlantFirst(5)).spots)
  {
    PlantFirstGrows(5);
  }

  /** Playing two sequences of drops is playing their concatenation. */
  lemma {:induction false} PlayAppend(st: State, xs: seq<Move>, ys: seq<Move>)
    ensures Play(st, xs + ys) == Play(Play(st, xs), ys)
    decreases |xs|
  {
    if |xs| == 0 {
      assert xs + ys == ys;
    } else {
      assert (xs + ys)[0] == xs[0];
      assert (xs + ys)[1..] == xs[1..] + ys;
      PlayAppend(HandleInteract(st, xs[0].spotId, xs[0].tool), xs[1..], ys);
    }
  }
}
