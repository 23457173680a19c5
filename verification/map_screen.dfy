/**
 The map: four station cards built from the progress record, shown two per
 page, of which only the card right after the current station can be pressed.
 This is where the unlock rule lives; the orchestrator's station handler
 accepts any station number.
 */
module MapScreen {
  import opened Collections

  /** A station card: its number and whether the station is completed. */
  datatype StationCard = StationCard(id: int, completed: bool)

  /** The four station cards, numbered 1 to 4, read from the progress record. */
  function Cards(completedStations: seq<bool>): (cards: seq<StationCard>)
    requires |completedStations| == 4
    ensures |cards| == 4
    ensures forall k :: 0 <= k < 4 ==> cards[k].id == k + 1 && cards[k].completed == completedStations[k]
  {
    [ StationCard(1, completedStations[0]),
      StationCard(2, completedStations[1]),
      StationCard(3, completedStations[2]),
      StationCard(4, completedStations[3]) ]
  }

  /** The page on display: the first two stations until two are done, then the last two. */
  function Page(currentStation: int): (p: nat)
    ensures p <= 1
    ensures p == 0 <==> currentStation < 2
  {
    if currentStation < 2 then 0 else 1
  }

  /** The cards on the current page. */
  function VisibleStations(completedStations: seq<bool>, currentStation: int): (v: seq<StationCard>)
    requires |completedStations| == 4
    ensures |v| == 2
    ensures v[0].id == 2 * Page(currentStation) + 1 && v[1].id == 2 * Page(currentStation) + 2
    ensures forall k :: 0 <= k < 2 ==> v[k].completed == completedStations[v[k].id - 1]
  {
    var page := Page(currentStation);
    Cards(completedStations)[page * 2 .. (page + 1) * 2]
  }

  /** Whether a card can be pressed: only the station right after the current one. */
  predicate Selectable(card: StationCard, currentStation: int) {
    card.id == currentStation + 1
  }

  /** Pressing a card: reports the station to the orchestrator, or nothing for a disabled card. */
  function PressCard(card: StationCard, currentStation: int): (selected: Option<int>)
    ensures selected.Some? <==> card.id == currentStation + 1
    ensures selected.Some? ==> selected.value == card.id
  {
    if Selectable(card, currentStation) then Some(card.id) else None
  }

  /** The progress counter: how many stations are completed. */
  function ProgressCount(completedStations: seq<bool>): (n: nat)
    requires |completedStations| == 4
    ensures n <= 4
  {
    CountWhere(completedStations, (b: bool) => b)
  }

  /** Whether every station is completed (turns the path green and makes the train happy). */
  predicate AllStationsCompleted(completedStations: seq<bool>) {
    forall i :: 0 <= i < |completedStations| ==> completedStations[i]
  }

  /** The counter reaches 4 exactly when every station is completed, and is 0 only before any. */
  lemma ProgressCountMatchesCompletion(completedStations: seq<bool>)
    requires |completedStations| == 4
    ensures ProgressCount(completedStations) == 4 <==> AllStationsCompleted(completedStations)
    ensures ProgressCount(completedStations) == 0 <==> forall i :: 0 <= i < 4 ==> !completedStations[i]
  {
  }

  /** When exactly the stations before `current` are completed, the counter shows `current`. */
  lemma ProgressCountOfUnlocked(completedStations: seq<bool>, current: nat)
    requires |completedStations| == 4 && current <= 4
    requires forall i :: 0 <= i < 4 ==> (completedStations[i] <==> i < current)
    ensures ProgressCount(completedStations) == current
  {
    CountPrefix(completedStations, (b: bool) => b, current);
  }

  /** While the current station is 0 to 3, the one pressable station is on the page shown. */
  lemma SelectableIsVisible(completedStations: seq<bool>, currentStation: int)
    requires |completedStations| == 4
    requires 0 <= currentStation <= 3
    ensures exists k :: 0 <= k < 2 && Selectable(VisibleStations(completedStations, currentStation)[k], currentStation)
  {
    var v := VisibleStations(completedStations, currentStation);
    if currentStation % 2 == 0 {
      assert Selectable(v[0], currentStation);
    } else {
      assert Selectable(v[1], currentStation);
    }
  }

  /** At most one card on the map can be pressed, and every other card is disabled. */
  lemma OnlyOneSelectable(completedStations: seq<bool>, currentStation: int)
    requires |completedStations| == 4
    ensures forall j, k :: 0 <= j < k < 4 ==>
      !(Selectable(Cards(completedStations)[j], currentStation) && Selectable(Cards(completedStations)[k], currentStation))
  {
  }
}
