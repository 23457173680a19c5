# Eco-train educational game: the game logic in Dafny

The game is a React application. A child picks an avatar and rides a train
across a map of four stations: the forest, the river, the city and the
mountain. At each station they play a short drag-and-drop game. Winning it
shows a reward, and the reward unlocks the next station.

Almost all of the code is animation. The logic underneath is a handful of
small state machines, and this project models them as pure functions over
immutable datatypes:

- `App` (`app.dfy`) is the orchestrator. It holds the twelve screens, the
  four-entry progress record, the current station and the chosen avatar.
  Each of its handlers is a plain assignment.
- `MapScreen` (`map_screen.dfy`) builds the four station cards from the
  progress record and shows them two per page. It enforces the unlock rule:
  only the card right after the current station can be pressed.
- `Station1` to `Station4` (`station1.dfy` … `station4.dfy`) are the four
  station engines:
  - the forest: spots go empty → seeded → grown;
  - the river: trash goes into the bin of its own type;
  - the city: lights are tapped off and solar panels are dropped on;
  - the mountain: animals are dragged to their own habitat.

  Each engine models the initial layout, the drop and tap handlers, the
  completion predicate, the guide's messages and the success button.
- `Game` (`game.dfy`) puts them together. A session is the orchestrator's
  state plus the station component that is mounted. An action is whatever
  the current screen wires up. On top of this it proves:
  - an invariant of every reachable session;
  - that progress is never lost;
  - that a full play-through from the start reaches the final screen with
    every station completed.
- `Collections` (`collections.dfy`) holds the JavaScript array combinators
  the components use (`filter(...).length`, `filter`, `find`, and the
  even/odd index split). Each has an independent characterisation.

A drag-and-drop gesture is modelled as a direct call to the drop target's
callback. The guide's messages are one enum per station.

A component writes its completion message in an effect that runs when
`isComplete` changes. The model writes that message in the same step in
which completion goes from false to true.

In two places the model follows the code where the intended design
differs:

- The station-4 reward does not advance the current station. It stays at 3
  on the final screen.
- The city's completion is not latched. Tapping a light back on undoes it.

## Model

| member | source | states |
|---|---|---|
| Collections.CountWhere | src/components/MapScreen.tsx:221 | the count of entries that satisfy a predicate is at most the length; it equals the length exactly when every entry satisfies it, and is 0 exactly when none does |
| Collections.CountSingleton | src/components/MapScreen.tsx:221 | a one-element list counts 1 exactly when its element satisfies the predicate |
| Collections.CountWhereAppend | src/components/MapScreen.tsx:221 | the count of a concatenation is the sum of the counts; with the singleton case this fixes every value of the count |
| Collections.CountPrefix | src/components/MapScreen.tsx:221 | when exactly the first k elements satisfy the predicate the count is k |
| Collections.Filter | src/components/Station4Game.tsx:367-368 | `filter` keeps exactly the elements that satisfy the predicate: its length is their count, every kept element is from the input and satisfies it, every satisfying element is kept, and no value is kept more often than it occurs |
| Collections.FilterSingleton | src/components/Station4Game.tsx:367-368 | a one-element list keeps its element exactly when it satisfies the predicate |
| Collections.FilterAppend | src/components/Station4Game.tsx:367-368 | filtering a concatenation is the concatenation of the filters, so the kept elements stay in their original order |
| Collections.Find | src/components/Station2Game.tsx:542 | `find` returns nothing exactly when no element satisfies the predicate; otherwise it returns the element at the first satisfying position |
| Collections.FindFirst | src/components/Station3Game.tsx:330 | `find` returns the element at position k whenever k is the first position whose element satisfies the predicate |
| Collections.FilterSplit | src/components/Station4Game.tsx:366-368 | when two predicates split a third without overlap, their two filters together hold exactly what the third one's filter holds (as multisets) |
| Collections.FilterDistinct | src/components/Station4Game.tsx:367 | filtering a list without repetitions yields a list without repetitions |
| Collections.Alternate | src/components/Station4Game.tsx:414-418 | the index filters `i % 2 === 0` and `i % 2 !== 0`; defined by recursion, its contents are stated by Collections.AlternateEvenPositions and Collections.AlternateAt |
| Collections.AlternateEvenPositions | src/components/Station4Game.tsx:414-418 | the even-index filter holds s[0], s[2], …, which is ceil(n/2) elements; the odd-index filter holds s[1], s[3], …, which is floor(n/2) elements |
| Collections.AlternateAt | src/components/Station4Game.tsx:414-418 | element k of an alternating half is element 2k (even half) or 2k+1 (odd half) of the input |
| Collections.AlternatePartition | src/components/Station4Game.tsx:414-418 | the even-index and odd-index filters together hold every element exactly once (multiset union) |
| Collections.AlternateDisjoint | src/components/Station4Game.tsx:414-418 | on a list without repetitions, no element is in both the even-index filter and the odd-index filter |
| Collections.DistinctCountsOnce | src/components/Station4Game.tsx:414-418 | in a list without repetitions every value occurs at most once |
| App.Init | src/App.tsx:31-34 | the game opens on the start screen, with no station completed, current station 0 and no avatar |
| App.HandleStart | src/App.tsx:36-38 | the start button shows avatar selection and changes nothing else |
| App.HandleAvatarSelect | src/App.tsx:40-43 | choosing an avatar stores it and shows the map; progress is untouched |
| App.HandleStationSelect | src/App.tsx:45-60 | station k from 1 to 4 shows k's game screen, whatever the progress; any other number leaves the state unchanged; progress and avatar are never touched |
| App.HandleStationComplete | src/App.tsx:62-64 | a finished game shows its station's reward screen and does not record progress |
| App.HandleStationReward | src/App.tsx:66-99 | the reward of station n < 4 makes the stations before n, and only those, completed, sets n as current and shows the map; station 4's reward completes all four and shows the final screen, leaving the current station as it was |
| App.HandleRestart | src/App.tsx:101-106 | restart returns exactly the opening state |
| App.RewardEstablishesUnlockOrder | src/App.tsx:66-90 | after the reward of station 1, 2 or 3, a station is completed exactly when it comes before the current station, whatever the state was before |
| App.FinalRewardKeepsCurrentStation | src/App.tsx:96-99 | reached normally (current station 3), the last reward completes station 4 but keeps current station 3, so the unlock order no longer holds |
| App.RewardIgnoresPriorProgress | src/App.tsx:66-99 | a reward assigns a whole literal record: two states with different progress get the same record and current station from it |
| App.RestartForgetsEverything | src/App.tsx:101-106 | any two states restart to the same state: start screen, no avatar |
| MapScreen.Cards | src/components/MapScreen.tsx:23-28 | there are four cards numbered 1 to 4, and card k's completed flag is entry k-1 of the progress record |
| MapScreen.Page | src/components/MapScreen.tsx:31 | the page is 0 exactly when the current station is below 2, and 1 otherwise |
| MapScreen.VisibleStations | src/components/MapScreen.tsx:30-32 | the page shows two cards, numbered 2·page+1 and 2·page+2, each carrying its own completed flag |
| MapScreen.Selectable | src/components/MapScreen.tsx:128-138 | the definition of the guard: a card is pressable when its id is the current station plus one (a plain predicate; stated through MapScreen.PressCard, MapScreen.SelectableIsVisible and MapScreen.OnlyOneSelectable) |
| MapScreen.PressCard | src/components/MapScreen.tsx:132-138 | pressing a card reports its station exactly when that station is the one after the current station; every other card reports nothing |
| MapScreen.ProgressCount | src/components/MapScreen.tsx:221 | the progress counter lies between 0 and 4; its value is stated by MapScreen.ProgressCountOfUnlocked and Game.ProgressShowsCurrentStation |
| MapScreen.ProgressCountMatchesCompletion | src/components/MapScreen.tsx:34 | the counter is 4 exactly when every station is completed, and 0 exactly when none is |
| MapScreen.ProgressCountOfUnlocked | src/components/MapScreen.tsx:221 | when exactly the stations before `current` are completed, the counter shows `current` |
| MapScreen.AllStationsCompleted | src/components/MapScreen.tsx:34 | the definition of `allCompleted`: every entry is true (a plain predicate; related to the counter by MapScreen.ProgressCountMatchesCompletion) |
| MapScreen.SelectableIsVisible | src/components/MapScreen.tsx:31-32 | for current station 0 to 3, the one pressable card is on the page shown |
| MapScreen.OnlyOneSelectable | src/components/MapScreen.tsx:128-138 | no two cards are pressable at once |
| Station1.Initial | src/components/Station1Game.tsx:500-508 | the forest opens with five empty spots numbered 1 to 5 and the welcome message |
| Station1.Next | src/components/Station1Game.tsx:515-532 | a spot moves exactly when it gets the tool it is waiting for (seed on empty, water on seeded), and then exactly one step forward |
| Station1.Feedback | src/components/Station1Game.tsx:515-530 | the message the handler writes for a visited spot: the step's praise when the spot advances, ask for a seed on water over bare soil, the already-strong message on a grown spot, and nothing new for a seed on a seeded spot |
| Station1.UpdateSpots | src/components/Station1Game.tsx:511-533 | a drop keeps the spots' number, order, ids and positions; spots with another id are untouched, and the dropped-on spot takes its transition |
| Station1.GuideAfter | src/components/Station1Game.tsx:510-531 | the message after the handler visits every spot in order; defined by recursion, its value is stated by Station1.GuideOfDroppedSpot and Station1.GuideUnknownSpot |
| Station1.PlantedCount | src/components/Station1Game.tsx:536 | the planted count is at most the number of spots |
| Station1.IsComplete | src/components/Station1Game.tsx:537 | the forest is complete exactly when every spot has grown |
| Station1.HandleInteract | src/components/Station1Game.tsx:510-543 | every spot with the dropped id takes its transition (seed on empty gives seeded, water on seeded gives grown, anything else keeps it) and keeps its id and position; other spots are untouched; no spot regresses; the guide is the completion message on the completing drop and otherwise what the handler wrote while visiting the spots |
| Station1.ContinueVisible | src/components/Station1Game.tsx:597-607 | the continue button is on screen exactly when every spot has grown |
| Station1.GuideOfDroppedSpot | src/components/Station1Game.tsx:510-531 | with unique ids the message is the feedback for the one spot dropped on |
| Station1.GuideUnknownSpot | src/components/Station1Game.tsx:512 | a drop on an id no spot has writes no message |
| Station1.DropOutsideSpotsIsNoOp | src/components/Station1Game.tsx:511-512 | a drop on an id no spot has changes nothing at all |
| Station1.InteractIdempotent | src/components/Station1Game.tsx:515-532 | dropping the same tool twice on a spot does to the spots what one drop does |
| Station1.CompletionIsFinal | src/components/Station1Game.tsx:528-532 | once every tree has grown, no drop changes any spot |
| Station1.WaterOnEmpty | src/components/Station1Game.tsx:525-527 | water on bare soil changes no spot and asks for a seed first |
| Station1.SeedAndWaterGrows | src/components/Station1Game.tsx:515-522 | seed then water on an empty spot grows it and leaves every other spot alone |
| Station1.PlantNext | src/components/Station1Game.tsx:515-522 | planting the next spot of a row whose first j spots have grown extends the grown prefix by one |
| Station1.PlantFirstGrows | src/components/Station1Game.tsx:500-522 | from the initial layout, seeding and watering spots 1 to j grows exactly those |
| Station1.PlantEverySpot | src/components/Station1Game.tsx:500-537 | seeding and watering all five spots completes the forest |
| Station1.PlayAppend | src/components/Station1Game.tsx:510 | playing two sequences of drops one after the other is playing their concatenation |
| Station2.Initial | src/components/Station2Game.tsx:528-539 | the river opens with six uncleaned pieces numbered 1 to 6, alternately recyclable and organic (three of each), the guide not in error and no rejected piece |
| Station2.FindItem | src/components/Station2Game.tsx:542 | the lookup finds nothing exactly when no piece has the id; otherwise it returns the first piece that has the id |
| Station2.MarkCleaned | src/components/Station2Game.tsx:546 | exactly the pieces with the id become cleaned; all else is unchanged |
| Station2.CleanedCount | src/components/Station2Game.tsx:564 | the cleaned count is at most the number of pieces |
| Station2.IsComplete | src/components/Station2Game.tsx:566 | the river is complete exactly when every piece is cleaned |
| Station2.HandleDrop | src/components/Station2Game.tsx:541-572 | an unknown id changes nothing; a piece whose type matches the bin is cleaned, with praise or, if that completes the river, the completion message; a mismatched piece leaves the trash as it is, is marked rejected and puts the guide in error naming the bin |
| Station2.BinDrop | src/components/Station2Game.tsx:159-176 | a bin hands the station the piece's id and its own type: the trash changes only when the piece the station holds under that id is of the bin's type, and a piece of another type is rejected with the trash unchanged |
| Station2.BinDropIgnoresCarriedType | src/components/Station2Game.tsx:173-175 | the type the drag carries plays no part: two drags with the same id into the same bin have the same outcome |
| Station2.BinDropMatchesTypes | src/components/Station2Game.tsx:159-176 | a bin passes its own type, so the piece is cleaned, and only it, exactly when the bin's type is the piece's; otherwise the trash is unchanged and the piece is marked rejected |
| Station2.DragSources | src/components/Station2Game.tsx:97 | the draggable pieces are exactly the uncleaned ones, and there are as many as the pieces minus the cleaned count |
| Station2.CountComplement | src/components/Station2Game.tsx:564-565 | the uncleaned and the cleaned counts add up to the number of pieces |
| Station2.FindUnique | src/components/Station2Game.tsx:542 | with unique ids the lookup of a piece's id returns that piece |
| Station2.DropKeepsShape | src/components/Station2Game.tsx:541-561 | a drop keeps ids, types and order, and a cleaned piece stays cleaned |
| Station2.DropIdempotent | src/components/Station2Game.tsx:546 | the same drop twice leaves the trash as one drop does |
| Station2.FindAfterClean | src/components/Station2Game.tsx:542-546 | after cleaning, the lookup still finds a piece of the same type first |
| Station2.MarkCleanedTwice | src/components/Station2Game.tsx:546 | marking the same id cleaned twice is marking it once |
| Station2.DragToBin | src/components/Station2Game.tsx:97 | a drag of a piece that is out of range or already cleaned (not rendered) does nothing |
| Station2.DragEffect | src/components/Station2Game.tsx:159-176 | one drag cleans exactly the dragged piece when it goes into the bin of its own type, and keeps ids unique |
| Station2.PlayCleans | src/components/Station2Game.tsx:541-561 | after any drags a piece is cleaned exactly when it was before or some drag put it in its own bin; order and wrong drags do not matter |
| Station2.AnyOrderCleansRiver | src/components/Station2Game.tsx:528-566 | drags that put every piece in its own bin, in any order, complete the river |
| Station2.CompletionIsStable | src/components/Station2Game.tsx:545-546 | once the river is clean, no drop changes the trash |
| Station3.Initial | src/components/Station3Game.tsx:317-325 | the city opens with four lit buildings numbered 1 to 4, none with a panel |
| Station3.Settle | src/components/Station3Game.tsx:345-349 | the completion message replaces the guide's exactly on the step that completes the city |
| Station3.AllLightsOff | src/components/Station3Game.tsx:341 | the light indicator's condition: no building is lit (a plain predicate; Station3.IsComplete builds on it, and Station3.CompletionNeedsBoth shows that one lit building is enough to block completion) |
| Station3.AllPanelsPlaced | src/components/Station3Game.tsx:342 | the panel indicator's condition: every building has a panel (a plain predicate; Station3.IsComplete builds on it, and Station3.PanelIndicatorStays shows it never goes out again) |
| Station3.PanelIndicatorStays | src/components/Station3Game.tsx:328-342 | once every building has a panel, neither a tap nor a panel drop takes the panel indicator back out |
| Station3.IsComplete | src/components/Station3Game.tsx:341-343 | the definition of completion: every light off and every building with a panel (a plain predicate; its consequences are stated by Station3.CompletionNeedsBoth and Station3.CompletionNotLatched) |
| Station3.HandleToggleLight | src/components/Station3Game.tsx:327-334 | a tap flips the light of the building with that id, and every other field of it and every other building stays as it was; the guide praises the tap when `find` meets that building lit, unless the tap completes the city |
| Station3.HandlePlacePanel | src/components/Station3Game.tsx:336-339 | a panel drop gives the building with that id a panel, and every other field and every other building stays as it was; the guide reports the installation unless the drop completes the city |
| Station3.PanelDrop | src/components/Station3Game.tsx:87-91 | a building accepts every panel: after a drop it has one |
| Station3.ContinueVisible | src/components/Station3Game.tsx:341-343 | the next button is on screen exactly while every light is off and every building has a panel |
| Station3.ToggleTwiceRestores | src/components/Station3Game.tsx:328 | tapping the same building twice restores every building |
| Station3.PlacePanelIdempotent | src/components/Station3Game.tsx:337 | placing a panel twice is placing it once |
| Station3.PanelsStay | src/components/Station3Game.tsx:328-337 | neither a tap nor a drop ever removes a panel |
| Station3.ToggleGuide | src/components/Station3Game.tsx:330-333 | a tap that switches a light off is praised, or completes the city; a tap that switches it back on leaves the message alone |
| Station3.CompletionNeedsBoth | src/components/Station3Game.tsx:341-348 | all panels with one light still on is not complete, and tapping that light off completes the city with the completion message |
| Station3.CompletionNotLatched | src/components/Station3Game.tsx:328-343 | tapping any building of a complete city undoes completion |
| Station3.Apply | src/components/Station3Game.tsx:394-400 | a move on a building that is not rendered does nothing |
| Station3.ApplyEffect | src/components/Station3Game.tsx:327-339 | one move flips exactly the tapped building's light or adds exactly the dropped panel, and keeps ids unique |
| Station3.PlayOutcome | src/components/Station3Game.tsx:327-339 | after any moves a light is on exactly when it started on and was tapped an even number of times, or vice versa; a building has a panel exactly when it had one or one was dropped on it |
| Station3.AnyOrderCompletesCity | src/components/Station3Game.tsx:341-343 | from all lights on, moves that tap each building an odd number of times and panel each one, in any order, complete the city |
| Station3.CityMovesTouchEachOnce | src/components/Station3Game.tsx:317-323 | the scripted moves tap each of the four buildings an odd number of times and panel each |
| Station3.TapsOnce | src/components/Station3Game.tsx:328 | a sequence with exactly one tap of a building taps it an odd number of times |
| Station3.NoTaps | src/components/Station3Game.tsx:328 | a building never tapped has not been tapped an odd number of times |
| Station4.Initial | src/components/Station4Game.tsx:351-359 | the mountain opens with five caged animals numbered 1 to 5, all living in the trees except number 3, who lives in the sky |
| Station4.AllRescued | src/components/Station4Game.tsx:366 | the definition of `allRescued`: every animal is rescued (a plain predicate; stated through Station4.ContinueVisible, Station4.Cages and Station4.PlayRescues) |
| Station4.HandleDrop | src/components/Station4Game.tsx:361-374 | every animal with the dropped id is rescued and nothing else changes; the guide cheers or, when this completes the mountain, shows the completion message |
| Station4.ZoneDrop | src/components/Station4Game.tsx:194-201 | a zone passes the drop on only when the animal lives there; a wrong habitat changes nothing, the message included |
| Station4.RescuedIn | src/components/Station4Game.tsx:367-368 | a habitat zone lists exactly the rescued animals of that habitat |
| Station4.TreeZone | src/components/Station4Game.tsx:412-419 | animal k of the left tree is the rescued tree-dweller at position 2k, and of the right tree the one at position 2k+1, in list order |
| Station4.TreeZoneHoldsRescuedTreeAnimals | src/components/Station4Game.tsx:412-419 | a tree shows only rescued tree animals from the station's list |
| Station4.Cages | src/components/Station4Game.tsx:425-434 | the cages hold only unrescued animals and every unrescued animal |
| Station4.ContinueVisible | src/components/Station4Game.tsx:437-452 | the success button is on screen exactly when every animal is rescued |
| Station4.HabitatsPartitionRescued | src/components/Station4Game.tsx:367-368 | the tree and sky zones together show every rescued animal exactly once |
| Station4.TreeZonesSplitRescued | src/components/Station4Game.tsx:412-419 | the two tree zones together hold the rescued tree animals exactly once; with unique ids no animal appears in both |
| Station4.UniqueIdsDistinct | src/components/Station4Game.tsx:351-357 | animals with pairwise different ids are pairwise different |
| Station4.CagesAreTheUnrescued | src/components/Station4Game.tsx:425-431 | hiding the cage area once everyone is rescued changes nothing: the cages are the unrescued animals either way |
| Station4.DropIdempotent | src/components/Station4Game.tsx:362 | the same accepted drop twice leaves the animals as one drop does |
| Station4.RescueNeverReverts | src/components/Station4Game.tsx:362 | a drop keeps the number, order, ids and habitats of the animals, and no rescued animal is caged again |
| Station4.DragToZone | src/components/Station4Game.tsx:145 | a drag of an animal out of range or already rescued (not rendered) does nothing |
| Station4.DragEffect | src/components/Station4Game.tsx:194-201 | one drag rescues exactly the dragged animal when it goes to its own habitat, and keeps ids unique |
| Station4.PlayRescues | src/components/Station4Game.tsx:361-364 | after any drags an animal is rescued exactly when it was before or some drag took it home; order and wrong drags do not matter |
| Station4.AnyOrderRescuesAll | src/components/Station4Game.tsx:366 | drags that take every animal home, in any order, rescue them all |
| Game.Begin | src/App.tsx:31-34 | the game opens with the orchestrator's opening state and no station mounted |
| Game.Finished | src/components/Station1Game.tsx:536-537 | the success button is shown exactly when the mounted station is complete: every spot grown (src/components/Station1Game.tsx:536-537), every piece cleaned (src/components/Station2Game.tsx:566), every light off with a panel on every building (src/components/Station3Game.tsx:341-343), or every animal rescued (src/components/Station4Game.tsx:366); never with nothing mounted |
| Game.Offers | src/App.tsx:125-201 | which actions each screen wires up: its own button, the map's cards, or the mounted station's moves and success button (a plain predicate, used by Game.Step) |
| Game.Step | src/App.tsx:125-201 | one action on the screen shown: in a consistent session an action the screen does not offer changes nothing; start leads to avatar selection, choosing an avatar stores it and shows the map, and the final screen's button returns to the opening session |
| Game.PressOnMap | src/components/MapScreen.tsx:132-138 | a press changes the session only when it hits the card of the station after the current one, and then shows that station's game with its component freshly mounted and nothing else changed |
| Game.PlayStation | src/App.tsx:149-189 | a move leaves the orchestrator alone; the success button does nothing until the station is finished, and then shows its reward and unmounts the component |
| Game.Consistent | src/App.tsx:31-106 | the invariant: nothing recorded before the map; from the map on an avatar and the unlock order; game and reward screens belong to the next station; the final screen has every station completed; a component is mounted exactly on a game screen, for that station (a plain predicate, kept by Game.StepPreservesConsistent) |
| Game.Mount | src/App.tsx:149-189 | station n's game screen mounts station n's own component, in exactly its initial layout, with unique ids and not finished |
| Game.BeginConsistent | src/App.tsx:31-34 | the opening session satisfies the invariant |
| Game.ProgressShowsCurrentStation | src/components/MapScreen.tsx:221 | in every reachable session from the map to a reward, the progress counter equals the current station; on the final screen it shows 4 |
| Game.PressOnMapOutcome | src/components/MapScreen.tsx:132-138 | a press on the map changes the session exactly when it hits the next station's card; it then shows that station's game with the component freshly mounted |
| Game.PressOnMapConsistent | src/App.tsx:45-60 | a press on the map keeps the invariant |
| Game.PlayStationKeepsEngine | src/App.tsx:149-189 | a move in a station game leaves the orchestrator alone and keeps the mounted component's ids unique |
| Game.ContinueConsistent | src/App.tsx:62-94 | a station game's success button keeps the invariant |
| Game.CollectConsistent | src/App.tsx:66-99 | collecting a reward keeps the invariant |
| Game.StepPreservesConsistent | src/App.tsx:36-106 | every action keeps the invariant: the unlock order from the map on, the station game or reward belonging to the next station, all completed on the final screen, a component mounted exactly on a game screen |
| Game.RunPreservesConsistent | src/App.tsx:36-106 | every sequence of actions keeps the invariant |
| Game.ReachableIsConsistent | src/App.tsx:31-106 | every session reachable from the start satisfies the invariant |
| Game.StationsPlayedInOrder | src/components/MapScreen.tsx:132-138 | a station's game is only shown after every earlier station, and not this one, has been completed |
| Game.NextStationReachable | src/components/MapScreen.tsx:30-32 | on the map some card position opens the next station's game |
| Game.ContinueOnlyWhenFinished | src/components/Station1Game.tsx:597-607 | a game's success button leads to the reward exactly when the station is finished, and otherwise does nothing |
| Game.ProgressNeverLost | src/App.tsx:36-99 | except for the final restart, no action un-completes a station, moves the current station back or forgets the avatar |
| Game.PlayAgainStartsOver | src/App.tsx:101-106 | the final screen's button returns to the opening session |
| Game.ForestRun | src/App.tsx:149-153 | drops in the forest game change only the mounted forest, as the forest engine plays them |
| Game.RiverRun | src/App.tsx:161-165 | drags in the river game change only the mounted river, as the river engine plays them |
| Game.CityRun | src/App.tsx:173-177 | moves in the city game change only the mounted city, as the city engine plays them |
| Game.MountainRun | src/App.tsx:185-189 | drags in the mountain game change only the mounted mountain, as the mountain engine plays them |
| Game.RunAppend | src/App.tsx:36-106 | running two sequences of actions is running their concatenation |
| Game.ForestWon | src/components/Station1Game.tsx:500-537 | seeding and watering every spot finishes a freshly mounted forest |
| Game.RiverWon | src/components/Station2Game.tsx:528-566 | putting every piece in its own bin finishes a freshly mounted river |
| Game.CityWon | src/components/Station3Game.tsx:317-343 | tapping every light off and panelling every building finishes a freshly mounted city |
| Game.MountainWon | src/components/Station4Game.tsx:351-366 | taking every animal home finishes a freshly mounted mountain |
| Game.WinningMovesFinish | src/App.tsx:149-189 | each station's winning moves finish it and leave the orchestrator alone |
| Game.EnterStation | src/components/MapScreen.tsx:132-138 | with station n next, pressing its card opens n's game with the component mounted |
| Game.LeaveStation | src/App.tsx:62-99 | from a finished game, continue and collect record the station's reward |
| Game.RoundCompletesStation | src/App.tsx:45-99 | one round from the map (enter, win, continue, collect) completes the station and returns to the map with it current, or to the final screen after the last one |
| Game.JourneyReachesFinal | src/App.tsx:31-106 | start, choose an avatar and play the four rounds: the final screen, with the avatar kept and all four stations completed |

## Left out

- Rendering and animation are left out: backgrounds, parallax, confetti,
  motion props, CSS classes, progress colours and the random positions
  drawn with `Math.random`. They are presentation only.
- The drag-and-drop library is left out: the providers, the touch backend,
  the drag and drop monitors, and the drag layer's preview. A drop is
  modelled as a direct call to the drop target's callback, with the item
  the drag carries.
- Timers are left out. In the river, the rejected piece is cleared after a
  second and a bin flashes on success or error. In the model the rejected
  marker stays until the next rejection, and bin flashes are not modelled.
  The guide's speaking timer is also left out.
- The river's `progress` fraction is left out. It is a floating-point value
  used only for colours.
- Presentational components are left out: the train, sun and earth
  characters, the logo, the guide bubble, the start, reward and final
  screens, and the avatar list. Each screen only calls its callback, and
  the avatar is an opaque value that no logic reads.
- Exact guide strings and touch-device detection are left out. Messages are
  per-station enums.
- The order of React's state updates is simplified. Station 1 sets the
  guide inside the spots updater (src/components/Station1Game.tsx:511-533),
  while the other stations set it directly in their handlers. In all four
  stations an effect that runs when completion changes later overwrites the
  guide with the completion message (src/components/Station1Game.tsx:539-543,
  src/components/Station2Game.tsx:568-572,
  src/components/Station3Game.tsx:345-349,
  src/components/Station4Game.tsx:372-376). The model does both in one step:
  Station1.HandleInteract, Station2.HandleDrop, Station3.Settle and
  Station4.HandleDrop write the completion message on the step where
  completion goes from false to true.
- Station1.GuideOfDroppedSpot requires unique ids. With a repeated id the
  last spot carrying it decides the message, as Station1.GuideAfter
  computes. Every layout the game mounts has unique ids.
- Station1.WaterOnEmpty requires unique ids. If another spot shared the id
  and had been seeded, watering would grow it.
- Game.Consistent does not include the unlock order on the final screen,
  because the station-4 reward leaves the current station at 3. See
  App.FinalRewardKeepsCurrentStation.
