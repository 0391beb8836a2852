# Game runtime: actors, lifecycle and card table

A Dafny model of the game runtime's event-sourced actor: one writer per game with optimistic
versions, idempotency keys, an append-only log shared by several actors, catch-up, recovery and
rollback; on top of it the lifecycle of a game (presence, disconnect ballots, concession, turn
hand-over, finish) and the card table (zones, movement, tokens, library commands, count mirrors,
reveal windows).

`dafny verify dfyconfig.toml` checks the whole project.

## How it is built

Each part has a specification on values and, where the runtime updates state in place, a class
whose methods are proved equal to it. Properties are lemmas about the specification.

| modules | what they hold |
|---|---|
| `Common` | options, sorted id lists |
| `Lifecycle`, `LifecycleGame` | lifecycle commands and events as functions; the same as a class |
| `BallotSteps`, `LifecycleReplay`, `Ballots`, `Presence`, `Deadlines` | what each signal does, live against replay, invariants of runs, convergence, the heartbeat |
| `Table`, `Slots`, `Movement` | table commands and events as functions; closed form of a movement |
| `Conservation`, `Mirror`, `TableReplay`, `TableUndo`, `TableReject` | conservation, client counts, and exactly when replay, undo and rejection are faithful |
| `TableResults`, `TableRuns` | what each command leaves; runs of applied, undone and refused commands |
| `ZoneIndex`, `ZoneOps`, `MoveBatches`, `ZoneTable` | the card table as a class with its location index |
| `Machine`, `GameLaws` | one game: execute, undo, replay, and the laws they obey |
| `Patches`, `Receipts` | envelopes, patch receipts, reconnect |
| `Actor`, `GameActor`, `SeenCache` | the stages of a request; the actor as a class; its cache |
| `Protocol`, `Safety`, `Agreement`, `Fidelity`, `Requests`, `Progress`, `Authors`, `Finish`, `DeadEnd` | any number of actors on one log, stage by stage |
| `Fencing`, `Joint` | leases and fencing tokens; actors and leases in one run |
| `Reveals`, `RevealTable` | top-card reveal windows |
| `Witnesses` | inputs on which an expected promise fails |

The protocol takes the appliers as a value (`Rules`), as the runtime hands its applier list to
replay; `GameLaws.GameIsLawful` shows that the modelled appliers fit.

A run is *sound* while every appended command is followable (its event can be replayed, up to the
turn) and every undone or refused one is reversible. Both conditions are decided before the command
runs. A followable command that writes no turn is trackable; that, and reversibility, are shown to
be exact (`Machine.UntrackableDiverges`, `TableUndo.UndoExact`, `TableReject.RejectionExact`). The
log, cache and answer properties in `Safety` need no soundness.
How well an agent's game fits the replay is recorded with it: it is the same until the state is
changed without an event, by the cleanup when everybody is offline or by undoing a concession that
had ended the game; then it agrees except in the hot fields, which are ballots, presence and, while
the game runs, a left-over winner and time. Once its own commands wrote a turn, it agrees except in
turn and hot fields. A restarted actor fits as well as the snapshot it started from.

## Where the code differs from what one might expect

- A rejected request may have advanced the actor by catch-up or recovery; what holds is that it
  stays at a log prefix and never goes back.
- The finish and permission checks come before catch-up, so a finished game can still grow, by
  requests that carry their actor over the finish.
- A `turn.changed` event holds the new turn whole, under a name its applier does not read: replay,
  recovery and catch-up leave the turn as it was. The request may give the turn to anybody.
- `library.play_top_face_down` events are of a kind replay does not know: recovery, catch-up and
  restart stop at them.
- Actors skip chat messages in the log when they catch up or recover; a restart does not, and fails
  when one follows the latest snapshot.
- A movement request may name one card in `instanceId` beside its list in `instanceIds`; the
  movement takes the list, the rollback captures only the one.
- A `disconnect.vote` from a browser may carry its own ballots, status, turn and generation. They
  are taken over as they are, and its event does not record all of them.
- A browser's online or offline status moves presence without a generation.
- The id of a timeout or reopening request is public and may be taken by any earlier request; the
  ballot then stays open, or closed.
- A refused or undone command can leave cards in two slots and counts that no patch announced.
- The hand-over after a departure goes to the least active player, not to the cyclic successor.
- `cards.moved` events record one source zone and only a common target; `zone.move_all` events
  record no position; `card.token.created` events record no quantity.
- The rollback misses zones of owners that cards were redirected to, commander cast counters,
  new tokens, and the ballots and winner of an undone concession.
- A put into a library moves a token without evaporation.
- Deleting a lease row lets tokens start again at 1, so tokens alone do not order owners; owner and
  token together do, unless the same pair is issued twice.

## Model

| member | source | states |
|---|---|---|
| LifecycleGame.ScanForNext | game-runtime/internal/actor/lifecycle_appliers.go:596-622 | the scan over sorted player ids: the next larger active id when the current player is active, otherwise the least active id |
| LifecycleGame.SettleBallot | game-runtime/internal/actor/lifecycle_appliers.go:361-398 | a ballot is decided by strict majority or by a tie above zero, and only then closed |
| LifecycleGame.GameState.SetPlayerOnline | game-runtime/internal/actor/lifecycle_appliers.go:168-182 | presence of one player is set in place; nothing else changes |
| LifecycleGame.GameState.NextActivePlayer | game-runtime/internal/actor/lifecycle_appliers.go:596-622 | reads the next active player off the fields, as the specification says |
| LifecycleGame.GameState.PassTurn | game-runtime/internal/actor/lifecycle_appliers.go:40-56 | hands the turn on when the leaver held it and somebody active remains |
| LifecycleGame.GameState.FinishWhenOneRemains | game-runtime/internal/actor/lifecycle_appliers.go:624-668 | ends the game in place exactly when one active player is left, recording winner and time and dropping all ballots |
| LifecycleGame.GameState.ApplyConcession | game-runtime/internal/actor/lifecycle_appliers.go:18-73 | the concession applier leaves exactly the state and event of the concession specification |
| LifecycleGame.GameState.EligibleVoters | game-runtime/internal/actor/lifecycle_appliers.go:506-527 | the sorted active players other than the target, restricted to the connected ones when a list is given |
| LifecycleGame.GameState.OpenBallot | game-runtime/internal/actor/lifecycle_appliers.go:239-290 | opens a ballot, or a cooled-down one when nobody may vote |
| LifecycleGame.GameState.CancelBallot | game-runtime/internal/actor/lifecycle_appliers.go:292-309 | a reconnect cancels an open or waiting ballot only |
| LifecycleGame.GameState.TimeOutBallot | game-runtime/internal/actor/lifecycle_appliers.go:416-440 | on timeout every missing vote becomes a wait and the cooldown starts |
| LifecycleGame.GameState.Tally | game-runtime/internal/actor/lifecycle_appliers.go:361-380 | counts both choices over the eligible voters in one loop |
| LifecycleGame.GameState.RecordBallotVote | game-runtime/internal/actor/lifecycle_appliers.go:311-411 | one vote with all its refusals; an expulsion concedes, hands over and may end the game |
| LifecycleGame.GameState.ApplySignal | game-runtime/internal/actor/lifecycle_appliers.go:79-163 | every presence signal, timeout, vote and command with carried ballots has the state and event of the specification |
| LifecycleGame.GameState.ApplyCarriedFields | game-runtime/internal/actor/lifecycle_appliers.go:89-129 | a live command that carries its own ballots takes every carried field over, and its event repeats neither the fence nor the turn and has the status of the carried ballot, not the one sent |
| LifecycleReplay.FencesCommute | game-runtime/internal/actor/lifecycle_appliers.go:214-226 | presence generations restored in any order end at the highest of them and the old fence, and never below it |
| LifecycleGame.GameState.ReplaySignal | game-runtime/internal/actor/lifecycle_appliers.go:89-129 | the replay branch equals the replay specification, refusals included |
| LifecycleGame.GameState.ChangeTurn | game-runtime/internal/actor/appliers.go:122-142 | a turn change writes the named fields in place, whatever they say, and its event holds the new turn and the one before |
| LifecycleReplay.TurnReplayExact | game-runtime/internal/actor/replay.go:454-472 | replaying a turn change leaves the turn as it was, so it gives the live state if and only if the change changed nothing |
| LifecycleReplay.TurnWrites | game-runtime/internal/actor/appliers.go:126-142 | a turn change writes every field it names and no other |
| LifecycleReplay.ConcedeReplays | game-runtime/internal/actor/lifecycle_appliers.go:18-73 | replaying a concession's own event gives the live state, at any clock reading, also between games that differ only in turn and hot fields, with equal turns if they were equal |
| LifecycleReplay.VoteReplays | game-runtime/internal/actor/lifecycle_appliers.go:79-163 | the replay branch of a vote event gives the live state although it is different code and runs the finish check more often, also between games that differ only in turn and hot fields; the turn too, unless the command wrote one itself |
| LifecycleReplay.VoteReplayExact | game-runtime/internal/actor/lifecycle_appliers.go:79-163 | for every accepted `disconnect.vote` command, replaying its event gives the live state if and only if the command is trackable: carried fields name no other turn, no higher generation, and an expulsion exactly when the carried ballot does, and the other commands meet no ballot that claims an expulsion that did not happen |
| LifecycleReplay.RepeatedRestores | game-runtime/internal/actor/lifecycle_appliers.go:89-129 | restoring the fields of a carried command's own event gives what its carried fields gave, if and only if they were trackable |
| Ballots.OpenBallotAwaitsSomebody | game-runtime/internal/actor/lifecycle_appliers.go:529-543 | an open ballot still waits for an eligible player: once all have voted it is closed |
| BallotSteps.CountIsCardinality | game-runtime/internal/actor/lifecycle_appliers.go:361-380 | a count is the number of voters who made that choice |
| BallotSteps.SettleDecides | game-runtime/internal/actor/lifecycle_appliers.go:361-398 | in counts alone: more than half for expelling expels; otherwise more than half for waiting or a tie above zero waits; otherwise the ballot stays open with its deadline and voters |
| BallotSteps.VoteTakenIff | game-runtime/internal/actor/lifecycle_appliers.go:311-360 | a vote is taken if and only if the ballot is open and the voter is somebody else whom the ballot, or without a list the game, allows |
| BallotSteps.VoteDecides | game-runtime/internal/actor/lifecycle_appliers.go:311-411 | a vote that is taken replaces the voter's earlier one, decides by the counts, touches no other ballot, and concedes the target, with the time, only by an expulsion |
| BallotSteps.OfflineOpens | game-runtime/internal/actor/lifecycle_appliers.go:239-290 | who is asked when a player goes offline, for sixty seconds, and when nobody is asked or nothing happens |
| BallotSteps.OnlineCancels | game-runtime/internal/actor/lifecycle_appliers.go:292-309 | a reconnect cancels the player's open or waiting ballot, votes and deadline included, and no other |
| BallotSteps.TimeoutFills | game-runtime/internal/actor/lifecycle_appliers.go:416-440 | a timeout makes a wait of every missing vote, keeps those made, and starts the cooldown of three hundred seconds |
| BallotSteps.ConcedeResult | game-runtime/internal/actor/lifecycle_appliers.go:18-73 | a first concession is recorded with its time, passes the turn on if the leaver had it, and ends the game when one player is left; a repeated one changes nothing and is answered with the first's time |
| BallotSteps.FinishRecords | game-runtime/internal/actor/lifecycle_appliers.go:624-668 | a running game ends exactly when one active player is left, who has won, at the given time, with no ballot left |
| Ballots.SettleIsSafe | game-runtime/internal/actor/lifecycle_appliers.go:361-398 | what stays open is neither won nor tied |
| Ballots.StepKeepsBallots | game-runtime/internal/actor/lifecycle_appliers.go:79-411 | open ballots keep eligible voters that exclude the target, undecided tallies and an offline target over every command, except that a command with carried ballots, which are taken over unchecked, does so if and only if those are such ballots themselves or it ends the game |
| Ballots.HandOverGoesToLeast | game-runtime/internal/actor/lifecycle_appliers.go:40-56 | after a departure the turn goes to the least active player, who is not the leaver |
| Ballots.StepDepartures | game-runtime/internal/actor/lifecycle_appliers.go:18-163 | a step removes at most one player and moves the turn only by the rules for leavers, and a game that ends has one active player, the recorded winner; with carried fields, which are taken over unchecked, if and only if the turn they leave behind is the one the rules ask for, and with a turn change if and only if it changes nothing |
| Ballots.StepKeepsGame | game-runtime/internal/actor/appliers.go:126-142 | one command keeps ballots, winner, two active players and a turn that is never with a conceded player, if and only if it gives the turn to nobody who has conceded and what it carries, which is taken over unchecked, meets the same terms |
| Ballots.RunKeepsGame | game-runtime/internal/actor/lifecycle_appliers.go:624-668 | over every run from two active players in which turn changes name nobody who has conceded and carried fields are honest: unfinished games keep at least two active players, finished ones have exactly one, who won; the turn is never with a conceded player |
| Ballots.LeaverHandsTurnOn | game-runtime/internal/actor/lifecycle_appliers.go:40-129 | a turn holder who concedes or is voted out hands the turn to a different, active player; one put out by carried fields does if and only if the fields name such a player |
| Ballots.HandOverIsNotCyclic | game-runtime/internal/actor/lifecycle_appliers.go:596-622 | a game in which the turn does not go to the next player in cyclic order |
| Ballots.HandOverCyclicIff | game-runtime/internal/actor/lifecycle_appliers.go:596-622 | exactly when the hand-over is the cyclic successor: nobody active comes after the leaver, or nobody before |
| Ballots.NextActiveGoesAround | game-runtime/internal/actor/lifecycle_appliers.go:596-622 | from a player who stays the next is the next larger active id, and after the largest the smallest |
| Presence.SignalMovesPresence | game-runtime/internal/actor/lifecycle_appliers.go:189-210 | a gateway signal is taken exactly when its generation is above the fence |
| Presence.ReopenLeavesPresence | game-runtime/internal/actor/actor.go:308-325 | reopening a cooled-down ballot changes no presence |
| Presence.OthersLeavePresence | game-runtime/internal/actor/lifecycle_appliers.go:79-163 | no command but a gateway signal touches a player's presence or fence, if and only if it is refused, about somebody else, or says nothing new: browsers can say online or offline without a generation |
| Presence.PresenceConverges | game-runtime/internal/actor/lifecycle_appliers.go:138-226 | for every order, duplication and interleaving of signals in a run of honest commands, over games that finish as well, presence ends as the highest generation above the starting fence said, as long as nothing else that is not silent is accepted about the player |
| Deadlines.ResolveDue | game-runtime/internal/actor/actor.go:281-335 | the heartbeat in place, each of its commands sent through the whole request path at the head of the log, is the heartbeat of the specification, in any order of the ballots |
| Deadlines.TickSendsIff | game-runtime/internal/actor/actor.go:281-318 | a request is sent about a ballot if and only if it is past its deadline, or past its cooldown with somebody to vote |
| Deadlines.HeartbeatResolves | game-runtime/internal/actor/actor.go:281-335 | every ballot past its deadline runs down and every one past its cooldown with voters is opened again, unless its action id was used before or its player is unknown; all others are what they were, and the log grows by exactly one event for each |
| Deadlines.HeartbeatTimesOut | game-runtime/internal/actor/actor.go:281-335 | at a deadline whose id is free the log gets the timeout and whoever was asked and had not voted counts as waiting |
| Deadlines.HeartbeatReopens | game-runtime/internal/actor/actor.go:302-333 | past a cooldown, with another active player to ask and the id free, the log gets the reopening and the ballot is open again without votes for sixty seconds |
| Deadlines.NoneDueIff | game-runtime/internal/actor/actor.go:281-335 | after a heartbeat no ballot is past its deadline if and only if no ballot that was past it has its action id used up or its player unknown |
| Deadlines.OneTimeoutPerDeadline | game-runtime/internal/actor/actor.go:300-315 | in every interleaving with restarts and crashes, two log events with the timeout id of one target and deadline, or the reopening id of one cooldown, are the same event |
| Witnesses.SpentDeadlineStaysOpen | game-runtime/internal/actor/actor.go:296-333 | a player's request under the id of a coming timeout is accepted, and at every later heartbeat the ballot is past its deadline and open |
| Witnesses.CarriedExpulsion | game-runtime/internal/actor/lifecycle_appliers.go:89-129 | a browser puts out the player whose turn it is without any ballot; the turn stays with them, and the event does not say so and replays to a game in which they are active |
| Witnesses.PassIsForgotten | game-runtime/internal/actor/appliers.go:126-142 | after an ordinary turn change recovery from the log has the old turn, and the next concession hands the turn to somebody else than it does live |
| Witnesses.PassToConceded | game-runtime/internal/actor/permissions.go:86-91 | the turn's holder is permitted to give it to a player who has conceded |
| ZoneIndex.RebuildIndex | game-runtime/internal/state/invariants.go:13-29 | rebuilding the location index from the zones gives the exact index: the identity on well-formed games |
| ZoneIndex.ExactIsUnique | game-runtime/internal/state/invariants.go:13-29 | only one index is exact, so an index kept exact step by step is the rebuilt one |
| ZoneIndex.ExactIsIndexed | game-runtime/internal/state/invariants.go:31-80 | a table with an exact index has each card in one slot and every location entry right |
| ZoneOps.RemovalGroups | game-runtime/internal/state/zone_ops.go:182-201 | groups cards by slot, first appearance first, request order within each |
| ZoneTable.CardTable.RemoveGroup | game-runtime/internal/state/zone_ops.go:203-244 | takes cards out of one slot and renumbers it; the index stays exact |
| ZoneTable.CardTable.InsertMany | game-runtime/internal/state/zone_ops.go:246-281 | inserts in front, behind, or reversed on top of a library; the index stays exact |
| ZoneTable.CardTable.MoveMany | game-runtime/internal/state/zone_ops.go:86-137 | one batch does what the specification says, or fails before anything moved; its journeys name old and new places |
| ZoneTable.CardTable.GroupByPlayer | game-runtime/internal/actor/movement_appliers.go:265-287 | the grouping loop builds the batches of the recursive specification |
| ZoneTable.CardTable.MoveInBatches | game-runtime/internal/actor/movement_appliers.go:289-297 | all batches in turn are the whole movement; a failing one leaves exactly the batches before it |
| ZoneTable.CardTable.ApplyZoneRules | game-runtime/internal/actor/movement_appliers.go:313-346 | battlefield-exit reset, evaporation and commander casts, one loop after the other, are the zone rules of the specification |
| ZoneTable.CardTable.MoveCards | game-runtime/internal/actor/movement_appliers.go:29-96 | the applier's checks, result and event are those of the specification, the half-done state of a failure included |
| ZoneTable.CardTable.MoveAll | game-runtime/internal/actor/movement_appliers.go:141-181 | moving a whole zone, with its event |
| ZoneTable.CardTable.Draw | game-runtime/internal/state/library_ops.go:59-87 | drawing rewrites two slots and the index as the specification says |
| ZoneTable.CardTable.MoveTop | game-runtime/internal/state/library_ops.go:159-224 | moving the top of a library to its bottom or to another zone |
| ZoneTable.CardTable.PutCard | game-runtime/internal/actor/library_appliers.go:424-472 | putting a card into a library; a refused put has already taken the card out |
| ZoneTable.CardTable.CreateTokens | game-runtime/internal/actor/edge_appliers.go:25-116 | creating tokens; a refused creation has already written the instances |
| ZoneTable.CardTable.PlayTop | game-runtime/internal/actor/library_appliers.go:219-237 | playing the top card face down is a movement request for it, made in place, under an event of its own kind |
| ZoneTable.CardTable.Execute | game-runtime/internal/actor/movement_appliers.go:29-181 | every table command, run in place, equals its specification or leaves exactly what the rollback then undoes |
| ZoneOps.Uniform | game-runtime/internal/actor/movement_appliers.go:464-475 | the one player all cards went to, if there is one |
| Movement.GroupsLand | game-runtime/internal/actor/movement_appliers.go:265-297 | the batches together put every card where its destination says, each place filled in request order |
| Movement.MoveSettles | game-runtime/internal/actor/movement_appliers.go:265-346 | closed form of a whole movement: contents of every place and the location of every card |
| Movement.MoveMarksCards | game-runtime/internal/actor/movement_appliers.go:428-450 | which cards are reset, which change controller, which become commanders, and that the others are untouched |
| Movement.MoveKeepsWellFormed | game-runtime/internal/actor/movement_appliers.go:29-96 | a movement keeps every card in exactly one slot with a matching location |
| Conservation.ApplyKeeps | game-runtime/internal/actor/movement_appliers.go:29-181 | every command keeps well-formedness; only moved tokens vanish, only created tokens appear, owners and token flags never change |
| Conservation.TokensStayHome | game-runtime/internal/actor/library_appliers.go:424-472 | tokens stay on battlefields over a step if and only if the step does not put a token into a library |
| Conservation.LeaversGoHome | game-runtime/internal/actor/movement_appliers.go:299-311 | a card leaving the battlefield lands with its known owner, reset, or evaporates if it is a token |
| Conservation.ArrivalsKeepOrder | game-runtime/internal/state/zone_ops.go:142-148 | what a player receives is in request order, reversed on top of a library |
| TableResults.PutResult | game-runtime/internal/actor/library_appliers.go:424-472 | a put is taken exactly when the card is somewhere and the player has zones, and the card is then the first or the last of that library and nowhere else |
| TableResults.PutOnTopIsDrawnNext | game-runtime/internal/state/library_ops.go:89-109 | a card put on top is the next one drawn |
| TableResults.PutOnBottomIsDrawnLast | game-runtime/internal/state/library_ops.go:111-138 | a card put on the bottom is drawn after all the others |
| TableResults.RefusedPutTookOut | game-runtime/internal/actor/library_appliers.go:436-449 | a put for a player without zones is refused after the card was taken out |
| TableResults.DrawResult | game-runtime/internal/state/library_ops.go:59-87 | a draw is taken exactly when there are that many cards; they go to the end of the hand in order, and nobody's control changes |
| TableResults.MoveTopResult | game-runtime/internal/state/library_ops.go:159-195 | moving top cards to a zone: when it is taken, their order, and who controls them then |
| TableResults.ToBottomResult | game-runtime/internal/state/library_ops.go:197-224 | moving top cards to the bottom keeps the order of both parts and has to be asked for as such |
| TableResults.TokensResult | game-runtime/internal/actor/edge_appliers.go:25-116 | between one and twenty tokens with ids of their own, at the end of their player's battlefield, owned and controlled by them |
| TableResults.MoveTakenIff | game-runtime/internal/actor/movement_appliers.go:40-58 | a movement request is taken exactly when it names cards, each once, that exist and lie in the zone it says |
| TableResults.RefusedAtOnce | game-runtime/internal/actor/movement_appliers.go:46-54 | a request that names nothing, a card that is nowhere or the wrong zone is refused before anything moves |
| TableResults.CastsCounted | game-runtime/internal/actor/movement_appliers.go:428-450 | every cast from a command zone by the card's owner is counted once, and nothing else is |
| TableResults.PlayTopResult | game-runtime/internal/actor/library_appliers.go:219-237 | the top card leaves its library for the battlefield of the player asked for, under their control; only an empty library refuses |
| TableRuns.UnsentKept | game-runtime/internal/actor/rollback.go:60-170 | a refused or undone command leaves contents, index, cards, owners and kinds as they were, if and only if cards moved only between captured players and no card was overwritten or made by a creation |
| TableRuns.RunConserves | game-runtime/internal/actor/movement_appliers.go:29-181 | over every run of applied, undone and refused commands of which none harms the table, every card is in one slot, the cards that are not tokens are the ones the game began with, and a client that applies only counts has exact counts |
| TableRuns.FirstHarmBreaks | game-runtime/internal/actor/rollback.go:60-170 | the first command of a run that does harm leaves a table that is not kept although nothing was sent |
| Conservation.ExactlyOneSlot | game-runtime/internal/state/invariants.go:31-80 | a card occurs in one slot at one position |
| TableRuns.RunKeepsTokensHome | game-runtime/internal/actor/library_appliers.go:424-472 | if besides no token is put into a library, tokens stay on battlefields over the whole run |
| Mirror.UntouchedUnchanged | game-runtime/internal/actor/movement_appliers.go:728-745 | a place no count is sent for holds exactly what it held before, redirection and evaporation included |
| Mirror.AnnouncedCountsExact | game-runtime/internal/actor/movement_appliers.go:728-745 | a patch keeps a client's exact counts exact |
| TableRuns.RefusalBreaksMirror | game-runtime/internal/actor/rollback.go:367-383 | a refused request for a borrowed card and a held one twice leaves a malformed table and makes exact client counts wrong without a patch |
| TableReplay.ReplayFaithful | game-runtime/internal/actor/replay.go:73-109 | replaying a table event gives the command's table if and only if the event says enough: one source zone, a surviving target, an irrelevant position, a single plain token |
| TableReplay.DrawReplays | game-runtime/internal/actor/replay.go:212-226 | a draw replayed card by card is the draw made as one block |
| TableReplay.TargetMatters | game-runtime/internal/actor/movement_appliers.go:464-475 | the event's target leads to the same destinations exactly when the target survives |
| TableReplay.PositionMatters | game-runtime/internal/actor/movement_appliers.go:177-181 | losing the position of a move-all is harmless exactly when order cannot show |
| TableUndo.RestoreExact | game-runtime/internal/actor/rollback.go:172-250 | restoring captured entries is exact if and only if nothing else changed |
| TableUndo.UndoExact | game-runtime/internal/actor/rollback.go:60-170 | undoing an applied command gives the table back if and only if every moved card comes from a captured player and, if it survives, goes to one, no commander was cast and no token was made; a card named singly hides the request's list from the capture |
| TableUndo.MovementUndoneIff | game-runtime/internal/actor/rollback.go:367-420 | the same for a movement request in its own terms: every card comes from and goes to the acting player, the one asked for, or a player who has a listed card, or only the singly named one |
| TableUndo.ZoneUndoneIff | game-runtime/internal/actor/rollback.go:128-136 | the same for moving a whole zone: every card goes to the acting player or the one asked for |
| TableReject.RejectionExact | game-runtime/internal/actor/rollback.go:60-170 | a refused command leaves the table as it was if and only if the batches that ran moved cards only between captured players and no foreign card lost its entry to a token |
| TableReject.ServedIff | game-runtime/internal/actor/movement_appliers.go:289-297 | a batch of a refused movement runs if and only if neither it nor any batch that starts before it names a card twice |
| TableReject.HarmfulRejectionMisplaces | game-runtime/internal/actor/rollback.go:367-393 | a refused movement leaves a card in two places or an entry pointing nowhere if and only if a card of a batch that ran crossed between captured players and others; without a singly named card, whenever it does harm |
| TableReject.RefusedRequestDuplicatesCard | game-runtime/internal/actor/movement_appliers.go:265-297 | a concrete refused request after which a card is in two places |
| Machine.ExecReplays | game-runtime/internal/actor/replay.go:66-109 | any followable command, votes with carried ballots and turn changes included, replayed from its own event on a game like the live one, gives a game like the live one, with the same turn unless the command wrote it |
| Machine.UntrackableDiverges | game-runtime/internal/actor/replay.go:66-109 | for every modelled command, turn changes and top cards played face down included, replay gives the live game if and only if the command is trackable |
| Machine.UndoKeeps | game-runtime/internal/actor/rollback.go:172-250 | after an undo the game is like the one before, and the same unless a concession had ended it |
| Machine.UndoExactly | game-runtime/internal/actor/rollback.go:60-170 | the rollback restores the very game if and only if the command is reversible and not a concession that ends the game, or that end's marks were already there |
| Machine.ExecTakes | game-runtime/internal/actor/actor.go:536-549 | which commands the appliers take, and that lifecycle and table commands leave each other's part alone |
| Machine.AllOfflineKeeps | game-runtime/internal/actor/actor.go:192-206 | clearing ballots and presence without an event stays within the hot fields |
| GameLaws.GameIsLawful | game-runtime/internal/actor/replay.go:66-109 | the appliers obey the laws the protocol relies on, at every clock reading |
| GameLaws.ClockIrrelevant | game-runtime/internal/actor/replay.go:452-472 | the clock read during replay never shows in the result |
| Patches.PatchEmitter.AddOp | game-runtime/internal/actor/emitter.go:31-33 | appends to one audience and keeps all audiences in emission order |
| Patches.PatchEmitter.Envelopes | game-runtime/internal/actor/emitter.go:35-59 | private envelopes sorted by audience, then the public one or a version carrier |
| Patches.EnvelopesComplete | game-runtime/internal/actor/emitter.go:35-59 | exactly one public envelope, last; all at one version; one per audience, with its operations in order |
| Receipts.ReceiptRoundTrip | game-runtime/internal/actor/patch_receipt.go:16-76 | a receipt reads back as attached if and only if it is not empty and every envelope is valid; stripping gives the event back |
| Receipts.FitsIff | game-runtime/internal/gateway/websocket.go:758-779 | a stored event can be sent exactly when it has the next version and a readable receipt with patches of that version only |
| Receipts.EmittedReadsBack | game-runtime/internal/actor/patch_receipt.go:16-76 | whatever an emitter hands out reads back from its stored event |
| Receipts.DurablePatchesSince | game-runtime/internal/gateway/websocket.go:746-781 | a gap is answered from the store if and only if its events are contiguous and readable, and then with exactly their patches |
| Receipts.ReconnectIsLive | game-runtime/internal/gateway/websocket.go:746-781 | for every viewer the answer to a gap whose events all have receipts is the live stream, covering every version of the gap and no other; a message has no receipt and forces a resync |
| GameActor.RunningActor.RememberSeenAction | game-runtime/internal/actor/actor.go:948-961 | the cache loop evicts first in, first out, down to 512 |
| GameActor.RunningActor.CatchUpPersistedEvents | game-runtime/internal/actor/actor.go:751-777 | the catch-up loop, in place, with its early stops |
| GameActor.RunningActor.RecoverAuthoritative | game-runtime/internal/actor/actor.go:688-723 | recovery from the actor's own state first, from the snapshot only if that leads nowhere |
| GameActor.RecoverFromBase | game-runtime/internal/actor/actor.go:725-749 | all events of a tail replayed on a copy, or nothing |
| GameActor.CanAcceptStaleBase | game-runtime/internal/actor/actor.go:779-801 | the stale-base loop decides as the scan specification |
| GameActor.RunningActor.StoredDuplicateResult | game-runtime/internal/actor/actor.go:844-858 | the durable lookup, remembered when it answers |
| GameActor.RunningActor.Apply | game-runtime/internal/actor/actor.go:433-665 | a whole request, branch by branch, equals the composition of the stages the protocol interleaves |
| SeenCache.RememberKeepsCache | game-runtime/internal/actor/actor.go:948-961 | order and map hold the same distinct keys, at most 512; a new action evicts the oldest, a known one moves nothing |
| SeenCache.RunKeepsCache | game-runtime/internal/actor/actor.go:948-961 | the same over every run of answers |
| Safety.AppendOk | game-runtime/internal/actor/actor.go:595-665 | any append that succeeds is by an actor at the head, of a new action, and keeps the log contiguous |
| Safety.NextOk | game-runtime/internal/actor/actor.go:433-749 | every step of every actor keeps: one contiguous history, unique actions, caches and answers equal to receipt round trips |
| Safety.OneHistory | game-runtime/internal/persistence/memory_store.go:33-56 | in every interleaving the log is contiguous and no action has two events, although the store only enforces uniqueness |
| Safety.ExactlyOnce | game-runtime/internal/actor/actor.go:466-502 | all successful answers for an action are the same event and patches, those of its single log event, from memory, store or after a lost race |
| Authors.AnswersOwnOnly | game-runtime/internal/actor/permissions.go:323-325 | over every run no successful answer to a player is an event by another player |
| Authors.StrangersGetNothing | game-runtime/internal/actor/permissions.go:323-325 | over every run a player who asks for an action the log holds under another player is refused |
| Authors.StrangerIsDenied | game-runtime/internal/actor/actor.go:466-502 | a whole request by a stranger for a remembered or stored action is denied and changes and logs nothing |
| Authors.SenderIsAnswered | game-runtime/internal/actor/actor.go:466-502 | the sender asking again gets the event and patches of the one event there is |
| Authors.RememberedFor | game-runtime/internal/actor/actor.go:466-474 | from memory a stranger is denied and anybody else gets the remembered answer |
| Authors.StoredFor | game-runtime/internal/actor/actor.go:844-858 | from the store a stranger is denied and anybody else gets the event and its patches, if they can still be read |
| Authors.StoredIsRemembered | game-runtime/internal/actor/actor.go:844-858 | what the store answers is remembered, and nothing else of the actor changes |
| Authors.LostRaceFor | game-runtime/internal/actor/actor.go:621-645 | the same after a lost race, on the actor whose command was rolled back |
| Safety.VersionsNeverFall | game-runtime/internal/actor/actor.go:506-646 | no success, rejection, recovery or lost append takes an actor's version back |
| Safety.AppendsAtHead | game-runtime/internal/actor/actor.go:595-615 | an event an actor appends follows the whole log |
| Agreement.BodyAgrees | game-runtime/internal/actor/replay.go:66-109 | an event leads any two games like its source to games that agree, and equal ones to equal ones |
| Agreement.CatchUpTracks | game-runtime/internal/actor/actor.go:751-777 | catching up on a well-made log reaches its target as the replay of a longer prefix |
| Agreement.RecoverTracks | game-runtime/internal/actor/actor.go:725-749 | recovery on a well-made log reaches the head |
| Fidelity.RecoverFollows | game-runtime/internal/actor/actor.go:688-723 | after a taken version recovery from the actor's own state reaches the head with a larger version; the snapshot is not needed |
| Fidelity.FallbackAgrees | game-runtime/internal/actor/actor.go:707-723 | the snapshot fallback would reach a game that fits the actor's own recovery as closely as the two fitted the log, the same one when both did exactly |
| Fidelity.CommitFollows | game-runtime/internal/actor/actor.go:536-649 | commit, lost append, lost answer, duplicate and refusal all leave the actor at a replayed prefix |
| Fidelity.NextFollows | game-runtime/internal/actor/actor.go:433-749 | every step of the protocol keeps every actor and snapshot at a replayed prefix while the run is sound |
| Fidelity.BootFollows | game-runtime/internal/runtime/service.go:317-367 | a restart succeeds if and only if no message is in the log after the latest snapshot, and the restarted actor is at the head |
| Fidelity.ActorsArePrefixes | game-runtime/internal/actor/actor.go:506-665 | in every interleaving of a sound run each actor's game is the replay of the first version events, after success and after every rejection: the same game, or up to hot fields changed without an event, or up to the turn as well once its own commands wrote one |
| Fidelity.AppendsComputedAtHead | game-runtime/internal/actor/actor.go:536-615 | an appended event is its command's result on a game like the replay of the entire log before it, and that result is like the replay of the longer log, as closely as the actor fits, but for a turn the command itself wrote |
| DeadEnd.ReplayStops | game-runtime/internal/actor/replay.go:73-109 | recovery from any earlier base fails at an event that cannot be replayed, and catching up stops before it |
| DeadEnd.DeadForGood | game-runtime/internal/actor/actor.go:688-777 | once every actor and snapshot is before such an event, over every run nobody passes it, no restart succeeds and only messages are ever appended |
| DeadEnd.PlayThenCrash | game-runtime/internal/actor/library_appliers.go:219-237 | a top card played face down by the only actor, which then crashes without a new snapshot, leads there |
| Requests.StaleScanExact | game-runtime/internal/actor/actor.go:779-801 | the scan accepts exactly when the missed versions are all there, contiguous and of an allowed kind |
| Requests.StaleBaseAccepted | game-runtime/internal/actor/actor.go:779-801 | on the log as it is, a stale base is accepted if and only if all missed events are messages or votes |
| Requests.StaleBaseSafe | game-runtime/internal/actor/actor.go:513-524 | and then the command runs on the very table of its base |
| Finish.OverStays | game-runtime/internal/actor/replay.go:66-109 | a finished game stays finished over every well-made log |
| Finish.RunsOnFinishedIff | game-runtime/internal/actor/actor.go:503-524 | a command runs on a finished game if and only if the request is permitted, asks for a version the log has and the actor has not, and the game, as the log tells it, ended in between |
| Finish.NoAppendPastFinish | game-runtime/internal/actor/actor.go:503-615 | in every sound run no event is appended for a request that arrived when its actor was at or past the finish |
| Requests.OnlyPermittedCommit | game-runtime/internal/actor/permissions.go:72-129 | an event is committed only for an active player, a turn change only for the turn's holder if there is one, a player conceding for themselves, or the runtime's own presence and tick commands, and never by a closing, finished or unguarded actor or for a known action |
| Progress.AppendedIffAccepted | game-runtime/internal/actor/actor.go:433-665 | at the head of the log the event of a new action is appended if and only if the actor is open, the sender may send it, the game runs, the base is in time, it is no repeated concession and the applier takes it; then the answer, the log and the cache have that event and its patches |
| Progress.LostRaceOutcome | game-runtime/internal/actor/actor.go:600-646 | a command whose append comes too late is rolled back: its sender is answered from the store, a stranger denied, and with only the version taken the actor recovers and reports the conflict |
| Progress.FailedAppend | game-runtime/internal/actor/actor.go:595-646 | an append that is not guarded or fails leaves the actor rolled back, and an event only if it failed after the store had it |
| Progress.CaughtUpIsKept | game-runtime/internal/actor/actor.go:506-512 | catching up keeps what it could replay even when it stops short and the request is refused |
| Progress.RepeatAnsweredIff | game-runtime/internal/actor/actor.go:877-934 | a concession is answered as a repeated one exactly when it is the player's own, they have conceded, and its base is not ahead; the answer has the first's time |
| Progress.SavedIsBase | game-runtime/internal/runtime/service.go:317-367 | what an actor saves is what the next restart starts from |
| Progress.ClosedRefuses | game-runtime/internal/actor/actor.go:450-465 | a closing actor refuses every request, known actions included |
| Witnesses.RefusedRequestAdvances | game-runtime/internal/actor/actor.go:506-512 | a refused request can still have moved the actor forward |
| Requests.RepeatLeavesNoTrace | game-runtime/internal/actor/actor.go:877-934 | a repeated concession succeeds without log entry, cache entry or change |
| Requests.UndisturbedRequest | game-runtime/internal/actor/actor.go:433-665 | the interleaved stages of an undisturbed request give the same actor, answer and log as the whole request |
| Witnesses.FinishedGameGrows | game-runtime/internal/actor/actor.go:503-512 | an actor one event behind appends to a finished game |
| Witnesses.TwoTokensReplayAsOne | game-runtime/internal/actor/edge_appliers.go:64-116 | two tokens are replayed as one and survive an undo |
| Witnesses.MixedZonesDoNotReplay | game-runtime/internal/actor/movement_appliers.go:76-90 | a movement from two zones cannot be replayed from its event |
| Witnesses.BorrowedCardIsNotUndone | game-runtime/internal/actor/rollback.go:367-383 | an undone movement of a borrowed card leaves its owner's zones changed |
| Witnesses.NamedCardHidesList | game-runtime/internal/actor/rollback.go:367-393 | a request that names one card beside its list and whose append fails leaves the listed card in no zone |
| Witnesses.ShelvedToken | game-runtime/internal/actor/library_appliers.go:424-472 | a token put into a library is outside the battlefields |
| Fencing.StaleAppendIff | game-runtime/internal/persistence/postgres_store.go:100-160 | an append by a superseded holder goes through if and only if its owner and token were issued again |
| Fencing.ValidLeaseExcludes | game-runtime/internal/runtime/postgres_ownership.go:79-134 | a valid lease shuts out other owners, and an append needs its owner and token before it expires |
| Fencing.AcquireGives | game-runtime/internal/runtime/postgres_ownership.go:79-134 | acquiring gives the lease for a full term exactly unless somebody else's is valid, with the next token when there was none valid |
| Fencing.RenewAndRelease | game-runtime/internal/runtime/postgres_ownership.go:165-246 | renewing extends a valid lease of one's own, releasing ends one's own, and neither does anything else |
| Fencing.NoSupersededAppend | game-runtime/internal/persistence/postgres_store.go:100-160 | while no owner gets a token twice, no event of a superseded lease follows one of its successor |
| Fencing.TokensGrowIff | game-runtime/internal/runtime/postgres_ownership.go:79-134 | a step keeps tokens growing if and only if it does not insert a fresh row after leases were issued |
| Fencing.LogTokensNeverDecrease | game-runtime/internal/runtime/postgres_ownership.go:79-275 | then tokens along the log never decrease over the whole run |
| Fencing.NoDeletionNoRestart | game-runtime/internal/runtime/postgres_ownership.go:173-190 | without releases and revocations this is always so |
| Fencing.TokensCanFall | game-runtime/internal/runtime/postgres_ownership.go:173-210 | taken over, released and acquired anew, the token falls along the log |
| Fencing.SupersededCanAppend | game-runtime/internal/runtime/postgres_ownership.go:173-210 | after a revocation the same owner and token can be issued again and an old lease appends after its successor |
| Joint.RunProjects | game-runtime/internal/persistence/postgres_store.go:100-160 | a run of actors and leases together is a run of the protocol and a run of the leases, so that everything shown of either holds of both |
| Joint.LogFollowsLeases | game-runtime/internal/persistence/postgres_store.go:100-160 | along the one log the actors' events come in the order of the leases they were appended under, whatever stages, leases, crashes and restarts interleave, while no owner gets a token twice |
| Joint.LogTokensInOrder | game-runtime/internal/persistence/postgres_store.go:100-160 | their fencing tokens never decrease along the log while no lease starts over |
| Reveals.RevealHonestIff | game-runtime/internal/actor/library_appliers.go:117-125 | a reveal by names keeps the mask equal to its viewers' bits if and only if all named viewers have bits and somebody is named, or the fallback bit was already theirs |
| Reveals.RevealAdds | game-runtime/internal/actor/library_appliers.go:121-125 | exactly the named viewers join |
| Reveals.RevealBits | game-runtime/internal/actor/library_appliers.go:111-125 | the bits of a revealed window: those meant, the fallback bit when nobody is, and those of the window it extends |
| Reveals.StopRemovesExactly | game-runtime/internal/actor/library_appliers.go:623-673 | a targeted stop removes exactly the named viewers and their bits and closes the window exactly when nobody remains |
| Reveals.StopForAllCloses | game-runtime/internal/actor/library_appliers.go:623-673 | a stop for everybody closes the window, whatever it holds |
| Reveals.StopLeaves | game-runtime/internal/actor/library_appliers.go:623-673 | on any window a stop for some leaves no bit that is meant and none that belongs to nobody, and every other bit unless a named viewer could not be told apart |
| Reveals.RunShowsAudience | game-runtime/internal/actor/library_appliers.go:99-179 | over every run of reveals and stops the window is open exactly when somebody should look, with exactly those viewers and bits |
| RevealTable.LibraryReveals.RevealTop | game-runtime/internal/actor/library_appliers.go:99-125 | the reveal, in place, merging with a window of the same count and order |
| RevealTable.LibraryReveals.StopRevealing | game-runtime/internal/actor/library_appliers.go:623-673 | the stop, in place, with its fallbacks for stale masks; after a stop for everybody there is no window for that player, and no other player's is touched |
| Reveals.MergedIsDeduplicated | game-runtime/internal/actor/library_appliers.go:697-711 | the merged viewers are the old names and then the new ones, each once |
| Reveals.DeduplicatedInOrder | game-runtime/internal/actor/library_appliers.go:697-711 | each once, in the order of first appearance |
| RevealTable.MergeViewers | game-runtime/internal/actor/library_appliers.go:697-711 | the merge loop keeps first occurrences |
| Reveals.RemainingInOrder | game-runtime/internal/actor/library_appliers.go:713-725 | those who remain keep their order |
| RevealTable.WithoutViewers | game-runtime/internal/actor/library_appliers.go:713-725 | the filter loop keeps the others in order |
| RevealTable.AnyViewer | game-runtime/internal/actor/library_appliers.go:727-738 | whether two lists share a viewer |
| RevealTable.ViewerMask | game-runtime/internal/actor/library_appliers.go:740-746 | the union of the viewers' bits |

## Left out

- Card positions, faces, visibility fields, static card data and log entries: presentation; marks stand for everything a card gathers on the battlefield.
- Machine.UntrackableDiverges: speaks of the modelled commands; `library.shuffle`, `library.reorder_top`, `zone.reorderedByIds`, `card.controller.changed`, untapping and the mulligan commands also write zones or cards and are not among them.
- Hand reveals, relations, arrows, helpers, the stack, dice and counters changed by hand: they would add easy members.
- `card.token_copy.created`: its event names the copy where the command named the original, so its replay always fails; not modelled, but `DeadEnd` speaks of any event whose replay always fails.
- Table.Apply: refuses an empty `cards.moved` request, where the code stops with an index error.
- Actor.Permits: the ownership tables of single commands are one boolean of the request.
- Actor.RecoverFrom: does not model the final check that every controller is a known player.
- Actor.CatchUp: an event whose replay fails is taken to change nothing, as a whole-event contract of replay.
- Protocol.Next: mailbox, goroutines and the lifecycle handoff are left out; every read of the log is one step.
- Reveals.Reveal: a mask is the set of its bit positions, without the 64-bit width; the per-card masks and the patches of a reveal are left out.
- Fencing.Next: the in-memory owner check of a single node is not part of this model, only the database lease; the closing table is left out.
- Receipts.Event: creation times, types and metrics are left out; cloning of patches is not needed for immutable values.
- LifecycleGame.GameState: times are seconds, ids are numbers, phases and steps are numbers, a ballot's target is its key.
- ZoneTable.CardTable: the controller copied into each location entry is left out.
- Connections, tickets, command catalogue and configuration of the gateway are not part of this model.
