# Film-fight race coordination, modelled in Dafny

Film-fight is a two-player race. Players register in a lobby, and one player challenges another. Both then race to connect a start actor to a destination actor through shared movies.

This project models six parts of the TypeScript code:

- **The session coordinator** (`vite-ts/src/backend/server.ts`). It keeps four module-level tables: the player registry, the lobby set, the game rooms and the pending challenges. Every socket handler changes these tables and emits messages. Module `Session` gives each handler as a pure transition on a `Tables` value that returns the new tables and the emitted events. Class `Coordinator.Server` has the same tables as fields. Its methods update them in place, statement by statement as the handlers do. Each method's contract ties the new state and the appended events to the `Session` transition. Module `SessionLaws` proves that every handler keeps the table invariant, and proves what sequences of handlers do.
- **The earlier socket server** (`vite-ts/src/server.ts`). This is class `Legacy.Registry`, with its "fastest finisher" check.
- **The shortest-path panel** (`PathDisplay.tsx`), in module `PathDisplay`. It uses `JsText` for JavaScript's `trim`.
- **The hint panel** (`HintDisplay.tsx`), in module `HintDisplay`.
- **The race board of the current front end** (`vite-ts/src/frontend/components/Graph.tsx`). This is module `RaceGraph`, with class `RaceBoard`.
- **The first board** (`vite-ts/src/components/Graph.tsx`). This is module `BoardGraph`, with class `Board`.

Both boards share `GraphNodes`, which holds the node de-duplication and the search for a guess.

The code is modelled as written, including where it departs from the intended game policy:

- A second `winGame` in a room overwrites the winner, and both scores go up.
- A second `startGame` overwrites the start time.
- `acceptChallenge` works without a pending challenge, defaulting to "easy", and never deletes the challenge.
- `disconnect` deletes the registry record at once.
- A player who accepts a second challenge keeps a stale entry in the first room.

The lemmas in `SessionLaws` state each of these.

Time (`Date.now()`), the database answers and the random player name are parameters of the operations that use them.

## Model

| member | source | states |
|---|---|---|
| Session.SetAdd | vite-ts/src/backend/server.ts:55 | adding to the lobby Set: the id is present afterwards, the members are the old ones plus it, the old members keep their order with a new id appended last, and no id is duplicated |
| Session.SetDelete | vite-ts/src/backend/server.ts:107-108 | deleting from the lobby Set: the members are the old ones minus the id, the others keep their order, no duplicate appears |
| Session.LobbyPlayersOf | vite-ts/src/backend/server.ts:247-251 | the lobby snapshot is no longer than the lobby and lists only registry records of lobby ids |
| Session.LobbyPlayersComplete | vite-ts/src/backend/server.ts:247-251 | when every lobby id is registered, the snapshot has one record per lobby id, in lobby order |
| Session.EmptyInv | vite-ts/src/backend/server.ts:38-44 | the empty tables satisfy the invariant |
| Session.RoomIdInjective | vite-ts/src/backend/server.ts:93 | two room ids `game-<c>-<a>` are equal only for equal pairs, when challenger ids have no dash |
| Session.RoomIdCollision | vite-ts/src/backend/server.ts:93 | with dashes in socket ids, two different pairs share one room id |
| Session.FindPendingIsSearch | vite-ts/src/backend/server.ts:85-87 | the search over all pending challenges finds exactly the challenge stored under the accepter's id, if it is from the challenger |
| Session.RoomDifficulty | vite-ts/src/backend/server.ts:88 | the room difficulty is never empty: the pending challenge's difficulty when it is non-empty, "easy" otherwise |
| Session.Standings | vite-ts/src/backend/server.ts:167-170 | the gameOver list has one entry per room member, with that copy's name and score |
| Session.LeaveRoom | vite-ts/src/backend/server.ts:206-214 | the member is removed from the room, the room is deleted exactly when no member is left, other rooms are untouched |
| Session.Register | vite-ts/src/backend/server.ts:53-58 | a fresh record with score 0 under the caller's id, the caller added to the lobby Set (appended when absent, earlier members kept in order), the lobby broadcast |
| Session.ChallengeStep | vite-ts/src/backend/server.ts:61-78 | the challenge is stored under the target, replacing any earlier one, even for unknown players; the request is sent exactly when both are registered |
| Session.Accept | vite-ts/src/backend/server.ts:81-121 | unknown players change nothing; otherwise one room with copies of both records and the looked-up difficulty, both registry records otherwise unchanged but pointing to it, other records untouched, both out of the lobby, the challenge still pending, gameStart then the lobby broadcast |
| Session.StartGame | vite-ts/src/backend/server.ts:124-137 | the start time is set (overwriting) in the registry and in the room copy, the room otherwise unchanged (winner, difficulty, other members), other tables and rooms unchanged, playerStarted sent to the room |
| Session.WinGame | vite-ts/src/backend/server.ts:140-179 | an existing winner does not stop the handler: the caller's finish time is set, it becomes the winner and the room is otherwise unchanged, its registry score (only it) goes up by one, and gameOver carries finish minus start (0 when unset) |
| Session.ReturnToLobby | vite-ts/src/backend/server.ts:201-222 | the caller leaves its room (deleted when empty), its room and times are cleared with the score kept, it rejoins the lobby, the lobby is broadcast |
| Session.Disconnect | vite-ts/src/backend/server.ts:224-244 | the record is deleted at once, the caller leaves lobby and room (deleted when empty), playerLeft goes to the room only when there was one |
| SessionLaws.RegisterKeepsInv | vite-ts/src/backend/server.ts:53-58 | registering keeps the table invariant |
| SessionLaws.ChallengeKeepsInv | vite-ts/src/backend/server.ts:61-78 | challenging keeps the table invariant |
| SessionLaws.AcceptKeepsInv | vite-ts/src/backend/server.ts:81-121 | accepting keeps the table invariant |
| SessionLaws.AcceptKeepsRegistryInv | vite-ts/src/backend/server.ts:89-108 | accepting keeps the registry and the lobby in agreement |
| SessionLaws.AcceptKeepsRoomsInv | vite-ts/src/backend/server.ts:93-103 | accepting keeps every room stored under its id, non-empty, with members under their ids |
| SessionLaws.StartGameKeepsInv | vite-ts/src/backend/server.ts:124-137 | starting keeps the table invariant |
| SessionLaws.WinGameKeepsInv | vite-ts/src/backend/server.ts:140-179 | winning keeps the table invariant |
| SessionLaws.WinGameKeepsRegistryInv | vite-ts/src/backend/server.ts:158-165 | winning keeps the registry and the lobby in agreement |
| SessionLaws.WinGameKeepsRoomsInv | vite-ts/src/backend/server.ts:158-164 | winning keeps the rooms well-formed |
| SessionLaws.ReturnToLobbyKeepsInv | vite-ts/src/backend/server.ts:201-222 | returning to the lobby keeps the table invariant |
| SessionLaws.DisconnectKeepsInv | vite-ts/src/backend/server.ts:224-244 | disconnecting keeps the table invariant |
| SessionLaws.SecondWinOverwritesWinner | vite-ts/src/backend/server.ts:154-165 | two winGame calls in one room: the second caller overwrites the winner and both registry scores go up |
| SessionLaws.WinnerStandingNotUpdated | vite-ts/src/backend/server.ts:160-170 | the gameOver list shows the winner's room copy with the old score, one less than the registry score |
| SessionLaws.SecondStartOverwrites | vite-ts/src/backend/server.ts:130-131 | a second startGame replaces the first start time in the registry and in the room |
| SessionLaws.ChallengeLastWriterWins | vite-ts/src/backend/server.ts:64-68 | of two challenges to one target only the second can be found, and the room takes its difficulty |
| SessionLaws.AcceptWithoutChallenge | vite-ts/src/backend/server.ts:85-91 | accepting without a pending challenge still creates a room, of difficulty "easy" |
| SessionLaws.ChallengeThenAccept | vite-ts/src/backend/server.ts:61-121 | a "hard" challenge then its acceptance: one room of exactly the two players with difficulty "hard", both out of the lobby, the challenge left pending |
| SessionLaws.DisconnectMidRace | vite-ts/src/backend/server.ts:201-244 | a racer who disconnects is announced, removed from registry, lobby and room; the room is deleted when the other racer returns to the lobby |
| SessionLaws.SecondAcceptLeavesStaleEntry | vite-ts/src/backend/server.ts:93-108 | a room member who accepts a challenge into another room and returns to the lobby stays a member of the first room |
| SessionLaws.AcceptJoinsRoom | vite-ts/src/backend/server.ts:93-105 | after an accept both players are registered and the accepter is a member of the new room |
| SessionLaws.AcceptTwiceThenReturn | vite-ts/src/backend/server.ts:81-222 | a player who joins a second room and returns to the lobby is in the lobby and still in the first room |
| SessionLaws.StaleRoomMembership | vite-ts/src/backend/server.ts:81-222 | concretely for players A, B and C: "in the lobby or in a room, never both" fails |
| Coordinator.Server.constructor | vite-ts/src/backend/server.ts:38-44 | the tables start empty and satisfy the invariant, nothing emitted |
| Coordinator.Server.LobbyPlayers | vite-ts/src/backend/server.ts:247-251 | under the invariant the snapshot is the lobby's records one for one, in lobby order |
| Coordinator.Server.RegisterPlayer | vite-ts/src/backend/server.ts:53-58 | the in-place updates produce exactly the Session.Register tables and events |
| Coordinator.Server.Challenge | vite-ts/src/backend/server.ts:61-78 | the in-place updates produce exactly the Session.ChallengeStep tables and events |
| Coordinator.Server.AcceptChallenge | vite-ts/src/backend/server.ts:81-121 | the in-place updates produce exactly the Session.Accept tables and events |
| Coordinator.Server.StartGame | vite-ts/src/backend/server.ts:124-137 | the in-place updates produce exactly the Session.StartGame tables and events |
| Coordinator.Server.WinGame | vite-ts/src/backend/server.ts:140-179 | the in-place updates produce exactly the Session.WinGame tables and events |
| Coordinator.Server.ReturnToLobby | vite-ts/src/backend/server.ts:201-222 | the in-place updates produce exactly the Session.ReturnToLobby tables and events |
| Coordinator.Server.Disconnect | vite-ts/src/backend/server.ts:224-244 | the in-place updates produce exactly the Session.Disconnect tables and events |
| Coordinator.RaceTwoFinishes | vite-ts/src/backend/server.ts:140-179 | on the object: two finishers in one room leave the second as winner, both scores one higher, invariant kept |
| Legacy.Min | vite-ts/src/server.ts:89 | `Math.min` of a non-empty list is an element no larger than any element |
| Legacy.IsFastest | vite-ts/src/server.ts:88-89 | fastest exactly when the duration is below every other listed time (vacuously for none) |
| Legacy.OtherTimes | vite-ts/src/server.ts:84-86 | the list holds the duration of every other record with a truthy finish time, and nothing else |
| Legacy.FastestAmongListed | vite-ts/src/server.ts:84-93 | were the other records listed, fastest would mean every other finisher took strictly longer |
| Legacy.Registry.constructor | vite-ts/src/server.ts:22 | the registry starts empty and valid, nothing emitted |
| Legacy.Registry.Connect | vite-ts/src/server.ts:32-43 | a record with score 0 and no times under the connection id; playerInfo then the list broadcast |
| Legacy.Registry.IncrementScore | vite-ts/src/server.ts:46-54 | exactly the caller's score goes up by one and the list is broadcast; unknown callers change nothing |
| Legacy.Registry.ResetScore | vite-ts/src/server.ts:57-64 | exactly the caller's score becomes 0 and the list is broadcast; unknown callers change nothing |
| Legacy.Registry.StartGame | vite-ts/src/server.ts:66-73 | exactly the caller's start time becomes `now`, replacing an earlier one; the list is broadcast |
| Legacy.Registry.WinGame | vite-ts/src/server.ts:75-95 | only a caller with a truthy start time finishes; it is always told to increment, because the list of other times is always empty |
| Legacy.Registry.Disconnect | vite-ts/src/server.ts:97-102 | exactly the caller's record is removed and the list is broadcast |
| Legacy.SlowerSecondFinisher | vite-ts/src/server.ts:66-95 | two racers finishing in turn are both told to increment, even when the second was slower |
| JsText.TrimStart | vite-ts/src/frontend/components/PathDisplay.tsx:17 | strips exactly the leading white space: a suffix of the input, only spaces removed, no space left in front |
| JsText.TrimEnd | vite-ts/src/frontend/components/PathDisplay.tsx:17 | strips exactly the trailing white space: a prefix of the input, only spaces removed, no space left at the end |
| JsText.Trim | vite-ts/src/frontend/components/PathDisplay.tsx:17-19 | the trimmed string is the middle of the input between leading and trailing spaces, starting and ending with a non-space |
| JsText.TrimUnchanged | vite-ts/src/frontend/components/PathDisplay.tsx:17-19 | a string without surrounding spaces is its own trim |
| JsText.TrimIdempotent | vite-ts/src/frontend/components/PathDisplay.tsx:17-19 | trimming twice is trimming once |
| PathDisplay.TrimmedOrNull | vite-ts/src/frontend/components/PathDisplay.tsx:17 | `?.trim() \|\| null`: a missing or blank property gives null, otherwise its non-empty trimmed value |
| PathDisplay.NodeLabel | vite-ts/src/frontend/components/PathDisplay.tsx:14-21 | a Person shows its trimmed name (never its title), else a Movie its trimmed title, else nothing; a non-blank name or title is always shown; labels are non-empty and trimmed |
| PathDisplay.SegmentPair | vite-ts/src/frontend/components/PathDisplay.tsx:24-29 | a segment gives a pair exactly when both ends have a label, and the pair holds those labels |
| PathDisplay.Present | vite-ts/src/frontend/components/PathDisplay.tsx:30 | the filter keeps only present pairs and is no longer than its input |
| PathDisplay.PresentAppend | vite-ts/src/frontend/components/PathDisplay.tsx:30 | filtering a concatenation filters each part |
| PathDisplay.CleanedPath | vite-ts/src/frontend/components/PathDisplay.tsx:23-30 | at most one pair per segment, every pair made of two non-empty labels |
| PathDisplay.CleanedPathAppend | vite-ts/src/frontend/components/PathDisplay.tsx:23-30 | cleaning a concatenation of paths cleans each part |
| PathDisplay.CleanedPathSingle | vite-ts/src/frontend/components/PathDisplay.tsx:23-30 | one segment is kept, as its pair of labels, exactly when both ends have a label |
| PathDisplay.Names | vite-ts/src/frontend/components/PathDisplay.tsx:33-42 | the names of a list of pairs are exactly their starts and ends |
| PathDisplay.UniquePairs | vite-ts/src/frontend/components/PathDisplay.tsx:33-42 | the dedup loop keeps a pair exactly when it brings a name not met before; the result is a subsequence with the same first pair and the same names |
| PathDisplay.UniqueIsSubseq | vite-ts/src/frontend/components/PathDisplay.tsx:36-41 | the kept pairs are the input with some pairs deleted, in order |
| PathDisplay.UniqueKeepsFirst | vite-ts/src/frontend/components/PathDisplay.tsx:36-41 | the first pair is always kept |
| PathDisplay.UniqueKeepsNames | vite-ts/src/frontend/components/PathDisplay.tsx:36-41 | dropping pairs loses no name |
| HintDisplay.Join | vite-ts/src/frontend/components/HintDisplay.tsx:8-19 | the reference join: its length is the names' lengths plus one separator per gap, and it starts with the first name |
| HintDisplay.NodesToString | vite-ts/src/frontend/components/HintDisplay.tsx:8-19 | the loop's text is empty for no names, otherwise the names joined with ", " and one trailing space |
| HintDisplay.TextUpToIsJoin | vite-ts/src/frontend/components/HintDisplay.tsx:10-17 | before the last name the text is the joined names so far plus a pending ", " |
| HintDisplay.TextIsJoin | vite-ts/src/frontend/components/HintDisplay.tsx:10-17 | the finished text is the names joined with ", " plus " " |
| HintDisplay.TextShape | vite-ts/src/frontend/components/HintDisplay.tsx:8-19 | the text holds the names, n - 1 two-character separators and one space, and starts with the first name |
| GraphNodes.FirstWithId | vite-ts/src/frontend/components/Graph.tsx:151-153 | the `find` on ids: absent exactly when no node has the id, otherwise the first node with that id |
| GraphNodes.TrimDuplicateNodes | vite-ts/src/frontend/components/Graph.tsx:149-160 | the kept nodes have distinct ids (the same function is at vite-ts/src/components/Graph.tsx:60-71) |
| GraphNodes.TrimIsSubseq | vite-ts/src/frontend/components/Graph.tsx:149-160 | the kept nodes are the input with some nodes deleted, in order |
| GraphNodes.TrimKeepsIds | vite-ts/src/frontend/components/Graph.tsx:149-160 | every id of the input is the id of a kept node |
| GraphNodes.TrimSameIds | vite-ts/src/frontend/components/Graph.tsx:149-160 | the kept nodes carry exactly the ids of the input |
| GraphNodes.TrimKeepsOnlyFirsts | vite-ts/src/frontend/components/Graph.tsx:149-160 | each kept node is the first input node with its id |
| GraphNodes.TrimKeepsEveryFirst | vite-ts/src/frontend/components/Graph.tsx:149-160 | the first input node with any id is kept |
| GraphNodes.TrimLength | vite-ts/src/frontend/components/Graph.tsx:149-160 | the result is never longer than the input |
| GraphNodes.TrimDistinctUnchanged | vite-ts/src/frontend/components/Graph.tsx:149-160 | a list whose ids are already distinct is returned unchanged |
| GraphNodes.RecordNodes | vite-ts/src/frontend/components/Graph.tsx:238-260 | one node per record, in order, with the record's id, name and movie (the same loop is at vite-ts/src/components/Graph.tsx:108-128) |
| GraphNodes.ConnectedNodes | vite-ts/src/frontend/components/Graph.tsx:229-266 | the loop then the de-duplication: distinct ids, no more nodes than records, every record id present, every node built from a record (the same code is at vite-ts/src/components/Graph.tsx:99-141) |
| GraphNodes.FirstLabelIndex | vite-ts/src/frontend/components/Graph.tsx:283-285 | the index of the first node labelled with the guess, or none when no node is |
| GraphNodes.FindFirstLabel | vite-ts/src/frontend/components/Graph.tsx:283-285 | the loop with `break` stops at exactly that first index |
| RaceGraph.DifficultyBanner | vite-ts/src/frontend/components/Graph.tsx:70-75 | red with the "no restrictions" message exactly for "hard", green with the "popular actors" message otherwise |
| RaceGraph.FirstOffPath | vite-ts/src/frontend/components/Graph.tsx:119 | the first hint not on the path, or none exactly when every hint is on it |
| RaceGraph.Without | vite-ts/src/frontend/components/Graph.tsx:126 | every copy of the removed hint goes, the other hints keep their counts and order |
| RaceGraph.PruneHints | vite-ts/src/frontend/components/Graph.tsx:114-127 | a tick stops exactly when no hint is off the path or the first is the empty string; otherwise that hint is gone, the list shrinks, and every other hint (on the path or off it) keeps its count and order |
| RaceGraph.PruneUntilStop | vite-ts/src/frontend/components/Graph.tsx:111-130 | when the ticks stop no off-path hint is left except behind an empty hint, and path hints keep their counts |
| RaceGraph.PruneEndsOnPath | vite-ts/src/frontend/components/Graph.tsx:111-130 | without empty hints, the ticks end with every remaining hint on the path |
| RaceGraph.PlaceholderStops | vite-ts/src/frontend/components/Graph.tsx:119-123 | the `[""]` placeholder stops the interval on the first tick, unchanged |
| RaceGraph.PathActors | vite-ts/src/frontend/components/Graph.tsx:478-488 | one name per segment: the start name at even positions, the end name at odd ones |
| RaceGraph.PathActorsOnPath | vite-ts/src/frontend/components/Graph.tsx:478-488 | on a contiguous path the names are the even path nodes, each inner one twice, plus the last node for an even number of segments |
| RaceGraph.RaceBoard.constructor | vite-ts/src/frontend/components/Graph.tsx:54-61 | the board starts with no nodes, edges, hints or current and destination actors |
| RaceGraph.RaceBoard.ResetNodes | vite-ts/src/frontend/components/Graph.tsx:352-356 | nodes, edges and hints become empty; nothing else changes |
| RaceGraph.RaceBoard.StartGame | vite-ts/src/frontend/components/Graph.tsx:165-222 | the two actors are appended to the nodes captured before the reset, the first is current, the second the destination, startGame is sent |
| RaceGraph.RaceBoard.Search | vite-ts/src/frontend/components/Graph.tsx:275-336 | nothing changes without a current name, records, nodes or a match; otherwise the first match becomes current, and either wins (edge to the destination, hints cleared, winGame sent) or joins the board with an edge |
| RaceGraph.RaceBoard.Guessed | vite-ts/src/frontend/components/Graph.tsx:285-331 | the matched node becomes current; the destination's label adds the winning edge and sends winGame, any other adds the node and its edge |
| RaceGraph.PathNames | vite-ts/src/frontend/components/Graph.tsx:119 | the path the interval checks against: a name is on it exactly when some stored path entry is that defined name |
| RaceGraph.RaceBoard.HintTick | vite-ts/src/frontend/components/Graph.tsx:114-127 | one tick replaces the hints by the pruned list and reports whether the interval stops; nothing else changes |
| BoardGraph.Board.constructor | vite-ts/src/components/Graph.tsx:22-27 | the board starts with the two placeholder nodes and their edge, no current actor |
| BoardGraph.Board.ResetNodes | vite-ts/src/components/Graph.tsx:174-177 | nodes and edges become empty; the current actor stays |
| BoardGraph.Board.StartGame | vite-ts/src/components/Graph.tsx:73-97 | the board is reset; with a record it holds only the starting actor, which becomes current |
| BoardGraph.Board.Search | vite-ts/src/components/Graph.tsx:143-173 | nothing changes without a current name, records, nodes or a match; otherwise the first match is appended with one edge from the current node and becomes current |
| BoardGraph.TwoGuesses | vite-ts/src/components/Graph.tsx:143-173 | two successful guesses chain: the second edge starts where the first ends, and each edge ends at the node it added |

## Left out

- Socket.io transport is not modelled: the connection itself, `socket.join`/`leave`, and which sockets receive a message. An event records its addressee (room, target or everyone) as a field.
- The 3-second grace timer in `disconnect` is left out: the handler already deletes the record, so the timer's deletion has nothing left to do.
- The 8-second timeout on the shortest-path request is left out.
- The 5-second scheduling of the hint interval is left out. `HintTick` is one tick, and `PruneUntilStop` is the run of ticks until the interval is cleared.
- The graph-database queries are not modelled. What `getRandomActors`, `getConnectedActors` and the path query return is passed in as a parameter. The `getConnectedActors` and `getShortestPath` forwarding handlers are out.
- Randomness is left out: the random player name becomes a parameter. The random pick and shuffle of the hint list (`checkHintActors`) and the second `getRandomActor` call at the end of the first board's `startGame` are not modelled.
- `handlePathDisplay` and `checkHintActors`, which `startGame` and `search` await after updating the board, are not modelled. Of them, only the path-name loop (`PathActors`) and the hint ticks are.
- Object key order is left out. Room members and the `gameOver` list are maps, and `playersUpdated` carries the registry map rather than its value list.
- React rendering is not modelled: node positions, styles, edge types and fit-view options.
- `setState` batching is left out. Each board method applies its updates at once. The one stale read that matters, of `nodes` in the new board's `startGame`, is modelled by reading the nodes before the reset.
- The Neo4j integer id `.low` and the template-literal stringification are not modelled. Record ids come in as text. A missing optional value renders as "undefined".
- JavaScript numbers are unbounded `int` here: no floating-point precision limit. Scores are naturals.
- The `TypeError` paths that end a handler or a board method early are modelled as "stop here":
  - `nodes[0]` on an empty board.
  - A room without an entry for the caller.
  - An empty random-actor answer.
  
  The updates made before the throw are kept.
- `Coordinator.Server.WinGame` and the other `Coordinator.Server` handler methods do not state the table invariant `Valid()`. Their contracts equal the `Session` transitions, and the invariant's preservation is proved once per handler in `SessionLaws`.
- `Legacy.OtherTimes` states which durations are listed, not their order. `Math.min` does not depend on the order.
- `Legacy.FastestAmongListed` is about the list the handler evidently meant to build. The handler as written always lists nothing, which `Legacy.Registry.WinGame` states.
