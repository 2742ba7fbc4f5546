# A verified model of the Jeux game server

Jeux is a multi-threaded server for a two-player game (tic-tac-toe). Clients log in under user names,
invite each other, accept, decline or revoke invitations, move, and resign; players have Elo ratings.
This project models the server's shared state and the protocols that change it, and proves what they keep.

There are two layers.

**Sequential layer.** The objects of the C program are classes with the same fields: a client with its slot
table and length, an invitation, a game with its 5x6 character board, a player, the two registries. Each
`client_*` operation is a method with the source's sequence of calls, reference counting and early returns
(`Operations`, `Lobby`, `Games`, `Players`, `Registry`); a request is one atomic step. `Server` proves
each method to compute a function on a value, the `World` (module `Worlds`), and to leave every reference
count exact. What all operations keep is proved about those functions (`WorldKept`, `Logout`), then about
all sequences of operations (`Runs`), and `Services` shows that the history of the objects, under any
interleaving of requests, is such a sequence. Transmissions succeed or fail arbitrarily throughout.

**Step machines.** The concurrency protocols are small machines at the granularity of one lock, unlock,
read or write, with any number of threads and any schedule: `InvitationRace`, `RegistrySemaphore`,
`RatingLocks`, `SendMutex`, `TurnBaton` (the two players' threads on one game), and `ResultRace` (what the
two do with the result).

| file | content |
|---|---|
| `TicTacToe`, `Games` | abstract game, the character board refining it |
| `TurnBaton`, `ResultRace` | the game's steps interleaved, and who posts its result |
| `Elo`, `Players`, `RatingLocks` | rating arithmetic, players and their registry, ordered locking |
| `Slots`, `Lobby`, `Registry` | slot tables, clients and invitations, the client registry |
| `Operations`, `Worlds`, `WorldKept`, `Logout`, `Server` | the operations, their specification, and the proof that one meets the other |
| `Texts`, `Rules` | the same said again in literal terms: printed texts and move strings; roles, winners, ratings, who is told what |
| `Runs`, `InviteIds`, `Delivery`, `Payloads`, `RatingHistory` | all sequences of operations: states, ids, recipients, texts, ratings |
| `Services` | requests, replies, connections |
| `InvitationRace`, `RegistrySemaphore`, `Tallies` | the state mutex race, the one-token semaphore |
| `Packets`, `Protocol`, `SendMutex` | header packing, framing, concurrent senders |
| `Roles`, `Sealing` | the role constants; keeping large definitions folded |

Conventions. `alive` is a ghost field of games, invitations, clients and players, true until the object is
freed. Every method of theirs that runs after construction demands it, and so does every accessor
(`GetGame`, `GetPlayer`, `GetWinner`, ...) through which the operations read another object's fields; a
verified operation therefore uses nothing after its last reference. Ghost fields `srcSlot`, `targetSlot`, `peak`, `regSlot`, `lost` and
`books`, `stray` are bookkeeping for specifications; ghost parameters name objects that the code finds by itself.
Methods named `...Entry` are the operations as they are called from outside; `...Booked`, `...Done` and
`...Facts` members are steps of their proofs.

## Where the code and its documentation disagree

The model follows the code.

- A game ended by a move leaves its invitation ACCEPTED: `inv_close` is not called (src/client.c:756-790).
  "Live" therefore means open, or accepted with the game still running.
- `client_make_invitation` returns the slot it took and gave back when only the target's table is full,
  although no invitation was made (src/client.c:329), and -1 although the invitation stays when the INVITED
  packet fails (src/client.c:337-339). Both are in `Operations.MakeInvitation`; `InviteIds` says exactly
  when the id in the acknowledgement names an invitation, and has a run in which it names none.
- A login whose acknowledgement fails leaves the client logged in while `new_player` is NULL
  (src/server.c:168-171): such a client is not logged out at the end of its connection, and its thread's
  reference to the player is never given up. `Services.Service.Close`,
  `Services.Service.NewPlayerIsThePlayer` and `Services.Service.PlayerCountIs` say exactly what then holds.
- Such a client, held by an invitation, stays allocated after its descriptor is closed
  (src/client_registry.c:90-91); a later notification for it is still written to that descriptor.
  `Delivery` says exactly when this happens, and has such a run.
- The size field of a header has sixteen bits, and only as much of a payload is written as it says
  (src/packet_common.c:5-13, src/protocol.c:42-44). A list of users of 65,536 characters or more is cut to what
  is left: `Payloads` has such a run, and says that nothing else is ever cut.
- A failed packet makes revoke, decline, accept and resign report failure although they took effect.
- The turn is given away before the status is set (src/game.c:303-306), so a mark can follow a winning
  line: `TurnBaton` shows such a run, says exactly when it happens, and that it is one mark at most.
- After an accepted move a thread looks at the status only when its MOVED packet is out (src/client.c:745-756):
  if the opponent has won meanwhile both threads post the result, and one that reads the winner before it is
  set posts a draw (src/game.c:306-312). `ResultRace` has both runs and says exactly when they happen.

## Model

| member | source | states |
|---|---|---|
| `Runs.StepGood` | src/client.c:55-795 | every operation (connect, disconnect, register, login, invite, revoke, decline, accept, resign, move, logout, reply), with any outcome of its transmissions and on every early return, keeps the whole invariant of the shared state |
| `Runs.RunGood` | src/client.c:55-795 | every state reachable from the empty server by any sequence of operations satisfies that invariant |
| `Runs.ExactlyTwoSlots` | src/client.c:293-312 | in every reachable state an allocated invitation is in exactly one slot of its source and one of its target and in no other slot of any table; it is between two different clients; its game, if any, is sound and still running. What has ended is in no slot |
| `Runs.IdsStay` | src/client.c:55-75 | an id keeps naming the same invitation as long as the invitation lives, whatever operations happen in between |
| `Runs.IdsBelowPeak` | src/client.c:55-75 | every id in use is below the client's peak number of simultaneous invitations, over every run |
| `Runs.RatingsAddUp` | src/player.c:110-120 | conservation: in every reachable state the ratings add up to exactly 1500 times the number of players |
| `Runs.PostedExactlyOnce` | src/client.c:577-587 | a game that was running and is not any more has been posted, and posted once, however it ended (move, resignation, logout), when requests are atomic; what overlapping movers do is in ResultRace |
| `Runs.RunningNotPosted` | src/client.c:756-789 | no result is posted of a game that is still running |
| `Runs.EveryPostIsRight` | src/client.c:782-786 | every result ever posted was posted by the operation that ended its game: the FIRST-role player comes first, a resignation or logout is won by the opponent, a move's result is the winner of the position it led to |
| `Runs.StepPosts` | src/client.c:642-652 | only moves, resignations and logouts post results, and only right ones |
| `Runs.OneAddressee` | src/client_registry.c:104-127 | in every reachable state a user name finds at most one client |
| `Runs.StepOnward` | src/client.c:55-96 | no operation moves an invitation to another slot, takes back a packet or a result, or lets a running game go without posting it |
| `Runs.RunOnward` | src/client.c:55-96 | the same between any two states of a run |
| `Runs.StepOthers` | src/client.c:200-243 | an operation leaves every registered client it does not connect, disconnect, log in or log out registered and logged in as before |
| `Runs.RunTrue` | src/client.c:25-53 | the slot in any notification ever sent is still the recipient's slot, for as long as the invitation lives |
| `Runs.NotifiedIdNamesInvitation` | src/client.c:555-575 | every INVITED, REVOKED, DECLINED, ACCEPTED, MOVED, RESIGNED and ENDED packet was written to the descriptor of a party of its invitation and carries that party's own slot as of the event, intact exactly when the slot is below 256, which a peak of at most 256 ensures; the slot names the same invitation later |
| `Delivery.DeliveredUnlessLeft` | src/client_registry.c:75-102 | whether that party was still connected: it was not, exactly when its connection had ended before and an invitation has kept it allocated since; and then it was still logged in when its connection ended |
| `Delivery.AllDelivered` | src/server.c:194-205 | in every run in which no connection ends while its client is logged in, every notification went to a connected party |
| `Delivery.NotConnected` | src/client_registry.c:75-102 | an allocated client that is not connected was unregistered while logged in and has been held by an invitation ever since |
| `Delivery.SentToNobody` | src/client.c:371-388 | a run, from the empty server on, in which a notification goes to nobody: an invited user's connection ends while it is logged in, the invitation is revoked, and the packet is written to the closed descriptor |
| `Services.Service.UndeliveredIsStray` | src/server.c:194-205 | on the objects: a notification was written to nobody only if it was for a client whose connection ended after the acknowledgement of its login had been lost |
| `InviteIds.InvitedIdNamesInvitation` | src/client.c:314-344 | the number an inviter is given names the new invitation in its own table, is below its peak, and keeps naming it, exactly when the invitee's table had room; otherwise nothing has happened and the slot of that number is empty |
| `InviteIds.AcknowledgedIdFits` | src/server.c:61-68 | the acknowledgement of an INVITE carries that number's low eight bits: the number itself exactly below 256, so always with a peak of at most 256 if the invitee's table had room; without room the number may equal the peak, and 256 is sent as 0 |
| `InviteIds.NumberForNothing` | src/client.c:326-330 | a run, from the empty server on, in which only the invitee's table is full: the inviter gets number 0, not -1, and the slot is empty |
| `InviteIds.RefusedYetMade` | src/client.c:334-340 | an inviter is told of a failure although the invitation stands exactly when one was made and its packet was lost |
| `Services.InviteAcknowledged` | src/server.c:38-70 | the same for the packet that answers an INVITE request: its id, and when it names the invitation |
| `RatingHistory.RatingsAreTheReplay` | src/player.c:98-127 | in every reachable state the ratings are exactly what all results posted so far, one after the other, make of 1500 each |
| `Rules.InviteSides` | src/server.c:57-62 | when an invitation results, a request for FIRST gives the invitee FIRST and the inviter SECOND, any other the reverse; the invitee is told its own role and the inviter's name |
| `Services.InviteHandled` | src/server.c:38-70 | the same for an INVITE request as it is handled |
| `Rules.RevokeSides` | src/client.c:346-390 | a revocation succeeds exactly for the source of an open invitation; it is gone, and it is the target that gets REVOKED; otherwise nothing happens |
| `Rules.DeclineSides` | src/client.c:392-440 | a declination succeeds exactly for the target of an open invitation; it is gone, and it is the source that gets DECLINED; otherwise nothing happens |
| `Rules.AcceptSides` | src/client.c:442-515 | an acceptance succeeds exactly for the target of an open invitation: nine blank cells, FIRST to move; the source is told its own role; whoever plays FIRST is shown the board, in that packet or in the acknowledgement |
| `Rules.ResignSides` | src/client.c:517-661 | who resigns a running game loses it, source or target, FIRST or SECOND: the other party gets RESIGNED, both ENDED packets name the other party's role, the result on record is its win, its rating rises by less than 32 and the resigning player's falls, and no other rating changes |
| `Rules.MoveSides` | src/client.c:698-786 | a move is accepted exactly if the role the invitation gives to this party is in turn and the string names a blank cell; that cell gets an X exactly for FIRST, the other party sees the position and is in turn; a line wins for the mover, a full board is a draw, both are told, and the ratings rise, fall or move accordingly |
| `Rules.LogOutSides` | src/client.c:223-243 | every result a logout posts is a win of the opponent; nobody else's rating falls, and the client's own falls if it had a running game |
| `Rules.LoginSides` | src/client.c:200-220 | a login succeeds exactly for a client without a user when nobody registered is logged in as that user, and changes nothing but that client |
| `Rules.ResultRates` | src/player.c:110-123 | result 1 raises the first player's rating and lowers the second's, 2 the reverse, by less than 32; 0 moves both by less than 16; no other rating changes |
| `Rules.LinesAreStraight` | src/game.c:190-246 | the eight lines are exactly the triples of cells of which one lies half-way between the two others |
| `Operations.CarriedIsCut` | src/protocol.c:42-44 | what a packet carries of any payload is what is written to the socket for its text, the first (length mod 65,536) characters, and it is the payload itself exactly when its text is shorter than 65,536 |
| `Payloads.NotificationsArriveWhole` | src/client.c:555-575 | every notification ever sent carries all of its text: a registered name is at most 65,535 long, and the board has 40 characters |
| `Payloads.InvitedByName` | src/client.c:333-336 | an invitee is told the whole name of whoever invites it |
| `Payloads.ReplyCarries` | src/client.c:275-282 | a reply carries the first (length mod 65,536) characters of its text, all of it exactly when it is shorter than 65,536 |
| `Services.UsersAcknowledged` | src/server.c:31-34 | what answers a USERS request on the wire: the list, whole exactly when its text is shorter than 65,536 characters, otherwise only its first (length mod 65,536) |
| `Services.OthersWhole` | src/server.c:72-138 | every other acknowledgement carries all of its text: none, or the board for an accepter that moves first |
| `Payloads.TwoLongNames` | src/server.c:20-34 | two users with names of 33,000 characters: of the list of both, 476 characters go out, less than the first name |
| `Payloads.ListCut` | src/server.c:13-36 | a run, from the empty server on, in which that happens |
| `Logout.LogOutBreaksCycle` | src/client.c:223-243 | after a logout, however its transmissions went, the table is empty, no invitation anywhere names the client, all others are untouched, and unregistering then frees the client |
| `Logout.LogOutPostsDefeats` | src/client.c:233-239 | every running game of a client that logs out is posted with the opponent as winner |
| `Logout.SlotCleared` | src/client.c:234-238 | resign, else revoke, else decline empties the slot exactly once, although a failed transmission makes a call that did its work report failure |
| `Worlds.FirstFree` | src/client.c:55-75 | the least empty slot |
| `WorldKept.DetachInv` | src/client.c:77-96 | taking an invitation out of both tables, freeing it, and freeing clients nobody refers to any more keeps the invariant |
| `WorldKept.MakeInv` | src/client.c:314-344 | an invitation made between two logged-in clients keeps the invariant, also when the target's table is full or the packet fails |
| `WorldKept.WithdrawInv` | src/client.c:346-440 | revoking and declining keep the invariant |
| `WorldKept.AcceptInv` | src/client.c:442-515 | accepting keeps the invariant |
| `WorldKept.QuitInv` | src/client.c:517-661 | resigning keeps the invariant, the sum of the ratings included |
| `WorldKept.AdvanceInv` | src/client.c:663-795 | a move, ending the game or not, keeps the invariant |
| `WorldKept.LoginInv` | src/client.c:200-220 | a login keeps the invariant, in particular that no two registered clients are logged in as one player |
| `WorldKept.DisconnectInv` | src/client_registry.c:75-102 | unregistering keeps the invariant: a client still held by an invitation stays allocated |
| `WorldKept.EnrollInv` | src/player_registry.c:81-88 | a new player keeps the invariant: 1500 points, the next id, a new name |
| `WorldKept.PostInv` | src/player.c:98-127 | posting one result of a game that is gone keeps the invariant |
| `Server.Jeux.CountsAreExact` | src/client.c:157-198 | on the objects, in every valid state: a client's count is 1 if registered plus the invitations in its table, an invitation's is 2, a game's is 1, a player's is 1 plus the references held for clients; nothing counted has been freed |
| `Server.Jeux.AllocatedForAReason` | src/client.c:157-198 | nothing leaks: of all clients, invitations and games ever made, a client is allocated exactly while the books know it, and then registered or held by an invitation; an invitation exactly while it is in its two slots; a game exactly while an allocated invitation owns it |
| `Services.Service.PlayerCountIs` | src/player.c:43-83 | a player's reference count, exactly, between requests: 1, plus 2 for every open connection logged in as the player, plus 2 for every connection that ended after a lost login |
| `Server.Jeux.TwoSlotsEach` | src/client.c:55-96 | on the objects: a slot of any client's table holds an invitation exactly when it is that invitation's one slot at its source or at its target |
| `Server.Jeux.WithdrawEntry` | src/client.c:346-440 | revoke (as source) and decline (as target) on the real tables, counts and early returns give exactly the specified state, status and packet, and leave every count exact |
| `Server.Jeux.AcceptEntry` | src/client.c:442-515 | accept likewise: a new game, the source told, the text for an accepter that moves first |
| `Server.Jeux.ResignEntry` | src/client.c:517-661 | resign likewise: both tables, three packets, the result, and every count exact at the end |
| `Server.Jeux.MoveEntry` | src/client.c:663-795 | move likewise: refused without any change, or played, the opponent told, and a finished game ended and posted |
| `Server.Jeux.InviteEntry` | src/server.c:38-70 | inviting a user by name on the objects does what the specification says, including a full target table and a failed packet |
| `Server.Jeux.ConnectEntry` | src/client_registry.c:46-73 | a connection adds one empty client, or nothing exactly when the registry is full |
| `Server.Jeux.DisconnectEntry` | src/client_registry.c:75-102 | unregistering frees the client exactly when no invitation holds it |
| `Server.Jeux.EnlistEntry` | src/player_registry.c:57-92 | a registered name gives its player again, a new name a new player; one more reference is counted either way |
| `Server.Jeux.LoginEntry` | src/client.c:200-220 | a login succeeds exactly when the client is not logged in and no registered client is logged in as that player; the counts follow |
| `Server.Jeux.ReleaseEntry` | src/player.c:60-83 | giving up the thread's reference changes nothing but the count |
| `Server.Jeux.ClearEntry` | src/client.c:234-238 | one turn of the logout loop on the objects empties the slot as specified |
| `Server.Jeux.LogoutEntry` | src/client.c:223-243 | the whole logout on the objects: every slot cleared as specified, the player given up with its reference |
| `Server.Jeux.UsersEntry` | src/server.c:13-29 | prints the name and rounded rating of everybody logged in, and nobody else, each once; every reference taken is given back |
| `Server.Jeux.ListedMembers` | src/client_registry.c:129-155 | a line is in the list exactly when it has the name and the present rating of some registered, logged-in client |
| `Texts.ListReads` | src/server.c:20-27 | the list is a line for each user: name, tab, rating, line end |
| `Texts.DecimalReads` | src/server.c:24 | a rating in the list reads back as itself, without needless zeros |
| `Server.Jeux.ReplyEntry` | src/client.c:275-291 | an acknowledgement or refusal goes to the client's own descriptor, and changes nothing else |
| `Operations.CloseOpen` | src/client.c:346-366 | revoke and decline get past their guards exactly for an open invitation and its source or target; otherwise nothing changed, counts included |
| `Operations.LeaveTables` | src/client.c:367-381 | while the caller holds a reference both removals find the invitation, neither frees it, and the slot returned is the other party's |
| `Operations.WithdrawInvitation` | src/client.c:346-440 | on success the invitation is out of both tables and freed, each party has one reference less, the other party is told by its own slot |
| `Operations.AcceptInvitation` | src/client.c:442-515 | on success the invitation is accepted with a new game counted once; the source is told its role and, if it moves first, the board |
| `Operations.ResignGame` | src/client.c:517-661 | on success the game is over, the invitation and the game freed, the opponent and then both told, and the result posted for the opponent |
| `Operations.MakeMove` | src/client.c:663-795 | a refused move leaves every object as it was; an accepted one is played and told; a finished game leaves both tables, is posted, and is freed with its invitation |
| `Operations.MakeInvitation` | src/client.c:314-344 | no invitation remains exactly with bad arguments or a full table; then both tables and counts are restored. Otherwise it is in the least free slot of each table with count 2, and the status is the source's slot or, if the packet failed, -1 |
| `Operations.InviteUser` | src/server.c:51-62 | the invitee is looked up, invited with complementary roles, and its looked-up reference given back |
| `Operations.LoginClient` | src/client.c:200-220 | refused exactly when logged in already or somebody is under that name; the looked-up reference is given back |
| `Operations.PostGameResult` | src/client.c:577-587 | whichever party calls, the FIRST-role player is posted as player1 |
| `Lobby.Client.AddInvitation` | src/client.c:293-302 | the least free slot gets the invitation; -1 exactly when the table is full; only that slot changes; the slot is at most the number of invitations before |
| `Lobby.Client.RemoveInvitation` | src/client.c:304-312 | empties the one slot and gives up its reference; -1 exactly when the invitation is not there |
| `Lobby.Client.Search` | src/client.c:25-43 | the first slot holding the invitation, or -1 exactly when there is none |
| `Lobby.Client.Unref` | src/client.c:171-198 | one reference less; the last one frees the client, whose table is then empty |
| `Lobby.Invitation.Create` | src/invitation.c:30-66 | refused exactly for one client twice or a missing role; otherwise both parties are counted once more |
| `Lobby.Invitation.Unref` | src/invitation.c:83-112 | the last reference gives up both parties and the game, and frees the invitation |
| `Lobby.Invitation.Accept` | src/invitation.c:147-163 | succeeds exactly on an open invitation, which then owns a fresh running game |
| `Lobby.Invitation.Close` | src/invitation.c:164-189 | succeeds exactly when not closed and, without a role, without a game, or, with a role, with a running game, which that role then loses |
| `Slots.OccupiedBounds` | src/client.c:55-75 | the count is full exactly when no slot is free and zero exactly when all are: the pigeonhole behind the insert scan |
| `Slots.OccupiedPrefix` | src/client.c:55-75 | below the least free slot everything is taken, so the slot is at most the count |
| `Slots.OccupiedUpdate` | src/client.c:55-96 | how one write changes the number of occupied slots |
| `Games.Game.constructor` | src/game.c:79-137 | a new board shows nine blanks, its separators and line ends; X begins |
| `Games.Game.VerifyBoard` | src/game.c:190-246 | 0 exactly when nobody owns a line, otherwise the letter of the first line in the order rows, columns, diagonals |
| `Games.Game.ApplyAndVerify` | src/game.c:248-286 | one cell of the board changes and nothing else on the screen; the code returned is the first line's letter, 33 for a full board without a line, or 0 |
| `Games.Game.ApplyMove` | src/game.c:288-314 | on the character board a move has exactly the effect and status of abstract tic-tac-toe, whoever's turn it is; the position stays sound exactly when the move is in turn or refused |
| `Games.Game.Resign` | src/game.c:316-326 | refused exactly when the game is over; otherwise the other role wins |
| `Games.Game.ParseMove` | src/game.c:400-423 | a move out of turn or malformed is refused; otherwise the cell and its board coordinates |
| `Games.Game.UnparseState` | src/game.c:328-353 | prints the thirty characters of the board and the player to move |
| `Games.FirstLineFinds` | src/game.c:190-246 | the scan finds a line exactly when some player owns one, and the player it names owns it |
| `Games.MoveGrammar` | src/game.c:366-399 | the accepted strings are the digit alone, or digit, arrow and the player's own letter with anything after |
| `Games.ParsePrintedMove` | src/game.c:424-438 | a printed move parses back to itself for the player whose turn it is |
| `Games.RenderDeterminesPosition` | src/game.c:328-353 | two positions print the same only if they are the same |
| `Texts.PositionReads` | src/game.c:328-353 | the printed position, character by character: 40 of them, blank, X or O for each cell at its place, bars, dashes and line ends, and X to move exactly when FIRST is in turn |
| `Texts.OpeningReads` | src/game.c:100-123 | the opening position as a literal text |
| `Texts.MoveReads` | src/game.c:366-420 | a string is accepted as a move on cell k exactly if the role is in turn, the game is not over, the cell is blank, and the string is the digit k alone or k, an arrow and the own letter |
| `Texts.PrintedMoveReads` | src/game.c:424-438 | a printed move is the digit, an arrow, X for FIRST and O otherwise, and a line end |
| `TicTacToe.StepSound` | src/game.c:288-326 | any attempt, legal or not, keeps: counts of X and O differ by 0 or 1 and fix the turn, never two line owners, over exactly with a line, a full board or a resignation, and without a resignation the winner is the line's owner |
| `TicTacToe.SoundIffInTurn` | src/game.c:288-314 | a move applied out of turn always spoils the position, one in turn never does: why the parse before it must have seen the turn |
| `TicTacToe.WholeGame` | src/game.c:288-326 | over any sequence of attempts: sound throughout, at most nine moves, and the ninth ends the game |
| `TicTacToe.OverIsFinal` | src/game.c:292-293 | nothing after the end changes board or winner |
| `TicTacToe.MovesFillCells` | src/game.c:298-299 | accepted moves and blank cells always add up: each accepted move fills one |
| `TicTacToe.OnlyMoverWins` | src/game.c:306-311 | after a legal move only the mover can own a line |
| `TurnBaton.OnlyTheTurnHoldsTheBaton` | src/game.c:400-407 | in every interleaving of the two players' threads only the one whose turn it is is between a successful parse and the flip of the turn |
| `TurnBaton.WriteIsSafe` | src/game.c:298-303 | the cell a thread found blank is still blank when it writes, it is its turn, and the other thread is nowhere near a write |
| `TurnBaton.MarksAlternate` | src/game.c:288-303 | in every interleaving marks alternate, starting with X, each on a cell of its own where it still stands |
| `TurnBaton.MarksStay` | src/game.c:264-266 | no mark is ever overwritten, in any continuation |
| `TurnBaton.AtMostOneMarkAfterALine` | src/game.c:303-306 | a completed line can be followed by one more mark, never by two |
| `TurnBaton.LineSeenAsOngoing` | src/game.c:292-306 | exactly when that happens: a thread that looks at the status of a game not yet over has a line in front of it if and only if the other has flipped the turn after completing it and not yet set the status |
| `TurnBaton.SecondLineWins` | src/game.c:303-312 | a run after which both players own a line, and the one whose line came second is the winner |
| `TurnBaton.SettledGame` | src/game.c:306-312 | with both threads idle the game is over exactly when there is a line, a full board or a resignation, has a winner exactly when there is a line or a resignation, and a winner without a resignation owns a line |
| `TurnBaton.WholeAttempts` | src/game.c:288-326 | attempts that do not overlap make exactly a game of abstract tic-tac-toe: taking parse and apply as one step is right for them |
| `ResultRace.AtMostOnePostEach` | src/client.c:720-790 | in every interleaving of the two players' requests, each thread posts the result at most once, and only of a finished game: two posts at most |
| `ResultRace.SomebodyPosts` | src/client.c:756-790 | when both threads are through, a game has been posted exactly if it is over |
| `ResultRace.PostedTwice` | src/client.c:736-790 | exactly when the result is posted twice: when a mover first takes the invitation out of a table, the opponent's thread is past its search and has yet to look at the status, or has found the game over too; otherwise it is posted once |
| `ResultRace.PostsDecided` | src/client.c:530-617 | once a table has lost the invitation it is decided of each thread whether it posts, unless it has resigned and still finds the opponent's table full |
| `ResultRace.PostedWinner` | src/client.c:782-786 | the winner that is posted is the final one exactly when the other thread is not going to set another, which is computed from where it is; it can be wrong only while the other is between its look at the status and its setting of the winner |
| `ResultRace.SerialPosts` | src/client.c:663-795 | requests that do not overlap post a finished game exactly once, with the winner it ended with, and make a game of abstract tic-tac-toe |
| `ResultRace.ResultPostedTwice` | src/client.c:745-756 | a run after which the result of one game has been posted by both threads |
| `ResultRace.WinPostedAsDraw` | src/game.c:306-312 | a run after which a game that was won has been posted once, as a draw |
| `ResultRace.GetsThrough` | src/client.c:663-795 | a thread alone gets to the end of its request, from wherever the other one is, in a bounded number of steps |
| `Elo.PostConserves` | src/player.c:110-120 | the sum of two ratings is conserved exactly when the result code is 0, 1 or 2 |
| `Elo.PostGains` | src/player.c:110-120 | a winner gains and a loser loses strictly between 0 and 32 points; a draw moves less than 16 |
| `Elo.PostSymmetric` | src/player.c:107-120 | the formula does not depend on who is called player1 |
| `Elo.ExpectationsComplement` | src/player.c:113-117 | the two expected scores lie strictly between 0 and 1 and add up to 1 |
| `Elo.PostAtConserves` | src/player.c:119-123 | one posted result leaves the sum over all players unchanged |
| `Elo.StrongerIsExpected` | src/player.c:113-117 | the player with the greater rating, and nobody else, is expected to score more than a half |
| `Elo.StrongerBringsMore` | src/player.c:113-120 | the same result brings more against a stronger opponent |
| `Elo.Scale` | src/player.c:113-120 | between equals a win moves 16 points and a draw none; 400 points ahead means 10 expected points in 11 |
| `Elo.RoundedIsNearest` | src/player.c:91 | a rating is shown as the nearest whole number, halves away from zero |
| `Players.PostResult` | src/player.c:98-127 | the two ratings become those of the formula; a missing player makes it do nothing; freed players are never touched |
| `Players.PlayerRegistry.Register` | src/player_registry.c:57-92 | the array refines a map from names to players: the same name gives the same player for ever, a new name adds exactly one entry, growth loses none, and the pointer returned is counted once beyond the registry's own |
| `Players.PlayerRegistry.Grow` | src/player_registry.c:60-72 | doubling keeps the entries a dense prefix |
| `Players.PlayerRegistry.Find` | src/player_registry.c:73-80 | finds the player of a name exactly when the map has one |
| `Players.PlayerRegistry.ByName` | src/player_registry.c:57-92 | the map the array stands for: exactly the registered players under their own names |
| `Registry.ClientRegistry.Register` | src/client_registry.c:46-73 | the first free entry gets the new client; nothing exactly when the registry is full |
| `Registry.ClientRegistry.Unregister` | src/client_registry.c:75-102 | forgets the client and gives up the registry's one reference; -1 exactly for an unknown client |
| `Registry.ClientRegistry.Lookup` | src/client_registry.c:104-127 | the first client logged in under the name with one more reference, or nothing |
| `Registry.ClientRegistry.AllPlayers` | src/client_registry.c:129-155 | the logged-in players in table order, then NULL, each with one more reference |
| `Registry.LoggedInMembers` | src/client_registry.c:141-152 | the list names exactly the players somebody is logged in as |
| `Registry.LoggedInDistinct` | src/client_registry.c:141-152 | with distinct logins it names each once |
| `RegistrySemaphore.StepInv` | src/client_registry.c:46-102 | for any number of threads: exactly one token is in the semaphore, with a waiter, with the non-empty registry, or with the thread in transit; len counts the registered; one thread at most is inside |
| `RegistrySemaphore.WaiterSeesEmpty` | src/client_registry.c:157-164 | a waiter that has the token sees an empty registry, in every interleaving |
| `RegistrySemaphore.UnregisterFindsMember` | src/client_registry.c:75-102 | a thread that unregisters is counted, and alone inside |
| `RegistrySemaphore.SomebodyCanStep` | src/client_registry.c:46-73 | no deadlock, although a registering thread waits for the token with the mutex in hand |
| `RegistrySemaphore.EverybodyFinishes` | src/client_registry.c:46-164 | however they are scheduled, as long as somebody steps all threads finish: a bounded number of steps, and none is possible only when all are done |
| `RegistrySemaphore.EverybodyCanFinish` | src/client_registry.c:46-164 | from every reachable state all threads can finish |
| `InvitationRace.RaceIsSafe` | src/invitation.c:147-189 | for any number of revoke, decline, accept and resign attempts in any interleaving: state and game are always in a legal combination when the mutex is free, and no removal from a table misses |
| `InvitationRace.OneLeavesOpen` | src/invitation.c:147-189 | of all revocations, declinations and acceptances at most one succeeds |
| `InvitationRace.OneCloses` | src/invitation.c:164-189 | at most one attempt closes the invitation |
| `InvitationRace.ResignAfterAccept` | src/invitation.c:164-189 | a resignation never succeeds beside a revocation or declination |
| `InvitationRace.OnlyTheCloserRemoves` | src/client.c:362-382 | whenever a table has lost the invitation, the thread that closed it did it |
| `InvitationRace.CloserEmptiesTables` | src/client.c:362-382 | when the closing thread is through, neither table holds the invitation |
| `RatingLocks.UpdatesSerialise` | src/player.c:98-127 | for any number of threads: whenever no rating lock is held the ratings are what the finished calls give one after the other, each once, and their sum is conserved |
| `RatingLocks.NoDeadlock` | src/player.c:101-107 | when every call names two different players, locks taken in the order of the ids always leave some unfinished thread able to step |
| `RatingLocks.EverybodyFinishes` | src/player.c:98-127 | however the calls are scheduled, as long as somebody steps they all finish, in seven steps each, and the ratings are then what all of them give one after the other, each once |
| `RatingLocks.OnePlayerTwiceHangs` | src/player.c:101-107 | a call with one player twice never ends, under any schedule: it waits for the lock it has |
| `RatingLocks.ReplayConserves` | src/player.c:110-123 | any sequence of posted results conserves the sum of the ratings |
| `SendMutex.WholePackets` | src/client.c:260-273 | for any number of senders and any partial and interrupted writes: the wire holds whole packets in the order of the lock, then a beginning of the packet whose sender has the mutex |
| `SendMutex.TornOnlyByFailure` | src/client.c:260-273 | also when writes fail: a packet is incomplete only if its sender still has the mutex or its write failed, and with the mutex free the wire is the list of whole packets exactly when none is incomplete |
| `SendMutex.RunInv` | src/client.c:260-273 | also with failed writes the wire is the concatenation, in lock order, of one beginning of each sender's packet |
| `SendMutex.PacketsArriveInLockOrder` | src/protocol.c:38-65 | what the receiver then decodes is the list of packets in the order of the lock |
| `Protocol.WriteAll` | src/protocol.c:10-36 | under any partial and interrupted writes everything is written, or a proper beginning and the connection is broken; it terminates |
| `Protocol.ReadAll` | src/protocol.c:10-36 | exactly the bytes asked for, or fewer when the stream ends or breaks |
| `Protocol.SendPacket` | src/protocol.c:38-50 | on success exactly the header and as many payload bytes as it announces, if there is a payload |
| `Protocol.RecvPacket` | src/protocol.c:52-65 | on success exactly the next packet is consumed; it fails only without a whole packet or on a broken connection |
| `Protocol.RecvPackets` | src/server.c:186-189 | repeated receiving decodes the first packets of the stream |
| `Protocol.ReceiveSent` | src/protocol.c:10-65 | unless the connection breaks, any list of packets is received as it was sent, however it was cut up, and exactly its bytes are consumed |
| `Protocol.SendPackets` | src/protocol.c:38-50 | packets sent one after the other put exactly their encodings on the wire, or a proper beginning and the connection is broken |
| `Protocol.Transmit` | src/protocol.c:10-65 | end to end: a list of packets sent under any cutting of the writes is received under any cutting of the reads as it was sent, with nothing left over, unless a connection breaks |
| `Protocol.DecodeEncode` | src/protocol.c:38-65 | one packet round trip in front of anything |
| `Protocol.StreamRoundTrip` | src/protocol.c:38-65 | the round trip for any list of packets |
| `Protocol.FramedIff` | src/protocol.c:42-47 | the receiver stays in step exactly when there is a payload or none is announced: a size without a payload makes it swallow what follows |
| `Protocol.ArrivesCut` | src/protocol.c:38-65 | a buffer of any length sent under a header with its length: exactly its first (length mod 65,536) bytes arrive, all of it exactly below 65,536, and the receiver stays in step |
| `Packets.PackUnpack` | src/packet_common.c:5-28 | unpacking undoes packing; id and size survive exactly when they fit 8 and 16 bits |
| `Packets.SwapTwice` | src/packet_common.c:24-28 | changing the byte order twice changes nothing |
| `Packets.WireOrder` | src/packet_common.c:5-22 | in memory, as sent, a packed header is in network byte order |
| `Packets.ImageRoundTrip` | src/protocol.c:38-65 | the sixteen bytes of the struct determine its fields |
| `Services.Service.Handle` | src/server.c:207-288 | one turn of the service loop: before the login everything but LOGIN is refused and nothing done, after it LOGIN is; each other recognised request leads to its own operation with its own arguments and, by that operation's status, to one ACK with the right contents (of a long list of users, what Services.UsersAcknowledged says) or one NACK (after a failed ACK some handlers add a NACK); unknown requests are ignored; new_player becomes set exactly by an acknowledged login |
| `Services.Service.HandleLogin` | src/server.c:140-173 | a login registers the name, logs in, and keeps the player exactly when its acknowledgement went out |
| `Services.Service.HandleInvite` | src/server.c:38-70 | an invitation is acknowledged with its id, refused without payload or on failure |
| `Services.Service.HandleEntry` | src/server.c:72-138 | revoke, decline, accept, move and resign requests: the right operation for the sender and id of the packet, then the reply by its status |
| `Services.Service.HandleUsers` | src/server.c:13-36 | the text handed over for the acknowledgement lists everybody logged in at that moment with name and rating, each once; how much of it goes out is in Services.UsersAcknowledged |
| `Services.Service.Close` | src/server.c:190-206 | the end of a connection: the client is freed, except exactly when a login's acknowledgement was lost and an invitation holds it; no reference to any player stays counted for it, except both to its own exactly in the case of a lost acknowledgement |
| `Services.Service.Open` | src/server.c:183-187 | a connection gets a thread and an empty client, or nothing exactly when the registry is full |
| `Services.Service.NewPlayerIsThePlayer` | src/server.c:189-222 | between requests new_player is the client's player, and set exactly when the client is logged in and no login acknowledgement was lost |
| `Services.Service.HistoryIsRun` | src/server.c:175-292 | whatever requests the threads handled in whatever order, the objects' history is a run of the specification ending in their present state, so every theorem about runs holds of them |
| `Services.Service.RatingsHere` | src/player.c:98-127 | on the objects: the ratings of all registered players add up to 1500 each |
| `Services.CString` | src/server.c:51-54 | a payload is read up to its first NUL |

## Left out

- Lobby.Client.Unref: demands that the last reference goes only when the table is empty. Each invitation in a table is a counted reference (`Server.Jeux.CountsAreExact`), so the loop that gives up remaining invitations never finds one.
- Players.PostResult: demands two different players; `RatingLocks.OnePlayerTwiceHangs` shows that the call would never return otherwise, and every call in the model meets it.
- Protocol.SendPacket: demands a buffer of at least the announced size.
- Services.Service.Handle: requests are atomic; the race between two logins under one name, and between an operation's slot lookup and its `inv_ref`, are not modelled. Overlapping requests on one game are, in `TurnBaton` and `ResultRace`.
- Runs.PostedExactlyOnce: is about atomic requests; `ResultRace` says what overlapping ones post.
- Server.Jeux.EnlistEntry: demands a name shorter than 65,536; its only caller takes the name from a payload, whose size has sixteen bits.
- InvitationRace.RaceIsSafe: moves are not among the racing threads, because what they race with is the game and not the state_mutex: `ResultRace` has a move beside a resignation; reference counts are not part of this machine.
- SendMutex.WholePackets: speaks of runs without a failed write; TornOnlyByFailure covers the others.
- Protocol.RecvPackets: a recursion stands for the service loop around the receiving call.
- Floating point: ratings are real numbers, and 10 to a power is an abstract positive function f with f(x) * f(-x) = 1, increasing where it matters who gains more, and f(1) = 10 where the scale does; nothing is claimed of doubles.
- The slot lookup with an id beyond the table: an id has eight bits and the table more slots, so it cannot happen.
- Allocation failure, and the NULL checks that only it could trigger.
- Sockets, signals, threads' creation, port parsing (src/main.c), shutting all connections down (creg_shutdown_all), and src/csapp.c: the network is a byte stream read and written in arbitrary pieces.
- Timestamps come from a parameter; `why` strings and debug printing are dropped.
- The two mirrored branches of resign (src/client.c:530-588 and 595-653), and the parallel code of revoke and decline, are written once, with the party as a parameter.
- The player id counter, a global of src/player.c, is a field of the player registry.
- Liveness under a fair scheduler: absence of deadlock, and for the registry and the rating locks termination of every schedule that goes on, are proved; fairness is not modelled.
