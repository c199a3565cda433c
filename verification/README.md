# A verified model of the zztgo engine

zztgo is a port of ZZT for many players. It keeps a board as a grid of tiles and a
table of stats that refer to each other by number, and changes both in place. This
project models the parts where that is hardest to keep consistent, and proves what
they keep.

The modules and what they are about:

- `GameVars`, `BoardSpec`, `Game`, `StatTable` (GameVars.dfy, Engine.dfy, StatTable.dfy): the stat table and
  tile grid. `BoardSpec` gives the value an engine holds and what each operation makes
  of it; `Game.Engine` is the class that updates arrays and fields; `StatTable` proves
  that RemoveStat is one consistent renaming and that the ground under the stats survives.
- `PushSpec`, `Elements`, `PushSafety`, `PushConservation`, `PushLaws`, `PushMeaning`, `TransportMeaning`, `SlotReuse`: pushes and transporters,
  which call each other. They end, conserve what lasts, keep sliders on their lines, shift what they
  should, stats included, and keep the frame unless a removal refills the slot of a
  transporter in use with a stat that stands beside the frame.
- `Centipede`, `CentipedeMarch`, `CentipedeTick`: chains inside the stat table, turned around and marched in place.
- `Scheduling`: the cursor over a table that ticks lengthen and shorten.
- `Serialize`, `BoardCodec`, `FileLayout`, `BoardFile`, `SharedPrograms`: boards as bytes, with run lengths and
  shared programs, the format byte by byte, and what editing between two closes does to programs.
- `OopText`, `Oop`, `ZapRestore`, `LabelLaws`, `OopCommands`, `OopReading`, `OopReaders`, `OopRun`, `OopEnds`, `OopLaws`:
  the ZZT-OOP interpreter: searches, broadcasts, the rewriting of labels, where every command goes on, and which
  programs end.
- `SessionSpec`, `SessionLaws`, `Sessions`, `FanOut`: the collaborative editor: membership, tokens, leases, and the
  ticketed gate that orders broadcasts.
- `Leaderboard`, `Challenges`, `ChatAdmission`, `Reachability`, `EvalFlood`, `PlanGraph`, `Placement`: small
  stores and searches with exact specifications.

Methods that change arrays or fields are proved to turn the old value into the value
a specification function gives; the lemmas are about those functions. Those in the modules
called Laws, and in FileLayout, say in codes, offsets and positions what the functions do.

## Where the code differs from what one would expect

- RemoveStat renames the links of stats 1 and up; stat 0's own links keep their numbers.
- ElementTransporterMove reads a stat slot again after a search that may have removed
  stats. If a crushed stat had a lower number than the transporter, and that was not the
  last, the slot holds the next stat, and what stands before that one is moved: it may be
  a frame tile, and beside the message timer at (0, 0) it is outside the grid.
- BoardClose leaves minus a stat number as the length of a shared program in memory.
  RemoveStat does not rename it, so erasing a stat before the next close can make the
  reference dangle or point at itself, and the program is lost.
- BoardOpen does not clear a stat's Data when its DataLen is 0. BoardClose compares Data
  of all earlier stats, dead ones too, so a program equal to a dead stat's leftover text
  is stored as a reference to it and lost.
- A program that ends in a bare `#` makes the interpreter loop for ever when it gets there.
- GO and TRY do not test for a zero step, as `/` and `?` do. On a scroll, `#GO I`, or a GO
  with an unknown direction, pushes the scroll's own square, and that push calls itself
  with the same arguments for ever.
- `#ZAP name:label` rewrites the label of the first object of that name only, and then may
  rewrite the sender's own label called like the object, because the search for the name
  overwrote OopWord.
- NewWorld is an operation of one member, yet moves every member to the new board.
- OopFindString rejects a match that a letter or underscore follows, even when the text
  looked for ends in a carriage return; so one RESTORE may leave some of several zapped
  labels commented.
- A tick that removes its own stat without stepping the cursor back skips the next stat;
  so does an attack that destroys both the attacker and the stat just below it, since
  BoardAttack steps back before it removes the victim.
- SetAccountReadOnly leaves the account's leases in place, where SetMemberReadOnly
  frees them: with more than one member nobody can pass the gate of such a lease until
  its holder leaves or gives it up.
- A snapshot is taken under the session's lock but written outside it. An edit applied
  in between and broadcast first is missing from the newcomer's screen until that cell
  is painted again.

## Model

| member | source | states |
|---|---|---|
| BoardSpec.FirstAt | engine/game.go:1156-1171 | the stat found on a square is live, stands there and has the lowest number from the start of the search; none is found only if none stands there |
| Game.Engine.GetStatIdAt | engine/game.go:1156-1171 | the in-place search returns that lowest stat, or -1 |
| Game.Engine.AddStat | engine/game.go:1023-1046 | the new stat goes into the next slot over the tile it covers, with the mixed colour on water and fakes; a full table changes nothing |
| Game.Engine.MoveStat | engine/game.go:1196-1218 | the mover restores what it covered, covers what it steps on and keeps or mixes its colour; the whole new board is given |
| Game.Engine.RemoveStat | engine/game.go:1048-1090 | the whole new state of tiles, slots, links, audience, players and cursor is the removal that the lemmas of StatTable describe |
| Game.Engine.ReleaseData | engine/game.go:1051-1059 | the program is dropped exactly when the stat has one that no other stat from 1 on shares |
| Game.Engine.RenameLinks | engine/game.go:1068-1083 | the loop clears links to the removed stat and lowers those above it, for stats 1 to the last |
| Game.Engine.ReindexScrollAudienceAfterStatRemoval | engine/game.go:1123-1139 | audience entries are renamed in key and in value, and the last key is cleared |
| Game.Engine.ReindexPlayersAfterStatRemoval | engine/game.go:1141-1154 | the map is rekeyed in any order of iteration to the same result |
| BoardSpec.PlayersAfter | engine/game.go:1141-1154 | a key is present afterwards exactly if the key it came from was, with the same player |
| StatTable.RemoveStatRenamesStats | engine/game.go:1048-1090 | every surviving stat moves to its renamed slot unchanged, and its Follower and Leader mean the same stat as before, or nothing if that stat was removed |
| StatTable.RemoveStatRenamesAudience | engine/game.go:1123-1139 | keys and values of ScrollAudience denote the same stats afterwards; entries for the removed stat are cleared |
| StatTable.RemoveStatRenamesPlayers | engine/game.go:1141-1154 | every player but the removed one is found under the renamed key, with its counters |
| StatTable.RemoveStatRenamesCursor | engine/game.go:1060-1062 | CurrentStatTicked denotes the same stat, or the next one when the ticked stat itself is removed |
| StatTable.StatZeroLinkMeansTheSame | engine/game.go:1068-1083 | the link loop starts at 1: stat 0's own Follower keeps its meaning exactly if its number did not have to move |
| StatTable.RemovalsCommute | engine/game.go:1048-1090 | two stats can be removed in either order, each under its name of the moment, with the same live table |
| StatTable.AddedStands | engine/game.go:1023-1046 | below 150 stats the new one fills the next slot with the template and stands over the tile it covers; its square shows the element in the given colour, on water and fakes (19, 27) its foreground over the background there; nothing else changes |
| StatTable.AddedAndRemoved | engine/game.go:1023-1090 | removing the stat just added gives tiles, live stats, players and cursor back |
| StatTable.MovedStands | engine/game.go:1196-1218 | the mover's element goes to the new square, a player's colour whole, any other foreground over black or over the background there; the stat covers what was there and uncovers what it stood on |
| StatTable.MovedAndBack | engine/game.go:1196-1218 | there and back again restores the table and every square but the mover's own background |
| StatTable.SlotLeftBehind | engine/game.go:1051-1059 | the slot behind the live ones keeps its stale record; a program is dropped from it exactly if the removed stat was the last, had a length and shared it with no stat from 1 on |
| StatTable.AddKeepsTerrain | engine/game.go:1023-1046 | adding a stat on an unoccupied square keeps the ground layer |
| StatTable.RemoveKeepsTerrain | engine/game.go:1048-1090 | removing a stat keeps the ground layer |
| StatTable.MoveKeepsTerrain | engine/game.go:1196-1218 | moving a stat to an unoccupied square keeps the ground layer |
| StatTable.RunKeepsTerrain | engine/game.go:1023-1218 | from a board with one stat per square, no sequence of additions, removals and moves to unoccupied squares changes "Under where a stat stands, tile elsewhere" |
| Elements.BoardDamageTile | engine/game.go:1492-1501 | a square that shows no player loses its first stat, or becomes empty if it has none |
| Elements.ElementMove | engine/elements.go:846-857 | a stat, or a bare tile, moves as specified |
| Elements.ElementPushablePush | engine/elements.go:859-875 | the in-place recursion ends (the distance to the frame falls) and leaves the board that the push specification gives; without transporters ahead, NS sliders (25) stay as many in each column and EW sliders (26) in each row, and ahead of an empty square exactly the pushable codes and the slider along its own axis step onto it |
| Elements.ElementTransporterMove | engine/elements.go:573-623 | likewise for the transporter, whose slot is read again after the search |
| Elements.FindDestination | engine/elements.go:586-616 | the in-place loop finds the exit the search specification gives, or none |
| PushSpec.SearchUnfolds | engine/elements.go:586-616 | one step of the search for an exit, which always comes nearer to the frame |
| PushConservation.PushConserves | engine/elements.go:859-875 | a push never creates or destroys anything that lasts, that is, any code but open ground and the frail ones it may crush, counting tiles and what stats cover |
| PushConservation.TransportConserves | engine/elements.go:573-623 | nor does a transport |
| PushConservation.SearchConserves | engine/elements.go:586-616 | nor does the search, whatever it pushes on the way |
| PushLaws.MovesIntoEmpty | engine/elements.go:861-873 | ahead of an empty square move exactly the codes 0, 4, 5, 7, 8, 10, 13, 24, 34, 35, 41, 42 in every direction, 25 along columns and 26 along rows, as stats or bare tiles; nothing else moves |
| PushLaws.MovesAgainstEdge | engine/elements.go:866-873 | with the board's edge one square further, a push succeeds exactly if the square between is a fake or holds a gem, bullet, beast or centipede over open ground; never a player |
| PushLaws.TurnedAway | engine/elements.go:573-580 | a transporter that does not face the way of the push lets nothing in |
| PushLaws.PassesThrough | engine/elements.go:573-623 | a transporter that faces the way of the push, with an empty square behind it, puts what is pushed into it there, off the ground it stood on |
| PushLaws.SlidersKeepTheirLines | engine/elements.go:861-861 | a push along a line without transporters keeps the number of NS sliders in every column and of EW sliders in every row, on tiles and under stats |
| PushLaws.PushObeysLaws | engine/elements.go:859-875 | both laws hold of every push that returns |
| PushSafety.PushSteady | engine/elements.go:859-875 | from a steady board a push indexes nothing outside the arrays and leaves a steady board: same frame, same other rows and columns, transporters in place |
| PushSafety.TransportSteady | engine/elements.go:573-623 | the same for a transport |
| PushSafety.SearchSteady | engine/elements.go:586-616 | the same for the search, and the exit found is on the board, in line and nearer to the frame |
| PushSafety.MoveStatBacked | engine/game.go:1196-1218 | moving a stat along the line leaves every transporter with its stat |
| PushSafety.CrushedUndisturbed | engine/elements.go:868-870 | crushing a stat does not bring a crushable stat below a transporter in use |
| Elements.PushOnSteadyBoard | engine/elements.go:859-875 | the in-place push on a steady board needs no further precondition and keeps it steady |
| PushMeaning.PushShifts | engine/elements.go:859-875 | a push opens the furthest square it reaches that gives way, crushing what is there, and everything nearer moves on by exactly one square, stats over the ground they come to and off the ground they stood on; if none gives way nothing changes. What lies behind the push or past its reach does not matter |
| PushMeaning.ShiftsCompose | engine/elements.go:862-873 | a shift of what lies ahead and one more step behind it is a shift that reaches one square further, tile by tile and stat by stat |
| PushMeaning.CrushesThenPushes | engine/elements.go:868-870 | what is crushed over ground one cannot walk on, a bullet over water, is gone, and the push goes on as if it had never been there |
| PushSpec.LooseNeverReturns | engine/elements.go:859-866 | a push with a zero step returns at once, or, on a square that holds something pushable, at no depth of nested calls |
| TransportMeaning.SearchFindsFirstExit | engine/elements.go:586-617 | the search finds the first square that lies right behind the transporter or right behind one facing it and is open or opens when pushed; it changes nothing before that square and there only what the push does; it misses if no such square is within reach |
| TransportMeaning.TryOnce | engine/elements.go:595-601 | trying a square changes the board only if the push moves something, and then leaves the square open |
| SlotReuse.SlotSurvivesRemoval | engine/game.go:1085-1088 | after a removal a kept slot still holds the same square's stat exactly if the removed stat had a higher number or the slot was the last |
| SlotReuse.TransportCarries | engine/elements.go:573-623 | a transporter does nothing without an exit; otherwise it opens the first one and moves there what stands on the square it carries from: the one before it, or, when the push crushed stat g below its own slot s, the one before stat s+1 of the table |
| SlotReuse.CarriesItsOwn | engine/elements.go:573-623 | for any row or column, direction, slot s and crushed stat g: it carries what stands before it if and only if nothing was crushed, or g is not below s, or s is the last stat |
| SlotReuse.TransportOnFrame | engine/elements.go:573-623 | on a framed board, for any row or column, direction and slot: the transport indexes outside the grid if and only if the slot was refilled by the message timer and the step is +1; otherwise the frame survives if and only if the slot was not refilled, or the square before the stat that refilled it is on the board |
| SlotReuse.SlotReuseBreaksTheFrame | engine/elements.go:573-623 | on boards of the given shape the transport carries a frame tile onto the board, or panics when the message timer has refilled the slot |
| SlotReuse.TrapExists | engine/elements.go:573-623 | such boards exist, framed, seated and backed |
| Centipede.OneChainPerHead | engine/elements.go:193-203 | a head and a table determine the chain |
| Centipede.TurnAround | engine/elements.go:193-203 | a stuck head turns its chain around: every link is as Turned says, and a chain that showed a head (44) first and segments (45) behind shows that in its new order, and no colour and no other square changes |
| Centipede.TurnLinks | engine/elements.go:196-202 | the loop swaps the links along a chain of any length, touches no other stat and ends at the far end |
| Centipede.TurnedLooksReversed | engine/elements.go:193-203 | if the first member shows 44 and the others 45 on distinct squares, then after a turn the same holds of the reversed chain; every colour and every other square stays, and no member has moved. Chains of one member included |
| Centipede.TurnedIsReversed | engine/elements.go:193-203 | the turned table holds exactly the reversed chain with valid back links; the new head keeps a stale leader |
| Centipede.TurnedTwice | engine/elements.go:193-203 | turning twice gives back the chain and every other field; only the head's own leader may differ |
| Centipede.RemovalSplitsChain | engine/game.go:1068-1083 | removing any member leaves two well-formed chains, and the second one's head is loose |
| Centipede.RemovalKeepsChain | engine/game.go:1068-1083 | removing any other stat keeps the chain under its new names |
| CentipedeTick.March | engine/elements.go:212-246 | one tick of a head with a free square ahead: every member moves, adopted ones too; links stay consistent, each tail takes on the first loose segment there is, elements travel with their stats and all other squares stay, and at the end no loose segment is left behind or beside |
| CentipedeMarch.MarchFollowsChain | engine/elements.go:213-246 | every follower of a chain of any length ends on the square its leader held before, in chain order, the links inside the chain are unchanged, everybody has the head's temper, and each step is the difference of the two places |
| CentipedeTick.Adopt | engine/elements.go:225-232 | the tail takes the first loose segment of the three squares beyond, or none if none of them has one |
| CentipedeTick.Pull | engine/elements.go:234-241 | the follower learns its leader, temper and step, and moves onto the given square |
| CentipedeMarch.TowKeepsOrder | engine/elements.go:213-246 | one pull keeps all links mutual, all segments backed by stats and one stat per square, and vacates the square left |
| CentipedeMarch.NextIsNew | engine/elements.go:213-246 | whatever moves next has not moved in this tick, so the loop ends |
| CentipedeTick.HeadMoves | engine/elements.go:213-213 | the head's own step starts such a march |
| CentipedeTick.AdoptsFirstLoose | engine/elements.go:220-232 | a tail takes on the loose segment on the square behind the one it left, else on the first side, else on the second; told of the board before the tick and of those that have not marched |
| CentipedeTick.InTurnGrows | engine/elements.go:214-246 | so it is for every member that was followed by nobody, all along the march |
| CentipedeTick.TowCarries | engine/elements.go:234-241 | one pull takes the follower's element along and changes no square but the two |
| CentipedeTick.MarchLooksTheSame | engine/elements.go:212-246 | a centipede that showed its head first and segments behind still does after the tick |
| Scheduling.TableFollowsBoard | engine/game.go:1060-1088 | the table of identities moves as RemoveStat moves the board |
| Scheduling.TickStaysLevel | engine/game.go:1905-2000 | after a tick the visited survivors are the first slots in order, ahead of the cursor by exactly the drift; the cursor is level again if and only if the drift is 0 |
| Scheduling.SparingSelfIsLevel | engine/game.go:1905-2000 | a tick that only appends stats and removes others does not drift |
| Scheduling.RemovingSelfIsLevel | engine/elements.go:340-341 | a tick that removes itself and steps the cursor back does not drift, whatever it does before and after, unless it then removes the stat at the cursor |
| Scheduling.TicksThatDrift | engine/elements.go:661-662 | removing oneself without stepping back drifts by one; so does an attack whose victim stands just below the attacker; stepping back without removal drifts the other way |
| Scheduling.DriftSkipsOrRepeats | engine/game.go:1905-2000 | a positive drift has jumped over stats not visited; a negative one is about to visit a stat again |
| Scheduling.Schedule.TickProc | engine/game.go:1905-2000 | the changes of a tick applied one after the other |
| Scheduling.TameIsLevel | engine/game.go:1905-2000 | a tick that adds stats, removes others, and steps back at once if it removes its own stat does not drift |
| Scheduling.TameCycleVisitsAll | engine/game.go:1905-2000 | whatever tame ticks add and remove, a cycle visits the survivors in index order, each below the cursor exactly once and none above it; a cycle that is not cut short visits every stat then in the table |
| Scheduling.Schedule.Cycle | engine/game.go:1905-2000 | the loop in place: the same table, cursor and visits, every stat below the cursor visited once and the others not yet |
| Serialize.StringRoundTrip | engine/serialize.go:9-27 | a stored byte string that fits loads back |
| Serialize.Int16RoundTrip | engine/serialize.go:75-85 | every 16-bit number loads back, negative ones too |
| Serialize.StatRoundTrip | engine/serialize.go:94-134 | every stored field of a stat loads back; Data is the slot's |
| Serialize.BoardInfoRoundTrip | engine/serialize.go:48-72 | the board information loads back |
| Serialize.StoreString | engine/serialize.go:9-18 | writes the length, the string cut to size and zeros, and nothing else |
| Serialize.StoreStat | engine/serialize.go:94-116 | writes exactly the 33 bytes of a stat |
| Serialize.StoreBoardInfo | engine/serialize.go:48-60 | writes exactly the bytes of the board information |
| Serialize.StoreRleTile | engine/serialize.go:30-34 | writes the three bytes of a run |
| BoardCodec.RunsCoverTheCells | engine/game.go:84-106 | the runs expand to exactly the 1500 cells, each run is 1 to 255 long, and two neighbours of the same tile occur only after a full run |
| BoardCodec.OpenTilesReads | engine/game.go:156-177 | reading runs back gives the cells they stand for and stops right after them |
| BoardCodec.OpenStatsReads | engine/game.go:185-199 | reading the stats in ascending order follows every chain of references as far as stats have been read, and finds the old slot beyond |
| BoardCodec.OpenBoardReads | engine/game.go:137-202 | opening what closing wrote gives name, tiles and information back, and for each stat the record that its references lead to, also when they were left in memory by an earlier close |
| BoardCodec.BoardRoundTrip | engine/game.go:74-202 | a board without references in memory opens to itself if and only if no dead stat holds the program of a later live one and every dead stat's slot already has its Data |
| BoardCodec.CleanBoardRoundTrip | engine/game.go:74-202 | a board whose stats without a program have empty Data comes back whole |
| BoardCodec.StaleTwinKills | engine/game.go:115-121 | a program shared with a dead stat below it is lost on reopening |
| BoardCodec.StaleTwinExample | engine/game.go:115-121 | three stats that lose a program |
| BoardCodec.ClosingTwiceWritesTheSame | engine/game.go:114-128 | closing rewrites shared lengths, yet a second close writes the same bytes |
| BoardFile.WriteTiles | engine/game.go:84-106 | the loop over the grid writes exactly the runs of the cells |
| BoardFile.ShareProgram | engine/game.go:116-121 | the inner loop leaves minus the number of the last earlier stat with the same Data |
| BoardFile.WriteStats | engine/game.go:114-129 | writes all stats and each program once, and rewrites the lengths of shared ones |
| BoardFile.BoardClose | engine/game.go:74-135 | stores exactly the encoded board under the current number, laid out byte by byte as the format says |
| BoardFile.ReadTiles | engine/game.go:156-177 | fills the board's cells from the runs and leaves the frame alone |
| BoardFile.ReadStats | engine/game.go:185-199 | fills the slots as the reading specification says |
| BoardFile.BoardOpen | engine/game.go:137-202 | name, tiles, frame, information, stats and scroll audience are what the stored bytes say, whatever bytes they are, at the literal offsets of the format |
| BoardFile.CloseAndReopen | engine/game.go:74-202 | closing and opening in place restores the board and its frame; with references left in memory every stat is what its chain leads to |
| BoardFile.CellAt | engine/game.go:86-106 | cells are numbered row by row: the tile (x, y) is cell 60 (y - 1) + x - 1 |
| FileLayout.StatIsStored | engine/serialize.go:94-116 | a stat's 33 bytes: X, Y, three 16-bit numbers from 2 on, three parameters at 8, links at 11 and 13, ground at 15, position at 21 and length at 23, low byte first, zeros between and behind |
| FileLayout.InfoIsStored | engine/serialize.go:48-60 | the 86 bytes of information: shots, dark, four neighbours at 2, re-entry at 6, message at 7 to 65, start at 66 and 67, time limit at 68, zeros from 70 on |
| FileLayout.StatsAreStored | engine/game.go:113-130 | each stat's 33 bytes with its stored length, followed by its program exactly where that is positive; a length is stored as minus the number of the last earlier stat, from 1 on, with the same text |
| FileLayout.BoardIsLaid | engine/game.go:74-135 | the whole stored board: name in bytes 0 to 50, run k at 51 + 3k as count, element, colour, information behind the n runs, StatCount low byte first at 137 + 3n, stats from 139 + 3n to the end |
| FileLayout.CellsAreRead | engine/game.go:156-177 | of any bytes the loop reads the fewest runs that make 1500 cells, a count of 0 being 256, and gives each cell the element and colour of the run that covers it |
| FileLayout.StatsAreRead | engine/game.go:185-199 | of any bytes each stat has the fields at the literal offsets, and its program from the bytes behind, from the slot, or from the stat a negative length names |
| FileLayout.BoardIsRead | engine/game.go:137-202 | whatever bytes opening gets through, name, cells, information, count and slots are those the offsets say, and slots beyond the count keep what they held |
| SharedPrograms.ProgramComesBack | engine/game.go:113-199 | whatever references an earlier close left in memory, a close and an open bring a stat's program back if and only if its chain of references ends at its own text |
| SharedPrograms.RemovalKeepsPrograms | engine/game.go:113-199 | close, remove a stat, close, open: every other stat has its program back if and only if no reference the first close stored points at the removed stat or above it |
| SharedPrograms.RemoveStatAfterClose | engine/game.go:1048-1090 | RemoveStat renames no stored reference |
| Oop.OopReadChar | engine/oop.go:20-28 | reads the character at the position and moves on, or NUL outside the program |
| Oop.OopReadWord | engine/oop.go:30-49 | reads the upper-cased word after spaces, empty before a digit, and steps back one character |
| OopText.SkipSpaces | engine/oop.go:32-37 | the first position that is no space |
| OopText.WordEnd | engine/oop.go:40-44 | the end of the run of word characters |
| OopText.FindString | engine/oop.go:160-190 | the first position where the string matches, case aside, and no letter or underscore follows |
| Oop.OopFindString | engine/oop.go:160-190 | the in-place search finds that position, or -1 |
| OopText.ColonAt | engine/lib.go:60-62 | the first colon, or none |
| OopText.Replace | engine/lib.go:117-120 | one character changes, at the 1-based index |
| Oop.OopIterateStat | engine/oop.go:192-237 | the next stat addressed by ALL, OTHERS, SELF or a name, skipping none |
| Oop.OopFindLabel | engine/oop.go:239-275 | the next addressed stat that defines the label, with its first position, skipping none |
| Oop.OopSend | engine/oop.go:460-482 | DataPos becomes the first label position on exactly the addressed, unlocked stats that define the label, nothing else changes, and the result tells whether the sender itself was moved |
| LabelLaws.FindsFirstLabel | engine/oop.go:160-190 | the search for a label or a commented one finds the first line that starts with the mark and the word, case aside, with neither a letter nor an underscore behind; -1 exactly if there is none |
| LabelLaws.MailReaches | engine/oop.go:192-275 | of ALL all stats from 1 on, of OTHERS all but the sender, of SELF or no address the sender, of a name those that begin with it: exactly those that are not locked, or whose lock is ignored, go to their first such label, RESTART to the start; nothing else in the table changes |
| LabelLaws.SenderIsTold | engine/oop.go:460-482 | the result is true exactly if the sender is one of those and has the label |
| LabelLaws.ZapQuotesTheFirst | engine/oop.go:684-694 | a zap writes one quote, over the colon of the first line with that label, or nothing |
| LabelLaws.RestoreUnquotes | engine/oop.go:695-706 | a restore starts at the first quoted line of the label, turns only quotes at line starts into colons, and leaves no quoted line that is just the label unless one starts the program |
| ZapRestore.ZapCommentsTheFirst | engine/oop.go:684-694 | ZAP comments out the first active label and leaves every other label as it was |
| ZapRestore.ZapTimesMarks | engine/oop.go:684-694 | k ZAPs comment out the first k active labels, or all |
| ZapRestore.RestoreLoop | engine/oop.go:695-706 | the inner loop brings back exactly the found label and those that end their line |
| ZapRestore.RestoreUndoesZap | engine/oop.go:684-706 | one ZAP and one RESTORE give the identical program back |
| ZapRestore.RestoreUndoesZaps | engine/oop.go:684-706 | one RESTORE undoes k ZAPs if and only if every zapped label but the first ends its line with no letter after it |
| ZapRestore.Zap | engine/oop.go:684-694 | the program keeps its length |
| ZapRestore.Restore | engine/oop.go:695-706 | the program keeps its length, and the loop ends |
| OopCommands.OopZap | engine/oop.go:684-694 | the command in place, for any label and target: the table is what its rounds make of it, and it fails exactly where a program is too short for the character it rewrites |
| OopCommands.OopRestore | engine/oop.go:695-706 | likewise for RESTORE and its inner loop |
| OopCommands.EditIsZapOrRestore | engine/oop.go:684-706 | one round on a label is the zap or restore of that program; only RESTART can meet a program too short |
| OopCommands.OwnLabelRounds | engine/oop.go:684-706 | without a target the sender's own label is rewritten and nothing else |
| OopCommands.PredefinedRounds | engine/oop.go:684-706 | with ALL, OTHERS and SELF every addressed stat that has the label is rewritten, and no other |
| OopCommands.NamedRounds | engine/oop.go:192-275 | with an object's name only the first such object that has the label is rewritten; the search leaves the name in OopWord, so if that object comes before the sender, the sender's own label called like the object is rewritten too |
| OopReading.ReadWordAdvances | engine/oop.go:30-49 | reading a word stays inside the program and moves on past every word of two letters or more |
| OopReading.TextDecides | engine/oop.go:88-151 | the text alone decides whether there is a direction and where it ends; and a direction that is zero in some world is zero wherever the stat itself stands still |
| OopEnds.InstructionShrinks | engine/oop.go:523-566 | every pass from ReadInstruction of a harmless program brings the end nearer |
| OopEnds.CommandShrinks | engine/oop.go:567-800 | every pass from ReadCommand does, also through the jumps of TRY, IF, GIVE and TAKE and when a push puts another stat into the slot, and none diverges |
| OopEnds.OtherSpends | engine/oop.go:576-800 | every command without a jump back to ReadCommand halts the turn or spends one of the 32, RESTART, SEND and BIND included, and keeps the slot harmless |
| OopEnds.RunEnds | engine/oop.go:522-811 | the loop of a harmless program ends within a number of passes computed from its state, whatever the world answers |
| OopEnds.HazardDiverges | engine/oop.go:576-601 | a chain of TRY, IF, GIVE and TAKE that comes to a GO or TRY with a zero step on a square that can be pushed reaches a push that never returns |
| OopEnds.EndsExactly | engine/oop.go:522-811 | every run of a program ends, from every position and within a fixed number of passes, if and only if the program neither ends in a bare # nor, on a tile that can be pushed, has a GO or TRY in reach whose step can be zero, nor, where an error message can move such a stat into the slot, one without a direction |
| OopEnds.ObjectsEndUnlessBare | engine/oop.go:522-811 | an object's program ends if and only if it does not end in a bare # |
| OopEnds.GoIdleHangs | engine/elements.go:985-993 | a scroll that says #GO I hangs, and so can an object that says #GO UP while a message is shown and a scroll comes next in the table |
| OopEnds.BareHashSpins | engine/oop.go:566-576 | on a bare # the interpreter comes back to the same state for ever |
| OopLaws.InstructionGoesOn | engine/oop.go:525-566 | which instruction ends the run, which chains to a command and behind which line end the next one is read, labels skipped first |
| OopLaws.EndFinishes | engine/oop.go:663-664 | after END every run of two or more steps has halted |
| OopLaws.RestartGoesOn | engine/oop.go:681-682 | after RESTART the run is the one from position 0 of the same program with one command more spent |
| OopLaws.LineCommandGoesOn | engine/oop.go:604-609 | after SET, CLEAR, CYCLE, CHAR, LOCK, UNLOCK, ENDGAME and PLAY the next instruction starts just past the first line end behind the arguments |
| OopLaws.WalkGoesOn | engine/oop.go:600-603 | after WALK behind the line of its direction, or nowhere without one |
| OopLaws.TurnEnds | engine/oop.go:615-625 | SHOOT, THROWSTAR, IDLE and DIE halt the run |
| OopLaws.BecomeEnds | engine/oop.go:716-723 | BECOME halts the run exactly with a kind that exists |
| OopLaws.TryGoesOn | engine/oop.go:589-599 | TRY halts the run when it moves and chains to the command behind its direction when it is blocked |
| OopLaws.TryErrorFinishes | engine/oop.go:589-599 | without a direction there is nothing left to run |
| OopLaws.IfGoesOn | engine/oop.go:610-614 | IF chains to the command behind its condition when that holds, else goes on behind the line |
| OopLaws.IfErrorFinishes | engine/oop.go:429-437 | an IF with a bad condition goes on at position -1, where there is nothing |
| OopLaws.ConditionTakes | engine/oop.go:412-446 | the words each condition takes |
| OopLaws.CounterGoesOn | engine/oop.go:626-662 | a TAKE of more than there is, or a GIVE past 32767, chains to the command behind the number; otherwise the next line comes |
| OopLaws.SendGoesOn | engine/oop.go:711-715 | SEND goes on where the message took the sender, or behind its line |
| OopLaws.MessageGoesOn | engine/oop.go:778-786 | a word that is no command is a message; unheard, it finishes the program, or only ends the line when it has a target |
| OopLaws.RewriteGoesOn | engine/oop.go:684-706 | ZAP and RESTORE go on behind their line of the rewritten program, BIND behind the first line of the one it found |
| OopLaws.PlacingGoesOn | engine/oop.go:724-751 | PUT and CHANGE go on in whatever program is in the slot then |
| OopLaws.NoCommandGoesOn | engine/oop.go:573-575 | a # without a command is passed over and costs nothing |
| OopLaws.GoEnds | engine/oop.go:578-588 | GO halts the run wherever its push returns |
| OopLaws.ErrorFinishes | engine/oop.go:10-15 | after an error the program is finished |
| OopLaws.WordIsRead | engine/oop.go:30-49 | spaces skipped, letters, digits, colons and underscores read in capitals, the reader behind the word or on the last character of the text |
| OopLaws.NumberIsRead | engine/oop.go:51-77 | a decimal number below 32768 is read as that number |
| OopLaws.NoNumberIsRead | engine/oop.go:51-77 | where no digit comes after the spaces the value is -1 and nothing is taken |
| OopLaws.CompassNames | engine/oop.go:91-105 | N, E, S, W and I are the four unit steps and the zero step |
| OopLaws.CompassTurns | engine/oop.go:123-143 | CW and CCW turn by a quarter, OPP by a half, RNDP one way on 0 and the other on 1 |
| OopLaws.CompassDraws | engine/oop.go:106-122 | SEEK and FLOW ask the world; RND, RNDNS and RNDNE draw a unit step as stated |
| OopReaders.OopParseDirection | engine/oop.go:88-151 | the recursive reader in place, with its crosswise deltas: whether there is a direction, its step and where it ends |
| OopReaders.OopReadValue | engine/oop.go:51-77 | the number read, in 16 bits, or -1, and where the reader stops |
| OopReaders.OopSkipLine | engine/oop.go:79-86 | stops just past the line end or the program's end |
| OopReaders.OopCheckCondition | engine/oop.go:412-446 | the words a condition takes and whether it reports an error, in place |
| SessionSpec.StepKeepsValid | engine/editor_session.go:153-591 | every operation keeps, new worlds included: one domain for the member maps, members and tokens inverse, distinct presence ids, every lease holder a member |
| SessionSpec.Run | engine/editor_session.go:153-510 | and so does every sequence of operations with fresh tokens |
| SessionSpec.AtMostOnePasses | engine/editor_session.go:551-571 | at most one connection passes the lease gate of any board or stat |
| SessionSpec.ResumeHandsOver | engine/editor_session.go:190-228 | a resume hands over id, colour, board, cursor, rights, token and all leases, and changes nobody else |
| SessionSpec.ResumeKeepsGates | engine/editor_session.go:190-228 | the newcomer passes exactly the gates the displaced connection passed |
| SessionSpec.ExitOfStranger | engine/editor_session.go:246-267 | leaving changes the session if and only if a member leaves |
| SessionSpec.DisplacedStaysOut | engine/editor_session.go:246-267 | a displaced connection's exit changes nothing at any later time, unless it has entered again |
| SessionSpec.GrantIsExclusive | engine/editor_session.go:464-495 | a lease is granted exactly to an editor when nobody else holds it; then every other request is refused with the holder's name |
| SessionSpec.MemberLossFreesLease | engine/editor_session.go:275-289 | a member made read-only gives up its leases, and any editor can have them |
| SessionSpec.AccountLossBlocksLease | engine/editor_session.go:297-311 | an account made read-only keeps its leases: nobody passes their gates and nobody else is granted them |
| SessionSpec.OthersKeepTheirBoard | engine/editor_session.go:575-591 | no step of one connection changes the board another member is on, but one: a new world made by a member who passes the gate of the board they are on puts it on board 0 |
| SessionSpec.NewWorldGathersAll | engine/editor_session.go:1386-1412 | after a new world every member is on its one board; the leases stay, and those of the other boards can be neither acquired nor released while the boards are gone |
| SessionLaws.FollowsTheEngine | engine/editor_session.go:575-591 | after an operation the member is on record for the board it ended on, the engine has that board open, its next operation finds it, and nothing but boards has changed |
| SessionLaws.NextOperationFindsTheBoard | engine/editor_session.go:583-590 | whatever the others do in between, a member that is still there finds the board its last operation ended on, as long as that exists and nobody has made a new world; else board 0 |
| SessionLaws.StaysOnRecord | engine/editor_session.go:575-591 | along every run of others the board on record is the same, or 0 after a new world that passed its gate |
| SessionLaws.FindsBoardOnRecord | engine/editor_session.go:669-690 | an operation finds the board on record open, or board 0 when there is no such board |
| SessionLaws.RefusedNewWorldStays | engine/editor_session.go:1386-1412 | a new world that is refused leaves the member on the board it found, and the world as it is |
| SessionLaws.NewcomerStarts | engine/editor_session.go:160-186 | a newcomer may edit, has a new number and the board the engine has open, the name given or that of its number, the next of eight colours, its cursor at (30, 12) and no lease; nobody else is touched |
| SessionLaws.NewcomersToken | engine/editor_session.go:190-204 | its token lets in exactly the other connections of the same account |
| SessionLaws.RightsOfMember | engine/editor_session.go:275-289 | exactly this member's rights change, and exactly its leases go when it loses them |
| SessionLaws.RightsOfAccount | engine/editor_session.go:297-311 | exactly the rights of the account's members change, and no lease |
| SessionLaws.GateOpens | engine/editor_session.go:551-571 | alone an editor needs no lease, in company its own |
| SessionLaws.RequestNames | engine/editor_session.go:527-549 | a request names the board asked for if there is one, else the member's own, and programs by 0 to 150 |
| SessionLaws.LeaseTaken | engine/editor_session.go:464-495 | who may edit and asks for a free lease has it then; all others stay |
| SessionLaws.LeaseGivenBack | engine/editor_session.go:497-510 | only its holder gives a lease back, by name or by leaving; a token is dead when its member has left |
| SessionLaws.CursorPlaced | engine/editor_session.go:354-363 | a cursor is where it was put, or at the nearest place of 1..60 by 1..25 |
| Sessions.EditorSession.constructor | engine/editor_session.go:90-125 | an empty session |
| Sessions.EditorSession.EnterResuming | engine/editor_session.go:153-186 | entry, re-entry and resume in place, with presence, token and displaced connection |
| Sessions.EditorSession.ResumeMember | engine/editor_session.go:190-228 | the resume, or no change when the token does not allow it |
| Sessions.EditorSession.TransferLeases | engine/editor_session.go:215-219 | the loop over the leases, in any order |
| Sessions.EditorSession.Exit | engine/editor_session.go:246-267 | leaving in place |
| Sessions.EditorSession.SetMemberReadOnly | engine/editor_session.go:275-289 | rights of one member, and its leases when they go |
| Sessions.EditorSession.SetAccountReadOnly | engine/editor_session.go:297-311 | rights of every member of an account, and exactly those members returned |
| Sessions.EditorSession.AcquireLease | engine/editor_session.go:464-495 | the reply and the new leases |
| Sessions.EditorSession.LeaseKeyFor | engine/editor_session.go:527-549 | the key a request names, from the board asked for or the member's own |
| Sessions.EditorSession.ReleaseLease | engine/editor_session.go:497-507 | only the holder's own lease goes |
| Sessions.EditorSession.Apply | engine/editor_session.go:575-591 | opens the board on record, or 0 when it is gone, and afterwards the member is recorded, twice, on the board the engine ended on |
| Sessions.EditorSession.NewWorld | engine/editor_session.go:1386-1412 | behind the board gate: one board, and everybody on it; otherwise an operation without effect |
| Sessions.EditorSession.SetAllBoards | engine/editor_session.go:1406-1408 | the loop over the members, in any order |
| Sessions.EditorSession.HasBoardLease | engine/editor_session.go:551-560 | the gate of the board that is open |
| Sessions.EditorSession.UpdatePresence | engine/editor_session.go:354-363 | the cursor, clamped to the board |
| FanOut.StepKeepsInv | engine/editor_session.go:593-634 | every step of any interleaving keeps the gate's order and every member's queue |
| FanOut.RunKeepsInv | engine/editor_session.go:593-634 | and so does every interleaving |
| FanOut.OneAtATimeAndNoneLost | engine/editor_session.go:610-634 | one broadcast at a time, and while a ticket is due the connection that holds it can move |
| FanOut.RunPaintsInOrder | engine/editor_session.go:736-796 | whatever the interleaving, the session's frame is the first one with the edits painted over it in the order they were applied |
| FanOut.EditIsPainted | engine/editor_session.go:593-599 | an edit is painted over the frame, and the ticket drawn is its number |
| FanOut.TicketNamesTheEdit | engine/editor_session.go:600-634 | a connection keeps its ticket, which names its edit, until its broadcast is finished |
| FanOut.SnapshotIsTheFrame | engine/editor_session.go:693-712 | a snapshot holds every edit applied so far |
| FanOut.BroadcastReaches | engine/editor_session.go:736-796 | a broadcast hands its edit to every member that was there when it began, once, and cannot finish before |
| FanOut.StaleDiffsSettle | engine/editor_session.go:736-796 | diffs a frame already contains, applied in order, leave that frame |
| FanOut.ObserverConverges | engine/editor_session.go:693-712 | when all broadcasts are over a member shows the session's frame if its snapshot was written before any diff it lacks; and in general exactly if each cell is repainted after the snapshot or did not change |
| FanOut.LateSnapshotDiverges | engine/websocket_server.go:1819-1832 | an edit applied after a newcomer's snapshot is taken and broadcast before it is written is lost on the newcomer's screen |
| Leaderboard.SortRanks | engine/challenge_store.go:141-151 | sorting ranks the rows and loses none |
| Leaderboard.RankingIsUnique | engine/challenge_store.go:141-151 | two rankings of the same rows are equal |
| Leaderboard.UpdatedIsUpserted | engine/challenge_store.go:175-194 | placing a row and sorting again inserts it by rank, in place of the account's slower row |
| Leaderboard.TakeUpserted | engine/challenge_store.go:175-197 | cutting before a submission or only after it gives the same first rows |
| Leaderboard.StoredIsTopOfFull | engine/challenge_store.go:157-213 | after any history the stored rows are the first 25 of the table that was never cut |
| Leaderboard.FullHoldsTheBests | engine/challenge_store.go:157-221 | the uncut table holds exactly the best submission of every account: ticks, then higher score, then earlier |
| Leaderboard.LeaderboardIsExact | engine/challenge_store.go:138-222 | the stored rows are the first 25 of all accounts' best runs in rank order, one per account, and a row's position is its rank there or none |
| Leaderboard.BoardShowsTheBest | engine/challenge_store.go:138-222 | of any history at most 25 rows are stored, each the run of its account that precedes all its others, fewer ticks, then more points, then earlier; in that order; and who has run and is not shown is preceded by 25 rows |
| Challenges.ChallengeStore.Submit | engine/challenge_store.go:157-213 | refusals in their order and without effect; an accepted result extends the history of its challenge alone, and the answer is its account's rank or 0 |
| Challenges.ChallengeStore.Record | engine/challenge_store.go:170-207 | the stored rows stay those of the history |
| Challenges.PlaceRow | engine/challenge_store.go:175-190 | the account's row is replaced if the new one is better, or a row is added |
| Challenges.FindRow | engine/challenge_store.go:201-207 | the first row of the account |
| ChatAdmission.Window.Allow | engine/chat_admission.go:56-74 | the filter that writes over the slice it reads keeps exactly the unexpired times in order, and the decision follows |
| ChatAdmission.WindowIsRecent | engine/chat_admission.go:56-74 | under a clock that does not run back, the window is exactly the unexpired admitted messages |
| ChatAdmission.RefusedExactlyWhenFull | engine/chat_admission.go:66-69 | a message is refused if and only if the fifth last admitted before it is less than ten seconds old |
| ChatAdmission.AtMostFivePerWindow | engine/chat_admission.go:18-22 | any six consecutive admissions span at least ten seconds |
| EvalFlood.FloodBoard | engine/eval.go:440-459 | the cells reached are exactly those 4-connected to an on-board start through traversable squares, whatever the start shows; none from off the board |
| EvalFlood.TraversableCodes | engine/eval.go:461-473 | the element codes the flood passes, and no others |
| EvalFlood.FrontierGrows | engine/eval.go:444-456 | reaching a square keeps every neighbour reached, queued or barred |
| PlanGraph.BuildAdjacency | engine/plan.go:475-489 | the lists hold exactly the links between boards of the plan, those marked <-> in both directions |
| PlanGraph.Search | engine/plan.go:511-523 | the stack search sees exactly what directed paths from the start reach |
| PlanGraph.ChooseStart | engine/plan.go:438-460 | the first board marked START, else the first of lowest index that is no title |
| PlanGraph.Unreachable | engine/plan.go:509-533 | a non-title board is reported if and only if no directed path leads to it from the start |
| Reachability.ClosureIsReach | engine/plan.go:511-523 | a closed set of reachable nodes that holds the start is all that is reachable |
| Placement.StatAt | engine/placement.go:19-30 | the first stat on the square but one, if any |
| Placement.PlacementOpen | engine/placement.go:51-60 | on the board, empty and held by no other stat |
| Placement.FindPlacement | engine/placement.go:65-82 | an open square with none sooner in ring and reading order; failure only if none lies within 60 rings |
| Placement.SoonestIsNearest | engine/placement.go:65-82 | no open square has a smaller Chebyshev distance |
| Placement.FailsOnlyOnAFullBoard | engine/placement.go:65-82 | from any on-board square the search fails if and only if the board has no open square |

## Left out

- Drawing, sound, text windows, the sidebar and the torch redraw of MoveStat are not modelled; element attributes are those of the element table, constants here.
- Game.Engine.AddStat: covers stats added inside the grid; the callers' own bounds tests are theirs.
- Elements.BoardDamageTile: DamageStat's branch for players (health, re-entry, respawn) is not modelled, so the square must not show a player. Pushes never damage players.
- Elements.ElementPushablePush: a push needs a unit direction. With a zero direction, which GO and TRY can pass on, it recurses for ever on a pushable square (`PushSpec.LooseNeverReturns`); longer steps, which edited stats can hold, are not modelled.
- PushSafety.PushSteady: the condition on the order of stats is sufficient for any number of pushes in one call; `SlotReuse.TransportOnFrame` has the exact one for a transport whose tries are plain pushes.
- PushMeaning.PushShifts: the squares a push reaches hold no transporter and at most one stat each, over ground one can walk on; with transporters in reach, `PushSafety` and `PushConservation` say what is kept.
- SlotReuse.TransportCarries: the same of the squares the search tries; a push there that reaches another transporter is not covered.
- Centipede.TurnAround: chains are acyclic and start at the head given; cyclic centipedes are not modelled. The choice of direction before a head is stuck, and the attack on a player, are not either.
- CentipedeTick.March: linked members stand beside one another, every segment tile has a stat of its own, and the square ahead is vacant. The original indexes outside its arrays for members far apart.
- Scheduling.Schedule.Cycle: a tick is the sequence of table changes it makes, tame ones here; for the others `Scheduling.DriftSkipsOrRepeats` says what goes wrong. That a cycle ends at all is not claimed, since a tick could append and remove stats for ever.
- BoardFile.BoardOpen: bytes that make the original index out of range are excluded; a byte count of 0 in a run, which stands for 256 cells, is modelled.
- SharedPrograms.RemovalKeepsPrograms: one removal between the closes, and no dead stat that already holds a later program; the editor's unbinding of sharers before it saves a program is not modelled.
- BoardFile.BoardClose: the board must fit the 20000-byte buffer. World files, BoardLen, flags and JSON are not modelled.
- Serialize.StringRoundTrip: characters are bytes; longer strings are cut as the original cuts them.
- OopCommands.OopZap: programs are as long as their DataLen says, as opening a board leaves them.
- OopEnds.EndsExactly: which words are read, which branch is taken and where the reader ends is computed from the text; what commands do to the board and to other stats is not modelled. Where they may change the running slot (a push, PUT, CHANGE, ZAP, RESTORE, BIND, the message of an error) its new program may be any harmless one. SEEK is taken not to be zero: no player stands on the running stat's own square. The final rewinding of the position and the text window are not modelled.
- OopReaders.OopCheckCondition: the truth of a condition is the world's and not modelled.
- SessionSpec.StepKeepsValid: minted tokens are assumed fresh; each locked section is one step. What an operation under Apply does to boards is reduced to the board and board count it ends on, except for NewWorld.
- FanOut.ObserverConverges: one board; members of other boards receive nothing. Whole-board repaints after clearing, importing or adding a board are not modelled.
- Challenges.ChallengeStore.Submit: the store starts empty; loading a file, writing it and its errors are not modelled. The library's stable sort is an insertion sort here.
- ChatAdmission.Window.Allow: one player; the map from players to windows and the normalisation of text are not modelled.
- PlanGraph.Unreachable: duplicate ids, reciprocity of exits and the order of the spine are separate simple checks, not modelled.
- Placement.FindPlacement: the callers that move a player there are not modelled.
- The generation of worlds, the HTTP and WebSocket server, rooms, replays, the museum client and the converted single-player screens are not part of this model.
