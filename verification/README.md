# Canasta rules engine — a verified functional model

This project models the rules engine of `canasta_rl` (the file
`canasta_rl/src/canastautil.rs`): cards and their dense index, the draw
pile, hands, the per-team meld boards and their scoring, the turn counter,
the deal of `Game::new`, the legality predicate `check_legal`, the step
function `execute_play` with its per-seat knowledge broadcast and
empty-hand check, `get_scores`, the list of plays and the 39-slot action
encoding with its argmax decoder.

The model is purely functional. A `Game` is an immutable datatype holding
the draw pile, the discard pile, one `Hand` per seat (fourteen counts indexed
by `Card::get_index`), each seat's knowledge rows, one `Board` per team,
and the flags. The board of seat `i` is `boards[i % teams_count]`, as the
source shares one board between the seats of a team. `Execute(g, p)`
returns a `Result`: each `panic!` the source can reach becomes a `Fail`
with a named fault:
- `Hand::remove` underflow;
- drawing from an empty pile;
- going out with no card held once;
- a pickup with an empty discard pile;
- a play with no wildcard to complete a meld.

The model follows the code's actual behaviour, including places where
it departs from the usual rules of Canasta, under which going out is
credited to the team that went out and a penalty is the face value of the
cards left in hand:
- **Going out.** `GoOut` advances the turn before it reads and removes
  threes and before it sets `went_out`. So it throws away the threes of
  the *next* seat and marks the board of the next seat's team, not the
  team that went out.
- **Empty hand.** The empty-hand check at the end of `execute_play`
  tests the seat that acted but marks `went_out` on the board of the seat
  now on turn.
- **Hand penalty.** `Hand::get_score` prices slot `i` with `get_card(i)`,
  whose order is not that of `Card::get_index`. The penalty is therefore
  not the face value of the hand; the model states the exact difference.
- **Scores.** `get_scores` computes one block of `players_per_team`
  entries and repeats it `teams_count` times.

## Model

| member | source | states |
|---|---|---|
| Cards.FromIndex | canasta_rl/src/canastautil.rs:135-153 | the card `from_index(i)` returns has dense index `i` |
| Cards.Index | canasta_rl/src/canastautil.rs:117-134 | `get_index`: the dense slot of each rank, joker 0 to ace 13; `Cards.FromIndex`, `Cards.IndexRoundTrip` and `Cards.IndexInjective` state that it is a bijection onto 0..13 |
| Cards.IndexRoundTrip | canasta_rl/src/canastautil.rs:117-153 | `from_index` undoes `get_index` on every card |
| Cards.IndexInjective | canasta_rl/src/canastautil.rs:117-134 | two ranks share a slot only if they are the same rank |
| Cards.Value | canasta_rl/src/canastautil.rs:172-189 | `get_value`: the point value of each rank; `Cards.ScoreCardMisordered` and `Cards.ScoreCardShift` relate it to the pricing of hands, `Boards.CanastaScoring` to the pricing of melds |
| Cards.ScoreCard | canasta_rl/src/canastautil.rs:211-229 | the free function `get_card`, whose slot order is not the dense index order; `Cards.ScoreCardMisordered` and `Cards.ScoreCardShift` state exactly where and by how much it differs |
| Cards.ScoreCardMisordered | canasta_rl/src/canastautil.rs:211-229 | `get_card` agrees with `from_index` only on slot 0; its point value differs exactly on the slots of the three, the eight and the ace |
| Cards.ScoreCardShift | canasta_rl/src/canastautil.rs:211-229 | slot by slot, `get_card` prices 15 points more on the three's slot, 5 less on the eight's and 10 less on the ace's |
| DrawPiles.CountFourOfEach | canasta_rl/src/canastautil.rs:328-346 | the rank loop of one deck adds four copies of each rank except the joker and the three, and none of those two |
| DrawPiles.ExtrasCount | canasta_rl/src/canastautil.rs:348-353 | each deck's tail adds two jokers and two threes and nothing else |
| DrawPiles.DeckCounts | canasta_rl/src/canastautil.rs:325-356 | one deck holds two jokers, two threes and four of every other rank |
| DrawPiles.DeckSize | canasta_rl/src/canastautil.rs:325-356 | one deck holds 52 cards |
| DrawPiles.FreshPile | canasta_rl/src/canastautil.rs:325-356 | `DrawPile::new(decks)` holds `52 * decks` cards, and `decks` times the per-deck count of every rank |
| DrawPiles.ShuffleCounts | canasta_rl/src/canastautil.rs:358-361 | a shuffle keeps the pile's size and every rank's count |
| DrawPiles.DrawTop | canasta_rl/src/canastautil.rs:363-365 | `draw` yields nothing exactly on an empty pile; otherwise it yields the last card, and that card plus the rest make up the old pile rank by rank |
| Hands.Empty | canasta_rl/src/canastautil.rs:574-576 | a new hand holds no card of any rank |
| Hands.Add | canasta_rl/src/canastautil.rs:580-582 | `add(c, k)` adds `k` copies of `c` and changes no other rank |
| Hands.Take | canasta_rl/src/canastautil.rs:583-588 | a removal that cannot underflow takes `k` copies of `c` and changes no other rank |
| Hands.Remove | canasta_rl/src/canastautil.rs:583-588 | `remove(c, k)` fails with an underflow exactly when fewer than `k` copies are held, and otherwise is the removal above |
| Hands.AddAll | canasta_rl/src/canastautil.rs:1004-1006 | adding a pile card by card raises every rank by its count in the pile, and the size by the pile's length |
| Hands.SizeAdd | canasta_rl/src/canastautil.rs:604-611 | adding `k` cards raises `get_hand_size` by `k` |
| Hands.SizeTake | canasta_rl/src/canastautil.rs:604-611 | removing `k` cards lowers `get_hand_size` by `k` |
| Hands.Size | canasta_rl/src/canastautil.rs:604-611 | `get_hand_size`: the sum of the fourteen counts; `Hands.SizeAdd`, `Hands.SizeTake`, `Hands.SlotAtMostSize` and `Hands.IsEmptyIffSizeZero` state how it moves and what it bounds |
| Hands.SlotAtMostSize | canasta_rl/src/canastautil.rs:604-611 | no rank's count exceeds the hand size |
| Hands.SingleBesides | canasta_rl/src/canastautil.rs:762-767 | a hand with exactly one card besides its threes holds some other rank exactly once |
| Hands.IsEmpty | canasta_rl/src/canastautil.rs:589-596 | `is_empty`: the scan that stops at the first non-zero slot; `Hands.IsEmptyIffSizeZero` states that it answers true exactly for a hand of size 0 |
| Hands.IsEmptyIffSizeZero | canasta_rl/src/canastautil.rs:589-596 | the early-exit scan of `is_empty` answers true exactly when the hand size is 0 |
| Hands.Score | canasta_rl/src/canastautil.rs:597-603 | `get_score`: each slot priced with `get_card`; `Hands.ScoreVersusFaceValue`, `Hands.LoneThreeCostsTwenty` and `Effects.EmptyScoresZero` state what it charges |
| Hands.ScoreVersusFaceValue | canasta_rl/src/canastautil.rs:597-603 | `get_score` equals face value plus 15 per three, minus 5 per eight and 10 per ace |
| Hands.LoneThreeCostsTwenty | canasta_rl/src/canastautil.rs:597-603 | a hand of one three is charged 20 points although a three is worth 5 |
| Boards.New | canasta_rl/src/canastautil.rs:427-433 | a new board has no meld, is not down and has not gone out |
| Boards.Stack.Score | canasta_rl/src/canastautil.rs:390-394 | `BoardStack::get_score`: 50 per joker, 20 per two and the rank's value per natural; `Boards.CanastaScoring` and `Boards.ScoreDecomposes` state it in use |
| Boards.Get | canasta_rl/src/canastautil.rs:456-458 | `Board::get`: the meld in the slot of the card's index; the contracts of `Boards.PlaceCard`, `Boards.PlaceJoker` and `Boards.PlaceTwo` state what it returns after each placement |
| Boards.PlaceCard | canasta_rl/src/canastautil.rs:462-482 | `place_card(c, k)` puts `k` more naturals on the meld of `c`, founding it if absent; it marks the board down and changes no other slot and not `went_out` |
| Boards.PlaceJoker | canasta_rl/src/canastautil.rs:483-502 | `place_joker(c)` puts one more joker on the meld of `c`; it leaves `down`, `went_out` and every other slot as they were |
| Boards.PlaceTwo | canasta_rl/src/canastautil.rs:503-522 | `place_two(c)` puts one more two on the meld of `c`; it leaves `down`, `went_out` and every other slot as they were |
| Boards.PlaceCardCount | canasta_rl/src/canastautil.rs:462-482 | `place_card(x, k)` adds exactly `k` cards of rank `x` to the board and none of any other rank |
| Boards.PlaceJokerCount | canasta_rl/src/canastautil.rs:483-502 | `place_joker` adds exactly one joker to the board |
| Boards.PlaceTwoCount | canasta_rl/src/canastautil.rs:503-522 | `place_two` adds exactly one two to the board |
| Boards.PlaceCardSound | canasta_rl/src/canastautil.rs:462-482 | extending a meld, or founding one with three or more naturals, keeps every meld at three or more cards with no more wildcards than naturals |
| Boards.NumCanastas | canasta_rl/src/canastautil.rs:523-534 | `get_num_canastas`; `Boards.ScoreDecomposes` states that it counts exactly the clean and the dirty canastas |
| Boards.Score | canasta_rl/src/canastautil.rs:434-455 | `Board::get_score`; `Boards.ScoreDecomposes` states that it is the went-out bonus plus card points plus canasta bonuses, `Boards.CanastaScoring` gives worked values |
| Boards.ScoreDecomposes | canasta_rl/src/canastautil.rs:434-455 | the board score is 100 if it went out, plus the melds' card points, plus 500 per clean and 300 per dirty canasta; `get_num_canastas` counts exactly those canastas |
| Boards.CanastaScoring | canasta_rl/src/canastautil.rs:390-406 | seven naturals score seven times the rank's value plus 500; six naturals and a joker score six times the value plus 50 plus 300 |
| Turns.New | canasta_rl/src/canastautil.rs:656-662 | a new counter is in range, with seat 0 on turn and no turn taken |
| Turns.Advance | canasta_rl/src/canastautil.rs:666-670 | `add` stays in range, moves to the next seat with the last seat wrapping to 0, and counts exactly one more turn |
| Turns.AdvanceByRotates | canasta_rl/src/canastautil.rs:666-670 | `k` calls of `add` move `k` seats round the table and count `k` turns |
| Turns.FullRoundReturns | canasta_rl/src/canastautil.rs:666-670 | one `add` per seat brings the turn back to the same seat |
| Knowledge.Fresh | canasta_rl/src/canastautil.rs:636-646 | every seat starts with one all-zero row for each of the other seats |
| Knowledge.BumpAll | canasta_rl/src/canastautil.rs:999-1003 | counting a pile into the update vector raises each rank by its count in the pile |
| Knowledge.Slot | canasta_rl/src/canastautil.rs:1121-1139 | the row index the broadcast writes never passes the last row, so the write never goes out of bounds |
| Knowledge.StepObserver | canasta_rl/src/canastautil.rs:1121-1139 | step `i` of the broadcast serves a seat other than the actor, `i - cur` seats on, and writes that seat's row `n - 1 - offset` |
| Knowledge.OffsetInjective | canasta_rl/src/canastautil.rs:1121-1139 | distinct seats lie at distinct offsets from the actor, and each seat other than the actor lies 1 to `n - 1` seats on |
| Knowledge.RowOfActor | canasta_rl/src/canastautil.rs:1121-1139 | the row the broadcast writes for observer `o` and actor `a` is `Offset(n, o, a) - 1`, so row `k` of any seat always describes seat `(o + k + 1) % n`, the seat `k + 1` places after it |
| Knowledge.BroadcastFromSpec | canasta_rl/src/canastautil.rs:1121-1139 | from step `i` on, the loop has updated exactly the seats at offset `i - cur` or more, each in its row about the actor, and left all others as they were |
| Knowledge.BroadcastSpec | canasta_rl/src/canastautil.rs:1121-1139 | after the broadcast the actor's knowledge is unchanged and every other seat has added the update to its row about the actor |
| Knowledge.Broadcast | canasta_rl/src/canastautil.rs:1121-1139 | the loop of `execute_play` that adds the update to one row of each other seat; `Knowledge.BroadcastSpec` and `Knowledge.RowOfActor` state which row and that nothing else changes |
| Plays.ActionIndex | canasta_rl/src/canastautil.rs:1412-1458 | every play is encoded in one of the 39 slots |
| Plays.PlayOfIndex | canasta_rl/src/canastautil.rs:1460-1587 | the decoder's `match` yields a play exactly for the indices below 39, and panics on the rest |
| Plays.IndexOfPlayRoundTrip | canasta_rl/src/canastautil.rs:1412-1587 | decoding the slot of a play returns that play |
| Plays.PlayOfIndexRoundTrip | canasta_rl/src/canastautil.rs:1412-1587 | encoding the play decoded from a slot returns that slot, so the table is a bijection between plays and 0..38 |
| Plays.OneHot | canasta_rl/src/canastautil.rs:1412-1458 | the encoding has 39 entries: 1 in the play's slot and 0 elsewhere |
| Plays.ArgMax | canasta_rl/src/canastautil.rs:1463-1468 | `max_by` picks an entry no smaller than any other, and later entries are strictly smaller (the last maximum wins) |
| Plays.Decode | canasta_rl/src/canastautil.rs:1460-1587 | `From<[f32; 39]> for Action`: the play of the last maximal entry; `Plays.DecodeOneHot` states that it inverts the one-hot encoding |
| Plays.DecodeOneHot | canasta_rl/src/canastautil.rs:1412-1587 | decoding the one-hot encoding of any play returns that play |
| Plays.PlayList | canasta_rl/src/canastautil.rs:34-77 | `Play::iterator` lists 39 plays |
| Plays.PlayListIsPermutation | canasta_rl/src/canastautil.rs:34-77 | `Play::iterator` lists every play exactly once |
| Engine.Team | canasta_rl/src/canastautil.rs:696-699 | seat `i` shares the board of team `i % teams_count`, which exists |
| Engine.DealHand | canasta_rl/src/canastautil.rs:701-703 | dealing `k` cards fails exactly when the pile has fewer than `k`; otherwise it moves `k` cards from the pile into the hand, rank by rank |
| Engine.DealSeats | canasta_rl/src/canastautil.rs:696-706 | dealing `m` hands of `k` fails exactly when the pile has fewer than `m * k` cards; otherwise every hand has `k` cards and no card is lost or made |
| Engine.Deal | canasta_rl/src/canastautil.rs:696-709 | the deal and the upcard fail exactly when the pile has no more than `m * k` cards; otherwise hands, the rest of the pile and the upcard hold every card of the order |
| Engine.NewGame | canasta_rl/src/canastautil.rs:687-719 | `Game::new` succeeds exactly when the decks hold more cards than the hands need; the game starts well formed, with one upcard, frozen iff the upcard is wild, seat 0 on turn and every hand of `hand_size` |
| Engine.Opening | canasta_rl/src/canastautil.rs:707-718 | the opening state has the dealt hands, the upcard alone on the discard pile, fresh boards and counters, and is well formed |
| Engine.AdvanceIsNextSeat | canasta_rl/src/canastautil.rs:666-670 | advancing the turn of a game moves to the next seat modulo the number of seats |
| Engine.CheckLegal | canasta_rl/src/canastautil.rs:756-870 | `check_legal`, branch by branch; `Safety.NoPanic`, `Safety.LegalDrawCanPanic`, `MeldRules.ActKeepsCard`, `MeldRules.PlaceWildSound`, `Effects.PlaceWildEffects` and `Effects.GoOutEffects` state what legality guarantees |
| Engine.FilterLegal | canasta_rl/src/canastautil.rs:1171-1179 | the filter keeps exactly the listed plays that are legal, never more plays than the list, and a list in iterator order stays in iterator order |
| Engine.LegalPlays | canasta_rl/src/canastautil.rs:1171-1179 | `actions()` contains a play exactly when `check_legal` accepts it, in `Play::iterator` order and each play once |
| Engine.LegalPlaysUnique | canasta_rl/src/canastautil.rs:1171-1179 | any list holding exactly the legal plays in iterator order is the list `actions()` builds |
| Engine.OrderedUnique | canasta_rl/src/canastautil.rs:1171-1179 | two lists in iterator order with the same members are the same list; `Engine.HeadsAgree`, `Engine.TailsAgree` and `Engine.TailInOrder` carry the induction step |
| Engine.HeadsAgree | canasta_rl/src/canastautil.rs:1171-1179 | two non-empty lists in iterator order with the same members start with the same play |
| Engine.TailsAgree | canasta_rl/src/canastautil.rs:1171-1179 | two lists with the same members and the same head have tails with the same members |
| Engine.TailInOrder | canasta_rl/src/canastautil.rs:1171-1179 | the tail of a list in iterator order is in iterator order |
| Engine.FirstSingleFrom | canasta_rl/src/canastautil.rs:913-922 | the go-out scan finds the first rank, in iterator order, held exactly once, and fails only when no rank is held once |
| Engine.ActGoOut | canasta_rl/src/canastautil.rs:912-939 | going out succeeds exactly when some rank is held once, and keeps the game well formed |
| Engine.PickupMeld | canasta_rl/src/canastautil.rs:951-998 | the pickup's meld succeeds exactly when the top card extends an unfrozen meld, or a pair is held, or one natural and a different wildcard are held. On success the meld of the top card becomes `Engine.PickedMeld`, the board is down, and every other slot and `went_out` are unchanged. Each rank of the hand loses exactly `Engine.PickupTaken`. Sound melds stay sound, and the hand shrinks by 2 unless the top card just extends a meld |
| Engine.PickupPairMeld | canasta_rl/src/canastautil.rs:960-967 | two naturals from the hand and the top card found or grow the meld of the top card by three naturals, keeping its wildcards; the board is down with every other slot unchanged, and the hand loses exactly two copies of the top card |
| Engine.PickupWildMeld | canasta_rl/src/canastautil.rs:968-991 | the natural-and-wildcard branch fails exactly when either card is missing; otherwise the hand loses one top card and one wildcard, and the meld of the top card gains two naturals and that wildcard, the board down and every other slot unchanged |
| Engine.PickupWildLands | canasta_rl/src/canastautil.rs:968-991 | the top card, the held natural and the wildcard all land on the meld of the top card, and nothing else on the board changes |
| Engine.PickupExtend | canasta_rl/src/canastautil.rs:992-998 | extending an existing meld with the top card leaves the hand alone and adds one natural to the meld of the top card, the board down and every other slot unchanged |
| Engine.ActPickup | canasta_rl/src/canastautil.rs:940-1011 | a pickup with an empty discard pile fails; a successful one keeps the game well formed |
| Engine.ActPlaceWild | canasta_rl/src/canastautil.rs:1012-1037 | placing a wildcard succeeds exactly when the hand holds a joker or a two |
| Engine.ActDraw | canasta_rl/src/canastautil.rs:1038-1043 | a draw succeeds exactly when the draw pile is not empty; it then sets `drawn` and moves the last card of the draw pile into the acting hand, and no other hand, pile, board, flag or the turn changes |
| Engine.ActDiscard | canasta_rl/src/canastautil.rs:1044-1056 | a discard succeeds exactly when the card is held |
| Engine.PlayMeld | canasta_rl/src/canastautil.rs:1057-1119 | a play succeeds exactly when it extends a held meld rank, or founds a meld from three naturals or two naturals and a wildcard. It fails with "no wildcard" exactly when neither is possible and no wildcard is held. The meld of `card` becomes `PlayedMeld`: one more natural on an existing meld, else three naturals, else two naturals and a joker when one is held, else two naturals and a two. The board is marked down, no other slot changes, the hand loses what the board gains and shrinks by 1 or 3 |
| Engine.ExtendMeld | canasta_rl/src/canastautil.rs:1059-1073 | extending a meld succeeds exactly when the card is held, and moves one card from hand to the meld of `card`, marking the board down and leaving the other slots |
| Engine.NaturalMeld | canasta_rl/src/canastautil.rs:1075-1082 | founding a meld from three naturals moves three cards from hand to the meld of `card`, marks the board down, leaves the other slots and keeps melds sound |
| Engine.WildMeld | canasta_rl/src/canastautil.rs:1084-1113 | with a wildcard held, founding a meld succeeds exactly when two naturals are held; the wildcard and two naturals move from hand to the meld of `card`, the board is marked down and the other slots stay |
| Engine.WildMeldLands | canasta_rl/src/canastautil.rs:1084-1113 | the wildcard and the two naturals all land on the meld of `card` |
| Engine.ActPlay | canasta_rl/src/canastautil.rs:1057-1119 | a successful play keeps the game well formed, the seats and the knowledge |
| Engine.Act | canasta_rl/src/canastautil.rs:911-1120 | every successful action keeps the game well formed, the seats and the knowledge |
| Engine.Execute | canasta_rl/src/canastautil.rs:871-1145 | `execute_play` keeps the game well formed |
| Engine.Conclude | canasta_rl/src/canastautil.rs:1121-1144 | after the action, only the knowledge (by the broadcast) and the finished and `went_out` flags (by the empty-hand check) change; the cards on the boards do not |
| Engine.ExecuteBookkeeping | canasta_rl/src/canastautil.rs:1121-1144 | `execute_play` fails exactly when its action fails. It differs from the action only by the broadcast of the action's update, and by the empty-hand check finishing the game and marking the board of the seat now on turn |
| Engine.SeatInRange | canasta_rl/src/canastautil.rs:740-745 | the seat `i + j * players_per_team` read by `get_scores` exists |
| Engine.Repeated | canasta_rl/src/canastautil.rs:749-753 | the second loop of `get_scores` repeats the first block, entry `j` being block entry `j` modulo the block size |
| Engine.Scores | canasta_rl/src/canastautil.rs:737-755 | `get_scores` has one entry per seat, and entry `k` is the block entry of seat `k % players_per_team` |
| Effects.TurnPassesOnlyOnDiscard | canasta_rl/src/canastautil.rs:911-1120 | only a discard or a go-out passes the turn, to the next seat with one more turn counted; every other play leaves the counter alone |
| Effects.NextSeatOtherTeam | canasta_rl/src/canastautil.rs:696-699 | with two or more teams the seat after any seat is on another team |
| Effects.DrawEffects | canasta_rl/src/canastautil.rs:1038-1043 | a draw from a non-empty pile sets `drawn` and moves the last card of the draw pile into the acting hand; no other hand, the discard pile, the boards, the turn, the freeze and the finished flag change |
| Effects.DiscardEffects | canasta_rl/src/canastautil.rs:1044-1056 | a discard moves one copy from the hand to the top of the discard pile and clears `drawn`. It freezes the pile exactly for a wildcard or an already frozen pile, and finishes the game exactly when it was finished, the draw pile is empty or the hand is empty. The hand's other ranks, the other hands, the draw pile and every board's melds are unchanged; the turn advances, and `went_out` is set only on the next seat's team when the hand is empty |
| Effects.PickupEffects | canasta_rl/src/canastautil.rs:940-1011 | a pickup sets `drawn`, unfreezes and empties the discard pile, and leaves the draw pile. The acting team's meld of the top card becomes `Engine.PickedMeld` with its board down and its other slots unchanged. Each rank of the hand gains its count in the pile, less `Engine.PickupTaken` and less the top card itself. Other hands, other teams' melds and the turn are unchanged, and `finished` and `went_out` change only through the empty-hand check |
| Effects.ActPickupLands | canasta_rl/src/canastautil.rs:940-1011 | before the empty-hand check, a pickup sets the acting team's meld of the top card to `Engine.PickedMeld`, gives the hand the pile less what was melded, and leaves other hands and boards, the turn and `finished` alone |
| Effects.PlaceWildEffects | canasta_rl/src/canastautil.rs:1012-1037 | a legal wildcard placement puts one wildcard, the joker if one is held, on the existing meld; the naturals stay the same, wildcards stay no more than naturals, and the hand loses that wildcard. The board's other slots, `down`, the hand's other ranks, the other hands and boards, both piles, `drawn`, `frozen` and the turn are unchanged, and `finished` and `went_out` change only through the empty-hand check |
| Effects.PlayEffects | canasta_rl/src/canastautil.rs:1057-1119 | a play turns the meld of `card` into `PlayedMeld`, the joker being used before a two, and marks the board down. No other meld, hand, pile, flag or the turn changes, except that a play emptying the hand finishes the game and marks the acting team |
| Effects.GoOutEffects | canasta_rl/src/canastautil.rs:912-939 | a legal go-out discards the first rank the actor holds exactly once, never a three, onto the discard pile, freezing it when that card is a joker or a two. It finishes the game and leaves the actor only its threes. The next seat loses all its threes and nothing else, and every other hand is unchanged. The draw pile and all melds are unchanged, and the turn advances. `went_out` is set on the next seat's team, and with two or more teams not on the actor's |
| Effects.GoOutAloneEffects | canasta_rl/src/canastautil.rs:912-939 | at a one-seat table a legal go-out discards the first rank held exactly once and freezes the pile for a wildcard. It empties the actor's hand, its own threes included, finishes the game and marks its own team's board. The draw pile and all melds are unchanged, and the turn advances |
| Effects.LastDiscardCreditsNextTeam | canasta_rl/src/canastautil.rs:1141-1144 | discarding the last card finishes the game but marks `went_out` for the next seat's team, not the discarding team |
| Effects.ScoresRepeatEveryBlock | canasta_rl/src/canastautil.rs:749-753 | `get_scores` entries repeat every `players_per_team` seats |
| Effects.ScoresWithOneSeatPerTeam | canasta_rl/src/canastautil.rs:737-755 | with one seat per team every entry is team 0's board score less all hands' penalties |
| Effects.ScoresWithEmptyHands | canasta_rl/src/canastautil.rs:737-755 | with every hand empty, each entry is the board score of its block seat's team |
| Effects.EmptyScoresZero | canasta_rl/src/canastautil.rs:597-603 | an empty hand costs no penalty |
| Safety.GoOutFindsCard | canasta_rl/src/canastautil.rs:913-922 | a legal go-out always finds its card, so its panic is unreachable |
| Safety.PickupWildBranchUnreachable | canasta_rl/src/canastautil.rs:786-803 | in a legal pickup without an extendable meld the pair is always held, so the natural-and-wildcard branch never runs |
| Safety.PickupSucceeds | canasta_rl/src/canastautil.rs:768-804 | a legal pickup never underflows a hand |
| Safety.PlaySucceeds | canasta_rl/src/canastautil.rs:846-868 | a legal play never underflows a hand and always has its wildcard |
| Safety.NoPanic | canasta_rl/src/canastautil.rs:756-870 | every legal play succeeds, a draw provided the draw pile has a card |
| Safety.LegalDrawCanPanic | canasta_rl/src/canastautil.rs:836 | a draw is legal on an empty draw pile before the seat has drawn, and then panics |
| Safety.NewGameDrawReady | canasta_rl/src/canastautil.rs:687-719 | a deal that leaves a card beyond the hands and the upcard starts with a card to draw |
| Safety.ExecuteKeepsDrawReady | canasta_rl/src/canastautil.rs:1053-1055 | every step keeps a card to draw while the game runs and the seat has not drawn, because the discard that empties the pile finishes the game |
| Safety.NoPanicWhileRunning | canasta_rl/src/canastautil.rs:756-870 | while the game runs and the seat on turn could still draw if it had to, no legal play panics |
| MeldRules.PlaceWildSound | canasta_rl/src/canastautil.rs:829-833 | a legal wildcard placement keeps the meld at no more wildcards than naturals |
| MeldRules.ActKeepsSound | canasta_rl/src/canastautil.rs:911-1120 | every action keeps all melds sound, a wildcard placement when legal |
| MeldRules.ExecuteKeepsSound | canasta_rl/src/canastautil.rs:871-1145 | `execute_play` keeps all melds sound, a wildcard placement when legal |
| MeldRules.PickupKeepsCard | canasta_rl/src/canastautil.rs:786-803 | a legal pickup leaves at least one card in hand |
| MeldRules.PlayKeepsCard | canasta_rl/src/canastautil.rs:846-868 | a legal play leaves at least one card in hand |
| MeldRules.ActKeepsCard | canasta_rl/src/canastautil.rs:756-870 | without two canastas no legal action empties the acting seat's hand |
| MeldRules.EmptyHandNeedsTwoCanastas | canasta_rl/src/canastautil.rs:1141-1144 | a legal play that empties the hand was made with two canastas down |
| Tracking.PickupDelta | canasta_rl/src/canastautil.rs:999-1008 | the pickup's update vector is exactly the change in the acting hand |
| Tracking.ActDeltaIsHandChange | canasta_rl/src/canastautil.rs:911-1120 | every action's update vector is exactly the change in the acting hand; for a go-out this needs a second seat |
| Tracking.KnowledgeTracksHand | canasta_rl/src/canastautil.rs:1121-1139 | after any play every other seat's row about the actor has gained exactly the change in the actor's hand, and the actor's knowledge is unchanged, at any table size |
| Tracking.LoneGoOutHidesThrees | canasta_rl/src/canastautil.rs:912-939 | at a one-seat table a legal go-out with threes throws all of them away, yet its update vector leaves the threes at 0 |
| Conservation.DrawConserves | canasta_rl/src/canastautil.rs:1038-1043 | a draw keeps the number of copies of every rank in play |
| Conservation.DiscardConserves | canasta_rl/src/canastautil.rs:1044-1056 | a discard keeps every rank's count |
| Conservation.PlaceWildConserves | canasta_rl/src/canastautil.rs:1012-1037 | a wildcard placement keeps every rank's count |
| Conservation.PlayConserves | canasta_rl/src/canastautil.rs:1057-1119 | a meld play keeps every rank's count |
| Conservation.PickupConserves | canasta_rl/src/canastautil.rs:940-1011 | a pickup keeps every rank's count |
| Conservation.ActConserves | canasta_rl/src/canastautil.rs:911-1120 | every action except going out keeps every rank's count |
| Conservation.GoOutLosesNextThrees | canasta_rl/src/canastautil.rs:912-939 | going out keeps every rank's count except the threes, which drop by exactly the next seat's threes |
| Conservation.ExecuteConserves | canasta_rl/src/canastautil.rs:871-1145 | `execute_play` of anything but a go-out keeps every rank's count |
| Conservation.ExecuteGoOutLosesNextThrees | canasta_rl/src/canastautil.rs:871-1145 | `execute_play` of a go-out loses exactly the next seat's threes |
| Conservation.GoOutAloneLosesOwnThrees | canasta_rl/src/canastautil.rs:912-939 | at a one-seat table a legal go-out keeps every rank's count except the threes, which drop by exactly the actor's own threes |
| Conservation.ActGoOutAlone | canasta_rl/src/canastautil.rs:912-939 | the action half of the one-seat go-out: only the actor's own threes leave play |
| Conservation.OpeningCounts | canasta_rl/src/canastautil.rs:707-718 | the opening state holds exactly the cards of the hands, the draw pile and the upcard |
| Conservation.NewGameCounts | canasta_rl/src/canastautil.rs:687-719 | a new game holds every rank exactly `decks` times its count in one deck |

## Left out

- Shuffling (`DrawPile::shuffle`, canasta_rl/src/canastautil.rs:358-361) draws on the thread RNG. `NewGame` instead takes the card order as a parameter that must be a permutation of the fresh pile.
- The debug log written to `debug.txt` in `execute_play` is left out because it is file I/O. So are the `Display`/`to_string` helpers, which are formatting only.
- The floating-point parts are left out: the f32 state encodings (`From<GameState<..>> for [f32; N]`) and the f64 `reward`. The one-hot action vector is modelled over integers. `partial_cmp(..).unwrap()` would panic on a NaN, which the integer model cannot express.
- `GameState::actions` is modelled once, as `Engine.LegalPlays`, for both seat layouts.
- Concurrency is left out: `CanastaAgent`'s busy-wait polling over `Arc<Mutex<..>>`, and the shared `Arc<Mutex<Board>>` itself. Boards are a team-indexed sequence instead, as only one seat acts at a time.
- The drivers in `canasta_rl/src/main.rs`, the evaluation harness `canasta_rl/src/model_eval.rs` and the unused `canasta_rl/src/envutil.rs` are not part of this model.
- Fixed-width integers are not modelled. Card counts are `u8`, turns and scores `u16`, knowledge entries `i8` and `get_scores` entries `i16`; the model uses unbounded `nat`/`int`, so the source's overflow panics and wrap-arounds are not represented.
- `NewGame` requires at least one team and one seat per team. With zero teams the source still builds a seatless game, on which every later call panics (division by zero in `TurnCounter::add`, an out-of-range seat read, the `teams_count - 1` underflow in `get_scores`).
- The trivial accessors `Game::get_total_turns`, `TurnCounter::get` and `Board::is_down` are not separate members: the model reads the fields directly. `Board::get` is `Boards.Get`.
- `PlayableCardSubset::iterator` is not used by the engine. The two card subsets are modelled as subset types whose conversion to `Card` is the inclusion.
- Engine.ActPickup: its own contract states only the empty-pile failure and well-formedness; when it succeeds is stated by `Engine.PickupMeld` and `Safety.PickupSucceeds`, and its effects (the meld of the top card, the hand, and everything left unchanged) by `Effects.ActPickupLands` and `Effects.PickupEffects`.
- Engine.ActPlay: its own contract states only well-formedness; when it succeeds is stated by `Engine.PlayMeld` and `Safety.PlaySucceeds`, and its effects by `Engine.PlayMeld`, `Effects.PlayEffects` and `Conservation.PlayConserves`.
- Engine.Execute: its own contract states only well-formedness; `Engine.ExecuteBookkeeping` and the lemmas of `Effects`, `Conservation` and `Tracking` state what it does.
- Tracking.ActDeltaIsHandChange: excludes a go-out with a single seat, where the turn advance makes the actor throw away its own threes without the update vector recording it; `Tracking.LoneGoOutHidesThrees` shows that case.
- Effects.GoOutEffects: requires two or more seats. At a one-seat table the actor is its own next seat; `Effects.GoOutAloneEffects` states that case.
- Conservation.GoOutLosesNextThrees: requires two or more seats. `Conservation.GoOutAloneLosesOwnThrees` states a legal one-seat go-out; a one-seat go-out that `check_legal` would refuse (`execute_play` does not check legality) is not stated.
- Conservation.ExecuteGoOutLosesNextThrees: requires two or more seats, for the same reason as `Conservation.GoOutLosesNextThrees`; the legal one-seat case is `Conservation.GoOutAloneLosesOwnThrees`.
