# LIFESTOCK game state machine in Dafny

LIFESTOCK is a party game in which players take turns as the "company": the company picks a
topic, draws a life curve (a score from 0 to 100 for each age from 0 to the company's own
age), answers questions, and the other players ("investors") bet points by buying the curve
at one age and selling it at another. The payout is the stake multiplied by the ratio of the
sell score to the buy score. After every player has been the company once, the players are
ranked by their balance.

The game runs either on one device ("local") or online. Online, one participant is the host
and holds the authoritative state; guests send requests, and the host broadcasts its whole
state after every change. This project models:

- that state: players, the round counter, the rounds, and the phase;
- the operations the shared game context offers;
- the host's handling of every channel message;
- the phase screens' actions: lobby, topic roulette, curve editor, question clock,
  investment form, results reveal, scoring, round summary and final ranking;
- the graph arithmetic, which consists of linear interpolation with JavaScript rounding, the
  payout formula and the axis labels.

Every operation is a pure function. It returns the new state together with the list of
channel messages it sends, in order (`Model.Step`). A message sent after a timer delay is
modelled as sent at once. Room codes, player ids and random topic picks come from randomness
or device storage, so they are parameters here.

Modules, in dependency order:

- Support modules:
  - `Wrappers`: `Option` and `Result`.
  - `Arith`: JavaScript `%` and `Math.round` of a quotient.
  - `Seqs`: `findIndex`, `find`, and removal by index.
  - `Sorting`: a stable sort by key.
  - `Text`: `trim`, ASCII upper case, decimal `Show`, `parseInt` and `padStart`.
- `Model`: the entities, the channel events, and shallow round patches.
- `Store`: the context's state operations and what each one broadcasts or sends.
- `Protocol`: the receivers of channel messages, and subscription.
- `Roles`: the derived company, `isCompany`, the maximum age, and the investors.
- `Interpolation`: the results table, the chart's own interpolation, clamping and axis labels.
- `Lobby`, `Screens`, `TopicPicker`, `CurveEditor`, `QuestionClock`, `InvestmentDesk`,
  `RevealControl`, `Scoring`, `SummaryControl`, `Standings`: one module per screen.

Some behaviour of the code is worth spelling out, because the model reproduces it exactly:

- A curve through (0,50), (40,80), (100,20) reads 50 at age 70: the value comes from the
  segment between ages 40 and 100.
- A curve through (0,50), (50,90), (100,10) reads 42 at age 80, so a 1000-point short position
  bought at 80 and sold at 0 pays 1190. `Scoring.ShortPositionExample` states these numbers.
- The `timestamp` a state broadcast carries is never compared. A guest simply adopts the last
  broadcast it receives (`Protocol.LastDeliveredSnapshotWins`).
- The game ends when the round counter reaches the number of players. It does not count
  completed rounds (`SummaryControl.GameEndsAfterEveryCompany`).
- In the round summary's "next" action, the guard "the current round already has the next
  number" can never fire. The round it inspects is found by the round counter's own number.
  `HandleNext` keeps the guard, and its contract shows that the guard has no effect.

## Model

| member | source | states |
|---|---|---|
| Arith.JsRem | src/app/contexts/GameContext.tsx:204 | JavaScript's remainder: for a non-negative dividend it is the ordinary remainder, and for a negative one it lies in (-b, 0] and is the dividend itself when that is above -b; for every dividend its magnitude is the dividend's magnitude modulo b |
| Arith.RoundDiv | src/app/components/ResultsPhase.tsx:19 | the result is the integer nearest to n/d, with halves rounded up, as `Math.round` does |
| Arith.RoundDivBounds | src/app/components/ResultsPhase.tsx:55 | rounding a quotient that lies between two integers never leaves them |
| Arith.RoundDivExact | src/app/components/ResultsPhase.tsx:19 | an exact quotient is unchanged by rounding |
| Model.ColorFor | src/app/contexts/GameContext.tsx:4-7 | a player's colour is taken from the twenty-colour palette, cycling by position |
| Model.Merge | src/app/contexts/GameContext.tsx:226 | a round patch never changes a round's number, its company or its questions |
| Model.MergeIdempotent | src/app/contexts/GameContext.tsx:226 | applying the same patch twice equals applying it once, and the empty patch changes nothing |
| Model.PatchRounds | src/app/contexts/GameContext.tsx:224-236 | patching round n changes exactly the rounds numbered n, each by the shallow merge, and keeps the list's length and numbering |
| Model.MergeOverridden | src/app/contexts/GameContext.tsx:226 | a later patch that sets every field an earlier one set makes the earlier one invisible |
| Model.PatchOverridden | src/app/contexts/GameContext.tsx:224-236 | the same holds for a whole round list: a covering second patch of round n erases the first |
| Model.RoundIndex | src/app/contexts/GameContext.tsx:340 | the position of the first round with number n, or -1 exactly when no round has that number |
| Model.FindRound | src/app/contexts/GameContext.tsx:340 | a round is found exactly when some round carries the number, and the found round carries it |
| Model.CurrentRound | src/app/contexts/GameContext.tsx:340 | the current round, when there is one, is a stored round numbered by the round counter |
| Model.FindAfterPatch | src/app/contexts/GameContext.tsx:224-236 | after a patch of round n, looking up n finds the merged old round, or nothing if there was none |
| Model.FindAfterOtherPatch | src/app/contexts/GameContext.tsx:224-236 | a patch of round n leaves the lookup of every other number unchanged |
| Model.FindAppended | src/app/contexts/GameContext.tsx:274 | a round appended under a fresh number is what a lookup of that number finds |
| Model.FindPlayer | src/app/contexts/GameContext.tsx:113 | a player is found exactly when someone has that id, and the found player has it |
| Model.InvestorIndex | src/app/contexts/GameContext.tsx:157 | the position of the first wager by an investor, or -1 exactly when the investor has none |
| Model.Upsert | src/app/contexts/GameContext.tsx:157-159 | the new wager is in the list, it replaces the investor's old one in place or else is appended, other investors' wagers stay, and one wager per investor is kept |
| Model.UpsertSingleEntry | src/app/contexts/GameContext.tsx:157-159 | on a list with one wager per investor, every wager by the submitting investor is the new one |
| Model.UpsertTwiceKeepsSecond | src/app/contexts/GameContext.tsx:157-159 | resubmitting overwrites: two submissions by one investor leave what the second alone would |
| Store.RotationIndex | src/app/contexts/GameContext.tsx:204 | the company slot of round n >= 1 is (n - 1) mod the roster size, slot 0 on an empty roster, and a negative slot for small non-positive round numbers, as JavaScript computes it |
| Store.SetPlayers | src/app/contexts/GameContext.tsx:194-199 | the roster is replaced, nothing else changes, and only an online host broadcasts |
| Store.AddRound | src/app/contexts/GameContext.tsx:201-222 | the round is appended with its company taken from the rotation slot when that slot's player has an id and a name, its locks and roulette reset, and the round counter moved to it |
| Store.UpdateRound | src/app/contexts/GameContext.tsx:224-236 | the rounds are patched locally in every mode; a host broadcasts the result and a guest sends the request instead |
| Store.UpdatePlayersAndRounds | src/app/contexts/GameContext.tsx:238-247 | the roster and a round patch change together in one broadcast |
| Store.AddPoints | src/app/contexts/GameContext.tsx:251 | exactly the players with the id gain the amount, and every other field is kept |
| Store.UpdatePlayerPoints | src/app/contexts/GameContext.tsx:249-257 | the balances change as `AddPoints` says, and only the host broadcasts |
| Store.SetPhase | src/app/contexts/GameContext.tsx:259-265 | the phase changes locally; a host broadcasts it, a guest requests it, and a single device sends nothing |
| Store.AdvanceToNextRound | src/app/contexts/GameContext.tsx:267-290 | a guest, or a round number that exists already, changes nothing; otherwise the round is appended, the round counter moves to it and topic selection starts |
| Store.UpdateRoundAndPhase | src/app/contexts/GameContext.tsx:292-305 | a round patch and a phase change happen together, and a guest sends them as one request |
| Store.AdvanceTwiceAppendsOnce | src/app/contexts/GameContext.tsx:270-272 | advancing twice to the same round appends it at most once |
| Store.AdvanceKeepsRoundNumbersUnique | src/app/contexts/GameContext.tsx:267-290 | advancing never creates two rounds with one number |
| Store.AddRoundIgnoresCallerCompany | src/app/contexts/GameContext.tsx:204-210 | when the roster has ids and names, the company the caller proposes is irrelevant and the rotation decides |
| Store.RotationVisitsEachOnce | src/app/contexts/GameContext.tsx:204 | rounds 1 to P of a P-player game get P different company slots |
| Store.HostBroadcastsItsOwnState | src/app/contexts/GameContext.tsx:217-229 | every snapshot an operation broadcasts is the state that operation leaves behind |
| Store.GuestSendsOnlyRequests | src/app/contexts/GameContext.tsx:227-233 | a guest never broadcasts a state; it only sends requests, and it cannot advance rounds or set the roster |
| Protocol.ApplySnapshot | src/app/contexts/GameContext.tsx:103-110 | each field present in a snapshot replaces the receiver's copy, and each absent field leaves it |
| Protocol.HostJoin | src/app/contexts/GameContext.tsx:111-125 | a new id is appended with the palette colour for its position and broadcast; a known id only triggers a rebroadcast; distinct ids stay distinct |
| Protocol.SetInvestments | src/app/contexts/GameContext.tsx:160 | every round with the target number gets the new wager list and nothing else changes; other rounds are kept |
| Protocol.HostInvestment | src/app/contexts/GameContext.tsx:151-165 | a wager for an existing round is upserted into that round and broadcast; for a missing round nothing happens |
| Protocol.HostReady | src/app/contexts/GameContext.tsx:166-180 | a player not yet ready is appended to the round's ready list and broadcast; a repeated or empty id, or a missing round, changes nothing |
| Protocol.Receive | src/app/contexts/GameContext.tsx:103-180 | guests react only to state broadcasts, hosts never to them, guests send nothing back, and hosts only ever answer with their own state |
| Protocol.OnSubscribed | src/app/contexts/GameContext.tsx:181-186 | once subscribed, a host broadcasts its state and a guest stays silent |
| Protocol.GuestAdoptsFullSnapshot | src/app/contexts/GameContext.tsx:103-110 | a guest that receives a full snapshot holds exactly the host's state |
| Protocol.LastDeliveredSnapshotWins | src/app/contexts/GameContext.tsx:103-110 | an older snapshot delivered after a newer one overwrites it, because timestamps are not compared |
| Protocol.DuplicateSnapshotHarmless | src/app/contexts/GameContext.tsx:103-110 | receiving the same snapshot twice changes nothing the second time |
| Protocol.GuestPatchMatchesHost | src/app/contexts/GameContext.tsx:126-134 | a guest's round update sends one request, and the host applying it reaches the state the guest computed |
| Protocol.GuestRequestsMatchHost | src/app/contexts/GameContext.tsx:135-150 | the same agreement holds for phase requests and combined round-and-phase requests |
| Protocol.JoinIsIdempotent | src/app/contexts/GameContext.tsx:113-117 | a repeated join announcement does not add the player twice |
| Protocol.ReadyIsIdempotent | src/app/contexts/GameContext.tsx:173 | a repeated ready signal is ignored, and no ready list ever holds an id twice |
| Protocol.ReceiveInvestment | src/app/contexts/GameContext.tsx:151-165 | a host's handling of a wager message is the wager upsert |
| Protocol.ReceiveReady | src/app/contexts/GameContext.tsx:166-180 | a host's handling of a ready message is the ready-list append |
| Protocol.HostReadyTwice | src/app/contexts/GameContext.tsx:172-177 | appending the same ready id twice leaves the state of once and keeps every ready list free of duplicates |
| Protocol.InvestmentResubmitKeepsSecond | src/app/contexts/GameContext.tsx:157-160 | two wager messages by one investor leave the host where the second alone would |
| Protocol.HostKeepsIdentitiesUnique | src/app/contexts/GameContext.tsx:111-180 | no message makes two players share an id or two rounds share a number on the host |
| Protocol.HostKeepsInvestorsUnique | src/app/contexts/GameContext.tsx:151-165 | no wager message gives an investor two wagers in one round |
| Roles.Company | src/app/contexts/GameContext.tsx:307-317 | the company is the current round's, or, with no current round, the player at the rotation slot, with the name '---' when unknown |
| Roles.IsCompany | src/app/contexts/GameContext.tsx:319-321 | on one device the holder is the company during topic selection and curve drawing; online exactly the participant whose id is the company's |
| Roles.AtMostOneCompany | src/app/contexts/GameContext.tsx:319-321 | online, no two players of a roster with distinct ids both count as the company |
| Roles.AddedRoundNamesRotationCompany | src/app/contexts/GameContext.tsx:201-222 | right after a round is added, the player at the rotation slot is the company |
| Roles.MaxAge | src/app/components/InvestmentPhase.tsx:17-19 | the axis ends at the age of the current round's company, or at 100 when there is no current round, the company is not in the roster, or its age is 0 |
| Roles.MaxAgeIsCompanyAge | src/app/components/InvestmentPhase.tsx:17-19 | the axis end is the age of the player the context names as company (100 when absent or aged 0), and it is at least 1 on a roster of non-negative ages |
| Roles.Investors | src/app/components/InvestmentPhase.tsx:20 | the investors are the roster filtered by the current company's id, or the whole roster when there is no current round |
| Roles.InvestorsKeepRosterOrder | src/app/components/InvestmentPhase.tsx:20 | on a roster `a + [company] + b` the investors are exactly `a + b`, in roster order, which fixes whose turn each index is |
| Roles.FilterOut | src/app/components/InvestmentPhase.tsx:20 | filtering keeps exactly the players whose id differs |
| Roles.FilterOutAppend | src/app/components/InvestmentPhase.tsx:20 | the filter of a concatenation is the concatenation of the filters, so order and multiplicity are kept |
| Roles.FilterOutSingle | src/app/components/InvestmentPhase.tsx:20 | one player stays exactly when the id is not theirs |
| Roles.FilterOutKeepsIdsUnique | src/app/components/InvestmentPhase.tsx:20 | filtering a roster of distinct ids leaves distinct ids |
| Roles.FilterOutRemovesOne | src/app/components/InvestmentPhase.tsx:20 | with distinct ids, excluding the company removes exactly one player |
| Seqs.FirstIndex | src/app/components/GraphCreation.tsx:23 | the first position satisfying the test, or -1 exactly when none does |
| Seqs.Find | src/app/contexts/GameContext.tsx:340 | an element is found exactly when one satisfies the test, and the found element satisfies it |
| Seqs.RemoveAt | src/app/components/GraphCreation.tsx:28 | removing a valid position shifts later elements down by one, and an invalid position changes nothing |
| Sorting.InsertByKey | src/app/components/GraphCreation.tsx:40 | inserting into a sorted list keeps it sorted and adds exactly the one element |
| Sorting.SortByKey | src/app/components/GraphCreation.tsx:33 | the result is sorted by key and is a permutation of the input |
| Sorting.SortSortedIsIdentity | src/app/components/GraphCreation.tsx:33 | sorting an already sorted list leaves it as it is, because the sort is stable |
| Sorting.SortAppendIsInsert | src/app/components/GraphCreation.tsx:40 | sorting a sorted list with one element appended is inserting that element |
| Sorting.SortIsStable | src/app/components/GraphCreation.tsx:33 | the sort is stable: for every key, the elements carrying it come out in the order they went in |
| Sorting.InsertKeepsStrict | src/app/components/GraphCreation.tsx:39-40 | inserting a fresh key into a strictly ordered list keeps it strictly ordered |
| Text.TrimStart | src/app/components/GameSetup.tsx:69 | the result is the suffix left after leading white space is removed, and it does not start with white space |
| Text.TrimEnd | src/app/components/GameSetup.tsx:69 | the result is the prefix left after trailing white space is removed, and it does not end with white space |
| Text.Trim | src/app/components/GameSetup.tsx:69 | a trimmed text has no white space at either end, and it is empty exactly when the input was all white space |
| Text.TrimKeepsInnerRun | src/app/components/GameSetup.tsx:68 | the trimmed text is the run of the input that starts right after its leading white space, and everything before and after that run is white space |
| Text.TrimIdempotent | src/app/components/GameSetup.tsx:69 | trimming twice is trimming once |
| Text.ToUpperAscii | src/app/components/GameSetup.tsx:126 | upper-casing leaves no lower-case ASCII letter, keeps the length, and keeps every other character |
| Text.UpperIdempotent | src/app/components/GameSetup.tsx:126 | upper-casing twice is upper-casing once |
| Text.Show | src/app/components/GameSetup.tsx:78 | a number is written as decimal digits without a leading zero |
| Text.ParseShow | src/app/components/GameSetup.tsx:78 | reading back the digits of a number gives the number |
| Text.ShowInjective | src/app/components/GameSetup.tsx:78 | different numbers are written differently, so `player-i` ids are distinct |
| Text.PadStart | src/app/components/QuestionPhase.tsx:61 | padding reaches the width with the fill character in front and keeps the text at the end |
| Text.DigitPrefixLength | src/app/components/GameSetup.tsx:80 | the length of the longest leading run of digits |
| Text.ParseInt | src/app/components/GameSetup.tsx:80 | `parseInt` reads nothing exactly when, after white space and a sign, no digit follows |
| Text.ParseIntReads | src/app/components/GameSetup.tsx:80 | `parseInt` of white space, an optional sign, leading zeros, the digits of n and a tail that does not start with a digit is n, negated exactly when the sign is a minus |
| Text.ParseIntShow | src/app/components/GameSetup.tsx:80 | `parseInt` of a written number gives that number back |
| Lobby.AddSlot | src/app/components/GameSetup.tsx:41-46 | "add player" appends a blank slot while there are fewer than twenty, and otherwise does nothing |
| Lobby.RemoveSlot | src/app/components/GameSetup.tsx:48-53 | "remove" drops the slot at that position while there are more than two slots, and otherwise does nothing |
| Lobby.Entries | src/app/components/GameSetup.tsx:68-70 | every entry has a non-blank trimmed name and a non-empty age |
| Lobby.EntriesOneSlot | src/app/components/GameSetup.tsx:68-70 | one slot enters as (trimmed name, age) exactly when the trimmed name and the age are both non-empty |
| Lobby.EntriesAppend | src/app/components/GameSetup.tsx:68-70 | slots are read in order and independently: the entries of two runs of slots are the first run's followed by the second's |
| Lobby.FilledSlotsAllEnter | src/app/components/GameSetup.tsx:68-70 | when every slot is filled in, slot k becomes entry k as its trimmed name and age |
| Lobby.Roster | src/app/components/GameSetup.tsx:77-83 | local players get the id `player-i`, the starting balance of 10000 and the palette colour by position, and the age `parseInt` reads |
| Lobby.RosterIdsUnique | src/app/components/GameSetup.tsx:78 | local player ids are pairwise distinct |
| Lobby.StartLocalGame | src/app/components/GameSetup.tsx:67-88 | with fewer than two entries nothing happens; otherwise the roster is set and topic selection starts |
| Lobby.LocalGameRoster | src/app/components/GameSetup.tsx:67-88 | a started local game has at least two players with distinct ids, non-empty names, full balances and colours in palette order |
| Lobby.CreateRoom | src/app/components/GameSetup.tsx:91-115 | without a name or an age nothing happens; otherwise the participant hosts the room and is its only player, with the first colour |
| Lobby.JoinRoom | src/app/components/GameSetup.tsx:117-131 | without a name, an age or a code nothing happens; otherwise the participant is a guest of the upper-cased room code |
| Lobby.AnnounceJoin | src/app/components/GameSetup.tsx:134-149 | a joined online guest with an id announces itself with a placeholder colour; nobody else sends anything |
| Lobby.StartOnlineGame | src/app/components/GameSetup.tsx:158-166 | with fewer than two players nothing happens; otherwise topic selection starts and the host broadcasts it twice |
| Lobby.OneGuestMakesAGame | src/app/components/GameSetup.tsx:91-166 | a created room joined by one guest with another id holds two players, with the guest second in the second colour, and can start |
| Screens.ScreenFor | src/app/components/GamePlay.tsx:53-60 | every phase except setup shows exactly one screen |
| Screens.PhaseOf | src/app/components/GamePlay.tsx:53-60 | every screen belongs to a phase of play |
| Screens.ScreensMatchPhases | src/app/components/GamePlay.tsx:53-60 | phases of play and screens correspond one to one |
| Screens.FirstRound | src/app/components/GamePlay.tsx:25-44 | round 1 names the first player as the company and starts blank |
| Screens.InitFirstRound | src/app/components/GamePlay.tsx:16-47 | the controller adds round 1 exactly at the start of topic selection with a non-empty roster, and otherwise nothing happens |
| Screens.FirstRoundCreatedOnce | src/app/components/GamePlay.tsx:16-47 | after round 1 is added, the first player is the company and a second run adds nothing |
| TopicPicker.DefaultTopicsShape | src/app/components/TopicSelection.tsx:7-17 | the roulette has forty non-empty topics |
| TopicPicker.Spin | src/app/components/TopicSelection.tsx:105-144 | only an unlocked company spins; a typed topic settles at once, and otherwise the online roulette starts with a preselected topic |
| TopicPicker.Settle | src/app/components/TopicSelection.tsx:85-100 | the roulette lands on the target, or on a random topic when there is none, and the online company publishes it |
| TopicPicker.SettledTopicShownEverywhere | src/app/components/TopicSelection.tsx:85-100 | after the online company's roulette settles, every viewer that is not animating shows and selects the topic the company's screen shows |
| TopicPicker.Follow | src/app/components/TopicSelection.tsx:51-72 | online, a spinning shared roulette starts the viewer's spin, and a settled one sets the displayed topic and the selection from its non-empty display and final topics; on one device the round's topic is shown when nothing is displayed yet; a spinning viewer or a missing round changes nothing |
| TopicPicker.ChosenTopic | src/app/components/TopicSelection.tsx:149 | the typed topic, trimmed, wins over the roulette's |
| TopicPicker.Confirm | src/app/components/TopicSelection.tsx:146-173 | only the company confirms, and only with a topic; the round then takes the topic locked and curve drawing starts |
| TopicPicker.ConfirmLocksTopic | src/app/components/TopicSelection.tsx:108-112 | after confirmation the topic is stored and locked, and further spins change nothing |
| TopicPicker.ConfirmedTopicShownEverywhere | src/app/components/TopicSelection.tsx:62-65 | every online viewer not spinning shows the confirmed topic |
| CurveEditor.PointAt | src/app/components/GraphCreation.tsx:23 | the position of the draft point at an age, or -1 exactly when there is none |
| CurveEditor.Click | src/app/components/GraphCreation.tsx:21-45 | only the company edits; a click near a point's score removes it, one further away moves it, and a new age adds a point up to ten and otherwise shows the limit message |
| CurveEditor.ClickInPlace | src/app/components/GraphCreation.tsx:25-36 | on a valid draft a move changes only that point's score in place, and a removal leaves no point at that age |
| CurveEditor.RemoveClearsAge | src/app/components/GraphCreation.tsx:28 | removing a point leaves no point at its age |
| CurveEditor.RemoveKeepsStrict | src/app/components/GraphCreation.tsx:28 | removal keeps the ages strictly increasing |
| CurveEditor.AddKeepsStrict | src/app/components/GraphCreation.tsx:39-40 | adding a point at a new age keeps the ages strictly increasing |
| CurveEditor.MoveKeepsStrict | src/app/components/GraphCreation.tsx:31-33 | changing a point's score keeps the ages strictly increasing |
| CurveEditor.ClickKeepsValid | src/app/components/GraphCreation.tsx:21-45 | every click keeps the draft ordered by age, with no age twice and at most ten points |
| CurveEditor.MaxScore | src/app/components/GraphCreation.tsx:60 | the largest score of the draft |
| CurveEditor.MinScore | src/app/components/GraphCreation.tsx:61 | the smallest score of the draft |
| CurveEditor.Validate | src/app/components/GraphCreation.tsx:47-65 | a curve is accepted exactly when it has points at 0 and at the company's age, at least five points, and a swing of at least 50, and the first failing check is the one reported |
| CurveEditor.Submit | src/app/components/GraphCreation.tsx:50-82 | a rejected curve only shows its message; an accepted one becomes the round's completed curve and the questions start |
| CurveEditor.AcceptedCurveSpansAxis | src/app/components/GraphCreation.tsx:47-58 | an accepted draft starts at age 0, ends at the company's age, and has five to ten points |
| CurveEditor.SubmitInstallsCurve | src/app/components/GraphCreation.tsx:66-81 | after submission the current round holds the drafted curve marked complete, and the phase is the questions |
| Interpolation.Scan | src/app/components/ResultsPhase.tsx:14-15 | the scan stops at the last anchor whose age is not past the target |
| Interpolation.ScanFindsSegment | src/app/components/ResultsPhase.tsx:14-15 | on ordered anchors the scan finds the segment containing the age |
| Interpolation.Lerp | src/app/components/ResultsPhase.tsx:18-19 | the interpolated score stays between the segment's scores and meets them at its ends |
| Interpolation.TableValue | src/app/components/ResultsPhase.tsx:11-12 | before the first anchor the table holds the first score, and after the last anchor the last score |
| Interpolation.InterpolateGraph | src/app/components/ResultsPhase.tsx:7-24 | the table covers exactly the ages 0 to the maximum age, and is flat outside the anchors |
| Interpolation.TableHitsAnchors | src/app/components/ResultsPhase.tsx:16 | the table passes through every anchor |
| Interpolation.TableBetweenAnchors | src/app/components/ResultsPhase.tsx:17-19 | between two anchors the table is their rounded linear interpolation, bounded by their scores |
| Interpolation.SortedPoints | src/app/components/LifeGraph.tsx:142 | the chart's points are the anchors ordered by age |
| Interpolation.InterpolateScore | src/app/components/LifeGraph.tsx:156-168 | the chart reads 0 with fewer than two points, the end scores outside the anchors, and the segment's interpolation inside |
| Interpolation.GraphAgreesWithTable | src/app/components/LifeGraph.tsx:156-168 | on a drawn curve the chart and the results table give the same score at every age on the axis |
| Interpolation.CurveExample | src/app/components/ResultsPhase.tsx:7-24 | the curve (0,50), (40,80), (100,20) reads 80 at age 40, 65 at age 20 and 50 at age 70, in the results table and on the chart alike |
| Interpolation.ClampClick | src/app/components/LifeGraph.tsx:73-74 | a click is clamped onto the chart: ages to [0, maxAge], scores to [0, 100], and inside values are kept |
| Interpolation.LabelInterval | src/app/components/LifeGraph.tsx:97-101 | axis labels step by 1 up to age 30, by 5 up to 60, and by 10 beyond |
| Interpolation.LabelsCoverAxis | src/app/components/LifeGraph.tsx:215-216 | both axis ends are labelled, and every age has a label within one step at or after it |
| QuestionClock.InitialClock | src/app/components/QuestionPhase.tsx:11-12 | the clock starts stopped, at the round's shared value or at 180 seconds |
| QuestionClock.Tick | src/app/components/QuestionPhase.tsx:30 | a tick counts down by one and never goes below zero |
| QuestionClock.TickNCounts | src/app/components/QuestionPhase.tsx:29-31 | after n ticks a clock started at t shows max(t - n, 0) |
| QuestionClock.Mirror | src/app/components/QuestionPhase.tsx:35-39 | a running online host writes the clock into the round; nobody else writes it |
| QuestionClock.TickStep | src/app/components/QuestionPhase.tsx:27-39 | only a running controller's clock ticks, and the host then shares it |
| QuestionClock.GuestShowsHostClock | src/app/components/QuestionPhase.tsx:20-39 | after a host tick a guest shows the host's remaining time |
| QuestionClock.GuestAdopt | src/app/components/QuestionPhase.tsx:20-25 | an online guest adopts the shared value and starts running once it is below 180 |
| QuestionClock.StartTimer | src/app/components/QuestionPhase.tsx:41-46 | starting runs the clock, and an online host resets the shared value to 180 |
| QuestionClock.FinishQuestions | src/app/components/QuestionPhase.tsx:48-56 | only the controller ends the questions, moving to investing |
| QuestionClock.FormatTime | src/app/components/QuestionPhase.tsx:58-62 | the display is the minutes, a colon, and two digits of the remaining seconds |
| QuestionClock.FormatTimeRoundTrip | src/app/components/QuestionPhase.tsx:58-62 | reading the display back gives the number of seconds |
| InvestmentDesk.Check | src/app/components/InvestmentPhase.tsx:46-81 | a wager passes exactly when both ages are numbers within [0, maxAge] that differ and the stake is positive and covered; each error is reported exactly when every earlier check passes and its own fails, in the order ages present, ages numeric, stake positive, stake covered, ages in range, ages different |
| InvestmentDesk.ShortPositionAccepted | src/app/components/InvestmentPhase.tsx:74-81 | selling at an earlier age than buying is allowed |
| Scoring.AcceptedWagerIsSettleable | src/app/components/InvestmentPhase.tsx:46-81 | an accepted wager's ages are on the results table's axis, and no payout can take the checked balance below zero |
| InvestmentDesk.Submit | src/app/components/InvestmentPhase.tsx:42-120 | a rejected form changes nothing; the host upserts its own wager, a guest sends it, and on one device the turns advance until the last investor writes all wagers and opens the reveal |
| InvestmentDesk.RejectedSubmissionIsSilent | src/app/components/InvestmentPhase.tsx:50-81 | a rejected submission changes nothing and sends nothing |
| InvestmentDesk.GuestWagerMatchesHostWager | src/app/components/InvestmentPhase.tsx:90-105 | a guest's wager reaches the host's state that the host's own submission for that player would |
| InvestmentDesk.AutoAdvance | src/app/components/InvestmentPhase.tsx:122-131 | the host opens the reveal exactly when there is at least one investor and the round holds as many wagers as there are investors; nobody else ever does |
| InvestmentDesk.CountMeansEveryInvestorWagered | src/app/components/InvestmentPhase.tsx:124-127 | when every wager is by an investor, no investor holds two and investor ids are distinct, the counts match exactly when every investor has a wager |
| InvestmentDesk.RevealExactlyWhenEveryInvestorWagered | src/app/components/InvestmentPhase.tsx:122-131 | under those conditions the host opens the reveal exactly when there is an investor and every investor has a wager in the round |
| InvestmentDesk.LastWagerTriggersReveal | src/app/components/InvestmentPhase.tsx:122-131 | the last missing wager, once received, is recorded and the reveal follows |
| RevealControl.RevealResults | src/app/components/ResultsRevealPhase.tsx:12-20 | only the controller moves to the results; the host broadcasts it |
| RevealControl.GuestFollowsHostReveal | src/app/components/ResultsRevealPhase.tsx:12-20 | the host's reveal sends one broadcast; any online guest that receives it ends in the host's state, on the results, and a guest's own reveal does nothing |
| Scoring.PointsGained | src/app/components/ResultsPhase.tsx:50-58 | the payout is the stake times sell over buy, rounded, with scores counted as at least 1, and a falling score makes it a loss of that size |
| Scoring.PayoutMagnitude | src/app/components/ResultsPhase.tsx:55-57 | on a falling score a non-negative stake loses at most itself |
| Scoring.PayoutBounds | src/app/components/ResultsPhase.tsx:50-58 | for a stake, equal scores pay the stake, a rising score pays at least the stake, and a falling score loses at most the stake |
| Scoring.RulesExample | src/app/components/RulesScreen.tsx:99-100 | 1000 points bought at 40 and sold at 80 pay 2000 |
| Scoring.ScoreInvestment | src/app/components/ResultsPhase.tsx:49-61 | a priced wager keeps its fields and records the raw scores at its ages and its payout |
| Scoring.ScoreAll | src/app/components/ResultsPhase.tsx:49-61 | every wager is priced, in order |
| Scoring.Credit | src/app/components/ResultsPhase.tsx:68-75 | each player with a priced wager gains its payout, and the others are unchanged |
| Scoring.CreditOwnPayout | src/app/components/ResultsPhase.tsx:68-75 | with one wager per investor, a player gains exactly the payout of their own wager |
| Scoring.ScoreRound | src/app/components/ResultsPhase.tsx:36-82 | the controller prices an uncompleted round with a curve, credits balances and completes the round in one update; otherwise nothing happens |
| Scoring.ScoreRoundCompletes | src/app/components/ResultsPhase.tsx:65-82 | after scoring, the round is completed with every wager priced, and the round counter, phase and roster size are kept |
| Scoring.ScoreRoundIdempotent | src/app/components/ResultsPhase.tsx:40-45 | scoring a second time changes nothing, so a round pays out once |
| Scoring.EndToEndExample | src/app/components/ResultsPhase.tsx:48-75 | on the curve (0,50), (50,90), (100,10), 1000 points bought at age 0 and sold at 50 pay 1800, taking a balance to 11800 |
| Scoring.ShortPositionExample | src/app/components/ResultsPhase.tsx:48-58 | on that curve 1000 points bought at 80 (score 42) and sold at 0 (score 50) pay 1190 |
| Scoring.HandleNextRound | src/app/components/ResultsPhase.tsx:111-113 | the results' "next" only moves to the round summary |
| SummaryControl.NextRoundOf | src/app/components/RoundSummaryPhase.tsx:62-85 | the next round is numbered one past the round counter, has the rotation's player as the company, and starts blank |
| SummaryControl.HandleNext | src/app/components/RoundSummaryPhase.tsx:48-88 | the controller ends the game once the round counter reaches the roster size, and otherwise advances to the next round |
| SummaryControl.NextRoundCompanyIsNextPlayer | src/app/components/RoundSummaryPhase.tsx:62-87 | from round k the next round's company is player k, and topic selection starts |
| SummaryControl.GameEndsAfterEveryCompany | src/app/components/RoundSummaryPhase.tsx:57-60 | the game ends exactly when the round counter has reached the roster size, unless it had already ended |
| SummaryControl.HandleReady | src/app/components/RoundSummaryPhase.tsx:102-119 | online the host marks itself ready once and a guest tells the host; on one device "ready" is "next" |
| SummaryControl.HostReadyTwiceIsOnce | src/app/components/RoundSummaryPhase.tsx:105-110 | pressing ready twice as the host is pressing it once |
| SummaryControl.GuestReadyMatchesHostReady | src/app/components/RoundSummaryPhase.tsx:111-114 | a guest's ready signal reaches the host's state that the host's own ready for that player would |
| SummaryControl.ReadyAutoAdvance | src/app/components/RoundSummaryPhase.tsx:91-100 | the host moves on exactly when at least as many players are ready as there are players |
| Standings.Ranked | src/app/components/FinalResults.tsx:8 | the ranking is a permutation of the players, from the highest balance down |
| Standings.TiesKeepRosterOrder | src/app/components/FinalResults.tsx:8 | players with equal balances keep their roster order in the ranking |
| Standings.RankedIdempotent | src/app/components/FinalResults.tsx:8 | ranking a ranking changes nothing |
| Standings.LeaderHasMostPoints | src/app/components/FinalResults.tsx:8 | the leader has at least every player's balance |
| Standings.PodiumSlot | src/app/components/FinalResults.tsx:23 | a podium place is shown exactly when that many players exist |
| Standings.RestOfField | src/app/components/FinalResults.tsx:83-86 | players from fourth place on are listed with their places 4, 5, and so on |

## Left out

- The realtime transport: channel creation and removal, reconnection, and the effect
  cleanups. A channel is usable exactly when the session is online, in a room and subscribed.
  Messages are delivered whole, one at a time, and in the order sent. Concurrency between
  React state updates is not modelled.
- Timer delays of 50 to 500 ms before a broadcast or an announcement: a message is sent at
  once, as part of the step that schedules it.
- Randomness: room codes, generated player ids, the roulette's flicker and final pick.
  `localStorage` ids are parameters too. The roulette's pick is an index argument.
- The `timestamp` carried by broadcasts, which comes from the clock and is never read.
- Rendering: the SVG chart, animations, the reveal progress, toasts, alerts, the clipboard,
  and the error message texts. Errors are datatype constructors.
- `formatPoints` and other display-only formatting, except the question clock's text.
- The guest's display-only copy of priced wagers on the results screen
  (`calculatedInvestments`). Only the controller's scoring changes the game state.
- Per-keystroke edits of lobby names and ages: the form's content is an argument.
- Round patches carry only the fields the game ever patches, so a patch cannot renumber a
  round or change its company.
- Text.ParseInt: reads decimal digits after white space and a sign. It does not model hex
  prefixes, `Infinity`, or ages too large for a double. An age that reads nothing is stored
  as 0, which the only reader (`age || 100`) treats like JavaScript's `NaN`.
- InvestmentDesk.RevealExactlyWhenEveryInvestorWagered: assumes every wager in the round is by
  an investor. The host's `investment_submit` handler records a wager from any id, so a
  wager from a non-investor counts toward the total like any other; `AutoAdvance` models
  that count as written.
- InvestmentDesk.Check: the text fields arrive already classified as blank, not a number, or
  a whole number, which is what `Math.floor(Number(...))` produces. Decimal and exponent
  syntax, and `Infinity`, are not modelled.
- Text.ToUpperAscii: upper-cases ASCII letters only, while JavaScript's `toUpperCase` also
  maps other scripts.
- Arith.RoundDiv: exact rational rounding. JavaScript's double arithmetic can round a
  quotient that is within one ulp of a half differently.
- Scoring.PointsGained: bounds the payout of a loss only for a non-negative stake. The form
  never accepts a stake that is not positive.
- QuestionClock.FormatTime: defined for non-negative seconds, which is all the clock ever
  holds.
- SummaryControl.HandleNext: requires a non-negative round counter. The code would read
  `players[-1]` and fail for a negative one, and the round counter never becomes negative.
- CreateRoom's roster write: `setPlayers` runs in the same batch as `setIsHost`, so whether
  it broadcasts depends on React's update order. The model installs the roster without a
  message; the host's subscription broadcast follows.
- Screens outside play (start screen, rules screen, header, topic badge): they show state and
  do not change it. The rules screen's worked example is stated as `Scoring.RulesExample`.
