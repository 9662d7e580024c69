# Evil Inc. simulation core in Dafny

This project models the simulation logic of a small macroquad game. The player runs a
company ("Evil Inc.") with a stock market, a botnet, a parlament voting on laws, a news feed
and a mailbox. Every frame, each component updates itself and may queue *effects*. The frame
loop then resolves the queued effects against the market, the parlament and the news, in
order, and empties the queue.

There is one Dafny module per Rust file, except that `src/effect.rs` is split in two. `EffectResolution` also holds the effect pass of the frame loop in `src/main.rs`:

| module | Rust file | form |
|---|---|---|
| `Component` | `limit`, imported by `src/component/market.rs:2` and `src/component/botnet.rs:2` but not defined in the `src/component/mod.rs` shown | pure function |
| `Effects` | `src/effect.rs` (data, `resolve_modifier`, `clamp`) | datatypes and functions |
| `EffectResolution` | `src/effect.rs` (`resolve`), `src/main.rs` frame pass | methods over the component classes and their specification functions |
| `MarketComponent` | `src/component/market.rs` | class `Market` |
| `BotnetComponent` | `src/component/botnet.rs` | class `Botnet` |
| `ParlamentComponent` | `src/component/parlament.rs` | class `Parlament` |
| `NewsComponent` | `src/component/news.rs` | class `News` |
| `PlayerLedger` | `src/player.rs` | class `Player`, datatype `Mail` |
| `LawDraft` | `src/law.rs` | class `Parlament` (the earlier draft) |

Modelling choices:
- Rust's `f32`/`f64` is `real`.
- The frame time (`get_frame_time()`) is a method parameter.
- Each random draw is a parameter whose `requires` states the draw's range:
  - the market's price factor lies in [0.96, 1.05);
  - the bribery party is below 2;
  - each news roll lies in [0, 1);
  - the Transfer target draws are a sequence of values below the party count, consumed by the same rejection loop as the source.
- A buffer the caller owns (`&mut Vec<Effect>`, `&mut VecDeque<Event>`) is passed in as a `seq`, and its new contents are returned.
- A `VecDeque` or `Vec` field is a `seq` field that the methods reassign.
- Each stateful method states its entire new state in terms of `old(...)` and specification functions. Lemmas about those functions then state what the code promises:
  - rotation of the law queue;
  - the news compaction keeping the un-triggered events in order;
  - zero-sum popularity transfers;
  - mail ids equal to positions.

## Model

| member | source | states |
|---|---|---|
| Component.Limit | src/component/market.rs:118 | the limited frame time is at most the cap and at most the frame time, equals one of them, and is non-negative for a non-negative frame time |
| Effects.ResolveModifier | src/effect.rs:131-136 | the applied value can be read back from the old and new destination: the new value under Setter, the difference under Constant, the ratio under Multiplier (a zero destination stays zero) |
| Effects.ModifierLaws | src/effect.rs:131-136 | Setter sets the destination to the value whatever it was, Constant adds the value, Multiplier scales by the value; Constant 0 and Multiplier 1 are identities |
| Effects.ConstantUndone | src/effect.rs:131-136 | a Constant modifier followed by its negation restores the destination |
| Effects.Clamp | src/effect.rs:91-117 | the clamped value lies in [lo, hi], is the value itself inside the range and the nearer bound outside it |
| NewsComponent.NewEvent | src/component/news.rs:22-29 | a new event has the given source and description, no effects and chance 0 |
| NewsComponent.Fires | src/component/news.rs:66 | with a roll in [0, 1), an event of chance at least 1 always fires and one of chance at most 0 never does |
| NewsComponent.FiredEffects | src/component/news.rs:68-70 | a round where no event fires queues nothing, and every queued effect belongs to an event that fired |
| NewsComponent.FiredIndices | src/component/news.rs:67 | at most one index per event, the first no lower than the offset and the last inside the pool |
| NewsComponent.FiredIndicesValid | src/component/news.rs:65-67 | the recorded indices are strictly ascending, lie inside the pool and are positions of events that fire |
| NewsComponent.RemoveAt | src/component/news.rs:77 | removing an existing position shortens the deque by one and shifts the later elements down by one; any other position changes nothing |
| NewsComponent.Fired | src/component/news.rs:65-72 | the triggered events, in `available` order, are no more than the available ones |
| NewsComponent.Kept | src/component/news.rs:76-79 | the events left in `available` are no more than before |
| NewsComponent.Reverse | src/component/news.rs:71 | repeated push_front reverses the order and keeps the length |
| NewsComponent.ReverseAt | src/component/news.rs:71 | element k of the reversal is element n-1-k of the input |
| NewsComponent.RemoveShifted | src/component/news.rs:75-79 | the compaction loop as a fold: each recorded index removes at most one element, so between `|s| - |indices|` and `|s|` elements remain; `CompactionKeepsUnfired` says which |
| NewsComponent.CompactionKeepsUnfired | src/component/news.rs:75-79 | removing the ascending triggered indices one by one, index minus the number already removed, leaves exactly the un-triggered events in their original order |
| NewsComponent.FiredKeptPartition | src/component/news.rs:63-79 | triggered and kept events split `available`: lengths add up and multisets add up |
| NewsComponent.KeptNeverFired | src/component/news.rs:63-79 | as many indices as triggered events are recorded; no trigger keeps everything; all triggers fire everything and keep nothing |
| NewsComponent.FiredIndicesCount | src/component/news.rs:67 | one index is recorded per triggered event |
| NewsComponent.ScanStep | src/component/news.rs:65-74 | one iteration of the trigger scan: the event at i contributes its index, its effects and its push_front exactly when its roll is below its chance |
| NewsComponent.Push | src/component/news.rs:68-70 | pushing an event's effects appends them, in order, after the existing ones |
| NewsComponent.News.constructor | src/component/news.rs:40-43 | the feed holds exactly the decoded `available`, `current` and real time |
| NewsComponent.News.Update | src/component/news.rs:60-82 | the raw frame time is added; below 1 nothing else changes; otherwise real time drops by exactly 1, `available` keeps the un-triggered events in order, `current` gets the triggered events newest first ahead of the old `current`, and the triggered events' effects are appended in order |
| NewsComponent.News.Trigger | src/component/news.rs:63-74 | the scan records the triggered indices, pushes the triggered events to the front of `current` and appends their effects |
| NewsComponent.News.RemoveTriggered | src/component/news.rs:75-79 | the removal loop leaves `available` equal to the kept events |
| NewsComponent.News.RemoveAll | src/component/news.rs:75-79 | the loop removes position `index - i` for the i-th recorded index, one after the other |
| NewsComponent.TickMovesFiredEvents | src/component/news.rs:63-80 | k triggered events: `available` shrinks by k and `current` grows by k |
| NewsComponent.NewestFirst | src/component/news.rs:71 | the last triggered event is at the front of `current`, and the old `current` follows unchanged (no length cap) |
| NewsComponent.CertainEventFires | src/component/news.rs:66 | an event with chance 1 always triggers, is removed and queues all its effects |
| MarketComponent.ShiftIn | src/component/market.rs:122-126 | push_back then pop_front keeps the history length, drops the oldest entry and appends the new one |
| MarketComponent.PriceWalkBounds | src/component/market.rs:123 | a factor drawn from [0.96, 1.05) keeps the new price between 0.96 and 1.05 times the old one |
| MarketComponent.Market.constructor | src/component/market.rs:20-31 | money 250, price 10, both timers 0, the 30-entry starting history, hidden |
| MarketComponent.Market.Update | src/component/market.rs:117-133 | both timers gain the limited frame time; a trading step (time at least 1) appends the old price, drops the oldest, multiplies the price by the factor and takes exactly 1 off the timer; at an income time of at least 24 money gains 0.1 times the new price and the income time drops by exactly 50; the history length never changes |
| MarketComponent.FirstTrade | src/component/market.rs:117-133 | one second after start the market still has 30 prices, the newest is 10, the price is in [9.6, 10.5) and money is still 250 |
| BotnetComponent.SharesSumToCapacity | src/component/botnet.rs:106-107 | when some slider is positive, the total usage is positive and the four slider shares over it add up to the capacity |
| BotnetComponent.TotalUsage | src/component/botnet.rs:106-107 | the total usage times the capacity is the slider sum; with non-negative sliders it is positive exactly when some slider is |
| BotnetComponent.Amount | src/component/botnet.rs:110-135 | an amount times the total usage is the slider's rate over the frame |
| BotnetComponent.PositiveAmount | src/component/botnet.rs:110-135 | a positive slider over a positive total, rate and frame time gives a positive amount |
| BotnetComponent.QueuedValuesPositive | src/component/botnet.rs:113-135 | on a frame of positive length every queued effect carries a positive value |
| BotnetComponent.QueuedEffects | src/component/botnet.rs:113-135 | one effect per slider above zero, so 0 to 3 effects; none at all when memes, crypto mining and bribery are zero |
| BotnetComponent.QueuedEffectKinds | src/component/botnet.rs:113-135 | a Transfer is queued iff memes > 0, a Money effect iff crypto mining > 0, an Approval iff bribery > 0; all are Constant with non-negative values; no Popularity effect or event; the Transfer names party 3 and the Approval a party below 2, never 3 |
| BotnetComponent.NonNegativeValue | src/component/botnet.rs:113-135 | one amount `slider / total_usage * rate * frame_time` is non-negative for a non-negative slider, rate and frame time over a positive total usage |
| BotnetComponent.GrowthSign | src/component/botnet.rs:110-112 | the malware growth is non-negative, and positive for a positive frame time |
| BotnetComponent.Botnet.constructor | src/component/botnet.rs:32-43 | capacity 1, all sliders 0, all flags false |
| BotnetComponent.Botnet.SetSliders | src/component/botnet.rs:88-97 | the crypto mining slider always takes the chosen value; the bribery, memes and malware sliders take theirs only while shown and keep their old value while hidden |
| BotnetComponent.Botnet.SendSpammail | src/component/botnet.rs:99-100 | the Spammail button adds exactly 1 to the capacity |
| BotnetComponent.Botnet.Update | src/component/botnet.rs:105-136 | the total usage is computed once from the old capacity; capacity grows by the malware share times 0.001 times the limited frame time when malware > 0 and is unchanged otherwise, never drops; the existing effects are kept and the memes, crypto and bribery effects are appended in that order |
| ParlamentComponent.SupportSum | src/component/parlament.rs:32-37 | a law that no party supports gets no votes |
| ParlamentComponent.TotalPopularityUpdate | src/component/parlament.rs:13-17 | replacing one party changes the total popularity by that party's difference only |
| ParlamentComponent.SupportBounds | src/component/parlament.rs:32-37 | with non-negative popularities the votes lie between 0 and the total popularity |
| ParlamentComponent.UnanimousSupport | src/component/parlament.rs:32-37 | when every party reaches the required approval the votes are the total popularity |
| ParlamentComponent.SupportAntitone | src/component/parlament.rs:32-37 | with non-negative popularities, a higher required approval never gets more votes (popularity is not clamped, so a Popularity effect can make it negative and break this) |
| ParlamentComponent.CountVotes | src/component/parlament.rs:32-37 | the tally loop sums the popularity of exactly the parties whose approval reaches the law's required approval |
| ParlamentComponent.Rotate | src/component/parlament.rs:43-44 | push_back of the front then pop_front keeps the length and the multiset of laws, moves the front law to the back and shifts the rest forward |
| ParlamentComponent.RotateTimes | src/component/parlament.rs:43-44 | passing laws repeatedly keeps the length |
| ParlamentComponent.RotateSplit | src/component/parlament.rs:43-44 | one more pass moves the split point of a rotated queue by one |
| ParlamentComponent.RotateTimesFrom | src/component/parlament.rs:43-44 | k passes from a split at j give the split at j+k |
| ParlamentComponent.RotateTimesSplits | src/component/parlament.rs:43-44 | k passes put laws k.. in front of laws ..k; as many passes as laws restore the queue |
| ParlamentComponent.PassedEvent | src/component/parlament.rs:39-42 | the "passed" news comes from the Muchekipchen Watcher, has no effects and chance 0, and quotes the law's title |
| ParlamentComponent.RejectedEvent | src/component/parlament.rs:46-49 | the "rejected" news has the same source, no effects, chance 0, quotes the title, and differs from the "passed" news |
| ParlamentComponent.Parlament.constructor | src/component/parlament.rs:20-25 | the parlament holds exactly the given parties, voting time and law queues |
| ParlamentComponent.Parlament.Update | src/component/parlament.rs:28-55 | below the round time only the raw frame time is added; at resolution a non-empty law queue is needed, the front law is passed (rotated to the back) when the votes exceed 0.5 and left at the front otherwise, exactly one event is pushed to the front of the news, and the voting time drops by 20 before gaining the frame time; parties and passed laws never change |
| EffectResolution.FirstOther | src/effect.rs:104-108 | the rejection loop's result differs from the source party and is the first draw that does |
| EffectResolution.PickTarget | src/effect.rs:104-108 | the target loop returns an existing party other than the source, the first draw that is not the source |
| EffectResolution.ResolveApproval | src/effect.rs:85-92 | the named party's approval is in [0, 1] and equals the modified value when that is in range; its popularity and every other party are unchanged |
| EffectResolution.ResolvePopularity | src/effect.rs:93-99 | the named party's popularity gets the modifier with no clamping; its approval and every other party are unchanged |
| EffectResolution.ResolveTransfer | src/effect.rs:103-123 | the target's new popularity is in [0, 1]; the source receives, through the same modifier, exactly old minus new of the target; approvals and every other party are unchanged |
| EffectResolution.TransferConserves | src/effect.rs:115-123 | a Constant transfer: the source gains exactly the target's loss, the pair's sum and the parlament's total popularity are unchanged |
| EffectResolution.TransferMovesWhatTargetHas | src/effect.rs:111-123 | a Constant transfer of a non-negative amount from a target with popularity in [0, 1] moves the amount, or all the target has if that is less |
| EffectResolution.TransferByModifier | src/effect.rs:111-123 | under Setter the target gets clamp(-value) and the source gets the difference; under Multiplier the target gets clamp(old times -value) |
| EffectResolution.PartiesAfter | src/effect.rs:79-127 | a parlament effect keeps the number of parties |
| EffectResolution.LoneTransferIsNoop | src/effect.rs:100-102 | a transfer in a parlament of fewer than two parties changes nothing |
| EffectResolution.TransferTargetIsOther | src/effect.rs:103-110 | the chosen target is never the source and is an existing party |
| EffectResolution.Resolve | src/effect.rs:56-129 | CreateEvent pushes one new event to the front of `news.current`; a market effect changes only money (Money) or only price (Price) through the modifier; a parlament effect changes only the parties, as the functions above say; `news.available` is never touched |
| EffectResolution.AllResolvableTail | src/main.rs:61-63 | the conditions for resolving a queue hold for its first effect and for the rest |
| EffectResolution.MarketAfter | src/main.rs:61-63 | a queue with no effect on money (or price) leaves it unchanged |
| EffectResolution.CreatedAfter | src/main.rs:61-63 | resolving a queue only adds events in front of `news.current` and keeps the old ones behind them |
| EffectResolution.PartiesAfterAll | src/main.rs:61-63 | resolving a queue keeps the number of parties |
| EffectResolution.StepKeepsTotal | src/effect.rs:85-123 | an Approval or Constant Transfer effect leaves the total popularity unchanged |
| EffectResolution.AllKeepTotal | src/main.rs:61-63 | a queue with only such effects leaves the total popularity unchanged |
| EffectResolution.BotnetKeepsTotalPopularity | src/component/botnet.rs:113-135 | the botnet's effects of one frame, once resolved, never change the parlament's total popularity |
| EffectResolution.ResolveNext | src/main.rs:61-63 | resolving the next queued effect advances the news, money, price and party folds by exactly that effect |
| EffectResolution.ResolveAll | src/main.rs:61-64 | each queued effect is resolved in order, and the queue is then empty |
| PlayerLedger.NewMail | src/player.rs:11-25 | a new mail has id 0, and the getters return its author and message |
| PlayerLedger.GetAuthor | src/player.rs:19-21 | the author, together with the mail's id and message, makes up the whole mail |
| PlayerLedger.GetMessage | src/player.rs:23-25 | the message, together with the mail's id and author, makes up the whole mail |
| PlayerLedger.Player.constructor | src/player.rs:35-40 | a new player has no mails and no money |
| PlayerLedger.Player.Income | src/player.rs:42-44 | income adds exactly the value to the money; afterwards an amount is affordable exactly when it was affordable after subtracting the income, and a non-negative income keeps every affordable amount affordable |
| PlayerLedger.Player.CanBuy | src/player.rs:46-48 | the player can buy exactly when the money covers the value; its partner is `Income`, whose contract says how income changes what is affordable |
| PlayerLedger.Player.AddMail | src/player.rs:50-53 | the mail is appended with id equal to the previous mailbox size; earlier mails and money are unchanged; ids keep matching positions |
| PlayerLedger.Player.FetchMails | src/player.rs:55-57 | the mailbox as stored, mail i carrying id i |
| PlayerLedger.IdsAreUnique | src/player.rs:50-53 | in a valid mailbox two mails with the same id are the same mail |
| LawDraft.Parlament.constructor | src/law.rs:17-22 | the draft parlament holds exactly the given parties, law queues and voting time |
| LawDraft.Parlament.Tally | src/law.rs:75-80 | the draft counts the popularity of parties with approval at least 0.5, whatever the law; with non-negative popularities it lies between 0 and the total |
| LawDraft.Parlament.Update | src/law.rs:72-88 | once the voting time reaches 60 it drops by 60; the frame time is always added; nothing else changes because the pass branch is empty |

## Left out

- Rendering (`draw_on` in every component and in `src/law.rs`), the UI skins, the shaders and the window and camera code of `src/main.rs` have no behaviour to state.
- `wrap` (`src/component/mod.rs`) depends on the font metrics of `measure_text`, and is not part of this model.
- These are I/O and are not modelled: loading `News` from `assets/news.json`, loading the Spammail sound in `Botnet::new`, playing it with `play_sound_once` when the Spammail button is pressed, and the serde encodings.
- `rand::gen_range` and `get_frame_time` are engine calls. Their values are parameters.
- `clamp` comes from macroquad, which is not part of this model. It is taken as the usual clamp to `[lo, hi]` (`Effects.Clamp`).
- `limit` is imported from the component module, but its body is not one of the files modelled. It is taken as `min(dt, 5.0)` (`Component.Limit`).
- `f32`/`f64` rounding, NaN and infinities: the model uses exact reals.
- `Parlament::new` (awaited in `src/main.rs`) is not one of the files modelled, and `src/law.rs` shows no constructor. Both `Parlament` classes therefore get a constructor that takes every field, as a struct literal over their public fields would.
- `Rc<Effect>` is a plain value. The `update` signatures are modelled as follows:
  - botnet (`Vec<Rc<Effect>>`) and news (`Vec<Effect>`) take the effect queue as a `seq` and return its new contents;
  - market drops its unused `_effects` parameter;
  - `ParlamentComponent.Parlament.Update` takes the news deque (`&mut VecDeque<Event>`) as a `seq` and returns its new contents;
  - `LawDraft.Parlament.Update` takes only the frame time, as `update(&mut self)` reads it from the engine.
- `src/main.rs:59` hands the effect queue to a `Parlament::update` that takes the news deque, so the frame loop does not type-check as written. `ResolveAll` models only lines 61-64 (resolve every effect in order, then clear). The component updates before it are modelled one by one.
- `MarketComponent.Market.Update` ignores the effect queue, because `Market::update` ignores its `_effects` parameter.
- `Parlament::update` and `News::update` add the raw frame time, with no 5-second cap.
- `News::update` puts no length cap on `current`.
- Laws' publicity is never aged or sorted.
- `passed_laws` is never used, and a passed law's effects are never queued.
- `CreateLaw`, `ShowComponent` and `ChangeState` effects: none of these exists in the modelled code.
- `VecDeque::remove` returning `None`, and `index - i` underflowing, cannot happen in `News::update`. `NewsComponent.RemoveAt` still models the out-of-range case as no change.
- `BotnetComponent.Amount` returns 0 when the total usage is 0. The source would divide by zero there, but it only computes an amount when that slider is above zero, so the total is positive. The guard is never taken on a path the source reaches.
- `ParlamentComponent.Party` has no `color` field (it is used only for drawing). `src/law.rs`'s party type is modelled by the same datatype.
- `EffectResolution.ResolveAll` requires `CanResolve` of each effect: every named party must exist, and every transfer's draws must eventually hit another party. The source panics on a missing party (`expect`) and loops forever when the draws never leave the source.
- `expect` panics are modelled as preconditions:
  - an empty law queue at resolution;
  - a missing party.
- The market history's `pop_front().expect` cannot panic: it always follows a `push_back`, so the deque is never empty there. `MarketComponent.ShiftIn` therefore needs no precondition.
