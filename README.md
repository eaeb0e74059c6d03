# Rockyflow mining bot: record store and session state machine

This project models the game logic of the Rockyflow Discord bot (`bot.py`).

**The record store.** The SQLite `users` table is a map from user id to a record. A record has six fields:

- inventory counts
- xp
- coins
- gear
- current mine
- optional session start time

The store has three operations:

- `get_user_data` looks a record up.
- `create_user` does `INSERT OR IGNORE` with the column defaults.
- `update_user_data` creates the record if it is missing, then assigns the columns named by its keyword arguments, in order.

**The session state machine.** A player is Idle when `session_begin_time` is falsy and Active when it is truthy. Three handlers drive it:

- `/mine` moves Idle to Active, and creates the record on first use.
- The "end session" button moves Active to Idle.
- `/endsession` moves Active to Idle.

Both end paths add the drawn coal, iron and gold to the inventory. A missing key counts as 0. Both raise xp by `2·coal + 5·iron + 10·gold`. Only the button raises coins, by `coal + 3·iron + 5·gold`. The slash command does not write the coins column.

Modules:

- `PlayerRecords` (`records.dfy`): the record, the column defaults, and the keyword assignments of `update_user_data` with their effect on a row.
- `Rewards` (`rewards.dfy`): the xp and coin formulas and the inventory merge.
- `Sessions` (`sessions.dfy`): the store and the handlers as pure functions from the table before a request to the table after it, with the per-request properties.
- `Bot` (`bot.dfy`): the class `RockyflowBot`. Its one field, `users`, is the table. Its methods are the store primitives and the three handlers. Each handler is written as the source does it: fetch the record, check it, rebuild the inventory in place, then call `UpdateUserData` with the handler's keyword list. Each is proved equal to the matching `Sessions` function.
- `Traces` (`traces.dfy`): properties of any sequence of handler requests.

Points where the model follows the code closely:

- **Empty-string start time.** The check `not user_data['session_begin_time']` treats an empty string like `NULL`. `Active` is therefore "present and not empty". A start time written by `/mine` comes from `isoformat()`, which is never empty, so the `Timestamp` type is a non-empty string.
- **Update with no keywords.** `update_user_data` with no keywords builds `UPDATE users SET  WHERE user_id = ?`, which SQLite rejects. By then the `INSERT OR IGNORE` has already been committed. `UpdateUserData` returns `ok == false` in that case, and its only effect is the insert. No handler calls it without keywords.
- **Repeated keywords.** A keyword list may name a column twice, and then the later value wins (`ApplyAllLastWins`). Python keyword arguments cannot actually repeat, and the handlers' lists never do.

## Model

| member | source | states |
|---|---|---|
| PlayerRecords.Assign | bot.py:77-81 | one `column = ?` pair puts its value in its column and leaves every other column as it was |
| PlayerRecords.ApplyAllFrame | bot.py:72-86 | a column that no keyword names keeps its stored value after `update_user_data` |
| PlayerRecords.ApplyAllLastWins | bot.py:75-85 | a column named by a keyword ends up holding the value of the last keyword that names it |
| PlayerRecords.ApplyAllExact | bot.py:72-86 | with distinct keyword names, the updated row equals a target row exactly when the target holds every assigned value and agrees with the old row on every unnamed column (both directions) |
| Rewards.AddDrops | bot.py:116-119 | the merged inventory has the old keys plus coal, iron and gold; each ore count is the old count (0 if missing) plus the drawn amount; every other key keeps its count |
| Rewards.AddDropsGrows | bot.py:116-119 | crediting never lowers any count and keeps non-negative inventories non-negative, for the clamped (non-negative) amounts |
| Rewards.AddDropsAdditive | bot.py:113-119 | crediting two sessions in turn equals crediting their summed drops, for the inventory, the xp formula and the coin formula |
| Rewards.NothingEarnedIffNoDrops | bot.py:113-114 | a session earns zero xp, and zero coins, exactly when nothing dropped |
| Rewards.ClampDraws | bot.py:109-111 | a negative drawn amount is credited as zero and any other amount as drawn, so a session of negative length earns nothing |
| Rewards.ClampAgreesOnNonNegative | bot.py:113-119 | on non-negative draws, the clamped merge and formulas give the same inventory, xp and coins as the code computes |
| Sessions.Created | bot.py:36-46 | `INSERT OR IGNORE` adds the id with the column defaults (empty inventory and gear, xp 0, coins 0, "starter mine", no session) when it is absent and changes nothing when it is present |
| Sessions.CreatedIdempotent | bot.py:66-70 | creating a user twice is the same as creating it once |
| Sessions.MineRejectsActive | bot.py:200-202 | `/mine` is refused exactly when the player has a record with an open session, and then the table is unchanged |
| Sessions.MineStartsSession | bot.py:194-206 | on an idle or unknown player, `/mine` reports the record it read and then sets only the start time, which opens the session |
| Sessions.MineCreatesDefault | bot.py:196-198 | `/mine` for an unknown id creates the default record with the start time as its only non-default field and touches no other player |
| Sessions.EndRejectsIdle | bot.py:100-102 | an end with no record or no open session is refused exactly in those cases and changes nothing |
| Sessions.EndCredits | bot.py:113-127 | a successful end does five things: adds exactly the drawn amounts to coal, iron and gold; adds 2·coal + 5·iron + 10·gold xp; adds coal + 3·iron + 5·gold coins, on the button path only; sets the start time to `None`; and reports the stored balance. The inventory keys become the old keys plus coal, iron and gold. Gear, mine, other items and other players are kept |
| Sessions.CreditedAgreesOnNonNegative | bot.py:109-127 | where the session length is not negative, the record the code writes equals the clamped record of this model |
| Sessions.EndTwiceRejected | bot.py:121-127 | an end right after a successful end, along either path, is refused and changes nothing, so one session is never credited twice |
| Sessions.MineThenEnd | bot.py:192-250 | starting then ending from idle credits the record exactly once and leaves the player idle |
| Bot.RockyflowBot.constructor | bot.py:35-47 | `CREATE TABLE IF NOT EXISTS` keeps the rows already stored |
| Bot.RockyflowBot.GetUserData | bot.py:49-64 | returns the stored record for a known id and nothing for an unknown one |
| Bot.RockyflowBot.CreateUser | bot.py:66-70 | the table after `create_user` is `Created` of the table before it |
| Bot.RockyflowBot.UpdateUserData | bot.py:72-86 | ensures the record exists, then applies the keyword list in order; with no keywords it fails after the insert |
| Bot.RockyflowBot.Mine | bot.py:192-206 | the table and outcome of the `/mine` handler are those of `MineStep` |
| Bot.RockyflowBot.EndSessionButton | bot.py:95-127 | the handler's four keyword writes (inventory, xp, coins, start time) give exactly the table and outcome of `EndStep` on the button path |
| Bot.RockyflowBot.EndSessionCommand | bot.py:221-250 | the handler's three keyword writes (inventory, xp, start time) give exactly the table and outcome of `EndStep` on the command path |
| Traces.StepKeepsOk | bot.py:113-127 | one handled request keeps every xp, coin balance and inventory count non-negative, for the clamped (non-negative) amounts |
| Traces.RunKeepsOk | bot.py:192-250 | any request sequence keeps every xp, coin balance and inventory count non-negative, for the clamped (non-negative) amounts |
| Traces.StepSessions | bot.py:200-206 | per request, credited ends plus sessions left open equal starts plus sessions open before |
| Traces.SessionsBalance | bot.py:192-250 | over any request sequence, credited ends for a player plus its open session equal its starts plus the session open at the outset, so ends never outnumber starts plus the session open at the outset |
| Traces.StepGrows | bot.py:113-127 | one request never lowers a record's xp, coins or counts, never drops an inventory key, and never writes gear or the current mine, for the clamped (non-negative) amounts |
| Traces.RunGrows | bot.py:192-250 | no request sequence deletes a record, lowers its xp, coins or counts, or changes its gear or mine, for the clamped (non-negative) amounts |
| Traces.CommandsKeepCoins | bot.py:245-250 | a request sequence with no button end never changes any player's coins |
| Traces.AsWrittenEndGoesNegative | bot.py:104-125 | with the amounts drawn as the code computes them, a button end after the clock fell back leaves a fresh player with coins −76, xp −140 and coal −20 for draws (−20, −12, −4) |
| Traces.ClampedEndKeepsOk | bot.py:109-127 | with clamped amounts, any end along either path keeps every balance and count non-negative, whatever was drawn |

## Left out

- Discord presentation is not modelled: embeds, views, button disabling, interaction responses, command-tree sync, `bot.run` and loading the environment. `MineResult.Started` carries the record that was read, which holds the gear, mine, coins and xp the embed shows. `EndResult.Ended` carries the drops, xp gained and balance the embed shows. Neither models the embed text.
- SQLite and JSON I/O are not modelled: the connection, commits, the literal SQL text, and the `json.dumps`/`json.loads` of the inventory and gear columns. The table is a map, and a JSON column is a map from strings to integers.
- Clocks and randomness are not modelled: `datetime.now`, `datetime.fromisoformat`, the float duration, and `random.uniform`. The drawn amounts are parameters. A stored start time that is not valid ISO text makes `fromisoformat` raise in the source, and that failure is not modelled.
- The handlers credit clamped amounts (`Drops`, natural numbers), not the possibly negative amounts the code draws; see "## Findings". `CreditedAsWritten` and `AsWrittenEndGoesNegative` model the code as written.
- Rewards.AddDropsGrows: holds only for non-negative amounts. The code can credit negative ones after a clock step back (see "## Findings").
- Traces.StepKeepsOk: holds only for non-negative amounts, for the same reason.
- Traces.RunKeepsOk: holds only for non-negative amounts, for the same reason.
- Traces.StepGrows: holds only for non-negative amounts, for the same reason.
- Traces.RunGrows: holds only for non-negative amounts, for the same reason.
- 64-bit overflow is not modelled. The `xp` and `coins` columns are SQLite `INTEGER` (64-bit), and storing a larger Python int raises `OverflowError`. The model's integers are unbounded. Reaching that limit would take around 10^9 sessions.
- `user_id` as a field of the returned dict is not modelled: it is the map key.
- The view-stats and shop buttons are not modelled. They only read the record or reply with a fixed message.
- Loot tables, gear-gated yields, purchases and sales are not modelled because this code does not have them.
- Concurrent requests for the same user are not modelled. The handlers are taken one at a time, and the code has no locking to model.

## Findings

| source | as written | input that shows it | evidently intended | confidence | as-written member | corrected member |
|---|---|---|---|---|---|---|
| bot.py:104-125 | The session length is `datetime.now()` minus the stored `isoformat()` of an earlier naive local `now()`. It is negative if the wall clock stepped back, and `int(duration * uniform)` then truncates toward zero to negative amounts. These amounts are added to the inventory, xp and coins. | A fresh record, `/mine` at 01:50, then the button at 01:10 after the daylight-saving fall-back: the duration is −40 minutes, e.g. coal −20, iron −12, gold −4. This gives coins −76, xp −140 and coal −20. | Never credit negative amounts (treat a negative session length as zero), so balances and counts stay non-negative. | medium, not executed | Traces.AsWrittenEndGoesNegative | Traces.ClampedEndKeepsOk |
