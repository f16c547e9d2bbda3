# Time-channel bot: registry, reconciliation pass and commands

A Dafny model of the core of a Discord bot that keeps voice channels
renamed to the current local time of a chosen place ("🕐 ・Paris 14:37").
The bot stores its bindings in the SQLite table `time_channels`. It
reconciles every bound channel every five minutes, and it offers the
`settime`, `removetime`, `listtime` and `forceupdatetime` slash commands
plus a zone autocomplete.

The model has seven files:

- `wrappers.dfy`: `Option`.
- `catalog.dfy`: the `TIMEZONES` catalog as an ordered sequence of
  `(key, zone)` entries and its key lookup. It also holds the
  autocomplete search: lower-case substring match on key, name or UTC
  label, catalog order, at most 25 choices.
- `formatter.dfy`: `getFormattedTime`. The wall clock and the `Intl`
  conversion are a parameter `clock`. It maps an IANA zone to `Some("HH:MM")`,
  or to `None` when `toLocaleTimeString` throws.
- `registry.dfy`: the `time_channels` table, modelled as a class over
  `map<ChannelId, Row>`. It has the five prepared queries. `getAll` and
  `getByGuild` return a *snapshot*: every matching row exactly once, in an
  unspecified order.
- `reconcile.dfy`: `updateAllChannels`.
  - What Discord answers is a `World` value. It holds the outcome of
    `channels.fetch` per channel, the outcome of `setName` per channel and
    name, and the clock.
  - `Pass` is the specification of the loop. It folds over the snapshot and
    yields the three counters, the `setName` calls made and the rows deleted.
  - The imperative `UpdateAllChannels` / `ProcessSnapshot` / `ProcessChannel`
    mutate the table in place and are proved equal to `Pass`.
  - A channel that `fetch` resolves to null counts as an error and keeps
    its row. Only Discord error code 10003 (Unknown Channel) deletes a row.
- `commands.dfy`: the owner check and the four table commands. Replies are
  datatypes, not message text, except for `listtime`, whose text is built
  exactly.
- `scenarios.dfy`: one-row passes over a fresh table, one per situation.

## Model

| member | source | states |
|---|---|---|
| Catalog.Lookup | index.js:60-164 | `TIMEZONES[key]` as an own-key lookup: found exactly when the key is a catalog key, and then the zone stored under it |
| Catalog.LookupFindsEntry | index.js:60-164 | with distinct keys, looking up an entry's key yields that entry's zone |
| Catalog.Contains | index.js:430 | `includes`: true exactly when the substring occurs at some offset |
| Catalog.MatchIndices | index.js:422-430 | the matching catalog indices from a position on: all of them, each matching, strictly increasing |
| Catalog.Search | index.js:419-436 | autocomplete: at most 25 choices; each is the display/key pair of a catalog entry whose lowered key, name or UTC label contains the lowered query; if fewer than 25, every matching entry is offered |
| Catalog.SearchIsFirstMatchesInOrder | index.js:422-436 | the choices are exactly the first min(25, matches) matching entries, in catalog order |
| Formatter.FormattedTime | index.js:186-211 | None for a key outside the catalog or when the time cannot be computed; otherwise `"🕐 ・" + name + " " + time` for that key's zone |
| Formatter.FormattedTimeAsWritten | index.js:186-211 | getFormattedTime as written: for a catalog key the same label as `FormattedTime`; for a name inherited from Object.prototype the clock icon, the inherited value's `name` (`InheritedName`: "Object" for "constructor", "undefined" for "__proto__", the method's own name otherwise) and a space, ending with the host's time; None for any other key |
| Formatter.ConstructorLabelledAsObject | index.js:188-189 | as written, the key "constructor" outside the catalog is labelled `"🕐 ・Object " + time`, where the own-key lookup gives no label |
| Formatter.LabelShape | index.js:203-206 | a label starts with the clock icon, shows the place name right after it and ends with the time |
| Registry.Table.constructor | index.js:32-40 | a new table has no rows |
| Registry.Table.Insert | index.js:45 | INSERT OR REPLACE: the channel's row becomes exactly the new row, every other row unchanged |
| Registry.Table.Delete | index.js:46 | the channel's row is gone, the others unchanged; deleting a missing channel changes nothing |
| Registry.Table.GetOne | index.js:49 | the channel's row if there is one, nothing otherwise |
| Registry.Table.GetAll | index.js:47 | every row exactly once with its values (a snapshot) |
| Registry.Table.GetByGuild | index.js:48 | a snapshot of exactly the rows whose guild id matches |
| Registry.KeepGuild | index.js:48 | filtering a snapshot keeps exactly the rows of the guild, without repeats |
| Registry.SnapshotSize | index.js:47 | a snapshot has as many elements as the table has rows |
| Registry.UpsertReplacesWholeRow | index.js:45 | two inserts on one channel: the second row replaces the first in full, and the table holds one row |
| Registry.DeleteAbsentIsNoop | index.js:46 | deleting a channel without a row leaves the other row in place |
| Reconcile.ProcessRowClassifies | index.js:229-285 | a row is deleted exactly when fetch or setName threw 10003, and then counts as an error; setName is called exactly when the voice channel's name differs from a computable label; the row counts as updated exactly when setName succeeded |
| Reconcile.PassCountsEveryRow | index.js:225-285 | updated + skipped + errors equals the number of rows in the snapshot; there are at least as many setName calls as updates |
| Reconcile.PassRemovesOnlyUnknownChannels | index.js:271-284 | a channel is deleted by the pass if and only if one of its snapshot rows threw Unknown Channel (10003); null channels, non-voice channels, unknown zones, 50013, 50001 and other codes keep the row |
| Reconcile.PassRenamesExactlyWhenNeeded | index.js:244-269 | every setName call is for a snapshot row that needs it, with the computed label, and every such row gets that call |
| Reconcile.SettledPassIsQuiet | index.js:250-264 | when every channel already carries its label, the pass skips every row and renames nothing |
| Reconcile.LastRenameOfPass | index.js:266-269 | with distinct channels, a channel was successfully renamed by the pass exactly when its row counted as updated, and to its label |
| Reconcile.SecondPassUpdatesNothing | index.js:214-293 | a second pass in the world the first one left behind updates nothing |
| Reconcile.WithoutRemovesListed | index.js:276-279 | deleting the listed channels one by one removes exactly those rows and changes no other |
| Reconcile.ProcessChannel | index.js:229-285 | one loop iteration: its outcome is `ProcessRow`, and the table loses that row exactly when the outcome is a deletion |
| Reconcile.UpdateAllChannels | index.js:214-293 | takes a snapshot of the table; the report is `Pass` over it (all zeros when empty); the table afterwards is the old table without the deleted channels, with no row inserted or edited |
| Reconcile.ProcessSnapshot | index.js:225-286 | the loop's counters, calls and deletions equal `Pass` over the snapshot, and the table loses exactly the deleted rows |
| Commands.IsOwner | index.js:179-183 | true exactly when the user id is one of the owner ids |
| Commands.SetTime | index.js:459-514 | a key outside the catalog is refused and nothing is written; a channel already bound to that key is refused and nothing is written; otherwise the row (channel, guild, key, user) is upserted and kept whatever the rename outcome; the table only changes for catalog keys |
| Commands.BindTwiceKeepsSecond | index.js:459-514 | binding a channel twice with different keys leaves only the second binding |
| Commands.RemoveTime | index.js:516-539 | the reply says Removed exactly when the channel had a row; afterwards the channel has no row and the others are unchanged |
| Commands.ListingShowsEveryRow | index.js:554-562 | every row of the guild has its own line in the listtime text |
| Commands.ListTime | index.js:541-568 | the text is the header and one line per row of a snapshot of exactly the guild's rows; it is the "none configured" message exactly when the guild has no row |
| Commands.BuildListing | index.js:554-562 | the `list +=` loop builds the header followed by one line per row, in order |
| Commands.UnknownKeyListedAsUnknown | index.js:556-561 | a row whose key is not in the catalog is listed as `⚠️ Zone inconnue:` followed by the key |
| Commands.ConstructorListedAsObject | index.js:556-558 | as written, a row holding "constructor" is listed as `undefined Object (undefined)`, not as an unknown zone |
| Commands.ForceUpdateTime | index.js:570-588 | a non-owner changes nothing; an owner runs a full pass and gets the fixed reply |
| Commands.ConstructorPassesZoneCheck | index.js:466-468 | the key "constructor" is not a catalog key, yet passes the zone check as written |
| Scenarios.StaleLabelIsRenamed | index.js:244-269 | a voice channel with an outdated name is renamed to its label: updated 1, skipped 0, errors 0; the row stays |
| Scenarios.CurrentLabelIsSkipped | index.js:260-264 | a channel already carrying its label: updated 0, skipped 1, errors 0 |
| Scenarios.UnknownKeyIsKept | index.js:250-255 | a key outside the catalog: errors 1, no rename, the row stays |
| Scenarios.UnknownChannelIsDeleted | index.js:271-279 | fetch throws 10003: errors 1 and the row is deleted |
| Scenarios.RefusedRenameIsKept | index.js:266-284 | setName refused with 50013 or 50001: errors 1, the call was made, and the row stays |
| Scenarios.EmptyTableReportsNothing | index.js:219-223 | a pass over an empty table reports all counters zero and deletes nothing |

## Left out

- Discord client calls are not modelled as calls. `client.channels.fetch`
  and `channel.setName` are outcomes given by a `World` value. The
  interaction replies, deferrals and `respond` are reply datatypes. The REST
  command registration (index.js:296-412) is not part of this model.
- SQLite, the schema creation and `created_at` are left out. `created_at` is
  filled by the database clock and nothing reads it. A database failure
  (the outer `try/catch` of the interaction handler) is not modelled either.
- `toLocaleTimeString` with IANA zones is the `clock` parameter. One pass uses
  one instant for every row. The source reads `new Date()` per row, so a pass
  that crosses a minute boundary may differ.
- `setInterval` scheduling and passes that overlap are left out (timer and
  concurrency behaviour). Each pass is modelled as running alone.
- `bot-name`, `bot-avatar`, `bot-activities` and `bot-status` (index.js:592-762)
  are thin wrappers over client setters. Each checks `isOwner` first, as
  `forceupdatetime` does. They are not modelled.
- Logging, dotenv, the signal and uncaught-exception handlers, and the login
  are left out.
- Catalog.Lower: JavaScript `toLowerCase` is Unicode-aware. The model lowers
  ASCII and Latin-1 capitals only. That covers every catalog key, name and
  label, but not every character a user can type.
- Commands.IsOwner: the owner list is taken as already split on commas. No
  trimming is done, as in the source.
- Catalog.Search: the display name is the choice text. Discord's own length
  limits on choices are not modelled.
- Commands.SetTime: the text of the rename error is reduced to its code. A
  `setName(null)` when the time cannot be computed is whatever outcome
  `renamed` gives.
- Formatter.FormattedTime: the catalog lookup is own-key everywhere in the
  model, so a row holding a name inherited from Object.prototype (which only
  the as-written settime check lets in) is an error in the pass and an
  unknown zone in listtime. The source labels such a channel "🕐 ・Object
  HH:MM" at the host's time, renames it and counts it as updated, and lists
  it as "undefined Object (undefined)". The same holds for
  `Commands.ListTime`, `Commands.ListLine` and `Scenarios.UnknownKeyIsKept`.
  `Formatter.FormattedTimeAsWritten` and `Commands.ListLineAsWritten` give
  the source's output for such a key. The pass over such a row is modelled
  only with the corrected lookup.
- Commands.ForceUpdateTime: the reply is the fixed message the source sends.
  The counters are only logged in the source; the model returns them as the
  pass's report.

## Findings

| source | as written | input that shows it | evidently intended | confidence | as-written member | corrected member |
|---|---|---|---|---|---|---|
| index.js:466-468 | `TIMEZONES[pays]` on a plain object is truthy for the names every object inherits from `Object.prototype` | `/settime pays:"constructor"`: the check passes, and the row stores a key that is not a zone; `getFormattedTime` then labels the channel "🕐 ・Object" with the server's own time | accept only the catalog's own keys | not executed | Commands.ConstructorPassesZoneCheck | Commands.SetTime |
| index.js:188-189 | `getFormattedTime` uses the same truthiness lookup, so an inherited name gets a label built from the inherited value's `name` and an undefined zone | a row with timezone "constructor": the label is "🕐 ・Object HH:MM" in the host's zone, and the pass renames the channel to it | no label for a key outside the catalog | not executed | Formatter.ConstructorLabelledAsObject | Formatter.FormattedTime |
| index.js:556-561 | `listtime` uses the same truthiness lookup, so an inherited name is listed as a zone | a row with timezone "constructor" is listed as "undefined Object (undefined)" | list such a row as an unknown zone | not executed | Commands.ConstructorListedAsObject | Commands.UnknownKeyListedAsUnknown |
