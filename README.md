# hombenAi cow registry bot — Dafny model

A model of the logic of `hombenai.py`, the Telegram bot with which farmers register cows by
photo, identify a cow from a new photo and alert everybody when a cow goes missing. What is
modelled is the part that decides and mutates:

- the **registry**: the globals `user_data` (user id → name and list of cow ids), `cow_data`
  (cow id → name, owner, photo file id) and the list `missing_cows`, with the handlers that
  change them — `start` (register or rename a user), enrolment inside `handle_photo`,
  `list_cows` (which also rewrites the stored list without duplicates), `remove_cow` and
  `mark_missing` (both checked against the caller's list), and the alert loop of `mark_missing`;
- the **conversation flags** `awaiting_cow_name` and `adding_cow` of a user's `context.user_data`:
  `add_cow` (command or button) sets the first, a text while it is set moves into the second,
  and `handle_photo` looks only at the second. They are two independent flags, so a photo sent
  after `add_cow` but before the name is read as an identification request;
- the **photo decision**: the species gate over the top-3 labels of the general classifier
  (`ox` or `cow` accepted), then enrolment, or identification, which reports a match exactly when
  the identified class is a key of `cow_data`. The confidence is passed through, never compared;
  the configured `CONFIDENCE_THRESHOLD` is imported by the source and never used;
- the **button payloads** `add_cow`, `list_cows`, `identify_cow`, `remove_cow_<id>` and
  `mark_missing_<id>`, parsed with `split('_')[-1]`.

Layout:

- `common.dfy` (`Common`): `Option`, `NoDuplicates`, `Elements`.
- `callback.dfy` (`Callback`): Python's `split`, `join` and `split(sep)[-1]`, the payloads and the button dispatch.
- `gate.dfy` (`Gate`): the species gate.
- `registry.dfy` (`Registry`): the three globals as one value `Store`, with one function per
  registry operation, each stating what changes and what stays.
- `dispatch.dfy` (`Dispatch`): the flags, the replies, and the text and photo handlers as pure steps.
- `handlers.dfy` (`Handlers`): the classes `Globals` (the three globals) and `UserContext` (the
  flags), and one method per handler. The methods update these objects in place and are proved
  against the pure steps.
- `scenarios.dfy` (`Scenarios`): properties that span several steps.

Where the source would raise `KeyError`, the model has a precondition instead:
- enrolment needs the caller's user entry (hombenai.py:165);
- identifying an enrolled cow needs its owner's entry (hombenai.py:174);
- `remove_cow` and `mark_missing` need the caller's entry (hombenai.py:214, 225);
- for an id the caller lists, `remove_cow` and `mark_missing` need the `cow_data` entry
  (hombenai.py:216, 228).

`Registry.OwnersKnown` holds initially and every operation of the model preserves it, so on every
state the model reaches the identify precondition holds. The source itself can leave an owner without
an entry: a user who never sent `/start` but goes through `add_cow`, a name and a cow photo has
`cow_data[cow_id]` written with them as owner at line 164 before line 165 raises `KeyError`; anyone
identifying that class afterwards crashes at line 174. The model excludes that enrolment by its
precondition, so it never reaches such a state. The `cow_data` condition can fail on a reachable
state after an id collision; `Scenarios.CollisionLeavesDanglingId` shows how.

Behaviours the model keeps exactly as the code has them, though a reader might expect otherwise:
- re-marking a cow as missing appends the id again rather than being idempotent (`Scenarios.MarkMissingTwice`);
- removal checks only the caller's list, not that the record exists or that the caller is its
  recorded owner (`Scenarios.CollisionLeavesDanglingId`);
- removal does not clear `missing_cows` (`Scenarios.RemoveKeepsMissingEntry`);
- removal takes out one occurrence, so an id stored twice is still listed afterwards (`Scenarios.RemoveKeepsSecondCopy`);
- the three conversation states are two independent flags (`Scenarios.PhotoBeforeNameIdentifies`);
- enrolment overwrites the `cow_data` entry of an existing id.

## Model

| member | source | states |
|---|---|---|
| Callback.Split | hombenai.py:131 | `split('_')` gives at least one part, no part holds `_`, and joining the parts with `_` gives back the input |
| Callback.LastSegment | hombenai.py:131 | `split('_')[-1]` is the longest suffix without `_`: a suffix of the input, free of `_`, and either the whole input or preceded by `_` |
| Callback.LastSegmentAfterSeparator | hombenai.py:131 | after a prefix that ends in `_`, the last segment is exactly the `_`-free tail |
| Callback.ParsedIdHasNoSeparator | hombenai.py:130-135 | a cow id parsed from a remove or mark-missing payload never holds `_` |
| Callback.PayloadRoundTrip | hombenai.py:200-201 | for an id without `_`, the payloads `remove_cow_<id>` and `mark_missing_<id>` parse back to remove and mark-missing of that id |
| Callback.LastSegmentAfterPrefix | hombenai.py:131 | a prefix ending in `_` does not change the last `_`-segment of what follows it |
| Callback.UnderscoreInIdIsTruncated | hombenai.py:130-135 | every payload with the remove or mark-missing prefix reaches that action with the last `_`-segment of its tail as id, so an id holding `_` is cut to its last segment |
| Callback.ParseButton | hombenai.py:123-135 | the `if/elif` chain of `button`: a remove or mark-missing action comes only from a payload with that prefix (the remove prefix tested first) and its id is a suffix of the payload; a payload is ignored iff it is none of the three exact payloads and has neither prefix. The converse direction is `UnderscoreInIdIsTruncated`; further properties: `FixedPayloads`, `PayloadRoundTrip`, `ParsedIdHasNoSeparator` |
| Callback.FixedPayloads | hombenai.py:123-129 | the exact payloads `add_cow`, `list_cows`, `identify_cow` are dispatched to their actions before any prefix test |
| Gate.IsCow | hombenai.py:148-150 | the gate accepts iff some top label is `ox` or `cow` |
| Registry.Upsert | hombenai.py:87-90 | a new user gets the name and an empty list; a known one keeps the list and only the name changes; every other user, the cows and the missing list are untouched; both invariants are kept |
| Registry.AppendIfAbsent | hombenai.py:165-166 | the id is in the result, nothing else is added, the old list is a prefix, the list is unchanged iff it already held the id, and no duplicate is created |
| Registry.Enrol | hombenai.py:164-166 | `cow_data[id]` becomes (name, caller, photo), overwriting; other cow records, other users, the caller's name and the missing list are unchanged; the id joins the caller's list only if absent; both invariants are kept |
| Registry.Dedup | hombenai.py:191 | the result has no duplicates and the same elements as the input, is no longer, and is the input itself when that had no duplicates |
| Registry.Compact | hombenai.py:186-208 | listing a user with no entry or an empty list changes nothing; otherwise the stored list has no duplicates, holds the same set of ids (also ids without a record), and nothing else changes |
| Registry.Cards | hombenai.py:193-205 | each card shows the record of an id that `cow_data` holds; the shown ids are exactly the listed ids that have a record; no id is shown twice when the list has no duplicates |
| Registry.FirstIndex | hombenai.py:215 | the position found holds the id and no earlier position does |
| Registry.RemoveFirst | hombenai.py:215 | `list.remove` drops the first occurrence and keeps the other elements in order, so exactly one occurrence goes (multiset difference), the length drops by one, and a duplicate-free list then no longer holds the id |
| Registry.Remove | hombenai.py:214-216 | an id not in the caller's list changes nothing; an owned id loses one occurrence from the list and its `cow_data` entry; the missing list and every other user are untouched; both invariants are kept |
| Registry.MarkMissing | hombenai.py:225-226 | a non-owner changes nothing; an owner appends the id once to the missing list, with no duplicate check; users and cows are untouched |
| Registry.Identify | hombenai.py:172-177 | a match iff the id is a key of `cow_data`, carrying the cow's name, its owner's name and the confidence as given |
| Dispatch.RequestName | hombenai.py:112 | `add_cow` sets the awaiting flag and keeps the pending name |
| Dispatch.ReceiveText | hombenai.py:239-244 | a text while awaiting becomes the pending name and clears the awaiting flag; any other text changes no flag and gets the "didn't understand" reply |
| Dispatch.ReceivePhoto | hombenai.py:148-177 | the awaiting flag is never touched; a rejected photo changes nothing and keeps the pending name; an accepted one clears the pending name and enrols under it if there was one, otherwise it leaves the registry alone and reports a match iff the id is enrolled |
| Dispatch.ListReply | hombenai.py:186-205 | "no cows" iff the user has no entry or an empty list; otherwise the records of exactly the distinct listed ids that exist, each once |
| Handlers.Globals.constructor | hombenai.py:33-35 | the globals start empty |
| Handlers.Start | hombenai.py:84-91 | the globals become `Upsert` of the old ones |
| Handlers.AddCowCommand | hombenai.py:111-113 | the flags become `RequestName` of the old ones |
| Handlers.HandleText | hombenai.py:237-244 | flags and reply are those of `ReceiveText` |
| Handlers.HandlePhoto | hombenai.py:138-177 | globals, flags and reply are those of `ReceivePhoto` on the old values |
| Handlers.ShowCards | hombenai.py:193-205 | the loop produces exactly `Cards` of the ids |
| Handlers.ListCows | hombenai.py:180-209 | the globals become `Compact` of the old ones and the reply is `ListReply` |
| Handlers.RemoveCow | hombenai.py:212-220 | the globals become `Remove` of the old ones; removed iff the caller listed the id |
| Handlers.Broadcast | hombenai.py:228-232 | one alert per key of `user_data`, the reporter included, none twice, each with the cow's name and photo and the reporter's name |
| Handlers.MarkMissing | hombenai.py:223-234 | the globals become `MarkMissing` of the old ones; a non-owner is refused; an owner gets the broadcast to every user |
| Handlers.Button | hombenai.py:119-135 | each parsed payload runs its handler with that handler's contract; `identify_cow` and unknown payloads change nothing |
| Scenarios.UpsertIdempotent | hombenai.py:87-90 | `start` twice with the same name equals once |
| Scenarios.EnrolIdempotent | hombenai.py:161-166 | enrolling the same cow twice equals once |
| Scenarios.EnrolThenListOnce | hombenai.py:165-166 | after enrolment and listing, the id occurs exactly once in the owner's list |
| Scenarios.EnrolOnceWithoutListing | hombenai.py:165-166 | with duplicate-free lists, the enrolled id occurs exactly once even before listing |
| Scenarios.EnrolThenIdentify | hombenai.py:164 | a photo identified as an enrolled id reports that cow's name and the enrolling user's name |
| Scenarios.ConfidenceNeverGates | hombenai.py:172-175 | two photos that differ only in confidence give the same state and the same kind of reply |
| Scenarios.EnrolConversation | hombenai.py:112-244 | add cow, name, rejected photo (state and pending name kept), accepted photo: the cow is registered under the name, owned by the user, missing list unchanged, flags cleared |
| Scenarios.PhotoBeforeNameIdentifies | hombenai.py:161 | an accepted photo after `add_cow` but before a name is read as identification; nothing changes |
| Scenarios.OwnersKnownAllowsPhoto | hombenai.py:174 | when every owner is registered, a registered user's photo can be handled without the missing-owner crash |
| Scenarios.RemoveThenListExcludes | hombenai.py:214-216 | on any state with duplicate-free lists, a removed cow is not in the compacted list, not on a card and not identified |
| Scenarios.RemoveKeepsSecondCopy | hombenai.py:214-216 | any id stored two or more times in the caller's list is still owned after one removal, while its record is gone |
| Scenarios.MarkMissingTwice | hombenai.py:226 | marking twice adds two entries for the id |
| Scenarios.RemoveKeepsMissingEntry | hombenai.py:216 | removing a missing cow leaves it in the missing list |
| Scenarios.CollisionLeavesDanglingId | hombenai.py:164-166 | when two users enrol the same id, the record passes to the second; the first user's removal deletes it; the second keeps a listed id that has no record and is not shown |
| Scenarios.ListIdempotent | hombenai.py:208 | listing twice stores the same as listing once; exact list equality relies on the first-occurrence order chosen for `Dedup`, while the source promises only the same set of ids, since Python's set order follows the string hash |
| Scenarios.ListedButtonsRoundTrip | hombenai.py:199-201 | every shown cow is owned and has a record; when its id has no `_`, its buttons parse back to it |

## Left out

- Telegram transport: message texts, keyboards, `send_photo`, `answer`, `set_commands`,
  `set_menu`, `show_main_menu`, `menu`, `identify_command` and `main`. Replies are a `Reply`
  value; `menu` and `identify_command` only reply and change nothing.
- `bot_menu.py`: it only registers commands with Telegram.
- The neural networks, `preprocess_image`, `np.argmax`/`np.max` and confidence formatting.
  They are floating point and foreign code. The top labels, the identified class, the
  confidence (a `real`) and the photo file id are inputs (`Dispatch.Photo`).
- `load_data` and `save_data`: JSON file I/O. A handler's effect is one atomic step, and the
  save at its end is not modelled.
- Async execution, concurrent updates and delivery failures of the alert loop. Handlers are
  sequential atomic steps, since the source has no locking and no error handling.
- The changes the source makes before a `KeyError`. Enrolment writes `cow_data` before failing
  on the user entry (lines 164-165); `remove_cow` takes the id out of the caller's list before
  failing on `del cow_data[cow_id]` (lines 215-216); `mark_missing` appends and saves before
  failing on `cow_data` (lines 226-228). These inputs are excluded by preconditions instead.
- Registry.Dedup: Python's `set` iterates in hash order. The model keeps first-occurrence order,
  so only "no duplicates, same ids" is the source's promise; the card order follows the same choice.
- Handlers.Broadcast: Python iterates `user_data` in insertion order. The model picks the
  recipients in an unspecified order and states only which recipients get an alert, each once.
- `CONFIDENCE_THRESHOLD` lives in `config.py`, which is not part of this model. The source never uses it.
