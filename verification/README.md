# scp-079-warn, modelled in Dafny

SCP-079-WARN is a Telegram moderation bot. Group admins use it to warn, ban
and forgive users. Members use it to call the admins or report a user. Inline
buttons under the bot's reports let an admin undo an action or act on a report.
Hourly, daily and monthly jobs prune the bot's in-memory tables and refresh
each group's admin list.

This project models the decision logic of that bot:
- the command handlers of `plugins/handlers/command.py`;
- the callback handler of `plugins/handlers/callbacks.py`;
- the periodic jobs of `plugins/functions/timers.py`;
- the text and payload helpers of `plugins/functions/etc.py`.

Each handler is a pure function from the bot's state (`BotData.State`, the
part of `glovar` the handlers use) to a `BotData.Step`. A step holds three
things:
- the new state;
- the effects the handler asks for, in order: messages to send, edit or
  delete, files to save, calls into the user-management functions, data
  shared with sibling bots;
- whether an exception ended the run. The handler's outer `except` logs it,
  and the state is the one at the raise.

The chat library, the clock and the external functions become parameters.

Modules:
- `Maybe`: an option type.
- `Strings`: the Python `str` operations the helpers rely on, with their
  edge cases: `split(" ")`, `strip()`, `replace(" ", "")`, `str(int)` and
  `int(str)`.
- `Json`: `json.dumps` with `ensure_ascii`, in the default, indented and
  compact layouts. Also `json.loads` for flat objects, with the round trips
  between the two.
- `TextHelpers`: `plugins/functions/etc.py`.
- `BotData`: the records and effects.
- `Commands`: `/warn_config`, `/admin`, `/ban`, `/warn`, `/config warn`,
  `/forgive` and `/report`.
- `Callbacks`: the undo and report buttons, and the per-user `locked` set.
- `Timers`: `interval_hour_01`, `reset_data`, `update_admins` and
  `update_report_ids`.

## Model

| member | source | states |
|---|---|---|
| Strings.Strip | plugins/functions/etc.py:293 | `strip()` never lengthens the text, and what it returns neither starts nor ends with whitespace |
| Strings.StripKeepsMiddle | plugins/functions/etc.py:293 | the stripped text is one contiguous slice of the input, and everything cut off on either side is whitespace |
| Strings.StripIdempotent | plugins/functions/etc.py:304 | stripping a stripped text changes nothing |
| Strings.Split | plugins/functions/etc.py:285 | `split(" ")` yields at least one piece, and no piece contains the separator |
| Strings.JoinSplit | plugins/functions/etc.py:285 | joining the pieces of a split with the separator gives back the original text |
| Strings.SplitJoin | plugins/functions/etc.py:285 | splitting a join of separator-free pieces gives back exactly those pieces |
| Strings.NonEmpty | plugins/functions/etc.py:286 | `filter(None, …)` keeps exactly the non-empty pieces and never lengthens the list |
| Strings.NonEmptySingle | plugins/functions/etc.py:286 | a single piece survives the filter exactly when it is non-empty |
| Strings.NonEmptyConcat | plugins/handlers/command.py:234 | the filter works piece by piece: filtering a concatenation concatenates the filtered parts, so the survivors keep their order and their repetitions |
| Strings.Remove | plugins/functions/etc.py:45 | `replace(" ", "")` leaves no space, introduces no character, and is the identity on text without spaces |
| Strings.RemoveConcat | plugins/functions/etc.py:45 | removing spaces distributes over concatenation |
| Strings.NatToString | plugins/functions/etc.py:356 | `str` of a natural number is a non-empty run of digits with no leading zero |
| Strings.ParseInt | plugins/handlers/command.py:254 | `int()` of a blank text fails |
| Strings.ParseIntOfIntToString | plugins/handlers/command.py:254 | `int(str(n))` is `n` for every integer |
| Json.Escape | plugins/functions/etc.py:45 | with `ensure_ascii` every character `dumps` writes inside a string is printable ASCII |
| Json.StringRoundTrip | plugins/handlers/callbacks.py:43 | `loads` reads back exactly the string `dumps` wrote, and the rest of the input is untouched |
| Json.NumberRoundTrip | plugins/handlers/callbacks.py:46 | `loads` reads back exactly the integer `dumps` wrote |
| Json.MembersRoundTrip | plugins/handlers/callbacks.py:43 | the members of a flat object written compactly are parsed back in order |
| Json.LoadsCompact | plugins/handlers/callbacks.py:43 | `loads` inverts the compact dump of every flat object |
| Json.RemoveSpacesDumps | plugins/functions/etc.py:45 | removing the spaces from the default dump is the compact dump of the object with its spaces removed |
| Json.Lookup | plugins/handlers/callbacks.py:44-46 | `obj[key]` finds a value exactly when some member has that key, and the value is that of the last member with the key, as a Python dict keeps it |
| Json.Dumps | plugins/functions/etc.py:45 | `dumps` writes an object between `{` and `}` and an array between `[` and `]` |
| Json.Loads | plugins/handlers/callbacks.py:43 | whatever `loads` accepts here is an object |
| TextHelpers.Wrap | plugins/functions/etc.py:32-59 | `bold`, `code` and `code_block` give "" exactly for "", and otherwise the text between two copies of the fence |
| TextHelpers.WrapInjective | plugins/functions/etc.py:32-59 | different texts never wrap to the same markup |
| TextHelpers.Bold | plugins/functions/etc.py:32-35 | `bold` leaves "" alone and puts any other text between `**` and `**` |
| TextHelpers.Code | plugins/functions/etc.py:48-51 | `code` leaves "" alone and puts any other text between two backticks |
| TextHelpers.CodeBlock | plugins/functions/etc.py:55-58 | `code_block` leaves "" alone and puts any other text between two triple backticks |
| TextHelpers.ButtonData | plugins/functions/etc.py:39-45 | a button payload contains no space and is printable ASCII |
| TextHelpers.ButtonDataDecodes | plugins/functions/etc.py:39-45 | decoding a payload gives the object with keys `a`, `t`, `d`, each text with its spaces removed |
| TextHelpers.ButtonDataRoundTrip | plugins/functions/etc.py:39-45 | decoding a payload gives back the very object it was built from if and only if no value contains a space |
| TextHelpers.FormatData | plugins/functions/etc.py:272-280 | the exchange text is a code block whose body is the indented dump of the `from`/`to`/`action`/`type`/`data` object |
| TextHelpers.GetText | plugins/functions/etc.py:313-320 | the text if it is non-empty, else the caption if it is non-empty, else nothing |
| TextHelpers.FirstFilled | plugins/functions/etc.py:287-291 | the loop stops at the first non-empty piece from index 1, and every piece it passes is empty |
| TextHelpers.ManyTokens | plugins/functions/etc.py:286-291 | with more than two tokens the loop finds the command type before the last piece, so it never runs off the list |
| TextHelpers.CommandContextAsWritten | plugins/functions/etc.py:283-297 | as written: the context is "" whenever the text has at most two tokens, and it is always stripped, neither starting nor ending with whitespace |
| TextHelpers.CommandContextDoubleSpace | plugins/functions/etc.py:293 | as written, `/warn_config  limit 3` (two spaces) yields the context `imit 3` |
| TextHelpers.CommandContext | plugins/functions/etc.py:283-297 | corrected: the context is "" whenever the text has at most two tokens, and it is always stripped, neither starting nor ending with whitespace |
| TextHelpers.CommandContextIsRest | plugins/functions/etc.py:287-293 | corrected: the context is the stripped text after the command type, however many spaces precede the type |
| TextHelpers.CommandContextSingleSpaced | plugins/functions/etc.py:293 | when no piece is empty, the written and the corrected context agree |
| TextHelpers.CommandContextDoubleSpaceFixed | plugins/functions/etc.py:293 | corrected, `/warn_config  limit 3` yields the context `3` |
| TextHelpers.ReasonOf | plugins/functions/etc.py:303-304 | the reason is stripped: it is empty or starts and ends with a non-space |
| TextHelpers.GetReason | plugins/functions/etc.py:300-310 | the result starts with the given text and gains exactly one `原因：` line when the message has a non-empty remainder after its first token, and none otherwise |
| TextHelpers.GeneralLinkLabel | plugins/functions/etc.py:323-324 | for a text without `]`, a link's label reads back as that text |
| TextHelpers.IdHasNoBracket | plugins/functions/etc.py:355-356 | a printed integer holds no `]`, so it can serve as a link label |
| TextHelpers.UserMention | plugins/functions/etc.py:355-356 | a mention is a link whose label reads back as the user's id |
| TextHelpers.UserMentionNamesUser | plugins/functions/etc.py:355-356 | a mention's label parses back to the user's id |
| TextHelpers.SupergroupIdString | plugins/functions/etc.py:328 | a supergroup id is written as `-100` followed by the group's internal digits |
| TextHelpers.MessageLink | plugins/functions/etc.py:327-328 | a message link is labelled with the message's id, which reads back from it |
| TextHelpers.MessageLinkOfSupergroup | plugins/functions/etc.py:327-328 | dropping four characters of a supergroup id leaves its internal number, so the link points at `t.me/c/<internal>/<mid>` |
| BotData.InitUser | plugins/handlers/callbacks.py:47 | `init_user_id` gives the user an empty record when they have none and changes no existing record |
| Commands.DecideEdit | plugins/handlers/command.py:231-305 | given the option's context, a failed edit keeps the settings, a successful one reports "已更新", and the decision raises only when there are fewer than two non-empty arguments or the message has no text |
| Commands.EditConfig | plugins/handlers/command.py:229-305 | as written, with `get_command_context` as written at line 250: a failed edit keeps the settings, a successful one reports "已更新", and it raises only with fewer than two non-empty arguments or a message without text |
| Commands.EditConfigIntended | plugins/handlers/command.py:250 | the same decision with the corrected context: a failed edit keeps the settings and a successful one reports "已更新" |
| Commands.EditConfigsAgree | plugins/handlers/command.py:250 | for a text with no leading, trailing or doubled space, the decision as written and the corrected one are the same |
| Commands.DoubleSpacedLimit | plugins/handlers/command.py:250-263 | as written, `/warn_config  limit 3` (two spaces) fails with "错误的数值" and keeps the settings; with the corrected context it sets the limit to 3 |
| Commands.NotANumber | plugins/handlers/command.py:254 | `int("imit 3")` fails |
| Commands.ThreeIsANumber | plugins/handlers/command.py:254 | `int("3")` is 3 |
| Commands.EditOfKind | plugins/handlers/command.py:234-250 | as written: an option argument other than `show` and `default` is applied to the context that `get_command_context` as written finds |
| Commands.LimitRule | plugins/handlers/command.py:252-263 | as written: `limit` succeeds exactly for an integer from 2 to 5 and stores it; a non-integer fails with "错误的数值" and an out-of-range integer with "数值超过范围" |
| Commands.MentionRule | plugins/handlers/command.py:264-271 | as written: `mention` succeeds exactly for `on` or `off`, sets the flag accordingly, and otherwise fails with "呼叫选项有误" |
| Commands.ReportModeTable | plugins/handlers/command.py:276-290 | `off`/`auto`/`manual`/`both` and only those set (auto, manual) to (F,F)/(T,F)/(F,T)/(T,T) |
| Commands.ReportModeInjective | plugins/handlers/command.py:276-290 | no two report options give the same flags |
| Commands.ReportRule | plugins/handlers/command.py:272-290 | as written: `report` succeeds exactly for the four options and stores their flags; otherwise it fails with "举报选项有误" |
| Commands.MissingOptionRule | plugins/handlers/command.py:294-296 | an option without a context fails with "命令选项缺失" and keeps the settings |
| Commands.UnknownOptionRule | plugins/handlers/command.py:291-293 | an unknown option fails with "命令类别有误" and keeps the settings |
| Commands.LockRule | plugins/handlers/command.py:233 | within 360 seconds of the lock stamp the command fails with "设置当前被锁定" and keeps the settings |
| Commands.FormatRule | plugins/handlers/command.py:303-305 | a bare `/warn_config` fails with "格式有误" |
| Commands.DefaultRule | plugins/handlers/command.py:246-248 | `default` succeeds, replacing custom settings by the defaults and keeping settings that already are the defaults |
| Commands.FailureKeepsCopy | plugins/handlers/command.py:227-312 | a failed edit leaves the working copy equal to the current settings, and its status line shows one of the eight failure texts, never "已更新" |
| Commands.WarnConfig | plugins/handlers/command.py:220-317 | `/warn_config` changes nothing but the settings, changes nothing at all when it raises, and otherwise ends by deleting the command message |
| Commands.OptionSuccessIsCustom | plugins/handlers/command.py:298-299 | a successful option edit clears the `default` flag, reports "已更新" and keeps the lock stamp |
| Commands.WarnConfigStores | plugins/handlers/command.py:307-309 | the settings are replaced and saved exactly when the edit succeeded and changed them |
| Commands.WarnConfigLocal | plugins/handlers/command.py:307-308 | `/warn_config` changes no other group's settings and nothing outside the settings |
| Commands.EditSettles | plugins/handlers/command.py:307 | repeating a committed edit commits nothing more |
| Commands.OptionSettles | plugins/handlers/command.py:252-299 | applying a successful option edit twice gives the same settings as once |
| Commands.WarnConfigIdempotent | plugins/handlers/command.py:220-317 | running the same `/warn_config` twice leaves the state of the first run and saves nothing the second time |
| Commands.WarnConfigReadOnly | plugins/handlers/command.py:235-245 | `show` and every failed edit leave the state untouched |
| Commands.Admin | plugins/handlers/command.py:45-72 | `/admin` raises exactly for a group without settings, changes nothing but the users and the call ids, and otherwise deletes the command message last |
| Commands.AdminCallsIff | plugins/handlers/command.py:45-70 | `/admin` posts a call exactly when mentions are on, the sender is not an admin, and the sender is neither waiting, banned nor warned in the group; the command is always deleted last |
| Commands.AdminReplacesCall | plugins/handlers/command.py:61-68 | a posted call replaces the group's previous call message, which is deleted when there was one |
| Commands.Punish | plugins/handlers/command.py:77-98 | `/ban`, and `/warn` at lines 194-215 alike, never change the state; they raise exactly when an admin names a target in a group without an admin list, and otherwise delete the command message last |
| Commands.PunishRule | plugins/handlers/command.py:77-98 | the handlers `/ban` and `/warn` themselves leave the state alone and call the user function exactly when an admin names a target who is not an admin of the group; the report stays 180 s with the reason when it has a button, else 15 s |
| Commands.ConfigWarn | plugins/handlers/command.py:103-136 | `/config warn` changes nothing but the settings, raises only for a group without settings, and otherwise deletes the command message last |
| Commands.ConfigWarnStamps | plugins/handlers/command.py:103-133 | `/config warn` opens a settings session and stamps the lock exactly when the last stamp is more than 360 s old; nothing is saved |
| Commands.ConfigSessionLocksWarnConfig | plugins/handlers/command.py:111-112 | for 360 s after `/config warn` opened a session, every `/warn_config` edit fails as locked and changes nothing |
| Commands.Forgive | plugins/handlers/command.py:141-163 | `/forgive` changes nothing but the users, raises only for a group without an admin list or a target without a record, and otherwise deletes the command message last |
| Commands.ForgiveClears | plugins/handlers/command.py:141-163 | after `/forgive` on a non-admin the group is in neither the user's `locked` nor `waiting` set, and the handler itself changes nothing else of any user |
| Commands.Report | plugins/handlers/command.py:168-189 | `/report` changes nothing but the users; it raises exactly for a group without settings, or, with manual reports on, for a real target other than the reporter in a group without an admin list; with manual reports off it asks for nothing; otherwise it deletes the command message last |
| Commands.ReportIff | plugins/handlers/command.py:168-189 | `/report` files a report exactly when manual reporting is on, the target exists and is neither the reporter nor an admin, neither is waiting in the group, and the target is not banned there |
| Callbacks.Answer | plugins/handlers/callbacks.py:38-85 | the handler changes nothing but the users; a payload that does not decode raises and changes nothing; otherwise the target gains a record if they had none, and every other user's record is as before |
| Callbacks.DecodePayload | plugins/handlers/callbacks.py:43-46 | a payload decodes only when `loads` reads a whole object |
| Callbacks.Unlocked | plugins/handlers/callbacks.py:59 | the `finally` discard takes the group out of that user's `locked` set and touches no other user |
| Callbacks.LockedRefuses | plugins/handlers/callbacks.py:61-62 | a button on a user already locked in the group calls nothing, changes nothing and answers "已被其他管理员处理" |
| Callbacks.LockReleased | plugins/handlers/callbacks.py:49-81 | once an undo or report runs, the group is out of the user's `locked` set afterwards, raised or not; the handler itself changes nothing else of that user or of any other, the users are saved, and the run raises exactly when the called function did |
| Callbacks.AnswerUnlocks | plugins/handlers/callbacks.py:50-60 | the state after an undo or report is the initialised users with the group unlocked, whether or not the called function raised |
| Callbacks.LockThenUnlock | plugins/handlers/callbacks.py:51-59 | adding the lock and discarding it again is the same as discarding it |
| Callbacks.Dispatch | plugins/handlers/callbacks.py:52-78 | undo calls `unban_user` for type `ban` and `unwarn_user` otherwise; report calls `ban_user` or `warn_user` the same way and deletes the message after 60 s with a button, 10 s without |
| Callbacks.OtherActionsInert | plugins/handlers/callbacks.py:47-48 | any other action only creates the user's record |
| Callbacks.ReportNeverLocks | plugins/handlers/callbacks.py:63-81 | a report button never adds a group to the `locked` set |
| Callbacks.DecodeButton | plugins/handlers/callbacks.py:43-46 | the handler reads back the action, the type and the user a `button_data` payload was made from, with spaces removed |
| Callbacks.UndoBanButton | plugins/handlers/callbacks.py:48-59 | pressing the undo button of a ban on an unlocked user unbans that user and leaves them unlocked |
| Timers.SweepCalls | plugins/functions/timers.py:65-77 | the call sweep clears exactly the calls a day old or older, deletes each of their messages once, and adds or removes no group |
| Timers.PrunedCallsFresh | plugins/functions/timers.py:67-76 | after the sweep every call is unstamped or younger than a day, and young calls are unchanged |
| Timers.PrunedCallsLater | plugins/functions/timers.py:67-76 | a sweep followed by a later sweep is the later sweep alone, so the sweep is idempotent |
| Timers.ExpiredDeletesSound | plugins/functions/timers.py:91-96 | every delete the report loop asks for is the message of an expired report |
| Timers.ExpiredDeletesComplete | plugins/functions/timers.py:91-96 | the message of every expired report the loop visits is deleted |
| Timers.ExpiredDeletesExact | plugins/functions/timers.py:83-96 | over all the report keys, the loop deletes exactly the expired reports' messages |
| Timers.SweepReport | plugins/functions/timers.py:84-97 | one pass of the report loop drops the visited report unless it is kept, and adds its delete exactly when it is expired |
| Timers.SweepReportsLoop | plugins/functions/timers.py:83-97 | after the report loop the visited reports that are not kept are gone, the rest are untouched, and the deletes are the expired reports' in visiting order |
| Timers.SweptAllPruned | plugins/functions/timers.py:83-97 | once every key is visited, exactly the kept reports are left |
| Timers.SweepReports | plugins/functions/timers.py:81-97 | the report sweep keeps exactly the stamped reports younger than a day and deletes the message of every stamped one a day old or older |
| Timers.PrunedReportsIff | plugins/functions/timers.py:83-97 | a report survives exactly when it has a time stamp and is younger than a day, and it survives unchanged |
| Timers.PrunedReportsLater | plugins/functions/timers.py:83-97 | a report sweep followed by a later one is the later one alone |
| Timers.ClearWaiting | plugins/functions/timers.py:101-103 | every user's `waiting` set becomes empty and nothing else of any user changes |
| Timers.SweptReportsUnblocked | plugins/functions/timers.py:102-103 | after the hourly job a `/report` is never refused for a pending report; all other conditions are as before |
| Timers.IntervalHour01 | plugins/functions/timers.py:61-107 | the hourly job prunes calls and reports and clears the waiting marks, saving each of the three files, and changes nothing else |
| Timers.ResetData | plugins/functions/timers.py:116-144 | the monthly reset cannot fail, and it ends by posting its notice |
| Timers.ResetForgets | plugins/functions/timers.py:119-137 | after the reset every user starts from an empty record and the lists are empty; settings and admin lists are untouched; each cleared file is saved |
| Timers.ResetIdempotent | plugins/functions/timers.py:119-137 | resetting twice is resetting once |
| Timers.FilterAdminsIff | plugins/functions/timers.py:161-163 | an id is in the new admin set exactly when an administrator with it is a live human or one of the project's bots |
| Timers.SelfEmpoweredIff | plugins/functions/timers.py:167-170 | the loop finds an entry of the bot with both rights exactly when one exists |
| Timers.DecideIff | plugins/functions/timers.py:157-170 | the bot stays exactly when its account counts as an admin and its own entry may delete and restrict; it leaves for "user" exactly when the account is missing, and for "permissions" otherwise |
| Timers.RefreshGroup | plugins/functions/timers.py:159-195 | a group ends the job exactly when `get_admins` gives `None`; a new admin set comes only from a list naming the bot, and the bot leaves for "user" exactly when its own account is not in that set |
| Timers.RefreshAll | plugins/functions/timers.py:155-216 | every effect of the job is a save of the admin sets or a leave for a listed group, and the job raises only when some group's admin list is `None` |
| Timers.RefreshAllCrashes | plugins/functions/timers.py:159-195 | the job raises exactly when some group's admin list is `None` |
| Timers.RefreshAllKeys | plugins/functions/timers.py:155-161 | no group is added to or dropped from the admin map |
| Timers.RefreshAllSets | plugins/functions/timers.py:156-163 | every group the job reaches whose admin list names the bot gets its new admin set, even when the bot then asks to leave; every other group keeps its set |
| Timers.ReachedShift | plugins/functions/timers.py:156 | a group reached in the list is either the head or a group reached in the rest |
| Timers.RefreshAllEffects | plugins/functions/timers.py:156-216 | the job's effects are exactly those of the groups it reaches: a save for a group that stays, a request to leave, or an automatic leave |
| Timers.RefreshAllSaves | plugins/functions/timers.py:172-194 | the admin sets are saved exactly when some reached group decides to stay |
| Timers.UpdateAdmins | plugins/functions/timers.py:151-218 | `update_admins` changes only the admin map and keeps its groups |
| Timers.UpdateReportIds | plugins/functions/timers.py:227-239 | the shared set holds exactly the groups with automatic reports on, and the state is untouched |
| Timers.ReportEditShares | plugins/functions/timers.py:230 | after a successful `report` edit the group takes automatic reports exactly for `auto` and `both`, and no other group's membership changes |

## Left out

- The chat library is not modelled: the pyrogram client, the filters, and the message and callback objects. The handlers take the chat, sender, message id, command words and message text as parameters.
- `is_class_c` becomes an `isAdmin` parameter. `get_class_d_id` becomes the target and reply ids, with `0` for none.
- Concurrency is not modelled: `thread`, `delay`, `Timer`, and the `message` and `admin` locks of `plugins/functions/timers.py`. Handlers run one at a time. A message sent or deleted on a thread is recorded as an effect at the point it is started.
- Sending, editing and deleting messages, answering callbacks, `share_data`, `leave_group` and `save` are recorded as effects. Their own failures are not modelled: a `delete_message` that raises inside the hourly loop, or a `get_group_info` that raises in `update_admins`.
- `plugins/functions/users.py`, `group.py`, `telegram.py`, `channel.py`, `file.py` and `ids.py` are not part of this model. Their results are parameters: the text and button flag of `ban_user`, `warn_user`, `forgive_user`, `report_user`, `unban_user` and `unwarn_user`; the sent message id; the result of `get_admins`. These functions' own changes to warnings and bans are not modelled.
- BotData.InitUser: `init_user_id` is not part of this model. It is taken to add an empty record for an unknown user and to leave known users alone.
- `get_now` and `time()` become parameters. `interval_hour_01` reads the clock twice, so it takes two.
- Dictionary iteration order becomes an explicit list of keys (`Timers.Lists`), because Dafny maps are unordered.
- The two revisions of `glovar.message_ids` are kept apart. `plugins/handlers/command.py` stores a bare message id (`State.callIds`). `plugins/functions/timers.py` stores `(mid, time)` (`Timers.CallRecord`).
- Display texts are not modelled, only the reason strings the properties name. These include the `lang(...)` strings, the debug-channel texts, and the group name and link in leave requests. `ResetNotice`, `LeaveRequest` and `LeaveAuto` stand for those messages.
- The debug text that `/config warn` builds and never sends is not modelled.
- `backup_files`, `update_status`, `receive_data`, `random_str` and the `/version` handler are outside the modelled core. They forward data, depend on `eval` or randomness, or only echo a version string.
- Json.LoadsCompact: `json.loads` is modelled only for flat objects whose values are `null`, booleans, integers or strings. Floats, arrays and nested objects are not decoded, because no payload the modelled `answer` handler reads (a `button_data` payload) holds them. `receive_data`, which decodes the nested dumps `format_data` writes, is outside the modelled core.
- Json.LoadsCompact: a lone surrogate escape (`\ud800` without a following low surrogate escape) is rejected, where Python's `json.loads` keeps it as a lone code unit; `Json.Escape` never writes one for a Dafny `char`.
- Json.RemoveSpacesDumps: the read-back lemmas cover two layouts only. `Json.LoadsCompact` is about `CompactLayout` and `Json.RemoveSpacesDumps` about `DefaultLayout`; the `Indented(4)` layout that `TextHelpers.FormatData` uses has no read-back lemma.
- Callbacks.DecodePayload: a payload whose `d` is not an integer is treated as an exception. The source would go on to call `init_user_id` with that value, and `init_user_id` is not part of this model.
- Strings.ParseInt: only ASCII digits are accepted. Python's `int()` also accepts other Unicode decimal digits.
- Group settings always have every key. The source's `new_config.get("report")` fallback for settings without a `report` entry is not modelled.
- The `class_c` filter that admits only admins' button presses to `answer` is not modelled. `Callbacks.Answer` is the handler body.
- Integers are Python integers, unbounded on both sides, so there is no wrap-around to model.
- Each data file is saved right after the change that touches it, as the handlers call `save` (`Save` effects); no timed saving is modelled.

## Findings

| source | as written | input that shows it | evidently intended | confidence | as-written member | corrected member |
|---|---|---|---|---|---|---|
| plugins/functions/etc.py:293 | the context starts `len(command_list[1])` characters past the spaces before the command type, although the loop found the type at `command_list[i]` | `/warn_config  limit 3` (two spaces after the command) gives the context `imit 3` | start after `command_list[i]`, the type the loop found, giving `3` | not executed | TextHelpers.CommandContextAsWritten | TextHelpers.CommandContext |

With a single space between words the two agree (`TextHelpers.CommandContextSingleSpaced`). The as-written behaviour is pinned down by `TextHelpers.CommandContextDoubleSpace`. The corrected one is characterised by `TextHelpers.CommandContextIsRest` and `TextHelpers.CommandContextDoubleSpaceFixed`. `/warn_config` in `Commands` follows the code as written: `Commands.EditConfig` and `Commands.WarnConfig` read the option through `TextHelpers.CommandContextAsWritten`. `Commands.EditConfigIntended` is the same decision with the corrected context. `Commands.DoubleSpacedLimit` shows the two apart on `/warn_config  limit 3`, and `Commands.EditConfigsAgree` shows they agree when no space is doubled.
