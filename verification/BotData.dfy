/**
 The bot's in-memory state (`glovar`) and the effects a handler leaves
 behind. A handler is a pure step from one state to the next; what it would
 send, delete, save or share is recorded as a list of effects instead of
 being performed.
 */
module BotData {
  import opened Maybe

  /** `config["report"]`: whether automatic and manual reporting are on. */
  datatype ReportOptions = ReportOptions(auto: bool, manual: bool)

  /**
   One group's settings, `glovar.configs[gid]`: whether they are the
   defaults, the warning limit, whether members may call the admins, the
   reporting options, and when a settings session last locked them.
   */
  datatype GroupConfig = GroupConfig(
    isDefault: bool,
    limit: int,
    mention: bool,
    report: ReportOptions,
    locked: int)

  /**
   One user's status, `glovar.user_ids[uid]`: the groups that banned them,
   the groups where an admin action on them is in progress, the groups
   where a report about them is pending, and their warning count per group.
   */
  datatype UserRecord = UserRecord(
    ban: set<int>,
    locked: set<int>,
    waiting: set<int>,
    warn: map<int, int>)

  const EmptyUser := UserRecord({}, {}, {}, map[])

  /** `init_user_id(uid)`: give `uid` an empty record unless it has one. */
  function InitUser(users: map<int, UserRecord>, uid: int): (r: map<int, UserRecord>)
    ensures uid in r && r.Keys == users.Keys + {uid}
    ensures uid in users ==> r == users
    ensures uid !in users ==> r[uid] == EmptyUser
    ensures forall u :: u in users ==> u in r && r[u] == users[u]
  {
    if uid in users then users else users[uid := EmptyUser]
  }

  /** What `glovar.reports` holds per report key. */
  datatype ReportRecord = ReportRecord(time: int, groupId: int, reportId: int)

  /**
   The parts of `glovar` the handlers read and write. `callIds` is the
   admin-call message per group as `plugins/handlers/command.py` keeps it
   (a bare message id); the hourly timer's revision of the same map is a
   separate value (see `Timers`).
   */
  datatype State = State(
    configs: map<int, GroupConfig>,
    defaultConfig: GroupConfig,
    users: map<int, UserRecord>,
    adminIds: map<int, set<int>>,
    callIds: map<int, int>,
    reports: map<string, ReportRecord>,
    badUsers: set<int>,
    leftGroups: set<int>,
    watchBan: map<int, int>,
    watchDelete: map<int, int>)

  /**
   An effect a handler asks for. Message ids of `0` stand for Python's
   falsy "no message" (`None` or `0`).
   */
  datatype Effect =
    | Send(chat: int, text: string, replyTo: int, markup: bool)
    | SendReport(secs: int, chat: int, text: string, replyTo: int, markup: bool)
    | Delete(chat: int, mid: int)
    | DeleteLater(secs: int, chat: int, mids: seq<int>)
    | Edit(chat: int, mid: int, text: string, markup: bool)
    | AnswerCallback(text: string)
    | Save(file: string)
    | Call(action: string, user: int, admin: int)
    | ConfigAsk(group: int, user: int, config: GroupConfig, defaults: GroupConfig)
    | LeaveRequest(group: int, reason: string)
    | LeaveAuto(group: int)
    | ShareReportIds(groups: set<int>)
    | ResetNotice

  /**
   The result of one handler run: the new state, the effects in the order
   they were requested, and whether an exception ended the run (the
   handler's outer `except` logs it; the state is what it was when the
   exception was raised).
   */
  datatype Step = Step(state: State, effects: seq<Effect>, crashed: bool)

  /** The effect list holds a `Save` of `file`. */
  predicate Saves(effects: seq<Effect>, file: string) {
    Save(file) in effects
  }
}
