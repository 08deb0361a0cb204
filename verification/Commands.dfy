/**
 The group command handlers of `plugins/handlers/command.py`: `/admin`,
 `/ban`, `/warn`, `/config`, `/forgive`, `/report` and `/warn_config`.

 Each handler is a pure step over `BotData.State`. What the chat client
 tells the handler (whether the sender is an admin, the target
 `get_class_d_id` finds, what `ban_user` and its siblings return, the id of
 a sent message, the clock) is a parameter; what it asks the client to do
 is a list of effects.
 */
module Commands {
  import opened Maybe
  import opened Strings
  import opened TextHelpers
  import opened BotData

  // ------------------------------------------------------ /warn_config

  const Updated := "已更新"
  const OutOfRange := "数值超过范围"
  const BadNumber := "错误的数值"
  const BadMention := "呼叫选项有误"
  const BadReport := "举报选项有误"
  const BadType := "命令类别有误"
  const MissingOption := "命令选项缺失"
  const LockedNow := "设置当前被锁定"
  const BadFormat := "格式有误"

  /** Seconds after a settings session starts during which `/warn_config` is refused. */
  const LockWindow := 360

  /** The smallest and largest warning limit `/warn_config limit` accepts. */
  const MinLimit := 2
  const MaxLimit := 5

  /** What an edit came to: whether it succeeded, the reason shown, and the edited copy. */
  datatype Outcome = Outcome(success: bool, reason: string, config: GroupConfig)

  function Fail(reason: string, cfg: GroupConfig): (o: Outcome)
    ensures !o.success && o.config == cfg
  {
    Outcome(false, reason, cfg)
  }

  /** `limit <n>`: `int(n)` must succeed and fall in the accepted range. */
  function LimitEdit(cfg: GroupConfig, context: string): (o: Outcome)
  {
    match ParseInt(context)
    case None => Fail(BadNumber, cfg)
    case Some(v) =>
      if MinLimit <= v <= MaxLimit then Outcome(true, Updated, cfg.(limit := v))
      else Fail(OutOfRange, cfg)
  }

  /** `mention on|off` */
  function MentionEdit(cfg: GroupConfig, context: string): (o: Outcome)
  {
    if context == "off" then Outcome(true, Updated, cfg.(mention := false))
    else if context == "on" then Outcome(true, Updated, cfg.(mention := true))
    else Fail(BadMention, cfg)
  }

  /** The reporting options each `report` mode stands for. */
  function ReportMode(context: string): (r: Option<ReportOptions>)
  {
    if context == "off" then Some(ReportOptions(false, false))
    else if context == "auto" then Some(ReportOptions(true, false))
    else if context == "manual" then Some(ReportOptions(false, true))
    else if context == "both" then Some(ReportOptions(true, true))
    else None
  }

  /** `report off|auto|manual|both` */
  function ReportEdit(cfg: GroupConfig, context: string): (o: Outcome)
  {
    match ReportMode(context)
    case Some(mode) => Outcome(true, Updated, cfg.(report := mode))
    case None => Fail(BadReport, cfg)
  }

  /**
   An edit that names an option: a missing argument is reported before an
   unknown option is.
   */
  function OptionEdit(cfg: GroupConfig, kind: string, context: string): (o: Outcome)
  {
    if context == "" then Fail(MissingOption, cfg)
    else if kind == "limit" then LimitEdit(cfg, context)
    else if kind == "mention" then MentionEdit(cfg, context)
    else if kind == "report" then ReportEdit(cfg, context)
    else Fail(BadType, cfg)
  }

  /** An option edit, with the settings marked custom when it succeeds. */
  function CustomEdit(cfg: GroupConfig, kind: string, context: string): (o: Outcome)
    ensures !o.success ==> o.config == cfg
    ensures o.success ==> o.reason == Updated
  {
    var e := OptionEdit(cfg, kind, context);
    if e.success then e.(config := e.config.(isDefault := false)) else e
  }

  /** What `/warn_config` decides: show the settings, change them (or fail to), or raise. */
  datatype ConfigEdit = ShowSettings | Change(outcome: Outcome) | Raise

  /**
   The decision of `/warn_config` for a group whose settings are `cfg`,
   given the context an option edit reads (`None` when the message has no
   text, where `get_command_context` raises `AttributeError`). `command` is
   the command's argument list as the chat client splits it, `now` the
   current time in seconds. Fewer than two non-empty arguments raise
   `IndexError`.
   */
  function DecideEdit(cfg: GroupConfig, defaults: GroupConfig, command: seq<string>, context: Option<string>, now: int): (e: ConfigEdit)
    ensures e.Change? && !e.outcome.success ==> e.outcome.config == cfg
    ensures e.Change? && e.outcome.success ==> e.outcome.reason == Updated
    ensures e.Raise? ==> |NonEmpty(command)| < 2 || context.None?
  {
    if |command| <= 1 then Change(Fail(BadFormat, cfg))
    else if now - cfg.locked <= LockWindow then Change(Fail(LockedNow, cfg))
    else
      var tokens := NonEmpty(command);
      if |tokens| < 2 then Raise
      else if tokens[1] == "show" then ShowSettings
      else if tokens[1] == "default" then
        Change(Outcome(true, Updated, if cfg.isDefault then cfg else defaults))
      else match context
        case None => Raise
        case Some(c) => Change(CustomEdit(cfg, tokens[1], c))
  }

  /**
   The decision of `/warn_config` as the source makes it: the option's
   context is `get_command_context` as written, so a doubled space before
   the option shifts it (see `TextHelpers.CommandContextAsWritten`).
   Every outcome reports its reason, a failure keeps the settings, and a
   success reports "已更新".
   */
  function EditConfig(cfg: GroupConfig, defaults: GroupConfig, command: seq<string>, text: Option<string>, now: int): (e: ConfigEdit)
    ensures e.Change? && !e.outcome.success ==> e.outcome.config == cfg
    ensures e.Change? && e.outcome.success ==> e.outcome.reason == Updated
    ensures e.Raise? ==> |NonEmpty(command)| < 2 || text.None?
  {
    DecideEdit(cfg, defaults, command, if text.Some? then Some(CommandContextAsWritten(text.value)) else None, now)
  }

  /** The same decision with the corrected context `TextHelpers.CommandContext`. */
  function EditConfigIntended(cfg: GroupConfig, defaults: GroupConfig, command: seq<string>, text: Option<string>, now: int): (e: ConfigEdit)
    ensures e.Change? && !e.outcome.success ==> e.outcome.config == cfg
    ensures e.Change? && e.outcome.success ==> e.outcome.reason == Updated
  {
    DecideEdit(cfg, defaults, command, if text.Some? then Some(CommandContext(text.value)) else None, now)
  }

  function OnOff(b: bool): string {
    if b then "启用" else "禁用"
  }

  /** The settings summary `/warn_config show` posts. */
  function SettingsText(cfg: GroupConfig): string {
    "操作：" + Code("查看设置") + "\n"
    + "设置：" + Code(if cfg.isDefault then "默认" else "自定义") + "\n"
    + "警告上限：" + Code(IntToString(cfg.limit)) + "\n"
    + "呼叫管理：" + Code(OnOff(cfg.mention)) + "\n"
    + "自动举报：" + Code(OnOff(cfg.report.auto)) + "\n"
    + "手动举报：" + Code(OnOff(cfg.report.manual))
  }

  /** The status report after a change: the result line and how long it stays up. */
  function ChangeReport(gid: int, head: string, o: Outcome): Effect {
    SendReport(if o.success then 10 else 5, gid, head + "操作：" + Code("更改设置") + "\n" + "状态：" + Code(o.reason), 0, false)
  }

  /** Whether an outcome is stored: it succeeded and differs from the current settings. */
  predicate Commits(e: ConfigEdit, cfg: GroupConfig) {
    e.Change? && e.outcome.success && e.outcome.config != cfg
  }

  /**
   `/warn_config` in group `gid`, sent by `aid`; `isAdmin` is what
   `is_class_c` says of the sender.
   */
  function WarnConfig(s: State, gid: int, mid: int, isAdmin: bool, aid: int, command: seq<string>, text: Option<string>, now: int): (r: Step)
    ensures r.state == s.(configs := r.state.configs)
    ensures r.crashed ==> r.state == s
    ensures !r.crashed ==> |r.effects| > 0 && r.effects[|r.effects| - 1] == Delete(gid, mid)
  {
    if !isAdmin then Step(s, [Delete(gid, mid)], false)
    else if gid !in s.configs then Step(s, [], true)
    else
      var cfg := s.configs[gid];
      var head := "管理员：" + UserMention(aid) + "\n";
      var e := EditConfig(cfg, s.defaultConfig, command, text, now);
      match e
      case Raise => Step(s, [], true)
      case ShowSettings => Step(s, [SendReport(30, gid, head + SettingsText(cfg), 0, false), Delete(gid, mid)], false)
      case Change(o) =>
        if Commits(e, cfg) then
          Step(s.(configs := s.configs[gid := o.config]), [Save("configs"), ChangeReport(gid, head, o), Delete(gid, mid)], false)
        else
          Step(s, [ChangeReport(gid, head, o), Delete(gid, mid)], false)
  }

  // ---------------------------------------------- /warn_config properties

  /**
   The command gets past the format and lock checks and names `kind` as
   its second non-empty argument.
   */
  predicate Reaches(cfg: GroupConfig, command: seq<string>, now: int, kind: string) {
    |command| > 1 && now - cfg.locked > LockWindow && |NonEmpty(command)| >= 2 && NonEmpty(command)[1] == kind
  }

  /** An option edit: any second argument but `show` and `default`. */
  predicate IsOptionKind(kind: string) {
    kind != "show" && kind != "default"
  }

  lemma EditOfKind(cfg: GroupConfig, defaults: GroupConfig, command: seq<string>, t: string, now: int, kind: string)
    requires Reaches(cfg, command, now, kind) && IsOptionKind(kind)
    ensures EditConfig(cfg, defaults, command, Some(t), now) == Change(CustomEdit(cfg, kind, CommandContextAsWritten(t)))
  {
  }

  /**
   With a single space between the words, the decision as written and the
   corrected one agree.
   */
  lemma EditConfigsAgree(cfg: GroupConfig, defaults: GroupConfig, command: seq<string>, t: string, now: int)
    requires forall piece :: piece in Split(t, ' ') ==> piece != ""
    ensures EditConfig(cfg, defaults, command, Some(t), now) == EditConfigIntended(cfg, defaults, command, Some(t), now)
  {
    CommandContextSingleSpaced(t);
  }

  /**
   `/warn_config  limit 3`, with two spaces before the option: as written
   the context read is `imit 3`, which is no number, so the edit fails;
   the corrected decision sets the limit to 3.
   */
  lemma DoubleSpacedLimit(cfg: GroupConfig, defaults: GroupConfig, command: seq<string>, now: int, t: string)
    requires Reaches(cfg, command, now, "limit") && t == "/warn_config  limit 3"
    ensures EditConfig(cfg, defaults, command, Some(t), now) == Change(Fail(BadNumber, cfg))
    ensures EditConfigIntended(cfg, defaults, command, Some(t), now) == Change(Outcome(true, Updated, cfg.(limit := 3, isDefault := false)))
  {
    CommandContextDoubleSpace(t);
    CommandContextDoubleSpaceFixed(t);
    NotANumber("imit 3");
    ThreeIsANumber("3");
  }

  lemma NotANumber(c: string)
    requires c == "imit 3"
    ensures ParseInt(c) == None
  {
    StripUnpadded(c);
  }

  lemma ThreeIsANumber(c: string)
    requires c == "3"
    ensures ParseInt(c) == Some(3)
  {
    StripUnpadded(c);
    assert IsDigitRun(c);
    assert c[..0] == [];
    assert DigitsValue(c) == DigitsValue(c[..0]) * 10 + 3;
  }

  /**
   `limit`: the edit succeeds exactly when the argument reads as an
   integer from 2 to 5, and then sets the limit to it and marks the
   settings custom; a non-integer and an out-of-range integer each fail
   with their own reason.
   */
  lemma LimitRule(cfg: GroupConfig, defaults: GroupConfig, command: seq<string>, t: string, now: int, context: string)
    requires Reaches(cfg, command, now, "limit") && context == CommandContextAsWritten(t) && context != ""
    ensures var e := EditConfig(cfg, defaults, command, Some(t), now); var n := ParseInt(context);
      && e.Change?
      && (e.outcome.success <==> n.Some? && MinLimit <= n.value <= MaxLimit)
      && (e.outcome.success ==> e.outcome.config == cfg.(limit := n.value, isDefault := false))
      && (n.None? ==> e.outcome.reason == BadNumber)
      && (n.Some? && !(MinLimit <= n.value <= MaxLimit) ==> e.outcome.reason == OutOfRange)
  {
    EditOfKind(cfg, defaults, command, t, now, "limit");
  }

  /** `mention`: only `on` and `off` are accepted, and they switch calling the admins on and off. */
  lemma MentionRule(cfg: GroupConfig, defaults: GroupConfig, command: seq<string>, t: string, now: int, context: string)
    requires Reaches(cfg, command, now, "mention") && context == CommandContextAsWritten(t) && context != ""
    ensures var e := EditConfig(cfg, defaults, command, Some(t), now);
      && e.Change?
      && (e.outcome.success <==> context == "on" || context == "off")
      && (e.outcome.success ==> e.outcome.config == cfg.(mention := context == "on", isDefault := false))
      && (!e.outcome.success ==> e.outcome.reason == BadMention)
  {
    EditOfKind(cfg, defaults, command, t, now, "mention");
  }

  /**
   The four reporting modes, and nothing else, name reporting options,
   each a different pair (automatic, manual).
   */
  lemma ReportModeTable(context: string)
    ensures ReportMode(context).Some? <==> context in {"off", "auto", "manual", "both"}
    ensures context == "off" ==> ReportMode(context) == Some(ReportOptions(false, false))
    ensures context == "auto" ==> ReportMode(context) == Some(ReportOptions(true, false))
    ensures context == "manual" ==> ReportMode(context) == Some(ReportOptions(false, true))
    ensures context == "both" ==> ReportMode(context) == Some(ReportOptions(true, true))
  {
  }

  lemma ReportModeInjective(a: string, b: string)
    requires ReportMode(a).Some? && ReportMode(a) == ReportMode(b)
    ensures a == b
  {
  }

  /** `report`: only a reporting mode is accepted, and it sets both reporting flags. */
  lemma ReportRule(cfg: GroupConfig, defaults: GroupConfig, command: seq<string>, t: string, now: int, context: string)
    requires Reaches(cfg, command, now, "report") && context == CommandContextAsWritten(t) && context != ""
    ensures var e := EditConfig(cfg, defaults, command, Some(t), now);
      && e.Change?
      && (e.outcome.success <==> ReportMode(context).Some?)
      && (e.outcome.success ==> e.outcome.config == cfg.(report := ReportMode(context).value, isDefault := false))
      && (!e.outcome.success ==> e.outcome.reason == BadReport)
  {
    EditOfKind(cfg, defaults, command, t, now, "report");
  }

  /** An option edit without an argument fails, whatever the option. */
  lemma MissingOptionRule(cfg: GroupConfig, defaults: GroupConfig, command: seq<string>, t: string, now: int, kind: string)
    requires Reaches(cfg, command, now, kind) && IsOptionKind(kind) && CommandContextAsWritten(t) == ""
    ensures EditConfig(cfg, defaults, command, Some(t), now) == Change(Fail(MissingOption, cfg))
  {
    EditOfKind(cfg, defaults, command, t, now, kind);
  }

  /** An argument after an unknown option fails with the unknown-option reason. */
  lemma UnknownOptionRule(cfg: GroupConfig, defaults: GroupConfig, command: seq<string>, t: string, now: int, kind: string)
    requires Reaches(cfg, command, now, kind) && CommandContextAsWritten(t) != ""
    requires kind !in {"show", "default", "limit", "mention", "report"}
    ensures EditConfig(cfg, defaults, command, Some(t), now) == Change(Fail(BadType, cfg))
  {
    EditOfKind(cfg, defaults, command, t, now, kind);
  }

  /** Within the lock window every command with an argument fails, whatever it says. */
  lemma LockRule(cfg: GroupConfig, defaults: GroupConfig, command: seq<string>, text: Option<string>, now: int)
    requires |command| > 1 && now - cfg.locked <= LockWindow
    ensures EditConfig(cfg, defaults, command, text, now) == Change(Fail(LockedNow, cfg))
  {
  }

  /** A bare `/warn_config` fails with the format reason. */
  lemma FormatRule(cfg: GroupConfig, defaults: GroupConfig, command: seq<string>, text: Option<string>, now: int)
    requires |command| <= 1
    ensures EditConfig(cfg, defaults, command, text, now) == Change(Fail(BadFormat, cfg))
  {
  }

  /** `default` always succeeds; it swaps in the default settings only when the current ones are custom. */
  lemma DefaultRule(cfg: GroupConfig, defaults: GroupConfig, command: seq<string>, text: Option<string>, now: int)
    requires Reaches(cfg, command, now, "default")
    ensures var e := EditConfig(cfg, defaults, command, text, now);
      e.Change? && e.outcome.success && (e.outcome.config == if cfg.isDefault then cfg else defaults)
  {
  }

  /** The status texts a failed `/warn_config` can report; "已更新" is not among them. */
  const FailureReasons := {OutOfRange, BadNumber, BadMention, BadReport, BadType, MissingOption, LockedNow, BadFormat}

  /**
   A failed edit leaves its copy of the settings as it was and reports one
   of the failure texts, so the status line never reads "已更新" for it.
   */
  lemma FailureKeepsCopy(cfg: GroupConfig, defaults: GroupConfig, command: seq<string>, text: Option<string>, now: int)
    ensures var e := EditConfig(cfg, defaults, command, text, now);
      e.Change? && !e.outcome.success ==> e.outcome.config == cfg && e.outcome.reason in FailureReasons && e.outcome.reason != Updated
  {
  }

  /** A successful option edit marks the settings custom and keeps the lock time. */
  lemma OptionSuccessIsCustom(cfg: GroupConfig, kind: string, context: string)
    ensures var o := CustomEdit(cfg, kind, context);
      o.success ==> !o.config.isDefault && o.config.locked == cfg.locked && o.reason == Updated
  {
  }

  /**
   `/warn_config` stores the edited settings, and saves them, exactly when
   the edit succeeded and changed something; otherwise nothing changes.
   It raises only where `EditConfig` does (or on a group without settings).
   */
  lemma WarnConfigStores(s: State, gid: int, mid: int, aid: int, command: seq<string>, text: Option<string>, now: int)
    requires gid in s.configs
    ensures var r := WarnConfig(s, gid, mid, true, aid, command, text, now);
      var e := EditConfig(s.configs[gid], s.defaultConfig, command, text, now);
      && (r.crashed <==> e.Raise?)
      && (Commits(e, s.configs[gid]) ==> r.state == s.(configs := s.configs[gid := e.outcome.config]))
      && (!Commits(e, s.configs[gid]) ==> r.state == s)
      && (Saves(r.effects, "configs") <==> Commits(e, s.configs[gid]))
  {
  }

  /** `/warn_config` touches no state but the settings of its own group. */
  lemma WarnConfigLocal(s: State, gid: int, mid: int, isAdmin: bool, aid: int, command: seq<string>, text: Option<string>, now: int)
    ensures var r := WarnConfig(s, gid, mid, isAdmin, aid, command, text, now);
      && r.state == s.(configs := r.state.configs)
      && r.state.configs.Keys == s.configs.Keys
      && (forall g :: g in s.configs && g != gid ==> r.state.configs[g] == s.configs[g])
  {
  }

  /** After a stored edit the same edit changes nothing more. */
  lemma EditSettles(cfg: GroupConfig, defaults: GroupConfig, command: seq<string>, text: Option<string>, now: int)
    requires Commits(EditConfig(cfg, defaults, command, text, now), cfg)
    ensures !Commits(EditConfig(EditConfig(cfg, defaults, command, text, now).outcome.config, defaults, command, text, now),
                     EditConfig(cfg, defaults, command, text, now).outcome.config)
  {
    var tokens := NonEmpty(command);
    var next := EditConfig(cfg, defaults, command, text, now).outcome.config;
    if tokens[1] != "default" {
      OptionSettles(cfg, tokens[1], CommandContextAsWritten(text.value));
    }
  }

  /** Re-applying a successful option edit to its own result gives that result again. */
  lemma OptionSettles(cfg: GroupConfig, kind: string, context: string)
    requires CustomEdit(cfg, kind, context).success
    ensures CustomEdit(CustomEdit(cfg, kind, context).config, kind, context).config == CustomEdit(cfg, kind, context).config
  {
  }

  /** Sending the same `/warn_config` twice changes the settings at most once. */
  lemma {:induction false} WarnConfigIdempotent(s: State, gid: int, mid: int, isAdmin: bool, aid: int, command: seq<string>, text: Option<string>, now: int)
    ensures var r1 := WarnConfig(s, gid, mid, isAdmin, aid, command, text, now);
      var r2 := WarnConfig(r1.state, gid, mid, isAdmin, aid, command, text, now);
      r2.state == r1.state && !Saves(r2.effects, "configs")
  {
    if isAdmin && gid in s.configs {
      var cfg := s.configs[gid];
      var e := EditConfig(cfg, s.defaultConfig, command, text, now);
      WarnConfigStores(s, gid, mid, aid, command, text, now);
      var r1 := WarnConfig(s, gid, mid, isAdmin, aid, command, text, now);
      WarnConfigStores(r1.state, gid, mid, aid, command, text, now);
      if Commits(e, cfg) {
        EditSettles(cfg, s.defaultConfig, command, text, now);
      }
    }
  }

  /** `show` and every failure leave the state as it was. */
  lemma WarnConfigReadOnly(s: State, gid: int, mid: int, aid: int, command: seq<string>, text: Option<string>, now: int)
    requires gid in s.configs
    requires var e := EditConfig(s.configs[gid], s.defaultConfig, command, text, now);
      e.ShowSettings? || (e.Change? && !e.outcome.success)
    ensures WarnConfig(s, gid, mid, true, aid, command, text, now).state == s
  {
  }

  // ------------------------------------------------------ /admin

  /** A user may call the admins of `gid` unless a report on them is pending, or they are banned or warned there. */
  predicate MayCall(u: UserRecord, gid: int) {
    gid !in u.waiting && gid !in u.ban && gid !in u.warn
  }

  /** The call text: who calls, then the admin mentions, then the reason if the message gives one. */
  function CallText(uid: int, adminText: string, text: Option<string>): string {
    GetReason(text, "来自用户：" + UserMention(uid) + "\n" + "呼叫管理：" + adminText)
  }

  /** `glovar.message_ids.get(gid, 0)`: the group's current call message, `0` if none. */
  function PreviousCall(s: State, gid: int): int {
    if gid in s.callIds then s.callIds[gid] else 0
  }

  /**
   `/admin` from `uid` in group `gid`: if the group allows it and the
   sender is neither an admin nor barred, post a call to the admins
   (`adminText` is what `get_admin_text` gives; `sent` the id of the posted
   message, `0` when sending failed), replace the group's previous call
   message by it, and delete the command.
   */
  function Admin(s: State, gid: int, mid: int, isAdmin: bool, uid: int, text: Option<string>, adminText: string, sent: int): (r: Step)
    ensures r.crashed <==> gid !in s.configs
    ensures !r.crashed ==> |r.effects| > 0 && r.effects[|r.effects| - 1] == Delete(gid, mid)
    ensures r.state == s.(users := r.state.users, callIds := r.state.callIds)
  {
    if gid !in s.configs then Step(s, [], true)
    else if !s.configs[gid].mention || isAdmin then Step(s, [Delete(gid, mid)], false)
    else
      var users := InitUser(s.users, uid);
      var s1 := s.(users := users);
      if !MayCall(users[uid], gid) then Step(s1, [Delete(gid, mid)], false)
      else
        var call := Send(gid, CallText(uid, adminText, text), 0, false);
        if sent == 0 then Step(s1, [call, Delete(gid, mid)], false)
        else
          var previous := PreviousCall(s, gid);
          var drop := if previous != 0 then [Delete(gid, previous)] else [];
          Step(s1.(callIds := s.callIds[gid := sent]), [call] + drop + [Delete(gid, mid)], false)
  }

  /**
   `/admin` posts a call exactly when the group allows calls and the sender
   is not an admin and has no pending report, ban or warning there.
   */
  lemma AdminCallsIff(s: State, gid: int, mid: int, isAdmin: bool, uid: int, text: Option<string>, adminText: string, sent: int)
    requires gid in s.configs
    ensures var r := Admin(s, gid, mid, isAdmin, uid, text, adminText, sent);
      && !r.crashed
      && ((exists e :: e in r.effects && e.Send?) <==>
          s.configs[gid].mention && !isAdmin && (uid in s.users ==> MayCall(s.users[uid], gid)))
      && r.effects[|r.effects| - 1] == Delete(gid, mid)
  {
    var r := Admin(s, gid, mid, isAdmin, uid, text, adminText, sent);
    if !s.configs[gid].mention || isAdmin || !MayCall(InitUser(s.users, uid)[uid], gid) {
      assert r.effects == [Delete(gid, mid)];
    } else {
      assert r.effects[0] in r.effects;
    }
  }

  /**
   A posted call becomes the group's call message, and the one it replaces,
   if any, is deleted; only the caller's record and the call map change.
   */
  lemma AdminReplacesCall(s: State, gid: int, mid: int, uid: int, text: Option<string>, adminText: string, sent: int)
    requires gid in s.configs && s.configs[gid].mention
    requires MayCall(InitUser(s.users, uid)[uid], gid) && sent != 0
    ensures var r := Admin(s, gid, mid, false, uid, text, adminText, sent);
      && r.state == s.(users := InitUser(s.users, uid), callIds := s.callIds[gid := sent])
      && (PreviousCall(s, gid) != 0 ==> |r.effects| == 3 && r.effects[1] == Delete(gid, PreviousCall(s, gid)))
      && (PreviousCall(s, gid) == 0 ==> |r.effects| == 2)
  {
  }

  // ------------------------------------------------------ /ban and /warn

  datatype Punishment = BanUser | WarnUser

  /**
   `/ban` or `/warn` by admin `aid` against `uid` (`0` when
   `get_class_d_id` found nobody), replying to `reMid`. `result` is what
   `ban_user` or `warn_user` returns: the report text and whether it comes
   with an undo button. A report with a button stays up 180 seconds and
   carries the reason; one without stays 15 seconds.
   */
  function Punish(kind: Punishment, s: State, gid: int, mid: int, isAdmin: bool, aid: int, uid: int, reMid: int,
                  result: (string, bool), text: Option<string>): (r: Step)
    ensures r.state == s
    ensures r.crashed <==> isAdmin && uid != 0 && gid !in s.adminIds
    ensures !r.crashed ==> |r.effects| > 0 && r.effects[|r.effects| - 1] == Delete(gid, mid)
  {
    if !isAdmin || uid == 0 then Step(s, [Delete(gid, mid)], false)
    else if gid !in s.adminIds then Step(s, [], true)
    else if uid in s.adminIds[gid] then Step(s, [Delete(gid, mid)], false)
    else
      var (msg, markup) := result;
      var secs := if markup then 180 else 15;
      var body := if markup then GetReason(text, msg) else msg;
      var action := if kind == BanUser then "ban_user" else "warn_user";
      var reply := if kind == BanUser then 0 else mid;
      var drop := if reMid != 0 then [Delete(gid, reMid)] else [];
      Step(s, [Call(action, uid, aid), SendReport(secs, gid, body, reply, markup)] + drop + [Delete(gid, mid)], false)
  }

  /**
   `/ban` and `/warn` act only on a found target who is not an admin of the
   group, never touch the modelled state, and choose the report's lifetime
   and reason line by whether it has an undo button.
   */
  lemma PunishRule(kind: Punishment, s: State, gid: int, mid: int, isAdmin: bool, aid: int, uid: int, reMid: int,
                   result: (string, bool), text: Option<string>)
    ensures var r := Punish(kind, s, gid, mid, isAdmin, aid, uid, reMid, result, text);
      && r.state == s
      && ((exists e :: e in r.effects && e.Call?) <==> isAdmin && uid != 0 && gid in s.adminIds && uid !in s.adminIds[gid])
      && (forall e :: e in r.effects && e.SendReport? ==>
            && e.markup == result.1
            && (e.secs == 180 <==> result.1) && (e.secs == 15 <==> !result.1)
            && (!result.1 ==> e.text == result.0)
            && (result.1 ==> e.text == GetReason(text, result.0)))
  {
    var r := Punish(kind, s, gid, mid, isAdmin, aid, uid, reMid, result, text);
    if isAdmin && uid != 0 && gid in s.adminIds && uid !in s.adminIds[gid] {
      assert r.effects[0] in r.effects;
    }
  }

  // ------------------------------------------------------ /config warn

  function Lower(c: char): char {
    if 'A' <= c <= 'Z' then (c as int + 32) as char else c
  }

  /** `re.search("^warn$", w, re.I)`: `warn` in any letter case, optionally followed by one final newline. */
  predicate IsWarnWord(w: string) {
    var core := if |w| == 5 && w[4] == '\n' then w[..4] else w;
    |core| == 4 && Lower(core[0]) == 'w' && Lower(core[1]) == 'a' && Lower(core[2]) == 'r' && Lower(core[3]) == 'n'
  }

  /**
   `/config warn` by admin `aid`: unless a settings session started within
   the lock window, start one: stamp the group's lock with `now` and ask
   the settings bot to open a session with the stamped settings. The lock
   stamp is kept in memory only; nothing is saved.
   */
  function ConfigWarn(s: State, gid: int, mid: int, isAdmin: bool, aid: int, command: seq<string>, now: int): (r: Step)
    ensures r.state == s.(configs := r.state.configs)
    ensures r.crashed ==> gid !in s.configs
    ensures !r.crashed ==> |r.effects| > 0 && r.effects[|r.effects| - 1] == Delete(gid, mid)
  {
    var args := NonEmpty(command);
    if !isAdmin || !(|args| == 2 && IsWarnWord(args[1])) then Step(s, [Delete(gid, mid)], false)
    else if gid !in s.configs then Step(s, [], true)
    else if now - s.configs[gid].locked > LockWindow then
      var cfg := s.configs[gid].(locked := now);
      Step(s.(configs := s.configs[gid := cfg]), [ConfigAsk(gid, aid, cfg, s.defaultConfig), Delete(gid, mid)], false)
    else Step(s, [Delete(gid, mid)], false)
  }

  /** `/config warn` stamps the lock exactly when it opens a session, and changes nothing else. */
  lemma ConfigWarnStamps(s: State, gid: int, mid: int, aid: int, command: seq<string>, now: int)
    requires gid in s.configs && |NonEmpty(command)| == 2 && IsWarnWord(NonEmpty(command)[1])
    ensures var r := ConfigWarn(s, gid, mid, true, aid, command, now); var cfg := s.configs[gid];
      && !r.crashed
      && ((exists e :: e in r.effects && e.ConfigAsk?) <==> now - cfg.locked > LockWindow)
      && (now - cfg.locked > LockWindow ==> r.state == s.(configs := s.configs[gid := cfg.(locked := now)]))
      && (now - cfg.locked <= LockWindow ==> r.state == s)
      && !Saves(r.effects, "configs")
  {
    var r := ConfigWarn(s, gid, mid, true, aid, command, now);
    if now - s.configs[gid].locked > LockWindow {
      assert r.effects[0] in r.effects;
    }
  }

  /**
   While the session `/config warn` opened is within its lock window,
   every `/warn_config` with an argument fails with the lock reason and
   changes nothing.
   */
  lemma ConfigSessionLocksWarnConfig(s: State, gid: int, mid: int, aid: int, command: seq<string>, now: int,
                                     mid2: int, command2: seq<string>, text2: Option<string>, later: int)
    requires gid in s.configs && |NonEmpty(command)| == 2 && IsWarnWord(NonEmpty(command)[1])
    requires now - s.configs[gid].locked > LockWindow
    requires now <= later <= now + LockWindow && |command2| > 1
    ensures var s1 := ConfigWarn(s, gid, mid, true, aid, command, now).state;
      var r := WarnConfig(s1, gid, mid2, true, aid, command2, text2, later);
      r.state == s1 && !r.crashed
      && ChangeReport(gid, "管理员：" + UserMention(aid) + "\n", Fail(LockedNow, s1.configs[gid])) in r.effects
  {
    var s1 := ConfigWarn(s, gid, mid, true, aid, command, now).state;
    ConfigWarnStamps(s, gid, mid, aid, command, now);
    LockRule(s1.configs[gid], s1.defaultConfig, command2, text2, later);
  }

  // ------------------------------------------------------ /forgive

  /**
   `/forgive` by admin `aid` on `uid`: after `forgive_user` (which returns
   the report text and whether it succeeded), the group leaves the target's
   `locked` and `waiting` sets. A target without a record raises `KeyError`.
   */
  function Forgive(s: State, gid: int, mid: int, isAdmin: bool, aid: int, uid: int, result: (string, bool), text: Option<string>): (r: Step)
    ensures r.state == s.(users := r.state.users)
    ensures r.crashed ==> gid !in s.adminIds || uid !in s.users
    ensures !r.crashed ==> |r.effects| > 0 && r.effects[|r.effects| - 1] == Delete(gid, mid)
  {
    if !isAdmin || uid == 0 then Step(s, [Delete(gid, mid)], false)
    else if gid !in s.adminIds then Step(s, [], true)
    else if uid in s.adminIds[gid] then Step(s, [Delete(gid, mid)], false)
    else
      var call := Call("forgive_user", uid, aid);
      if uid !in s.users then Step(s, [call], true)
      else
        var u := s.users[uid];
        var cleared := u.(locked := u.locked - {gid}, waiting := u.waiting - {gid});
        var (msg, ok) := result;
        var report := SendReport(if ok then 180 else 15, gid, if ok then GetReason(text, msg) else msg, 0, false);
        Step(s.(users := s.users[uid := cleared]), [call, Save("user_ids"), report, Delete(gid, mid)], false)
  }

  /**
   After `/forgive` on a non-admin target the group is in neither the
   target's `locked` nor `waiting` set; everything else about every user
   stays as it was.
   */
  lemma ForgiveClears(s: State, gid: int, mid: int, aid: int, uid: int, result: (string, bool), text: Option<string>)
    requires uid != 0 && gid in s.adminIds && uid !in s.adminIds[gid] && uid in s.users
    ensures var r := Forgive(s, gid, mid, true, aid, uid, result, text); var u := r.state.users[uid];
      && !r.crashed && uid in r.state.users
      && gid !in u.locked && gid !in u.waiting
      && u.locked + {gid} >= s.users[uid].locked && u.locked <= s.users[uid].locked
      && u.waiting + {gid} >= s.users[uid].waiting && u.waiting <= s.users[uid].waiting
      && u.ban == s.users[uid].ban && u.warn == s.users[uid].warn
      && r.state.users.Keys == s.users.Keys
      && (forall v :: v in s.users && v != uid ==> r.state.users[v] == s.users[v])
      && r.state == s.(users := r.state.users)
  {
  }

  // ------------------------------------------------------ /report

  /** `uid` is waiting for a report outcome in `gid`. */
  predicate Waiting(users: map<int, UserRecord>, uid: int, gid: int) {
    uid in users && gid in users[uid].waiting
  }

  predicate Banned(users: map<int, UserRecord>, uid: int, gid: int) {
    uid in users && gid in users[uid].ban
  }

  /**
   `/report` by `rid` against `uid` (`0` when nobody was found), replying
   to `reMid`. `result` is what `report_user` returns. Both users get a
   record first.
   */
  function Report(s: State, gid: int, mid: int, rid: int, uid: int, reMid: int, result: (string, bool), text: Option<string>): (r: Step)
    ensures r.state == s.(users := r.state.users)
    ensures r.crashed <==> gid !in s.configs || (s.configs[gid].report.manual && uid != 0 && uid != rid && gid !in s.adminIds)
    ensures gid in s.configs && s.configs[gid].report.manual && !r.crashed ==>
      |r.effects| > 0 && r.effects[|r.effects| - 1] == Delete(gid, mid)
    ensures gid in s.configs && !s.configs[gid].report.manual ==> r.effects == []
  {
    if gid !in s.configs then Step(s, [], true)
    else if !s.configs[gid].report.manual then Step(s, [], false)
    else
      var users := InitUser(InitUser(s.users, rid), uid);
      var s1 := s.(users := users);
      if uid == 0 || uid == rid then Step(s1, [Delete(gid, mid)], false)
      else if gid !in s.adminIds then Step(s1, [], true)
      else if uid in s.adminIds[gid] || gid in users[rid].waiting || gid in users[uid].waiting || gid in users[uid].ban then
        Step(s1, [Delete(gid, mid)], false)
      else
        var (msg, markup) := result;
        Step(s1, [Call("report_user", uid, rid), Send(gid, GetReason(text, msg), reMid, markup), Delete(gid, mid)], false)
  }

  /** The conditions under which `/report` files a report, stated on the state before the command. */
  predicate MayReport(s: State, gid: int, rid: int, uid: int) {
    && gid in s.configs && s.configs[gid].report.manual
    && uid != 0 && uid != rid
    && gid in s.adminIds && uid !in s.adminIds[gid]
    && !Waiting(s.users, rid, gid) && !Waiting(s.users, uid, gid)
    && !Banned(s.users, uid, gid)
  }

  /**
   `/report` files a report exactly when manual reporting is on, the
   target exists, is not the reporter and not an admin, neither of them is
   waiting on a report in the group, and the target is not banned there.
   Only the two users' records may be added; nothing else changes.
   */
  lemma ReportIff(s: State, gid: int, mid: int, rid: int, uid: int, reMid: int, result: (string, bool), text: Option<string>)
    requires gid in s.configs && gid in s.adminIds
    ensures var r := Report(s, gid, mid, rid, uid, reMid, result, text);
      && !r.crashed
      && (Call("report_user", uid, rid) in r.effects <==> MayReport(s, gid, rid, uid))
      && (forall e :: e in r.effects ==> e.Call? ==> e == Call("report_user", uid, rid))
      && r.state == s.(users := r.state.users)
      && (forall v :: v in s.users ==> v in r.state.users && r.state.users[v] == s.users[v])
  {
    var users := InitUser(InitUser(s.users, rid), uid);
    assert Waiting(users, rid, gid) <==> Waiting(s.users, rid, gid);
    assert Waiting(users, uid, gid) <==> Waiting(s.users, uid, gid);
    assert Banned(users, uid, gid) <==> Banned(s.users, uid, gid);
  }
}
