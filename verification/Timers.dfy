/**
 The periodic jobs of `plugins/functions/timers.py`: the hourly sweep of
 old admin calls, old reports and pending-report marks, the monthly reset,
 the daily refresh of each group's admin list with the decision to leave a
 group, and the set of groups that want automatic reports.
 */
module Timers {
  import opened Maybe
  import opened BotData
  import opened Commands

  /** Records older than this many seconds are swept. */
  const DaySeconds := 86400

  /** The keys of a map in its iteration order: each key once. */
  ghost predicate Lists<K(!new), V>(order: seq<K>, m: map<K, V>) {
    && (forall i, j :: 0 <= i < j < |order| ==> order[i] != order[j])
    && (forall k :: k in m <==> k in order)
  }

  // ------------------------------------------------------ interval_hour_01

  /**
   `glovar.message_ids[gid]` as this file's revision keeps it: the admin
   call message of the group and when it was sent (`0` for never).
   */
  datatype CallRecord = CallRecord(mid: int, time: int)

  const Cleared := CallRecord(0, 0)

  /** The sweep leaves a call alone when it has no time stamp or is younger than a day. */
  predicate CallKept(c: CallRecord, now: int) {
    c.time == 0 || now - c.time < DaySeconds
  }

  /** The call map after the sweep: kept calls as they were, the others cleared. */
  function PrunedCalls(calls: map<int, CallRecord>, now: int): map<int, CallRecord> {
    map g | g in calls :: if CallKept(calls[g], now) then calls[g] else Cleared
  }

  /**
   The first loop of `interval_hour_01`: walk the groups in `order`, clear
   every call a day old or older and delete its message.
   */
  method SweepCalls(calls: map<int, CallRecord>, order: seq<int>, now: int) returns (r: map<int, CallRecord>, deletes: seq<Effect>)
    requires Lists(order, calls)
    ensures r == PrunedCalls(calls, now)
    ensures forall e :: e in deletes ==> e.Delete? && e.chat in calls && !CallKept(calls[e.chat], now) && e.mid == calls[e.chat].mid
    ensures forall g :: g in calls && !CallKept(calls[g], now) ==> Delete(g, calls[g].mid) in deletes
    ensures forall a, b :: 0 <= a < b < |deletes| ==> deletes[a].chat != deletes[b].chat
  {
    r := calls;
    deletes := [];
    var i := 0;
    while i < |order|
      invariant 0 <= i <= |order|
      invariant r.Keys == calls.Keys
      invariant forall g :: g in calls ==> r[g] == if g in order[..i] && !CallKept(calls[g], now) then Cleared else calls[g]
      invariant forall e :: e in deletes ==> e.Delete? && e.chat in order[..i] && e.chat in calls && !CallKept(calls[e.chat], now) && e.mid == calls[e.chat].mid
      invariant forall k :: 0 <= k < i && !CallKept(calls[order[k]], now) ==> Delete(order[k], calls[order[k]].mid) in deletes
      invariant forall a, b :: 0 <= a < b < |deletes| ==> deletes[a].chat != deletes[b].chat
    {
      var g := order[i];
      assert g !in order[..i];
      var c := r[g];
      if c.time != 0 && now - c.time >= DaySeconds {
        r := r[g := Cleared];
        deletes := deletes + [Delete(g, c.mid)];
      }
      assert order[..i + 1] == order[..i] + [g];
      i := i + 1;
    }
    assert order[..i] == order;
  }

  /**
   The sweep adds and removes no group; afterwards every call either has
   no time stamp or is younger than a day.
   */
  lemma PrunedCallsFresh(calls: map<int, CallRecord>, now: int)
    ensures PrunedCalls(calls, now).Keys == calls.Keys
    ensures forall g :: g in calls ==> CallKept(PrunedCalls(calls, now)[g], now)
    ensures forall g :: g in calls && calls[g].time != 0 && now - calls[g].time < DaySeconds ==> PrunedCalls(calls, now)[g] == calls[g]
  {
  }

  /** Sweeping and sweeping again later is sweeping once, later; in particular the sweep is idempotent. */
  lemma PrunedCallsLater(calls: map<int, CallRecord>, now: int, later: int)
    requires now <= later
    ensures PrunedCalls(PrunedCalls(calls, now), later) == PrunedCalls(calls, later)
  {
    var once := PrunedCalls(calls, now);
    assert once.Keys == calls.Keys;
    forall g | g in calls
      ensures PrunedCalls(once, later)[g] == PrunedCalls(calls, later)[g]
    {
    }
  }

  /** A report the sweep keeps: it has a time stamp and is younger than a day. */
  predicate ReportKept(rec: ReportRecord, now: int) {
    rec.time != 0 && now - rec.time < DaySeconds
  }

  /** The report map after the sweep: exactly the kept reports, unchanged. */
  function PrunedReports(reports: map<string, ReportRecord>, now: int): map<string, ReportRecord> {
    map k | k in reports && ReportKept(reports[k], now) :: reports[k]
  }

  /** A report old enough that the sweep deletes its message (one without a time stamp is dropped silently). */
  predicate ReportExpired(rec: ReportRecord, now: int) {
    rec.time != 0 && now - rec.time >= DaySeconds
  }

  /** The deletes the report sweep asks for after visiting `keys`, in visiting order. */
  function ExpiredDeletes(reports: map<string, ReportRecord>, keys: seq<string>, now: int): seq<Effect>
    decreases |keys|
  {
    if |keys| == 0 then []
    else
      var k := keys[|keys| - 1];
      var before := ExpiredDeletes(reports, keys[..|keys| - 1], now);
      if k in reports && ReportExpired(reports[k], now) then before + [Delete(reports[k].groupId, reports[k].reportId)]
      else before
  }

  /** Every delete the sweep asks for is the message of an expired report. */
  lemma {:induction false} ExpiredDeletesSound(reports: map<string, ReportRecord>, keys: seq<string>, now: int)
    ensures forall e :: e in ExpiredDeletes(reports, keys, now) ==>
      exists k :: k in reports && ReportExpired(reports[k], now) && e == Delete(reports[k].groupId, reports[k].reportId)
    decreases |keys|
  {
    if |keys| > 0 {
      ExpiredDeletesSound(reports, keys[..|keys| - 1], now);
    }
  }

  /** The message of every expired report among the visited keys is deleted. */
  lemma {:induction false} ExpiredDeletesComplete(reports: map<string, ReportRecord>, keys: seq<string>, now: int)
    ensures forall j :: 0 <= j < |keys| && keys[j] in reports && ReportExpired(reports[keys[j]], now) ==>
      Delete(reports[keys[j]].groupId, reports[keys[j]].reportId) in ExpiredDeletes(reports, keys, now)
    decreases |keys|
  {
    if |keys| > 0 {
      var front := keys[..|keys| - 1];
      ExpiredDeletesComplete(reports, front, now);
      assert forall j :: 0 <= j < |front| ==> front[j] == keys[j];
    }
  }

  /** After visiting `keys`: the visited reports that are not kept are gone, the rest is untouched. */
  ghost predicate SweptReports(reports: map<string, ReportRecord>, r: map<string, ReportRecord>, keys: seq<string>, now: int) {
    && r.Keys <= reports.Keys
    && (forall k :: k in r ==> r[k] == reports[k])
    && (forall k :: k in reports ==> (k in r <==> k !in keys || ReportKept(reports[k], now)))
  }

  /** One pass of the report loop: visit `key`, which has not been visited yet. */
  method SweepReport(reports: map<string, ReportRecord>, r: map<string, ReportRecord>, deletes: seq<Effect>, keys: seq<string>, key: string, now: int)
    returns (r': map<string, ReportRecord>, deletes': seq<Effect>)
    requires key in reports && key !in keys
    requires SweptReports(reports, r, keys, now)
    requires deletes == ExpiredDeletes(reports, keys, now)
    ensures SweptReports(reports, r', keys + [key], now)
    ensures deletes' == ExpiredDeletes(reports, keys + [key], now)
  {
    assert (keys + [key])[..|keys|] == keys;
    var rec := r[key];
    r', deletes' := r, deletes;
    if rec.time == 0 {
      r' := r - {key};
    } else if now - rec.time >= DaySeconds {
      deletes' := deletes + [Delete(rec.groupId, rec.reportId)];
      r' := r - {key};
    }
  }

  /** The report loop of `interval_hour_01`, visiting the keys in `order`, each once. */
  method SweepReportsLoop(reports: map<string, ReportRecord>, order: seq<string>, now: int) returns (r: map<string, ReportRecord>, deletes: seq<Effect>)
    requires forall j :: 0 <= j < |order| ==> order[j] in reports
    requires forall i, j :: 0 <= i < j < |order| ==> order[i] != order[j]
    ensures SweptReports(reports, r, order, now)
    ensures deletes == ExpiredDeletes(reports, order, now)
  {
    r := reports;
    deletes := [];
    var i := 0;
    while i < |order|
      invariant 0 <= i <= |order|
      invariant SweptReports(reports, r, order[..i], now)
      invariant deletes == ExpiredDeletes(reports, order[..i], now)
    {
      assert order[..i + 1] == order[..i] + [order[i]];
      r, deletes := SweepReport(reports, r, deletes, order[..i], order[i], now);
      i := i + 1;
    }
    assert order[..i] == order;
  }

  /**
   The second loop of `interval_hour_01`: drop reports without a time
   stamp, and delete the message of and drop every report a day old or older.
   */
  method SweepReports(reports: map<string, ReportRecord>, order: seq<string>, now: int) returns (r: map<string, ReportRecord>, deletes: seq<Effect>)
    requires Lists(order, reports)
    ensures r == PrunedReports(reports, now)
    ensures forall e :: e in deletes ==> exists k :: k in reports && ReportExpired(reports[k], now) && e == Delete(reports[k].groupId, reports[k].reportId)
    ensures forall k :: k in reports && ReportExpired(reports[k], now) ==> Delete(reports[k].groupId, reports[k].reportId) in deletes
  {
    r, deletes := SweepReportsLoop(reports, order, now);
    SweptAllPruned(reports, r, order, now);
    ExpiredDeletesExact(reports, order, now);
  }

  /** Once every key is visited, exactly the kept reports are left. */
  lemma SweptAllPruned(reports: map<string, ReportRecord>, r: map<string, ReportRecord>, order: seq<string>, now: int)
    requires Lists(order, reports)
    requires SweptReports(reports, r, order, now)
    ensures r == PrunedReports(reports, now)
  {
  }

  /** Over all the keys, the sweep asks for exactly the expired reports' deletes. */
  lemma ExpiredDeletesExact(reports: map<string, ReportRecord>, order: seq<string>, now: int)
    requires Lists(order, reports)
    ensures forall e :: e in ExpiredDeletes(reports, order, now) ==>
      exists k :: k in reports && ReportExpired(reports[k], now) && e == Delete(reports[k].groupId, reports[k].reportId)
    ensures forall k :: k in reports && ReportExpired(reports[k], now) ==>
      Delete(reports[k].groupId, reports[k].reportId) in ExpiredDeletes(reports, order, now)
  {
    ExpiredDeletesSound(reports, order, now);
    ExpiredDeletesComplete(reports, order, now);
    forall k | k in reports && ReportExpired(reports[k], now)
      ensures Delete(reports[k].groupId, reports[k].reportId) in ExpiredDeletes(reports, order, now)
    {
      var j :| 0 <= j < |order| && order[j] == k;
    }
  }

  lemma PrunedReportsIff(reports: map<string, ReportRecord>, now: int, k: string)
    requires k in reports
    ensures k in PrunedReports(reports, now) <==> reports[k].time != 0 && now - reports[k].time < DaySeconds
    ensures k in PrunedReports(reports, now) ==> PrunedReports(reports, now)[k] == reports[k]
  {
  }

  /** Sweeping reports and sweeping again later is sweeping once, later. */
  lemma PrunedReportsLater(reports: map<string, ReportRecord>, now: int, later: int)
    requires now <= later
    ensures PrunedReports(PrunedReports(reports, now), later) == PrunedReports(reports, later)
  {
  }

  /** The third loop of `interval_hour_01`: nobody waits on a report any more. */
  function ClearWaiting(users: map<int, UserRecord>): (r: map<int, UserRecord>)
    ensures r.Keys == users.Keys
    ensures forall u :: u in users ==> r[u].waiting == {}
    ensures forall u :: u in users ==> r[u].ban == users[u].ban && r[u].locked == users[u].locked && r[u].warn == users[u].warn
  {
    map u | u in users :: users[u].(waiting := {})
  }

  /**
   After the hourly sweep a `/report` is never refused because one of the
   two users waits on an earlier report; every other condition is as before.
   */
  lemma SweptReportsUnblocked(s: State, gid: int, rid: int, uid: int)
    ensures var t := s.(users := ClearWaiting(s.users));
      MayReport(t, gid, rid, uid) <==>
        && gid in s.configs && s.configs[gid].report.manual
        && uid != 0 && uid != rid
        && gid in s.adminIds && uid !in s.adminIds[gid]
        && !Banned(s.users, uid, gid)
  {
  }

  /**
   `interval_hour_01`: the call sweep at `nowCalls`, the report sweep at
   `nowReports` (the job reads the clock twice), the waiting marks cleared,
   each of the three files saved after its part.
   */
  method IntervalHour01(s: State, calls: map<int, CallRecord>, callOrder: seq<int>, reportOrder: seq<string>,
                        nowCalls: int, nowReports: int)
    returns (t: State, callsAfter: map<int, CallRecord>, effects: seq<Effect>)
    requires Lists(callOrder, calls) && Lists(reportOrder, s.reports)
    ensures callsAfter == PrunedCalls(calls, nowCalls)
    ensures t == s.(reports := PrunedReports(s.reports, nowReports), users := ClearWaiting(s.users))
    ensures Saves(effects, "message_ids") && Saves(effects, "reports") && Saves(effects, "user_ids")
    ensures |effects| > 0 && effects[|effects| - 1] == Save("user_ids")
    ensures forall e :: e in effects ==> e.Save? || e.Delete?
  {
    var callDeletes, reportDeletes;
    callsAfter, callDeletes := SweepCalls(calls, callOrder, nowCalls);
    var reports;
    reports, reportDeletes := SweepReports(s.reports, reportOrder, nowReports);
    t := s.(reports := reports, users := ClearWaiting(s.users));
    effects := callDeletes + [Save("message_ids")] + reportDeletes + [Save("reports"), Save("user_ids")];
  }

  // ------------------------------------------------------ reset_data

  /**
   `reset_data`: forget the bad users, the groups left, every user record,
   the watch lists and the reports, saving each file in turn, then post a
   notice to the debug channel.
   */
  function ResetData(s: State): (r: Step)
    ensures !r.crashed
    ensures |r.effects| > 0 && r.effects[|r.effects| - 1] == ResetNotice
  {
    var t := s.(badUsers := {}, leftGroups := {}, users := map[], watchBan := map[], watchDelete := map[], reports := map[]);
    Step(t, [Save("bad_ids"), Save("left_group_ids"), Save("user_ids"), Save("watch_ids"), Save("reports"), ResetNotice], false)
  }

  /**
   After the reset every user starts afresh (banned nowhere, waiting and
   locked nowhere, no warnings), no report is on record, the group
   settings and admin lists are untouched, and each cleared file is saved.
   */
  lemma ResetForgets(s: State, uid: int, gid: int)
    ensures var r := ResetData(s);
      && InitUser(r.state.users, uid)[uid] == EmptyUser
      && !Banned(r.state.users, uid, gid) && !Waiting(r.state.users, uid, gid)
      && r.state.reports == map[] && r.state.badUsers == {} && r.state.leftGroups == {}
      && r.state.watchBan == map[] && r.state.watchDelete == map[]
      && r.state.configs == s.configs && r.state.defaultConfig == s.defaultConfig
      && r.state.adminIds == s.adminIds && r.state.callIds == s.callIds
      && (forall f :: f in {"bad_ids", "left_group_ids", "user_ids", "watch_ids", "reports"} ==> Saves(r.effects, f))
  {
  }

  /** Resetting twice leaves the same state as resetting once. */
  lemma ResetIdempotent(s: State)
    ensures ResetData(ResetData(s).state).state == ResetData(s).state
  {
  }

  // ------------------------------------------------------ update_admins

  /** One entry of `get_admins`: the member's user and the rights the bot reads. */
  datatype Member = Member(id: int, isSelf: bool, isBot: bool, isDeleted: bool, canDelete: bool, canRestrict: bool)

  /** What `get_admins` answers: `False`, `None`, or the list of administrators. */
  datatype AdminList = Refused | Unknown | Admins(members: seq<Member>)

  /** An administrator that goes into the group's admin set: a live human, or one of the project's bots. */
  predicate Counts(m: Member, botIds: set<int>) {
    (!m.isBot && !m.isDeleted) || m.id in botIds
  }

  /** The new admin set of a group. */
  function FilterAdmins(members: seq<Member>, botIds: set<int>): set<int> {
    set m | m in members && Counts(m, botIds) :: m.id
  }

  /** An id is in the new admin set exactly when some administrator with that id counts. */
  lemma FilterAdminsIff(members: seq<Member>, botIds: set<int>, id: int)
    ensures id in FilterAdmins(members, botIds) <==> exists k :: 0 <= k < |members| && members[k].id == id && Counts(members[k], botIds)
  {
    if id in FilterAdmins(members, botIds) {
      var m :| m in members && Counts(m, botIds) && m.id == id;
      var k :| 0 <= k < |members| && members[k] == m;
    } else {
      forall k | 0 <= k < |members| && members[k].id == id
        ensures !Counts(members[k], botIds)
      {
        assert members[k] in members;
      }
    }
  }

  /** `any(admin.user.is_self ...)`: the bot itself is among the administrators. */
  predicate HasSelf(members: seq<Member>) {
    exists m :: m in members && m.isSelf
  }

  /** The inner loop: some entry of the bot itself may both delete messages and restrict members. */
  function SelfEmpowered(members: seq<Member>): bool
    decreases |members|
  {
    |members| > 0 && ((members[0].isSelf && members[0].canDelete && members[0].canRestrict) || SelfEmpowered(members[1..]))
  }

  /** The loop finds an empowered entry of the bot exactly when one exists. */
  lemma {:induction false} SelfEmpoweredIff(members: seq<Member>)
    ensures SelfEmpowered(members) <==> exists k :: 0 <= k < |members| && members[k].isSelf && members[k].canDelete && members[k].canRestrict
    decreases |members|
  {
    if |members| > 0 {
      SelfEmpoweredIff(members[1..]);
      if !(members[0].isSelf && members[0].canDelete && members[0].canRestrict) {
        forall k | 0 < k < |members|
          ensures members[k] == members[1..][k - 1]
        {
        }
      }
    }
  }

  /** Whether the bot stays in a group, or asks to leave it and why. */
  datatype LeaveDecision = Stay | Leave(reason: string)

  /**
   The decision for a group whose admin list names the bot: leave for
   reason "user" when the bot's account is not in the new admin set, for
   "permissions" when it is but lacks a right, stay otherwise.
   */
  function Decide(members: seq<Member>, userId: int, botIds: set<int>): LeaveDecision {
    if userId !in FilterAdmins(members, botIds) then Leave("user")
    else if SelfEmpowered(members) then Stay
    else Leave("permissions")
  }

  /**
   The bot stays exactly when its account counts as an admin and its own
   entry has both rights; a request to leave names "user" exactly when the
   account is missing, and "permissions" otherwise.
   */
  lemma DecideIff(members: seq<Member>, userId: int, botIds: set<int>)
    ensures var d := Decide(members, userId, botIds);
      && (d == Stay <==>
           && (exists k :: 0 <= k < |members| && members[k].id == userId && Counts(members[k], botIds))
           && (exists k :: 0 <= k < |members| && members[k].isSelf && members[k].canDelete && members[k].canRestrict))
      && (d.Leave? ==> (d.reason == "user" <==> userId !in FilterAdmins(members, botIds)))
      && (d.Leave? ==> d.reason in {"user", "permissions"})
  {
    FilterAdminsIff(members, botIds, userId);
    SelfEmpoweredIff(members);
  }

  /** What one group's turn of `update_admins` decides. */
  datatype Refresh = Refreshed(admins: set<int>, decision: LeaveDecision) | AutoLeave | Abort

  /**
   One group: an admin list naming the bot replaces the group's admin set
   and decides whether to leave; `False`, or a list without the bot (the
   empty list included), makes the bot leave on its own; `None` makes the
   `any(...)` over it raise, which ends the job.
   */
  function RefreshGroup(fetched: AdminList, userId: int, botIds: set<int>): (r: Refresh)
    ensures r.Abort? <==> fetched.Unknown?
    ensures r.Refreshed? ==> fetched.Admins? && HasSelf(fetched.members)
    ensures r.Refreshed? ==> (userId in r.admins <==> r.decision != Leave("user"))
  {
    match fetched
    case Unknown => Abort
    case Refused => AutoLeave
    case Admins(members) =>
      if HasSelf(members) then Refreshed(FilterAdmins(members, botIds), Decide(members, userId, botIds))
      else AutoLeave
  }

  /** The effects of one group's turn. */
  function RefreshEffects(gid: int, here: Refresh): seq<Effect> {
    match here
    case Refreshed(_, Stay) => [Save("admin_ids")]
    case Refreshed(_, Leave(reason)) => [LeaveRequest(gid, reason)]
    case AutoLeave => [LeaveAuto(gid)]
    case Abort => []
  }

  /** The outcome of the whole job: the admin sets, the effects, and whether it raised. */
  datatype AdminsRun = AdminsRun(adminIds: map<int, set<int>>, effects: seq<Effect>, crashed: bool)

  /**
   The loop of `update_admins` over the groups in `order`; `fetch` is
   `get_admins`.
   */
  function RefreshAll(adminIds: map<int, set<int>>, order: seq<int>, fetch: int -> AdminList, userId: int, botIds: set<int>): (r: AdminsRun)
    ensures forall e :: e in r.effects ==> e == Save("admin_ids") || ((e.LeaveRequest? || e.LeaveAuto?) && e.group in order)
    ensures r.crashed ==> exists i :: 0 <= i < |order| && fetch(order[i]).Unknown?
    decreases |order|
  {
    if |order| == 0 then AdminsRun(adminIds, [], false)
    else
      var gid := order[0];
      var here := RefreshGroup(fetch(gid), userId, botIds);
      if here.Abort? then AdminsRun(adminIds, [], true)
      else
        var ids := if here.Refreshed? then adminIds[gid := here.admins] else adminIds;
        var rest := RefreshAll(ids, order[1..], fetch, userId, botIds);
        AdminsRun(rest.adminIds, RefreshEffects(gid, here) + rest.effects, rest.crashed)
  }

  /** The job reaches the group at position `i`: no earlier group and not this one got `None`. */
  predicate Reached(order: seq<int>, fetch: int -> AdminList, i: int) {
    0 <= i < |order| && forall j :: 0 <= j <= i ==> !fetch(order[j]).Unknown?
  }

  /** The job raises exactly when some group's admin list is `None`. */
  lemma {:induction false} RefreshAllCrashes(adminIds: map<int, set<int>>, order: seq<int>, fetch: int -> AdminList, userId: int, botIds: set<int>)
    ensures RefreshAll(adminIds, order, fetch, userId, botIds).crashed <==> exists i :: 0 <= i < |order| && fetch(order[i]).Unknown?
    decreases |order|
  {
    if |order| > 0 {
      var here := RefreshGroup(fetch(order[0]), userId, botIds);
      if !here.Abort? {
        var ids := if here.Refreshed? then adminIds[order[0] := here.admins] else adminIds;
        RefreshAllCrashes(ids, order[1..], fetch, userId, botIds);
        forall i | 0 < i < |order|
          ensures order[i] == order[1..][i - 1]
        {
        }
        assert !fetch(order[0]).Unknown?;
      } else {
        assert fetch(order[0]).Unknown?;
      }
    }
  }

  /** No group is added or dropped from the admin map. */
  lemma {:induction false} RefreshAllKeys(adminIds: map<int, set<int>>, order: seq<int>, fetch: int -> AdminList, userId: int, botIds: set<int>)
    requires forall i :: 0 <= i < |order| ==> order[i] in adminIds
    ensures RefreshAll(adminIds, order, fetch, userId, botIds).adminIds.Keys == adminIds.Keys
    decreases |order|
  {
    if |order| > 0 {
      var here := RefreshGroup(fetch(order[0]), userId, botIds);
      if !here.Abort? {
        var ids := if here.Refreshed? then adminIds[order[0] := here.admins] else adminIds;
        assert ids.Keys == adminIds.Keys;
        assert forall i :: 0 <= i < |order| - 1 ==> order[1..][i] == order[i + 1];
        RefreshAllKeys(ids, order[1..], fetch, userId, botIds);
      }
    }
  }

  /**
   Every group the job reaches and whose admin list names the bot gets its
   new admin set, whether or not the bot then asks to leave; every other
   group keeps the set it had.
   */
  lemma {:induction false} RefreshAllSets(adminIds: map<int, set<int>>, order: seq<int>, fetch: int -> AdminList, userId: int, botIds: set<int>, g: int)
    requires g in adminIds
    requires forall i, j :: 0 <= i < j < |order| ==> order[i] != order[j]
    ensures var r := RefreshAll(adminIds, order, fetch, userId, botIds);
      && g in r.adminIds
      && r.adminIds[g] == if (exists i :: Reached(order, fetch, i) && order[i] == g) && RefreshGroup(fetch(g), userId, botIds).Refreshed?
                          then RefreshGroup(fetch(g), userId, botIds).admins
                          else adminIds[g]
    decreases |order|
  {
    if |order| > 0 {
      var here := RefreshGroup(fetch(order[0]), userId, botIds);
      if !here.Abort? {
        var ids := if here.Refreshed? then adminIds[order[0] := here.admins] else adminIds;
        RefreshAllSets(ids, order[1..], fetch, userId, botIds, g);
        ReachedShift(order, fetch, h => h == g);
        if g == order[0] {
          assert Reached(order, fetch, 0);
          forall i | 0 <= i < |order| - 1
            ensures order[1..][i] != g
          {
            assert order[i + 1] != order[0];
          }
        }
      } else {
        assert !exists i :: Reached(order, fetch, i);
      }
    }
  }

  /** Reaching a group with property `p` is the head having it or reaching one in the tail, once the head does not raise. */
  lemma ReachedShift(order: seq<int>, fetch: int -> AdminList, p: int -> bool)
    requires |order| > 0 && !fetch(order[0]).Unknown?
    ensures (exists i :: Reached(order, fetch, i) && p(order[i]))
        <==> p(order[0]) || exists i :: Reached(order[1..], fetch, i) && p(order[1..][i])
  {
    if exists i :: Reached(order, fetch, i) && p(order[i]) {
      var i :| Reached(order, fetch, i) && p(order[i]);
      if i > 0 {
        assert order[1..][i - 1] == order[i];
        assert Reached(order[1..], fetch, i - 1);
      }
    }
    if exists i :: Reached(order[1..], fetch, i) && p(order[1..][i]) {
      var i :| Reached(order[1..], fetch, i) && p(order[1..][i]);
      forall j | 0 <= j <= i + 1
        ensures !fetch(order[j]).Unknown?
      {
        if j > 0 {
          assert order[j] == order[1..][j - 1];
        }
      }
      assert Reached(order, fetch, i + 1);
    }
    if p(order[0]) {
      assert Reached(order, fetch, 0);
    }
  }

  /**
   The job's effects are exactly the effects of the groups it reaches:
   a save for each group that stays, a request to leave for each group
   that should, and a leave for each group that no longer names the bot.
   */
  lemma {:induction false} RefreshAllEffects(adminIds: map<int, set<int>>, order: seq<int>, fetch: int -> AdminList, userId: int, botIds: set<int>, e: Effect)
    ensures e in RefreshAll(adminIds, order, fetch, userId, botIds).effects
        <==> exists i :: Reached(order, fetch, i) && e in RefreshEffects(order[i], RefreshGroup(fetch(order[i]), userId, botIds))
    decreases |order|
  {
    if |order| > 0 {
      var here := RefreshGroup(fetch(order[0]), userId, botIds);
      if !here.Abort? {
        var ids := if here.Refreshed? then adminIds[order[0] := here.admins] else adminIds;
        RefreshAllEffects(ids, order[1..], fetch, userId, botIds, e);
        ReachedShift(order, fetch, g => e in RefreshEffects(g, RefreshGroup(fetch(g), userId, botIds)));
      } else {
        assert !exists i :: Reached(order, fetch, i);
      }
    }
  }

  /** A group at position `i` is reached and decides to stay. */
  predicate StaysAt(order: seq<int>, fetch: int -> AdminList, userId: int, botIds: set<int>, i: int) {
    Reached(order, fetch, i) && RefreshGroup(fetch(order[i]), userId, botIds).Refreshed?
    && RefreshGroup(fetch(order[i]), userId, botIds).decision == Stay
  }

  /**
   The admin sets are saved exactly when some group the job reaches
   decides to stay, although every reached group that names the bot has
   its set replaced in memory.
   */
  lemma RefreshAllSaves(adminIds: map<int, set<int>>, order: seq<int>, fetch: int -> AdminList, userId: int, botIds: set<int>)
    ensures Saves(RefreshAll(adminIds, order, fetch, userId, botIds).effects, "admin_ids")
        <==> exists i :: StaysAt(order, fetch, userId, botIds, i)
  {
    RefreshAllEffects(adminIds, order, fetch, userId, botIds, Save("admin_ids"));
    forall i | Reached(order, fetch, i)
      ensures Save("admin_ids") in RefreshEffects(order[i], RefreshGroup(fetch(order[i]), userId, botIds))
          <==> StaysAt(order, fetch, userId, botIds, i)
    {
    }
  }

  /**
   `update_admins`: refresh every group of the admin map in its iteration
   order; the job's `get_admins` is `fetch`, the bot's account is
   `userId`, and the project's bots are `botIds`.
   */
  function UpdateAdmins(s: State, order: seq<int>, fetch: int -> AdminList, userId: int, botIds: set<int>): (r: Step)
    requires Lists(order, s.adminIds)
    ensures r.state == s.(adminIds := r.state.adminIds) && r.state.adminIds.Keys == s.adminIds.Keys
  {
    var run := RefreshAll(s.adminIds, order, fetch, userId, botIds);
    RefreshAllKeys(s.adminIds, order, fetch, userId, botIds);
    Step(s.(adminIds := run.adminIds), run.effects, run.crashed)
  }

  // ------------------------------------------------------ update_report_ids

  /** The groups that take automatic reports. */
  function ReportIds(configs: map<int, GroupConfig>): set<int> {
    set g | g in configs && configs[g].report.auto
  }

  /** `update_report_ids`: share the auto-report groups; the state is untouched. */
  function UpdateReportIds(s: State): (r: Step)
    ensures r.state == s && !r.crashed && |r.effects| == 1 && r.effects[0].ShareReportIds?
    ensures forall g :: g in r.effects[0].groups <==> g in s.configs && s.configs[g].report.auto
  {
    Step(s, [ShareReportIds(ReportIds(s.configs))], false)
  }

  /**
   A successful `/warn_config report …` puts the group among the
   auto-report groups exactly for `auto` and `both`, and leaves every other
   group's membership as it was.
   */
  lemma ReportEditShares(configs: map<int, GroupConfig>, gid: int, context: string)
    requires gid in configs && ReportEdit(configs[gid], context).success
    ensures var after := configs[gid := ReportEdit(configs[gid], context).config];
      && (gid in ReportIds(after) <==> context in {"auto", "both"})
      && (forall g :: g != gid ==> (g in ReportIds(after) <==> g in ReportIds(configs)))
  {
    ReportModeTable(context);
  }
}
