/**
 The callback handler of `plugins/handlers/callbacks.py`: the undo and
 report buttons under the bot's reports, and the per-user `locked` set that
 keeps two admins from acting on the same user in the same group at once.
 */
module Callbacks {
  import opened Maybe
  import opened Strings
  import opened Json
  import opened TextHelpers
  import opened BotData

  const HandledByOther := "已被其他管理员处理"

  /** The three fields `answer` reads from a button's payload. */
  datatype Payload = Payload(action: Json, actionType: Json, uid: int)

  /**
   `loads(data)` followed by `data["a"]`, `data["t"]`, `data["d"]`.
   `None` when the payload does not decode, lacks a key, or (a limit of the
   model) names its user by anything but an integer.
   */
  function DecodePayload(data: string): (r: Option<Payload>)
    ensures r.Some? ==> exists members :: Loads(data) == Some(JObj(members))
  {
    match Loads(data)
    case Some(JObj(members)) =>
      (match (Lookup(members, "a"), Lookup(members, "t"), Lookup(members, "d"))
       case (Some(a), Some(t), Some(JInt(uid))) => Some(Payload(a, t, uid))
       case _ => None)
    case _ => None
  }

  /**
   What the user function the button calls reports back: the new text of
   the report, whether it keeps a button, and whether it raised.
   */
  datatype ActionResult = ActionResult(text: string, markup: bool, raised: bool)

  /** The user function an undo button calls. */
  function UndoAction(actionType: Json): string {
    if actionType == JStr("ban") then "unban_user" else "unwarn_user"
  }

  /** The user function a report button calls. */
  function ReportAction(actionType: Json): string {
    if actionType == JStr("ban") then "ban_user" else "warn_user"
  }

  /** How long a handled report stays up: 60 seconds with a button, 10 without. */
  function ReportLifetime(markup: bool): int {
    if markup then 60 else 10
  }

  /** `uid`'s record with `gid` removed from its `locked` set, as the `finally` blocks leave it. */
  function Unlocked(users: map<int, UserRecord>, uid: int, gid: int): (r: map<int, UserRecord>)
    requires uid in users
    ensures r.Keys == users.Keys && gid !in r[uid].locked
    ensures forall v :: v in users && v != uid ==> r[v] == users[v]
  {
    users[uid := users[uid].(locked := users[uid].locked - {gid})]
  }

  /**
   `answer` for a button pressed by admin `aid` under message `mid` in
   group `gid`. An undo adds the group to the target's `locked` set while
   it runs; both actions remove it in their `finally`, which also saves
   the users, whether or not the called function raised.
   */
  function Answer(s: State, gid: int, aid: int, mid: int, data: string, result: ActionResult): (r: Step)
    ensures r.state == s.(users := r.state.users)
    ensures DecodePayload(data).None? ==> r.state == s && r.crashed
    ensures DecodePayload(data).Some? ==> r.state.users.Keys == s.users.Keys + {DecodePayload(data).value.uid}
    ensures forall v :: v in s.users && (DecodePayload(data).None? || v != DecodePayload(data).value.uid) ==>
      v in r.state.users && r.state.users[v] == s.users[v]
  {
    match DecodePayload(data)
    case None => Step(s, [], true)
    case Some(p) =>
      var users := InitUser(s.users, p.uid);
      var s1 := s.(users := users);
      if p.action != JStr("undo") && p.action != JStr("report") then Step(s1, [], false)
      else if gid in users[p.uid].locked then Step(s1, [AnswerCallback(HandledByOther)], false)
      else
        var s2 := s1.(users := Unlocked((users[p.uid := users[p.uid].(locked := users[p.uid].locked + {gid})]), p.uid, gid));
        if p.action == JStr("undo") then
          var call := Call(UndoAction(p.actionType), p.uid, aid);
          if result.raised then Step(s2, [call, Save("user_ids")], true)
          else Step(s2, [call, Edit(gid, mid, result.text, false), Save("user_ids")], false)
        else
          var call := Call(ReportAction(p.actionType), p.uid, aid);
          var s3 := s1.(users := Unlocked(users, p.uid, gid));
          if result.raised then Step(s3, [call, Save("user_ids")], true)
          else
            Step(s3, [call, Edit(gid, mid, result.text, result.markup),
                      DeleteLater(ReportLifetime(result.markup), gid, [mid]), Save("user_ids")], false)
  }

  /** The button's action is one that `answer` acts on. */
  predicate Acts(p: Payload) {
    p.action == JStr("undo") || p.action == JStr("report")
  }

  /** The group is in the target's `locked` set (a record being created counts as unlocked). */
  predicate IsLocked(s: State, uid: int, gid: int) {
    uid in s.users && gid in s.users[uid].locked
  }

  /**
   A button on a user someone is already acting on in this group calls
   nothing and only tells the admin so.
   */
  lemma LockedRefuses(s: State, gid: int, aid: int, mid: int, data: string, result: ActionResult)
    requires DecodePayload(data).Some? && Acts(DecodePayload(data).value)
    requires IsLocked(s, DecodePayload(data).value.uid, gid)
    ensures var r := Answer(s, gid, aid, mid, data, result);
      r.state == s && r.effects == [AnswerCallback(HandledByOther)] && !r.crashed
  {
  }

  /**
   Once an undo or report runs, the group is out of the target's `locked`
   set afterwards, raised or not, and every other user and group is as it
   was; the users are saved either way.
   */
  lemma LockReleased(s: State, gid: int, aid: int, mid: int, data: string, result: ActionResult)
    requires DecodePayload(data).Some? && Acts(DecodePayload(data).value)
    requires !IsLocked(s, DecodePayload(data).value.uid, gid)
    ensures var r := Answer(s, gid, aid, mid, data, result); var uid := DecodePayload(data).value.uid;
      var before := InitUser(s.users, uid)[uid];
      && uid in r.state.users
      && gid !in r.state.users[uid].locked
      && r.state.users[uid] == before.(locked := before.locked - {gid})
      && r.state.users[uid].locked == before.locked
      && (forall v :: v in s.users && v != uid ==> v in r.state.users && r.state.users[v] == s.users[v])
      && r.state == s.(users := r.state.users)
      && Saves(r.effects, "user_ids")
      && (r.crashed <==> result.raised)
  {
    var uid := DecodePayload(data).value.uid;
    AnswerUnlocks(s, gid, aid, mid, data, result);
    var users := InitUser(s.users, uid);
    assert users[uid].locked - {gid} == users[uid].locked;
  }

  /** The state an undo or report on an unlocked user leaves, raised or not. */
  lemma AnswerUnlocks(s: State, gid: int, aid: int, mid: int, data: string, result: ActionResult)
    requires DecodePayload(data).Some? && Acts(DecodePayload(data).value)
    requires !IsLocked(s, DecodePayload(data).value.uid, gid)
    ensures var r := Answer(s, gid, aid, mid, data, result); var uid := DecodePayload(data).value.uid;
      && r.state == s.(users := Unlocked(InitUser(s.users, uid), uid, gid))
      && Saves(r.effects, "user_ids")
      && (r.crashed <==> result.raised)
  {
    var uid := DecodePayload(data).value.uid;
    LockThenUnlock(InitUser(s.users, uid), uid, gid);
  }

  /** Adding the group to the `locked` set and discarding it again is the same as discarding it. */
  lemma LockThenUnlock(users: map<int, UserRecord>, uid: int, gid: int)
    requires uid in users
    ensures Unlocked(users[uid := users[uid].(locked := users[uid].locked + {gid})], uid, gid)
         == Unlocked(users, uid, gid)
  {
    assert (users[uid].locked + {gid}) - {gid} == users[uid].locked - {gid};
  }

  /**
   Undo calls `unban_user` for a ban button and `unwarn_user` for any
   other type; report calls `ban_user` or `warn_user` the same way, and
   the handled report is deleted after 60 seconds if it keeps a button,
   10 if not.
   */
  lemma Dispatch(s: State, gid: int, aid: int, mid: int, data: string, result: ActionResult)
    requires DecodePayload(data).Some? && Acts(DecodePayload(data).value)
    requires !IsLocked(s, DecodePayload(data).value.uid, gid)
    ensures var r := Answer(s, gid, aid, mid, data, result); var p := DecodePayload(data).value;
      && r.effects[0] == Call(if p.action == JStr("undo") then UndoAction(p.actionType) else ReportAction(p.actionType), p.uid, aid)
      && (r.effects[0].action in {"unban_user", "ban_user"} <==> p.actionType == JStr("ban"))
      && (p.action == JStr("report") && !result.raised ==>
            DeleteLater(if result.markup then 60 else 10, gid, [mid]) in r.effects)
      && (forall e :: e in r.effects ==> e.Call? ==> e == r.effects[0])
  {
  }

  /** A button with any other action only gives its user a record. */
  lemma OtherActionsInert(s: State, gid: int, aid: int, mid: int, data: string, result: ActionResult)
    requires DecodePayload(data).Some? && !Acts(DecodePayload(data).value)
    ensures var r := Answer(s, gid, aid, mid, data, result);
      r.state == s.(users := InitUser(s.users, DecodePayload(data).value.uid)) && r.effects == [] && !r.crashed
  {
  }

  /** A report button never puts the group into the `locked` set. */
  lemma ReportNeverLocks(s: State, gid: int, aid: int, mid: int, data: string, result: ActionResult)
    requires DecodePayload(data).Some? && DecodePayload(data).value.action == JStr("report")
    ensures var r := Answer(s, gid, aid, mid, data, result); var uid := DecodePayload(data).value.uid;
      uid in r.state.users && r.state.users[uid].locked <= InitUser(s.users, uid)[uid].locked
  {
  }

  // ------------------------------------------------------ buttons the bot makes

  /**
   The payload of a button `button_data(action, action_type, uid)` decodes
   to the action and type with their spaces removed, and the user.
   */
  lemma DecodeButton(action: string, actionType: string, uid: int)
    ensures DecodePayload(ButtonData(action, Some(actionType), IntDatum(uid)))
         == Some(Payload(JStr(Remove(action, ' ')), JStr(Remove(actionType, ' ')), uid))
  {
    var members := ButtonObject(action, Some(actionType), IntDatum(uid));
    ButtonDataDecodes(action, Some(actionType), IntDatum(uid));
    UnspacedButton(action, actionType, uid);
    DecodeThree(ButtonData(action, Some(actionType), IntDatum(uid)), UnspacedMembers(members),
                JStr(Remove(action, ' ')), JStr(Remove(actionType, ' ')), uid);
  }

  /** The unspaced button object keeps its keys `a`, `t`, `d`. */
  lemma UnspacedButton(action: string, actionType: string, uid: int)
    ensures var u := UnspacedMembers(ButtonObject(action, Some(actionType), IntDatum(uid)));
      u == [("a", JStr(Remove(action, ' '))), ("t", JStr(Remove(actionType, ' '))), ("d", JInt(uid))]
  {
    RemoveIdentity("a", ' ');
    RemoveIdentity("t", ' ');
    RemoveIdentity("d", ' ');
  }

  /** A payload that decodes to the object `{"a": a, "t": t, "d": uid}`. */
  lemma DecodeThree(data: string, u: seq<(string, Json)>, a: Json, t: Json, uid: int)
    requires Loads(data) == Some(JObj(u))
    requires u == [("a", a), ("t", t), ("d", JInt(uid))]
    ensures DecodePayload(data) == Some(Payload(a, t, uid))
  {
    LookupOfThree(u);
  }

  /** In an object of three distinct keys, each key finds its own value. */
  lemma LookupOfThree(m: seq<(string, Json)>)
    requires |m| == 3 && m[0].0 != m[1].0 && m[0].0 != m[2].0 && m[1].0 != m[2].0
    ensures Lookup(m, m[0].0) == Some(m[0].1)
    ensures Lookup(m, m[1].0) == Some(m[1].1)
    ensures Lookup(m, m[2].0) == Some(m[2].1)
  {
    var front := m[..2];
    assert front[..1] == [m[0]] && front[1] == m[1];
    assert Lookup(front, m[0].0) == Lookup([m[0]], m[0].0);
  }

  /**
   Pressing the undo button of a ban report on `uid` unbans `uid` unless
   someone already acts on them in this group.
   */
  lemma UndoBanButton(s: State, gid: int, aid: int, mid: int, uid: int, result: ActionResult)
    requires !IsLocked(s, uid, gid)
    ensures var r := Answer(s, gid, aid, mid, ButtonData("undo", Some("ban"), IntDatum(uid)), result);
      |r.effects| > 0 && r.effects[0] == Call("unban_user", uid, aid) && uid in r.state.users && gid !in r.state.users[uid].locked
  {
    DecodeButton("undo", "ban", uid);
    RemoveIdentity("undo", ' ');
    RemoveIdentity("ban", ' ');
    LockReleased(s, gid, aid, mid, ButtonData("undo", Some("ban"), IntDatum(uid)), result);
  }
}
