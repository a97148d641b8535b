// The group-chat room hub of server.js: the `activeGroups` presence map, the
// `messageHistory` map with its 50-message bound, and the handlers of the
// join_group, leave_group, group_message and disconnect events.

module ChatHub {
  import opened Wrappers
  import opened JsText

  /** Messages kept per room (server.js:121-123). */
  const HistoryCap: nat := 50
  /** Characters of a body kept (server.js:110). */
  const BodyLimit: nat := 500
  const DefaultGroup := "default"
  const RoomPrefix := "group_"
  const AnonymousSender := "Anonymous"
  const InvalidFormat := "Invalid message format"

  /** A socket.io connection identifier. */
  type SocketId = string

  /** A message as the hub stores and broadcasts it. */
  datatype Message = Message(id: string, sender: string, message: string, timestamp: string)

  /** The payload of a group_message event; a field the client left out is None. */
  datatype Inbound = Inbound(
    groupId: Option<string>,
    sender: Option<string>,
    message: Option<string>,
    timestamp: Option<string>)

  /** The events the hub emits. */
  datatype Event =
    | MessageHistory(messages: seq<Message>)
    | UserJoined(who: SocketId, at: string)
    | UserLeft(who: SocketId, at: string)
    | ReceiveMessage(msg: Message)
    | Error(text: string)

  /** How an event is addressed: `socket.emit`, `socket.to(room).emit` (the room minus
      the sender) and `io.to(room).emit` (the whole room). */
  datatype Emit =
    | ToSocket(target: SocketId, event: Event)
    | ToOthers(room: string, except: SocketId, event: Event)
    | ToRoom(room: string, event: Event)

  /** The presence set of a room; a room the map does not hold is empty. */
  function Presence(groups: map<string, set<SocketId>>, room: string): set<SocketId> {
    if room in groups then groups[room] else {}
  }

  /** The sockets an emit reaches, taking socket.io's own room membership to be the
      presence map (both are updated together by every handler). */
  function Recipients(groups: map<string, set<SocketId>>, e: Emit): set<SocketId> {
    match e
    case ToSocket(t, _) => {t}
    case ToOthers(room, except, _) => Presence(groups, room) - {except}
    case ToRoom(room, _) => Presence(groups, room)
  }

  /** `roomName.substring(6)`: the group id part of a room key. */
  function GroupIdOf(room: string): string {
    if |room| >= |RoomPrefix| then room[|RoomPrefix|..] else ""
  }

  /** The room a join_group event joins: `group_` and the group id, with `default`
      standing in for a missing or empty id. */
  function JoinRoom(groupId: Option<string>): (r: string)
    ensures |r| > |RoomPrefix| && r[..|RoomPrefix|] == RoomPrefix
    ensures GroupIdOf(r) == if Truthy(groupId) then groupId.value else DefaultGroup
  {
    RoomPrefix + OrElse(groupId, DefaultGroup)
  }

  /** Distinct non-empty group ids give distinct rooms, and a missing or empty id
      shares the room of the literal id "default". */
  lemma JoinRoomKeys(g1: Option<string>, g2: Option<string>)
    ensures Truthy(g1) && Truthy(g2) ==> (JoinRoom(g1) == JoinRoom(g2) <==> g1 == g2)
    ensures !Truthy(g1) ==> JoinRoom(g1) == JoinRoom(Some(DefaultGroup))
  {
    if Truthy(g1) && Truthy(g2) && JoinRoom(g1) == JoinRoom(g2) {
      assert GroupIdOf(JoinRoom(g1)) == g1.value;
    }
  }

  /** The presence map after a join_group of `sid` with `groupId`. */
  function Joined(groups: map<string, set<SocketId>>, sid: SocketId, groupId: Option<string>): map<string, set<SocketId>> {
    var room := JoinRoom(groupId);
    groups[room := Presence(groups, room) + {sid}]
  }

  /** Joining is idempotent on presence: a second join of the same socket leaves the map
      as it was, and the first one grows the room's set by one only for a newcomer. */
  lemma JoinIdempotent(groups: map<string, set<SocketId>>, sid: SocketId, groupId: Option<string>)
    ensures Joined(Joined(groups, sid, groupId), sid, groupId) == Joined(groups, sid, groupId)
    ensures var room := JoinRoom(groupId);
      |Presence(Joined(groups, sid, groupId), room)| == |Presence(groups, room)| + if sid in Presence(groups, room) then 0 else 1
  {
    var room := JoinRoom(groupId);
    var before := Presence(groups, room);
    if sid !in before {
      assert before + {sid} - {sid} == before;
    } else {
      assert before + {sid} == before;
    }
  }

  /** `message.slice(0, 500)`. */
  function Truncate(body: string): (r: string)
    ensures r <= body
    ensures |r| == if |body| <= BodyLimit then |body| else BodyLimit
  {
    if |body| <= BodyLimit then body else body[..BodyLimit]
  }

  /** The payload passes the check at server.js:98. */
  predicate WellFormed(data: Option<Inbound>) {
    data.Some? && Truthy(data.value.groupId) && Truthy(data.value.message)
  }

  /** The message the hub builds from an accepted payload, given the fresh UUID and
      the current time. */
  function Stored(d: Inbound, freshId: string, now: string): (m: Message)
    requires Truthy(d.message)
    ensures m.id == freshId
    ensures m.sender != "" && (Truthy(d.sender) ==> m.sender == d.sender.value)
    ensures !Truthy(d.sender) ==> m.sender == AnonymousSender
    ensures m.message != "" && m.message <= d.message.value && |m.message| <= BodyLimit
    ensures |d.message.value| <= BodyLimit ==> m.message == d.message.value
    ensures Truthy(d.timestamp) ==> m.timestamp == d.timestamp.value
    ensures !Truthy(d.timestamp) ==> m.timestamp == now
  {
    Message(freshId, OrElse(d.sender, AnonymousSender), Truncate(d.message.value), OrElse(d.timestamp, now))
  }

  /** The last `k` elements of `s` (all of them when there are fewer). */
  function LastN<T>(s: seq<T>, k: nat): seq<T> {
    if |s| <= k then s else s[|s| - k..]
  }

  /** `messages.push(m)`, then `slice(-50)` when the list grew past the cap. */
  function Retain(h: seq<Message>, m: Message): (r: seq<Message>)
    ensures |r| == if |h| < HistoryCap then |h| + 1 else HistoryCap
    ensures r[|r| - 1] == m
    ensures r == (h + [m])[|h| + 1 - |r|..]
  {
    var pushed := h + [m];
    if |pushed| > HistoryCap then pushed[|pushed| - HistoryCap..] else pushed
  }

  /** Taking the last k after appending does not depend on an earlier cut to the last k. */
  lemma LastNAppend<T>(a: seq<T>, b: seq<T>, k: nat)
    ensures LastN(LastN(a, k) + b, k) == LastN(a + b, k)
  {
    if |a| > k {
      var c := a[|a| - k..];
      assert (a + b)[|a| + |b| - k..] == (c + b)[|c| + |b| - k..] by {
        if |b| <= k {
          assert (a + b)[|a| + |b| - k..] == a[|a| + |b| - k..] + b;
        }
      }
    }
  }

  /** One append keeps the history equal to the last 50 of everything accepted. */
  lemma RetainKeepsLast(accepted: seq<Message>, m: Message)
    ensures Retain(LastN(accepted, HistoryCap), m) == LastN(accepted + [m], HistoryCap)
  {
    LastNAppend(accepted, [m], HistoryCap);
  }

  /** The history after appending each of `ms` in turn. */
  function AppendAll(h: seq<Message>, ms: seq<Message>): seq<Message>
    decreases |ms|
  {
    if ms == [] then h else AppendAll(Retain(h, ms[0]), ms[1..])
  }

  /** Bounded FIFO retention: a history of at most 50 messages, after any run of appends,
      holds exactly the last min(50, n) of its old contents followed by the new messages,
      in the order they were accepted. */
  lemma {:induction false} AppendAllKeepsLast(h: seq<Message>, ms: seq<Message>)
    requires |h| <= HistoryCap
    ensures AppendAll(h, ms) == LastN(h + ms, HistoryCap)
    decreases |ms|
  {
    if ms == [] {
      assert h + ms == h;
    } else {
      var m, rest := ms[0], ms[1..];
      var h1 := Retain(h, m);
      assert AppendAll(h, ms) == AppendAll(h1, rest);
      assert LastN(h, HistoryCap) == h;
      RetainKeepsLast(h, m);
      assert h1 == LastN(h + [m], HistoryCap);
      AppendAllKeepsLast(h1, rest);
      LastNAppend(h + [m], rest, HistoryCap);
      assert h + [m] + rest == h + ms;
    }
  }

  /** The user_left notice for one room the disconnect loop visits: one when the room's
      set holds the socket, none otherwise. */
  function LeftNotice(room: string, groups: map<string, set<SocketId>>, sid: SocketId, now: string): seq<Emit> {
    if sid in Presence(groups, room) then [ToOthers(room, sid, UserLeft(sid, now))] else []
  }

  /** The user_left notices the disconnect loop emits, walking the rooms in `order`. */
  function LeftNotices(order: seq<string>, groups: map<string, set<SocketId>>, sid: SocketId, now: string): seq<Emit>
  {
    if order == [] then []
    else LeftNotices(order[..|order| - 1], groups, sid, now) + LeftNotice(order[|order| - 1], groups, sid, now)
  }

  /** The presence map after the disconnect loop has visited the rooms in `order`: each
      visited room whose set holds the socket loses it. */
  function StripFrom(groups: map<string, set<SocketId>>, order: seq<string>, sid: SocketId): map<string, set<SocketId>>
  {
    if order == [] then groups
    else
      var g := StripFrom(groups, order[..|order| - 1], sid);
      var room := order[|order| - 1];
      if room in g && sid in g[room] then g[room := g[room] - {sid}] else g
  }

  /** Visiting rooms removes the socket from exactly the visited rooms. */
  lemma {:induction false} StripFromVisited(groups: map<string, set<SocketId>>, order: seq<string>, sid: SocketId)
    ensures StripFrom(groups, order, sid) == map r | r in groups :: if r in order then groups[r] - {sid} else groups[r]
  {
    var want := map r | r in groups :: if r in order then groups[r] - {sid} else groups[r];
    var got := StripFrom(groups, order, sid);
    if order != [] {
      var init := order[..|order| - 1];
      var last := order[|order| - 1];
      StripFromVisited(groups, init, sid);
      assert forall r :: r in order <==> r in init || r == last;
    }
    assert got.Keys == want.Keys;
    forall r | r in want ensures got[r] == want[r] {
    }
  }

  /** Visiting every room removes the socket from every presence set. */
  lemma StripFromAll(groups: map<string, set<SocketId>>, order: seq<string>, sid: SocketId)
    requires forall r :: r in groups ==> r in order
    ensures StripFrom(groups, order, sid) == map r | r in groups :: groups[r] - {sid}
  {
    StripFromVisited(groups, order, sid);
  }

  /** One more room visited by the disconnect loop, a room not visited before: its set
      is still the original one, and the map and the notices grow by that room's step. */
  lemma StripStep(groups: map<string, set<SocketId>>, order: seq<string>, i: nat, sid: SocketId, now: string)
    requires i < |order| && order[i] !in order[..i]
    ensures var g := StripFrom(groups, order[..i], sid); var room := order[i];
      && (room in g <==> room in groups)
      && (room in g ==> g[room] == groups[room])
      && StripFrom(groups, order[..i + 1], sid) == (if room in g && sid in g[room] then g[room := g[room] - {sid}] else g)
      && LeftNotices(order[..i + 1], groups, sid, now) == LeftNotices(order[..i], groups, sid, now) + LeftNotice(room, groups, sid, now)
  {
    assert order[..i + 1][..i] == order[..i];
    StripFromVisited(groups, order[..i], sid);
  }

  /** The number of emits in `out` addressed to `room`. */
  function CountFor(out: seq<Emit>, room: string): nat {
    if out == [] then 0
    else
      var e := out[|out| - 1];
      CountFor(out[..|out| - 1], room) + (if !e.ToSocket? && e.room == room then 1 else 0)
  }

  lemma {:induction false} CountForAppend(a: seq<Emit>, b: seq<Emit>, room: string)
    ensures CountFor(a + b, room) == CountFor(a, room) + CountFor(b, room)
    decreases |b|
  {
    if b == [] {
      assert a + b == a;
    } else {
      assert (a + b)[..|a + b| - 1] == a + b[..|b| - 1];
      assert (a + b)[|a + b| - 1] == b[|b| - 1];
      CountForAppend(a, b[..|b| - 1], room);
    }
  }

  lemma CountForNotice(room: string, groups: map<string, set<SocketId>>, sid: SocketId, now: string, r: string)
    ensures CountFor(LeftNotice(room, groups, sid, now), r) == if r == room && sid in Presence(groups, room) then 1 else 0
  {
    var n := LeftNotice(room, groups, sid, now);
    if n != [] {
      assert n[..0] == [];
    }
  }

  /** Every notice is a user_left for the socket, sent to the others in a visited room
      that held it. */
  lemma {:induction false} LeftNoticesShape(order: seq<string>, groups: map<string, set<SocketId>>, sid: SocketId, now: string)
    ensures forall e :: e in LeftNotices(order, groups, sid, now) ==>
      e.ToOthers? && e.except == sid && e.event == UserLeft(sid, now) && e.room in order && sid in Presence(groups, e.room)
  {
    if order != [] {
      var init := order[..|order| - 1];
      LeftNoticesShape(init, groups, sid, now);
      assert forall r :: r in init ==> r in order;
    }
  }

  /** A room that was not visited gets no notice. */
  lemma {:induction false} LeftNoticesOutside(order: seq<string>, groups: map<string, set<SocketId>>, sid: SocketId, now: string, r: string)
    requires r !in order
    ensures CountFor(LeftNotices(order, groups, sid, now), r) == 0
  {
    if order != [] {
      var init, last := order[..|order| - 1], order[|order| - 1];
      assert order == init + [last];
      LeftNoticesOutside(init, groups, sid, now, r);
      CountForAppend(LeftNotices(init, groups, sid, now), LeftNotice(last, groups, sid, now), r);
      CountForNotice(last, groups, sid, now, r);
    }
  }

  /** A visited room gets one notice when its set held the socket and none otherwise. */
  lemma {:induction false} LeftNoticesCount(order: seq<string>, groups: map<string, set<SocketId>>, sid: SocketId, now: string, r: string)
    requires Distinct(order) && r in order
    ensures CountFor(LeftNotices(order, groups, sid, now), r) == if sid in Presence(groups, r) then 1 else 0
  {
    var init, last := order[..|order| - 1], order[|order| - 1];
    assert order == init + [last];
    CountForAppend(LeftNotices(init, groups, sid, now), LeftNotice(last, groups, sid, now), r);
    CountForNotice(last, groups, sid, now, r);
    if r == last {
      assert last !in init;
      LeftNoticesOutside(init, groups, sid, now, r);
    } else {
      assert r in init;
      LeftNoticesCount(init, groups, sid, now, r);
    }
  }

  /** On disconnect, the hub notifies each room that held the socket exactly once, and
      nothing else: every notice is a user_left for that socket, sent to the others in
      a room that held it. */
  lemma LeftNoticesExactlyOnce(order: seq<string>, groups: map<string, set<SocketId>>, sid: SocketId, now: string)
    requires Distinct(order)
    ensures forall e :: e in LeftNotices(order, groups, sid, now) ==>
      e.ToOthers? && e.except == sid && e.event == UserLeft(sid, now) && e.room in order && sid in Presence(groups, e.room)
    ensures forall r :: CountFor(LeftNotices(order, groups, sid, now), r) == if r in order && sid in Presence(groups, r) then 1 else 0
  {
    LeftNoticesShape(order, groups, sid, now);
    forall r ensures CountFor(LeftNotices(order, groups, sid, now), r) == if r in order && sid in Presence(groups, r) then 1 else 0 {
      if r in order {
        LeftNoticesCount(order, groups, sid, now, r);
      } else {
        LeftNoticesOutside(order, groups, sid, now, r);
      }
    }
  }

  /** The acknowledgement a client passes a callback for when it emits group_message. */
  datatype Ack = Accepted(id: string) | Rejected(error: string)

  /** The acknowledgement the group_message handler would give if it called the client's
      callback: the stored message's id when the payload is accepted, the error the
      sender is sent otherwise. The handler at server.js:96-133 takes no callback, so the
      hub as written never sends one (see Hub.GroupMessage). */
  function GroupMessageAck(data: Option<Inbound>, freshId: string): (a: Ack)
    ensures a.Rejected? <==> !WellFormed(data)
    ensures a.Rejected? ==> a.error == InvalidFormat
    ensures a.Accepted? ==> a.id == freshId && a.id == Stored(data.value, freshId, "").id
  {
    if WellFormed(data) then Accepted(freshId) else Rejected(InvalidFormat)
  }

  /** No room key occurs twice. */
  ghost predicate Distinct(order: seq<string>) {
    forall i, j :: 0 <= i < j < |order| ==> order[i] != order[j]
  }

  /** `order` lists the keys of `groups`, each once. */
  ghost predicate OrderOf(groups: map<string, set<SocketId>>, order: seq<string>) {
    Distinct(order) && forall r :: r in groups <==> r in order
  }

  /** Each room's history is the last 50 of the messages it has accepted. */
  ghost predicate HistoryOf(history: map<string, seq<Message>>, accepted: map<string, seq<Message>>) {
    && accepted.Keys == history.Keys
    && forall r :: r in history ==> history[r] == LastN(accepted[r], HistoryCap)
  }

  lemma OrderPut(groups: map<string, set<SocketId>>, order: seq<string>, room: string, members: set<SocketId>)
    requires OrderOf(groups, order)
    ensures OrderOf(groups[room := members], if room in groups then order else order + [room])
  {
  }

  lemma OrderSameKeys(groups: map<string, set<SocketId>>, groups': map<string, set<SocketId>>, order: seq<string>)
    requires OrderOf(groups, order) && groups'.Keys == groups.Keys
    ensures OrderOf(groups', order)
  {
    forall r ensures r in groups' <==> r in order {
      assert r in groups' <==> r in groups'.Keys;
      assert r in groups <==> r in groups.Keys;
    }
  }

  lemma HistoryCreate(history: map<string, seq<Message>>, accepted: map<string, seq<Message>>, room: string)
    requires HistoryOf(history, accepted) && room !in history
    ensures HistoryOf(history[room := []], accepted[room := []])
  {
  }

  lemma HistoryAppend(history: map<string, seq<Message>>, accepted: map<string, seq<Message>>, room: string, m: Message)
    requires HistoryOf(history, accepted) && room in history
    ensures HistoryOf(history[room := Retain(history[room], m)], accepted[room := accepted[room] + [m]])
  {
    RetainKeepsLast(accepted[room], m);
  }

  /** The hub's in-memory state. */
  class Hub {
    /** Room key to the sockets present in it. */
    var activeGroups: map<string, set<SocketId>>
    /** The keys of activeGroups in insertion order, the order a JavaScript Map iterates in. */
    var groupOrder: seq<string>
    /** Room key to its retained messages, oldest first. */
    var messageHistory: map<string, seq<Message>>
    /** Every message appended to each room's history since the room was created. */
    ghost var accepted: map<string, seq<Message>>

    ghost predicate Valid()
      reads this
    {
      OrderOf(activeGroups, groupOrder) && HistoryOf(messageHistory, accepted)
    }

    constructor ()
      ensures Valid()
      ensures activeGroups == map[] && groupOrder == [] && messageHistory == map[] && accepted == map[]
    {
      activeGroups, groupOrder, messageHistory := map[], [], map[];
      accepted := map[];
    }

    /** join_group: adds the socket to the room (creating the room's presence set and
        empty history on first use), replays a non-empty history to the joiner alone, and
        tells the rest of the room. */
    method JoinGroup(sid: SocketId, groupId: Option<string>, now: string) returns (out: seq<Emit>)
      requires Valid()
      modifies this
      ensures Valid()
      ensures var room := JoinRoom(groupId);
        && activeGroups == Joined(old(activeGroups), sid, groupId)
        && groupOrder == (if room in old(activeGroups) then old(groupOrder) else old(groupOrder) + [room])
        && messageHistory == (if room in old(messageHistory) then old(messageHistory) else old(messageHistory)[room := []])
        && accepted == (if room in old(accepted) then old(accepted) else old(accepted)[room := []])
        && out == (if room in old(messageHistory) && old(messageHistory)[room] != []
                   then [ToSocket(sid, MessageHistory(old(messageHistory)[room]))] else [])
                  + [ToOthers(room, sid, UserJoined(sid, now))]
    {
      var room := JoinRoom(groupId);
      var members := Presence(activeGroups, room) + {sid};
      OrderPut(activeGroups, groupOrder, room, members);
      if room !in activeGroups {
        groupOrder := groupOrder + [room];
      }
      activeGroups := activeGroups[room := members];
      out := [];
      if room in messageHistory {
        var recent := messageHistory[room];
        if |recent| > 0 {
          out := [ToSocket(sid, MessageHistory(recent))];
        }
      } else {
        HistoryCreate(messageHistory, accepted, room);
        messageHistory := messageHistory[room := []];
        accepted := accepted[room := []];
      }
      out := out + [ToOthers(room, sid, UserJoined(sid, now))];
    }

    /** leave_group: with a group id, removes the socket from that room's presence set if
        the set exists (no error when the socket was absent) and tells the rest of the
        room; without one, does nothing. */
    method LeaveGroup(sid: SocketId, groupId: Option<string>, now: string) returns (out: seq<Emit>)
      requires Valid()
      modifies this
      ensures Valid()
      ensures groupOrder == old(groupOrder) && messageHistory == old(messageHistory) && accepted == old(accepted)
      ensures !Truthy(groupId) ==> activeGroups == old(activeGroups) && out == []
      ensures Truthy(groupId) ==>
        var room := RoomPrefix + groupId.value;
        && activeGroups == (if room in old(activeGroups) then old(activeGroups)[room := old(activeGroups)[room] - {sid}] else old(activeGroups))
        && out == [ToOthers(room, sid, UserLeft(sid, now))]
    {
      out := [];
      if !Truthy(groupId) {
        return;
      }
      var room := RoomPrefix + groupId.value;
      if room in activeGroups {
        OrderPut(activeGroups, groupOrder, room, activeGroups[room] - {sid});
        activeGroups := activeGroups[room := activeGroups[room] - {sid}];
      }
      out := [ToOthers(room, sid, UserLeft(sid, now))];
    }

    /** group_message: rejects a payload without data, group id or body with an error to
        the sender and no other effect; otherwise builds the message, appends it to the
        room's history when the room has one (keeping the last 50), and broadcasts it to
        the whole room, sender included. */
    method GroupMessage(sid: SocketId, data: Option<Inbound>, freshId: string, now: string) returns (out: seq<Emit>)
      requires Valid()
      modifies this
      ensures Valid()
      ensures activeGroups == old(activeGroups) && groupOrder == old(groupOrder)
      ensures !WellFormed(data) ==>
        out == [ToSocket(sid, Error(InvalidFormat))] && messageHistory == old(messageHistory) && accepted == old(accepted)
      ensures WellFormed(data) ==>
        var room := RoomPrefix + data.value.groupId.value;
        var m := Stored(data.value, freshId, now);
        && out == [ToRoom(room, ReceiveMessage(m))]
        && (sid in Presence(activeGroups, room) ==> sid in Recipients(activeGroups, out[0]))
        && (room in old(messageHistory) ==>
              && accepted == old(accepted)[room := old(accepted)[room] + [m]]
              && messageHistory == old(messageHistory)[room := Retain(old(messageHistory)[room], m)])
        && (room !in old(messageHistory) ==> messageHistory == old(messageHistory) && accepted == old(accepted))
    {
      if !WellFormed(data) {
        out := [ToSocket(sid, Error(InvalidFormat))];
        return;
      }
      var d := data.value;
      var room := RoomPrefix + d.groupId.value;
      var m := Stored(d, freshId, now);
      if room in messageHistory {
        var messages := messageHistory[room] + [m];
        if |messages| > HistoryCap {
          messages := messages[|messages| - HistoryCap..];
        }
        assert messages == Retain(messageHistory[room], m);
        HistoryAppend(messageHistory, accepted, room, m);
        messageHistory := messageHistory[room := messages];
        accepted := accepted[room := accepted[room] + [m]];
      }
      out := [ToRoom(room, ReceiveMessage(m))];
    }

    /** disconnect: walks the rooms in insertion order and, for each whose presence set
        holds the socket, removes it and tells the rest of that room. */
    method Disconnect(sid: SocketId, now: string) returns (out: seq<Emit>)
      requires Valid()
      modifies this
      ensures Valid()
      ensures groupOrder == old(groupOrder) && messageHistory == old(messageHistory) && accepted == old(accepted)
      ensures activeGroups == map r | r in old(activeGroups) :: old(activeGroups)[r] - {sid}
      ensures out == LeftNotices(groupOrder, old(activeGroups), sid, now)
    {
      out := [];
      var i := 0;
      while i < |groupOrder|
        invariant 0 <= i <= |groupOrder|
        invariant groupOrder == old(groupOrder) && messageHistory == old(messageHistory) && accepted == old(accepted)
        invariant activeGroups == StripFrom(old(activeGroups), groupOrder[..i], sid)
        invariant out == LeftNotices(groupOrder[..i], old(activeGroups), sid, now)
      {
        var room := groupOrder[i];
        assert room !in groupOrder[..i];
        StripStep(old(activeGroups), groupOrder, i, sid, now);
        var users := activeGroups[room];
        if sid in users {
          activeGroups := activeGroups[room := users - {sid}];
          out := out + [ToOthers(room, sid, UserLeft(sid, now))];
        }
        i := i + 1;
      }
      assert groupOrder[..i] == groupOrder;
      StripFromAll(old(activeGroups), groupOrder, sid);
      OrderSameKeys(old(activeGroups), activeGroups, groupOrder);
    }
  }
}
