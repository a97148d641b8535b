// The browser side of the group chat in src/Component/GroupChat.jsx: the updaters the
// socket event handlers apply to the message list and the active-user set, the send
// guard, the optimistic pending entry and its removal when the acknowledgement reports
// an error.

module ChatClient {
  import opened Wrappers
  import opened JsText
  import ChatHub

  const SystemSender := "System"
  const JoinedText := "A new user has joined the chat"
  const LeftText := "A user has left the chat"
  const ConnectFailed := "Failed to connect to chat server"
  const InitFailed := "Failed to initialize chat connection"
  const SendFailed := "Failed to send message. Please try again."
  /** The `maxLength` of the message input (GroupChat.jsx:303). */
  const InputLimit: nat := 500

  /** An entry of the displayed message list. A message from the server carries no group
      id; the optimistic copy of a sent message does. */
  datatype Entry = Entry(
    id: Option<string>,
    groupId: Option<string>,
    sender: string,
    message: string,
    timestamp: Option<string>,
    pending: bool,
    isSystem: bool)

  /** A receive_message payload the hub broadcasts, as the client sees it. */
  function FromServer(m: ChatHub.Message): Entry {
    Entry(Some(m.id), None, m.sender, m.message, Some(m.timestamp), false, false)
  }

  /** Some entry of the list has the id `id`. */
  predicate HasId(list: seq<Entry>, id: string) {
    exists k :: 0 <= k < |list| && list[k].id == Some(id)
  }

  /** The receive_message updater: a payload whose truthy id is already listed leaves
      the list alone; any other payload is appended, its timestamp defaulted to now. */
  function Receive(prev: seq<Entry>, data: Option<Entry>, now: string): (r: seq<Entry>)
    ensures data.None? ==> r == prev
    ensures data.Some? && Truthy(data.value.id) && HasId(prev, data.value.id.value) ==> r == prev
    ensures data.Some? && !(Truthy(data.value.id) && HasId(prev, data.value.id.value)) ==>
      && |r| == |prev| + 1 && r[..|prev|] == prev
      && r[|prev|] == data.value.(timestamp := r[|prev|].timestamp)
      && (Truthy(data.value.timestamp) ==> r[|prev|].timestamp == data.value.timestamp)
      && (!Truthy(data.value.timestamp) ==> r[|prev|].timestamp == Some(now))
  {
    if data.None? then prev
    else
      var d := data.value;
      if Truthy(d.id) && HasId(prev, d.id.value) then prev
      else prev + [d.(timestamp := Some(OrElse(d.timestamp, now)))]
  }

  /** Receiving the same message (with an id) a second time changes nothing. */
  lemma ReceiveIdempotent(prev: seq<Entry>, data: Option<Entry>, now: string, later: string)
    requires data.Some? && Truthy(data.value.id)
    ensures Receive(Receive(prev, data, now), data, later) == Receive(prev, data, now)
  {
    var once := Receive(prev, data, now);
    if once != prev {
      assert once[|prev|].id == data.value.id;
      assert HasId(once, data.value.id.value);
    }
  }

  /** No two entries share a truthy id. */
  predicate UniqueIds(list: seq<Entry>) {
    forall i, j :: 0 <= i < j < |list| && Truthy(list[i].id) ==> list[i].id != list[j].id
  }

  /** Receiving keeps the listed ids unique. */
  lemma ReceiveKeepsUnique(prev: seq<Entry>, data: Option<Entry>, now: string)
    requires UniqueIds(prev)
    ensures UniqueIds(Receive(prev, data, now))
  {
    var r := Receive(prev, data, now);
    if r != prev {
      forall i, j | 0 <= i < j < |r| && Truthy(r[i].id) ensures r[i].id != r[j].id {
        if j == |prev| {
          assert r[i] == prev[i];
          assert r[j].id == data.value.id;
        } else {
          assert r[i] == prev[i] && r[j] == prev[j];
        }
      }
    }
  }

  /** The message_history payload: an array, or anything else. */
  datatype HistoryPayload = Items(items: seq<Entry>) | NotArray

  /** The id `system-<millis>` of a system notice. */
  function SystemId(millis: nat): string {
    "system-" + NatToString(millis)
  }

  /** The id `local-<millis>` of an optimistic entry. */
  function LocalId(millis: nat): string {
    "local-" + NatToString(millis)
  }

  /** Two notices get the same id exactly when they are made in the same millisecond,
      and no notice id is ever an optimistic entry's id. */
  lemma SystemIdsCollide(m1: nat, m2: nat)
    ensures SystemId(m1) == SystemId(m2) <==> m1 == m2
    ensures SystemId(m1) != LocalId(m2)
  {
    if SystemId(m1) == SystemId(m2) {
      var p := |"system-"|;
      assert NatToString(m1) == SystemId(m1)[p..];
      assert NatToString(m2) == SystemId(m2)[p..];
      NatToStringRoundTrip(m1);
      NatToStringRoundTrip(m2);
    }
    assert SystemId(m1)[0] != LocalId(m2)[0];
  }

  /** The notice appended on user_joined and user_left. */
  function SystemEntry(text: string, millis: nat, at: Option<string>, now: string): (e: Entry)
    ensures e.isSystem && !e.pending && e.sender == SystemSender && e.message == text
    ensures e.id == Some(SystemId(millis)) && Truthy(e.id)
    ensures (Truthy(at) ==> e.timestamp == at) && (!Truthy(at) ==> e.timestamp == Some(now))
  {
    Entry(Some(SystemId(millis)), None, SystemSender, text, Some(OrElse(at, now)), false, true)
  }

  /** The send guard: a non-blank message, a socket, a live connection and a non-blank
      user name. */
  predicate CanSend(input: string, hasSocket: bool, isConnected: bool, username: string) {
    !IsBlank(input) && hasSocket && isConnected && !IsBlank(username)
  }

  /** The group_message payload a send emits. */
  datatype Outgoing = Outgoing(groupId: string, sender: string, message: string, timestamp: string)

  function Outbound(groupId: string, username: string, input: string, now: string): (o: Outgoing)
    ensures o.groupId == groupId && o.timestamp == now
    ensures o.sender == Trim(username) && o.message == Trim(input)
  {
    Outgoing(groupId, Trim(username), Trim(input), now)
  }

  /** The optimistic entry a send appends: the payload's fields, a local id and the
      pending mark. */
  function PendingEntry(o: Outgoing, millis: nat): (e: Entry)
    ensures e.pending && !e.isSystem && e.id == Some(LocalId(millis)) && Truthy(e.id)
    ensures e.groupId == Some(o.groupId) && e.sender == o.sender && e.message == o.message
    ensures e.timestamp == Some(o.timestamp)
  {
    Entry(Some(LocalId(millis)), Some(o.groupId), o.sender, o.message, Some(o.timestamp), true, false)
  }

  /** The payload as the hub's group_message handler receives it. */
  function ToInbound(o: Outgoing): ChatHub.Inbound {
    ChatHub.Inbound(Some(o.groupId), Some(o.sender), Some(o.message), Some(o.timestamp))
  }

  /** A message the guard lets through, for a non-empty group id, is accepted by the hub
      and stored unchanged: the hub's copy has the trimmed sender and body and the
      client's timestamp, and only the id is the hub's own. */
  lemma SendRoundTrip(groupId: string, username: string, input: string, now: string, freshId: string, serverNow: string)
    requires groupId != "" && now != "" && |input| <= InputLimit
    requires CanSend(input, true, true, username)
    ensures ChatHub.WellFormed(Some(ToInbound(Outbound(groupId, username, input, now))))
    ensures ChatHub.Stored(ToInbound(Outbound(groupId, username, input, now)), freshId, serverNow)
      == ChatHub.Message(freshId, Trim(username), Trim(input), now)
  {
    TrimSlice(input);
    BlankIffAllSpace(input);
    BlankIffAllSpace(username);
  }

  /** The hub's echo of a sent message (the stored copy SendRoundTrip describes) is not
      merged with the optimistic copy: their ids differ, so the list then shows the
      message twice, once pending and once not. */
  lemma EchoNotMerged(prev: seq<Entry>, groupId: string, username: string, input: string, now: string,
                      millis: nat, freshId: string, later: string)
    requires freshId != "" && !HasId(prev, freshId) && freshId != LocalId(millis)
    ensures var o := Outbound(groupId, username, input, now);
      var echo := ChatHub.Message(freshId, o.sender, o.message, o.timestamp);
      var r := Receive(prev + [PendingEntry(o, millis)], Some(FromServer(echo)), later);
      && |r| == |prev| + 2
      && r[|prev|].pending && !r[|prev| + 1].pending
      && r[|prev|].sender == r[|prev| + 1].sender && r[|prev|].message == r[|prev| + 1].message
  {
  }

  /** `list.filter(msg => msg.id !== id)`. */
  function RemoveId(list: seq<Entry>, id: string): (r: seq<Entry>)
    ensures forall e :: e in r <==> e in list && e.id != Some(id)
    ensures |r| <= |list|
  {
    if list == [] then []
    else
      var last := list[|list| - 1];
      var init := RemoveId(list[..|list| - 1], id);
      assert list == list[..|list| - 1] + [last];
      if last.id != Some(id) then init + [last] else init
  }

  lemma {:induction false} RemoveIdAppend(a: seq<Entry>, b: seq<Entry>, id: string)
    ensures RemoveId(a + b, id) == RemoveId(a, id) + RemoveId(b, id)
    decreases |b|
  {
    if b == [] {
      assert a + b == a;
    } else {
      var b0 := b[..|b| - 1];
      assert (a + b)[..|a + b| - 1] == a + b0;
      assert (a + b)[|a + b| - 1] == b[|b| - 1];
      RemoveIdAppend(a, b0, id);
    }
  }

  lemma {:induction false} RemoveIdAbsent(list: seq<Entry>, id: string)
    requires !HasId(list, id)
    ensures RemoveId(list, id) == list
  {
    if list != [] {
      var init := list[..|list| - 1];
      RemoveIdAbsent(init, id);
      assert list == init + [list[|list| - 1]];
    }
  }

  /** Removing the optimistic entry undoes the send exactly: whatever arrived before or
      after it stays, in order. */
  lemma AckErrorUndoesSend(before: seq<Entry>, pending: Entry, after: seq<Entry>, id: string)
    requires pending.id == Some(id) && !HasId(before, id) && !HasId(after, id)
    ensures RemoveId(before + [pending] + after, id) == before + after
  {
    RemoveIdAppend(before + [pending], after, id);
    RemoveIdAppend(before, [pending], id);
    RemoveIdAbsent(before, id);
    RemoveIdAbsent(after, id);
    assert RemoveId([pending], id) == [] by {
      assert [pending][..0] == [];
    }
  }

  /** The component's state. */
  class ChatView {
    const groupId: string
    var username: string
    var messages: seq<Entry>
    var activeUsers: set<string>
    /** The text of the message input. */
    var input: string
    var hasSocket: bool
    var isConnected: bool
    var isConnecting: bool
    var isSending: bool
    var connectionError: string

    /** Mounting: the connect effect starts connecting, or records that the socket could
        not be created. */
    constructor (groupId: string, username: string, socketCreated: bool)
      ensures this.groupId == groupId && this.username == username
      ensures messages == [] && activeUsers == {} && input == ""
      ensures !isConnected && !isSending
      ensures hasSocket == socketCreated && isConnecting == socketCreated
      ensures connectionError == if socketCreated then "" else InitFailed
    {
      this.groupId := groupId;
      this.username := username;
      messages, activeUsers, input := [], {}, "";
      isConnected, isSending := false, false;
      hasSocket, isConnecting := socketCreated, socketCreated;
      connectionError := if socketCreated then "" else InitFailed;
    }

    /** The message input is enabled (GroupChat.jsx:302). */
    predicate InputEnabled()
      reads this
    {
      isConnected && !isSending
    }

    /** The Send button is enabled (GroupChat.jsx:309). */
    predicate SubmitEnabled()
      reads this
    {
      isConnected && !IsBlank(input) && !isSending
    }

    /** connect: marks the view connected and returns the group id it joins. */
    method OnConnect() returns (join: string)
      modifies this
      ensures join == groupId
      ensures isConnected && !isConnecting && connectionError == ""
      ensures messages == old(messages) && activeUsers == old(activeUsers) && input == old(input)
      ensures hasSocket == old(hasSocket) && isSending == old(isSending) && username == old(username)
    {
      isConnected, isConnecting, connectionError := true, false, "";
      join := groupId;
    }

    /** connect_error. */
    method OnConnectError()
      modifies this
      ensures !isConnecting && connectionError == ConnectFailed
      ensures messages == old(messages) && activeUsers == old(activeUsers) && input == old(input)
      ensures hasSocket == old(hasSocket) && isConnected == old(isConnected) && isSending == old(isSending)
      ensures username == old(username)
    {
      isConnecting, connectionError := false, ConnectFailed;
    }

    /** disconnect. */
    method OnDisconnect()
      modifies this
      ensures !isConnected
      ensures messages == old(messages) && activeUsers == old(activeUsers) && input == old(input)
      ensures hasSocket == old(hasSocket) && isConnecting == old(isConnecting) && isSending == old(isSending)
      ensures connectionError == old(connectionError) && username == old(username)
    {
      isConnected := false;
    }

    /** receive_message. */
    method OnReceive(data: Option<Entry>, now: string)
      modifies this
      ensures messages == Receive(old(messages), data, now)
      ensures activeUsers == old(activeUsers) && input == old(input) && hasSocket == old(hasSocket)
      ensures isConnected == old(isConnected) && isConnecting == old(isConnecting) && isSending == old(isSending)
      ensures connectionError == old(connectionError) && username == old(username)
    {
      messages := Receive(messages, data, now);
    }

    /** message_history: an array replaces the whole list; anything else is ignored. */
    method OnHistory(payload: HistoryPayload)
      modifies this
      ensures messages == if payload.Items? then payload.items else old(messages)
      ensures activeUsers == old(activeUsers) && input == old(input) && hasSocket == old(hasSocket)
      ensures isConnected == old(isConnected) && isConnecting == old(isConnecting) && isSending == old(isSending)
      ensures connectionError == old(connectionError) && username == old(username)
    {
      if payload.Items? {
        messages := payload.items;
      }
    }

    /** user_joined: adds the socket to the active users and appends one notice. */
    method OnUserJoined(who: string, at: Option<string>, millis: nat, now: string)
      modifies this
      ensures activeUsers == old(activeUsers) + {who}
      ensures messages == old(messages) + [SystemEntry(JoinedText, millis, at, now)]
      ensures input == old(input) && hasSocket == old(hasSocket)
      ensures isConnected == old(isConnected) && isConnecting == old(isConnecting) && isSending == old(isSending)
      ensures connectionError == old(connectionError) && username == old(username)
    {
      activeUsers := activeUsers + {who};
      messages := messages + [SystemEntry(JoinedText, millis, at, now)];
    }

    /** user_left: drops the socket from the active users and appends one notice. */
    method OnUserLeft(who: string, at: Option<string>, millis: nat, now: string)
      modifies this
      ensures activeUsers == old(activeUsers) - {who}
      ensures messages == old(messages) + [SystemEntry(LeftText, millis, at, now)]
      ensures input == old(input) && hasSocket == old(hasSocket)
      ensures isConnected == old(isConnected) && isConnecting == old(isConnecting) && isSending == old(isSending)
      ensures connectionError == old(connectionError) && username == old(username)
    {
      activeUsers := activeUsers - {who};
      messages := messages + [SystemEntry(LeftText, millis, at, now)];
    }

    /** error: a payload with a truthy message becomes the connection error. */
    method OnError(text: Option<string>)
      modifies this
      ensures connectionError == if Truthy(text) then text.value else old(connectionError)
      ensures messages == old(messages) && activeUsers == old(activeUsers) && input == old(input)
      ensures hasSocket == old(hasSocket) && isConnected == old(isConnected)
      ensures isConnecting == old(isConnecting) && isSending == old(isSending) && username == old(username)
    {
      if Truthy(text) {
        connectionError := text.value;
      }
    }

    /** Typing into the message input. */
    method OnType(text: string)
      requires |text| <= InputLimit
      modifies this
      ensures input == text
      ensures messages == old(messages) && activeUsers == old(activeUsers) && hasSocket == old(hasSocket)
      ensures isConnected == old(isConnected) && isConnecting == old(isConnecting) && isSending == old(isSending)
      ensures connectionError == old(connectionError) && username == old(username)
    {
      input := text;
    }

    /** handleSendMessage: when the guard fails nothing happens; otherwise the view marks
        itself sending, appends the pending copy, clears the input and emits the payload. */
    method HandleSendMessage(millis: nat, now: string) returns (sent: Option<Outgoing>)
      modifies this
      ensures !CanSend(old(input), old(hasSocket), old(isConnected), old(username)) ==>
        sent.None? && messages == old(messages) && input == old(input) && isSending == old(isSending)
      ensures CanSend(old(input), old(hasSocket), old(isConnected), old(username)) ==>
        && sent == Some(Outbound(groupId, old(username), old(input), now))
        && messages == old(messages) + [PendingEntry(sent.value, millis)]
        && input == "" && isSending
      ensures activeUsers == old(activeUsers) && hasSocket == old(hasSocket) && isConnected == old(isConnected)
      ensures isConnecting == old(isConnecting) && connectionError == old(connectionError) && username == old(username)
    {
      var ok := CanSend(input, hasSocket, isConnected, username);
      if !ok {
        return None;
      }
      var o := Outbound(groupId, username, input, now);
      var entry := PendingEntry(o, millis);
      isSending, messages, input := true, messages + [entry], "";
      sent := Some(o);
    }

    /** The acknowledgement callback of a send whose entry has id `localId`: it always
        ends the sending state, and an error also sets the error text and removes the
        pending entry. */
    method OnAck(localId: string, ack: Option<ChatHub.Ack>)
      modifies this
      ensures !isSending
      ensures ack.Some? && ack.value.Rejected? && Truthy(Some(ack.value.error)) ==>
        connectionError == SendFailed && messages == RemoveId(old(messages), localId)
      ensures !(ack.Some? && ack.value.Rejected? && Truthy(Some(ack.value.error))) ==>
        connectionError == old(connectionError) && messages == old(messages)
      ensures activeUsers == old(activeUsers) && input == old(input) && hasSocket == old(hasSocket)
      ensures isConnected == old(isConnected) && isConnecting == old(isConnecting) && username == old(username)
    {
      isSending := false;
      if ack.Some? && ack.value.Rejected? && Truthy(Some(ack.value.error)) {
        connectionError := SendFailed;
        messages := RemoveId(messages, localId);
      }
    }
  }

  /** The exchange as written: the hub's group_message handler takes no acknowledgement
      callback, so after one accepted send and its echo nothing ends the sending state,
      and the message input and the Send button stay disabled. */
  method LockedAfterSend(text: string) returns (inputEnabled: bool, submitEnabled: bool)
    requires |text| <= InputLimit && !IsBlank(text)
    ensures !inputEnabled && !submitEnabled
  {
    var hub := new ChatHub.Hub();
    var view := new ChatView("study", "Ann", true);
    var join := view.OnConnect();
    assert !IsSpace("Ann"[0]);
    SendRoundTrip("study", "Ann", text, "t1", "u1", "t2");
    view.OnType(text);
    var sent := view.HandleSendMessage(1, "t1");
    var out := hub.GroupMessage("s1", Some(ToInbound(sent.value)), "u1", "t2");
    view.OnReceive(Some(FromServer(out[0].event.msg)), "t3");
    inputEnabled, submitEnabled := view.InputEnabled(), view.SubmitEnabled();
  }

  /** The exchange as intended: the hub answers the callback with GroupMessageAck, the
      view's acknowledgement handler ends the sending state, and the input is enabled
      again with the optimistic copy and the echo both listed. */
  method UnlockedAfterAck(text: string) returns (inputEnabled: bool, shown: nat)
    requires |text| <= InputLimit && !IsBlank(text)
    ensures inputEnabled && shown == 2
  {
    var hub := new ChatHub.Hub();
    var view := new ChatView("study", "Ann", true);
    var join := view.OnConnect();
    assert !IsSpace("Ann"[0]);
    SendRoundTrip("study", "Ann", text, "t1", "u1", "t2");
    view.OnType(text);
    var sent := view.HandleSendMessage(1, "t1");
    var data := Some(ToInbound(sent.value));
    var out := hub.GroupMessage("s1", data, "u1", "t2");
    view.OnReceive(Some(FromServer(out[0].event.msg)), "t3");
    view.OnAck(LocalId(1), Some(ChatHub.GroupMessageAck(data, "u1")));
    inputEnabled, shown := view.InputEnabled(), |view.messages|;
  }
}
