/** The real-time broadcast hub: a registry of connected clients, each with a user id, a list of
    team ids and a bounded outbound queue (a buffered channel of capacity 256).
    The hub's event loop is modelled as three sequential operations (register, unregister,
    broadcast); the client's reader delivers control messages (ping, subscribe, unsubscribe). */
module WebSocketService {
  import opened Wrappers
  import opened DomainTodo
  import opened DomainTeam

  /** The capacity of every client's outbound channel. */
  const QueueCapacity: nat := 256

  /** A value inside a message payload map (an `interface{}`). */
  datatype Value =
    | Str(s: string)
    | TodoValue(todo: TodoView)
    | TeamValue(team: Team)
    | OtherValue

  /** A message payload: a `map[string]interface{}` or anything else (nil, a number, a list). */
  datatype Payload = Fields(fields: map<string, Value>) | NoFields

  datatype Message = Message(typ: string, payload: Payload, userId: string, timestamp: DomainTodo.Time)

  /** The string under "team_id" in a map payload, if there is one of string type. */
  function PayloadTeamId(p: Payload): (r: Option<string>)
    ensures r.Some? <==> p.Fields? && "team_id" in p.fields && p.fields["team_id"].Str?
    ensures r.Some? ==> r.value == p.fields["team_id"].s
  {
    if p.Fields? && "team_id" in p.fields && p.fields["team_id"].Str? then Some(p.fields["team_id"].s) else None
  }

  /** shouldSendToClient, on the client's user id and team list. An untargeted message (empty
      UserID) goes to every client, whatever its payload; a targeted one goes to its user and to
      clients listed in the team named by the payload's "team_id". A "team_id" that is not a
      string never equals a team id. */
  function ShouldSendToClient(clientUserId: string, clientTeamIds: seq<string>, m: Message): (b: bool)
    ensures m.userId == "" ==> b
    ensures m.userId != "" && m.userId == clientUserId ==> b
    ensures m.userId != "" && m.userId != clientUserId ==>
              (b <==> exists i :: 0 <= i < |clientTeamIds| && PayloadTeamId(m.payload) == Some(clientTeamIds[i]))
  {
    if m.userId == "" then true
    else if m.userId == clientUserId then true
    else
      var teamId := PayloadTeamId(m.payload);
      teamId.Some? && teamId.value in clientTeamIds
  }

  /** BroadcastTODOUpdate: an untargeted "todo_update" whose payload carries the action, the
      todo and its id, and "team_id" only when the todo's team is set and non-empty. */
  function TodoUpdateEvent(t: TodoView, action: string, now: DomainTodo.Time): (m: Message)
    ensures m.typ == "todo_update" && m.userId == "" && m.timestamp == now && m.payload.Fields?
    ensures m.payload.fields.Keys == {"action", "todo", "todo_id"} + (if t.teamId.Some? && t.teamId.value != "" then {"team_id"} else {})
    ensures m.payload.fields["action"] == Str(action) && m.payload.fields["todo_id"] == Str(t.id)
    ensures m.payload.fields["todo"] == TodoValue(t)
    ensures PayloadTeamId(m.payload) == if t.teamId.Some? && t.teamId.value != "" then t.teamId else None
  {
    var base := map["action" := Str(action), "todo" := TodoValue(t), "todo_id" := Str(t.id)];
    var fields := if t.teamId.Some? && t.teamId.value != "" then base["team_id" := Str(t.teamId.value)] else base;
    Message("todo_update", Fields(fields), "", now)
  }

  /** BroadcastTeamUpdate: an untargeted "team_update" carrying the action, the team and its id. */
  function TeamUpdateEvent(team: Team, action: string, now: DomainTodo.Time): (m: Message)
    ensures m.typ == "team_update" && m.userId == "" && m.timestamp == now && m.payload.Fields?
    ensures m.payload.fields.Keys == {"action", "team", "team_id"}
    ensures m.payload.fields["team"] == TeamValue(team)
    ensures PayloadTeamId(m.payload) == Some(team.id)
  {
    Message("team_update", Fields(map["action" := Str(action), "team" := TeamValue(team), "team_id" := Str(team.id)]), "", now)
  }

  /** BroadcastUserNotification: a "notification" targeted at `userId`. */
  function UserNotificationEvent(userId: string, messageType: string, content: string, now: DomainTodo.Time): (m: Message)
    ensures m.typ == "notification" && m.userId == userId && m.timestamp == now
    ensures m.payload == Fields(map["type" := Str(messageType), "content" := Str(content)])
    ensures PayloadTeamId(m.payload).None?
  {
    Message("notification", Fields(map["type" := Str(messageType), "content" := Str(content)]), userId, now)
  }

  /** The reply to a "ping": a "pong" without payload or target. */
  function Pong(now: DomainTodo.Time): Message {
    Message("pong", NoFields, "", now)
  }

  /** Every TODO update, team or no team, qualifies for every client: its UserID is empty,
      so routing returns before the team check. */
  lemma TodoUpdateReachesEveryone(t: TodoView, action: string, now: DomainTodo.Time, userId: string, teamIds: seq<string>)
    ensures ShouldSendToClient(userId, teamIds, TodoUpdateEvent(t, action, now))
  {
  }

  /** A team update qualifies for every client too. */
  lemma TeamUpdateReachesEveryone(team: Team, action: string, now: DomainTodo.Time, userId: string, teamIds: seq<string>)
    ensures ShouldSendToClient(userId, teamIds, TeamUpdateEvent(team, action, now))
  {
  }

  /** A notification for a non-empty user id qualifies exactly for that user's clients. */
  lemma NotificationReachesOnlyTarget(target: string, typ: string, content: string, now: DomainTodo.Time,
                                      userId: string, teamIds: seq<string>)
    requires target != ""
    ensures ShouldSendToClient(userId, teamIds, UserNotificationEvent(target, typ, content, now)) <==> userId == target
  {
  }

  /** A targeted message with a string "team_id" reaches a client of another user exactly when the
      client lists that team, wherever in its list. */
  lemma TeamRoutingByMembership(m: Message, userId: string, teamIds: seq<string>, teamId: string)
    requires m.userId != "" && m.userId != userId
    requires PayloadTeamId(m.payload) == Some(teamId)
    ensures ShouldSendToClient(userId, teamIds, m) <==> teamId in teamIds
  {
  }

  /** The index of the first occurrence of `x` in `s`, |s| when absent. */
  function FirstIndex(s: seq<string>, x: string): (i: nat)
    ensures i <= |s|
    ensures i < |s| ==> s[i] == x
    ensures forall j :: 0 <= j < i ==> s[j] != x
  {
    if |s| == 0 then 0 else if s[0] == x then 0 else 1 + FirstIndex(s[1..], x)
  }

  /** The list `s` with its first occurrence of `x` spliced out; unchanged when `x` does not occur. */
  function RemoveFirst(s: seq<string>, x: string): seq<string>
  {
    var i := FirstIndex(s, x);
    if i < |s| then s[..i] + s[i + 1..] else s
  }

  /** RemoveFirst takes away one copy of `x` if there is one and nothing else. */
  lemma RemoveFirstMultiset(s: seq<string>, x: string)
    ensures x in s ==> multiset(RemoveFirst(s, x)) == multiset(s) - multiset{x}
    ensures x !in s ==> RemoveFirst(s, x) == s
    ensures |RemoveFirst(s, x)| == if x in s then |s| - 1 else |s|
  {
    var i := FirstIndex(s, x);
    if i < |s| {
      var before, after := s[..i], s[i + 1..];
      assert s == before + [x] + after;
      assert multiset(s) == multiset(before) + multiset{x} + multiset(after);
      assert multiset(RemoveFirst(s, x)) == multiset(before) + multiset(after);
    } else {
      assert forall j :: 0 <= j < |s| ==> s[j] != x;
    }
  }

  /** What remains keeps its order: the entries before the first `x` stay in place, those after it
      move one position forward. */
  lemma RemoveFirstKeepsOrder(s: seq<string>, x: string)
    ensures forall j :: 0 <= j < FirstIndex(s, x) ==> RemoveFirst(s, x)[j] == s[j]
    ensures forall j :: FirstIndex(s, x) < j < |s| ==> RemoveFirst(s, x)[j - 1] == s[j]
  {
  }

  /** The loop of the unsubscribe case: the position of the first entry equal to `x`, or |s|. */
  method FindTeam(s: seq<string>, x: string) returns (i: nat)
    ensures i == FirstIndex(s, x)
  {
    i := 0;
    while i < |s| && s[i] != x
      invariant i <= |s|
      invariant forall j :: 0 <= j < i ==> s[j] != x
      invariant FirstIndex(s, x) == i + FirstIndex(s[i..], x)
    {
      assert s[i..][1..] == s[i + 1..];
      i := i + 1;
    }
  }

  /** What a broadcast does to one client: nothing, an enqueue, or closing and dropping it. */
  datatype Delivery = Skipped | Enqueued | Dropped

  function DeliveryFor(clientUserId: string, clientTeamIds: seq<string>, queueLength: nat, m: Message): Delivery {
    if !ShouldSendToClient(clientUserId, clientTeamIds, m) then Skipped
    else if queueLength < QueueCapacity then Enqueued
    else Dropped
  }

  /** Outcome of the ping reply, a blocking send on the client's own channel. */
  datatype SendOutcome = Sent | WouldBlock | SendOnClosedChannel

  /** The result of the writer taking the next message from a client's channel. */
  datatype Receive = Delivered(m: Message) | ChannelClosed | NothingQueued

  /** A connected client. `queue` is the content of its buffered `Send` channel, oldest first. */
  class Client {
    const userId: string
    var teamIds: seq<string>
    var queue: seq<Message>
    var closed: bool

    /** The client HandleWebSocketConnection creates: an open, empty channel. */
    constructor (userId: string, teamIds: seq<string>)
      ensures this.userId == userId && this.teamIds == teamIds
      ensures queue == [] && !closed
    {
      this.userId := userId;
      this.teamIds := teamIds;
      queue := [];
      closed := false;
    }

    /** The effect of writePump receiving from the channel: the oldest message, or the close. */
    method Receive() returns (r: Receive)
      modifies this
      ensures old(queue) != [] ==> r == Delivered(old(queue)[0]) && queue == old(queue)[1..]
      ensures old(queue) == [] ==> queue == [] && r == (if closed then ChannelClosed else NothingQueued)
      ensures closed == old(closed) && teamIds == old(teamIds)
    {
      if queue != [] {
        r := Delivered(queue[0]);
        queue := queue[1..];
      } else if closed {
        r := ChannelClosed;
      } else {
        r := NothingQueued;
      }
    }

    /** handleIncomingMessage. A ping replies with a pong on the client's own channel; that send
        blocks when the channel is full and panics when it is closed. A subscribe with a string
        "team_id" appends it (duplicates allowed); an unsubscribe removes its first occurrence.
        Any other message, or a payload without a string "team_id", changes nothing. */
    method HandleIncoming(m: Message, now: DomainTodo.Time) returns (outcome: SendOutcome)
      modifies this
      ensures m.typ == "ping" ==>
        && teamIds == old(teamIds)
        && (old(closed) ==> outcome == SendOnClosedChannel && queue == old(queue))
        && (!old(closed) && |old(queue)| < QueueCapacity ==> outcome == Sent && queue == old(queue) + [Pong(now)])
        && (!old(closed) && |old(queue)| >= QueueCapacity ==> outcome == WouldBlock && queue == old(queue))
      ensures m.typ != "ping" ==> outcome == Sent && queue == old(queue)
      ensures m.typ == "subscribe" && PayloadTeamId(m.payload).Some? ==>
                teamIds == old(teamIds) + [PayloadTeamId(m.payload).value]
      ensures m.typ == "unsubscribe" && PayloadTeamId(m.payload).Some? ==>
                teamIds == RemoveFirst(old(teamIds), PayloadTeamId(m.payload).value)
      ensures (m.typ !in {"ping", "subscribe", "unsubscribe"} || PayloadTeamId(m.payload).None?) ==> teamIds == old(teamIds)
      ensures closed == old(closed)
    {
      outcome := Sent;
      if m.typ == "ping" {
        if closed {
          outcome := SendOnClosedChannel;
        } else if |queue| < QueueCapacity {
          queue := queue + [Pong(now)];
        } else {
          outcome := WouldBlock;
        }
      } else if m.typ == "subscribe" {
        var teamId := PayloadTeamId(m.payload);
        if teamId.Some? {
          teamIds := teamIds + [teamId.value];
        }
      } else if m.typ == "unsubscribe" {
        var teamId := PayloadTeamId(m.payload);
        if teamId.Some? {
          var i := FindTeam(teamIds, teamId.value);
          if i < |teamIds| {
            teamIds := teamIds[..i] + teamIds[i + 1..];
          }
        }
      }
    }
  }

  /** The hub: the set of registered clients. */
  class Hub {
    var clients: set<Client>

    /** Every registered client has an open channel within capacity. */
    ghost predicate Valid()
      reads this, clients
    {
      forall c :: c in clients ==> !c.closed && |c.queue| <= QueueCapacity
    }

    /** NewWebSocketService */
    constructor ()
      ensures clients == {} && Valid()
    {
      clients := {};
    }

    /** The register case: adds exactly that client. */
    method Register(c: Client)
      requires Valid() && !c.closed && |c.queue| <= QueueCapacity
      modifies this
      ensures clients == old(clients) + {c}
      ensures Valid()
    {
      clients := clients + {c};
    }

    /** HandleWebSocketConnection after the upgrade: a new client with an empty channel is registered. */
    method Connect(userId: string, teamIds: seq<string>) returns (c: Client)
      requires Valid()
      modifies this
      ensures fresh(c) && c.userId == userId && c.teamIds == teamIds && c.queue == [] && !c.closed
      ensures clients == old(clients) + {c}
      ensures Valid()
    {
      c := new Client(userId, teamIds);
      Register(c);
    }

    /** The unregister case: a registered client is removed and its channel closed; `closedNow`
        tells whether that happened. A channel is only ever closed while open, so it is closed once.
        An unregistered client is left alone. */
    method Unregister(c: Client) returns (closedNow: bool)
      requires Valid()
      modifies this, c
      ensures closedNow <==> c in old(clients)
      ensures closedNow ==> !old(c.closed) && c.closed
      ensures clients == old(clients) - {c}
      ensures !closedNow ==> c.closed == old(c.closed)
      ensures c.queue == old(c.queue) && c.teamIds == old(c.teamIds)
      ensures Valid()
    {
      closedNow := c in clients;
      if closedNow {
        clients := clients - {c};
        c.closed := true;
      }
    }

    /** The broadcast case. Every registered client is visited once (in arbitrary order; the
        effect on each client depends only on that client): a qualifying client with room gets
        the message at the tail of its queue, a qualifying client whose queue is full has its
        channel closed and is removed, and every other client is untouched. */
    method Broadcast(m: Message)
      requires Valid()
      modifies this, clients
      ensures Valid()
      ensures forall c :: c in old(clients) ==> c.teamIds == old(c.teamIds)
      ensures forall c :: c in old(clients) ==>
        match DeliveryFor(c.userId, old(c.teamIds), |old(c.queue)|, m)
        case Skipped => c in clients && c.queue == old(c.queue) && !c.closed
        case Enqueued => c in clients && c.queue == old(c.queue) + [m] && !c.closed
        case Dropped => c !in clients && c.queue == old(c.queue) && c.closed && !old(c.closed)
      ensures clients <= old(clients)
    {
      var pending := clients;
      while pending != {}
        invariant pending <= old(clients) && clients <= old(clients) && pending <= clients
        invariant Valid()
        invariant forall c :: c in old(clients) ==> c.teamIds == old(c.teamIds)
        invariant forall c :: c in pending ==> c.queue == old(c.queue) && c.closed == old(c.closed)
        invariant forall c :: c in old(clients) && c !in pending ==>
          match DeliveryFor(c.userId, old(c.teamIds), |old(c.queue)|, m)
          case Skipped => c in clients && c.queue == old(c.queue) && !c.closed
          case Enqueued => c in clients && c.queue == old(c.queue) + [m] && !c.closed
          case Dropped => c !in clients && c.queue == old(c.queue) && c.closed && !old(c.closed)
        decreases pending
      {
        var c :| c in pending;
        if ShouldSendToClient(c.userId, c.teamIds, m) {
          if |c.queue| < QueueCapacity {
            c.queue := c.queue + [m];
          } else {
            c.closed := true;
            clients := clients - {c};
          }
        }
        pending := pending - {c};
      }
    }
  }
}
