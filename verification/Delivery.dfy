/**
 The public broker as a whole: clients connect and subscribe, potto's worker bridges events, time
 passes, and messages are received, in any order. A message may be delivered at any later time.
 */
module Delivery {
  import opened Wrappers
  import opened Topics
  import opened Scopes
  import opened Authorization
  import opened Audience
  import opened BrokerPlugins
  import opened EventBridge

  /** A message the broker accepted; `audience` is the one the bridge used, None for anything not bridged. */
  datatype Published = Published(message: Message, audience: Option<ResourceAudience>)

  /** A message handed to a client, with the session's attributes at that moment. */
  datatype Receipt = Receipt(published: Published, attributes: Attributes, at: real)

  datatype State = State(now: real, sessions: map<string, Persistent>, messages: seq<Published>, receipts: seq<Receipt>)

  datatype Step =
    | ConnectClient(client: string, connection: Connection)
    | SubscribeTo(client: string, filter: string)
    | Unsubscribe(client: string, filter: string)
    | Wait(duration: real)
    | Bridge(via: string, event: ProcessEvent, resolved: Option<ResourceAudience>)
    | PublishDirectly(client: string, message: Message)
    | Deliver(client: string, index: nat)

  const EMPTY := State(0.0, map[], [], [])

  function SessionOf(s: State, client: string): Persistent {
    if client in s.sessions then s.sessions[client] else Persistent(FRESH, {}, false)
  }

  function OnSession(publisherPassword: string, s: State, client: string, e: Event): State {
    s.(sessions := s.sessions[client := Handle(publisherPassword, SessionOf(s, client), e)])
  }

  /** Publishing the given messages; the topic plugin decides, topic by topic. */
  function Accepted(a: Attributes, now: real, messages: seq<Message>, audience: Option<ResourceAudience>)
    : seq<Published>
  {
    if messages == [] then [] else
    (if TopicFiltering(a, messages[0].topic, Publish, now) then [Published(messages[0], audience)] else [])
    + Accepted(a, now, messages[1..], audience)
  }

  ghost predicate IsMatched(p: Persistent, topic: string) {
    exists filter :: filter in p.subscriptions && FilterMatches(filter, topic)
  }

  ghost function Next(publisherPassword: string, s: State, step: Step): Option<State> {
    match step
    case ConnectClient(client, connection) =>
      Some(OnSession(publisherPassword, s, client, Connect(connection)))
    case SubscribeTo(client, filter) =>
      Some(OnSession(publisherPassword, s, client, Ask(filter, s.now)))
    case Unsubscribe(client, filter) =>
      Some(OnSession(publisherPassword, s, client, Forget(filter)))
    case Wait(duration) =>
      if duration >= 0.0 then Some(s.(now := s.now + duration)) else None
    case Bridge(via, event, resolved) =>
      var messages, audience := Bridged(event, resolved), UsedAudience(event, resolved);
      var accepted := Accepted(SessionOf(s, via).attributes, s.now, messages, audience);
      Some(s.(messages := s.messages + accepted))
    case PublishDirectly(client, message) =>
      Some(s.(messages := s.messages + Accepted(SessionOf(s, client).attributes, s.now, [message], None)))
    case Deliver(client, i) =>
      var p := SessionOf(s, client);
      if && i < |s.messages|
         && IsMatched(p, s.messages[i].message.topic)
         && TopicFiltering(p.attributes, s.messages[i].message.topic, Receive, s.now)
      then Some(s.(receipts := s.receipts + [Receipt(s.messages[i], p.attributes, s.now)]))
      else None
  }

  datatype Trace = Begin | Then(earlier: Trace, step: Step)

  ghost function After(publisherPassword: string, trace: Trace): Option<State> {
    match trace
    case Begin => Some(EMPTY)
    case Then(earlier, step) =>
      var s := After(publisherPassword, earlier);
      if s.Some? then Next(publisherPassword, s.value, step) else None
  }

  /** A message bridged to a private audience is addressed to one of its members with a valid id. */
  ghost predicate IsAddressed(p: Published) {
    p.audience.Some? && !p.audience.value.isPublic ==>
      exists u :: u in p.audience.value.userIds && IsValidTopicUserId(u) && '/' !in p.message.eventType
        && p.message.topic == PrivateProcessTopic(u, p.message.process, p.message.eventType)
  }

  predicate TokensExpire(a: Attributes) {
    (a.subject.Some? ==> a.expiry.Some?) && (a.role.None? ==> a.subject.None?)
  }

  /** A private message was received by a member of its audience only, while that member's token was valid. */
  ghost predicate IsRightful(r: Receipt) {
    r.published.audience.Some? && !r.published.audience.value.isPublic ==>
      && r.attributes.IsClient()
      && r.attributes.subject.Some?
      && r.attributes.subject.value in r.published.audience.value.userIds
      && r.attributes.expiry.Some? && r.at < r.attributes.expiry.value
  }

  ghost predicate Safe(s: State) {
    && (forall client :: client in s.sessions ==> TokensExpire(s.sessions[client].attributes))
    && (forall i :: 0 <= i < |s.messages| ==> IsAddressed(s.messages[i]))
    && (forall i :: 0 <= i < |s.receipts| ==> IsRightful(s.receipts[i]))
  }

  lemma {:induction false} AcceptedAre(a: Attributes, now: real, messages: seq<Message>,
                                       audience: Option<ResourceAudience>)
    ensures forall p :: p in Accepted(a, now, messages, audience) ==> p.message in messages && p.audience == audience
    ensures a.IsPublisher() ==>
      |Accepted(a, now, messages, audience)| == |messages|
      && forall i :: 0 <= i < |messages| ==> Accepted(a, now, messages, audience)[i] == Published(messages[i], audience)
    ensures !a.IsPublisher() ==> Accepted(a, now, messages, audience) == []
  {
    if messages != [] {
      AcceptedAre(a, now, messages[1..], audience);
    }
  }

  lemma BridgedAreAddressed(event: ProcessEvent, resolved: Option<ResourceAudience>, m: Message)
    requires m in Bridged(event, resolved)
    ensures IsAddressed(Published(m, UsedAudience(event, resolved)))
  {
    var audience := UsedAudience(event, resolved).value;
    if !audience.isPublic {
      PrivateMessagesExactly(event, ExternalName(event.Type()).value, audience.userIds, m);
    }
  }

  lemma DeliveryIsRightful(s: State, client: string, i: nat)
    requires Safe(s) && i < |s.messages|
    requires var p := SessionOf(s, client);
      && IsMatched(p, s.messages[i].message.topic)
      && TopicFiltering(p.attributes, s.messages[i].message.topic, Receive, s.now)
    ensures IsRightful(Receipt(s.messages[i], SessionOf(s, client).attributes, s.now))
  {
    var p, published := SessionOf(s, client), s.messages[i];
    if published.audience.Some? && !published.audience.value.isPublic {
      assert IsAddressed(published);
      var u :| u in published.audience.value.userIds && IsValidTopicUserId(u) && '/' !in published.message.eventType
        && published.message.topic == PrivateProcessTopic(u, published.message.process, published.message.eventType);
      PrivateProcessTopicLevels(u, published.message.process, published.message.eventType);
      AllowedLevels(published.message.topic, p.attributes.subject);
      var levels := Levels(published.message.topic);
      assert levels[0] == PRIVATE_PREFIX && levels[1] == u && levels[..2] == [PRIVATE_PREFIX, u];
      assert TokensExpire(p.attributes);
    }
  }

  lemma StepIsSafe(publisherPassword: string, s: State, step: Step)
    requires Safe(s) && Next(publisherPassword, s, step).Some?
    ensures Safe(Next(publisherPassword, s, step).value)
  {
    match step
    case Bridge(via, event, resolved) =>
      var messages, audience := Bridged(event, resolved), UsedAudience(event, resolved);
      var accepted := Accepted(SessionOf(s, via).attributes, s.now, messages, audience);
      AcceptedAre(SessionOf(s, via).attributes, s.now, messages, audience);
      forall i | 0 <= i < |accepted| ensures IsAddressed(accepted[i]) {
        assert accepted[i] in accepted;
        BridgedAreAddressed(event, resolved, accepted[i].message);
      }
    case PublishDirectly(client, message) =>
      var accepted := Accepted(SessionOf(s, client).attributes, s.now, [message], None);
      AcceptedAre(SessionOf(s, client).attributes, s.now, [message], None);
      forall i | 0 <= i < |accepted| ensures IsAddressed(accepted[i]) {
        assert accepted[i] in accepted;
      }
    case Deliver(client, i) =>
      DeliveryIsRightful(s, client, i);
    case _ =>
  }

  lemma {:induction false} AlwaysSafe(publisherPassword: string, trace: Trace)
    requires After(publisherPassword, trace).Some?
    ensures Safe(After(publisherPassword, trace).value)
  {
    match trace
    case Begin =>
    case Then(earlier, step) =>
      AlwaysSafe(publisherPassword, earlier);
      StepIsSafe(publisherPassword, After(publisherPassword, earlier).value, step);
  }

  /**
   End to end: in any run, a private event is received only by members of the audience the bridge used,
   before their token expires.
   */
  lemma PrivateEventsReachMembersOnly(publisherPassword: string, trace: Trace, s: State, i: nat)
    requires After(publisherPassword, trace) == Some(s) && i < |s.receipts|
    ensures IsRightful(s.receipts[i])
    ensures var audience, receiver := s.receipts[i].published.audience, s.receipts[i].attributes;
      audience.Some? && !audience.value.isPublic ==>
        && receiver.role == Some(Client)
        && receiver.subject.Some? && receiver.subject.value in audience.value.userIds
        && receiver.expiry.Some? && s.receipts[i].at < receiver.expiry.value
  {
    AlwaysSafe(publisherPassword, trace);
  }

  /**
   A message can be handed to exactly those clients that have a subscription matching its topic, are
   allowed it as whoever they now are, and whose token has not expired.
   */
  lemma DeliveredExactly(publisherPassword: string, s: State, client: string, i: nat)
    requires i < |s.messages|
    ensures var topic := s.messages[i].message.topic;
      Next(publisherPassword, s, Deliver(client, i)).Some? <==>
        && client in s.sessions && s.sessions[client].attributes.role == Some(Client)
        && (exists filter :: filter in s.sessions[client].subscriptions && FilterMatches(filter, topic))
        && IsTopicAllowedForSubject(topic, s.sessions[client].attributes.subject)
        && (forall end :: s.sessions[client].attributes.expiry == Some(end) ==> s.now < end)
  {
    assert client !in s.sessions ==> SessionOf(s, client) == Persistent(FRESH, {}, false);
  }

  /** Time never runs backwards: what was received earlier was received before, and nothing in the future. */
  lemma {:induction false} ReceiptsAreInOrder(publisherPassword: string, trace: Trace, s: State)
    requires After(publisherPassword, trace) == Some(s)
    ensures forall i :: 0 <= i < |s.receipts| ==> s.receipts[i].at <= s.now
    ensures forall i, j :: 0 <= i < j < |s.receipts| ==> s.receipts[i].at <= s.receipts[j].at
    ensures trace.Then? ==> After(publisherPassword, trace.earlier).value.now <= s.now
  {
    match trace
    case Begin =>
    case Then(earlier, step) =>
      var before := After(publisherPassword, earlier).value;
      ReceiptsAreInOrder(publisherPassword, earlier, before);
      assert step.Deliver? || s.receipts == before.receipts;
  }

  /**
   With the audience resolved from potto's accounts, every receiver is an active user the authorizer lets
   view the process.
   */
  lemma ReceiversMayView(publisherPassword: string, trace: Trace, s: State, i: nat,
                         process: Resource, users: seq<User>, canView: User -> bool) returns (user: User)
    requires After(publisherPassword, trace) == Some(s) && i < |s.receipts|
    requires !process.isPublic && s.receipts[i].published.audience == Some(ProcessAudience(process, users, canView))
    ensures s.receipts[i].attributes.subject == Some(user.id) && user.isActive && canView(user)
    ensures user == process.owner || (user in users && Holds(Processes, user.scopes, process.identifier))
  {
    PrivateEventsReachMembersOnly(publisherPassword, trace, s, i);
    var id := s.receipts[i].attributes.subject.value;
    ProcessAudienceIsSound(process, users, canView, id);
    user :| && user.id == id && user.isActive && canView(user)
            && (user == process.owner || (user in users && Holds(Processes, user.scopes, process.identifier)));
  }

  /** Nothing is accepted from anyone but a session whose latest connection succeeded on the internal listener. */
  lemma ClientsCannotPublish(publisherPassword: string, s: State, client: string, message: Message)
    requires !SessionOf(s, client).attributes.IsPublisher()
    ensures Next(publisherPassword, s, PublishDirectly(client, message)) == Some(s)
  {
    AcceptedAre(SessionOf(s, client).attributes, s.now, [message], None);
    assert s.messages + [] == s.messages;
  }

  /**
   Conversely, a member of the audience with a valid id and an unexpired token, subscribed to its
   whole namespace, is reached by every event that the worker bridges to that audience.
   */
  lemma MembersAreReached(publisherPassword: string, s: State, via: string, event: ProcessEvent,
                          resolved: Option<ResourceAudience>, client: string, userId: string)
    returns (index: nat, t: State)
    requires SessionOf(s, via).attributes.IsPublisher()
    requires var used := UsedAudience(event, resolved);
      used.Some? && !used.value.isPublic && userId in used.value.userIds && IsValidTopicUserId(userId)
    requires var p := SessionOf(s, client);
      && p.attributes.IsClient() && p.attributes.subject == Some(userId)
      && (p.attributes.expiry.Some? ==> s.now < p.attributes.expiry.value)
      && PrivateTopicPrefix(userId) + "#" in p.subscriptions
    ensures Next(publisherPassword, s, Bridge(via, event, resolved)) == Some(t)
    ensures |s.messages| <= index < |t.messages| && t.messages[index].message.process == event.process
    ensures Next(publisherPassword, t, Deliver(client, index)).Some?
  {
    var name := ExternalName(event.Type()).value;
    var messages, audience := Bridged(event, resolved), UsedAudience(event, resolved);
    var i := MemberIsAddressed(event, resolved, userId);
    AcceptedAre(SessionOf(s, via).attributes, s.now, messages, audience);
    t := Next(publisherPassword, s, Bridge(via, event, resolved)).value;
    index := |s.messages| + i;
    assert t.messages[index] == Published(messages[i], audience);
    MemberReceives(publisherPassword, t, client, index, userId, event.process, name);
  }

  lemma MemberIsAddressed(event: ProcessEvent, resolved: Option<ResourceAudience>, userId: string) returns (i: nat)
    requires var used := UsedAudience(event, resolved);
      used.Some? && !used.value.isPublic && userId in used.value.userIds && IsValidTopicUserId(userId)
    ensures i < |Bridged(event, resolved)|
    ensures var name := ExternalName(event.Type()).value;
      Bridged(event, resolved)[i] == MessageTo(event, name, PrivateProcessTopic(userId, event.process, name))
  {
    var name, used := ExternalName(event.Type()).value, UsedAudience(event, resolved).value;
    var message := MessageTo(event, name, PrivateProcessTopic(userId, event.process, name));
    PrivateMessagesExactly(event, name, used.userIds, message);
    i :| 0 <= i < |Bridged(event, resolved)| && Bridged(event, resolved)[i] == message;
  }

  lemma MemberReceives(publisherPassword: string, t: State, client: string, index: nat,
                       userId: string, process: string, name: string)
    requires index < |t.messages| && t.messages[index].message.topic == PrivateProcessTopic(userId, process, name)
    requires IsValidTopicUserId(userId) && '/' !in name
    requires var p := SessionOf(t, client);
      && p.attributes.IsClient() && p.attributes.subject == Some(userId)
      && (p.attributes.expiry.Some? ==> t.now < p.attributes.expiry.value)
      && PrivateTopicPrefix(userId) + "#" in p.subscriptions
    ensures Next(publisherPassword, t, Deliver(client, index)).Some?
  {
    OwnNamespaceIsCovered(userId, process, name);
    assert IsMatched(SessionOf(t, client), t.messages[index].message.topic);
  }

  /**
   So whoever may view a private process is reached by its events: every active user of a consistent
   store whom the local backend lets view it, other than as an administrator.
   */
  lemma ViewersAreReached(publisherPassword: string, s: State, via: string, event: ProcessEvent,
                          resolved: Option<ResourceAudience>, process: Resource, users: seq<User>, user: User,
                          client: string)
    returns (index: nat, t: State)
    requires SessionOf(s, via).attributes.IsPublisher()
    requires !process.isPublic && StoreIsConsistent(users, [process.owner]) && user in users
    requires UsedAudience(event, resolved) == Some(LocalAudience(process, users))
    requires user.isActive && !IsAdmin(user) && CanView(Processes, Some(user), process) && IsValidTopicUserId(user.id)
    requires var p := SessionOf(s, client);
      && p.attributes.IsClient() && p.attributes.subject == Some(user.id)
      && (p.attributes.expiry.Some? ==> s.now < p.attributes.expiry.value)
      && PrivateTopicPrefix(user.id) + "#" in p.subscriptions
    ensures Next(publisherPassword, s, Bridge(via, event, resolved)) == Some(t)
    ensures |s.messages| <= index < |t.messages| && t.messages[index].message.process == event.process
    ensures Next(publisherPassword, t, Deliver(client, index)).Some?
  {
    ProcessAudienceExactly(process, users, user);
    index, t := MembersAreReached(publisherPassword, s, via, event, resolved, client, user.id);
  }
}
