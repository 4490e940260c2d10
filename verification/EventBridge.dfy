/** The fan-out of internal process events to the public broker, once per audience topic. */
module EventBridge {
  import opened Wrappers
  import opened Topics
  import opened Authorization
  import opened Audience

  datatype InternalEventType =
    | Created | Updated | Deleted | Deployed | Undeployed
    | CreationFailed | UpdateFailed | DeletionFailed | DeploymentFailed | UndeploymentFailed

  /** The external event type's name; failures stay internal. */
  function ExternalName(t: InternalEventType): (name: Option<string>)
    ensures name.Some? ==> '/' !in name.value
  {
    match t
    case Created => Some("created")
    case Updated => Some("updated")
    case Deleted => Some("deleted")
    case Deployed => Some("deployed")
    case Undeployed => Some("undeployed")
    case _ => None
  }

  /**
   A deletion event carries the audience its process had; any other event is about a process that can be
   looked up.
   */
  datatype ProcessEvent =
    | OnProcess(eventType: InternalEventType, process: string)
    | OnDeletion(process: string, audience: ResourceAudience)
  {
    function Type(): InternalEventType { if OnProcess? then eventType else Deleted }
  }

  datatype Message = Message(topic: string, eventType: string, process: string, linked: bool)

  /** The audience the bridge uses: `resolved` is the audience of the process as it is now, if it still exists. */
  function UsedAudience(event: ProcessEvent, resolved: Option<ResourceAudience>): Option<ResourceAudience> {
    if ExternalName(event.Type()).None? then None
    else if event.OnDeletion? then Some(event.audience)
    else resolved
  }

  function MessageTo(event: ProcessEvent, name: string, topic: string): Message {
    Message(topic, name, event.process, !event.Type().Deleted?)
  }

  /** One message per user whose id can be a topic level, in the order given. */
  function PrivateMessages(event: ProcessEvent, name: string, userIds: seq<string>): seq<Message> {
    if userIds == [] then [] else
    var last := userIds[|userIds| - 1];
    PrivateMessages(event, name, userIds[..|userIds| - 1])
    + if IsValidTopicUserId(last) then [MessageTo(event, name, PrivateProcessTopic(last, event.process, name))] else []
  }

  /** All messages of an event: the specification of `BridgeInternalEventToPublic`. */
  function Bridged(event: ProcessEvent, resolved: Option<ResourceAudience>): seq<Message> {
    var used := UsedAudience(event, resolved);
    if used.None? then []
    else
      var name := ExternalName(event.Type()).value;
      if used.value.isPublic then [MessageTo(event, name, PublicProcessTopic(event.process, name))]
      else PrivateMessages(event, name, used.value.userIds)
  }

  /** The events that are for the public: what happened, but not what failed to happen. */
  predicate IsCalled(t: InternalEventType, name: string) {
    || (t == Created && name == "created") || (t == Updated && name == "updated") || (t == Deleted && name == "deleted")
    || (t == Deployed && name == "deployed") || (t == Undeployed && name == "undeployed")
  }

  predicate IsFailure(t: InternalEventType) {
    t in {CreationFailed, UpdateFailed, DeletionFailed, DeploymentFailed, UndeploymentFailed}
  }

  lemma NamesExactly(t: InternalEventType, name: string)
    ensures ExternalName(t) == Some(name) <==> IsCalled(t, name)
    ensures ExternalName(t) == None <==> IsFailure(t)
  {
  }

  /** Failures, and events of processes that have vanished since, publish nothing. */
  lemma NothingIsPublished(event: ProcessEvent, resolved: Option<ResourceAudience>)
    ensures IsFailure(event.Type()) ==> Bridged(event, resolved) == []
    ensures event.OnProcess? && resolved == None ==> Bridged(event, resolved) == []
  {
  }

  /** An event of a public process is published once, on its public topic, with a link unless the process is gone. */
  lemma PublicEventIsPublished(event: ProcessEvent, name: string, resolved: Option<ResourceAudience>,
                               process: Resource, users: seq<User>, canView: User -> bool)
    requires IsCalled(event.Type(), name) && process.isPublic
    requires var audience := ProcessAudience(process, users, canView);
      if event.OnDeletion? then event.audience == audience else resolved == Some(audience)
    ensures Bridged(event, resolved) ==
      [Message("public/processes/" + event.process + "/" + name, name, event.process, event.Type() != Deleted)]
  {
    assert PublicProcessTopic(event.process, name) == "public/processes/" + event.process + "/" + name;
  }

  /** A member of a private audience is sent it on a topic of its own. */
  lemma PrivateEventIsPublished(event: ProcessEvent, name: string, resolved: Option<ResourceAudience>,
                                audience: ResourceAudience, userId: string)
    requires IsCalled(event.Type(), name) && !audience.isPublic
    requires if event.OnDeletion? then event.audience == audience else resolved == Some(audience)
    requires userId in audience.userIds && IsValidTopicUserId(userId)
    ensures Message("users/" + userId + "/processes/" + event.process + "/" + name, name, event.process,
                    event.Type() != Deleted) in Bridged(event, resolved)
  {
    var topic := PrivateProcessTopic(userId, event.process, name);
    assert topic == "users/" + userId + "/processes/" + event.process + "/" + name;
    PrivateMessagesExactly(event, name, audience.userIds, MessageTo(event, name, topic));
  }

  method BridgeInternalEventToPublic(event: ProcessEvent, resolved: Option<ResourceAudience>)
    returns (published: seq<Message>)
    ensures published == Bridged(event, resolved)
  {
    published := [];
    var externalType := ExternalName(event.Type());
    if externalType.None? {
      return;
    }
    var audience: ResourceAudience;
    if event.OnDeletion? {
      audience := event.audience;
    } else if resolved.Some? {
      audience := resolved.value;
    } else {
      return;
    }
    if audience.isPublic {
      published := [MessageTo(event, externalType.value, PublicProcessTopic(event.process, externalType.value))];
      return;
    }
    for i := 0 to |audience.userIds|
      invariant published == PrivateMessages(event, externalType.value, audience.userIds[..i])
    {
      var userId := audience.userIds[i];
      assert audience.userIds[..i + 1][..i] == audience.userIds[..i];
      if !IsValidTopicUserId(userId) {
        continue;
      }
      var topic := PrivateProcessTopic(userId, event.process, externalType.value);
      published := published + [MessageTo(event, externalType.value, topic)];
    }
    assert audience.userIds[..|audience.userIds|] == audience.userIds;
  }

  /** Every private message is addressed to a member of the audience, and every member with a valid id gets one. */
  lemma {:induction false} PrivateMessagesExactly(event: ProcessEvent, name: string, userIds: seq<string>, m: Message)
    ensures m in PrivateMessages(event, name, userIds) <==>
      exists u :: u in userIds && IsValidTopicUserId(u)
        && m == MessageTo(event, name, PrivateProcessTopic(u, event.process, name))
  {
    if userIds != [] {
      var last, rest := userIds[|userIds| - 1], userIds[..|userIds| - 1];
      PrivateMessagesExactly(event, name, rest, m);
      assert forall u :: u in userIds <==> u in rest || u == last;
    }
  }

  predicate TopicsDiffer(ms: seq<Message>) {
    forall i, j :: 0 <= i < j < |ms| ==> ms[i].topic != ms[j].topic
  }

  /** No member is sent the same event twice. */
  lemma {:induction false} PrivateMessagesAreDistinct(event: ProcessEvent, name: string, userIds: seq<string>)
    requires '/' !in name && forall i, j :: 0 <= i < j < |userIds| ==> userIds[i] != userIds[j]
    ensures TopicsDiffer(PrivateMessages(event, name, userIds))
  {
    if userIds != [] {
      var last, rest := userIds[|userIds| - 1], userIds[..|userIds| - 1];
      PrivateMessagesAreDistinct(event, name, rest);
      var ms := PrivateMessages(event, name, rest);
      if IsValidTopicUserId(last) {
        var topic := PrivateProcessTopic(last, event.process, name);
        forall i | 0 <= i < |ms| ensures ms[i].topic != topic {
          assert ms[i] in ms;
          PrivateMessagesExactly(event, name, rest, ms[i]);
          TopicOfAnotherMember(event, name, rest, last, ms[i]);
        }
        assert PrivateMessages(event, name, userIds) == ms + [MessageTo(event, name, topic)];
      } else {
        assert PrivateMessages(event, name, userIds) == ms;
      }
    }
  }

  lemma TopicOfAnotherMember(event: ProcessEvent, name: string, others: seq<string>, user: string, m: Message)
    requires '/' !in name && user !in others && IsValidTopicUserId(user)
    requires exists u :: (u in others && IsValidTopicUserId(u)
                          && m == MessageTo(event, name, PrivateProcessTopic(u, event.process, name)))
    ensures m.topic != PrivateProcessTopic(user, event.process, name)
  {
    var u :| u in others && IsValidTopicUserId(u)
      && m == MessageTo(event, name, PrivateProcessTopic(u, event.process, name));
    if m.topic == PrivateProcessTopic(user, event.process, name) {
      PrivateTopicsAreDistinct(u, event.process, name, user, event.process, name);
    }
  }
}
