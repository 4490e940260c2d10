/**
 Authentication and topic authorization of the public MQTT broker. Persistent sessions are
 reused across connections, so what matters is what any sequence of connections can do to one.
 */
module BrokerPlugins {
  import opened Wrappers
  import opened Topics

  const INTERNAL_LISTENER := "internal"
  const PUBLISHER_OWNER := "publisher"
  const ANONYMOUS_OWNER := "anonymous"

  datatype Role = Publisher | Client

  datatype Action = Subscribe | Publish | Receive

  /** The session's attribute dictionary: an absent key is None. */
  datatype Attributes = Attributes(listener: Option<string>, role: Option<Role>, subject: Option<string>,
                                   expiry: Option<real>, owner: Option<string>)
  {
    predicate IsPublisher() { role.Some? && role.value.Publisher? }
    predicate IsClient() { role.Some? && role.value.Client? }
  }

  const FRESH := Attributes(None, None, None, None, None)

  /** What a verified token claims. */
  datatype Claims = Claims(subject: string, expiry: real)

  /** A connection: its listener, the password sent, and what the password claims if it verifies as a token. */
  datatype Connection = Connection(listener: string, password: Option<string>, claims: Option<Claims>)

  predicate HasPassword(password: Option<string>) { password.Some? && password.value != "" }

  /** The identity a connection proves, if any. */
  function Identity(publisherPassword: string, c: Connection): Option<string> {
    if c.listener == INTERNAL_LISTENER then
      if HasPassword(c.password) && c.password.value == publisherPassword then Some(PUBLISHER_OWNER) else None
    else if !HasPassword(c.password) then Some(ANONYMOUS_OWNER)
    else if c.claims.Some? && IsValidTopicUserId(c.claims.value.subject) then Some(c.claims.value.subject)
    else None
  }

  /**
   Whether a connection is accepted on a session: it proves an identity, and the session is unowned or
   that identity's.
   */
  predicate Accepts(publisherPassword: string, a: Attributes, c: Connection) {
    && Identity(publisherPassword, c).Some?
    && (a.owner.Some? ==> a.owner == Identity(publisherPassword, c))
  }

  /** The attributes after a connection, accepted or not: the specification of `TokenAuthPlugin.Authenticate`. */
  function AfterConnection(publisherPassword: string, a: Attributes, c: Connection): Attributes {
    var unidentified := Attributes(Some(c.listener), None, None, None, a.owner);
    if !Accepts(publisherPassword, a, c) then unidentified
    else
      var owned := unidentified.(owner := Identity(publisherPassword, c));
      if c.listener == INTERNAL_LISTENER then owned.(role := Some(Publisher))
      else if !HasPassword(c.password) then owned.(role := Some(Client))
      else owned.(role := Some(Client), subject := owned.owner, expiry := Some(c.claims.value.expiry))
  }

  predicate IsExpired(a: Attributes, now: real) { a.expiry.Some? && a.expiry.value <= now }

  /** The topic plugin's decision. */
  predicate TopicFiltering(a: Attributes, topic: string, action: Action, now: real) {
    if a.IsPublisher() then action.Publish?
    else if !a.IsClient() || action.Publish? then false
    else if action.Receive? && IsExpired(a, now) then false
    else IsTopicAllowedForSubject(topic, a.subject)
  }

  class Session {
    var attributes: Attributes
    var password: Option<string>
    var username: Option<string>
    var isAnonymous: bool

    constructor ()
      ensures attributes == FRESH
    {
      attributes, password, username, isAnonymous := FRESH, None, None, false;
    }
  }

  class TokenAuthPlugin {
    const publisherPassword: string

    constructor (publisherPassword: string)
      ensures this.publisherPassword == publisherPassword
    {
      this.publisherPassword := publisherPassword;
    }

    /** The first identity accepted on a session becomes its owner; anyone else is turned away from then on. */
    static method ClaimSession(session: Session, owner: string) returns (ok: bool)
      modifies session`attributes
      ensures ok <==> (old(session.attributes).owner.Some? ==> old(session.attributes).owner.value == owner)
      ensures var was := old(session.attributes);
        session.attributes == was.(owner := if was.owner.None? then Some(owner) else was.owner)
    {
      if session.attributes.owner.None? {
        session.attributes := session.attributes.(owner := Some(owner));
      }
      ok := session.attributes.owner.value == owner;
    }

    method AuthenticatePublisher(session: Session, ghost c: Connection) returns (ok: bool)
      requires c.listener == INTERNAL_LISTENER && c.password == session.password
      requires session.attributes == Attributes(Some(c.listener), None, None, None, session.attributes.owner)
      modifies session
      ensures ok == Accepts(publisherPassword, old(session.attributes), c)
      ensures session.attributes == AfterConnection(publisherPassword, old(session.attributes), c)
    {
      if !HasPassword(session.password) || session.password.value != publisherPassword {
        return false;
      }
      ok := ClaimSession(session, PUBLISHER_OWNER);
      if !ok {
        return;
      }
      session.attributes := session.attributes.(role := Some(Publisher));
    }

    method AuthenticateClient(session: Session, claims: Option<Claims>, ghost c: Connection) returns (ok: bool)
      requires c.listener != INTERNAL_LISTENER && c.password == session.password && c.claims == claims
      requires session.attributes == Attributes(Some(c.listener), None, None, None, session.attributes.owner)
      modifies session
      ensures ok == Accepts(publisherPassword, old(session.attributes), c)
      ensures session.attributes == AfterConnection(publisherPassword, old(session.attributes), c)
      ensures ok ==> session.username == session.attributes.subject
      ensures ok ==> session.isAnonymous == session.attributes.subject.None?
    {
      if !HasPassword(session.password) {
        ok := ClaimSession(session, ANONYMOUS_OWNER);
        if !ok {
          return;
        }
        session.username, session.isAnonymous := None, true;
        session.attributes := session.attributes.(role := Some(Client), subject := None);
        return;
      }
      if claims.None? || !IsValidTopicUserId(claims.value.subject) {
        return false;
      }
      var subject := claims.value.subject;
      ok := ClaimSession(session, subject);
      if !ok {
        return;
      }
      session.username, session.isAnonymous := Some(subject), false;
      session.attributes := session.attributes.(role := Some(Client), subject := Some(subject),
                                                expiry := Some(claims.value.expiry));
    }

    /** Decide on a connection; `claims` is what the password claims if it verifies as a token. */
    method Authenticate(session: Session, listener: string, claims: Option<Claims>) returns (ok: bool)
      modifies session
      ensures var c := Connection(listener, old(session.password), claims);
        && ok == Accepts(publisherPassword, old(session.attributes), c)
        && session.attributes == AfterConnection(publisherPassword, old(session.attributes), c)
    {
      ghost var c := Connection(listener, session.password, claims);
      // the broker notes the listener, then identity-related attributes are always reset
      session.attributes := session.attributes.(listener := Some(listener));
      session.attributes := session.attributes.(role := None, subject := None, expiry := None);
      if listener == INTERNAL_LISTENER {
        ok := AuthenticatePublisher(session, c);
      } else {
        ok := AuthenticateClient(session, claims, c);
      }
    }
  }

  // ---------------------------------------------------------------- histories of one session

  datatype Event =
    | Connect(connection: Connection)
    | Ask(filter: string, at: real)        // a SUBSCRIBE packet
    | Forget(filter: string)               // an UNSUBSCRIBE packet

  /**
   A persistent session: its attributes, the subscriptions it keeps, and whether the latest connection
   was accepted.
   */
  datatype Persistent = Persistent(attributes: Attributes, subscriptions: set<string>, accepted: bool)

  function Handle(publisherPassword: string, p: Persistent, e: Event): Persistent {
    match e
    case Connect(c) =>
      p.(attributes := AfterConnection(publisherPassword, p.attributes, c),
         accepted := Accepts(publisherPassword, p.attributes, c))
    case Ask(filter, at) =>
      if TopicFiltering(p.attributes, filter, Subscribe, at)
      then p.(subscriptions := p.subscriptions + {filter})
      else p
    case Forget(filter) =>
      p.(subscriptions := p.subscriptions - {filter})
  }

  function History(publisherPassword: string, events: seq<Event>): Persistent {
    if events == [] then Persistent(FRESH, {}, false)
    else Handle(publisherPassword, History(publisherPassword, events[..|events| - 1]), events[|events| - 1])
  }

  lemma HistoryOfOneMore(publisherPassword: string, events: seq<Event>, e: Event)
    ensures History(publisherPassword, events + [e]) == Handle(publisherPassword, History(publisherPassword, events), e)
  {
    var all := events + [e];
    assert all[..|all| - 1] == events;
  }

  /** A request for the filter that was granted to the client the session then was, and is not revoked since. */
  predicate IsKept(publisherPassword: string, events: seq<Event>, i: nat, filter: string) {
    && i < |events| && events[i].Ask? && events[i].filter == filter
    && (var a := History(publisherPassword, events[..i]).attributes;
        a.role == Some(Client) && IsTopicAllowedForSubject(filter, a.subject))
    && forall j :: i < j < |events| ==> events[j] != Forget(filter)
  }

  /** A session keeps exactly the subscriptions that were granted and not revoked since, whoever connects to it. */
  lemma {:induction false} SubscriptionsExactly(publisherPassword: string, events: seq<Event>, filter: string)
    ensures filter in History(publisherPassword, events).subscriptions <==>
      exists i :: IsKept(publisherPassword, events, i, filter)
  {
    if events != [] {
      var n := |events| - 1;
      var before, last := events[..n], events[n];
      SubscriptionsExactly(publisherPassword, before, filter);
      forall i: nat | i < n
        ensures IsKept(publisherPassword, events, i, filter) <==>
          IsKept(publisherPassword, before, i, filter) && last != Forget(filter)
      {
        KeptByMore(publisherPassword, before, last, i, filter);
        assert events == before + [last];
      }
      if last.Ask? && IsKept(publisherPassword, events, n, filter) {
        assert filter in History(publisherPassword, events).subscriptions;
      }
    }
  }

  lemma KeptByMore(publisherPassword: string, before: seq<Event>, last: Event, i: nat, filter: string)
    requires i < |before|
    ensures IsKept(publisherPassword, before + [last], i, filter) <==>
      IsKept(publisherPassword, before, i, filter) && last != Forget(filter)
  {
    var events := before + [last];
    assert events[..i] == before[..i] && events[|before|] == last;
    assert forall j :: i < j < |before| ==> events[j] == before[j];
  }

  /** The owner of a session never changes once set. */
  lemma {:induction false} OwnerNeverChanges(publisherPassword: string, events: seq<Event>, more: seq<Event>)
    requires History(publisherPassword, events).attributes.owner.Some?
    ensures History(publisherPassword, events + more).attributes.owner ==
            History(publisherPassword, events).attributes.owner
  {
    if more == [] {
      assert events + more == events;
    } else {
      var all := events + more;
      assert all[..|all| - 1] == events + more[..|more| - 1];
      OwnerNeverChanges(publisherPassword, events, more[..|more| - 1]);
    }
  }

  /** All accepted connections of a session prove the same identity, its owner. */
  lemma AcceptedConnectionsShareOwner(publisherPassword: string, events: seq<Event>, c: Connection, more: seq<Event>)
    requires Accepts(publisherPassword, History(publisherPassword, events).attributes, c)
    ensures History(publisherPassword, events + [Connect(c)] + more).attributes.owner == Identity(publisherPassword, c)
  {
    HistoryOfOneMore(publisherPassword, events, Connect(c));
    OwnerNeverChanges(publisherPassword, events + [Connect(c)], more);
  }

  /** A role is present exactly when the latest connection was accepted, and publishing takes the internal listener. */
  lemma {:induction false} RoleIffAccepted(publisherPassword: string, events: seq<Event>, topic: string, now: real)
    ensures var p := History(publisherPassword, events);
      && (p.attributes.role.Some? <==> p.accepted)
      && (TopicFiltering(p.attributes, topic, Publish, now) <==>
            p.accepted && p.attributes.listener == Some(INTERNAL_LISTENER))
  {
    if events != [] {
      RoleIffAccepted(publisherPassword, events[..|events| - 1], topic, now);
    }
  }

  // ---------------------------------------------------------------- who is who

  /** The connection made last, if any was made. */
  function Latest(events: seq<Event>): Option<nat> {
    if events == [] then None
    else if events[|events| - 1].Connect? then Some(|events| - 1)
    else Latest(events[..|events| - 1])
  }

  /** Before the i-th event the session had no owner, or this one. */
  predicate IsFreeFor(publisherPassword: string, events: seq<Event>, i: nat, owner: string)
    requires i <= |events|
  {
    var before := History(publisherPassword, events[..i]).attributes.owner;
    before.None? || before.value == owner
  }

  lemma {:induction false} LatestConnect(publisherPassword: string, events: seq<Event>)
    ensures Latest(events).Some? ==>
      && Latest(events).value < |events| && events[Latest(events).value].Connect?
      && var before := History(publisherPassword, events[..Latest(events).value]).attributes;
        History(publisherPassword, events).attributes ==
        AfterConnection(publisherPassword, before, events[Latest(events).value].connection)
    ensures Latest(events).None? ==> History(publisherPassword, events).attributes == FRESH
  {
    if events != [] && !events[|events| - 1].Connect? {
      var earlier := events[..|events| - 1];
      LatestConnect(publisherPassword, earlier);
      if Latest(events).Some? {
        assert earlier[..Latest(events).value] == events[..Latest(events).value];
      }
    }
  }

  /**
   A session may publish exactly when its latest connection came in on the internal listener with the
   publisher's password, on a session that nobody else owned.
   */
  lemma MayPublishExactly(publisherPassword: string, events: seq<Event>, topic: string, now: real)
    ensures TopicFiltering(History(publisherPassword, events).attributes, topic, Publish, now) <==>
      Latest(events).Some? &&
      (LatestConnect(publisherPassword, events);
       var i := Latest(events).value;
       var c := events[i].connection;
       && c.listener == "internal" && c.password == Some(publisherPassword) && publisherPassword != ""
       && IsFreeFor(publisherPassword, events, i, "publisher"))
  {
    LatestConnect(publisherPassword, events);
  }

  /**
   A session stands for a user, until a certain time, exactly when its latest connection came in from
   outside with a verified token that says so, for an id that can be a topic level, on a session that
   nobody else owned.
   */
  lemma SubjectExactly(publisherPassword: string, events: seq<Event>, subject: string, expiry: real)
    ensures var a := History(publisherPassword, events).attributes;
      a.subject == Some(subject) && a.expiry == Some(expiry) && a.role == Some(Client) <==>
      Latest(events).Some? &&
      (LatestConnect(publisherPassword, events);
       var i := Latest(events).value;
       var c := events[i].connection;
       && c.listener != "internal" && c.password.Some? && c.password.value != ""
       && c.claims == Some(Claims(subject, expiry)) && IsValidTopicUserId(subject)
       && IsFreeFor(publisherPassword, events, i, subject))
    ensures var a := History(publisherPassword, events).attributes;
      a.subject.Some? ==> a.role == Some(Client) && a.expiry.Some?
  {
    LatestConnect(publisherPassword, events);
  }

  /** It is an anonymous client exactly when that connection came in from outside without a password. */
  lemma AnonymousExactly(publisherPassword: string, events: seq<Event>)
    ensures var a := History(publisherPassword, events).attributes;
      a.role == Some(Client) && a.subject == None <==>
      Latest(events).Some? &&
      (LatestConnect(publisherPassword, events);
       var i := Latest(events).value;
       var c := events[i].connection;
       && c.listener != "internal" && (c.password == None || c.password == Some(""))
       && IsFreeFor(publisherPassword, events, i, "anonymous"))
    ensures var a := History(publisherPassword, events).attributes;
      a.role == Some(Client) && a.subject == None ==> a.expiry == None
  {
    LatestConnect(publisherPassword, events);
  }

  /**
   What a session may do with a topic: the publisher only publish; a client only subscribe and, until
   its token expires, receive, within the public topics and its own; anyone else nothing.
   */
  lemma DecisionExactly(a: Attributes, topic: string, now: real)
    ensures TopicFiltering(a, topic, Publish, now) <==> a.role == Some(Publisher)
    ensures TopicFiltering(a, topic, Subscribe, now) <==>
      a.role == Some(Client) && IsTopicAllowedForSubject(topic, a.subject)
    ensures TopicFiltering(a, topic, Receive, now) <==>
      && a.role == Some(Client) && (a.expiry.Some? ==> now < a.expiry.value)
      && IsTopicAllowedForSubject(topic, a.subject)
  {
  }

  predicate IsPasswordless(c: Connection) {
    c.listener != INTERNAL_LISTENER && !HasPassword(c.password)
  }

  predicate IsTokenFor(c: Connection, subject: string) {
    && c.listener != INTERNAL_LISTENER && HasPassword(c.password)
    && c.claims.Some? && c.claims.value.subject == subject && IsValidTopicUserId(subject)
  }

  /** Every subscription the session keeps is allowed for its current subject. */
  predicate KeptAreAllowed(p: Persistent) {
    p.attributes.IsClient() ==>
      forall filter :: filter in p.subscriptions ==> IsTopicAllowedForSubject(filter, p.attributes.subject)
  }

  ghost predicate Among(events: seq<Event>, connects: Connection -> bool) {
    forall i :: 0 <= i < |events| && events[i].Connect? ==> connects(events[i].connection)
  }

  /** How the subject and the kept subscriptions of a session depend on its owner. */
  ghost predicate OwnedConsistently(p: Persistent, tokensForAnonymous: bool, passwordless: bool) {
    && (p.attributes.owner.None? ==> p.attributes.role.None? && p.subscriptions == {})
    && (p.attributes.IsClient() ==>
          || p.attributes.subject == p.attributes.owner
          || (p.attributes.owner == Some(ANONYMOUS_OWNER) && p.attributes.subject == None && passwordless))
    && (p.attributes.IsClient() && p.attributes.owner == Some(ANONYMOUS_OWNER) && !tokensForAnonymous ==>
          p.attributes.subject == None)
    && (forall filter :: filter in p.subscriptions ==>
          if p.attributes.owner == Some(ANONYMOUS_OWNER) && !tokensForAnonymous
          then IsTopicAllowedForSubject(filter, None)
          else IsTopicAllowedForSubject(filter, p.attributes.owner))
    && (p.attributes.IsPublisher() ==> p.attributes.listener == Some(INTERNAL_LISTENER))
  }

  lemma {:induction false} HistoryIsConsistent(publisherPassword: string, events: seq<Event>,
                                               connects: Connection -> bool,
                                               tokensForAnonymous: bool, passwordless: bool)
    requires Among(events, connects)
    requires (exists c :: connects(c) && IsTokenFor(c, ANONYMOUS_OWNER)) ==> tokensForAnonymous
    requires (exists c :: connects(c) && IsPasswordless(c)) ==> passwordless
    ensures OwnedConsistently(History(publisherPassword, events), tokensForAnonymous, passwordless)
  {
    if events != [] {
      var before := events[..|events| - 1];
      assert Among(before, connects);
      HistoryIsConsistent(publisherPassword, before, connects, tokensForAnonymous, passwordless);
      var e := events[|events| - 1];
      if e.Connect? {
        assert connects(e.connection);
        assert IsTokenFor(e.connection, ANONYMOUS_OWNER) ==> tokensForAnonymous;
        assert IsPasswordless(e.connection) ==> passwordless;
      } else if e.Ask? {
        var p := History(publisherPassword, before);
        if TopicFiltering(p.attributes, e.filter, Subscribe, e.at) {
          assert p.attributes.IsClient();
          assert IsTopicAllowedForSubject(e.filter, p.attributes.subject);
          assert p.attributes.subject.Some? ==> p.attributes.subject == p.attributes.owner;
        }
      }
    }
  }

  /** For every owner but the name reserved for anonymous clients, what a client session keeps is allowed to it. */
  lemma KeptSubscriptionsAreAllowed(publisherPassword: string, events: seq<Event>)
    requires History(publisherPassword, events).attributes.owner != Some(ANONYMOUS_OWNER)
    ensures KeptAreAllowed(History(publisherPassword, events))
  {
    HistoryIsConsistent(publisherPassword, events, _ => true, true, true);
  }

  /**
   That name is the only exception: kept subscriptions are always allowed exactly when the connections
   made do not include both a token for a user called like the anonymous owner and a passwordless one.
   */
  lemma KeptAreAllowedExactlyWhen(publisherPassword: string, connects: Connection -> bool)
    ensures (forall events :: Among(events, connects) ==> KeptAreAllowed(History(publisherPassword, events))) <==>
            !(&& (exists c :: connects(c) && IsTokenFor(c, ANONYMOUS_OWNER))
              && (exists c :: connects(c) && IsPasswordless(c)))
  {
    if (exists c :: connects(c) && IsTokenFor(c, ANONYMOUS_OWNER)) && (exists c :: connects(c) && IsPasswordless(c)) {
      var token :| connects(token) && IsTokenFor(token, ANONYMOUS_OWNER);
      var anonymous :| connects(anonymous) && IsPasswordless(anonymous);
      var events := AnonymousResumption(publisherPassword, token, anonymous);
      assert Among(events, connects);
      assert !KeptAreAllowed(History(publisherPassword, events));
    } else {
      var tokens := exists c :: connects(c) && IsTokenFor(c, ANONYMOUS_OWNER);
      var passwordless := exists c :: connects(c) && IsPasswordless(c);
      forall events | Among(events, connects) ensures KeptAreAllowed(History(publisherPassword, events)) {
        HistoryIsConsistent(publisherPassword, events, connects, tokens, passwordless);
      }
    }
  }

  /** A session of a user called "anonymous", resumed without a password, keeps that user's subscription. */
  lemma AnonymousResumption(publisherPassword: string, token: Connection, anonymous: Connection)
    returns (events: seq<Event>)
    requires IsTokenFor(token, ANONYMOUS_OWNER) && IsPasswordless(anonymous)
    ensures events == [Connect(token), Ask(PrivateTopicPrefix(ANONYMOUS_OWNER) + "#", 0.0), Connect(anonymous)]
    ensures !KeptAreAllowed(History(publisherPassword, events))
  {
    var filter := PrivateTopicPrefix(ANONYMOUS_OWNER) + "#";
    events := [Connect(token), Ask(filter, 0.0), Connect(anonymous)];
    var first := History(publisherPassword, [Connect(token)]);
    HistoryOfOneMore(publisherPassword, [], Connect(token));
    assert [] + [Connect(token)] == [Connect(token)];
    assert first.attributes.subject == Some(ANONYMOUS_OWNER);
    assert IsTopicAllowedForSubject(filter, Some(ANONYMOUS_OWNER));
    HistoryOfOneMore(publisherPassword, [Connect(token)], Ask(filter, 0.0));
    HistoryOfOneMore(publisherPassword, [Connect(token)] + [Ask(filter, 0.0)], Connect(anonymous));
    assert events == [Connect(token)] + [Ask(filter, 0.0)] + [Connect(anonymous)];
    var third := History(publisherPassword, events);
    assert filter in third.subscriptions && third.attributes.subject == None;
    assert filter[0] == 'u' && !IsTopicAllowedForSubject(filter, None);
  }
}
