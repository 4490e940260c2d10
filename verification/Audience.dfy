/** Who is notified about events on a private process or job. */
module Audience {
  import opened Wrappers
  import opened Text
  import opened Sorting
  import opened Dictionaries
  import opened Scopes
  import opened Authorization

  datatype ResourceAudience = ResourceAudience(isPublic: bool, userIds: seq<string>)

  /** The account manager's listing of the users that hold a scope. */
  function Holders(users: seq<User>, scope: string): seq<User> {
    if users == [] then [] else
    (if scope in users[0].scopes then [users[0]] else []) + Holders(users[1..], scope)
  }

  function Editors(users: seq<User>, kind: Kind, identifier: string): seq<User> {
    Holders(users, EditorScope(kind, identifier))
  }

  function Viewers(users: seq<User>, kind: Kind, identifier: string): seq<User> {
    Holders(users, ViewerScope(kind, identifier))
  }

  function UserId(user: User): string { user.id }

  /** The candidates by id: the active ones, a later record of an id overriding an earlier one. */
  function Candidates(users: seq<User>): seq<User> {
    if users == [] then [] else
    var earlier := Candidates(users[..|users| - 1]);
    var last := users[|users| - 1];
    if last.isActive then Put(earlier, last, UserId) else earlier
  }

  function Allowed(candidates: seq<User>, canView: User -> bool): seq<string> {
    if candidates == [] then [] else
    (if canView(candidates[0]) then [candidates[0].id] else []) + Allowed(candidates[1..], canView)
  }

  function Identity(id: string): string { id }

  function AllowedSorted(users: seq<User>, canView: User -> bool): seq<string> {
    Sort(Allowed(Candidates(users), canView), Identity)
  }

  /** `resolve_process_audience`: `canView` is whatever authorizer is configured. */
  function ProcessAudience(process: Resource, users: seq<User>, canView: User -> bool): ResourceAudience {
    if process.isPublic then ResourceAudience(true, [])
    else ResourceAudience(false, AllowedSorted(ProcessCandidates(process, users), canView))
  }

  /** The audience under the local backend. */
  function LocalAudience(process: Resource, users: seq<User>): ResourceAudience {
    ProcessAudience(process, users, (u: User) => CanView(Processes, Some(u), process))
  }

  function ProcessCandidates(process: Resource, users: seq<User>): seq<User> {
    [process.owner] + Editors(users, Processes, process.identifier) + Viewers(users, Processes, process.identifier)
  }

  /** `resolve_job_audience`: public jobs notify nobody. */
  function JobAudience(job: Job, users: seq<User>, canView: User -> bool): ResourceAudience {
    if job.isPublic then ResourceAudience(false, [])
    else ResourceAudience(false, AllowedSorted(JobCandidates(job, users), canView))
  }

  function JobCandidates(job: Job, users: seq<User>): seq<User> {
    [job.owner, job.process.owner]
    + Editors(users, Jobs, job.identifier) + Viewers(users, Jobs, job.identifier)
    + Editors(users, Processes, job.process.identifier) + Viewers(users, Processes, job.process.identifier)
  }

  // ---------------------------------------------------------------- the steps

  lemma {:induction false} HoldersExactly(users: seq<User>, scope: string, user: User)
    ensures user in Holders(users, scope) <==> user in users && scope in user.scopes
  {
    if users != [] {
      HoldersExactly(users[1..], scope, user);
      assert user in users <==> user == users[0] || user in users[1..];
    }
  }

  /** Records that share an id are the same record. */
  ghost predicate Consistent(users: seq<User>) {
    forall u, v :: u in users && v in users && u.id == v.id ==> u == v
  }

  lemma {:induction false} CandidatesAreActive(users: seq<User>)
    ensures DistinctBy(Candidates(users), UserId)
    ensures forall u :: u in Candidates(users) ==> u in users && u.isActive
    ensures Consistent(users) ==> forall u :: u in users && u.isActive ==> u in Candidates(users)
  {
    if users != [] {
      var earlier, last := users[..|users| - 1], users[|users| - 1];
      CandidatesAreActive(earlier);
      assert forall u :: u in users <==> u in earlier || u == last;
      PutReplaces(Candidates(earlier), last, UserId);
    }
  }

  lemma {:induction false} AllowedExactly(candidates: seq<User>, canView: User -> bool)
    requires DistinctBy(candidates, UserId)
    ensures forall id :: id in Allowed(candidates, canView) <==>
              exists u :: u in candidates && u.id == id && canView(u)
    ensures DistinctBy(Allowed(candidates, canView), Identity)
  {
    if candidates != [] {
      var first, rest := candidates[0], candidates[1..];
      AllowedExactly(rest, canView);
      assert forall u :: u in candidates <==> u == first || u in rest;
      OthersDiffer(candidates, UserId);
      forall i | 0 <= i < |Allowed(rest, canView)| ensures Allowed(rest, canView)[i] != first.id {
        assert Allowed(rest, canView)[i] in Allowed(rest, canView);
      }
    }
  }

  /** Whatever the authorizer, the result is strictly sorted and holds only ids of active candidates it allows. */
  lemma AllowedSortedIsSound(users: seq<User>, canView: User -> bool, id: string)
    ensures StrictlySorted(AllowedSorted(users, canView))
    ensures id in AllowedSorted(users, canView) ==> exists u :: u in users && u.id == id && u.isActive && canView(u)
    ensures Consistent(users) ==>
      (id in AllowedSorted(users, canView) <==> exists u :: u in users && u.id == id && u.isActive && canView(u))
  {
    CandidatesAreActive(users);
    AllowedExactly(Candidates(users), canView);
    var ids := Allowed(Candidates(users), canView);
    SortSorts(ids, Identity);
    var sorted := Sort(ids, Identity);
    assert forall i, j :: 0 <= i < j < |sorted| ==> Less(Identity(sorted[i]), Identity(sorted[j]));
    assert id in sorted <==> id in ids by {
      if id in sorted {
        var i :| 0 <= i < |sorted| && sorted[i] == id;
      }
      if id in ids {
        var i :| 0 <= i < |ids| && ids[i] == id;
      }
    }
  }

  /** Everybody hears of a public process, by its public topic; of a public job nobody does. */
  lemma PublicAudiences(process: Resource, job: Job, users: seq<User>, canView: User -> bool)
    ensures process.isPublic <==> ProcessAudience(process, users, canView).isPublic
    ensures !JobAudience(job, users, canView).isPublic
    ensures job.isPublic ==> JobAudience(job, users, canView).userIds == []
  {
  }

  // ---------------------------------------------------------------- processes

  /** The accounts are those of the store, with unique ids, and the owner's record is that of the store. */
  ghost predicate StoreIsConsistent(users: seq<User>, owners: seq<User>) {
    DistinctBy(users, UserId) && forall i :: 0 <= i < |owners| ==> owners[i] in users
  }

  lemma ConsistentWithin(store: seq<User>, some: seq<User>)
    requires DistinctBy(store, UserId) && forall u :: u in some ==> u in store
    ensures Consistent(some)
  {
    forall u, v | u in some && v in some && u.id == v.id ensures u == v {
      var i :| 0 <= i < |store| && store[i] == u;
      var j :| 0 <= j < |store| && store[j] == v;
    }
  }

  lemma ProcessCandidatesExactly(process: Resource, users: seq<User>, user: User)
    ensures user in ProcessCandidates(process, users) <==>
      user == process.owner || (user in users && Holds(Processes, user.scopes, process.identifier))
  {
    HoldersExactly(users, EditorScope(Processes, process.identifier), user);
    HoldersExactly(users, ViewerScope(Processes, process.identifier), user);
  }

  /** Any authorizer can narrow the audience, not extend it: members are active, allowed, and owner or shared with. */
  lemma ProcessAudienceIsSound(process: Resource, users: seq<User>, canView: User -> bool, id: string)
    requires !process.isPublic
    ensures StrictlySorted(ProcessAudience(process, users, canView).userIds)
    ensures id in ProcessAudience(process, users, canView).userIds ==>
      exists u: User :: && u.id == id && u.isActive && canView(u)
                  && (u == process.owner || (u in users && Holds(Processes, u.scopes, process.identifier)))
  {
    AllowedSortedIsSound(ProcessCandidates(process, users), canView, id);
    if id in ProcessAudience(process, users, canView).userIds {
      var u :| u in ProcessCandidates(process, users) && u.id == id && u.isActive && canView(u);
      ProcessCandidatesExactly(process, users, u);
    }
  }

  /**
   With the local backend the audience of a private process is exactly its active owner and the
   active users it is shared with; so for active users that are not administrators, being notified
   and being allowed to view are the same.
   */
  lemma ProcessAudienceExactly(process: Resource, users: seq<User>, user: User)
    requires !process.isPublic && StoreIsConsistent(users, [process.owner]) && user in users
    ensures var canView := (u: User) => CanView(Processes, Some(u), process);
      var notified := user.id in ProcessAudience(process, users, canView).userIds;
      && (notified <==>
            user.isActive && (user.id == process.owner.id || Holds(Processes, user.scopes, process.identifier)))
      && (notified ==> canView(user))
      && (user.isActive && !IsAdmin(user) && canView(user) ==> notified)
  {
    var canView := (u: User) => CanView(Processes, Some(u), process);
    var candidates := ProcessCandidates(process, users);
    assert [process.owner][0] in users;
    forall u | u in candidates ensures u in users {
      ProcessCandidatesExactly(process, users, u);
    }
    ConsistentWithin(users, candidates);
    ConsistentWithin(users, users);
    AllowedSortedIsSound(candidates, canView, user.id);
    ProcessCandidatesExactly(process, users, user);
    if user.id in ProcessAudience(process, users, canView).userIds {
      var u :| u in candidates && u.id == user.id && u.isActive && canView(u);
      assert u == user;
    }
  }

  // ---------------------------------------------------------------- jobs

  lemma JobCandidatesExactly(job: Job, users: seq<User>, user: User)
    ensures user in JobCandidates(job, users) <==>
      || user == job.owner || user == job.process.owner
      || (&& user in users
          && (|| Holds(Jobs, user.scopes, job.identifier)
              || Holds(Processes, user.scopes, job.process.identifier)))
  {
    HoldersExactly(users, EditorScope(Jobs, job.identifier), user);
    HoldersExactly(users, ViewerScope(Jobs, job.identifier), user);
    HoldersExactly(users, EditorScope(Processes, job.process.identifier), user);
    HoldersExactly(users, ViewerScope(Processes, job.process.identifier), user);
  }

  /** The audience of a private job includes whoever the parent process is shared with. */
  lemma JobAudienceExactly(job: Job, users: seq<User>, user: User)
    requires !job.isPublic && StoreIsConsistent(users, [job.owner, job.process.owner]) && user in users
    ensures var canView := (u: User) => CanViewJob(Some(u), job);
      var notified := user.id in JobAudience(job, users, canView).userIds;
      && StrictlySorted(JobAudience(job, users, canView).userIds)
      && (notified <==> user.isActive && (|| user.id == job.owner.id || user.id == job.process.owner.id
                                          || Holds(Jobs, user.scopes, job.identifier)
                                          || Holds(Processes, user.scopes, job.process.identifier)))
      && (notified ==> canView(user))
      && (user.isActive && !IsAdmin(user) && canView(user) ==> notified)
  {
    var canView := (u: User) => CanViewJob(Some(u), job);
    var candidates := JobCandidates(job, users);
    assert [job.owner, job.process.owner][0] in users && [job.owner, job.process.owner][1] in users;
    forall u | u in candidates ensures u in users {
      JobCandidatesExactly(job, users, u);
    }
    ConsistentWithin(users, candidates);
    ConsistentWithin(users, users);
    AllowedSortedIsSound(candidates, canView, user.id);
    JobCandidatesExactly(job, users, user);
    if user.id in JobAudience(job, users, canView).userIds {
      var u :| u in candidates && u.id == user.id && u.isActive && canView(u);
      assert u == user;
    }
  }
}
