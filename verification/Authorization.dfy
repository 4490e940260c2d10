/**
 The local authorization backend. Point checks, listings and grants are three computations of
 who may access what; this module shows where they agree and where they do not.
 */
module Authorization {
  import opened Wrappers
  import opened Scopes

  datatype User = User(id: string, isActive: bool, scopes: seq<string>)

  /** A collection or a process: what authorization looks at. */
  datatype Resource = Resource(identifier: string, owner: User, isPublic: bool)

  datatype Job = Job(identifier: string, process: Resource, owner: User, isPublic: bool)

  predicate IsAdmin(user: User) { ADMIN in user.scopes }

  /** `can_view_collection` and `can_view_process`; None is an anonymous visitor. */
  predicate CanView(kind: Kind, user: Option<User>, r: Resource) {
    || r.isPublic
    || (user.Some? && (|| IsAdmin(user.value)
                       || user.value.id == r.owner.id
                       || EditorScope(kind, r.identifier) in user.value.scopes
                       || ViewerScope(kind, r.identifier) in user.value.scopes))
  }

  predicate IsJobEditor(user: User, job: Job) {
    || IsAdmin(user)
    || user.id == job.owner.id
    || EditorScope(Jobs, job.identifier) in user.scopes
    || user.id == job.process.owner.id
    || EditorScope(Processes, job.process.identifier) in user.scopes
  }

  predicate IsJobViewer(user: User, job: Job) {
    || IsJobEditor(user, job)
    || ViewerScope(Jobs, job.identifier) in user.scopes
    || ViewerScope(Processes, job.process.identifier) in user.scopes
  }

  predicate CanViewJob(user: Option<User>, job: Job) {
    job.isPublic || (user.Some? && IsJobViewer(user.value, job))
  }

  /** The identifiers a user may access by scope; None means unrestricted. */
  function AccessibleIdentifiers(kind: Kind, user: Option<User>): Option<seq<string>> {
    if user.None? then Some([])
    else if IsAdmin(user.value) then None
    else Some(Identifiers(kind, user.value.scopes))
  }

  /** A user, or potto itself acting under some name. */
  datatype Principal = Person(user: User) | System(name: string)

  /** The authorizer in front of the backend lets potto itself do anything. */
  predicate MayView(kind: Kind, principal: Option<Principal>, r: Resource) {
    match principal
    case Some(System(_)) => true
    case Some(Person(user)) => CanView(kind, Some(user), r)
    case None => CanView(kind, None, r)
  }

  /** `can_edit_collection` and `can_edit_process`. */
  predicate CanEdit(kind: Kind, user: Option<User>, r: Resource) {
    user.Some? && (|| IsAdmin(user.value)
                   || user.value.id == r.owner.id
                   || EditorScope(kind, r.identifier) in user.value.scopes)
  }

  predicate MayEdit(kind: Kind, principal: Option<Principal>, r: Resource) {
    match principal
    case Some(System(_)) => true
    case Some(Person(user)) => CanEdit(kind, Some(user), r)
    case None => CanEdit(kind, None, r)
  }

  predicate MayViewJob(principal: Option<Principal>, job: Job) {
    match principal
    case Some(System(_)) => true
    case Some(Person(user)) => CanViewJob(Some(user), job)
    case None => CanViewJob(None, job)
  }

  /** The scopes of a resource in full. */
  function SpelledScope(kind: Kind, identifier: string, role: string): string {
    match kind
    case Collections => "collection-" + identifier + ":" + role
    case Processes => "process-" + identifier + ":" + role
    case Jobs => "job-" + identifier + ":" + role
  }

  lemma Spelled(kind: Kind, identifier: string, role: string)
    ensures SpelledScope(kind, identifier, role) == kind.Prefix() + identifier + (":" + role)
  {
  }

  lemma ScopesAreSpelled(kind: Kind, identifier: string)
    ensures EditorScope(kind, identifier) == SpelledScope(kind, identifier, "editor")
    ensures ViewerScope(kind, identifier) == SpelledScope(kind, identifier, "viewer")
  {
    Spelled(kind, identifier, "editor");
    Spelled(kind, identifier, "viewer");
  }

  /** Visitors see what is public; users also what they own or hold a scope on; administrators and potto everything. */
  lemma ViewersAre(kind: Kind, r: Resource, user: User, name: string)
    ensures MayView(kind, None, r) <==> r.isPublic
    ensures MayView(kind, Some(System(name)), r)
    ensures MayView(kind, Some(Person(user)), r) <==>
      || r.isPublic || "admin" in user.scopes || user.id == r.owner.id
      || SpelledScope(kind, r.identifier, "editor") in user.scopes
      || SpelledScope(kind, r.identifier, "viewer") in user.scopes
  {
    ScopesAreSpelled(kind, r.identifier);
  }

  /** Only users edit, and being public or holding a viewer scope does not help. */
  lemma EditorsAre(kind: Kind, r: Resource, user: User, name: string)
    ensures !MayEdit(kind, None, r)
    ensures MayEdit(kind, Some(System(name)), r)
    ensures MayEdit(kind, Some(Person(user)), r) <==>
      || "admin" in user.scopes || user.id == r.owner.id || SpelledScope(kind, r.identifier, "editor") in user.scopes
  {
    ScopesAreSpelled(kind, r.identifier);
  }

  lemma ViewerScopeIsNoEditorScope(kind: Kind, identifier: string, of: Kind, other: string)
    ensures ViewerScope(of, other) != EditorScope(kind, identifier) && ViewerScope(of, other) != ADMIN
  {
    var viewer, editor := ViewerScope(of, other), EditorScope(kind, identifier);
    assert viewer[|viewer| - 6] == 'v' && editor[|editor| - 6] == 'e';
    assert |viewer| > |ADMIN|;
  }

  /** Granting viewer scopes, on anything, changes nothing about what somebody may edit. */
  lemma ViewerScopesDoNotEdit(kind: Kind, r: Resource, job: Job, user: User, of: Kind, other: string)
    ensures var more := user.(scopes := user.scopes + [ViewerScope(of, other)]);
      && (CanEdit(kind, Some(more), r) <==> CanEdit(kind, Some(user), r))
      && (IsJobEditor(more, job) <==> IsJobEditor(user, job))
  {
    ViewerScopeIsNoEditorScope(kind, r.identifier, of, other);
    ViewerScopeIsNoEditorScope(Jobs, job.identifier, of, other);
    ViewerScopeIsNoEditorScope(Processes, job.process.identifier, of, other);
  }

  /** A job is viewed like a resource of its own, and besides by whoever the process is owned by or shared with. */
  lemma JobViewersAre(job: Job, user: User)
    ensures CanViewJob(None, job) <==> job.isPublic
    ensures CanViewJob(Some(user), job) <==>
      || job.isPublic || "admin" in user.scopes || user.id == job.owner.id || user.id == job.process.owner.id
      || SpelledScope(Jobs, job.identifier, "editor") in user.scopes
      || SpelledScope(Jobs, job.identifier, "viewer") in user.scopes
      || SpelledScope(Processes, job.process.identifier, "editor") in user.scopes
      || SpelledScope(Processes, job.process.identifier, "viewer") in user.scopes
    ensures IsJobEditor(user, job) <==>
      || "admin" in user.scopes || user.id == job.owner.id || user.id == job.process.owner.id
      || SpelledScope(Jobs, job.identifier, "editor") in user.scopes
      || SpelledScope(Processes, job.process.identifier, "editor") in user.scopes
  {
    ScopesAreSpelled(Jobs, job.identifier);
    ScopesAreSpelled(Processes, job.process.identifier);
  }

  // ---------------------------------------------------------------- listings

  /** The listing queries' condition on a collection or process. */
  predicate IsListed(kind: Kind, user: Option<User>, r: Resource) {
    if user.None? then r.isPublic
    else
      var accessible := AccessibleIdentifiers(kind, user);
      accessible.Some? ==>
        r.isPublic || r.owner.id == user.value.id || r.identifier in accessible.value
  }

  /** The job listing query's condition. */
  predicate IsJobListed(user: Option<User>, job: Job) {
    if user.None? then job.isPublic
    else
      var jobs := AccessibleIdentifiers(Jobs, user);
      var processes := AccessibleIdentifiers(Processes, user);
      jobs.Some? || processes.Some? ==>
        || job.isPublic
        || job.owner.id == user.value.id
        || (jobs.Some? && job.identifier in jobs.value)
        || job.process.owner.id == user.value.id
        || (processes.Some? && job.process.identifier in processes.value)
  }

  predicate NewlineFree(scopes: seq<string>) { forall scope <- scopes :: '\n' !in scope }

  /**
   Listing and point check are the same relation, for every user and resource, exactly when what
   the expressions read from the scopes is what the printers write: a usable identifier is not held
   with a stray newline only, and an unusable one is not held at all.
   */
  lemma ListingAgreesExactlyWhen(kind: Kind, user: Option<User>, r: Resource)
    ensures (IsListed(kind, user, r) <==> CanView(kind, user, r)) <==>
            || r.isPublic || user.None? || IsAdmin(user.value) || user.value.id == r.owner.id
            || (if WellFormed(r.identifier)
                then HoldsStray(kind, user.value.scopes, r.identifier) ==> Holds(kind, user.value.scopes, r.identifier)
                else !Holds(kind, user.value.scopes, r.identifier))
  {
    if user.Some? {
      IdentifiersExactly(kind, user.value.scopes, r.identifier);
      NamedIsHeldOrStray(kind, user.value.scopes, r.identifier);
    }
  }

  /** In particular it is, for non-empty identifiers and newline-free scopes. */
  lemma ListingAgrees(kind: Kind, user: Option<User>, r: Resource)
    requires r.identifier != "" && (user.Some? ==> NewlineFree(user.value.scopes))
    ensures IsListed(kind, user, r) <==> CanView(kind, user, r)
  {
    if user.Some? {
      ListedIffHeld(kind, user.value.scopes, r.identifier);
    }
  }

  lemma JobListingAgrees(user: Option<User>, job: Job)
    requires job.identifier != "" && job.process.identifier != ""
    requires user.Some? ==> NewlineFree(user.value.scopes)
    ensures IsJobListed(user, job) <==> CanViewJob(user, job)
  {
    if user.Some? {
      ListedIffHeld(Jobs, user.value.scopes, job.identifier);
      ListedIffHeld(Processes, user.value.scopes, job.process.identifier);
    }
  }

  predicate IsRead(kind: Kind, scopes: seq<string>, identifier: string) {
    WellFormed(identifier) && (Holds(kind, scopes, identifier) || HoldsStray(kind, scopes, identifier))
  }

  /**
   Jobs are reached through two families of scopes, and listing and point check agree exactly when one
   of the two is read for the job or its process just when one of the two is held.
   */
  lemma JobListingAgreesExactlyWhen(user: Option<User>, job: Job)
    ensures (IsJobListed(user, job) <==> CanViewJob(user, job)) <==>
            || job.isPublic || user.None? || IsAdmin(user.value)
            || user.value.id == job.owner.id || user.value.id == job.process.owner.id
            || var scopes := user.value.scopes;
               (IsRead(Jobs, scopes, job.identifier) || IsRead(Processes, scopes, job.process.identifier) <==>
                Holds(Jobs, scopes, job.identifier) || Holds(Processes, scopes, job.process.identifier))
  {
    if user.Some? {
      ReadExactly(Jobs, user.value.scopes, job.identifier);
      ReadExactly(Processes, user.value.scopes, job.process.identifier);
    }
  }

  lemma ReadExactly(kind: Kind, scopes: seq<string>, identifier: string)
    ensures identifier in Identifiers(kind, scopes) <==> IsRead(kind, scopes, identifier)
  {
    IdentifiersExactly(kind, scopes, identifier);
    NamedIsHeldOrStray(kind, scopes, identifier);
  }

  /** The scope check accepts a trailing newline, so a stored scope can list what it does not let one view. */
  lemma ValidScopeCanMislist(kind: Kind, identifier: string, owner: User, scope: string, user: User)
    requires WellFormed(identifier) && owner.id != user.id
    requires scope == EditorScope(kind, identifier) + "\n" && user.scopes == [scope]
    ensures IsValidScope(scope)
    ensures var r := Resource(identifier, owner, false);
      IsListed(kind, Some(user), r) && !CanView(kind, Some(user), r)
  {
    StrayScopeIsRead(kind, identifier, scope);
    StrayIsNotHeld(kind, identifier, scope);
    StrayIsNotAdmin(scope);
  }

  /** The same for a job, by a scope on it or on its process. */
  lemma ValidScopeCanMislistJob(kind: Kind, job: Job, scope: string, user: User)
    requires kind.Jobs? || kind.Processes?
    requires var identifier := if kind.Jobs? then job.identifier else job.process.identifier;
      WellFormed(identifier) && scope == EditorScope(kind, identifier) + "\n" && user.scopes == [scope]
    requires !job.isPublic && job.owner.id != user.id && job.process.owner.id != user.id
    ensures IsValidScope(scope)
    ensures IsJobListed(Some(user), job) && !CanViewJob(Some(user), job)
  {
    StrayScopeIsRead(kind, if kind.Jobs? then job.identifier else job.process.identifier, scope);
    StrayIsNotHeld(Jobs, job.identifier, scope);
    StrayIsNotHeld(Processes, job.process.identifier, scope);
    StrayIsNotAdmin(scope);
  }

  lemma StrayScopeIsRead(kind: Kind, identifier: string, scope: string)
    requires WellFormed(identifier) && scope == EditorScope(kind, identifier) + "\n"
    ensures MatchScope(kind, scope) == Some(identifier)
    ensures IsValidScope(scope) && identifier in Identifiers(kind, [scope])
  {
    assert scope == Spell(kind, identifier, EDITOR + "\n");
    MatchExactly(kind, scope, identifier);
    IdentifiersExactly(kind, [scope], identifier);
  }

  lemma StrayIsNotAdmin(scope: string)
    requires scope != "" && scope[|scope| - 1] == '\n'
    ensures ADMIN !in [scope]
  {
  }

  lemma StrayIsNotHeld(kind: Kind, identifier: string, scope: string)
    requires scope != "" && scope[|scope| - 1] == '\n'
    ensures !Holds(kind, [scope], identifier)
  {
    assert EditorScope(kind, identifier)[|EditorScope(kind, identifier)| - 1] == 'r';
    assert ViewerScope(kind, identifier)[|ViewerScope(kind, identifier)| - 1] == 'r';
  }

  // ---------------------------------------------------------------- grants

  /** Each scope is read as a scope on an editable collection. */
  predicate AllEditable(newScopes: seq<string>, editable: set<string>) {
    forall scope <- newScopes :: exists c <- editable :: MatchScope(Collections, scope) == Some(c)
  }

  /** Whether a user may give `newScopes` to another, given the collections the user can edit. */
  method CanSetUserScopes(requesting: Option<User>, newScopes: seq<string>, editable: set<string>) returns (ok: bool)
    ensures ok <==> requesting.Some? && (IsAdmin(requesting.value) || AllEditable(newScopes, editable))
  {
    if requesting.None? {
      return false;
    }
    if IsAdmin(requesting.value) {
      return true;
    }
    for i := 0 to |newScopes|
      invariant forall j :: 0 <= j < i ==> exists c <- editable :: MatchScope(Collections, newScopes[j]) == Some(c)
    {
      var m := MatchScope(Collections, newScopes[i]);
      if m.None? || m.value !in editable {
        assert newScopes[i] in newScopes;
        return false;
      }
    }
    ok := true;
  }

  /** What a non-admin may grant gives access to no collection, process or job beyond those collections. */
  lemma GrantsStayWithin(newScopes: seq<string>, editable: set<string>, kind: Kind, identifier: string)
    requires AllEditable(newScopes, editable)
    ensures ADMIN !in newScopes
    ensures Holds(kind, newScopes, identifier) ==> kind.Collections? && identifier in editable
    ensures identifier in Identifiers(kind, newScopes) ==> kind.Collections? && identifier in editable
  {
    PrintedNames(kind, identifier);
    IdentifiersExactly(kind, newScopes, identifier);
    if scope :| scope in newScopes && Names(kind, scope, identifier) {
      NamedIsEditable(newScopes, editable, kind, scope, identifier);
    }
    assert MatchScope(Collections, ADMIN).None?;
  }

  lemma NamedIsEditable(newScopes: seq<string>, editable: set<string>, kind: Kind, scope: string, identifier: string)
    requires AllEditable(newScopes, editable) && scope in newScopes && Names(kind, scope, identifier)
    ensures kind.Collections? && identifier in editable
  {
    var c :| c in editable && MatchScope(Collections, scope) == Some(c);
    NamedHasPrefix(kind, scope, identifier);
    assert scope[0] == Kind.Collections.Prefix()[0] == 'c';
    MatchedIsNamed(kind, scope, c);
    SameSpelling(kind, scope, identifier, c);
  }

  lemma NamedHasPrefix(kind: Kind, scope: string, identifier: string)
    requires Names(kind, scope, identifier)
    ensures scope != "" && scope[0] == if kind.Collections? then 'c' else if kind.Processes? then 'p' else 'j'
  {
    var tail :| tail in TAILS && scope == Spell(kind, identifier, tail);
    assert scope[0] == kind.Prefix()[0];
  }

  /** A scope names one identifier only. */
  lemma SameSpelling(kind: Kind, scope: string, i: string, j: string)
    requires Names(kind, scope, i) && Names(kind, scope, j)
    ensures i == j
  {
    var s :| s in TAILS && scope == Spell(kind, i, s);
    var t :| t in TAILS && scope == Spell(kind, j, t);
    var rest := scope[|kind.Prefix()|..];
    assert rest == i + s && rest == j + t;
    assert rest[|i|..] == s && rest[|j|..] == t;
    RoleEndIsUnique(rest, |i|, |j|);
    assert rest[..|i|] == i && rest[..|j|] == j;
  }
}
