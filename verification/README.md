# Potto: verified models of its protocols and transformations

Potto serves OGC API collections, processes and jobs, keeps processes deployed and jobs executed with
background workers, and notifies users over a public MQTT broker. This Dafny 4.11 project models the parts
of it that are hard to get right and proves what they are for. `dafny verify dfyconfig.toml` checks all of it.

| file | what it models |
|---|---|
| `ProcessDeployment.dfy` | the deployment protocol of one process as a transition system: any number of workers, a step per await, updates, deletion, re-creation, duplicated and reordered deliveries |
| `Redeployment.dfy` | how often a process is deployed, and when that comes to an end |
| `Reconciler.dfy` | the same code as one worker runs it, as a class over the stored row and the queue; each handled event is a run of the protocol |
| `JobExecution.dfy`, `JobManager.dfy` | the execution of jobs: the race of duplicate deliveries with outside calls, and the manager's methods with rows, times, messages and progress; one handled event is a run of the race |
| `Topics.dfy`, `BrokerPlugins.dfy`, `EventBridge.dfy`, `Delivery.dfy` | the public MQTT broker: topics and matching by section 4.7 of MQTT 3.1.1, session authentication, the bridge that fans events out, and all of it composed |
| `Scopes.dfy`, `Authorization.dfy`, `Audience.dfy` | scope strings and the regular expressions that read them, point checks, listings, grants, notification audiences |
| `NullableRewrite.dfy`, `NullableMeaning.dfy`, `KeywordMeaning.dfy`, `NullableSiblings.dfy` | the in-place OpenAPI nullable rewrite, what schemas accept before and after it, keyword by keyword, and what becomes of keywords beside a nullable `anyOf` |
| `ProviderCache.dfy` | the first-in-first-out feature provider cache with lookups suspended between miss and insert |
| `Pagination.dfy`, `CollectionListing.dfy` | paging by links and by page numbers |
| `Text.dfy`, `Sorting.dfy`, `Filtering.dfy`, `Dictionaries.dfy`, `Wrappers.dfy` | splitting and ordering strings, a stable sort, filtering a list, insertion-ordered dictionaries, `Option` and `Result` |

## Where the code and what is expected of it differ

Each of these is a proved lemma; the model follows the code.

- No two workers ever deploy one process at the same time exactly when updates keep the recorded status and
  identifiers are not reused (`ProcessDeployment.ExclusiveExactlyWhen`). The PostGIS manager keeps the status, but a
  process deleted and created again under its identifier while it is being deployed is then deployed by a second worker
  too (`ProcessDeployment.OverlappingRun`). Convergence and truthful records need neither condition.
- Two workers can redeploy a definition that nobody changes any more without end: a worker that finds the other's
  deployment in progress takes that for having work to do, claims the process when the outcome is recorded, and is
  seen in progress itself when the outcome's own event is handled. One creation with one repeated delivery suffices
  (`Redeployment.RedeploysWithoutEnd`). The number of changes bounds the number of deployments exactly when at most
  one worker serves the process (`Redeployment.BoundedExactlyWhen`).
- The hash stored by a claim need not be that of the definition being deployed, as
  src/potto/managers/processes.py:99-100 says. It always is exactly when, between a worker's reading of the process and
  its reading back of the claim, updates leave the deployable parts alone and the process is not created again under its
  identifier (`ProcessDeployment.ClaimsNameDeployedExactlyWhen`). The outcome's record repairs it.
- `$` in the scope expressions also matches before a final newline, so a scope that passes validation can list a
  collection, process or job that it does not let its holder view (`Authorization.ValidScopeCanMislist`,
  `Authorization.ValidScopeCanMislistJob`). When listing and point check agree is stated exactly in
  `Authorization.ListingAgreesExactlyWhen` and `Authorization.JobListingAgreesExactlyWhen`.
- A user whose id is `anonymous` shares session ownership with clients that send no password
  (`BrokerPlugins.KeptAreAllowedExactlyWhen`).
- A sole `anyOf` branch that is itself nullable is merged but not looked at again: a null branch stays, and a
  second run changes the document (`NullableRewrite.CleanExactlyWhenSettled`,
  `NullableRewrite.IdempotentExactlyWhenSettled`). What the schema accepts is preserved all the same.
- `anyOf` with nothing but null comes to accept everything, and assertions beside a nullable `anyOf` no longer
  keep null out (`NullableMeaning.PreservedExactlyWhen`). Keywords of any kind beside it let null pass, and are lost
  where the merged branch has the same keyword (`NullableSiblings.PreservedBesideExactlyWhen`).
- A page's window takes the requested limit while its links advance by the capped one, so above the cap pages
  overlap (`Pagination.CollectsExactlyWhen`).

## Assumptions

- Deployments: a conditional UPDATE is atomic and the read-back after it is a separate statement; publishes
  succeed; workers do not stop between claim and record; the job manager's deployment run ends deployed or
  failed, or raises. The hash function is arbitrary; where it must be injective the lemma says so.
- The reconciler runs as a system principal, which may view and edit everything. It uses only the process
  identifier of an event, so the pending events of one process are a count.
- Whether a password verifies as a token, and what it then claims, is an input of the authentication step.
  The listener noted in a session is that of its current connection. amqtt is not part of this model: it is
  taken to ask the topic plugin about each subscription, publication and delivery, and to hand out a message
  only to sessions with a matching filter.
- An account manager returns the users who hold exactly the printed scope. Completeness of an audience is
  stated for a store without two records of one id.
- Assertions of JSON schemas (`type`, `format`, `enum` and the like) are uninterpreted, except that `type: "null"` accepts
  null only. The less common keywords that hold schemas (`prefixItems`, `contains`, `patternProperties` and the like)
  constrain a value by an arbitrary function of what their schemas say about the value and its direct parts.
  `nullable: true` says that null is also accepted. References are followed to any depth.
- The digest in a cache key is an arbitrary function. It is truncated, so it has collisions; what matters is whether the
  lookups that are made collide, and the lemmas say so.

## Model

| member | source | states |
|---|---|---|
| ProcessDeployment.ConvergesAtQuiescence | src/potto/eventhandlers/processes.py:124-153 | in every reachable state with no event pending and nobody mid-flight, the stored hash is that of the current definition and the value is deployed or failed, for any number of workers and whether or not updates reset the status |
| ProcessDeployment.ClaimExactly | src/potto/managers/postgis/db/commands/processes.py:147-195 | a claim takes effect exactly on the row looked up while none or any other than an in-progress status is recorded, writes in progress with the hash of the process read before, and changes nothing else |
| ProcessDeployment.RecordExactly | src/potto/wrapper.py:421-438 | a record replaces only an in-progress status whose hash is the one its recorder read back from its own claim, by the outcome of its run with the hash of what it ran |
| ProcessDeployment.AlwaysProgressing | src/potto/wrapper.py:371-455 | in every reachable state an in-progress status has a worker whose record will succeed, and whatever is not converged is still owed an event or a record |
| ProcessDeployment.StepPreservesProgress | src/potto/wrapper.py:371-455 | every single step keeps that invariant, from any state that satisfies it |
| ProcessDeployment.RecordedOutcomeIsTruthful | src/potto/wrapper.py:397-432 | a stored deployed or failed status is the outcome of a run completed by the worker that recorded it, on a definition with the stored hash |
| ProcessDeployment.QuiescentStatusIsOfCurrentDefinition | src/potto/schemas/processes.py:148-157 | if the hash function is injective on deployable parts, the status at quiescence is the outcome of running the current deployable parts |
| ProcessDeployment.AlwaysExclusive | src/potto/wrapper.py:394-438 | with kept statuses and no re-creation, at most one worker is between claim and record, one is there exactly when the status is in progress, and its record will not conflict |
| ProcessDeployment.ExclusiveExactlyWhen | src/potto/managers/postgis/db/commands/processes.py:147-195 | in all reachable states no two workers are deploying if and only if updates never reset the status and identifiers are not reused; the same for the stronger exclusion of everything between claim and record |
| ProcessDeployment.OverlappingRun | src/potto/wrapper.py:388-414 | otherwise there is a run that ends with two workers deploying the same definition at the same time, for any definition |
| ProcessDeployment.ClaimsNameDeployedExactlyWhen | src/potto/managers/processes.py:97-112 | in all runs under given rules every claim names the hash of the definition being deployed, if and only if the rules keep updates off the deployable parts, and re-creation off the identifier, while somebody is claiming, or all definitions hash alike |
| ProcessDeployment.RulesKeepPromise | src/potto/wrapper.py:388-406 | under such rules whoever is claiming knows the hash of the row's definition, in every state of every run |
| Redeployment.EventsAreConserved | src/potto/wrapper.py:440-453 | over every run each change was published once or is still to be published, and each published change or outcome, or repeated delivery, was delivered once or is waiting |
| Redeployment.OneWorkerDeploysOncePerChange | src/potto/eventhandlers/processes.py:138-153 | with one worker no run has more deployments than creations, updates and deletions, however often events are delivered |
| Redeployment.RedeploysWithoutEnd | src/potto/wrapper.py:388-453 | from where one worker deploys and another is about to claim, potto's own steps alone lead to any number of further deployments of the same definition, with any outcome |
| Redeployment.BoundedExactlyWhen | src/potto/eventhandlers/processes.py:138-153 | there is a bound on deployments that depends on the number of changes only, if and only if at most one worker serves the process |
| Redeployment.LeftAloneItConverges | src/potto/eventhandlers/processes.py:124-153 | from any state one worker can reach, potto's own steps are boundedly many in any order, and when none is left the process is deployed or failed under the hash of its definition |
| Reconciler.HandlingIsARun | src/potto/eventhandlers/processes.py:124-153 | handling an event without interference is a run of the interleaving protocol |
| Reconciler.RunPreservesProgress | src/potto/eventhandlers/processes.py:138-153 | the progress invariant is kept by any run, from any state that satisfies it |
| Reconciler.Potto.SetProcessDeploymentStatus | src/potto/managers/postgis/operations/processes.py:124-167 | refused exactly to principals that may not edit, then not found, conflict or success: the row changes exactly on success, to the given value with the hash of the process passed in |
| Reconciler.Potto.DeployProcess | src/potto/wrapper.py:371-455 | without interference: not found for whoever may not view, refused to whoever may not edit, else one deployment run of the row as claimed; what the run ended with, or failed if it raised, is recorded with that row's hash and in the history, and one event is published; nothing changes on failure |
| Reconciler.Potto.HandleProcessEvent | src/potto/eventhandlers/processes.py:114-153 | one event taken; a process that is missing or converged is left as it is, any other gets the outcome of its deployment, failed if that raises; the new state is one to which the protocol leads |
| Reconciler.Potto.Drain | src/potto/eventhandlers/processes.py:138-153 | without further changes the queue empties after handling every pending event plus one for the single deployment a non-converged process needs, and the process is converged |
| JobExecution.StartsAreBounded | src/potto/managers/postgis/manager.py:625-681 | a job starts running at most as often as it entered the accepted status, which it does when created and by outside writes; if none of those writes accepted it, at most once and with at most one executor |
| JobExecution.ExecutorWritesAreLegal | src/potto/managers/postgis/manager.py:625-681 | executors only write accepted to running, and running to an outcome of a run they completed |
| JobExecution.FinishedStaysFinished | src/potto/managers/postgis/operations/jobs.py:183-201 | a job that is neither accepted nor running keeps its status, with no further write, until an outside call or a deletion |
| JobExecution.DismissedStaysDismissed | src/potto/managers/postgis/manager.py:662-681 | a job dismissed while running stays dismissed whatever its executor finds |
| JobExecution.QuiescentJobIsFinished | src/potto/eventhandlers/jobs.py:21-30 | once everything has settled, a job is left accepted or running only by an outside write |
| JobExecution.LeftAloneItFinishes | src/potto/wrapper.py:554-583 | left alone at any moment, a job whose status was not last set from outside is successful or failed after boundedly many of potto's own steps, in any order |
| JobExecution.AnyOutcomeIsReached | src/potto/managers/postgis/manager.py:625-681 | a job can be created, claimed and run to any outcome, with exactly the two executor writes and one notification |
| JobExecution.EventsAreConserved | src/potto/wrapper.py:554-583 | over every run a job is created at most once, its event is published once or still to be published, and every event published or repeated was delivered once or is waiting |
| JobExecution.AlwaysDisciplined | src/potto/managers/postgis/db/commands/jobs.py:79-129 | the counting and legality invariants hold after every run |
| JobExecution.NeverAbandoned | src/potto/wrapper.py:554-583 | a created job has an event or a worker on its way, and a claimed one an executor, after every run |
| JobManager.UpdateWrites | src/potto/managers/postgis/db/commands/jobs.py:79-129 | column by column: what is not given stays, progress is clamped to 0 to 100, the first start time is kept, a final status sets the finish time |
| JobManager.Manager.CreateJob | src/potto/managers/postgis/operations/jobs.py:114-156 | success exactly when the process exists, is deployed and may be viewed and the identifier is new; a person's job is private and theirs, potto's own is private and an anonymous one public, both of them the process owner's; its creator may view it |
| JobManager.Manager.SetJobStatus | src/potto/managers/postgis/operations/jobs.py:159-201 | not found, refused to any user, or the conditional update by potto itself, with arbitrary calls of others between lookup and UPDATE and before the job is read back |
| JobManager.Manager.ExecuteJob | src/potto/managers/postgis/manager.py:625-681 | the store after claim, run and conditional record with arbitrary calls of others at every await, and the job as read back |
| JobManager.Manager.HandleJobCreated | src/potto/wrapper.py:554-583 | with interference at every await: the job's identifier is notified exactly when the status read back differs from the one read first; for every protocol state with that job status the call is a run of the protocol; all jobs stay sound |
| JobManager.HandlingKeeps | src/potto/managers/postgis/db/commands/jobs.py:99-113 | over any handled event with interference: progress within 0 to 100, running jobs have a start time, final ones a finish time, no time in the future; identities and start times never change |
| JobManager.CallsKeep | src/potto/managers/postgis/db/commands/jobs.py:79-129 | the same over any sequence of outside calls |
| JobManager.UndisturbedExecutionFinishes | src/potto/managers/postgis/manager.py:645-675 | an event nobody interferes with ends with the job successful with progress 100, its message kept and no new exception, or failed with the exception's text, or its type if there is no text, as message, and type and text as exception; started before finished |
| JobManager.HandlingIsARun | src/potto/eventhandlers/jobs.py:21-30 | one handled event with whatever others do at its awaits is a run of the race, with the same notifications |
| Topics.AllowedLevels | src/potto/pubsub/plugins.py:219-228 | the check by prefix accepts exactly the topics and filters below `public`, or below `users` and the subject as whole levels |
| Topics.MatchesExactly | src/potto/pubsub/plugins.py:219-228 | what a filter matches, without recursion, by section 4.7 of MQTT 3.1.1; a leading wildcard does not match topics that start with a dollar sign |
| Topics.ValidIdIsOneLevel | src/potto/pubsub/topics.py:10-19 | a user id is usable exactly when it is a single, non-empty topic level without wildcards and null characters |
| Topics.FilterConfinement | src/potto/pubsub/plugins.py:219-228 | every topic matched by an accepted filter, including by `#` at the parent level, lies in `public` or in the subject's own namespace |
| Topics.OtherUsersTopicsAreOutOfReach | src/potto/pubsub/topics.py:10-45 | an accepted filter that matches a user's private process topic belongs to that user |
| Topics.OwnNamespaceIsCovered | src/potto/pubsub/topics.py:26-45 | `users/{id}/#` is accepted for a valid id and matches all of its private process topics |
| Topics.PrivateTopicsAreDistinct | src/potto/pubsub/topics.py:36-45 | equal private topics have equal user, process and event, even when process identifiers contain `/` |
| Topics.PublicTopicsAreDistinct | src/potto/pubsub/topics.py:30-33 | equal public topics have equal process and event |
| Topics.FamiliesAreDisjoint | src/potto/pubsub/topics.py:30-45 | no private topic is a public one |
| BrokerPlugins.TokenAuthPlugin.ClaimSession | src/potto/pubsub/plugins.py:153-164 | an unowned session becomes the claimant's; the claim succeeds exactly when the session is unowned or already the claimant's |
| BrokerPlugins.TokenAuthPlugin.AuthenticatePublisher | src/potto/pubsub/plugins.py:104-118 | accepted exactly with the publisher password on a session that is unowned or the publisher's; the attributes afterwards |
| BrokerPlugins.TokenAuthPlugin.AuthenticateClient | src/potto/pubsub/plugins.py:120-151 | accepted exactly as anonymous, or with a token for a valid id, on a session unowned or owned by that identity; the attributes afterwards |
| BrokerPlugins.TokenAuthPlugin.Authenticate | src/potto/pubsub/plugins.py:92-102 | the decision and the attributes after any connection, stale identity attributes removed |
| BrokerPlugins.OwnerNeverChanges | src/potto/pubsub/plugins.py:153-164 | over any sequence of connections and subscriptions the owner of a session never changes once set |
| BrokerPlugins.AcceptedConnectionsShareOwner | src/potto/pubsub/plugins.py:92-164 | every accepted connection proves the identity that owns the session ever after |
| BrokerPlugins.MayPublishExactly | src/potto/pubsub/plugins.py:104-118 | over any history a session may publish exactly when its latest connection came in on the internal listener with the non-empty publisher password, on a session nobody else owned |
| BrokerPlugins.SubjectExactly | src/potto/pubsub/plugins.py:120-151 | over any history a session stands for a user until a certain time exactly when its latest connection brought a verified token that says so, for an id that can be a topic level, on a session nobody else owned |
| BrokerPlugins.AnonymousExactly | src/potto/pubsub/plugins.py:120-132 | over any history it is an anonymous client exactly when that connection brought no password, on a session nobody else owned |
| BrokerPlugins.SubscriptionsExactly | src/potto/pubsub/plugins.py:196-216 | over any history a session keeps exactly the filters that were granted to the client it then was and not revoked since, whoever connected in between |
| BrokerPlugins.RoleIffAccepted | src/potto/pubsub/plugins.py:92-118 | a role is present exactly when the latest connection was accepted, and publishing is allowed exactly after one on the internal listener |
| BrokerPlugins.KeptSubscriptionsAreAllowed | src/potto/pubsub/plugins.py:196-216 | for owners other than the reserved anonymous name, every subscription a client session keeps is allowed for its current subject |
| BrokerPlugins.KeptAreAllowedExactlyWhen | src/potto/pubsub/plugins.py:120-151 | that holds over all histories exactly when the connections do not include both a token for a user of the reserved name and a passwordless one |
| EventBridge.BridgeInternalEventToPublic | src/potto/eventhandlers/processes.py:43-111 | the messages published for an event: none for failures and vanished processes, one public, or one per member with a valid id |
| EventBridge.NothingIsPublished | src/potto/eventhandlers/processes.py:50-69 | deployment failures, and events of processes that have vanished since, publish nothing |
| EventBridge.PublicEventIsPublished | src/potto/eventhandlers/processes.py:71-96 | any other event of a public process is one message on `public/processes/{id}/{name}`, with a link unless it is a deletion |
| EventBridge.PrivateEventIsPublished | src/potto/eventhandlers/processes.py:97-111 | a member of a private audience with a valid id is sent it on `users/{user}/processes/{id}/{name}` |
| EventBridge.PrivateMessagesExactly | src/potto/eventhandlers/processes.py:97-111 | a private message is published if and only if it is addressed to a member of the audience whose id can be a topic level |
| EventBridge.PrivateMessagesAreDistinct | src/potto/eventhandlers/processes.py:97-111 | no two messages of one event go to the same topic |
| Delivery.PrivateEventsReachMembersOnly | src/potto/eventhandlers/processes.py:87-111 | in any run of connections, subscriptions, bridged events, other publications and deliveries, a private event is received only by client sessions whose subject is in the audience used and whose token has not expired |
| Delivery.DeliveredExactly | src/potto/pubsub/plugins.py:196-228 | a message can be handed over exactly to a client session with a matching subscription, allowed the topic as whoever it now is, before its token expires |
| Delivery.ReceiptsAreInOrder | src/potto/pubsub/plugins.py:196-216 | over every run messages are received in the order of time, and none in the future |
| Delivery.ReceiversMayView | src/potto/pubsub/audience.py:17-51 | with the audience resolved from the accounts, every receiver is an active user whom the authorizer lets view the process |
| Delivery.ClientsCannotPublish | src/potto/pubsub/plugins.py:196-216 | a publication by anyone but a publisher session changes nothing |
| Delivery.MembersAreReached | src/potto/pubsub/plugins.py:196-228 | a member with a valid id and unexpired token subscribed to its namespace can receive every event bridged to that audience |
| Delivery.ViewersAreReached | src/potto/pubsub/audience.py:28-51 | with the audience resolved from a consistent store under the local backend, every active non-administrator who may view the private process is so reached |
| Scopes.MatchExactly | src/potto/authz/backend.py:11-13 | the greedy expression reads an identifier from exactly its editor and viewer scopes, with or without a final newline |
| Scopes.PrintParse | src/potto/schemas/auth.py:20-42 | printing a scope and matching it gives the identifier back, whatever it contains but a newline |
| Scopes.ListedIffHeld | src/potto/authz/backend.py:148-157 | for newline-free scopes an identifier is listed exactly when its editor or viewer scope is held |
| Scopes.IdentifiersExactly | src/potto/authz/backend.py:49-60 | the identifiers read from any list of scopes |
| Scopes.ValidExactly | src/potto/schemas/auth.py:45-54 | a scope passes validation exactly when it is one of the four fixed ones or a role on a named collection, process or job, up to one final newline |
| Authorization.ViewersAre | src/potto/authz/backend.py:19-34 | anonymous visitors view what is public; users also what they own or hold an editor or viewer scope on, as spelled out; administrators and potto itself everything |
| Authorization.EditorsAre | src/potto/authz/backend.py:36-47 | anonymous visitors edit nothing; users what they own or hold an editor scope on; administrators and potto itself everything |
| Authorization.ViewerScopesDoNotEdit | src/potto/authz/backend.py:137-195 | adding any viewer scope to a user changes neither what resources nor what jobs it may edit |
| Authorization.ListingAgrees | src/potto/authz/backend.py:122-157 | public, owned, listed or unrestricted is the same relation as the view check, for processes and collections |
| Authorization.ListingAgreesExactlyWhen | src/potto/managers/postgis/db/queries/processes.py:150-187 | for every user and resource, the exact condition on the scopes under which listing and view check agree |
| Authorization.JobListingAgrees | src/potto/managers/postgis/db/queries/jobs.py:112-153 | for newline-free scopes the job listing's condition is the job view check, inherited process sharing included |
| Authorization.JobListingAgreesExactlyWhen | src/potto/managers/postgis/db/queries/jobs.py:134-146 | for every user and job, the exact condition on job and process scopes under which job listing and view check agree |
| Authorization.ValidScopeCanMislist | src/potto/schemas/auth.py:45-54 | for every kind and well-formed identifier there is a scope that passes validation and lists the resource without letting its holder view it |
| Authorization.ValidScopeCanMislistJob | src/potto/authz/backend.py:171-205 | the same for jobs, by a scope on the job or on its process |
| Authorization.CanSetUserScopes | src/potto/authz/backend.py:62-80 | allowed exactly for admins, or when each scope is read as one on an editable collection |
| Authorization.GrantsStayWithin | src/potto/authz/backend.py:62-80 | what a non-admin may grant gives access, by point check and by listing, to nothing beyond those collections |
| Audience.ProcessAudienceIsSound | src/potto/pubsub/audience.py:17-51 | whoever is in a private process's audience is an active owner or sharer whom the authorizer lets view it; ids strictly sorted |
| Audience.ProcessAudienceExactly | src/potto/pubsub/audience.py:28-51 | with the local backend, a user is in the audience exactly when active and owner or sharer; every active non-admin who may view is |
| Audience.JobAudienceExactly | src/potto/pubsub/audience.py:66-99 | the same for private jobs, with sharing inherited from the process |
| NullableRewrite.RewriteDictionary | src/potto/webapp/api/main.py:54-66 | the keys deleted, updated and added in one dictionary, or a type error; sole branches that are strings or lists are tested for the reference as Python's `in` does |
| NullableRewrite.FixOas30Nullable | src/potto/webapp/api/main.py:47-71 | the whole walk: it raises exactly when a visited dictionary is malformed, and otherwise gives the specified document |
| NullableRewrite.DictionaryIsFixed | src/potto/webapp/api/main.py:54-71 | the whole walk gives a dictionary with a null branch exactly these keys: its own but `anyOf`, those written from the branches, and `nullable`; and each value from where it came, walked itself |
| NullableRewrite.CleanValuesArrive | src/potto/webapp/api/main.py:57-66 | a sibling that is not overwritten, and every key of a merged branch, arrives as it was if there is nothing to rewrite in it |
| NullableRewrite.RaisesExactly | src/potto/webapp/api/main.py:54-71 | the walk raises exactly at an `anyOf` that cannot be iterated, or with null and one other branch that is neither a dictionary, nor mentions a reference, nor is empty, or inside a value that it visits |
| NullableRewrite.CleanExactlyWhenSettled | src/potto/webapp/api/main.py:54-68 | no null branch is left in any `anyOf` exactly when no sole branch brings one of its own |
| NullableRewrite.FixedExactlyWhenClean | src/potto/webapp/api/main.py:54-71 | a document is left unchanged exactly when no `anyOf` in it has a null branch |
| NullableRewrite.IdempotentExactlyWhenSettled | src/potto/webapp/api/main.py:47-71 | rewriting twice is rewriting once, exactly under the same condition |
| NullableRewrite.OptionalOfOptional | src/potto/webapp/api/main.py:58-63 | the family of inputs on which a null branch stays |
| NullableMeaning.LocalPreserves | src/potto/webapp/api/main.py:54-66 | one dictionary's rewrite accepts the same values, null set apart, for every number of other branches, referenced or merged |
| NullableMeaning.ResolveCommutes | src/potto/webapp/api/main.py:67-71 | references resolve in the rewritten document to the rewrites of what they resolved to |
| NullableMeaning.MeaningIsPreserved | src/potto/webapp/api/main.py:47-71 | every suitable schema accepts after the rewrite exactly what it accepted before, at every depth of references, for any meaning of assertions and of the less common keywords that hold schemas, read by OpenAPI 3.1 before and 3.0 after or by either throughout |
| NullableMeaning.SuitableNeverRaises | src/potto/webapp/api/main.py:47-71 | the rewrite does not raise on those schemas |
| NullableMeaning.PreservedExactlyWhen | src/potto/webapp/api/main.py:55-66 | for a nullable `anyOf` beside annotations and assertions, meaning is preserved under all interpretations exactly when there is a branch other than null and no assertion |
| NullableSiblings.PreservedBesideExactlyWhen | src/potto/webapp/api/main.py:57-66 | beside keywords of any kind, under each interpretation, meaning is preserved exactly when the siblings accept null or say nullable themselves, the overwritten ones refuse nothing else that the rest accepts, and null is not all there is |
| NullableSiblings.PreservedWhenRepeated | src/potto/webapp/api/main.py:63 | if the overwritten siblings say what overwrites them, meaning is preserved exactly when the siblings accept null or say nullable |
| NullableSiblings.ReferenceBeside | src/potto/webapp/api/main.py:57-66 | a `$ref` beside the `anyOf` is all that OpenAPI 3.0 reads, before and after |
| NullableSiblings.PartsMayStandBeside | src/potto/webapp/api/main.py:57-66 | `items`, `properties` and `additionalProperties` beside a nullable `anyOf` keep the meaning whenever none is overwritten |
| NullableSiblings.UnionHolds | src/potto/webapp/api/main.py:63 | a merged dictionary accepts what both of its parts accept, unless they share a keyword or declare properties for each other |
| ProviderCache.BoundedAndFirstInFirstOut | src/potto/providers/features/registry.py:90-97 | under any interleaving of suspended lookups, even if the configured size changes, the cache stays within the largest size used, has one entry per key, keys leave it in the order they entered and only when it is full, and lookups without caching leave it alone |
| ProviderCache.AlwaysRightExactlyWhen | src/potto/providers/features/registry.py:54-97 | for any kind of lookups: in all interleavings of such lookups every instance handed out was built for the request's collection, provider name and configuration, exactly when no two of them that cache are of one collection with equal digests of provider name and configuration, but different requests |
| ProviderCache.LookupsAreConserved | src/potto/providers/features/registry.py:63-97 | over every run each lookup of an existing provider was answered once, failed, or is suspended, and as many providers were built as factories returned |
| ProviderCache.AlwaysNumbered | src/potto/providers/features/registry.py:84-97 | no two different instances are ever confused: what is handed out or stored was built in the run, and stored only after it was handed to the lookup that built it |
| ProviderCache.JustBuiltIsFound | src/potto/providers/features/registry.py:84-97 | a provider just built is found by the next lookup for the same request |
| ProviderCache.FeatureProviders.BeginLookup | src/potto/providers/features/registry.py:63-88 | no provider, unknown provider, hit or miss, from the dictionary's contents under the collection and the digest of provider name and configuration |
| ProviderCache.FeatureProviders.FinishLookup | src/potto/providers/features/registry.py:90-97 | the dictionary's items after the eviction of the oldest and the assignment, in insertion order |
| Pagination.GetLinks | src/potto/schemas/pagination.py:41-60 | the prev and next links of a page |
| Pagination.ListCollectionItems | src/potto/wrapper.py:172-217 | collection not found, or the matching features of the window, item by item, with the pagination context |
| Pagination.LimitInEffect | src/potto/util.py:58-66 | the limit used is the requested or default one within the collection's own maximum, and within that of the settings only where the collection has none |
| Pagination.NextLeadsForward | src/potto/util.py:58-66 | the effective limit is positive, and next links lead forward, exactly when the cap is positive |
| Pagination.ChainFromStart | src/potto/schemas/pagination.py:51-60 | following next links from the start takes ceil(matched / effective limit) pages, one effective limit apart |
| Pagination.NoGap | src/potto/providers/features/_collectionconfig.py:128-134 | every matched feature is at its place on some page of the chain |
| Pagination.CollectsExactlyWhen | src/potto/wrapper.py:185-217 | the chain's pages concatenate to exactly the matched features if and only if the requested limit is within the cap or everything is |
| Pagination.FollowLinks | src/potto/wrapper.py:172-217 | a client that requests the first page and follows the next links it is given makes ceil(matched / effective limit) requests and has the matched features exactly under that condition |
| Pagination.PrevUndoesNext | src/potto/schemas/pagination.py:41-60 | the prev link of the next page leads back; the next link of the previous page exactly when the page was not cut short at the start |
| CollectionListing.PagesCover | src/potto/managers/configurationfile/manager.py:71-73 | pages 1 to ceil(total / page size) concatenate to the whole list, and later ones are empty |
| CollectionListing.PagesBefore | src/potto/managers/configurationfile/manager.py:71-73 | page 0 is empty, and pages before it are counted from the end of the list |
| CollectionListing.ParseEntry | src/potto/managers/configurationfile/parsing.py:68-86 | success exactly with a known owner, one of the three types, a readable extent if any and only known provider kinds, and then the collection; otherwise the first problem in that order |
| CollectionListing.ParseCollections | src/potto/managers/configurationfile/parsing.py:54-88 | stops at the first entry that something is wrong with, and only then; otherwise a later entry replaces an earlier one with its identifier |
| CollectionListing.ParsedExactly | src/potto/managers/configurationfile/parsing.py:54-88 | an entry is in the dictionary exactly when no later one has its identifier |
| CollectionListing.ConfigurationFileManager.Load | src/potto/managers/configurationfile/manager.py:101-116 | a manager over the parsed collections, or the error that parsing stops with |
| CollectionListing.ConfigurationFileManager.GetCollection | src/potto/managers/configurationfile/manager.py:148-159 | the collection under the identifier, if the user may view it |
| CollectionListing.ConfigurationFileManager.PaginatedListCollections | src/potto/managers/configurationfile/manager.py:161-192 | the requested slice of the sorted, filtered, visible collections, and their number if asked for |
| CollectionListing.ConfigurationFileManager.ListedExactly | src/potto/managers/configurationfile/manager.py:161-192 | a collection is listed exactly when it may be viewed, has one of the filter's identifiers if there are any, has its type, and has an extent that is unknown or meets its area |
| CollectionListing.ConfigurationFileManager.ListingAgreesWithLookup | src/potto/managers/configurationfile/manager.py:148-192 | for any configuration, user and filter the pages are, in identifier order and without repeats, exactly the collections a lookup returns that pass the filter |

## Left out

- HTTP routes, admin views, the command line, templates, settings and the building of link URLs: no hard property.
- Feature providers other than the configured one, geometry and reprojection: matching is a parameter.
- Token cryptography, OIDC, OPA and password hashing.
- SQL text beyond the conditional updates and the listings' where-clauses; ordering and limits of the listings in the database.
- `undeploy_process` and the execution of OCI and CWL units: they raise not-implemented, so a deployment or job run is a parameter.
- The `detail` and `changed_at` of a deployment status, and the inputs, outputs and links of a job: they are stored and handed on.
- Swallowed publish failures and workers that stop between claim and record.
- Disconnecting clients whose token expires, retained messages and quality of service.
- Job listings of the configuration file manager, which has no jobs.
- NullableRewrite.FixOas30Nullable: the document is a value, so aliasing of sub-dictionaries is not captured.
- NullableRewrite.RewriteDictionary: a sole branch that is a non-empty list without a `$ref` member is a type error, although `update` accepts a list of pairs.
- NullableMeaning.MeaningIsPreserved: keywords whose meaning depends on the verdicts of other keywords' schemas (`if` with `then` and `else`, `unevaluatedProperties`) or on property names (`propertyNames`) are covered only where there is nothing to rewrite in them.
- NullableSiblings.PreservedBesideExactlyWhen: `properties` on one side of the merge with `additionalProperties` on the other is not covered.
- CollectionListing.ParseCollections: missing or unexpected keys of an entry, and what a provider's own settings may lack, raise too and are not modelled.
- CollectionListing.ConfigurationFileManager.PaginatedListCollections: the intersection of geometries is a parameter.
