# Distributed task system — a Dafny model of the coordinator and the worker

This project models the core of a two-part task system written in Java with
Spring and Kafka. It then proves properties of that model.

The **coordinator** (`server`) covers these operations:

- It creates tasks for registered worker nodes and stores them.
- It publishes each task id to the node's Kafka topic `tasks.node.<id>`.
- It reassigns tasks between nodes and records status reports.
- It runs a timeout job that marks stuck in-progress tasks `timed_out`.
- It registers nodes and users.
- It logs both in with signed JWTs, and its servlet filter turns a JWT back
  into an authentication.

The **worker** (`worker`) covers these:

- It keeps a cached access token, refreshing it a minute before the expiry
  the coordinator reports.
- It calls the coordinator with that token, retrying once after a 401.
- For each task id it receives, it fetches the task, claims it if pending,
  runs its handler and reports completed or failed.

How the source is modelled:

- Pure code becomes datatypes and functions. Code that updates state becomes
  classes whose methods are proved to equal a specification function of the
  state before the call.
- The task table is the sequence of stored rows in insertion order. taskId is
  the primary key, so ids are unique. `createTask` saves a new entity without
  an id, so its `save` is a persist: prePersist assigns the UUID and the row
  is inserted, or refused when that id is already stored. The reassign,
  update-status and timeout saves write loaded rows, so their `save` is a
  merge: it updates the row in place, keeping `createdOn` and setting
  `updatedOn`.
- The Kafka producer is an outbox: the sequence of records handed to
  `KafkaTemplate.send`.
- The worker's RestTemplate is a scripted peer. Each request takes the next
  answer from a script and is appended to a request log.
- Foreign code appears as function values with the least assumption the
  proofs need:
  - the JWT signer: verifying what was signed gives the claims back;
  - bcrypt: `matches(s, encode(s))`;
  - UUIDs: 36 characters of the 8-4-4-4-12 hex form.
- Clocks are integer seconds passed in, one reading per call.

The model keeps the code's quirks and proves them:

- `reassignTaskToDifferentNode` tests "not completed" only after it has set the
  status to pending. So it reopens and republishes completed tasks
  (`ReassignReopens`).
- `updateStatus` never compares `oldStatus` with the stored status
  (`UpdateStatusIgnoresOldStatus`, `UpdateStatusStaleOldStatus`).
- The filter cuts seven characters off the Authorization header without
  checking them. A missing or short header throws rather than answering 401
  (`ShortHeaderThrows`).
- The filter's role test is case-sensitive, so a user whose role is `ADMIN` is
  refused (`UppercaseAdminTokenRefused`).
- The coordinator reports a node token's expiry 60 s early and the worker
  refreshes 60 s before that. So the worker stops using a token two minutes
  before it expires (`RefreshStartsTwoMinutesEarly`).

## Quirks kept from the code

The model follows the code as written in each of these cases:

- An inactive node is answered "Node disabled"
  (server/src/main/java/task/server/service/AuthService.java:49-51). Only
  unknown ids and wrong secrets share "Invalid credentials"
  (`LoginNodeOutcomes`).
- The test for the "Bearer " prefix is commented out
  (server/src/main/java/task/server/security/JwtAuthFilter.java:43-46), and
  line 48 drops the first seven characters of the header unchecked
  (`NodeTokenAuthenticates` holds for any seven-character prefix).
- The consumer's guard
  (worker/src/main/java/task/worker/consumer/TaskConsumer.java:24) reads the
  status of a fetched task that has an id without testing it for null. A
  null status makes it throw a NullPointerException (`Consumer.OnMessageSpec`).
- The completion report (TaskConsumer.java:33) always names `in_progress`
  as the prior status.
- `reassignTaskToDifferentNode`
  (server/src/main/java/task/server/service/TaskService.java:91-102) reopens
  a completed task, as above.

## Model

| member | source | states |
|---|---|---|
| Strings.TrimStartSpec | server/src/main/java/task/server/producer/KafkaPublisher.java:47 | Dropping leading whitespace keeps a suffix, removes only whitespace, and stops at a non-whitespace character |
| Strings.TrimEndSpec | server/src/main/java/task/server/producer/KafkaPublisher.java:47 | Dropping trailing whitespace keeps a prefix, removes only whitespace, and stops at a non-whitespace character |
| Strings.TrimEmptyIffBlank | server/src/main/java/task/server/producer/KafkaPublisher.java:43-47 | The trimmed id is empty exactly when the id is blank |
| Strings.TrimIdempotent | server/src/main/java/task/server/producer/KafkaPublisher.java:47 | Trimming twice is trimming once, since a trimmed string has no whitespace at either end |
| Strings.TrimNoSpace | server/src/main/java/task/server/producer/KafkaPublisher.java:47 | A string that starts and ends with non-whitespace is unchanged by trim |
| Topics.Sanitize | server/src/main/java/task/server/producer/KafkaPublisher.java:47 | Same length as the input; each character outside [A-Za-z0-9._-] becomes '_' and every other is kept |
| Topics.SanitizeIsSafe | server/src/main/java/task/server/producer/KafkaPublisher.java:47 | Every character of a sanitised string is in [A-Za-z0-9._-] |
| Topics.SanitizeKeepsSafe | server/src/main/java/task/server/producer/KafkaPublisher.java:47 | A string of safe characters passes through the replacement unchanged |
| Topics.SanitizeIdempotent | server/src/main/java/task/server/producer/KafkaPublisher.java:47 | Sanitising twice is sanitising once |
| Topics.DerivedNameShape | server/src/main/java/task/server/producer/KafkaPublisher.java:47-48 | A non-blank id gives a name of the form tasks.node.[A-Za-z0-9._-]+ whose suffix is as long as the trimmed id |
| Topics.DerivedNameIdempotent | server/src/main/java/task/server/producer/KafkaPublisher.java:47-48 | Deriving a name from the suffix of a derived name gives the same name |
| Topics.DerivedNameOfSafeId | server/src/main/java/task/server/producer/KafkaPublisher.java:47-48 | A non-empty id of safe characters is used verbatim after the prefix |
| Topics.WorkerTopicDiffersForUntrimmedId | worker/src/main/java/task/worker/config/KafkaConsumerConfig.java:23-26 | For every non-blank node id that holds a character outside [A-Za-z0-9._-] (a leading or trailing space included), the worker's unsanitised topic differs from the name the coordinator derives |
| KafkaPublisher.TopicName | server/src/main/java/task/server/producer/KafkaPublisher.java:42-49 | IllegalArgumentException "nodeId is required" exactly for a null or blank id; otherwise the derived name |
| KafkaPublisher.Dispatch | server/src/main/java/task/server/producer/KafkaPublisher.java:21-24 | A record exists exactly for a non-blank node id; it goes to topicName(nodeId) with key and value both the task id |
| KafkaPublisher.TopicNameWellFormed | server/src/main/java/task/server/producer/KafkaPublisher.java:47-48 | A successful topicName is tasks.node. followed by safe characters, suffix as long as the trimmed id |
| KafkaPublisher.TopicNameIdempotent | server/src/main/java/task/server/producer/KafkaPublisher.java:42-49 | topicName of a topic's own suffix is that topic again |
| KafkaPublisher.SafeIdPassesThrough | server/src/main/java/task/server/producer/KafkaPublisher.java:42-49 | A safe, untrimmed id yields exactly "tasks.node." + id, which is what the worker subscribes to |
| KafkaPublisher.Publisher.PublishTaskToNode | server/src/main/java/task/server/producer/KafkaPublisher.java:21-40 | Appends exactly the dispatch record to the outbox and passes, or sends nothing and returns the topicName exception; delivery failures do not reach the caller |
| NodeTopicProvisioner.TopicName | server/src/main/java/task/server/utility/NodeTopicProvisioner.java:45-51 | IllegalStateException "Active node has empty nodeId" exactly for a null or blank id; otherwise the derived name |
| NodeTopicProvisioner.TopicNamesAgree | server/src/main/java/task/server/utility/NodeTopicProvisioner.java:45-51 | The provisioner and the publisher accept the same ids and give them the same topic name |
| NodeTopicProvisioner.NewTopics | server/src/main/java/task/server/utility/NodeTopicProvisioner.java:38-40 | Succeeds exactly when every active id is non-blank; then one topic per node, in order, with the configured partitions and replication factor |
| NodeTopicProvisioner.Provisioner.CreateTopicsForActiveNodes | server/src/main/java/task/server/utility/NodeTopicProvisioner.java:34-43 | No admin call without active nodes or on a blank id (which throws); otherwise exactly one call listing NewTopics of the active nodes |
| Tasks.ValueOf | server/src/main/java/task/server/service/TaskService.java:124 | An accepted name is the name of the constant returned; any other name is IllegalArgumentException |
| Tasks.ValueOfName | server/src/main/java/task/server/service/TaskService.java:63 | valueOf inverts name() for every status |
| Tasks.ValueOfIsCaseSensitive | server/src/main/java/task/server/service/TaskService.java:132 | Every status name that starts with an upper-case letter ("PENDING", "Completed") is rejected with the IllegalArgumentException naming it |
| Tasks.UuidFitsColumn | server/src/main/java/task/server/entity/Task.java:22-39 | A UUID string has 36 characters, the column length, and is not blank |
| Tasks.AssignIdSpec | server/src/main/java/task/server/entity/Task.java:36-41 | A present non-blank id is kept; a null or blank one becomes the 36-character UUID; the result is never blank |
| Tasks.AssignIdIdempotent | server/src/main/java/task/server/entity/Task.java:38-40 | Running prePersist again, with any UUID, changes nothing |
| Tasks.TaskEntity.PrePersist | server/src/main/java/task/server/entity/Task.java:36-41 | Only taskId may change; it becomes the assigned id and is non-blank |
| TaskRepo.IndexOf | server/src/main/java/task/server/repository/TaskRepository.java:13 | None exactly when no row has the id; otherwise a position holding that id |
| TaskRepo.IndexOfUnique | server/src/main/java/task/server/repository/TaskRepository.java:13 | With unique ids, each row's id finds exactly that row's position |
| TaskRepo.FindByTaskId | server/src/main/java/task/server/repository/TaskRepository.java:13 | Nothing exactly when no row has the id; otherwise a stored row with that id |
| TaskRepo.FindByTaskIdAndAssignedNodeId | server/src/main/java/task/server/repository/TaskRepository.java:12 | Nothing exactly when no row matches both id and node; otherwise a stored row matching both |
| TaskRepo.FindByTaskIdAndNode | server/src/main/java/task/server/repository/TaskRepository.java:12-13 | With unique ids, the two-key lookup is the id lookup restricted to the node |
| TaskRepo.Select | server/src/main/java/task/server/repository/TaskRepository.java:14-16 | A list query returns exactly the stored rows that match it, no more rows than stored |
| TaskRepo.SelectAppend | server/src/main/java/task/server/repository/TaskRepository.java:14-16 | A list query keeps table order: it distributes over concatenation |
| TaskRepo.SelectUnique | server/src/main/java/task/server/repository/TaskRepository.java:14-16 | The rows returned have unique ids |
| TaskRepo.ListQueries | server/src/main/java/task/server/repository/TaskRepository.java:14-16 | The three list queries return exactly the rows of the node, of the node with another status, and of the status updated strictly before the cutoff |
| TaskRepo.SavedSpec | server/src/main/java/task/server/entity/Task.java:21-34 | save keeps ids unique, writes the row under its id with createdOn kept on a merge and both stamps now on an insert, appends only unknown ids and leaves every other id's row as it was |
| TaskRepo.SavedAllTouches | server/src/main/java/task/server/service/TaskService.java:105-113 | Loading distinct rows, editing them and saving them back edits exactly those rows in place |
| TaskRepo.BulkPointwise | server/src/main/java/task/server/service/TaskService.java:105-113 | Select, edit and save-all changes exactly the matching rows, in place; order, length and unique ids are kept |
| TaskRepo.BulkPrefix | server/src/main/java/task/server/job/TaskTimeoutJob.java:33-37 | Saves that stop after the first k selected rows leave exactly those k rows edited |
| TaskRepo.TaskRepository.Save | server/src/main/java/task/server/entity/Task.java:21-34 | The table becomes Saved(old table, row, now), ids stay unique, and the row returned is the one written |
| TaskRepo.TaskRepository.Persist | server/src/main/java/task/server/entity/Task.java:21-41 | prePersist assigns the id and the row is inserted, stamped now; an id already stored is refused with DuplicateKey and the table is unchanged; ids stay unique |
| TaskRepo.TaskRepository.SaveAll | server/src/main/java/task/server/service/TaskService.java:113 | The table becomes the saves of the list one after another; ids stay unique |
| TaskLifecycle.ProjectSpec | server/src/main/java/task/server/service/TaskService.java:58-64 | A projection is never the empty DTO and its status text parses back to the task's status |
| TaskLifecycle.CreateUnknownNode | server/src/main/java/task/server/service/TaskService.java:32-33 | An unknown node is answered 400 "Node does not exist"; nothing is stored or published |
| TaskLifecycle.CreateAppendsOnePendingTask | server/src/main/java/task/server/service/TaskService.java:35-48 | Exactly one pending row with the requested type, details, node and fresh id is appended; one record keyed by the id goes to the node's topic, or the publisher's exception leaves the call |
| TaskLifecycle.CreateRefusesTakenId | server/src/main/java/task/server/service/TaskService.java:35-46 | For a known node, a UUID already stored makes the insert throw before anything is published, and the table is unchanged |
| TaskLifecycle.GetTaskByTaskId | server/src/main/java/task/server/service/TaskService.java:51-67 | The empty DTO exactly when no task has both the id and the caller's node; otherwise a DTO with that id and node |
| TaskLifecycle.GetTaskByTaskIdSpec | server/src/main/java/task/server/service/TaskService.java:54-66 | With unique ids, the projection exactly when the task exists and is the caller's, the empty DTO otherwise |
| TaskLifecycle.AllTasksForNodeSpec | server/src/main/java/task/server/service/TaskService.java:69-89 | Every DTO belongs to the caller with a parsable status; DTOs follow table order |
| TaskLifecycle.ReassignMissing | server/src/main/java/task/server/service/TaskService.java:92 | A missing id throws NoSuchElementException and changes nothing |
| TaskLifecycle.ReassignReopens | server/src/main/java/task/server/service/TaskService.java:91-102 | Any existing task, completed included, becomes pending on the new node with updatedOn now, in place, and is always published to the new node |
| TaskLifecycle.PublishLoopSpec | server/src/main/java/task/server/service/TaskService.java:115-118 | Over tasks that are not completed, the loop publishes each one in order, or fails at the first for a blank node |
| TaskLifecycle.PublishLoopAbsorbs | server/src/main/java/task/server/service/TaskService.java:115-118 | After the first exception the loop sends nothing more |
| TaskLifecycle.ReassignAllMovesExactly | server/src/main/java/task/server/service/TaskService.java:104-113 | Exactly the old node's non-completed tasks move, in place, to the new node as pending; all other rows are unchanged |
| TaskLifecycle.ReassignAllPublishes | server/src/main/java/task/server/service/TaskService.java:115-120 | One record per moved task, in table order, to the new node's topic and "OK"; a blank new node throws after the saves |
| TaskLifecycle.UpdateStatusKeepsCompleted | server/src/main/java/task/server/service/TaskService.java:124-130 | oldStatus "completed" (checked before the lookup) or a stored completed task: "Invalid status update" and nothing changes |
| TaskLifecycle.UpdateStatusOverwrites | server/src/main/java/task/server/service/TaskService.java:132-136 | Otherwise only that row's status and updatedOn change; nothing is published and the updated task is returned |
| TaskLifecycle.UpdateStatusIgnoresOldStatus | server/src/main/java/task/server/service/TaskService.java:124-132 | Any two accepted non-completed oldStatus values give the same effect |
| TaskLifecycle.UpdateStatusStaleOldStatus | server/src/main/java/task/server/service/TaskService.java:127-134 | A task stored as failed is moved even when the caller claims it was pending |
| TaskLifecycle.UpdateStatusBadName | server/src/main/java/task/server/service/TaskService.java:124-132 | An unknown status name changes no row; an unknown oldStatus throws at once |
| Coordinator.TaskService.CreateTask | server/src/main/java/task/server/service/TaskService.java:31-49 | Table, outbox and reply are those of the create specification, whose insert refuses a UUID already stored; task ids stay unique |
| Coordinator.TaskService.GetTaskByTaskId | server/src/main/java/task/server/service/TaskService.java:51-67 | Answers 200 with the DTO of the caller's task or the empty DTO |
| Coordinator.TaskService.GetAllTaskForNode | server/src/main/java/task/server/service/TaskService.java:69-89 | Answers 200 with one DTO per task of the caller, in table order |
| Coordinator.TaskService.ReassignTaskToDifferentNode | server/src/main/java/task/server/service/TaskService.java:91-102 | Table, outbox and reply are those of the reassign specification; task ids stay unique |
| Coordinator.TaskService.ReassignAllTaskToDifferentNode | server/src/main/java/task/server/service/TaskService.java:104-121 | Table, outbox and reply are those of the reassign-all specification; task ids stay unique |
| Coordinator.TaskService.MoveAll | server/src/main/java/task/server/service/TaskService.java:107-111 | Returns each listed task made pending on the new node, updated now |
| Coordinator.TaskService.PublishEach | server/src/main/java/task/server/service/TaskService.java:115-118 | Appends the publishing loop's records to the outbox and returns its first exception |
| Coordinator.TaskService.UpdateStatus | server/src/main/java/task/server/service/TaskService.java:123-137 | Table and reply are those of the update-status specification; nothing is published; task ids stay unique |
| TimeoutJob.TimeoutSelectsExactly | server/src/main/java/task/server/job/TaskTimeoutJob.java:29-36 | Exactly the in-progress tasks updated strictly before now - timeout become timed_out with updatedOn now; all other fields and rows are kept |
| TimeoutJob.TimeoutBoundaryUnchanged | server/src/main/java/task/server/job/TaskTimeoutJob.java:31 | A task updated exactly timeout seconds ago stays in progress |
| TimeoutJob.TimeoutIdempotent | server/src/main/java/task/server/job/TaskTimeoutJob.java:31-36 | A second run at the same time changes nothing |
| TimeoutJob.TimeoutPrefixKept | server/src/main/java/task/server/job/TaskTimeoutJob.java:33-37 | A save that throws part-way keeps the earlier saves and fails the run |
| TimeoutJob.TaskTimeoutJob.MarkTimedOutTasks | server/src/main/java/task/server/job/TaskTimeoutJob.java:28-38 | Table and outcome are those of the timeout specification; task ids stay unique |
| TimeoutJob.TaskTimeoutJob.MarkEach | server/src/main/java/task/server/job/TaskTimeoutJob.java:33-37 | The loop saves the stuck tasks one by one, stopping at the save that throws; task ids stay unique |
| NodeStore.FindByNodeId | server/src/main/java/task/server/repository/NodeRepository.java:11 | Nothing exactly when no node has the id; otherwise a stored node with that id |
| NodeStore.FindAfterAppend | server/src/main/java/task/server/service/NodeService.java:33 | A node appended under a fresh id is found by its id, and every other lookup is unchanged |
| NodeStore.FindActive | server/src/main/java/task/server/repository/NodeRepository.java:10 | Exactly the stored active nodes |
| NodeStore.NodeRepository.Save | server/src/main/java/task/server/service/NodeService.java:33 | Appends a node whose id is not taken, so ids stay unique |
| NodeRegistration.CreateAddsExactlyOneNode | server/src/main/java/task/server/service/NodeService.java:22-36 | A taken id: 400 "NodeId already taken", table unchanged; a free one: exactly one active node holding encode(secret) appended, ids unique, other lookups unchanged |
| NodeRegistration.NodeService.Create | server/src/main/java/task/server/service/NodeService.java:22-36 | Table and reply are those of the create specification; node ids stay unique |
| UserStore.FindByUsername | server/src/main/java/task/server/service/UserService.java:22 | Some exactly for a stored username, and then the stored user |
| UserStore.UserRepository.Save | server/src/main/java/task/server/service/UserService.java:31 | Stores the user under its username, so every user stays under its own name |
| UserRegistration.CreateAddsExactlyOneUser | server/src/main/java/task/server/service/UserService.java:21-33 | A taken name: 400 "Username is taken", table unchanged; a free one: exactly one enabled user with the name, role and encode(password) added, others unchanged |
| UserRegistration.UserService.Create | server/src/main/java/task/server/service/UserService.java:21-33 | Table and reply are those of the create specification; every user stays under its own name |
| JwtService.NodeClaims | server/src/main/java/task/server/security/JwtService.java:21-31 | iss issuer, sub node id, typ "node", no role, iat now, exp now + ttl |
| JwtService.UserClaims | server/src/main/java/task/server/security/JwtService.java:47-58 | iss issuer, sub user id, typ and role both the role, iat now, exp now + ttl |
| JwtService.ParseClaims | server/src/main/java/task/server/security/JwtService.java:60-67 | Accepts exactly a verified, unexpired token bearing the configured issuer, returning its claims; every failure is a JwtException |
| JwtService.ParseNodeId | server/src/main/java/task/server/security/JwtService.java:33-45 | Succeeds exactly when parseClaims does and typ is "node", yielding the subject |
| JwtService.NodeTokenRoundTrip | server/src/main/java/task/server/security/JwtService.java:21-45 | A node token reads back as its node id until it expires |
| JwtService.MintedTokenExpires | server/src/main/java/task/server/security/JwtService.java:60-67 | After its exp any signed token is refused as expired |
| JwtService.ForeignIssuerRejected | server/src/main/java/task/server/security/JwtService.java:60-67 | A token of another issuer is refused |
| JwtService.UserTokenAsNodeToken | server/src/main/java/task/server/security/JwtService.java:33-58 | parseNodeId accepts a user token exactly when its role is literally "node" |
| JwtAuthFilter.Classify | server/src/main/java/task/server/security/JwtAuthFilter.java:57-89 | An authentication exactly for a typ, a non-blank subject, and typ "node" or a user typ with a role; node gives the subject, user gives "ROLE_" + role |
| JwtAuthFilter.AuthPathsPassThrough | server/src/main/java/task/server/security/JwtAuthFilter.java:27-30 | Paths under /auth/ go down the chain untouched whatever the header, and an exception of the chain leaves the filter |
| JwtAuthFilter.ExistingAuthenticationKept | server/src/main/java/task/server/security/JwtAuthFilter.java:37-40 | A present authentication is kept and the header is not read; the chain runs outside the try, so its exception leaves the filter |
| JwtAuthFilter.ShortHeaderThrows | server/src/main/java/task/server/security/JwtAuthFilter.java:42-48 | A missing header or one shorter than seven characters throws instead of answering 401, and no authentication is set |
| JwtAuthFilter.ContinuesIffAuthenticated | server/src/main/java/task/server/security/JwtAuthFilter.java:50-93 | The chain runs exactly when an authentication was set, and the request passes exactly when moreover the chain returns normally; a status is always 401 |
| JwtAuthFilter.ChainFailureAnsweredUnauthorized | server/src/main/java/task/server/security/JwtAuthFilter.java:62-93 | A request that would pass, whose rest of the chain throws, is answered 401 by the catch with the authentication left set |
| JwtAuthFilter.Propagated | server/src/main/java/task/server/security/JwtAuthFilter.java:37-39 | Outside the try, the request passes exactly when the chain returns, and its exception leaves the filter |
| JwtAuthFilter.CaughtAsUnauthorized | server/src/main/java/task/server/security/JwtAuthFilter.java:90-93 | Inside the try nothing leaves the filter: the request passes exactly when the chain returns, otherwise 401 |
| JwtAuthFilter.NodeTokenAuthenticates | server/src/main/java/task/server/security/JwtAuthFilter.java:62-66 | An unexpired node token behind any seven characters authenticates the node with sole authority ROLE_NODE and runs the chain, an exception of it answered 401 |
| JwtAuthFilter.UserTokenClassified | server/src/main/java/task/server/security/JwtAuthFilter.java:62-89 | A user token is authenticated and runs the chain exactly for role "node" or a role containing "user" or "admin"; otherwise 401 with nothing set |
| JwtAuthFilter.UppercaseAdminIsNotUserTyp | server/src/main/java/task/server/security/JwtAuthFilter.java:69 | "ADMIN" contains neither "user" nor "admin" |
| JwtAuthFilter.UppercaseAdminTokenRefused | server/src/main/java/task/server/security/JwtAuthFilter.java:69-89 | A user whose role is "ADMIN" gets 401 |
| JwtAuthFilter.ExpiredTokenRefused | server/src/main/java/task/server/security/JwtAuthFilter.java:90-93 | An expired token gets 401 |
| JwtAuthFilter.AuthFilter.DoFilterInternal | server/src/main/java/task/server/security/JwtAuthFilter.java:33-94 | Context and outcome are those of the filter specification, for any result of the rest of the chain |
| JwtAuthFilter.AuthFilter.DoFilter | server/src/main/java/task/server/security/JwtAuthFilter.java:27-30 | Skips the /auth/ paths, otherwise runs doFilterInternal |
| AuthService.LoginNodeOutcomes | server/src/main/java/task/server/service/AuthService.java:38-59 | Succeeds exactly for a filled request naming an active node whose hash matches; "Node disabled" exactly for an inactive node; every other failure is "Invalid credentials" |
| AuthService.LoginNodeTokenIdentifiesNode | server/src/main/java/task/server/service/AuthService.java:57 | The token reads back as the node until it expires; expiringOn is the token's exp minus 60 s |
| AuthService.CreatedNodeCanLogIn | server/src/main/java/task/server/service/AuthService.java:54-58 | A node just registered with a non-blank id and secret logs in with that secret |
| AuthService.LoginOutcomes | server/src/main/java/task/server/service/AuthService.java:61-73 | Succeeds exactly for an enabled user whose hash matches; "Disabled" for a disabled user; otherwise "Invalid credentials" |
| AuthService.LoginTokenCarriesRole | server/src/main/java/task/server/service/AuthService.java:69-71 | The response echoes the role and its token carries the user id and role |
| AuthService.CreatedUserCanLogIn | server/src/main/java/task/server/service/AuthService.java:62-69 | A user just registered logs in with that password |
| Handshake.RefreshStartsTwoMinutesEarly | server/src/main/java/task/server/service/AuthService.java:57 | After a login answer the worker's cache is usable exactly until two minutes before the token's real expiry |
| Handshake.WorkerBearerAuthenticates | server/src/main/java/task/server/security/JwtAuthFilter.java:48-66 | "Bearer " + the login token authenticates the request as the node and runs the chain while unexpired |
| WorkerHttp.Transmit | worker/src/main/java/task/worker/utility/ServerApiClient.java:65 | Logs the request and takes the next scripted answer, or no answer once the script is exhausted |
| WorkerHttp.ExchangesAppend | worker/src/main/java/task/worker/utility/ServerApiClient.java:65 | The exchanges of two runs of requests are those of each, in order |
| WorkerHttp.RestTemplate.Send | worker/src/main/java/task/worker/utility/ServerApiClient.java:65 | The wire changes as Transmit says and the answer is returned |
| TokenManagement.Absorb | worker/src/main/java/task/worker/utility/TokenManager.java:53-66 | A passing login leaves both fields set |
| TokenManagement.LoginSpec | worker/src/main/java/task/worker/utility/TokenManager.java:37-67 | While expiringOn - 60 s is after now nothing is sent and login passes; otherwise exactly the credentials post is sent and its answer is absorbed as LoginAnswerEffect states |
| TokenManagement.ValidityBoundary | worker/src/main/java/task/worker/utility/TokenManager.java:31-39 | login's skip implies getValidToken's; at expiringOn - 60 = now getValidToken uses the cache but login fetches |
| TokenManagement.GetValidTokenPostsWhenStale | worker/src/main/java/task/worker/utility/TokenManager.java:29-41 | Whenever getValidToken logs in, exactly the credentials post is sent |
| TokenManagement.GetValidTokenReturnsCached | worker/src/main/java/task/worker/utility/TokenManager.java:29-35 | The token returned is the one cached; a usable cache is returned without any request |
| TokenManagement.InvalidatedLoginPosts | worker/src/main/java/task/worker/utility/TokenManager.java:37-72 | After invalidate, login always posts the credentials |
| TokenManagement.LoginAnswerEffect | worker/src/main/java/task/worker/utility/TokenManager.java:53-66 | No token: nothing changes and the call fails; a token is stored, with the parsed expiry, now + 55 min, or (malformed) the old expiry and a parse error |
| TokenManagement.UsableUntilMargin | worker/src/main/java/task/worker/utility/TokenManager.java:31 | An answered expiry t leaves the cache usable exactly up to t - 60 s |
| TokenManagement.TokenManager.GetValidToken | worker/src/main/java/task/worker/utility/TokenManager.java:29-35 | Cache, wire and result are those of the getValidToken specification |
| TokenManagement.TokenManager.Login | worker/src/main/java/task/worker/utility/TokenManager.java:37-67 | Cache, wire and outcome are those of the login specification |
| TokenManagement.TokenManager.Invalidate | worker/src/main/java/task/worker/utility/TokenManager.java:69-72 | Both fields become null |
| ServerApi.LoginSendsNoExchange | worker/src/main/java/task/worker/utility/TokenManager.java:37-67 | Logging in only extends the request log and sends no authenticated exchange |
| ServerApi.GetValidTokenSendsNoExchange | worker/src/main/java/task/worker/utility/TokenManager.java:29-41 | Getting a token, from the cache or by logging in, only extends the request log and sends no authenticated exchange |
| ServerApi.DoCallExchangeStep | worker/src/main/java/task/worker/utility/ServerApiClient.java:59-68 | After a successful token step doCall sends one exchange bearing the token and keeps the cache; after a failed one it sends nothing more |
| ServerApi.DoCallSendsOneExchange | worker/src/main/java/task/worker/utility/ServerApiClient.java:59-68 | At most one exchange; with a token, exactly one, last, bearing the token getValidToken returned |
| ServerApi.RetrySendsOneExchange | worker/src/main/java/task/worker/utility/ServerApiClient.java:51-55 | The retry after a 401 (logging in again, then one more doCall) sends at most one exchange |
| ServerApi.AtMostOneRetry | worker/src/main/java/task/worker/utility/ServerApiClient.java:48-57 | At most two exchanges, and a second only after the first call ended in 401 |
| ServerApi.OtherFailureNotRetried | worker/src/main/java/task/worker/utility/ServerApiClient.java:49-51 | A non-401 failure is passed on after one exchange, cache untouched |
| ServerApi.RetryBearsFreshToken | worker/src/main/java/task/worker/utility/ServerApiClient.java:51-55 | On a 401 the cache is cleared, the node logs in and the retry bears the new token; the retry's answer, 401 included, is the result |
| ServerApi.ServerApiClient.GetByTaskId | worker/src/main/java/task/worker/utility/ServerApiClient.java:29-32 | A GET of the task through callWithAuth, the body read as a task or null |
| ServerApi.ServerApiClient.GetAllForNode | worker/src/main/java/task/worker/utility/ServerApiClient.java:34-38 | A GET through callWithAuth; a null body is the empty list, an array its elements in order |
| ServerApi.ServerApiClient.UpdateStatus | worker/src/main/java/task/worker/utility/ServerApiClient.java:40-46 | A PUT with the three parameters through callWithAuth, body dropped |
| ServerApi.ServerApiClient.CallWithAuth | worker/src/main/java/task/worker/utility/ServerApiClient.java:48-57 | State and result are those of the callWithAuth specification |
| ServerApi.ServerApiClient.DoCall | worker/src/main/java/task/worker/utility/ServerApiClient.java:59-68 | State and result are those of the doCall specification |
| Consumer.AttemptReports | worker/src/main/java/task/worker/consumer/TaskConsumer.java:30-38 | Handler success reports completed (and failed only if that report throws); an exception reports failed, claiming in_progress only if fetched so |
| Consumer.ProcessWellFormed | worker/src/main/java/task/worker/consumer/TaskConsumer.java:26-38 | A task worked on sends well-ordered reports |
| Consumer.ReportsWellOrdered | worker/src/main/java/task/worker/consumer/TaskConsumer.java:21-39 | Every message reports in the order in_progress, completed, failed, each at most once and about its own task |
| Consumer.SkippedTaskNotReported | worker/src/main/java/task/worker/consumer/TaskConsumer.java:23-24 | A failed fetch, a null task or id, or a completed or timed-out task: no report |
| Consumer.PendingClaimedFirst | worker/src/main/java/task/worker/consumer/TaskConsumer.java:26-28 | A pending task is claimed first; a failing claim escapes and nothing more is sent |
| Consumer.NonPendingRunsUnclaimed | worker/src/main/java/task/worker/consumer/TaskConsumer.java:24-31 | Any other status, failed included, runs without a claim |
| Consumer.TaskConsumer.OnMessage | worker/src/main/java/task/worker/consumer/TaskConsumer.java:21-39 | State, reports and outcome are those of the onMessage specification over the worker's calls |
| Consumer.TaskConsumer.Process | worker/src/main/java/task/worker/consumer/TaskConsumer.java:26-38 | The claim and the try block, as specified |
| Consumer.TaskConsumer.Attempt | worker/src/main/java/task/worker/consumer/TaskConsumer.java:30-38 | The try block and its catch, as specified |
| Consumer.TaskConsumer.ReportFailure | worker/src/main/java/task/worker/consumer/TaskConsumer.java:35-38 | One failed report from the fetched status |
| TaskExecution.ExecuteOkIffKnown | worker/src/main/java/task/worker/executor/TaskExecutor.java:12-21 | Succeeds exactly for the four known types; unknown types throw IllegalArgumentException naming them, null throws NullPointerException |
| TaskExecution.ExecuteIgnoresDetails | worker/src/main/java/task/worker/executor/TaskExecutor.java:23-41 | The result depends on the type only |
| TaskExecution.ExecuteResultsDistinct | worker/src/main/java/task/worker/executor/TaskExecutor.java:23-41 | Different known types give different results |
| TaskExecution.ExecuteIsCaseSensitive | worker/src/main/java/task/worker/executor/TaskExecutor.java:14-19 | Every task type starting with a lower-case letter ("email_send") is unknown and yields the IllegalArgumentException naming it |

## Left out

- Concurrency:
  - `synchronized` and `volatile` in TokenManager, and single-flight login across threads;
  - Kafka listener concurrency;
  - the cron schedule of the timeout job.

  The model is single-threaded and sequential.
- The asynchronous send callback of KafkaPublisher, the root-cause loop and all logging (the executor's `println` included): these are I/O only.
- The controllers, GlobalExceptionHandler and KafkaConsumerConfig: they route, map errors and configure clients. The worker's topic rule is used once, in `WorkerTopicDiffersForUntrimmedId`.
- The HMAC signature, jjwt's compact format and parsing, bcrypt's hashing and salt, and UUID generation.
  - Only the assumptions stated above are used: the signer round trip, `matches(s, encode(s))` and the UUID form.
  - UUID freshness is never a precondition of the operations: a UUID that is already stored makes the insert fail (`CreateRefusesTakenId`).
- URL text, URLEncoder and JSON: requests are structured targets and answers are already decoded. An answer body of another shape reads as null.
- Clocks: each call reads the time once. The timeout job computes its cutoff and its updatedOn from separate `now()` calls, and the model uses one value for both.
- `TaskTimeoutJob.MarkTimedOutTasks`: is a failure only of `save`, at a given stuck-list position. Other database failures are not modelled.
- Null request fields that the code does not test are not modelled: the node id and secret given to node registration, the username, password and role given to user registration, and the username and password given to user login are plain strings. The fields it does test are modelled as options:
  - the node id and secret of loginNode;
  - the role claim in the filter;
  - the fetched task and its id in the consumer.
- Character classes: Java's `trim` drops characters up to U+0020 while `isBlank` uses `Character.isWhitespace`. The model uses one whitespace predicate for both, and has no UTF-16 surrogate handling in the regular expression.
- `Tasks.ValueOf`: TaskStatus.java is not part of this model. The enum's constant names are taken from their uses, and the exception message follows `Enum.valueOf`.
- The provisioner's `replicationFactor` is a Java `short`; the model uses an unbounded integer.
- Entities are values: the aliasing of the loaded JPA objects between the mutation loop, `saveAll` and the publishing loop is not modelled. The second loop reads the edited values, as the shared objects make them.
- Repository list order is taken as insertion order; a database may return rows in another order.
- The generated user id is a parameter of user creation.
- The single RestTemplate bean is shared by the client and the token manager, reached through the token manager.
- An inactive node or a changed secret after login is not modelled: tokens are never revoked server side.
