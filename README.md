# User lifecycle pipeline — a Dafny model

This project models the core of the user platform: the user store service of
`userdb-api` (CRUD over the user table, with one lifecycle event per
successful create or delete), the older root-project user service (the same
CRUD, no events), the `UserEvent` factories, the `UserEventProducer` keying
and hand-off, the notification service's `MailService`, the `UserMapper`
field copies and in-place update, and the API gateway's `FallbackController`.

Every external collaborator is plain state:

- the JPA `UserRepository` is a map from id to the stored row, the ids in
  insertion order, and the next id the identity column issues
  (`Repository.UserRepository`);
- the `KafkaTemplate` is the log of (topic, key, event) records handed to it
  (`Producer.KafkaTemplate.records`); how the broker later answers is an input;
- the `JavaMailSender` is the log of attempted and of delivered messages
  (`Mail.MailSender`); whether the transport is up is an input;
- `UUID.randomUUID`, `Instant.now`, `OffsetDateTime.now` and the
  persistence layer's creation timestamp are parameters.

Modules: `Wrappers` (Option/Result/Outcome), `Decimal` (Java's decimal
rendering of a `long` and its inverse), `Model` (the `User` entity class and
the DTO records), `Mapper`, `Repository`, `Events`, `Producer`, `Errors`
(the two exceptions and the shared not-found message), `Service`,
`LegacyService`, `Mail`, `Gateway`.

The mail subjects are the Russian literals of the code, "Аккаунт создан" and
"Аккаунт удалён". The mail service switches over a closed two-value enum, so
no unknown event type can reach its `default` branch. Consumer
acknowledgement and redelivery are broker configuration, not code in this
repository, so they are not modelled.

## Model

| member | source | states |
|---|---|---|
| Decimal.NatRoundTrip | services/userdb-api/src/main/java/org/example/userdbapi/events/UserEventProducer.java:24 | reading back the digits of a non-negative number gives the number |
| Decimal.LongToString | services/userdb-api/src/main/java/org/example/userdbapi/events/UserEventProducer.java:24 | `String.valueOf(long)`: never empty, and it starts with a digit exactly when the number is non-negative (a '-' otherwise) |
| Decimal.LongRoundTrip | services/userdb-api/src/main/java/org/example/userdbapi/events/UserEventProducer.java:24 | `Long.parseLong(String.valueOf(n)) == n` for every n, negative included |
| Decimal.LongToStringInjective | services/userdb-api/src/main/java/org/example/userdbapi/events/UserEventProducer.java:24 | two numbers have the same decimal form exactly when they are equal |
| Producer.RecordKey | services/userdb-api/src/main/java/org/example/userdbapi/events/UserEventProducer.java:24 | the key is "null" exactly for a null userId; otherwise it parses back to the userId |
| Producer.RecordKeyInjective | services/userdb-api/src/main/java/org/example/userdbapi/events/UserEventProducer.java:24 | equal userIds give equal keys and distinct userIds distinct keys |
| Producer.RecordKeyExamples | services/userdb-api/src/test/java/org/example/userdbapi/events/UserEventProducerTest.java:32-58 | 42 keys as "42", 7 as "7", null as "null" |
| Producer.UserEventProducer.constructor | services/userdb-api/src/main/java/org/example/userdbapi/events/UserEventProducer.java:20-21 | the topic is the configured one, "user.account" when none is configured |
| Producer.KafkaTemplate.Send | services/userdb-api/src/main/java/org/example/userdbapi/events/UserEventProducer.java:28 | one record appended to the template's log; the future completes as the broker answers |
| Producer.UserEventProducer.Send | services/userdb-api/src/main/java/org/example/userdbapi/events/UserEventProducer.java:23-39 | exactly one hand-off of (configured topic, key of the userId, the unchanged event); the template's future is returned as it is; it is failed exactly when delivery failed, and `send` itself never fails |
| Events.Created | services/userdb-api/src/main/java/org/example/userdbapi/events/UserEvent.java:23-32 | type USER_CREATED; userId, email, source copied; eventId and occurredAt are the fresh UUID and the clock reading |
| Events.Deleted | services/userdb-api/src/main/java/org/example/userdbapi/events/UserEvent.java:34-43 | type USER_DELETED; the same three fields copied; eventId and occurredAt from the UUID and the clock |
| Events.FactoriesDistinguish | services/userdb-api/src/main/java/org/example/userdbapi/events/UserEvent.java:14-43 | a created event never equals a deleted one; factory calls given distinct UUIDs build distinct events |
| Mapper.ToDto | services/userdb-api/src/main/java/org/example/userdbapi/mapper/UserMapper.java:14-18 | null maps to null; otherwise id, name, email, age and createdAt are copied unchanged |
| Mapper.ToEntity | services/userdb-api/src/main/java/org/example/userdbapi/mapper/UserMapper.java:21-29 | null maps to null; otherwise a new entity with the DTO's name, email and age and no id or createdAt |
| Mapper.Updated | services/userdb-api/src/main/java/org/example/userdbapi/mapper/UserMapper.java:33-35 | name, email and age come from the DTO; id and createdAt are kept |
| Mapper.ApplyUpdate | services/userdb-api/src/main/java/org/example/userdbapi/mapper/UserMapper.java:31-37 | null DTO or null entity: nothing changes; otherwise the entity's state becomes `Updated` of its old state, in place |
| Mapper.UpdateIdempotent | services/userdb-api/src/main/java/org/example/userdbapi/mapper/UserMapper.java:33-35 | applying the same update twice equals applying it once |
| Repository.UserRepository.FindAll | src/main/java/org/example/userdbapi/repository/UserRepository.java:9 | the stored rows, in insertion order |
| Model.User.constructor | services/userdb-api/src/main/java/org/example/userdbapi/mapper/UserMapper.java:23 | `new User()`: no id and no createdAt yet |
| Repository.UserRepository.ExistsById | src/main/java/org/example/userdbapi/service/UserService.java:66 | `existsById`: true exactly when a row is stored under the id |
| Repository.UserRepository.ExistsByEmail | src/main/java/org/example/userdbapi/repository/UserRepository.java:10 | `existsByEmail`: true exactly when some stored row carries the email |
| Repository.UserRepository.FindById | src/main/java/org/example/userdbapi/repository/UserRepository.java:9 | null exactly when the id is absent; otherwise a new entity holding the stored row |
| Repository.UserRepository.Save | src/main/java/org/example/userdbapi/repository/UserRepository.java:9 | an entity without id is inserted under the next id (never used before), the counter moves past it, and the entity is stamped; an entity with id overwrites its row and the counter stays above every stored id; the same entity is returned; the table invariant is kept |
| Repository.UserRepository.DeleteById | src/main/java/org/example/userdbapi/repository/UserRepository.java:9 | exactly that id leaves the table and the listing; the invariant is kept |
| Repository.ListingIsComplete | services/userdb-api/src/main/java/org/example/userdbapi/service/UserService.java:30-38 | the listing holds every stored user exactly once |
| Repository.InsertKeepsUnique | services/userdb-api/src/main/java/org/example/userdbapi/service/UserService.java:47-52 | inserting a user whose email is free keeps emails unique |
| Repository.OverwriteKeepsUnique | services/userdb-api/src/main/java/org/example/userdbapi/service/UserService.java:64-73 | overwriting a user with an unchanged or free email keeps emails unique |
| Errors.NotFoundMessage | services/userdb-api/src/main/java/org/example/userdbapi/service/UserService.java:43 | "User <id> not found"; its length is the id's decimal length plus 15 |
| Errors.NotFoundMessageInjective | services/userdb-api/src/main/java/org/example/userdbapi/service/UserService.java:43 | "User <id> not found" names the id: distinct ids give distinct messages |
| Service.ConflictMessage | services/userdb-api/src/main/java/org/example/userdbapi/service/UserService.java:49 | "Email already exists: " followed by the email, which can be read back |
| Service.UserService.GetAllUsers | services/userdb-api/src/main/java/org/example/userdbapi/service/UserService.java:30-38 | one DTO per stored user, in repository order, no id twice; read-only |
| Service.UserService.GetUserById | services/userdb-api/src/main/java/org/example/userdbapi/service/UserService.java:40-45 | the stored user's DTO exactly when the id is present, NotFound "User <id> not found" otherwise; read-only |
| Service.UserService.CreateUser | services/userdb-api/src/main/java/org/example/userdbapi/service/UserService.java:47-62 | taken email: Conflict, store and event log unchanged; otherwise one row under a fresh id, one USER_CREATED event with that id, the saved email and source "userdb-api", and the returned DTO's id equals the event's userId; the id counter advances, so a deleted user's id is never issued again; email uniqueness kept |
| Service.UserService.UpdateUser | services/userdb-api/src/main/java/org/example/userdbapi/service/UserService.java:64-76 | NotFound for a missing id; Conflict exactly when the email changes to a taken one, saving nothing; otherwise the row is overwritten and the id counter kept; never an event |
| Service.UserService.DeleteUser | services/userdb-api/src/main/java/org/example/userdbapi/service/UserService.java:78-90 | missing id: NotFound, no delete, no event; otherwise the row is removed, the id counter kept, and one USER_DELETED event carries the id and the email the user had |
| LegacyService.UserService.constructor | src/main/java/org/example/userdbapi/service/UserService.java:27-29 | the repository is the service's only collaborator |
| LegacyService.LegacyConflictMessage | src/main/java/org/example/userdbapi/service/UserService.java:46 | "Email already exists" directly followed by the email |
| LegacyService.ConflictMessagesCompared | src/main/java/org/example/userdbapi/service/UserService.java:46 | the legacy and newer Conflict messages share the prefix yet always differ: the newer one inserts ": " |
| LegacyService.UserService.GetAllUsers | src/main/java/org/example/userdbapi/service/UserService.java:31-36 | one DTO per stored user, in repository order |
| LegacyService.UserService.GetUserById | src/main/java/org/example/userdbapi/service/UserService.java:38-42 | the stored user's DTO, or NotFound "User <id> not found" |
| LegacyService.UserService.CreateUser | src/main/java/org/example/userdbapi/service/UserService.java:44-51 | taken email: Conflict with the unseparated message and nothing saved; otherwise the entity built from the DTO is saved under a fresh id and its DTO returned |
| LegacyService.UserService.UpdateUser | src/main/java/org/example/userdbapi/service/UserService.java:53-63 | NotFound for a missing id; Conflict exactly when the email changes to a taken one; otherwise the row is overwritten |
| LegacyService.UserService.DeleteUser | src/main/java/org/example/userdbapi/service/UserService.java:65-71 | absent id: NotFound and the table untouched; present id: exactly that id deleted |
| Mail.Template | services/notification-service/src/main/java/org/example/notificationservice/mail/MailService.java:21-34 | USER_CREATED maps to "Аккаунт создан" and the creation text, USER_DELETED to "Аккаунт удалён" and the deletion text |
| Mail.MessageFor | services/notification-service/src/main/java/org/example/notificationservice/mail/MailService.java:17-37 | the message goes to the event's email with the subject and text of its type |
| Mail.SubjectIdentifiesType | services/notification-service/src/main/java/org/example/notificationservice/mail/MailService.java:22-29 | two types have the same subject exactly when they are the same type |
| Mail.LifecycleEventMail | services/notification-service/src/test/java/org/example/notificationservice/it/NotificationServiceKafkaMailIT.java:64-78 | a created (deleted) event becomes a mail to its email with the creation (deletion) subject and text |
| Mail.MailSender.Send | services/notification-service/src/main/java/org/example/notificationservice/mail/MailService.java:44 | one attempt; delivered when the transport is up, a MailError otherwise |
| Mail.MailService.SendPlain | services/notification-service/src/main/java/org/example/notificationservice/mail/MailService.java:39-46 | exactly one send of (to, subject, text); a transport failure propagates with no second attempt |
| Mail.MailService.SendFor | services/notification-service/src/main/java/org/example/notificationservice/mail/MailService.java:17-37 | exactly one send, of `MessageFor(event)`; succeeds exactly when the transport is up, and otherwise returns the sender's error unchanged |
| Gateway.Build | services/api-gateway/src/main/java/org/example/apigateway/FallbackController.java:38-49 | the body has exactly six keys; "status" is the chosen code, "method" and "path" echo the request, "source" is "gateway-fallback" |
| Gateway.UsersFallback | services/api-gateway/src/main/java/org/example/apigateway/FallbackController.java:16-21 | always 503 with the user-service message; method and path echoed, source "gateway-fallback" |
| Gateway.NotificationsFallback | services/api-gateway/src/main/java/org/example/apigateway/FallbackController.java:23-36 | 202 exactly for POST, 503 otherwise; the "accepted by the gateway" message exactly when the status is 202 |

## Left out

- Kafka plumbing: JSON serialisation, `KafkaTopicsConfig`, listener registration, the `thenAccept`/`exceptionally` callbacks (they only log). The broker's answer is an input of `Send`.
- `NotificationListener.onUserEvent` and `ManualMailController.sendMail`: one-line forwards into `sendFor`, whose behaviour `Mail.MailService.SendFor` states. The manual path's event, which lacks eventId, userId, occurredAt and source, is not modelled.
- The notification service has its own `UserEvent` class with the same fields and enum; the model uses `Events.UserEvent` for both services.
- Mail.MailService.SendFor: the event type is a non-null enum value in the model; Java's NullPointerException on a null type is not modelled, and the enum's `default` branch has no case because the enum is closed.
- HTTP surface: controllers, HATEOAS assembler, exception handlers, error records, OpenAPI configuration. Bean-validation annotations on DTOs are not checked.
- Logging, transactions (`@Transactional`) and persistence failures.
- Clocks and randomness: UUIDs, `Instant.now`, `OffsetDateTime.now` and the creation timestamp are parameters; their uniqueness is the generator's, and the model proves only that distinct UUIDs give distinct events.
- Ids are unbounded integers: the 64-bit width of `Long` is not modelled.
- The Java sources of the `User` entity and of the legacy `UserMapper` are not part of this model. `Model.User` takes its field set from `UserDto`, and the legacy service is assumed to map exactly like the newer mapper. How `createdAt` is filled is also assumed: the model stamps it when a row is first inserted.
- `%d` in the not-found message is rendered with ASCII digits; a locale with other digits is not modelled.
- The `now` argument of both `UpdateUser`s is the clock `save` would read on an insert; on the update path `save` overwrites and does not read it.
- Repository.UserRepository.Save: an entity carrying an id absent from the table is inserted under that id. With a generated id, JPA would issue a new one. Neither service saves such an entity.
- Repository.UserRepository.FindAll: JPA gives no ordering guarantee; the model lists rows in insertion order.
