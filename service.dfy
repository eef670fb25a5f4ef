/** The user store service of services/userdb-api: CRUD over the repository,
    with one lifecycle event handed to the producer after each successful
    create and delete. The clock readings, the event's UUID and the broker's
    eventual answer are inputs. */
module Service {
  import opened Wrappers
  import opened Model
  import Mapper
  import opened Repository
  import opened Events
  import opened Producer
  import opened Errors

  /** The `source` tag of every event this service emits. */
  const Source: string := "userdb-api"

  /** `"Email already exists: %s".formatted(email)`. */
  function ConflictMessage(email: string): (m: string)
    ensures |m| == 22 + |email| && m[..22] == "Email already exists: " && m[22..] == email
  {
    "Email already exists: " + email
  }

  class UserService {
    const repo: UserRepository
    const producer: UserEventProducer

    ghost predicate Valid()
      reads this, repo
    {
      repo.Valid()
    }

    constructor (repo: UserRepository, producer: UserEventProducer)
      requires repo.Valid()
      ensures Valid() && this.repo == repo && this.producer == producer
    {
      this.repo := repo;
      this.producer := producer;
    }

    /** `getAllUsers`: one DTO per stored user, in repository order. */
    method GetAllUsers() returns (r: seq<UserDto>)
      requires Valid()
      ensures |r| == |repo.order|
      ensures forall i :: 0 <= i < |r| ==> r[i] == Mapper.DtoOf(repo.rows[repo.order[i]])
      ensures forall id :: id in repo.rows ==> exists i :: 0 <= i < |r| && r[i].id == Some(id)
      ensures forall i, j :: 0 <= i < j < |r| ==> r[i].id != r[j].id
    {
      var all := repo.FindAll();
      ListingIsComplete(repo.rows, repo.order, repo.nextId);
      r := seq(|all|, i requires 0 <= i < |all| => Mapper.DtoOf(all[i]));
    }

    /** `getUserByID`: the stored user's DTO, or NotFound. */
    method GetUserById(id: int) returns (r: Result<UserDto, ServiceError>)
      requires Valid()
      ensures r.Success? <==> id in repo.rows
      ensures r.Success? ==> r.value == Mapper.DtoOf(repo.rows[id])
      ensures r.Failure? ==> r.error == NotFound(NotFoundMessage(id))
    {
      var u := repo.FindById(id);
      if u == null {
        return Failure(NotFound(NotFoundMessage(id)));
      }
      r := Success(Mapper.ToDto(u).value);
    }

    /** `createUser`: a taken email is a Conflict with nothing saved and
        nothing sent; otherwise the user is saved under a fresh id, exactly
        one USER_CREATED event carrying that id and the saved email is handed
        to the producer, and the saved user's DTO is returned. A failed
        delivery does not fail the call. */
    method CreateUser(dto: UserCreateDto, createdAt: LocalDateTime,
                      eventId: string, occurredAt: Instant, delivery: Delivery)
      returns (r: Result<UserDto, ServiceError>)
      requires Valid()
      modifies repo, producer.template
      ensures Valid()
      ensures EmailTaken(old(repo.rows), dto.email) ==>
        && r == Failure(Conflict(ConflictMessage(dto.email)))
        && unchanged(repo)
        && producer.template.records == old(producer.template.records)
      ensures !EmailTaken(old(repo.rows), dto.email) ==>
        var id := old(repo.nextId);
        var row := UserState(Some(id), dto.name, dto.email, dto.age, Some(createdAt));
        && id !in old(repo.rows)
        && repo.rows == old(repo.rows)[id := row]
        && repo.order == old(repo.order) + [id]
        && repo.nextId > old(repo.nextId)
        && r == Success(Mapper.DtoOf(row))
        && producer.template.records == old(producer.template.records) +
             [ProducerRecord(producer.topic, RecordKey(Some(id)),
                             Created(eventId, Some(id), dto.email, Source, occurredAt))]
      ensures r.Success? ==>
        && |producer.template.records| == |old(producer.template.records)| + 1
        && var sent := producer.template.records[|old(producer.template.records)|].value;
           sent.userId == r.value.id && sent.email == r.value.email && sent.eventType == UserCreated
      ensures UniqueEmails(old(repo.rows)) ==> UniqueEmails(repo.rows)
    {
      if repo.ExistsByEmail(dto.email) {
        return Failure(Conflict(ConflictMessage(dto.email)));
      }
      ghost var before := repo.rows;
      var u := Mapper.ToEntity(Some(dto));
      var saved := repo.Save(u, createdAt);
      if UniqueEmails(before) {
        InsertKeepsUnique(before, saved.id.value, saved.State());
      }
      var event := Created(eventId, saved.id, saved.email, Source, occurredAt);
      var future := producer.Send(event, delivery);
      r := Success(Mapper.ToDto(saved).value);
    }

    /** `updateUser`: NotFound for a missing id; Conflict only when the email
        changes to one already stored; otherwise name, email and age are
        overwritten and the updated user's DTO is returned. Never emits an event. */
    method UpdateUser(id: int, dto: UserUpdateDto, now: LocalDateTime)
      returns (r: Result<UserDto, ServiceError>)
      requires Valid()
      modifies repo
      ensures Valid()
      ensures unchanged(producer.template)
      ensures id !in old(repo.rows) ==>
        r == Failure(NotFound(NotFoundMessage(id))) && unchanged(repo)
      ensures id in old(repo.rows) && old(repo.rows)[id].email != dto.email
              && EmailTaken(old(repo.rows), dto.email) ==>
        r == Failure(Conflict(ConflictMessage(dto.email))) && unchanged(repo)
      ensures id in old(repo.rows)
              && (old(repo.rows)[id].email == dto.email || !EmailTaken(old(repo.rows), dto.email)) ==>
        var row := Mapper.Updated(old(repo.rows)[id], dto);
        && repo.rows == old(repo.rows)[id := row]
        && repo.order == old(repo.order)
        && repo.nextId == old(repo.nextId)
        && r == Success(Mapper.DtoOf(row))
      ensures UniqueEmails(old(repo.rows)) ==> UniqueEmails(repo.rows)
    {
      var u := repo.FindById(id);
      if u == null {
        return Failure(NotFound(NotFoundMessage(id)));
      }
      if u.email != dto.email && repo.ExistsByEmail(dto.email) {
        return Failure(Conflict(ConflictMessage(dto.email)));
      }
      ghost var before := repo.rows;
      Mapper.ApplyUpdate(Some(dto), u);
      // `u` carries its id, so `save` overwrites and never reads `now`;
      // `now` stands for the clock `save` would read had it inserted.
      var saved := repo.Save(u, now);
      if UniqueEmails(before) {
        OverwriteKeepsUnique(before, id, saved.State());
      }
      r := Success(Mapper.ToDto(saved).value);
    }

    /** `deleteUser`: NotFound with no delete and no event for a missing id;
        otherwise the row is removed and then exactly one USER_DELETED event
        carrying the id and the email the user had is handed to the producer. */
    method DeleteUser(id: int, eventId: string, occurredAt: Instant, delivery: Delivery)
      returns (r: Outcome<ServiceError>)
      requires Valid()
      modifies repo, producer.template
      ensures Valid()
      ensures id !in old(repo.rows) ==>
        && r == Fail(NotFound(NotFoundMessage(id)))
        && unchanged(repo)
        && producer.template.records == old(producer.template.records)
      ensures id in old(repo.rows) ==>
        && r == Pass
        && repo.rows == old(repo.rows) - {id}
        && repo.order == Without(old(repo.order), id)
        && repo.nextId == old(repo.nextId)
        && producer.template.records == old(producer.template.records) +
             [ProducerRecord(producer.topic, RecordKey(Some(id)),
                             Deleted(eventId, Some(id), old(repo.rows)[id].email, Source, occurredAt))]
    {
      var u := repo.FindById(id);
      if u == null {
        return Fail(NotFound(NotFoundMessage(id)));
      }
      repo.DeleteById(id);
      var event := Deleted(eventId, Some(id), u.email, Source, occurredAt);
      var future := producer.Send(event, delivery);
      r := Pass;
    }
  }
}

/** A client of the service: on an empty store, create, delete and create
    again; the second user gets a new id, and so a new record key. */
module ServiceClient {
  import opened Wrappers
  import opened Model
  import opened Repository
  import opened Producer
  import opened Service

  method IdsAreNotReused(dto: UserCreateDto, now: LocalDateTime, delivery: Delivery)
  {
    var repo := new UserRepository();
    var template := new KafkaTemplate();
    var producer := new UserEventProducer(template, None);
    var service := new UserService(repo, producer);
    var r1 := service.CreateUser(dto, now, "e1", 0, delivery);
    assert r1.Success?;
    var id1 := r1.value.id.value;
    var d := service.DeleteUser(id1, "e2", 1, delivery);
    assert d == Pass && repo.rows == map[];
    var r3 := service.CreateUser(dto, now, "e3", 2, delivery);
    assert r3.Success? && r3.value.id.value != id1;
    assert RecordKey(r3.value.id) != RecordKey(r1.value.id) by {
      RecordKeyInjective(r3.value.id, r1.value.id);
    }
    assert |template.records| == 3;
  }
}
