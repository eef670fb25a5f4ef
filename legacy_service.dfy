/** The older user store service (the root project's UserService): the same
    CRUD over the repository, with no event producer at all. It differs from
    the newer service in its Conflict message, which has no separator before
    the email, and in `deleteUser`, which asks `existsById` before deleting. */
module LegacyService {
  import opened Wrappers
  import opened Model
  import Mapper
  import opened Repository
  import opened Errors
  import Service

  /** `"Email already exists" + email`: no separator. */
  function LegacyConflictMessage(email: string): (m: string)
    ensures |m| == 20 + |email| && m[..20] == "Email already exists" && m[20..] == email
  {
    "Email already exists" + email
  }

  /** Both messages start with "Email already exists" and both name the
      email, yet for every email they differ: the newer one inserts ": ". */
  lemma ConflictMessagesCompared(email: string)
    ensures LegacyConflictMessage(email)[..20] == Service.ConflictMessage(email)[..20]
    ensures LegacyConflictMessage(email) != Service.ConflictMessage(email)
    ensures Service.ConflictMessage(email) == LegacyConflictMessage(email)[..20] + ": " + email
  {
  }

  class UserService {
    const repo: UserRepository

    ghost predicate Valid()
      reads this, repo
    {
      repo.Valid()
    }

    /** The repository is the only collaborator. */
    constructor (repo: UserRepository)
      requires repo.Valid()
      ensures Valid() && this.repo == repo
    {
      this.repo := repo;
    }

    /** `getAllUsers`: one DTO per stored user, in repository order. */
    method GetAllUsers() returns (r: seq<UserDto>)
      requires Valid()
      ensures |r| == |repo.order|
      ensures forall i :: 0 <= i < |r| ==> r[i] == Mapper.DtoOf(repo.rows[repo.order[i]])
      ensures forall id :: id in repo.rows ==> exists i :: 0 <= i < |r| && r[i].id == Some(id)
    {
      var all := repo.FindAll();
      ListingIsComplete(repo.rows, repo.order, repo.nextId);
      r := seq(|all|, i requires 0 <= i < |all| => Mapper.DtoOf(all[i]));
    }

    /** `getUserByID`: the stored user's DTO, or NotFound "User <id> not found". */
    method GetUserById(id: int) returns (r: Result<UserDto, ServiceError>)
      requires Valid()
      ensures r.Success? <==> id in repo.rows
      ensures r.Success? ==> r.value == Mapper.DtoOf(repo.rows[id])
      ensures r.Failure? ==> r.error == NotFound(NotFoundMessage(id))
    {
      var u := repo.FindById(id);
      if u == null {
        return Failure(NotFound(NotFoundMessage(id)));
      }
      r := Success(Mapper.ToDto(u).value);
    }

    /** `createUser`: a taken email is a Conflict with nothing saved;
        otherwise the entity built from the DTO is saved under a fresh id and
        the saved user's DTO is returned. */
    method CreateUser(dto: UserCreateDto, createdAt: LocalDateTime) returns (r: Result<UserDto, ServiceError>)
      requires Valid()
      modifies repo
      ensures Valid()
      ensures EmailTaken(old(repo.rows), dto.email) ==>
        r == Failure(Conflict(LegacyConflictMessage(dto.email))) && unchanged(repo)
      ensures !EmailTaken(old(repo.rows), dto.email) ==>
        var id := old(repo.nextId);
        var row := UserState(Some(id), dto.name, dto.email, dto.age, Some(createdAt));
        && id !in old(repo.rows)
        && repo.rows == old(repo.rows)[id := row]
        && repo.order == old(repo.order) + [id]
        && repo.nextId > old(repo.nextId)
        && r == Success(Mapper.DtoOf(row))
      ensures UniqueEmails(old(repo.rows)) ==> UniqueEmails(repo.rows)
    {
      if repo.ExistsByEmail(dto.email) {
        return Failure(Conflict(LegacyConflictMessage(dto.email)));
      }
      ghost var before := repo.rows;
      var u := Mapper.ToEntity(Some(dto));
      var saved := repo.Save(u, createdAt);
      if UniqueEmails(before) {
        InsertKeepsUnique(before, saved.id.value, saved.State());
      }
      r := Success(Mapper.ToDto(saved).value);
    }

    /** `updateUser`: NotFound for a missing id; Conflict only when the email
        changes to one already stored; otherwise the user is overwritten. */
    method UpdateUser(id: int, dto: UserUpdateDto, now: LocalDateTime) returns (r: Result<UserDto, ServiceError>)
      requires Valid()
      modifies repo
      ensures Valid()
      ensures id !in old(repo.rows) ==>
        r == Failure(NotFound(NotFoundMessage(id))) && unchanged(repo)
      ensures id in old(repo.rows) && old(repo.rows)[id].email != dto.email
              && EmailTaken(old(repo.rows), dto.email) ==>
        r == Failure(Conflict(LegacyConflictMessage(dto.email))) && unchanged(repo)
      ensures id in old(repo.rows)
              && (old(repo.rows)[id].email == dto.email || !EmailTaken(old(repo.rows), dto.email)) ==>
        var row := Mapper.Updated(old(repo.rows)[id], dto);
        && repo.rows == old(repo.rows)[id := row]
        && repo.order == old(repo.order)
        && repo.nextId == old(repo.nextId)
        && r == Success(Mapper.DtoOf(row))
      ensures UniqueEmails(old(repo.rows)) ==> UniqueEmails(repo.rows)
    {
      var u := repo.FindById(id);
      if u == null {
        return Failure(NotFound(NotFoundMessage(id)));
      }
      if u.email != dto.email && repo.ExistsByEmail(dto.email) {
        return Failure(Conflict(LegacyConflictMessage(dto.email)));
      }
      ghost var before := repo.rows;
      Mapper.ApplyUpdate(Some(dto), u);
      // `u` carries its id, so `save` overwrites and never reads `now`;
      // `now` stands for the clock `save` would read had it inserted.
      var saved := repo.Save(u, now);
      if UniqueEmails(before) {
        OverwriteKeepsUnique(before, id, saved.State());
      }
      r := Success(Mapper.ToDto(saved).value);
    }

    /** `deleteUser`: `existsById` first; when absent NotFound and
        `deleteById` is never reached, when present exactly that id is deleted. */
    method DeleteUser(id: int) returns (r: Outcome<ServiceError>)
      requires Valid()
      modifies repo
      ensures Valid()
      ensures id !in old(repo.rows) ==> r == Fail(NotFound(NotFoundMessage(id))) && unchanged(repo)
      ensures id in old(repo.rows) ==>
        && r == Pass
        && repo.rows == old(repo.rows) - {id}
        && repo.order == Without(old(repo.order), id)
        && repo.nextId == old(repo.nextId)
    {
      if !repo.ExistsById(id) {
        return Fail(NotFound(NotFoundMessage(id)));
      }
      repo.DeleteById(id);
      r := Pass;
    }
  }
}
