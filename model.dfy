/** The user entity and the DTOs that cross the HTTP boundary. The entity is
    a mutable object (setters, in-place update); DTOs are Java records, so
    values. Timestamps are opaque numbers supplied by the caller. */
module Model {
  import opened Wrappers

  /** `LocalDateTime` of the entity's `createdAt`. */
  type LocalDateTime = int

  /** The fields of a `User` at one moment: what the table stores per row. */
  datatype UserState = UserState(
    id: Option<int>,
    name: string,
    email: string,
    age: int,
    createdAt: Option<LocalDateTime>)

  /** The JPA entity `User`. `id` and `createdAt` stay unset until the
      persistence layer assigns them. */
  class User {
    var id: Option<int>
    var name: string
    var email: string
    var age: int
    var createdAt: Option<LocalDateTime>

    /** `new User()`: nothing set yet. */
    constructor ()
      ensures id.None? && createdAt.None?
    {
      id := None;
      name := "";
      email := "";
      age := 0;
      createdAt := None;
    }

    function State(): UserState
      reads this
    {
      UserState(id, name, email, age, createdAt)
    }
  }

  /** `UserDto(id, name, email, age, createdAt)`. */
  datatype UserDto = UserDto(
    id: Option<int>,
    name: string,
    email: string,
    age: int,
    createdAt: Option<LocalDateTime>)

  /** `UserCreateDto(name, email, age)`; its validation annotations are the framework's. */
  datatype UserCreateDto = UserCreateDto(name: string, email: string, age: int)

  /** `UserUpdateDto(name, email, age)`. */
  datatype UserUpdateDto = UserUpdateDto(name: string, email: string, age: int)
}
