/** `UserMapper`: entity to DTO, create-DTO to a new entity, and the in-place
    update of an entity from an update-DTO. Java nulls are `None` / `null`. */
module Mapper {
  import opened Wrappers
  import opened Model

  /** The DTO of an entity state: every field copied unchanged. */
  function DtoOf(s: UserState): (d: UserDto)
    ensures d.id == s.id && d.name == s.name && d.email == s.email
    ensures d.age == s.age && d.createdAt == s.createdAt
  {
    UserDto(s.id, s.name, s.email, s.age, s.createdAt)
  }

  /** `toDto`: null maps to null, an entity to the DTO of its current state. */
  function ToDto(u: User?): (d: Option<UserDto>)
    reads u
    ensures d.None? <==> u == null
    ensures u != null ==> d.value.id == u.id && d.value.name == u.name && d.value.email == u.email
                          && d.value.age == u.age && d.value.createdAt == u.createdAt
  {
    if u == null then None else Some(DtoOf(u.State()))
  }

  /** What `toEntity` builds from a create-DTO: id and createdAt unset. */
  function NewState(d: UserCreateDto): (s: UserState)
    ensures s.id.None? && s.createdAt.None?
    ensures s.name == d.name && s.email == d.email && s.age == d.age
  {
    UserState(None, d.name, d.email, d.age, None)
  }

  /** `toEntity`: null maps to null; otherwise a new entity carrying the
      DTO's name, email and age. */
  method ToEntity(d: Option<UserCreateDto>) returns (u: User?)
    ensures u == null <==> d.None?
    ensures u != null ==> fresh(u) && u.State() == NewState(d.value)
  {
    if d.None? {
      return null;
    }
    u := new User();
    u.name := d.value.name;
    u.email := d.value.email;
    u.age := d.value.age;
  }

  /** The state `applyUpdate` leaves behind: name, email and age overwritten,
      id and createdAt kept. */
  function Updated(s: UserState, d: UserUpdateDto): (t: UserState)
    ensures t.id == s.id && t.createdAt == s.createdAt
    ensures t.name == d.name && t.email == d.email && t.age == d.age
  {
    s.(name := d.name, email := d.email, age := d.age)
  }

  /** Applying the same update twice is applying it once. */
  lemma UpdateIdempotent(s: UserState, d: UserUpdateDto)
    ensures Updated(Updated(s, d), d) == Updated(s, d)
  {
  }

  /** `applyUpdate`: with a null DTO or a null entity nothing changes;
      otherwise the entity takes the DTO's name, email and age in place. */
  method ApplyUpdate(d: Option<UserUpdateDto>, u: User?)
    modifies u
    ensures u != null && d.Some? ==> u.State() == Updated(old(u.State()), d.value)
    ensures u != null && d.None? ==> u.State() == old(u.State())
  {
    if d.None? || u == null {
      return;
    }
    u.name := d.value.name;
    u.email := d.value.email;
    u.age := d.value.age;
  }
}
