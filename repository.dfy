/** `UserRepository` (a Spring Data JPA repository) as plain state: a map
    from id to the stored row, the ids in insertion order (the order
    `findAll` lists them in), and the next id the identity column hands out. */
module Repository {
  import opened Wrappers
  import opened Model

  type Rows = map<int, UserState>

  /** No id occurs twice. */
  predicate Distinct(order: seq<int>) {
    forall i, j :: 0 <= i < j < |order| ==> order[i] != order[j]
  }

  /** The table's invariant: `order` lists every stored id exactly once, ids
      are below the next id to be issued, and each row carries its own id. */
  ghost predicate StoreValid(rows: Rows, order: seq<int>, nextId: int) {
    && (forall i :: 0 <= i < |order| ==> order[i] in rows)
    && (forall k :: k in rows ==> k in order)
    && Distinct(order)
    && (forall k :: k in rows ==> k < nextId && rows[k].id == Some(k))
  }

  /** `existsByEmail` as a query over the stored rows. */
  predicate EmailTaken(rows: Rows, email: string) {
    exists k | k in rows :: rows[k].email == email
  }

  /** No two stored users share an email. */
  ghost predicate UniqueEmails(rows: Rows) {
    forall a, b :: a in rows && b in rows && rows[a].email == rows[b].email ==> a == b
  }

  /** The rows in the order `order` names them. */
  function Listing(rows: Rows, order: seq<int>): (r: seq<UserState>)
    requires forall i :: 0 <= i < |order| ==> order[i] in rows
    ensures |r| == |order|
    ensures forall i :: 0 <= i < |order| ==> r[i] == rows[order[i]]
  {
    seq(|order|, i requires 0 <= i < |order| => rows[order[i]])
  }

  lemma ConsDistinct(x: int, s: seq<int>)
    requires Distinct(s) && x !in s
    ensures Distinct([x] + s)
  {
    var r := [x] + s;
    forall i, j | 0 <= i < j < |r| ensures r[i] != r[j] {
      if i == 0 {
        assert r[j] == s[j - 1];
      } else {
        assert r[i] == s[i - 1] && r[j] == s[j - 1];
      }
    }
  }

  /** `order` with `id` taken out; taking an id out keeps the others distinct. */
  function Without(order: seq<int>, id: int): (r: seq<int>)
    ensures forall k :: k in r <==> k in order && k != id
    ensures forall i :: 0 <= i < |r| ==> r[i] in order && r[i] != id
    ensures Distinct(order) ==> Distinct(r)
  {
    if order == [] then []
    else if order[0] == id then Without(order[1..], id)
    else
      var rest := Without(order[1..], id);
      if Distinct(order) then
        assert order[0] !in order[1..];
        ConsDistinct(order[0], rest);
        [order[0]] + rest
      else
        [order[0]] + rest
  }

  /** `findAll` lists every stored user exactly once. */
  lemma ListingIsComplete(rows: Rows, order: seq<int>, nextId: int)
    requires StoreValid(rows, order, nextId)
    ensures forall id :: id in rows ==>
      exists i :: 0 <= i < |order| && Listing(rows, order)[i].id == Some(id)
    ensures var r := Listing(rows, order);
      forall i, j :: 0 <= i < j < |r| ==> r[i].id != r[j].id
  {
    var r := Listing(rows, order);
    forall id | id in rows ensures exists i :: 0 <= i < |order| && Listing(rows, order)[i].id == Some(id) {
      var i := IndexOf(order, id);
      assert r[i] == rows[id];
      assert 0 <= i < |order| && Listing(rows, order)[i].id == Some(id);
    }
    forall i, j | 0 <= i < j < |r| ensures r[i].id != r[j].id {
      assert r[i] == rows[order[i]] && r[j] == rows[order[j]];
      assert order[i] != order[j];
    }
  }

  /** A position of `x` in `s`. */
  lemma IndexOf(s: seq<int>, x: int) returns (i: nat)
    requires x in s
    ensures i < |s| && s[i] == x
  {
    i :| 0 <= i < |s| && s[i] == x;
  }

  /** Inserting a row whose email is free keeps emails unique. */
  lemma InsertKeepsUnique(rows: Rows, id: int, s: UserState)
    requires UniqueEmails(rows) && id !in rows && !EmailTaken(rows, s.email)
    ensures UniqueEmails(rows[id := s])
  {
  }

  /** Overwriting a row keeps emails unique when the email is unchanged or free. */
  lemma OverwriteKeepsUnique(rows: Rows, id: int, s: UserState)
    requires UniqueEmails(rows) && id in rows
    requires s.email == rows[id].email || !EmailTaken(rows, s.email)
    ensures UniqueEmails(rows[id := s])
  {
  }

  class UserRepository {
    var rows: Rows
    var order: seq<int>
    var nextId: int

    ghost predicate Valid()
      reads this
    {
      StoreValid(rows, order, nextId)
    }

    /** An empty table whose identity column starts at 1. */
    constructor ()
      ensures Valid() && rows == map[] && order == [] && nextId == 1
    {
      rows, order, nextId := map[], [], 1;
    }

    /** `findAll`: the stored rows in insertion order. */
    method FindAll() returns (r: seq<UserState>)
      requires Valid()
      ensures r == Listing(rows, order)
    {
      r := Listing(rows, order);
    }

    /** `findById`: an entity materialised from the row, or null when absent. */
    method FindById(id: int) returns (u: User?)
      requires Valid()
      ensures u == null <==> id !in rows
      ensures u != null ==> fresh(u) && u.State() == rows[id]
    {
      if id !in rows {
        return null;
      }
      var s := rows[id];
      u := new User();
      u.id, u.name, u.email, u.age, u.createdAt := s.id, s.name, s.email, s.age, s.createdAt;
    }

    /** `existsById`: whether a row is stored under `id`. */
    predicate ExistsById(id: int)
      reads this
      ensures ExistsById(id) <==> id in rows
    {
      id in rows
    }

    /** `existsByEmail`: whether some stored row carries `email`. */
    predicate ExistsByEmail(email: string)
      reads this
      ensures ExistsByEmail(email) <==> exists id :: id in rows && rows[id].email == email
    {
      EmailTaken(rows, email)
    }

    /** `save`: an entity without an id is inserted under a fresh id and
        stamped with its creation time; an entity with an id overwrites (or
        adds) the row under that id. The same entity is returned. */
    method Save(u: User, now: LocalDateTime) returns (saved: User)
      requires Valid()
      modifies this, u
      ensures Valid() && saved == u && nextId >= old(nextId)
      ensures old(u.id).None? ==>
        && old(nextId) !in old(rows)
        && u.State() == old(u.State()).(id := Some(old(nextId)), createdAt := Some(now))
        && rows == old(rows)[old(nextId) := u.State()]
        && order == old(order) + [old(nextId)]
        && nextId == old(nextId) + 1
      ensures old(u.id).Some? ==>
        && u.State() == old(u.State())
        && rows == old(rows)[old(u.id).value := u.State()]
        && order == (if old(u.id).value in old(rows) then old(order) else old(order) + [old(u.id).value])
        && nextId == if old(u.id).value < old(nextId) then old(nextId) else old(u.id).value + 1
    {
      if u.id.None? {
        var id := nextId;
        u.id := Some(id);
        u.createdAt := Some(now);
        rows := rows[id := u.State()];
        order := order + [id];
        nextId := id + 1;
      } else {
        var id := u.id.value;
        if id !in rows {
          order := order + [id];
        }
        rows := rows[id := u.State()];
        if nextId <= id {
          nextId := id + 1;
        }
      }
      saved := u;
    }

    /** `deleteById`: the row under `id`, if any, is gone. */
    method DeleteById(id: int)
      requires Valid()
      modifies this
      ensures Valid()
      ensures rows == old(rows) - {id} && order == Without(old(order), id) && nextId == old(nextId)
    {
      rows := rows - {id};
      order := Without(order, id);
    }
  }
}
