/**
 * The user part of backend/src/services/db.ts: the `users` table with `createUser`,
 * `updateUser` (which builds its SET list field by field) and `getRandomAvatarType`.
 *
 * `Math.random()` is the parameter `roll`, a real in [0, 1); CURRENT_TIMESTAMP is `now`.
 */
module UserStore {
  import opened Common

  /** The choices of `getRandomAvatarType`. */
  const DefaultAvatarTypes: seq<string> := ["default_1", "default_2", "default_3"]

  /** A row of `users`. */
  datatype User = User(
    id: UserId,
    clerkId: string,
    email: string,
    handle: Option<string>,
    name: string,
    avatarUrl: Option<string>,
    avatarType: string,
    updatedAt: int)

  /** The four columns `updateUser` looks at in its `Partial<User>` argument; `None` is
      `undefined`. */
  datatype Patch = Patch(handle: Option<string>, name: Option<string>, avatarUrl: Option<string>,
                         avatarType: Option<string>)

  /** One `column = ?` entry of the UPDATE's SET list. */
  datatype Assignment =
    | SetHandle(handle: string)
    | SetName(name: string)
    | SetAvatarUrl(url: string)
    | SetAvatarType(avatarType: string)
    | Touch(at: int)     // updated_at = CURRENT_TIMESTAMP

  predicate NothingDefined(p: Patch)
  {
    p.handle.None? && p.name.None? && p.avatarUrl.None? && p.avatarType.None?
  }

  /** The effect of one SET entry on a row. */
  function Assign(u: User, a: Assignment): User
  {
    match a
    case SetHandle(h) => u.(handle := Some(h))
    case SetName(n) => u.(name := n)
    case SetAvatarUrl(url) => u.(avatarUrl := Some(url))
    case SetAvatarType(t) => u.(avatarType := t)
    case Touch(at) => u.(updatedAt := at)
  }

  /** The effect of a whole SET list, entries applied in order. */
  function AssignAll(u: User, s: seq<Assignment>): User
    decreases |s|
  {
    if s == [] then u else AssignAll(Assign(u, s[0]), s[1..])
  }

  /** What `updateUser` intends: each defined field replaces its column, the others stay. */
  function Merged(u: User, p: Patch): User
  {
    u.(handle := if p.handle.Some? then p.handle else u.handle,
       name := if p.name.Some? then p.name.value else u.name,
       avatarUrl := if p.avatarUrl.Some? then p.avatarUrl else u.avatarUrl,
       avatarType := if p.avatarType.Some? then p.avatarType.value else u.avatarType)
  }

  /** The SET list `updateUser` pushes for a patch, before `updated_at`. */
  function Updates(p: Patch): seq<Assignment>
  {
    (if p.handle.Some? then [SetHandle(p.handle.value)] else []) +
    ((if p.name.Some? then [SetName(p.name.value)] else []) +
     ((if p.avatarUrl.Some? then [SetAvatarUrl(p.avatarUrl.value)] else []) +
      (if p.avatarType.Some? then [SetAvatarType(p.avatarType.value)] else [])))
  }

  lemma {:induction false} AssignAllSnoc(u: User, s: seq<Assignment>, a: Assignment)
    ensures AssignAll(u, s + [a]) == Assign(AssignAll(u, s), a)
    decreases |s|
  {
    if s != [] {
      assert (s + [a])[0] == s[0] && (s + [a])[1..] == s[1..] + [a];
      AssignAllSnoc(Assign(u, s[0]), s[1..], a);
    }
  }

  /** Applying at most one entry, then the rest. */
  lemma AssignAllCons(u: User, x: seq<Assignment>, rest: seq<Assignment>)
    requires |x| <= 1
    ensures AssignAll(u, x + rest) == if x == [] then AssignAll(u, rest) else AssignAll(Assign(u, x[0]), rest)
  {
    if x == [] {
      assert x + rest == rest;
    } else {
      assert (x + rest)[0] == x[0] && (x + rest)[1..] == rest;
    }
  }

  /** The SET list writes exactly the defined fields. */
  lemma UpdatesMerge(u: User, p: Patch)
    ensures AssignAll(u, Updates(p)) == Merged(u, p)
  {
    var h := if p.handle.Some? then [SetHandle(p.handle.value)] else [];
    var n := if p.name.Some? then [SetName(p.name.value)] else [];
    var a := if p.avatarUrl.Some? then [SetAvatarUrl(p.avatarUrl.value)] else [];
    var t := if p.avatarType.Some? then [SetAvatarType(p.avatarType.value)] else [];
    AssignAllCons(u, h, n + (a + t));
    var u1 := if h == [] then u else Assign(u, h[0]);
    AssignAllCons(u1, n, a + t);
    var u2 := if n == [] then u1 else Assign(u1, n[0]);
    AssignAllCons(u2, a, t);
    var u3 := if a == [] then u2 else Assign(u2, a[0]);
    AssignAllCons(u3, t, []);
    assert t + [] == t;
  }

  /** The SET list of `updateUser` before `updated_at` is appended: one entry per defined
      field, in the order handle, name, avatar_url, avatar_type. */
  method BuildUpdates(p: Patch) returns (updates: seq<Assignment>)
    ensures |updates| <= 4
    ensures updates == [] <==> NothingDefined(p)
    ensures forall u :: AssignAll(u, updates) == Merged(u, p)
    ensures forall k :: 0 <= k < |updates| ==> !updates[k].Touch?
  {
    var handle: seq<Assignment>, name: seq<Assignment>, url: seq<Assignment>, kind: seq<Assignment> := [], [], [], [];
    if p.handle.Some? {
      handle := [SetHandle(p.handle.value)];
    }
    if p.name.Some? {
      name := [SetName(p.name.value)];
    }
    if p.avatarUrl.Some? {
      url := [SetAvatarUrl(p.avatarUrl.value)];
    }
    if p.avatarType.Some? {
      kind := [SetAvatarType(p.avatarType.value)];
    }
    updates := handle + (name + (url + kind));
    assert updates == Updates(p);
    forall u ensures AssignAll(u, updates) == Merged(u, p) {
      UpdatesMerge(u, p);
    }
  }

  /** `Math.floor(roll * 3)` for a roll in [0, 1), by comparing `roll * 3` with 1 and 2. */
  function AvatarIndex(roll: real): (i: nat)
    requires 0.0 <= roll < 1.0
    ensures i < 3 && i as real <= roll * 3.0 < i as real + 1.0
  {
    if roll * 3.0 < 1.0 then 0 else if roll * 3.0 < 2.0 then 1 else 2
  }

  /** `getRandomAvatarType`: the default type at index `Math.floor(Math.random() * 3)`. */
  function RandomAvatarType(roll: real): (t: string)
    requires 0.0 <= roll < 1.0
    ensures t == "default_1" || t == "default_2" || t == "default_3"
  {
    DefaultAvatarTypes[AvatarIndex(roll)]
  }

  /** No two rows share a clerk id. */
  predicate UniqueClerkIds(users: map<UserId, User>)
  {
    forall a, b :: a in users && b in users && users[a].clerkId == users[b].clerkId ==> a == b
  }

  /** No two rows share a non-empty handle. */
  predicate UniqueHandles(users: map<UserId, User>)
  {
    forall a, b :: a in users && b in users && Truthy(users[a].handle) && users[a].handle == users[b].handle ==> a == b
  }

  class UserTable {
    var users: map<UserId, User>
    var nextId: nat

    ghost predicate Valid()
      reads this
    {
      forall id :: id in users ==> users[id].id == id && id < nextId
    }

    constructor ()
      ensures Valid() && users == map[]
    {
      users, nextId := map[], 0;
    }

    /** `getUserByClerkId`. */
    method FindByClerkId(clerkId: string) returns (r: Option<User>)
      requires Valid()
      ensures r.None? <==> forall id :: id in users ==> users[id].clerkId != clerkId
      ensures r.Some? ==> r.value.id in users && users[r.value.id] == r.value && r.value.clerkId == clerkId
    {
      if exists id :: id in users && users[id].clerkId == clerkId {
        var id :| id in users && users[id].clerkId == clerkId;
        r := Some(users[id]);
      } else {
        r := None;
      }
    }

    /** `getUserByHandle`. */
    method FindByHandle(handle: string) returns (r: Option<User>)
      requires Valid()
      ensures r.None? <==> forall id :: id in users ==> users[id].handle != Some(handle)
      ensures r.Some? ==> r.value.id in users && users[r.value.id] == r.value && r.value.handle == Some(handle)
    {
      if exists id :: id in users && users[id].handle == Some(handle) {
        var id :| id in users && users[id].handle == Some(handle);
        r := Some(users[id]);
      } else {
        r := None;
      }
    }

    /** `createUser`: a fresh row with no handle and no avatar URL, a random default avatar type,
        and the name `momo` unless one is given. */
    method CreateUser(clerkId: string, email: string, name: Option<string>, roll: real, now: int)
      returns (u: User)
      requires Valid() && 0.0 <= roll < 1.0
      modifies this
      ensures Valid()
      ensures u.id !in old(users) && users == old(users)[u.id := u]
      ensures u.clerkId == clerkId && u.email == email && u.handle.None? && u.avatarUrl.None?
      ensures u.name == if name.Some? then name.value else "momo"
      ensures u.avatarType in DefaultAvatarTypes && u.avatarType == RandomAvatarType(roll)
      ensures u.updatedAt == now
    {
      var id := nextId;
      nextId := nextId + 1;
      var avatarType := RandomAvatarType(roll);
      u := User(id, clerkId, email, None, if name.Some? then name.value else "momo", None, avatarType, now);
      users := users[id := u];
    }

    /** `updateUser`: no write and `null` when no field is defined; otherwise the defined fields
        and updated_at are written to row `id` (if it exists), which is then returned. */
    method UpdateUser(id: UserId, p: Patch, now: int) returns (r: Option<User>)
      requires Valid()
      modifies this
      ensures Valid()
      ensures NothingDefined(p) ==> r.None? && users == old(users)
      ensures !NothingDefined(p) && id !in old(users) ==> r.None? && users == old(users)
      ensures !NothingDefined(p) && id in old(users) ==>
        && users == old(users)[id := Merged(old(users)[id], p).(updatedAt := now)]
        && r == Some(users[id])
    {
      var updates := BuildUpdates(p);
      if |updates| == 0 {
        return None;
      }
      AssignAllSnoc(if id in users then users[id] else User(id, "", "", None, "", None, "", 0), updates, Touch(now));
      updates := updates + [Touch(now)];
      if id in users {
        users := users[id := AssignAll(users[id], updates)];
        r := Some(users[id]);
      } else {
        r := None;
      }
    }
  }
}
