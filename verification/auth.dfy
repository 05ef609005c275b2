/**
 * backend/src/routes/auth.ts: the sign-in callback that creates the local user on first
 * sign-in, `/me`, and the profile update with its handle-uniqueness check.
 *
 * The clerk id is what the authentication middleware put in the request context; `""` stands
 * for a missing one.
 */
module Auth {
  import opened Common
  import opened UserStore

  datatype Error = InvalidAuthContext | UserNotFound | HandleTaken

  function HttpStatus(e: Error): (code: nat)
    ensures 400 <= code < 600
    ensures code == 500 <==> e == InvalidAuthContext
  {
    match e
    case InvalidAuthContext => 500
    case UserNotFound => 404
    case HandleTaken => 400
  }

  /** The white space JavaScript's `String.prototype.trim` removes (within the Basic
      Multilingual Plane): the ASCII controls TAB to CR, the space, and the Unicode spaces and
      line separators. */
  const Spaces: set<char> := {
    '\U{0009}', '\U{000A}', '\U{000B}', '\U{000C}', '\U{000D}', '\U{0020}', '\U{00A0}', '\U{1680}',
    '\U{2000}', '\U{2001}', '\U{2002}', '\U{2003}', '\U{2004}', '\U{2005}', '\U{2006}', '\U{2007}',
    '\U{2008}', '\U{2009}', '\U{200A}', '\U{2028}', '\U{2029}', '\U{202F}', '\U{205F}', '\U{3000}', '\U{FEFF}'}

  predicate IsSpace(c: char)
  {
    c in Spaces
  }

  /** Every character of `s` from `lo` up to `hi` is white space. */
  predicate SpaceBetween(s: string, lo: int, hi: int)
    requires 0 <= lo && hi <= |s|
  {
    forall k :: lo <= k < hi ==> IsSpace(s[k])
  }

  /** No white space at either end. */
  predicate Trimmed(s: string)
  {
    s == [] || (!IsSpace(s[0]) && !IsSpace(s[|s| - 1]))
  }

  /** Where the text from `i` on stops being white space: the first non-space index, or `|s|`. */
  function SkipSpace(s: string, i: nat): (j: nat)
    requires i <= |s|
    ensures i <= j <= |s| && SpaceBetween(s, i, j)
    ensures j < |s| ==> !IsSpace(s[j])
    decreases |s| - i
  {
    if i < |s| && IsSpace(s[i]) then SkipSpace(s, i + 1) else i
  }

  /** Where the text before `j`, down to `lo`, stops being white space: one past the last
      non-space index, or `lo`. */
  function SkipSpaceBack(s: string, lo: nat, j: nat): (e: nat)
    requires lo <= j <= |s|
    ensures lo <= e <= j && SpaceBetween(s, e, j)
    ensures e > lo ==> !IsSpace(s[e - 1])
  {
    if j > lo && IsSpace(s[j - 1]) then SkipSpaceBack(s, lo, j - 1) else j
  }

  /** `r` is the infix of `s` starting at `i`, and all that is cut on either side is white space. */
  predicate CutAt(s: string, r: string, i: int)
  {
    0 <= i <= |s| - |r| && r == s[i..i + |r|] && SpaceBetween(s, 0, i) && SpaceBetween(s, i + |r|, |s|)
  }

  /** `String.prototype.trim`: the infix of `s` left when the white space at both ends is cut. */
  function Trim(s: string): (r: string)
    ensures Trimmed(r)
    ensures exists i :: CutAt(s, r, i)
  {
    var lo := SkipSpace(s, 0);
    var hi := SkipSpaceBack(s, lo, |s|);
    assert CutAt(s, s[lo..hi], lo);
    s[lo..hi]
  }

  /** Text with no white space at its ends is left as it is. */
  lemma TrimKeepsTrimmed(s: string)
    requires Trimmed(s)
    ensures Trim(s) == s
  {
    if s != [] {
      assert SkipSpace(s, 0) == 0;
      assert SkipSpaceBack(s, 0, |s|) == |s|;
    }
    assert s[0..|s|] == s;
  }

  /** The name of a new user: for a Google sign-in with a first name, the trimmed
      `first last`; otherwise `momo`. */
  function DisplayName(provider: string, firstName: Option<string>, lastName: Option<string>): (name: string)
    ensures !(provider == "google" && Truthy(firstName)) ==> name == "momo"
    ensures Trimmed(name)
  {
    if provider == "google" && Truthy(firstName) then
      Trim(firstName.value + " " + (if Truthy(lastName) then lastName.value else ""))
    else
      "momo"
  }

  /** A Google user without a last name is named by the first name alone: the space the
      template puts after it is trimmed away. */
  lemma {:induction false} FirstNameOnly(first: string)
    requires first != [] && !IsSpace(first[0]) && !IsSpace(first[|first| - 1])
    ensures DisplayName("google", Some(first), None) == first
  {
    var s := first + " " + "";
    assert s == first + [' '] && s[0] == first[0] && s[|s| - 2] == first[|first| - 1];
    assert SkipSpace(s, 0) == 0;
    assert SkipSpaceBack(s, 0, |s| - 1) == |s| - 1;
    assert SkipSpaceBack(s, 0, |s|) == |s| - 1;
    assert s[0..|s| - 1] == first;
  }

  /** A first name of white space alone gives an empty name, not `momo`. */
  lemma BlankFirstNameGivesEmptyName()
    ensures DisplayName("google", Some(" "), None) == ""
  {
    var s := " " + " " + "";
    assert s == "  " && IsSpace(' ');
    assert SkipSpace(s, 2) == 2 && SkipSpace(s, 1) == 2 && SkipSpace(s, 0) == 2;
    assert SkipSpaceBack(s, 2, 2) == 2;
    assert s[2..2] == "";
  }

  /** A Google sign-in carrying a picture. */
  predicate GoogleImage(provider: string, imageUrl: Option<string>)
  {
    provider == "google" && Truthy(imageUrl)
  }

  predicate Registered(users: map<UserId, User>, clerkId: string)
  {
    exists id :: id in users && users[id].clerkId == clerkId
  }

  /**
   * POST /callback. A known clerk id gets its row back and nothing is written. An unknown one
   * gets a new row named by `DisplayName`; with a Google picture the row is then updated to
   * that avatar URL and avatar type `google`. The response carries the row as created, before
   * that update.
   */
  method Callback(t: UserTable, clerkId: string, email: string, imageUrl: Option<string>,
                  firstName: Option<string>, lastName: Option<string>, provider: string,
                  roll: real, now: int)
    returns (u: User)
    requires t.Valid() && 0.0 <= roll < 1.0
    modifies t
    ensures t.Valid()
    ensures Registered(old(t.users), clerkId) ==>
      t.users == old(t.users) && u.id in t.users && t.users[u.id] == u && u.clerkId == clerkId
    ensures !Registered(old(t.users), clerkId) ==>
      && u.id !in old(t.users)
      && u == User(u.id, clerkId, email, None, DisplayName(provider, firstName, lastName), None,
                   RandomAvatarType(roll), now)
      && t.users == old(t.users)[u.id := Stored(u, provider, imageUrl)]
    ensures UniqueClerkIds(old(t.users)) ==> UniqueClerkIds(t.users)
    ensures UniqueHandles(old(t.users)) ==> UniqueHandles(t.users)
  {
    var found := t.FindByClerkId(clerkId);
    if found.Some? {
      return found.value;
    }
    ghost var before := t.users;
    u := SignUp(t, clerkId, email, imageUrl, DisplayName(provider, firstName, lastName), provider, roll, now);
    AddKeepsUnique(before, Stored(u, provider, imageUrl));
  }

  /** The row a first sign-in leaves: the created row, switched to the Google picture when the
      sign-in carries one. */
  function Stored(u: User, provider: string, imageUrl: Option<string>): (v: User)
    ensures v.id == u.id && v.clerkId == u.clerkId && v.email == u.email && v.handle == u.handle
    ensures v.name == u.name && v.updatedAt == u.updatedAt
    ensures GoogleImage(provider, imageUrl) ==> v.avatarUrl == imageUrl && v.avatarType == "google"
    ensures !GoogleImage(provider, imageUrl) ==> v == u
  {
    if GoogleImage(provider, imageUrl) then u.(avatarUrl := imageUrl, avatarType := "google") else u
  }

  /** The first sign-in of `clerkId`: `createUser`, then `updateUser` with the Google picture. */
  method SignUp(t: UserTable, clerkId: string, email: string, imageUrl: Option<string>,
                name: string, provider: string, roll: real, now: int)
    returns (u: User)
    requires t.Valid() && 0.0 <= roll < 1.0
    modifies t
    ensures t.Valid()
    ensures u.id !in old(t.users)
    ensures u == User(u.id, clerkId, email, None, name, None, RandomAvatarType(roll), now)
    ensures t.users == old(t.users)[u.id := Stored(u, provider, imageUrl)]
  {
    u := t.CreateUser(clerkId, email, Some(name), roll, now);
    if GoogleImage(provider, imageUrl) {
      var p := Patch(None, None, imageUrl, Some("google"));
      assert Merged(u, p).(updatedAt := now) == Stored(u, provider, imageUrl);
      ghost var created := t.users;
      var _ := t.UpdateUser(u.id, p, now);
      assert created[u.id := Stored(u, provider, imageUrl)] == old(t.users)[u.id := Stored(u, provider, imageUrl)];
    }
  }

  /** GET /me. */
  method Me(t: UserTable, clerkId: string) returns (r: Result<User, Error>)
    requires t.Valid()
    ensures clerkId == "" <==> r == Err(InvalidAuthContext)
    ensures r == Err(UserNotFound) <==> clerkId != "" && !Registered(t.users, clerkId)
    ensures r.Ok? ==> r.value.id in t.users && t.users[r.value.id] == r.value && r.value.clerkId == clerkId
  {
    if clerkId == "" {
      return Err(InvalidAuthContext);
    }
    var found := t.FindByClerkId(clerkId);
    if found.None? {
      return Err(UserNotFound);
    }
    r := Ok(found.value);
  }

  /** Writing a row whose handle is either unchanged, not a non-empty text, or held by no one
      keeps non-empty handles unique. */
  lemma {:induction false} NewHandleKeepsUnique(m: map<UserId, User>, id: UserId, v: User)
    requires UniqueHandles(m) && id in m
    requires Truthy(v.handle) && v.handle != m[id].handle ==> forall o :: o in m ==> m[o].handle != v.handle
    ensures UniqueHandles(m[id := v])
  {
    var m' := m[id := v];
    forall a, b | a in m' && b in m' && a != b && Truthy(m'[a].handle)
      ensures m'[a].handle != m'[b].handle
    {
      if a == id {
        assert m'[b] == m[b];
        if v.handle == m[id].handle {
          assert m[id].handle != m[b].handle;
        }
      } else if b == id {
        assert m'[a] == m[a];
        if v.handle == m[id].handle {
          assert m[a].handle != m[id].handle;
        }
      } else {
        assert m'[a] == m[a] && m'[b] == m[b];
      }
    }
  }

  /** Adding a row with a clerk id no row has, and no handle, keeps both uniqueness rules. */
  lemma AddKeepsUnique(m: map<UserId, User>, u: User)
    requires u.id !in m && u.handle.None?
    requires forall id :: id in m ==> m[id].clerkId != u.clerkId
    ensures UniqueClerkIds(m) ==> UniqueClerkIds(m[u.id := u])
    ensures UniqueHandles(m) ==> UniqueHandles(m[u.id := u])
  {
  }

  /** Rewriting a row without touching its clerk id keeps clerk ids unique. */
  lemma ClerkIdKeptKeepsUnique(m: map<UserId, User>, id: UserId, v: User)
    requires UniqueClerkIds(m) && id in m && v.clerkId == m[id].clerkId
    ensures UniqueClerkIds(m[id := v])
  {
    var m' := m[id := v];
    assert forall x :: x in m ==> m'[x].clerkId == m[x].clerkId;
  }

  /** The outcome of PUT /profile for the signed-in user `id`. */
  predicate ProfileOutcome(before: map<UserId, User>, after: map<UserId, User>, id: UserId, p: Patch,
                           now: int, r: Result<Option<User>, Error>)
    requires id in before
  {
    if Truthy(p.handle) && p.handle != before[id].handle &&
       exists o :: o in before && before[o].handle == p.handle
    then
      r == Err(HandleTaken) && after == before
    else if NothingDefined(p) then
      r == Ok(None) && after == before
    else
      after == before[id := Merged(before[id], p).(updatedAt := now)] && r == Ok(Some(after[id]))
  }

  /**
   * PUT /profile. Fails on a missing clerk id, an unknown user, or a non-empty handle other
   * than the user's own that another row already holds; otherwise hands the four fields to
   * `updateUser`, whose result (possibly `null`) is returned.
   */
  method Profile(t: UserTable, clerkId: string, handle: Option<string>, name: Option<string>,
                 avatarUrl: Option<string>, avatarType: Option<string>, now: int)
    returns (r: Result<Option<User>, Error>)
    requires t.Valid() && UniqueClerkIds(t.users)
    modifies t
    ensures t.Valid()
    ensures clerkId == "" ==> r == Err(InvalidAuthContext) && t.users == old(t.users)
    ensures clerkId != "" && !Registered(old(t.users), clerkId) ==> r == Err(UserNotFound) && t.users == old(t.users)
    ensures clerkId != "" ==> forall id :: id in old(t.users) && old(t.users)[id].clerkId == clerkId ==>
      ProfileOutcome(old(t.users), t.users, id, Patch(handle, name, avatarUrl, avatarType), now, r)
    ensures UniqueClerkIds(t.users)
    ensures UniqueHandles(old(t.users)) ==> UniqueHandles(t.users)
  {
    if clerkId == "" {
      return Err(InvalidAuthContext);
    }
    var found := t.FindByClerkId(clerkId);
    if found.None? {
      return Err(UserNotFound);
    }
    var user := found.value;
    assert forall id :: id in t.users && t.users[id].clerkId == clerkId ==> id == user.id;
    r := UpdateProfile(t, user.id, Patch(handle, name, avatarUrl, avatarType), now);
  }

  /** The part of PUT /profile after the user lookup: the handle check, then `updateUser`. */
  method UpdateProfile(t: UserTable, id: UserId, p: Patch, now: int) returns (r: Result<Option<User>, Error>)
    requires t.Valid() && id in t.users
    modifies t
    ensures t.Valid()
    ensures ProfileOutcome(old(t.users), t.users, id, p, now, r)
    ensures UniqueClerkIds(old(t.users)) ==> UniqueClerkIds(t.users)
    ensures UniqueHandles(old(t.users)) ==> UniqueHandles(t.users)
  {
    ghost var before := t.users;
    if Truthy(p.handle) && p.handle != t.users[id].handle {
      var existing := t.FindByHandle(p.handle.value);
      if existing.Some? {
        return Err(HandleTaken);
      }
    }
    var updated := t.UpdateUser(id, p, now);
    r := Ok(updated);
    if !NothingDefined(p) {
      if UniqueClerkIds(before) {
        ClerkIdKeptKeepsUnique(before, id, t.users[id]);
      }
      if UniqueHandles(before) {
        NewHandleKeepsUnique(before, id, t.users[id]);
      }
    }
  }
}
