/**
 * backend/src/routes/users.ts: a user's public profile and the paged list of the questions
 * they received.
 *
 * The `questions` table is given as a sequence already in the listing's ORDER BY order
 * (`last_reply_at` descending); `page` and `limit` are the integers `parseInt` produced, or
 * absent when the query string leaves them out.
 */
module PublicUsers {
  import opened Common
  import opened UserStore
  import opened Questions

  const DefaultPage: int := 1
  const DefaultLimit: int := 20

  /** A query parameter the request leaves out takes its default. */
  function OrDefault(v: Option<int>, default: int): int
  {
    if v.Some? then v.value else default
  }

  /** The five columns GET /:handle discloses. */
  datatype PublicProfile = PublicProfile(id: UserId, handle: Option<string>, name: string,
                                         avatarUrl: Option<string>, avatarType: string)

  datatype Error = NoSuchUser   // 404 "User not found"

  function Public(u: User): PublicProfile
  {
    PublicProfile(u.id, u.handle, u.name, u.avatarUrl, u.avatarType)
  }

  /** The profile never depends on the clerk id, the email or the update time. */
  lemma PublicHidesPrivateColumns(u: User, v: User)
    requires u.id == v.id && u.handle == v.handle && u.name == v.name
    requires u.avatarUrl == v.avatarUrl && u.avatarType == v.avatarType
    ensures Public(u) == Public(v)
  {
  }

  /** GET /:handle. */
  method GetProfile(t: UserTable, handle: string) returns (r: Result<PublicProfile, Error>)
    requires t.Valid()
    ensures r.Err? <==> forall id :: id in t.users ==> t.users[id].handle != Some(handle)
    ensures r.Ok? ==> exists id :: id in t.users && t.users[id].handle == Some(handle) && r.value == Public(t.users[id])
  {
    var user := t.FindByHandle(handle);
    if user.None? {
      return Err(NoSuchUser);
    }
    r := Ok(Public(user.value));
  }

  /** Whether a question of `owner` shows in the listing: the owner sees all of them, anyone
      else only the public ones. */
  predicate Shown(q: Question, owner: UserId, isOwner: bool)
  {
    q.receiver == owner && (isOwner || !q.isPrivate)
  }

  /** The rows the listing's WHERE clause keeps, in their order. */
  function Visible(rows: seq<Question>, owner: UserId, isOwner: bool): (v: seq<Question>)
    ensures |v| <= |rows|
    ensures forall q :: q in v <==> q in rows && Shown(q, owner, isOwner)
  {
    if rows == [] then []
    else Visible(rows[..|rows| - 1], owner, isOwner) +
         (if Shown(rows[|rows| - 1], owner, isOwner) then [rows[|rows| - 1]] else [])
  }

  /** Where the rows the listing keeps sit in the table. */
  function ShownPositions(rows: seq<Question>, owner: UserId, isOwner: bool): (idx: seq<nat>)
    ensures forall k :: 0 <= k < |idx| ==> idx[k] < |rows|
  {
    if rows == [] then []
    else
      var rest := ShownPositions(rows[..|rows| - 1], owner, isOwner);
      if Shown(rows[|rows| - 1], owner, isOwner) then rest + [|rows| - 1] else rest
  }

  /** The WHERE clause keeps exactly the shown rows, each once, in table order. */
  lemma {:induction false} VisibleInOrder(rows: seq<Question>, owner: UserId, isOwner: bool)
    ensures PicksAt(rows, ShownPositions(rows, owner, isOwner), Visible(rows, owner, isOwner))
    ensures forall i :: 0 <= i < |rows| ==>
      (i in ShownPositions(rows, owner, isOwner) <==> Shown(rows[i], owner, isOwner))
  {
    if rows != [] {
      var n := |rows| - 1;
      var init := rows[..n];
      VisibleInOrder(init, owner, isOwner);
      var idx0 := ShownPositions(init, owner, isOwner);
      var rest := Visible(init, owner, isOwner);
      if Shown(rows[n], owner, isOwner) {
        PicksAtLast(rows, idx0, rest);
      } else {
        PicksAtGrow(rows, idx0, rest);
      }
      forall i | 0 <= i < |rows| ensures i in ShownPositions(rows, owner, isOwner) <==> Shown(rows[i], owner, isOwner) {
        if i < n {
          assert init[i] == rows[i];
        } else {
          assert n !in idx0;
        }
      }
    }
  }

  /** `(page - 1) * limit`. */
  function Offset(page: int, limit: int): int
  {
    (page - 1) * limit
  }

  /** Where SQLite's `OFFSET` starts: a negative offset counts as zero. */
  function Start(n: nat, offset: int): (i: nat)
    ensures i <= n
  {
    if offset < 0 then 0 else if offset > n then n else offset
  }

  /** SQLite's `LIMIT limit OFFSET offset`: a negative limit means no limit. */
  function Window<T>(s: seq<T>, limit: int, offset: int): (w: seq<T>)
    ensures var i := Start(|s|, offset); i + |w| <= |s| && w == s[i..i + |w|]
    ensures limit < 0 ==> |w| == |s| - Start(|s|, offset)
    ensures limit >= 0 ==> |w| == Min(limit, |s| - Start(|s|, offset))
  {
    var i := Start(|s|, offset);
    if limit < 0 || i + limit > |s| then s[i..] else s[i..i + limit]
  }

  function Min(a: int, b: int): int
  {
    if a <= b then a else b
  }

  /** A page of the listing and its `pagination` block. */
  datatype Listing = Listing(questions: seq<Question>, page: int, limit: int, total: nat)

  /** The listing of `owner`'s questions as `viewer` sees it. */
  function ListingFor(rows: seq<Question>, owner: UserId, isOwner: bool, page: int, limit: int): Listing
  {
    var v := Visible(rows, owner, isOwner);
    Listing(Window(v, limit, Offset(page, limit)), page, limit, |v|)
  }

  /**
   * GET /:handle/questions. A 404 for an unknown handle; otherwise one page of the owner's
   * questions, private ones only for the owner, with the total number the viewer may see.
   */
  method ListQuestions(t: UserTable, rows: seq<Question>, handle: string, clerkId: Option<string>,
                       page: Option<int>, limit: Option<int>)
    returns (r: Result<Listing, Error>)
    requires t.Valid() && UniqueClerkIds(t.users)
    ensures r.Err? <==> forall id :: id in t.users ==> t.users[id].handle != Some(handle)
    ensures r.Ok? ==> exists id :: (id in t.users && t.users[id].handle == Some(handle) &&
      r.value == ListingFor(rows, id, Truthy(clerkId) && t.users[id].clerkId == clerkId.value,
                            OrDefault(page, DefaultPage), OrDefault(limit, DefaultLimit)))
    ensures r.Ok? && page.None? ==> r.value.page == 1
    ensures r.Ok? && limit.None? ==> r.value.limit == 20 && |r.value.questions| <= 20
  {
    var user := t.FindByHandle(handle);
    if user.None? {
      return Err(NoSuchUser);
    }
    var viewer: Option<User> := None;
    if Truthy(clerkId) {
      viewer := t.FindByClerkId(clerkId.value);
    }
    var isOwner := viewer.Some? && viewer.value.id == user.value.id;
    var p := OrDefault(page, DefaultPage);
    var l := OrDefault(limit, DefaultLimit);
    var v := Visible(rows, user.value.id, isOwner);
    r := Ok(Listing(Window(v, l, Offset(p, l)), p, l, |v|));
  }

  /** The total does not depend on the page asked for. */
  lemma TotalIgnoresPaging(rows: seq<Question>, owner: UserId, isOwner: bool, p1: int, l1: int, p2: int, l2: int)
    ensures ListingFor(rows, owner, isOwner, p1, l1).total == ListingFor(rows, owner, isOwner, p2, l2).total
  {
  }

  /** Nobody but the owner is shown a private question; the owner is shown every question. */
  lemma PrivacyOfListing(rows: seq<Question>, owner: UserId, isOwner: bool, page: int, limit: int)
    ensures forall q :: q in ListingFor(rows, owner, isOwner, page, limit).questions ==>
      q in rows && q.receiver == owner && (q.isPrivate ==> isOwner)
    ensures isOwner ==> ListingFor(rows, owner, isOwner, page, limit).total == |Visible(rows, owner, true)|
  {
    var v := Visible(rows, owner, isOwner);
    var w := Window(v, limit, Offset(page, limit));
    forall q | q in w ensures q in v {
      var i := Start(|v|, Offset(page, limit));
      var k :| 0 <= k < |w| && w[k] == q;
      assert q == v[i + k];
    }
  }

  /** Page 0 and every negative page show the first page: their offset is negative. */
  lemma LowPagesShowFirstPage(rows: seq<Question>, owner: UserId, isOwner: bool, page: int, limit: int)
    requires page <= 0 && limit >= 0
    ensures ListingFor(rows, owner, isOwner, page, limit).questions ==
            ListingFor(rows, owner, isOwner, 1, limit).questions
  {
    NoOffsetBeforeFirstPage(page, limit);
    assert Offset(1, limit) == 0;
    var v := Visible(rows, owner, isOwner);
    assert Start(|v|, Offset(page, limit)) == Start(|v|, Offset(1, limit)) == 0;
  }

  lemma NoOffsetBeforeFirstPage(page: int, limit: int)
    requires page <= 0 && limit >= 0
    ensures Offset(page, limit) <= 0
  {
    var back := 1 - page;
    assert back * limit >= 0;
    assert Offset(page, limit) == -(back * limit);
  }

  /** Consecutive pages follow each other in the listing without gap or overlap. */
  lemma {:induction false} PagesTile<T>(s: seq<T>, page: int, limit: int)
    requires page >= 1 && limit >= 0
    ensures Window(s, limit, Offset(page, limit)) + Window(s, limit, Offset(page + 1, limit)) ==
            Window(s, 2 * limit, Offset(page, limit))
  {
    OffsetStep(page, limit);
    WindowsTile(s, limit, Offset(page, limit));
  }

  /** The next page starts `limit` rows further, and no page before the first. */
  lemma OffsetStep(page: int, limit: int)
    requires page >= 1 && limit >= 0
    ensures Offset(page, limit) >= 0
    ensures Offset(page + 1, limit) == Offset(page, limit) + limit
  {
  }

  /** Two windows of `limit` rows side by side are one window of `2 * limit` rows. */
  lemma {:induction false} WindowsTile<T>(s: seq<T>, limit: int, offset: int)
    requires offset >= 0 && limit >= 0
    ensures Window(s, limit, offset) + Window(s, limit, offset + limit) == Window(s, 2 * limit, offset)
  {
    var a := Start(|s|, offset);
    if a + limit >= |s| {
      assert Window(s, limit, offset) == s[a..];
      assert Window(s, limit, offset + limit) == [];
      assert Window(s, 2 * limit, offset) == s[a..];
    } else {
      var e := if a + 2 * limit > |s| then |s| else a + 2 * limit;
      assert Window(s, limit, offset) == s[a..a + limit];
      assert Window(s, limit, offset + limit) == s[a + limit..e];
      assert Window(s, 2 * limit, offset) == s[a..e];
      assert s[a..e] == s[a..a + limit] + s[a + limit..e];
    }
  }

  /** In ORDER BY `last_reply_at` DESC order. */
  predicate Descending(qs: seq<Question>)
  {
    forall i, j :: 0 <= i < j < |qs| ==> qs[i].lastReplyAt >= qs[j].lastReplyAt
  }

  /** The listing keeps the table's order: rows in `last_reply_at` descending order give a page
      in that order. */
  lemma {:induction false} ListingKeepsOrder(rows: seq<Question>, owner: UserId, isOwner: bool, page: int, limit: int)
    requires Descending(rows)
    ensures Descending(ListingFor(rows, owner, isOwner, page, limit).questions)
  {
    VisibleKeepsOrder(rows, owner, isOwner);
    var v := Visible(rows, owner, isOwner);
    var qs := Window(v, limit, Offset(page, limit));
    var a := Start(|v|, Offset(page, limit));
    forall i, j | 0 <= i < j < |qs| ensures qs[i].lastReplyAt >= qs[j].lastReplyAt {
      assert qs[i] == v[a + i] && qs[j] == v[a + j];
    }
  }

  lemma {:induction false} VisibleKeepsOrder(rows: seq<Question>, owner: UserId, isOwner: bool)
    requires Descending(rows)
    ensures Descending(Visible(rows, owner, isOwner))
  {
    if rows != [] {
      var init := rows[..|rows| - 1];
      var last := rows[|rows| - 1];
      assert Descending(init);
      VisibleKeepsOrder(init, owner, isOwner);
      var v0 := Visible(init, owner, isOwner);
      var v := Visible(rows, owner, isOwner);
      forall q | q in v0 ensures q.lastReplyAt >= last.lastReplyAt {
        var k :| 0 <= k < |init| && init[k] == q;
        assert rows[k] == q;
      }
      forall i, j | 0 <= i < j < |v| ensures v[i].lastReplyAt >= v[j].lastReplyAt {
        assert v[i] == v0[i] && v0[i] in v0;
        if j < |v0| {
          assert v[j] == v0[j];
        } else {
          assert v[j] == last;
        }
      }
    }
  }
}
