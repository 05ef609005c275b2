/**
 * The bottle exchange of backend/src/routes/bottles.ts.
 *
 * The `bottles` table is a map from bottle id to `Bottle`, the `bottle_messages` table a
 * per-bottle append-only sequence of messages, and the `bottle_images` table a sequence of
 * rows, one per image URL. Each route handler is one atomic method of `Exchange`. The caller
 * is given as the result of the user lookup every handler starts with (`None` is the
 * "User not found" answer); timestamps are integers in milliseconds.
 */
module Bottles {
  import opened Common
  import Validators

  type BottleId = nat
  type MessageId = nat

  /** The lease a picker holds a bottle before the sweep may reclaim it: 12 hours, in ms. */
  const LeaseMs: int := 12 * 60 * 60 * 1000

  datatype Status = Floating | Picked | Replied

  /** A row of `bottles`: creator_id, picker_id, status and picked_at. */
  datatype Bottle = Bottle(creator: UserId, picker: Option<UserId>, status: Status, pickedAt: Option<int>)

  /** A row of `bottle_messages`, without its bottle id (it lives in that bottle's thread). */
  datatype Message = Message(id: MessageId, sender: UserId, content: string)

  /** A row of `bottle_images`. */
  datatype ImageRow = ImageRow(messageId: MessageId, url: string)

  /** A bottle with its thread, as GET /pick and GET /:id return it. */
  datatype Details = Details(id: BottleId, bottle: Bottle, messages: seq<Message>)

  /** The counts of GET /stats. */
  datatype Stats = Stats(floating: nat, picked: nat, replied: nat, total: nat)

  datatype Error =
    | InvalidInput            // 400 "Invalid input"
    | UserNotFound            // 404 "User not found"
    | UnfinishedBottle        // 400 "Please finish your current bottle first"
    | AlreadyPicking(held: BottleId)  // 400 "You already have an active bottle", with its id
    | NoBottles               // 404 "No bottles available"
    | NotFoundOrDenied        // 404 "Bottle not found or access denied"

  function HttpStatus(e: Error): (code: int)
    ensures code == 400 || code == 404
    ensures code == 404 <==> e.UserNotFound? || e.NoBottles? || e.NotFoundOrDenied?
  {
    match e
    case InvalidInput => 400
    case UserNotFound => 404
    case UnfinishedBottle => 400
    case AlreadyPicking(_) => 400
    case NoBottles => 404
    case NotFoundOrDenied => 404
  }

  /** Invariant I1 (picker, and picked_at, set iff picked or replied) and I2 (no self-pick). */
  predicate Consistent(b: Bottle)
  {
    && (b.picker.Some? <==> b.status != Floating)
    && (b.pickedAt.Some? <==> b.status != Floating)
    && (b.picker.Some? ==> b.picker.value != b.creator)
  }

  /** User `u` holds `b` as an active pick. */
  predicate Holds(b: Bottle, u: UserId)
  {
    b.status == Picked && b.picker == Some(u)
  }

  /** Invariant I3: no two bottles are picked by the same user. */
  predicate Exclusive(m: map<BottleId, Bottle>)
  {
    forall a, b ::
      a in m && b in m && m[a].status == Picked && m[b].status == Picked && m[a].picker == m[b].picker
      ==> a == b
  }

  predicate WellFormed(m: map<BottleId, Bottle>)
  {
    (forall id :: id in m ==> Consistent(m[id])) && Exclusive(m)
  }

  /** Some bottle of `m` is actively picked by `u` (the `activePick` query). */
  predicate HasActivePick(m: map<BottleId, Bottle>, u: UserId)
  {
    exists id :: id in m && Holds(m[id], u)
  }

  /** A bottle `u` may pick: floating and not their own. */
  predicate Eligible(b: Bottle, u: UserId)
  {
    b.status == Floating && b.creator != u
  }

  /** `u` is the creator or the current picker: the access check of reply and view. */
  predicate IsParty(b: Bottle, u: UserId)
  {
    b.creator == u || b.picker == Some(u)
  }

  /** Who is notified of a message `u` posts on `b`: the picker if `u` is the creator, else the creator. */
  function Recipient(b: Bottle, u: UserId): Option<UserId>
  {
    if b.creator == u then b.picker else Some(b.creator)
  }

  /** The status after a message by `u`: `replied` iff it was `picked` and `u` is its picker. */
  function StatusAfterMessage(b: Bottle, u: UserId): Status
  {
    if b.status == Picked && b.picker == Some(u) then Replied else b.status
  }

  /** One image row per URL, in order. */
  function ImageRows(messageId: MessageId, urls: seq<string>): (rows: seq<ImageRow>)
    ensures |rows| == |urls|
    ensures forall k :: 0 <= k < |urls| ==> rows[k] == ImageRow(messageId, urls[k])
  {
    if urls == [] then [] else ImageRows(messageId, urls[..|urls| - 1]) + [ImageRow(messageId, urls[|urls| - 1])]
  }

  /** The ids of the bottles of `m` whose status is `s`. */
  function WithStatus(m: map<BottleId, Bottle>, s: Status): set<BottleId>
  {
    set id | id in m && m[id].status == s
  }

  /** Every bottle has exactly one of the three statuses, so the three counts add up to the total. */
  lemma StatusPartition(m: map<BottleId, Bottle>)
    ensures |WithStatus(m, Floating)| + |WithStatus(m, Picked)| + |WithStatus(m, Replied)| == |m|
  {
    var f, p, r := WithStatus(m, Floating), WithStatus(m, Picked), WithStatus(m, Replied);
    assert f !! p && (f + p) !! r;
    assert f + p + r == m.Keys;
    assert |f + p| == |f| + |p|;
    assert |f + p + r| == |f + p| + |r|;
  }

  /** Picking an eligible bottle keeps the table well formed when the picker held none. */
  lemma PickKeepsWellFormed(m: map<BottleId, Bottle>, id: BottleId, u: UserId, now: int)
    requires WellFormed(m) && id in m && Eligible(m[id], u) && !HasActivePick(m, u)
    ensures WellFormed(m[id := Bottle(m[id].creator, Some(u), Picked, Some(now))])
    ensures HasActivePick(m[id := Bottle(m[id].creator, Some(u), Picked, Some(now))], u)
  {
    var m' := m[id := Bottle(m[id].creator, Some(u), Picked, Some(now))];
    forall x | x in m && x != id ensures !Holds(m'[x], u) {
    }
    assert Holds(m'[id], u);
  }

  /** A reply keeps the table well formed: only the status can change, and only picked to replied. */
  lemma MessageKeepsWellFormed(m: map<BottleId, Bottle>, id: BottleId, u: UserId)
    requires WellFormed(m) && id in m
    ensures WellFormed(m[id := m[id].(status := StatusAfterMessage(m[id], u))])
  {
    var m' := m[id := m[id].(status := StatusAfterMessage(m[id], u))];
    forall a, b | a in m' && b in m' && m'[a].status == Picked && m'[b].status == Picked &&
      m'[a].picker == m'[b].picker
      ensures a == b
    {
      assert m[a].status == Picked && m[b].status == Picked;
    }
  }

  /** A message is never addressed to its own sender, and a bottle without picker notifies nobody
      when its creator writes. Both rest on invariant I2. */
  lemma RecipientIsOtherParty(b: Bottle, u: UserId)
    requires Consistent(b) && IsParty(b, u)
    ensures Recipient(b, u) != Some(u)
    ensures Recipient(b, u).Some? ==> IsParty(b, Recipient(b, u).value)
    ensures b.picker.None? ==> Recipient(b, u) == None
  {
  }

  /** One thread per bottle, opened by the bottle's creator. */
  predicate Threaded(m: map<BottleId, Bottle>, threads: map<BottleId, seq<Message>>)
  {
    && threads.Keys == m.Keys
    && (forall id :: id in threads ==> |threads[id]| > 0 && threads[id][0].sender == m[id].creator)
  }

  /** A message appended to a thread, with the status change it brings, keeps every thread
      opened by its creator. */
  lemma MessageKeepsThreaded(m: map<BottleId, Bottle>, threads: map<BottleId, seq<Message>>,
                             id: BottleId, u: UserId, msg: Message)
    requires Threaded(m, threads) && id in m
    ensures Threaded(m[id := m[id].(status := StatusAfterMessage(m[id], u))], threads[id := threads[id] + [msg]])
  {
    assert (threads[id] + [msg])[0] == threads[id][0];
  }

  class Exchange {
    var bottles: map<BottleId, Bottle>
    var threads: map<BottleId, seq<Message>>
    var images: seq<ImageRow>
    var nextId: nat

    /** The table invariants I1-I3, one thread per bottle whose first message is the creator's,
        and every id in use below `nextId`. */
    ghost predicate Valid()
      reads this
    {
      && WellFormed(bottles)
      && Threaded(bottles, threads)
      && (forall id :: id in bottles ==> id < nextId)
    }

    constructor ()
      ensures Valid()
      ensures bottles == map[] && threads == map[] && images == []
    {
      bottles, threads, images, nextId := map[], map[], [], 0;
    }

    /** The `activePick` query: some bottle `u` holds as picked, if any. */
    method ActivePick(u: UserId) returns (r: Option<BottleId>)
      ensures r.None? <==> !HasActivePick(bottles, u)
      ensures r.Some? ==> r.value in bottles && Holds(bottles[r.value], u)
    {
      if HasActivePick(bottles, u) {
        var id :| id in bottles && Holds(bottles[id], u);
        r := Some(id);
      } else {
        r := None;
      }
    }

    /** The image loop of create and reply: one row per URL, appended in order. */
    method SaveImages(messageId: MessageId, urls: seq<string>)
      modifies this`images
      ensures images == old(images) + ImageRows(messageId, urls)
    {
      var i := 0;
      while i < |urls|
        invariant 0 <= i <= |urls|
        invariant images == old(images) + ImageRows(messageId, urls[..i])
      {
        assert urls[..i + 1][..i] == urls[..i];
        images := images + [ImageRow(messageId, urls[i])];
        i := i + 1;
      }
      assert urls[..i] == urls;
    }

    /** POST / : throw a new bottle. */
    method Create(caller: Option<UserId>, content: string, urls: seq<string>, isUrl: string -> bool)
      returns (r: Result<BottleId, Error>)
      requires Valid()
      modifies this
      ensures Valid()
      ensures !Validators.ValidBottleMessage(content, urls, isUrl) ==> r == Err(InvalidInput)
      ensures Validators.ValidBottleMessage(content, urls, isUrl) && caller.None? ==> r == Err(UserNotFound)
      ensures Validators.ValidBottleMessage(content, urls, isUrl) && caller.Some? ==>
        (r.Err? <==> HasActivePick(old(bottles), caller.value))
      ensures r.Err? && caller.Some? && Validators.ValidBottleMessage(content, urls, isUrl) ==>
        r.error == UnfinishedBottle
      ensures r.Err? ==> bottles == old(bottles) && threads == old(threads) && images == old(images)
      ensures r.Ok? ==>
        && caller.Some?
        && r.value !in old(bottles)
        && bottles == old(bottles)[r.value := Bottle(caller.value, None, Floating, None)]
        && r.value in threads && threads == old(threads)[r.value := threads[r.value]]
        && |threads[r.value]| == 1
        && threads[r.value][0].sender == caller.value && threads[r.value][0].content == content
        && images == old(images) + ImageRows(threads[r.value][0].id, urls)
    {
      if !Validators.ValidBottleMessage(content, urls, isUrl) {
        return Err(InvalidInput);
      }
      if caller.None? {
        return Err(UserNotFound);
      }
      var u := caller.value;
      var active := ActivePick(u);
      if active.Some? {
        return Err(UnfinishedBottle);
      }
      var bottleId := nextId;
      var messageId := nextId + 1;
      nextId := nextId + 2;
      bottles := bottles[bottleId := Bottle(u, None, Floating, None)];
      threads := threads[bottleId := [Message(messageId, u, content)]];
      SaveImages(messageId, urls);
      r := Ok(bottleId);
    }

    /** GET /pick : pick some floating bottle of another user. */
    method Pick(caller: Option<UserId>, now: int) returns (r: Result<Details, Error>)
      requires Valid()
      modifies this
      ensures Valid()
      ensures threads == old(threads) && images == old(images)
      ensures caller.None? ==> r == Err(UserNotFound)
      ensures caller.Some? && HasActivePick(old(bottles), caller.value) ==>
        r.Err? && r.error.AlreadyPicking? &&
        r.error.held in old(bottles) && Holds(old(bottles)[r.error.held], caller.value)
      ensures caller.Some? && !HasActivePick(old(bottles), caller.value) ==>
        (r.Ok? <==> exists id :: id in old(bottles) && Eligible(old(bottles)[id], caller.value))
      ensures r.Err? ==> bottles == old(bottles)
      ensures r.Err? && caller.Some? && !HasActivePick(old(bottles), caller.value) ==> r.error == NoBottles
      ensures r.Ok? ==>
        && caller.Some?
        && !HasActivePick(old(bottles), caller.value)
        && r.value.id in old(bottles)
        && Eligible(old(bottles)[r.value.id], caller.value)
        && bottles == old(bottles)[r.value.id := Bottle(old(bottles)[r.value.id].creator, Some(caller.value), Picked, Some(now))]
        && r.value == Details(r.value.id, bottles[r.value.id], threads[r.value.id])
    {
      if caller.None? {
        return Err(UserNotFound);
      }
      var u := caller.value;
      var active := ActivePick(u);
      if active.Some? {
        return Err(AlreadyPicking(active.value));
      }
      if !exists id :: id in bottles && Eligible(bottles[id], u) {
        return Err(NoBottles);
      }
      var id :| id in bottles && Eligible(bottles[id], u);
      PickKeepsWellFormed(bottles, id, u, now);
      bottles := bottles[id := Bottle(bottles[id].creator, Some(u), Picked, Some(now))];
      r := Ok(Details(id, bottles[id], threads[id]));
    }

    /** PUT /:id/release : the picker gives the bottle back to the sea. */
    method Release(caller: Option<UserId>, id: BottleId) returns (r: Result<(), Error>)
      requires Valid()
      modifies this
      ensures Valid()
      ensures threads == old(threads) && images == old(images)
      ensures caller.None? ==> r == Err(UserNotFound)
      ensures caller.Some? ==> (r.Ok? <==> id in old(bottles) && Holds(old(bottles)[id], caller.value))
      ensures caller.Some? && r.Err? ==> r.error == NotFoundOrDenied
      ensures r.Err? ==> bottles == old(bottles)
      ensures r.Ok? ==> bottles == old(bottles)[id := Bottle(old(bottles)[id].creator, None, Floating, None)]
    {
      if caller.None? {
        return Err(UserNotFound);
      }
      if !(id in bottles && Holds(bottles[id], caller.value)) {
        return Err(NotFoundOrDenied);
      }
      bottles := bottles[id := Bottle(bottles[id].creator, None, Floating, None)];
      r := Ok(());
    }

    /** POST /:id/messages : either party writes in the thread; returns the new message id and
        the user to notify. */
    method Reply(caller: Option<UserId>, id: BottleId, content: string, urls: seq<string>, isUrl: string -> bool)
      returns (r: Result<MessageId, Error>, notify: Option<UserId>)
      requires Valid()
      modifies this
      ensures Valid()
      ensures !Validators.ValidBottleMessage(content, urls, isUrl) ==> r == Err(InvalidInput)
      ensures Validators.ValidBottleMessage(content, urls, isUrl) && caller.None? ==> r == Err(UserNotFound)
      ensures Validators.ValidBottleMessage(content, urls, isUrl) && caller.Some? ==>
        (r.Ok? <==> id in old(bottles) && IsParty(old(bottles)[id], caller.value))
      ensures r.Err? && caller.Some? && Validators.ValidBottleMessage(content, urls, isUrl) ==>
        r.error == NotFoundOrDenied
      ensures r.Err? ==>
        bottles == old(bottles) && threads == old(threads) && images == old(images) && notify == None
      ensures r.Ok? ==>
        && caller.Some? && id in old(bottles)
        && threads == old(threads)[id := old(threads)[id] + [Message(r.value, caller.value, content)]]
        && images == old(images) + ImageRows(r.value, urls)
        && bottles == old(bottles)[id := old(bottles)[id].(status := StatusAfterMessage(old(bottles)[id], caller.value))]
        && notify == Recipient(old(bottles)[id], caller.value)
        && notify != Some(caller.value)
    {
      notify := None;
      if !Validators.ValidBottleMessage(content, urls, isUrl) {
        return Err(InvalidInput), notify;
      }
      if caller.None? {
        return Err(UserNotFound), notify;
      }
      var u := caller.value;
      if !(id in bottles && IsParty(bottles[id], u)) {
        return Err(NotFoundOrDenied), notify;
      }
      var b := bottles[id];
      var messageId := nextId;
      nextId := nextId + 1;
      MessageKeepsWellFormed(bottles, id, u);
      MessageKeepsThreaded(bottles, threads, id, u, Message(messageId, u, content));
      threads := threads[id := threads[id] + [Message(messageId, u, content)]];
      SaveImages(messageId, urls);
      ghost var after := bottles[id := b.(status := StatusAfterMessage(b, u))];
      if b.status == Picked && b.picker == Some(u) {
        bottles := bottles[id := b.(status := Replied)];
      }
      assert bottles == after;
      RecipientIsOtherParty(b, u);
      notify := Recipient(b, u);
      r := Ok(messageId);
    }

    /** GET /:id : the bottle with its thread, for its creator or current picker only. */
    method View(caller: Option<UserId>, id: BottleId) returns (r: Result<Details, Error>)
      requires Valid()
      ensures caller.None? ==> r == Err(UserNotFound)
      ensures caller.Some? ==> (r.Ok? <==> id in bottles && IsParty(bottles[id], caller.value))
      ensures caller.Some? && r.Err? ==> r.error == NotFoundOrDenied
      ensures r.Ok? ==> r.value == Details(id, bottles[id], threads[id])
    {
      if caller.None? {
        return Err(UserNotFound);
      }
      if !(id in bottles && IsParty(bottles[id], caller.value)) {
        return Err(NotFoundOrDenied);
      }
      r := Ok(Details(id, bottles[id], threads[id]));
    }

    /** GET /my : the bottles the caller created or picked. */
    method Mine(caller: Option<UserId>) returns (r: Result<set<BottleId>, Error>)
      requires Valid()
      ensures caller.None? <==> r == Err(UserNotFound)
      ensures r.Ok? ==> forall id :: id in r.value <==> id in bottles && IsParty(bottles[id], caller.value)
    {
      if caller.None? {
        return Err(UserNotFound);
      }
      r := Ok(set id | id in bottles && IsParty(bottles[id], caller.value));
    }

    /** GET /stats : bottles counted by status. */
    function Statistics(): (s: Stats)
      reads this
      ensures s.floating == |WithStatus(bottles, Floating)|
      ensures s.picked == |WithStatus(bottles, Picked)|
      ensures s.replied == |WithStatus(bottles, Replied)|
      ensures s.floating + s.picked + s.replied == s.total
      ensures s.total == |bottles|
    {
      StatusPartition(bottles);
      Stats(|WithStatus(bottles, Floating)|, |WithStatus(bottles, Picked)|,
            |WithStatus(bottles, Replied)|, |bottles|)
    }
  }

  /** Releasing twice in a row: the first call succeeds, the second is refused because the bottle
      is no longer picked by the caller. */
  method ReleaseTwice(e: Exchange, u: UserId, id: BottleId)
    returns (first: Result<(), Error>, second: Result<(), Error>)
    requires e.Valid() && id in e.bottles && Holds(e.bottles[id], u)
    modifies e
    ensures e.Valid()
    ensures first.Ok? && second == Err(NotFoundOrDenied)
    ensures id in e.bottles && e.bottles[id].status == Floating && e.bottles[id].picker.None?
  {
    first := e.Release(Some(u), id);
    second := e.Release(Some(u), id);
  }

  /** A picker's first message turns a picked bottle into a replied one, which can no longer be
      released by anyone. */
  method ReplyThenRelease(e: Exchange, u: UserId, id: BottleId, content: string, isUrl: string -> bool)
    returns (reply: Result<MessageId, Error>, release: Result<(), Error>)
    requires e.Valid() && id in e.bottles && Holds(e.bottles[id], u)
    requires Validators.ValidBottleMessage(content, [], isUrl)
    modifies e
    ensures e.Valid()
    ensures reply.Ok? && id in e.bottles && e.bottles[id].status == Replied && e.bottles[id].picker == Some(u)
    ensures release == Err(NotFoundOrDenied)
  {
    var notify;
    reply, notify := e.Reply(Some(u), id, content, [], isUrl);
    release := e.Release(Some(u), id);
  }
}
