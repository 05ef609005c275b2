/**
 * The question board of backend/src/routes/questions.ts: asking, replying, viewing and the
 * inbox filter, over the `questions` and `question_replies` tables.
 *
 * A handler is given the results of its user lookups (`Option<UserId>`), the value of the
 * `CF-Connecting-IP` header, the `IP_SALT` setting and the SHA-256 hex digest as the function
 * `digest`; timestamps are integers.
 */
module Questions {
  import opened Common
  import Validators

  type QuestionId = nat

  datatype Question = Question(
    receiver: UserId,
    asker: Option<UserId>,
    askerIpHash: Option<string>,
    content: string,
    isPrivate: bool,
    createdAt: int,
    lastReplyAt: int)

  datatype Reply = Reply(id: nat, questionId: QuestionId, sender: Option<UserId>, content: string)

  /** The `viewer_permission` of GET /:id. */
  datatype Permission = Receiver | Asker | Visitor

  datatype Error =
    | InvalidInput      // 400 "Invalid input"
    | AuthRequired      // 401 "Private questions require authentication"
    | UserNotFound      // 404 "User not found"
    | SelfQuestion      // 400 "You cannot ask questions to yourself"
    | QuestionNotFound  // 404 "Question not found"
    | Forbidden         // 403 "You do not have permission to reply" / "Access denied"
    | HashFailure       // 500: hashIp threw, uncaught

  /** The who-is-who of a caller against a question. */
  datatype Roles = Roles(receiver: bool, asker: bool, anonymousAsker: bool)

  /** `hashIp`: refuses an empty IP or salt, otherwise digests their concatenation. */
  function HashIp(ip: string, salt: string, digest: string -> string): (r: Result<string, Error>)
    ensures r.Err? <==> ip == "" || salt == ""
    ensures r.Err? ==> r.error == HashFailure
    ensures r.Ok? ==> r.value == digest(ip + salt)
  {
    if ip == "" || salt == "" then Err(HashFailure) else Ok(digest(ip + salt))
  }

  /** `isReceiver`, `isAsker` and `isAnonymousAsker` of the reply and view handlers. The IP is
      hashed only for a caller without account, on a question with a stored hash, when the
      IP header is present. */
  function ResolveRoles(q: Question, viewer: Option<UserId>, ip: Option<string>, salt: string,
                        digest: string -> string): (r: Result<Roles, Error>)
    ensures r.Err? <==> viewer.None? && Truthy(q.askerIpHash) && Truthy(ip) && salt == ""
    ensures r.Err? ==> r.error == HashFailure
    ensures r.Ok? ==> r.value.receiver == (viewer == Some(q.receiver))
    ensures r.Ok? ==> r.value.asker == (viewer.Some? && q.asker == viewer)
    ensures r.Ok? ==> (r.value.anonymousAsker <==>
      viewer.None? && Truthy(q.askerIpHash) && Truthy(ip) && digest(ip.value + salt) == q.askerIpHash.value)
  {
    var isReceiver := viewer.Some? && viewer.value == q.receiver;
    var isAsker := viewer.Some? && q.asker.Some? && viewer.value == q.asker.value;
    if viewer.None? && Truthy(q.askerIpHash) && Truthy(ip) then
      match HashIp(ip.value, salt, digest)
      case Err(e) => Err(e)
      case Ok(h) => Ok(Roles(isReceiver, isAsker, h == q.askerIpHash.value))
    else
      Ok(Roles(isReceiver, isAsker, false))
  }

  predicate IsParty(r: Roles)
  {
    r.receiver || r.asker || r.anonymousAsker
  }

  /** The `viewer_permission` classification. */
  function Classify(r: Roles): (p: Permission)
    ensures p == Receiver <==> r.receiver
    ensures p == Asker <==> !r.receiver && (r.asker || r.anonymousAsker)
    ensures p == Visitor <==> !IsParty(r)
  {
    if r.receiver then Receiver
    else if r.asker || r.anonymousAsker then Asker
    else Visitor
  }

  /** The reply permission check: the receiver, the signed-in asker, or an anonymous caller
      whose IP digest matches the stored one. */
  function ReplyPermission(q: Question, viewer: Option<UserId>, ip: Option<string>, salt: string,
                           digest: string -> string): (r: Result<(), Error>)
    ensures r.Ok? <==>
      || viewer == Some(q.receiver)
      || (viewer.Some? && q.asker == viewer)
      || (viewer.None? && Truthy(q.askerIpHash) && Truthy(ip) && salt != "" &&
          digest(ip.value + salt) == q.askerIpHash.value)
    ensures r.Err? ==> r.error == Forbidden || r.error == HashFailure
  {
    match ResolveRoles(q, viewer, ip, salt, digest)
    case Err(e) => Err(e)
    case Ok(roles) => if IsParty(roles) then Ok(()) else Err(Forbidden)
  }

  /** The access check and classification of GET /:id: a private question is shown to its
      parties only. */
  function ViewPermission(q: Question, viewer: Option<UserId>, ip: Option<string>, salt: string,
                          digest: string -> string): (r: Result<Permission, Error>)
    ensures r.Ok? && q.isPrivate ==> r.value != Visitor
    ensures r.Ok? ==> (r.value == Receiver <==> viewer == Some(q.receiver))
    ensures r.Ok? && viewer.Some? && viewer != Some(q.receiver) ==>
      (r.value == Asker <==> q.asker == viewer)
    ensures r.Ok? && viewer.None? ==> (r.value == Asker <==>
      Truthy(q.askerIpHash) && Truthy(ip) && digest(ip.value + salt) == q.askerIpHash.value)
    ensures r == Err(HashFailure) <==> viewer.None? && Truthy(q.askerIpHash) && Truthy(ip) && salt == ""
    ensures !(viewer.None? && Truthy(q.askerIpHash) && Truthy(ip) && salt == "") ==> (r.Ok? <==>
      || !q.isPrivate
      || viewer == Some(q.receiver)
      || (viewer.Some? && q.asker == viewer)
      || (viewer.None? && Truthy(q.askerIpHash) && Truthy(ip) && digest(ip.value + salt) == q.askerIpHash.value))
    ensures r.Err? ==> r.error == Forbidden || r.error == HashFailure
    ensures r == Err(Forbidden) ==> q.isPrivate
  {
    match ResolveRoles(q, viewer, ip, salt, digest)
    case Err(e) => Err(e)
    case Ok(roles) => if q.isPrivate && !IsParty(roles) then Err(Forbidden) else Ok(Classify(roles))
  }

  /** Replies to question `qid` sent by `u`. */
  function RepliesBy(replies: seq<Reply>, qid: QuestionId, u: UserId): (n: nat)
    ensures n <= |replies|
    ensures n > 0 <==> exists i :: 0 <= i < |replies| && replies[i].questionId == qid && replies[i].sender == Some(u)
  {
    if replies == [] then 0
    else RepliesBy(replies[..|replies| - 1], qid, u) +
         (if replies[|replies| - 1].questionId == qid && replies[|replies| - 1].sender == Some(u) then 1 else 0)
  }

  /** The inbox `status` filter: "pending" keeps questions the receiver has not replied to,
      "answered" those they have, anything else keeps all. */
  predicate InboxKeeps(status: string, ownReplies: nat)
  {
    if status == "pending" then ownReplies == 0
    else if status == "answered" then ownReplies > 0
    else true
  }

  class Board {
    var questions: map<QuestionId, Question>
    var replies: seq<Reply>
    var nextId: nat

    ghost predicate Valid()
      reads this
    {
      && (forall id :: id in questions ==> id < nextId)
      && (forall i :: 0 <= i < |replies| ==> replies[i].questionId in questions)
    }

    constructor ()
      ensures Valid() && questions == map[] && replies == []
    {
      questions, replies, nextId := map[], [], 0;
    }

    /** POST / : ask `receiverHandle` a question. `signedIn` is whether a Clerk id came with
        the request, `asker` and `receiver` the results of the two user lookups. */
    method Ask(signedIn: bool, asker: Option<UserId>, receiver: Option<UserId>,
               receiverHandle: string, content: string, isPrivate: bool, urls: seq<string>,
               ip: Option<string>, salt: string, digest: string -> string, isUrl: string -> bool, now: int)
      returns (r: Result<QuestionId, Error>)
      requires Valid()
      modifies this
      ensures Valid()
      ensures replies == old(replies)
      ensures !Validators.ValidQuestion(receiverHandle, content, urls, isUrl) ==> r == Err(InvalidInput)
      ensures Validators.ValidQuestion(receiverHandle, content, urls, isUrl) && isPrivate && !signedIn ==>
        r == Err(AuthRequired)
      ensures r.Ok? ==> !isPrivate || signedIn
      ensures r.Ok? ==> receiver.Some? && !(signedIn && asker == receiver)
      ensures Validators.ValidQuestion(receiverHandle, content, urls, isUrl) && (signedIn || !isPrivate) ==>
        (receiver.None? <==> r == Err(UserNotFound))
      ensures (Validators.ValidQuestion(receiverHandle, content, urls, isUrl) && receiver.Some? &&
               signedIn && asker == receiver) ==> r == Err(SelfQuestion)
      ensures (Validators.ValidQuestion(receiverHandle, content, urls, isUrl) && receiver.Some? &&
               signedIn && asker != receiver) ==> r.Ok?
      ensures (Validators.ValidQuestion(receiverHandle, content, urls, isUrl) && receiver.Some? &&
               !isPrivate && !signedIn) ==> (r.Err? <==> Truthy(ip) && salt == "")
      ensures r.Err? ==> questions == old(questions)
      ensures r.Ok? ==>
        && r.value !in old(questions)
        && questions == old(questions)[r.value := Question(
             receiver.value,
             if signedIn then asker else None,
             if !signedIn && Truthy(ip) then Some(digest(ip.value + salt)) else None,
             content, isPrivate, now, now)]
    {
      if !Validators.ValidQuestion(receiverHandle, content, urls, isUrl) {
        return Err(InvalidInput);
      }
      if isPrivate && !signedIn {
        return Err(AuthRequired);
      }
      if receiver.None? {
        return Err(UserNotFound);
      }
      var askerId: Option<UserId> := None;
      var askerIpHash: Option<string> := None;
      if signedIn {
        if asker.Some? && asker.value == receiver.value {
          return Err(SelfQuestion);
        }
        askerId := asker;
      } else if Truthy(ip) {
        var h := HashIp(ip.value, salt, digest);
        if h.Err? {
          return Err(h.error);
        }
        askerIpHash := Some(h.value);
      }
      var id := nextId;
      nextId := nextId + 1;
      questions := questions[id := Question(receiver.value, askerId, askerIpHash, content, isPrivate, now, now)];
      r := Ok(id);
    }

    /** POST /:id/replies : a party of the question replies. `viewer` is the caller's user, if
        signed in and found. */
    method ReplyTo(viewer: Option<UserId>, id: QuestionId, content: string, urls: seq<string>,
                   ip: Option<string>, salt: string, digest: string -> string, isUrl: string -> bool, now: int)
      returns (r: Result<nat, Error>)
      requires Valid()
      modifies this
      ensures Valid()
      ensures !Validators.ValidQuestionReply(content, urls, isUrl) ==> r == Err(InvalidInput)
      ensures Validators.ValidQuestionReply(content, urls, isUrl) ==> (id !in old(questions) <==> r == Err(QuestionNotFound))
      ensures Validators.ValidQuestionReply(content, urls, isUrl) && id in old(questions) ==>
        (r.Ok? <==> ReplyPermission(old(questions)[id], viewer, ip, salt, digest).Ok?)
      ensures Validators.ValidQuestionReply(content, urls, isUrl) && id in old(questions) &&
              ReplyPermission(old(questions)[id], viewer, ip, salt, digest).Err? ==>
        r == Err(ReplyPermission(old(questions)[id], viewer, ip, salt, digest).error)
      ensures r.Err? ==> questions == old(questions) && replies == old(replies)
      ensures r.Ok? ==>
        && id in old(questions)
        && replies == old(replies) + [Reply(r.value, id, viewer, content)]
        && questions == old(questions)[id := old(questions)[id].(lastReplyAt := now)]
    {
      if !Validators.ValidQuestionReply(content, urls, isUrl) {
        return Err(InvalidInput);
      }
      if id !in questions {
        return Err(QuestionNotFound);
      }
      var permitted := ReplyPermission(questions[id], viewer, ip, salt, digest);
      if permitted.Err? {
        return Err(permitted.error);
      }
      var replyId := nextId;
      nextId := nextId + 1;
      replies := replies + [Reply(replyId, id, viewer, content)];
      questions := questions[id := questions[id].(lastReplyAt := now)];
      r := Ok(replyId);
    }

    /** GET /:id : the question, its replies in order, and the caller's permission. */
    method View(viewer: Option<UserId>, id: QuestionId, ip: Option<string>, salt: string,
                digest: string -> string)
      returns (r: Result<(Question, seq<Reply>, Permission), Error>)
      requires Valid()
      ensures id !in questions <==> r == Err(QuestionNotFound)
      ensures id in questions ==> (r.Ok? <==> ViewPermission(questions[id], viewer, ip, salt, digest).Ok?)
      ensures id in questions && ViewPermission(questions[id], viewer, ip, salt, digest).Err? ==>
        r == Err(ViewPermission(questions[id], viewer, ip, salt, digest).error)
      ensures r.Ok? ==> (
        && id in questions && r.value.0 == questions[id]
        && r.value.2 == ViewPermission(questions[id], viewer, ip, salt, digest).value
        && (questions[id].isPrivate ==> r.value.2 != Visitor))
      ensures r.Ok? ==> r.value.1 == FilterReplies(replies, id)
    {
      if id !in questions {
        return Err(QuestionNotFound);
      }
      var p := ViewPermission(questions[id], viewer, ip, salt, digest);
      if p.Err? {
        return Err(p.error);
      }
      var thread := FilterReplies(replies, id);
      r := Ok((questions[id], thread, p.value));
    }

    /** GET /inbox : ids of the caller's questions kept by the status filter. */
    function Inbox(caller: Option<UserId>, status: string): (r: Result<set<QuestionId>, Error>)
      reads this
      ensures caller.None? <==> r == Err(UserNotFound)
      ensures r.Ok? ==> forall id :: id in r.value <==>
        id in questions && questions[id].receiver == caller.value &&
        InboxKeeps(status, RepliesBy(replies, id, caller.value))
    {
      if caller.None? then Err(UserNotFound)
      else Ok(set id | id in questions && questions[id].receiver == caller.value &&
                       InboxKeeps(status, RepliesBy(replies, id, caller.value)))
    }

    /** "pending" and "answered" split the full inbox into two disjoint parts. */
    lemma InboxPartition(u: UserId)
      ensures Inbox(Some(u), "pending").Ok? && Inbox(Some(u), "answered").Ok? && Inbox(Some(u), "all").Ok?
      ensures Inbox(Some(u), "pending").value !! Inbox(Some(u), "answered").value
      ensures Inbox(Some(u), "pending").value + Inbox(Some(u), "answered").value == Inbox(Some(u), "all").value
    {
    }
  }

  /** The replies to question `id`, in their order. */
  function FilterReplies(replies: seq<Reply>, id: QuestionId): (r: seq<Reply>)
    ensures |r| <= |replies|
    ensures forall i :: 0 <= i < |r| ==> r[i] in replies && r[i].questionId == id
    ensures forall i :: 0 <= i < |replies| && replies[i].questionId == id ==> replies[i] in r
  {
    if replies == [] then []
    else
      var rest := FilterReplies(replies[..|replies| - 1], id);
      var last := replies[|replies| - 1];
      assert forall x :: x in replies[..|replies| - 1] ==> x in replies;
      if last.questionId == id then rest + [last] else rest
  }

  /** Where the replies to `id` sit in the table. */
  function ReplyPositions(replies: seq<Reply>, id: QuestionId): (idx: seq<nat>)
    ensures forall k :: 0 <= k < |idx| ==> idx[k] < |replies|
  {
    if replies == [] then []
    else
      var rest := ReplyPositions(replies[..|replies| - 1], id);
      if replies[|replies| - 1].questionId == id then rest + [|replies| - 1] else rest
  }

  /** The thread is exactly the replies to `id`, each once, in the order they were stored. */
  lemma {:induction false} FilterRepliesInOrder(replies: seq<Reply>, id: QuestionId)
    ensures PicksAt(replies, ReplyPositions(replies, id), FilterReplies(replies, id))
    ensures forall i :: 0 <= i < |replies| ==> (i in ReplyPositions(replies, id) <==> replies[i].questionId == id)
  {
    if replies != [] {
      var n := |replies| - 1;
      var init := replies[..n];
      FilterRepliesInOrder(init, id);
      var idx0 := ReplyPositions(init, id);
      var rest := FilterReplies(init, id);
      if replies[n].questionId == id {
        PicksAtLast(replies, idx0, rest);
      } else {
        PicksAtGrow(replies, idx0, rest);
      }
      forall i | 0 <= i < |replies| ensures i in ReplyPositions(replies, id) <==> replies[i].questionId == id {
        if i < n {
          assert init[i] == replies[i];
        } else {
          assert n !in idx0;
        }
      }
    }
  }
}
