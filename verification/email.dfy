/**
 * backend/src/services/email.ts: the `email_queue` table, `queueEmail`, the subjects of
 * `generateEmailHtml`, and the cron step `processEmailQueue`, which takes at most ten pending
 * rows and marks each one sent or failed.
 *
 * Rows are kept in table (rowid) order and a row's id is its position. Whether a row gets
 * delivered (its payload parses and the mail API accepts the request) is the parameter
 * `delivered`; CURRENT_TIMESTAMP is `now`.
 */
module Email {
  import opened Common

  /** The batch size of `processEmailQueue`. */
  const BatchSize: nat := 10

  /** The subject used for every kind without a template of its own. */
  const FallbackSubject: string := "Momo 通知"

  datatype Status = Pending | Sent | Failed

  datatype EmailRow = EmailRow(id: nat, recipient: string, kind: string, payload: string,
                               status: Status, sentAt: Option<int>)

  /** The kinds `generateEmailHtml` has a template for. */
  predicate HasTemplate(kind: string)
  {
    kind == "question_received" || kind == "question_answered" || kind == "bottle_replied"
  }

  /** The subject line `generateEmailHtml` gives a kind. */
  function Subject(kind: string): (subject: string)
    ensures subject == FallbackSubject <==> !HasTemplate(kind)
  {
    match kind
    case "question_received" => "有人向你提问了！"
    case "question_answered" => "你的问题被回答了！"
    case "bottle_replied" => "你的漂流瓶收到了回复！"
    case _ => FallbackSubject
  }

  /** The three templates have three different subjects. */
  lemma SubjectsDistinct(a: string, b: string)
    requires HasTemplate(a) && HasTemplate(b) && a != b
    ensures Subject(a) != Subject(b)
  {
  }

  /** The indexes below `n` of the pending rows, in table order. */
  function PendingBelow(rows: seq<EmailRow>, n: nat): (ix: seq<nat>)
    requires n <= |rows|
    ensures |ix| <= n
  {
    if n == 0 then []
    else PendingBelow(rows, n - 1) + (if rows[n - 1].status == Pending then [n - 1] else [])
  }

  /** `PendingBelow` lists exactly the pending rows below `n`, each once, in increasing order. */
  lemma {:induction false} PendingBelowExact(rows: seq<EmailRow>, n: nat)
    requires n <= |rows|
    ensures forall k :: 0 <= k < |PendingBelow(rows, n)| ==>
      PendingBelow(rows, n)[k] < n && rows[PendingBelow(rows, n)[k]].status == Pending
    ensures forall k, l :: 0 <= k < l < |PendingBelow(rows, n)| ==>
      PendingBelow(rows, n)[k] < PendingBelow(rows, n)[l]
    ensures forall i :: 0 <= i < n && rows[i].status == Pending ==> i in PendingBelow(rows, n)
  {
    if n > 0 {
      PendingBelowExact(rows, n - 1);
      var prev := PendingBelow(rows, n - 1);
      var ix := PendingBelow(rows, n);
      assert forall k :: 0 <= k < |prev| ==> ix[k] == prev[k];
      if rows[n - 1].status == Pending {
        assert ix == prev + [n - 1] && ix[|prev|] == n - 1;
      } else {
        assert ix == prev;
      }
    }
  }

  /** Growing the bound only appends to the list of pending indexes. */
  lemma {:induction false} PendingBelowPrefix(rows: seq<EmailRow>, i: nat, j: nat)
    requires i <= j <= |rows|
    ensures PendingBelow(rows, i) <= PendingBelow(rows, j)
    decreases j - i
  {
    if i < j {
      PendingBelowPrefix(rows, i, j - 1);
    }
  }

  /** The rows `SELECT * FROM email_queue WHERE status = 'pending' LIMIT 10` returns: the first
      ten pending rows in table order, or all of them when there are fewer. */
  function Batch(rows: seq<EmailRow>): (ix: seq<nat>)
  {
    var all := PendingBelow(rows, |rows|);
    if |all| <= BatchSize then all else all[..BatchSize]
  }

  /** The row after one delivery attempt. */
  function Attempted(row: EmailRow, now: int, delivered: EmailRow -> bool): EmailRow
  {
    if delivered(row) then row.(status := Sent, sentAt := Some(now)) else row.(status := Failed)
  }

  /** The table after one run of `processEmailQueue`. */
  function Processed(rows: seq<EmailRow>, now: int, delivered: EmailRow -> bool): (r: seq<EmailRow>)
    ensures |r| == |rows|
  {
    seq(|rows|, i requires 0 <= i < |rows| =>
      if i in Batch(rows) then Attempted(rows[i], now, delivered) else rows[i])
  }

  /** The number of pending rows among the first `n`. */
  function PendingAmong(rows: seq<EmailRow>, n: nat): nat
    requires n <= |rows|
  {
    if n == 0 then 0 else PendingAmong(rows, n - 1) + (if rows[n - 1].status == Pending then 1 else 0)
  }

  function CountPending(rows: seq<EmailRow>): nat
  {
    PendingAmong(rows, |rows|)
  }

  lemma {:induction false} CountPendingIsLength(rows: seq<EmailRow>, n: nat)
    requires n <= |rows|
    ensures PendingAmong(rows, n) == |PendingBelow(rows, n)|
  {
    if n > 0 {
      CountPendingIsLength(rows, n - 1);
    }
  }

  /** The batch holds every pending row when there are at most ten, and ten rows otherwise;
      each is pending and each is taken once. */
  lemma BatchShape(rows: seq<EmailRow>)
    ensures var b := Batch(rows);
      && |b| == (if CountPending(rows) <= BatchSize then CountPending(rows) else BatchSize)
      && (forall k :: 0 <= k < |b| ==> b[k] < |rows| && rows[b[k]].status == Pending)
      && (forall k, l :: 0 <= k < l < |b| ==> b[k] < b[l])
      && (CountPending(rows) <= BatchSize ==> forall i :: 0 <= i < |rows| && rows[i].status == Pending ==> i in b)
  {
    CountPendingIsLength(rows, |rows|);
    PendingBelowExact(rows, |rows|);
  }

  /** A run leaves no row of its batch pending, touches no other row, and so lowers the number
      of pending rows by the batch size. */
  lemma {:induction false} ProcessingDrains(rows: seq<EmailRow>, now: int, delivered: EmailRow -> bool)
    ensures var r := Processed(rows, now, delivered);
      && (forall i :: 0 <= i < |rows| && i in Batch(rows) ==> r[i].status != Pending)
      && (forall i :: 0 <= i < |rows| && i !in Batch(rows) ==> r[i] == rows[i])
      && CountPending(r) + |Batch(rows)| == CountPending(rows)
  {
    var r := Processed(rows, now, delivered);
    var b := Batch(rows);
    BatchShape(rows);
    assert forall i :: 0 <= i < |rows| && i in b ==> r[i].status != Pending;
    assert forall i :: 0 <= i < |rows| && i !in b ==> r[i] == rows[i];
    CountDrop(rows, r, b, |rows|);
    BelowCountAll(b, |rows|);
  }

  /** The pending rows among the first `n` drop by the number of batch indexes below `n`. */
  lemma {:induction false} CountDrop(rows: seq<EmailRow>, r: seq<EmailRow>, b: seq<nat>, n: nat)
    requires |r| == |rows| && n <= |rows|
    requires forall k :: 0 <= k < |b| ==> b[k] < |rows| && rows[b[k]].status == Pending
    requires forall k, l :: 0 <= k < l < |b| ==> b[k] < b[l]
    requires forall i :: 0 <= i < |rows| && i in b ==> r[i].status != Pending
    requires forall i :: 0 <= i < |rows| && i !in b ==> r[i] == rows[i]
    ensures PendingAmong(r, n) + |BelowCount(b, n)| == PendingAmong(rows, n)
  {
    if n > 0 {
      CountDrop(rows, r, b, n - 1);
      BelowCountStep(b, n);
      if n - 1 in b {
        assert rows[n - 1].status == Pending && r[n - 1].status != Pending;
      } else {
        assert r[n - 1] == rows[n - 1];
      }
    } else {
      BelowCountZero(b);
    }
  }

  lemma {:induction false} BelowCountZero(b: seq<nat>)
    ensures BelowCount(b, 0) == []
  {
    if b != [] {
      BelowCountZero(b[1..]);
    }
  }

  /** The entries of `b` below `n`. */
  function BelowCount(b: seq<nat>, n: nat): seq<nat>
  {
    if b == [] then []
    else (if b[0] < n then [b[0]] else []) + BelowCount(b[1..], n)
  }

  lemma {:induction false} BelowCountStep(b: seq<nat>, n: nat)
    requires n > 0
    requires forall k, l :: 0 <= k < l < |b| ==> b[k] < b[l]
    ensures |BelowCount(b, n)| == |BelowCount(b, n - 1)| + (if n - 1 in b then 1 else 0)
  {
    if b != [] {
      assert forall k, l :: 0 <= k < l < |b[1..]| ==> b[1..][k] < b[1..][l] by {
        forall k, l | 0 <= k < l < |b[1..]| ensures b[1..][k] < b[1..][l] {
          assert b[1..][k] == b[k + 1] && b[1..][l] == b[l + 1];
        }
      }
      BelowCountStep(b[1..], n);
      if b[0] == n - 1 {
        assert n - 1 !in b[1..] by {
          forall k | 0 <= k < |b[1..]| ensures b[1..][k] != n - 1 {
            assert b[1..][k] == b[k + 1];
          }
        }
      } else {
        assert n - 1 in b <==> n - 1 in b[1..];
      }
    }
  }

  lemma {:induction false} BelowCountAll(b: seq<nat>, n: nat)
    requires forall k :: 0 <= k < |b| ==> b[k] < n
    ensures BelowCount(b, n) == b
  {
    if b != [] {
      assert forall k :: 0 <= k < |b[1..]| ==> b[1..][k] < n by {
        forall k | 0 <= k < |b[1..]| ensures b[1..][k] < n {
          assert b[1..][k] == b[k + 1];
        }
      }
      BelowCountAll(b[1..], n);
      assert [b[0]] + b[1..] == b;
    }
  }

  /** A queue of at most ten pending rows is drained by one run: none is left pending. */
  lemma SmallQueueDrains(rows: seq<EmailRow>, now: int, delivered: EmailRow -> bool)
    requires CountPending(rows) <= BatchSize
    ensures CountPending(Processed(rows, now, delivered)) == 0
  {
    ProcessingDrains(rows, now, delivered);
    BatchShape(rows);
  }

  class Outbox {
    var rows: seq<EmailRow>

    ghost predicate Valid()
      reads this
    {
      forall i :: 0 <= i < |rows| ==> rows[i].id == i
    }

    constructor ()
      ensures Valid() && rows == []
    {
      rows := [];
    }

    /** `queueEmail`: appends a pending row. */
    method Queue(recipient: string, kind: string, payload: string) returns (id: nat)
      requires Valid()
      modifies this
      ensures Valid()
      ensures id == |old(rows)|
      ensures rows == old(rows) + [EmailRow(id, recipient, kind, payload, Pending, None)]
    {
      id := |rows|;
      rows := rows + [EmailRow(id, recipient, kind, payload, Pending, None)];
    }

    /** The SELECT of `processEmailQueue`. */
    method SelectPending() returns (batch: seq<nat>)
      requires Valid()
      ensures batch == Batch(rows)
    {
      batch := [];
      var i := 0;
      while i < |rows| && |batch| < BatchSize
        invariant 0 <= i <= |rows|
        invariant batch == PendingBelow(rows, i)
        invariant |batch| <= BatchSize
      {
        if rows[i].status == Pending {
          batch := batch + [i];
        }
        i := i + 1;
      }
      PendingBelowPrefix(rows, i, |rows|);
      if i < |rows| {
        assert |batch| == BatchSize;
        assert PendingBelow(rows, |rows|)[..BatchSize] == batch;
      }
    }

    /** `processEmailQueue`: every row of the batch, in order, is marked sent (with its send
        time) when delivered and failed otherwise. */
    method ProcessQueue(now: int, delivered: EmailRow -> bool)
      requires Valid()
      modifies this
      ensures Valid()
      ensures rows == Processed(old(rows), now, delivered)
    {
      var batch := SelectPending();
      BatchShape(rows);
      ghost var done: set<nat> := {};
      var k := 0;
      while k < |batch|
        invariant 0 <= k <= |batch|
        invariant done == set j | 0 <= j < k :: batch[j]
        invariant |rows| == |old(rows)|
        invariant forall i :: 0 <= i < |rows| ==>
          rows[i] == if i in done then Attempted(old(rows)[i], now, delivered) else old(rows)[i]
      {
        var i := batch[k];
        assert i !in done;
        rows := rows[i := Attempted(rows[i], now, delivered)];
        done := done + {i};
        k := k + 1;
      }
      assert forall i :: i in done <==> i in batch;
    }
  }
}
