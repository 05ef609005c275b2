/**
 * How the expiry sweep of backend/src/index.ts and the question listings compare timestamps as
 * written.
 *
 * `picked_at` is written by SQLite's CURRENT_TIMESTAMP, text of the form
 * `YYYY-MM-DD HH:MM:SS`; the cutoff is bound as JavaScript's `toISOString()`, text of the form
 * `YYYY-MM-DDTHH:MM:SS.sssZ`. The two texts are compared by SQLite's BINARY collation, that is
 * lexicographically. Within one calendar day the comparison is decided by the separator
 * (' ' sorts before 'T'), not by the time of day: every pick made on the cutoff's day counts as
 * expired. Compared in one and the same format the order of the texts is the chronological
 * order; the sweep in `Scheduler` compares instants.
 *
 * `questions.last_reply_at` mixes the two formats as well: ISO text when the question is asked,
 * CURRENT_TIMESTAMP text once it is replied to, and the listings sort it as text.
 */
module Timestamps {

  /** A UTC date-time by its fields. */
  datatype DateTime = DateTime(year: nat, month: nat, day: nat, hour: nat, minute: nat, second: nat, milli: nat)

  /** Each field fits its zero-padded width. */
  predicate Printable(t: DateTime)
  {
    t.year < 10000 && t.month < 100 && t.day < 100 && t.hour < 100 && t.minute < 100 &&
    t.second < 100 && t.milli < 1000
  }

  /** Chronological order of date-times: field by field, most significant first. */
  predicate Before(a: DateTime, b: DateTime)
  {
    if a.year != b.year then a.year < b.year
    else if a.month != b.month then a.month < b.month
    else if a.day != b.day then a.day < b.day
    else if a.hour != b.hour then a.hour < b.hour
    else if a.minute != b.minute then a.minute < b.minute
    else if a.second != b.second then a.second < b.second
    else a.milli < b.milli
  }

  function Pow10(w: nat): (p: nat)
    ensures p >= 1
  {
    if w == 0 then 1 else 10 * Pow10(w - 1)
  }

  function DigitChar(d: nat): char
    requires d < 10
  {
    ('0' as int + d) as char
  }

  /** `n` in decimal, zero-padded to `w` digits. */
  function Pad(n: nat, w: nat): (s: string)
    ensures |s| == w
  {
    if w == 0 then "" else Pad(n / 10, w - 1) + [DigitChar(n % 10)]
  }

  /** A separator, a padded field, and the rest of the text. */
  function Seg(sep: string, n: nat, w: nat, rest: string): string
  {
    sep + Pad(n, w) + rest
  }

  /** SQLite's CURRENT_TIMESTAMP text. */
  function SqliteText(t: DateTime): string
  {
    Seg("", t.year, 4, Seg("-", t.month, 2, Seg("-", t.day, 2,
      Seg(" ", t.hour, 2, Seg(":", t.minute, 2, Seg(":", t.second, 2, ""))))))
  }

  /** JavaScript's `Date.prototype.toISOString()` text. */
  function IsoText(t: DateTime): string
  {
    Seg("", t.year, 4, Seg("-", t.month, 2, Seg("-", t.day, 2,
      Seg("T", t.hour, 2, Seg(":", t.minute, 2, Seg(":", t.second, 2, Seg(".", t.milli, 3, "Z")))))))
  }

  /** SQLite's BINARY collation on ASCII text: lexicographic, a proper prefix sorts first. */
  predicate TextLess(a: string, b: string)
  {
    if |b| == 0 then false
    else if |a| == 0 then true
    else if a[0] != b[0] then a[0] < b[0]
    else TextLess(a[1..], b[1..])
  }

  /** The sweep's `picked_at < ?` as written: CURRENT_TIMESTAMP text against ISO text. */
  predicate ExpiredAsWritten(pickedAt: DateTime, cutoff: DateTime)
  {
    TextLess(SqliteText(pickedAt), IsoText(cutoff))
  }

  /** The comparison as intended, both sides in one format. */
  predicate ExpiredCorrected(pickedAt: DateTime, cutoff: DateTime)
  {
    TextLess(IsoText(pickedAt), IsoText(cutoff))
  }

  lemma {:induction false} ConcatLess(a1: string, b1: string, a2: string, b2: string)
    requires |a1| == |a2|
    ensures TextLess(a1 + b1, a2 + b2) <==> TextLess(a1, a2) || (a1 == a2 && TextLess(b1, b2))
  {
    if |a1| > 0 {
      assert (a1 + b1)[0] == a1[0] && (a2 + b2)[0] == a2[0];
      assert (a1 + b1)[1..] == a1[1..] + b1 && (a2 + b2)[1..] == a2[1..] + b2;
      ConcatLess(a1[1..], b1, a2[1..], b2);
      if a1[0] == a2[0] {
        assert a1 == a2 <==> a1[1..] == a2[1..] by {
          if a1[1..] == a2[1..] { assert a1 == [a1[0]] + a1[1..] && a2 == [a2[0]] + a2[1..]; }
        }
      }
    } else {
      assert a1 + b1 == b1 && a2 + b2 == b2;
    }
  }

  lemma {:induction false} PadOrder(a: nat, b: nat, w: nat)
    requires a < Pow10(w) && b < Pow10(w)
    ensures TextLess(Pad(a, w), Pad(b, w)) <==> a < b
    ensures Pad(a, w) == Pad(b, w) <==> a == b
  {
    if w > 0 {
      assert a / 10 < Pow10(w - 1) && b / 10 < Pow10(w - 1);
      PadOrder(a / 10, b / 10, w - 1);
      ConcatLess(Pad(a / 10, w - 1), [DigitChar(a % 10)], Pad(b / 10, w - 1), [DigitChar(b % 10)]);
      assert a == 10 * (a / 10) + a % 10 && b == 10 * (b / 10) + b % 10;
      if Pad(a, w) == Pad(b, w) {
        assert Pad(a, w)[w - 1] == DigitChar(a % 10) && Pad(b, w)[w - 1] == DigitChar(b % 10);
        assert Pad(a / 10, w - 1) == Pad(a, w)[..w - 1] && Pad(b / 10, w - 1) == Pad(b, w)[..w - 1];
      }
    }
  }

  lemma {:induction false} CommonPrefix(p: string, a: string, b: string)
    ensures TextLess(p + a, p + b) == TextLess(a, b)
  {
    ConcatLess(p, a, p, b);
    TextLessIrreflexive(p);
  }

  lemma {:induction false} TextLessIrreflexive(s: string)
    ensures !TextLess(s, s)
  {
    if |s| > 0 {
      TextLessIrreflexive(s[1..]);
    }
  }

  /** Two segments with the same separator and width compare by their fields first. */
  lemma SegLess(sep: string, n1: nat, n2: nat, w: nat, r1: string, r2: string)
    requires n1 < Pow10(w) && n2 < Pow10(w)
    ensures TextLess(Seg(sep, n1, w, r1), Seg(sep, n2, w, r2)) <==> n1 < n2 || (n1 == n2 && TextLess(r1, r2))
  {
    assert Seg(sep, n1, w, r1) == sep + (Pad(n1, w) + r1);
    assert Seg(sep, n2, w, r2) == sep + (Pad(n2, w) + r2);
    CommonPrefix(sep, Pad(n1, w) + r1, Pad(n2, w) + r2);
    ConcatLess(Pad(n1, w), r1, Pad(n2, w), r2);
    PadOrder(n1, n2, w);
  }

  /** Corrected: in one format, textual order is chronological order. */
  lemma IsoOrderIsChronological(a: DateTime, b: DateTime)
    requires Printable(a) && Printable(b)
    ensures ExpiredCorrected(a, b) <==> Before(a, b)
  {
    assert Pow10(2) == 100 && Pow10(3) == 1000 && Pow10(4) == 10000;
    assert !TextLess("Z", "Z");
    SegLess(".", a.milli, b.milli, 3, "Z", "Z");
    var s1, s2 := Seg(".", a.milli, 3, "Z"), Seg(".", b.milli, 3, "Z");
    SegLess(":", a.second, b.second, 2, s1, s2);
    var m1, m2 := Seg(":", a.second, 2, s1), Seg(":", b.second, 2, s2);
    SegLess(":", a.minute, b.minute, 2, m1, m2);
    var h1, h2 := Seg(":", a.minute, 2, m1), Seg(":", b.minute, 2, m2);
    SegLess("T", a.hour, b.hour, 2, h1, h2);
    var d1, d2 := Seg("T", a.hour, 2, h1), Seg("T", b.hour, 2, h2);
    SegLess("-", a.day, b.day, 2, d1, d2);
    var o1, o2 := Seg("-", a.day, 2, d1), Seg("-", b.day, 2, d2);
    SegLess("-", a.month, b.month, 2, o1, o2);
    var y1, y2 := Seg("-", a.month, 2, o1), Seg("-", b.month, 2, o2);
    SegLess("", a.year, b.year, 4, y1, y2);
  }

  /** As written: on the cutoff's calendar day every pick counts as expired, whatever its time. */
  lemma SameDayCountsAsExpired(p: DateTime, c: DateTime)
    requires Printable(p) && Printable(c)
    requires p.year == c.year && p.month == c.month && p.day == c.day
    ensures ExpiredAsWritten(p, c)
  {
    assert Pow10(2) == 100 && Pow10(4) == 10000;
    var t1 := Seg(" ", p.hour, 2, Seg(":", p.minute, 2, Seg(":", p.second, 2, "")));
    var t2 := Seg("T", c.hour, 2, Seg(":", c.minute, 2, Seg(":", c.second, 2, Seg(".", c.milli, 3, "Z"))));
    assert TextLess(t1, t2) by {
      assert t1[0] == ' ' && t2[0] == 'T';
    }
    SegLess("-", p.day, c.day, 2, t1, t2);
    SegLess("-", p.month, c.month, 2, Seg("-", p.day, 2, t1), Seg("-", c.day, 2, t2));
    SegLess("", p.year, c.year, 4, Seg("-", p.month, 2, Seg("-", p.day, 2, t1)),
            Seg("-", c.month, 2, Seg("-", c.day, 2, t2)));
  }

  /**
   * As written, `questions.last_reply_at` holds ISO text until the first reply and
   * CURRENT_TIMESTAMP text after it, and `ORDER BY last_reply_at DESC` compares the two as text.
   * A question replied to on the day another was asked sorts below it, whatever the times.
   */
  lemma ReplyTextSortsBelowSameDayAsk(reply: DateTime, ask: DateTime)
    requires Printable(reply) && Printable(ask)
    requires reply.year == ask.year && reply.month == ask.month && reply.day == ask.day
    ensures TextLess(SqliteText(reply), IsoText(ask))
  {
    SameDayCountsAsExpired(reply, ask);
  }

  /** A question asked at 09:00 and never replied to is listed above one replied to at 10:00
      the same day, although its last activity is older. */
  lemma StaleQuestionListedFirst()
    ensures Before(DateTime(2024, 1, 1, 9, 0, 0, 0), DateTime(2024, 1, 1, 10, 0, 0, 0))
    ensures TextLess(SqliteText(DateTime(2024, 1, 1, 10, 0, 0, 0)), IsoText(DateTime(2024, 1, 1, 9, 0, 0, 0)))
    ensures TextLess(IsoText(DateTime(2024, 1, 1, 9, 0, 0, 0)), IsoText(DateTime(2024, 1, 1, 10, 0, 0, 0)))
  {
    ReplyTextSortsBelowSameDayAsk(DateTime(2024, 1, 1, 10, 0, 0, 0), DateTime(2024, 1, 1, 9, 0, 0, 0));
    IsoOrderIsChronological(DateTime(2024, 1, 1, 9, 0, 0, 0), DateTime(2024, 1, 1, 10, 0, 0, 0));
  }

  /** A bottle picked at 11:00 is swept at 13:00 the same day (cutoff 01:00): held two hours,
      it is reclaimed although its pick is after the cutoff. */
  lemma EarlyReclaim()
    ensures ExpiredAsWritten(DateTime(2024, 1, 1, 11, 0, 0, 0), DateTime(2024, 1, 1, 1, 0, 0, 0))
    ensures !Before(DateTime(2024, 1, 1, 11, 0, 0, 0), DateTime(2024, 1, 1, 1, 0, 0, 0))
    ensures !ExpiredCorrected(DateTime(2024, 1, 1, 11, 0, 0, 0), DateTime(2024, 1, 1, 1, 0, 0, 0))
  {
    SameDayCountsAsExpired(DateTime(2024, 1, 1, 11, 0, 0, 0), DateTime(2024, 1, 1, 1, 0, 0, 0));
    IsoOrderIsChronological(DateTime(2024, 1, 1, 11, 0, 0, 0), DateTime(2024, 1, 1, 1, 0, 0, 0));
  }
}
