/**
 * The listing order of the operator's appointment index: start time
 * ascending, then the patient's name lowercased, ascending.
 *
 * `lower` is modelled as ASCII lowercasing and string comparison as
 * lexicographic order on code points; the database collation is not part
 * of this model.
 */
module Ordering {
  import opened Appointments

  function LowerChar(c: char): char {
    if 'A' <= c <= 'Z' then (c as int + 32) as char else c
  }

  /** Two characters are the same letter up to ASCII case, or simply equal. */
  predicate SameCharUpToAsciiCase(c: char, d: char) {
    || c == d
    || ('A' <= c <= 'Z' && d as int == c as int + 32)
    || ('A' <= d <= 'Z' && c as int == d as int + 32)
  }

  /** Two strings spell the same text if ASCII letter case is ignored. */
  predicate SameUpToAsciiCase(s: string, t: string) {
    |s| == |t| && forall i :: 0 <= i < |s| ==> SameCharUpToAsciiCase(s[i], t[i])
  }

  /**
   * SQL `lower(name)`, on ASCII letters: the result spells the same text as
   * the input up to case and holds no upper-case ASCII letter.
   */
  function Lower(s: string): (r: string)
    ensures SameUpToAsciiCase(s, r)
    ensures forall i :: 0 <= i < |r| ==> !('A' <= r[i] <= 'Z')
  {
    seq(|s|, i requires 0 <= i < |s| => LowerChar(s[i]))
  }

  /**
   * Lowercasing identifies exactly the names that differ only in ASCII
   * letter case: that is what ordering by `lower(name)` ignores.
   */
  lemma LowerIdentifiesCaseVariants(s: string, t: string)
    ensures Lower(s) == Lower(t) <==> SameUpToAsciiCase(s, t)
  {
  }

  /** Lexicographic "at most" on strings: a prefix comes first. */
  predicate LexLe(a: string, b: string)
    decreases |a|
  {
    |a| == 0 || (|b| > 0 && (a[0] < b[0] || (a[0] == b[0] && LexLe(a[1..], b[1..]))))
  }

  lemma {:induction false} LexLeTotal(a: string, b: string)
    ensures LexLe(a, b) || LexLe(b, a)
    decreases |a|
  {
    if |a| > 0 && |b| > 0 && a[0] == b[0] {
      LexLeTotal(a[1..], b[1..]);
    }
  }

  lemma {:induction false} LexLeTransitive(a: string, b: string, c: string)
    requires LexLe(a, b) && LexLe(b, c)
    ensures LexLe(a, c)
    decreases |a|
  {
    if |a| > 0 && a[0] == b[0] && b[0] == c[0] {
      LexLeTransitive(a[1..], b[1..], c[1..]);
    }
  }

  lemma {:induction false} LexLeAntisymmetric(a: string, b: string)
    requires LexLe(a, b) && LexLe(b, a)
    ensures a == b
    decreases |a|
  {
    if |a| > 0 {
      LexLeAntisymmetric(a[1..], b[1..]);
      assert a == [a[0]] + a[1..];
      assert b == [b[0]] + b[1..];
    }
  }

  /** `x` may be listed before `y`: earlier start, or same start and name not after. */
  predicate ListedBefore(x: Appointment, y: Appointment) {
    x.start < y.start
    || (x.start == y.start && LexLe(Lower(x.patientName), Lower(y.patientName)))
  }

  /**
   * The tie-break is case-insensitive: two appointments at the same start
   * whose names differ only in letter case may be listed either way round.
   */
  lemma ListedBeforeIgnoresCase(x: Appointment, y: Appointment)
    requires x.start == y.start && SameUpToAsciiCase(x.patientName, y.patientName)
    ensures ListedBefore(x, y) && ListedBefore(y, x)
  {
    LowerIdentifiesCaseVariants(x.patientName, y.patientName);
    LexLeReflexive(Lower(x.patientName));
  }

  lemma {:induction false} LexLeReflexive(a: string)
    ensures LexLe(a, a)
    decreases |a|
  {
    if |a| > 0 {
      LexLeReflexive(a[1..]);
    }
  }

  lemma ListedBeforeTotal(x: Appointment, y: Appointment)
    ensures ListedBefore(x, y) || ListedBefore(y, x)
  {
    LexLeTotal(Lower(x.patientName), Lower(y.patientName));
  }

  lemma ListedBeforeTransitive(x: Appointment, y: Appointment, z: Appointment)
    requires ListedBefore(x, y) && ListedBefore(y, z)
    ensures ListedBefore(x, z)
  {
    if x.start == y.start && y.start == z.start {
      LexLeTransitive(Lower(x.patientName), Lower(y.patientName), Lower(z.patientName));
    }
  }

  /** Every earlier row may be listed before every later row. */
  ghost predicate Sorted(s: seq<Appointment>) {
    forall i, j :: 0 <= i < j < |s| ==> ListedBefore(s[i], s[j])
  }

  /** Inserts `x` into an already ordered listing. */
  function Insert(x: Appointment, s: seq<Appointment>): (r: seq<Appointment>)
    requires Sorted(s)
    ensures Sorted(r)
    ensures multiset(r) == multiset(s) + multiset{x}
    decreases |s|
  {
    if |s| == 0 then [x]
    else if ListedBefore(x, s[0]) then
      assert forall j :: 0 <= j < |s| ==> ListedBefore(x, s[j]) by {
        forall j | 0 <= j < |s|
          ensures ListedBefore(x, s[j])
        {
          if j > 0 { ListedBeforeTransitive(x, s[0], s[j]); }
        }
      }
      [x] + s
    else
      ListedBeforeTotal(x, s[0]);
      assert s == [s[0]] + s[1..];
      var t := Insert(x, s[1..]);
      assert forall k :: 0 <= k < |t| ==> ListedBefore(s[0], t[k]) by {
        forall k | 0 <= k < |t|
          ensures ListedBefore(s[0], t[k])
        {
          assert t[k] in multiset(t);
          if t[k] != x {
            assert t[k] in multiset(s[1..]);
            var j :| 0 <= j < |s[1..]| && s[1..][j] == t[k];
            assert s[j + 1] == t[k];
          }
        }
      }
      [s[0]] + t
  }

  /** Orders a listing the way the index action does. */
  function SortListing(s: seq<Appointment>): (r: seq<Appointment>)
    ensures Sorted(r)
    ensures multiset(r) == multiset(s)
    decreases |s|
  {
    if |s| == 0 then []
    else
      assert s == [s[0]] + s[1..];
      Insert(s[0], SortListing(s[1..]))
  }
}
