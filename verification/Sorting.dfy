/** Byte-wise order of strings and sort.Strings. */
module Sorting {

  predicate Less(a: string, b: string) {
    b != "" && (a == "" || a[0] < b[0] || (a[0] == b[0] && Less(a[1..], b[1..])))
  }

  /** The byte-wise order: a proper start comes first, and otherwise the first byte in which the
      two differ decides. */
  ghost predicate Before(a: string, b: string) {
    || (|a| < |b| && b[..|a|] == a)
    || exists i :: 0 <= i < |a| && i < |b| && Differ(a, b, i) && a[i] < b[i]
  }

  /** The two differ first at i. */
  predicate Differ(a: string, b: string, i: nat) {
    i < |a| && i < |b| && a[..i] == b[..i] && a[i] != b[i]
  }

  lemma DifferLater(a: string, b: string, i: nat)
    requires a != "" && b != "" && a[0] == b[0]
    ensures Differ(a[1..], b[1..], i) <==> Differ(a, b, i + 1)
  {
    if i < |a| - 1 && i < |b| - 1 {
      assert a[..i + 1] == [a[0]] + a[1..][..i];
      assert b[..i + 1] == [b[0]] + b[1..][..i];
      assert a[1..][..i] == a[..i + 1][1..] && b[1..][..i] == b[..i + 1][1..];
    }
  }

  lemma BeforeLater(a: string, b: string)
    requires a != "" && b != "" && a[0] == b[0]
    ensures Before(a, b) <==> Before(a[1..], b[1..])
  {
    if |a| < |b| {
      assert b[..|a|] == [b[0]] + b[1..][..|a| - 1] && a == [a[0]] + a[1..];
      assert b[1..][..|a| - 1] == b[..|a|][1..];
    }
    forall i: nat ensures Differ(a[1..], b[1..], i) <==> Differ(a, b, i + 1) {
      DifferLater(a, b, i);
    }
    if i :| 0 <= i < |a| && i < |b| && Differ(a, b, i) && a[i] < b[i] {
      assert Differ(a[1..], b[1..], i - 1) && a[1..][i - 1] < b[1..][i - 1];
    }
    if i :| 0 <= i < |a[1..]| && i < |b[1..]| && Differ(a[1..], b[1..], i) && a[1..][i] < b[1..][i] {
      assert Differ(a, b, i + 1);
    }
  }

  lemma {:induction false} LessIsBefore(a: string, b: string)
    ensures Less(a, b) <==> Before(a, b)
  {
    if a == "" || b == "" {
    } else if a[0] == b[0] {
      LessIsBefore(a[1..], b[1..]);
      BeforeLater(a, b);
    } else {
      assert Differ(a, b, 0);
      assert forall i: nat :: i > 0 ==> !Differ(a, b, i) by {
        forall i: nat | i > 0 ensures !Differ(a, b, i) {
          assert i < |a| && i < |b| ==> a[..i][0] == a[0] && b[..i][0] == b[0];
        }
      }
      assert |a| < |b| ==> b[..|a|][0] == b[0];
    }
  }

  /** Ascending lists are in byte-wise order. */
  lemma AscendingIsByteOrder(xs: seq<string>)
    ensures Ascending(xs) <==> forall i, j :: 0 <= i < j < |xs| ==> Before(xs[i], xs[j])
  {
    forall i, j | 0 <= i < j < |xs| ensures Less(xs[i], xs[j]) <==> Before(xs[i], xs[j]) {
      LessIsBefore(xs[i], xs[j]);
    }
  }

  lemma {:induction false} LessTotal(a: string, b: string)
    ensures Less(a, b) || a == b || Less(b, a)
    ensures !(Less(a, b) && Less(b, a)) && !Less(a, a)
  {
    if a != "" && b != "" {
      LessTotal(a[1..], b[1..]);
      assert a == [a[0]] + a[1..] && b == [b[0]] + b[1..];
    }
    if a != "" {
      LessTotal(a[1..], a[1..]);
    }
  }

  lemma {:induction false} LessTransitive(a: string, b: string, c: string)
    requires Less(a, b) && Less(b, c)
    ensures Less(a, c)
  {
    if a != "" && a[0] == b[0] == c[0] {
      LessTransitive(a[1..], b[1..], c[1..]);
    }
  }

  ghost predicate Ascending(xs: seq<string>) {
    forall i, j :: 0 <= i < j < |xs| ==> Less(xs[i], xs[j])
  }

  function Insert(x: string, xs: seq<string>): seq<string> {
    if xs == [] then [x]
    else if Less(xs[0], x) then [xs[0]] + Insert(x, xs[1..])
    else [x] + xs
  }

  function Sort(xs: seq<string>): seq<string> {
    if xs == [] then [] else Insert(xs[0], Sort(xs[1..]))
  }

  lemma {:induction false} InsertCorrect(x: string, xs: seq<string>)
    requires Ascending(xs) && x !in xs
    ensures Ascending(Insert(x, xs))
    ensures forall y :: y in Insert(x, xs) <==> y == x || y in xs
  {
    if xs != [] {
      LessTotal(xs[0], x);
      if Less(xs[0], x) {
        InsertCorrect(x, xs[1..]);
        var r := Insert(x, xs[1..]);
        assert forall y :: y in r ==> Less(xs[0], y) by {
          forall y | y in r ensures Less(xs[0], y) {
            if y != x {
              var i :| 0 <= i < |xs[1..]| && xs[1..][i] == y;
              assert xs[i + 1] == y;
            }
          }
        }
      } else {
        forall i | 0 <= i < |xs| ensures Less(x, xs[i]) {
          if i > 0 {
            LessTransitive(x, xs[0], xs[i]);
          }
        }
      }
    }
  }

  /** On a list without duplicates, Sort gives the ascending list of the same elements... */
  lemma {:induction false} SortCorrect(xs: seq<string>)
    requires forall i, j :: 0 <= i < j < |xs| ==> xs[i] != xs[j]
    ensures Ascending(Sort(xs))
    ensures forall y :: y in Sort(xs) <==> y in xs
  {
    if xs != [] {
      SortCorrect(xs[1..]);
      assert xs[0] !in xs[1..];
      InsertCorrect(xs[0], Sort(xs[1..]));
      assert xs == [xs[0]] + xs[1..];
    }
  }

  lemma HeadAside(xs: seq<string>)
    requires xs != [] && Ascending(xs)
    ensures forall y :: y in xs[1..] <==> y in xs && y != xs[0]
  {
    LessTotal(xs[0], xs[0]);
    assert xs == [xs[0]] + xs[1..];
    assert forall i :: 0 < i < |xs| ==> xs[i] != xs[0];
  }

  /** ... and there is only one such list. */
  lemma {:induction false} AscendingUnique(xs: seq<string>, ys: seq<string>)
    requires Ascending(xs) && Ascending(ys)
    requires forall y :: y in xs <==> y in ys
    ensures xs == ys
  {
    if |ys| > 0 {
      assert ys[0] in ys;
    }
    if xs != [] {
      assert xs[0] in ys;
      assert ys[0] in xs;
      var i :| 0 <= i < |ys| && ys[i] == xs[0];
      var j :| 0 <= j < |xs| && xs[j] == ys[0];
      LessTotal(xs[0], ys[0]);
      assert xs[0] == ys[0];
      HeadAside(xs);
      HeadAside(ys);
      AscendingUnique(xs[1..], ys[1..]);
    }
  }
}
