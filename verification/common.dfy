/** Optional values, standing for Python's `None`. */
module Wrappers {
  datatype Option<+T> = None | Some(value: T)
}

/**
 * Python's ordering of `str` values (code point by code point, a proper
 * prefix first) and `sorted` applied to a set of strings.
 */
module StringOrder {

  /** `a < b` on Python strings. */
  predicate Less(a: string, b: string)
  {
    if |a| == 0 then |b| > 0
    else if |b| == 0 then false
    else if a[0] == b[0] then Less(a[1..], b[1..])
    else a[0] < b[0]
  }

  lemma {:induction false} LessIrreflexive(a: string)
    ensures !Less(a, a)
  {
    if |a| > 0 {
      LessIrreflexive(a[1..]);
    }
  }

  lemma {:induction false} LessTransitive(a: string, b: string, c: string)
    requires Less(a, b) && Less(b, c)
    ensures Less(a, c)
  {
    if |a| > 0 && |b| > 0 && |c| > 0 && a[0] == b[0] == c[0] {
      LessTransitive(a[1..], b[1..], c[1..]);
    }
  }

  lemma {:induction false} LessTotal(a: string, b: string)
    requires a != b
    ensures Less(a, b) || Less(b, a)
  {
    if |a| > 0 && |b| > 0 && a[0] == b[0] {
      assert a == [a[0]] + a[1..] && b == [b[0]] + b[1..];
      LessTotal(a[1..], b[1..]);
    }
  }

  lemma LessAsymmetric(a: string, b: string)
    requires Less(a, b)
    ensures !Less(b, a)
  {
    if Less(b, a) {
      LessTransitive(a, b, a);
      LessIrreflexive(a);
    }
  }

  /** Strictly ascending, hence free of repetitions. */
  predicate StrictlyAscending(s: seq<string>)
  {
    forall i, j :: 0 <= i < j < |s| ==> Less(s[i], s[j])
  }

  /** The least element of a non-empty set of strings. */
  ghost function Least(s: set<string>): (m: string)
    requires s != {}
    ensures m in s
    ensures forall x :: x in s && x != m ==> Less(m, x)
    decreases |s|
  {
    var x :| x in s;
    if s == {x} then x
    else
      var rest := Least(s - {x});
      if Less(x, rest) then
        assert forall y :: y in s - {x} && y != rest ==> Less(x, y) by {
          forall y | y in s - {x} && y != rest ensures Less(x, y) {
            LessTransitive(x, rest, y);
          }
        }
        x
      else
        LessTotal(x, rest);
        rest
  }

  /** `sorted(s)` for a set of strings. */
  ghost function Sorted(s: set<string>): (r: seq<string>)
    ensures |r| == |s|
    ensures forall x :: x in r <==> x in s
    ensures StrictlyAscending(r)
    decreases |s|
  {
    if s == {} then []
    else
      var m := Least(s);
      var tail := Sorted(s - {m});
      assert StrictlyAscending([m] + tail) by {
        var r := [m] + tail;
        forall i, j | 0 <= i < j < |r| ensures Less(r[i], r[j]) {
          assert r[j] == tail[j - 1] && tail[j - 1] in s - {m};
          if i > 0 {
            assert r[i] == tail[i - 1];
          }
        }
      }
      [m] + tail
  }
}
