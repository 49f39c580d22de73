/** The order Go's `<` gives strings, as lists of characters compared left to right. */
module Strings {

  predicate Less(a: string, b: string)
    decreases a
  {
    b != [] && (a == [] || a[0] < b[0] || (a[0] == b[0] && Less(a[1..], b[1..])))
  }

  lemma {:induction false} Trichotomy(a: string, b: string)
    ensures a == b <==> !Less(a, b) && !Less(b, a)
    ensures !(Less(a, b) && Less(b, a))
    decreases a
  {
    if a != [] && b != [] {
      Trichotomy(a[1..], b[1..]);
      assert a == [a[0]] + a[1..] && b == [b[0]] + b[1..];
    }
  }

  lemma {:induction false} Transitive(a: string, b: string, c: string)
    requires Less(a, b) && Less(b, c)
    ensures Less(a, c)
    decreases a
  {
    if a != [] && a[0] == b[0] == c[0] {
      Transitive(a[1..], b[1..], c[1..]);
    }
  }

  /** The first difference is at `i`, and there `a` ends or has the smaller character. */
  predicate LessAt(a: string, b: string, i: nat) {
    i <= |a| && i < |b| && a[..i] == b[..i] && (i == |a| || a[i] < b[i])
  }

  lemma {:induction false} LessIff(a: string, b: string)
    ensures Less(a, b) <==> exists i :: LessAt(a, b, i)
    decreases a
  {
    if Less(a, b) {
      var i := FirstDifference(a, b);
    }
    if i :| LessAt(a, b, i) {
      LessFrom(a, b, i);
    }
  }

  lemma {:induction false} FirstDifference(a: string, b: string) returns (i: nat)
    requires Less(a, b)
    ensures LessAt(a, b, i)
    decreases a
  {
    i := 0;
    if a != [] && a[0] == b[0] {
      var j := FirstDifference(a[1..], b[1..]);
      i := j + 1;
      assert a[..i] == [a[0]] + a[1..][..j] && b[..i] == [b[0]] + b[1..][..j];
    }
  }

  lemma {:induction false} LessFrom(a: string, b: string, i: nat)
    requires LessAt(a, b, i)
    ensures Less(a, b)
    decreases i
  {
    if i > 0 {
      assert a[0] == a[..i][0] && b[0] == b[..i][0];
      assert a[1..][..i - 1] == a[..i][1..] && b[1..][..i - 1] == b[..i][1..];
      LessFrom(a[1..], b[1..], i - 1);
    }
  }
}
