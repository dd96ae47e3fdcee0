/** Names of links and joints, in the order of their code points: what sorting strings by `cmp` relies on. */
module Names {
  type Name = string

  /** Lexicographic order by code point. */
  predicate Less(a: Name, b: Name)
  {
    b != [] && (a == [] || a[0] < b[0] || (a[0] == b[0] && Less(a[1..], b[1..])))
  }

  lemma {:induction false} LessIsStrict(a: Name, b: Name)
    ensures !(Less(a, b) && Less(b, a))
    ensures a != b ==> Less(a, b) || Less(b, a)
  {
    if a != [] && b != [] && a[0] == b[0] {
      LessIsStrict(a[1..], b[1..]);
      assert a == [a[0]] + a[1..] && b == [b[0]] + b[1..];
    }
  }

  lemma {:induction false} LessIsTransitive(a: Name, b: Name, c: Name)
    requires Less(a, b) && Less(b, c)
    ensures Less(a, c)
  {
    if a != [] && a[0] == b[0] == c[0] { LessIsTransitive(a[1..], b[1..], c[1..]); }
  }

  /** A name comes before another just when it is a proper prefix of it, or has the smaller character where they first differ. */
  lemma {:induction false} LessIff(a: Name, b: Name)
    ensures Less(a, b) <==> (a < b || exists k: nat :: FirstDiffers(a, b, k) && a[k] < b[k])
  {
    if a != [] && b != [] && a[0] == b[0] {
      LessIff(a[1..], b[1..]);
      assert a < b <==> a[1..] < b[1..] by {
        assert a == [a[0]] + a[1..] && b == [b[0]] + b[1..];
      }
      forall k: nat ensures FirstDiffers(a, b, k + 1) <==> FirstDiffers(a[1..], b[1..], k) {
        LaterDiffers(a, b, k);
      }
      assert !FirstDiffers(a, b, 0);
      if k: nat :| FirstDiffers(a, b, k) && a[k] < b[k] { assert FirstDiffers(a[1..], b[1..], k - 1); }
      if k: nat :| FirstDiffers(a[1..], b[1..], k) && a[1..][k] < b[1..][k] { assert FirstDiffers(a, b, k + 1); }
    } else if a != [] && b != [] {
      assert FirstDiffers(a, b, 0);
    }
  }

  predicate FirstDiffers(a: Name, b: Name, k: nat)
  {
    k < |a| && k < |b| && a[k] != b[k] && a[..k] == b[..k]
  }

  lemma LaterDiffers(a: Name, b: Name, k: nat)
    requires a != [] && b != [] && a[0] == b[0]
    ensures FirstDiffers(a, b, k + 1) <==> FirstDiffers(a[1..], b[1..], k)
  {
    if k + 1 <= |a| && k + 1 <= |b| {
      assert a[..k + 1] == [a[0]] + a[1..][..k] && b[..k + 1] == [b[0]] + b[1..][..k];
      assert a[..k + 1][1..] == a[1..][..k] && b[..k + 1][1..] == b[1..][..k];
    }
  }
}
