// Orders, prefixes and searches on strings that several layers share.  Keys are compared character by
// character; on valid UTF-8 this is the byte order Go and S3 use.
module Strings {
  import opened Core

  predicate EndsWith(s: string, suffix: string) { |suffix| <= |s| && s[|s| - |suffix|..] == suffix }

  /** Lexicographic order: the order S3 lists keys in, and Go's < on strings. */
  predicate Less(a: string, b: string) {
    if b == "" then false else if a == "" then true else a[0] < b[0] || (a[0] == b[0] && Less(a[1..], b[1..]))
  }

  /** Position of the first occurrence of `sep` in `s`. */
  function IndexOf(s: string, sep: string): Option<nat> {
    if sep <= s then Some(0)
    else if s == "" then None
    else
      var rest := IndexOf(s[1..], sep);
      if rest.None? then None else Some(rest.value + 1)
  }

  lemma {:induction false} IndexInRange(s: string, sep: string)
    requires IndexOf(s, sep).Some?
    ensures IndexOf(s, sep).value + |sep| <= |s|
  {
    if !(sep <= s) { IndexInRange(s[1..], sep); }
  }

  lemma {:induction false} LessPrefixed(p: string, a: string, b: string)
    ensures Less(p + a, p + b) <==> Less(a, b)
  {
    if p == "" {
      assert p + a == a && p + b == b;
    } else {
      assert (p + a)[1..] == p[1..] + a && (p + b)[1..] == p[1..] + b;
      LessPrefixed(p[1..], a, b);
    }
  }

  /** Less compares at the first difference; a string that ends there comes first. */
  lemma {:induction false} LessExactly(a: string, b: string)
    ensures Less(a, b) <==>
            exists k: nat :: k <= |a| && k < |b| && a[..k] == b[..k] && (k == |a| || a[k] < b[k])
  {
    if a != "" && b != "" {
      LessExactly(a[1..], b[1..]);
      var x, y := a[1..], b[1..];
      if k: nat :| k <= |x| && k < |y| && x[..k] == y[..k] && (k == |x| || x[k] < y[k]) {
        if a[0] == b[0] { assert a[..k + 1] == [a[0]] + x[..k] == b[..k + 1]; }
      }
      if k: nat :| k <= |a| && k < |b| && a[..k] == b[..k] && (k == |a| || a[k] < b[k]) {
        if k > 0 {
          assert a[0] == a[..k][0] == b[..k][0] == b[0];
          assert a[1..][..k - 1] == a[..k][1..] == b[1..][..k - 1];
        }
      }
    } else if b != "" {
      assert a[..0] == b[..0];
    }
  }

  lemma {:induction false} LessTotal(a: string, b: string)
    ensures Less(a, b) || Less(b, a) || a == b
    ensures !(Less(a, b) && Less(b, a))
  {
    if a != "" && b != "" { LessTotal(a[1..], b[1..]); }
  }

  lemma {:induction false} LessTransitive(a: string, b: string, c: string)
    requires Less(a, b) && Less(b, c)
    ensures Less(a, c)
  {
    if a != "" && a[0] == b[0] && b[0] == c[0] { LessTransitive(a[1..], b[1..], c[1..]); }
  }

  /** A prefix of a smaller string is smaller too. */
  lemma {:induction false} PrefixOfSmaller(c: string, a: string, b: string)
    requires c <= a && Less(a, b)
    ensures Less(c, b)
  {
    if c != "" && a[0] == b[0] { PrefixOfSmaller(c[1..], a[1..], b[1..]); }
  }

  /** A prefix of a larger string is larger too, unless it is a prefix of both. */
  lemma {:induction false} PrefixOfLarger(a: string, b: string, c: string)
    requires c <= b && Less(a, b) && !(c <= a)
    ensures Less(a, c)
  {
    if a != "" && a[0] == b[0] {
      assert c[1..] <= a[1..] ==> c <= a;
      PrefixOfLarger(a[1..], b[1..], c[1..]);
    }
  }

  /** IndexOf finds the first occurrence. */
  lemma {:induction false} IndexIsFirst(s: string, sep: string, i: nat)
    requires i <= |s| && sep <= s[i..]
    ensures IndexOf(s, sep).Some? && IndexOf(s, sep).value <= i
  {
    if i == 0 {
      assert s[i..] == s;
    } else if !(sep <= s) {
      assert s[1..][i - 1..] == s[i..];
      IndexIsFirst(s[1..], sep, i - 1);
    }
  }

  lemma {:induction false} IndexHits(s: string, sep: string)
    requires IndexOf(s, sep).Some?
    ensures IndexOf(s, sep).value <= |s| && sep <= s[IndexOf(s, sep).value..]
  {
    if sep <= s {
      assert s[0..] == s;
    } else {
      IndexHits(s[1..], sep);
      assert s[1..][IndexOf(s[1..], sep).value..] == s[IndexOf(s, sep).value..];
    }
  }

  lemma {:induction false} NotLessThanPrefix(a: string, c: string)
    requires c <= a
    ensures !Less(a, c)
  {
    if c != "" { NotLessThanPrefix(a[1..], c[1..]); }
  }

  /** A string larger than `a`, and not an extension of it, is larger than every extension of `a`. */
  lemma {:induction false} LargerThanExtension(a: string, b: string, x: string)
    requires Less(a, b) && !(a <= b)
    ensures Less(a + x, b)
  {
    if a[0] == b[0] {
      assert a[1..] <= b[1..] ==> a <= b;
      LargerThanExtension(a[1..], b[1..], x);
      assert (a + x)[1..] == a[1..] + x;
    }
  }

  lemma {:induction false} LessThanExtension(a: string, x: string)
    requires x != ""
    ensures Less(a, a + x)
  {
    if a == "" {
      assert a + x == x;
    } else {
      LessThanExtension(a[1..], x);
      assert (a + x)[1..] == a[1..] + x;
    }
  }
}
