/** The ascending key order in which contract storage is iterated. */
module KeyOrder {

  predicate Less(a: string, b: string) {
    if b == [] then false
    else if a == [] then true
    else a[0] < b[0] || (a[0] == b[0] && Less(a[1..], b[1..]))
  }

  /** The order of a dictionary: the first difference decides, and a prefix comes first. */
  lemma {:induction false} LessIsLexicographic(a: string, b: string)
    ensures Less(a, b) <==> exists k :: FirstDifference(a, b, k)
  {
    if b != [] && a != [] && a[0] == b[0] {
      LessIsLexicographic(a[1..], b[1..]);
      assert forall k | 0 < k :: FirstDifference(a, b, k) <==> FirstDifference(a[1..], b[1..], k - 1);
      if k :| FirstDifference(a[1..], b[1..], k) { assert FirstDifference(a, b, k + 1); }
    } else if Less(a, b) {
      assert FirstDifference(a, b, 0);
    }
  }

  predicate FirstDifference(a: string, b: string, k: int) {
    && 0 <= k <= |a| && k < |b| && (k < |a| ==> a[k] < b[k])
    && forall i :: 0 <= i < k ==> a[i] == b[i]
  }

  lemma {:induction false} LessIsTotal(a: string, b: string)
    ensures a == b || Less(a, b) || Less(b, a)
  {
    if a != [] && b != [] && a[0] == b[0] {
      LessIsTotal(a[1..], b[1..]);
      if a[1..] == b[1..] { assert a == [a[0]] + a[1..] && b == [b[0]] + b[1..]; }
    }
  }

  lemma {:induction false} LessIsStrict(a: string, b: string)
    requires Less(a, b)
    ensures a != b && !Less(b, a)
  {
    if a != [] && a[0] == b[0] { LessIsStrict(a[1..], b[1..]); }
  }

  lemma {:induction false} LessIsTransitive(a: string, b: string, c: string)
    requires Less(a, b) && Less(b, c)
    ensures Less(a, c)
  {
    if a != [] && a[0] == b[0] == c[0] { LessIsTransitive(a[1..], b[1..], c[1..]); }
  }

  predicate IsLeast(k: string, s: set<string>) {
    k in s && forall x | x in s :: x == k || Less(k, x)
  }

  lemma {:induction false} LeastExists(s: set<string>) returns (k: string)
    requires s != {}
    ensures IsLeast(k, s)
    decreases |s|
  {
    k :| k in s;
    if s != {k} {
      var r := LeastExists(s - {k});
      LessIsTotal(k, r);
      if Less(r, k) { k := r; }
      else {
        forall x | x in s ensures x == k || Less(k, x) {
          if x != k && x != r { LessIsTransitive(k, r, x); }
        }
      }
    }
  }

  function Least(s: set<string>): (k: string)
    requires s != {}
    ensures IsLeast(k, s)
  {
    assert exists k :: IsLeast(k, s) by { var k := LeastExists(s); }
    assert forall x, y | IsLeast(x, s) && IsLeast(y, s) :: x == y by {
      forall x, y | IsLeast(x, s) && IsLeast(y, s) ensures x == y {
        if x != y { LessIsStrict(x, y); }
      }
    }
    var k :| IsLeast(k, s);
    k
  }

  /** The keys of a storage map in iteration order. */
  function SortedKeys(s: set<string>): seq<string>
    decreases |s|
  {
    if s == {} then []
    else
      var k := Least(s);
      [k] + SortedKeys(s - {k})
  }

  ghost predicate Ascending(ks: seq<string>) {
    forall i, j :: 0 <= i < j < |ks| ==> Less(ks[i], ks[j])
  }

  /** Iteration visits every key once, in ascending order. */
  lemma {:induction false} SortedKeysVisitAll(s: set<string>)
    ensures var ks := SortedKeys(s);
            && Ascending(ks)
            && (forall k :: k in ks <==> k in s)
            && |ks| == |s|
    decreases |s|
  {
    if s != {} {
      var k := Least(s);
      SortedKeysVisitAll(s - {k});
      var ks := SortedKeys(s);
      assert ks[1..] == SortedKeys(s - {k});
      assert forall x :: x in ks <==> x == k || x in ks[1..];
      forall i, j | 0 <= i < j < |ks| ensures Less(ks[i], ks[j]) {
        if i == 0 {
          assert ks[j] == ks[1..][j - 1];
          assert ks[j] in s - {k};
        } else {
          assert ks[i] == ks[1..][i - 1] && ks[j] == ks[1..][j - 1];
        }
      }
    }
  }

  lemma AscendingIsDistinct(ks: seq<string>, i: nat, j: nat)
    requires Ascending(ks) && i < |ks| && j < |ks| && ks[i] == ks[j]
    ensures i == j
  {
    if i < j { LessIsStrict(ks[i], ks[j]); }
    if j < i { LessIsStrict(ks[j], ks[i]); }
  }
}
