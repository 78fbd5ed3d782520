/** Small shared vocabulary: optional values and arithmetic on a real clock. */
module Prelude {

  datatype Option<+T> = None | Some(value: T)

  function Min(a: real, b: real): real {
    if a <= b then a else b
  }

  function Max(a: real, b: real): real {
    if a >= b then a else b
  }

  /** Splitting a finite set by a two-valued test splits its size. */
  lemma SplitCardinality<T>(s: set<T>, a: set<T>, b: set<T>)
    requires a + b == s && a !! b
    ensures |s| == |a| + |b|
  {
  }

  // ----- text in code-point order, as Python and SQL compare it -----

  predicate TextLe(a: string, b: string) {
    a == "" || (b != "" && (a[0] < b[0] || (a[0] == b[0] && TextLe(a[1..], b[1..]))))
  }

  /** The shorter of two texts with a common start comes first; otherwise the first difference decides. */
  lemma {:induction false} TextLeExact(a: string, b: string)
    ensures TextLe(a, b) <==> a <= b || exists k: nat :: Differ(a, b, k) && a[k] < b[k]
  {
    if a != "" && b != "" {
      forall k: nat | Differ(a, b, k) && k > 0 ensures a[0] == b[0] {
        assert a[0] == a[..k][0] && b[0] == b[..k][0];
      }
      if a[0] == b[0] {
        TextLeExact(a[1..], b[1..]);
        assert a <= b <==> a[1..] <= b[1..] by {
          assert a == [a[0]] + a[1..] && b == [b[0]] + b[1..];
        }
        forall k: nat | Differ(a[1..], b[1..], k) ensures Differ(a, b, k + 1) {
          assert a[..k + 1] == [a[0]] + a[1..][..k] && b[..k + 1] == [b[0]] + b[1..][..k];
        }
        forall k: nat | Differ(a, b, k) ensures k > 0 && Differ(a[1..], b[1..], k - 1) {
          assert a[1..][..k - 1] == a[..k][1..] && b[1..][..k - 1] == b[..k][1..];
        }
      } else {
        assert Differ(a, b, 0);
      }
    }
  }

  /** Where two texts differ first. */
  predicate Differ(a: string, b: string, k: nat) {
    k < |a| && k < |b| && a[..k] == b[..k] && a[k] != b[k]
  }

  lemma TextLeTotal(a: string, b: string)
    ensures TextLe(a, b) || TextLe(b, a)
  {
  }

  lemma TextLeTrans(a: string, b: string, c: string)
    requires TextLe(a, b) && TextLe(b, c)
    ensures TextLe(a, c)
  {
  }

  lemma {:induction false} TextLeAntisym(a: string, b: string)
    requires TextLe(a, b) && TextLe(b, a)
    ensures a == b
  {
    if a != "" && b != "" {
      TextLeAntisym(a[1..], b[1..]);
      assert a == [a[0]] + a[1..] && b == [b[0]] + b[1..];
    }
  }
}
