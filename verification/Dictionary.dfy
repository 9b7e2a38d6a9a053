/** The order of a dictionary, by the codes of characters. */
module Dictionary {

  /** The sequences agree up to `k`, where `x` ends or has the smaller character. */
  ghost predicate LessAt<T>(code: T -> int, x: seq<T>, y: seq<T>, k: nat) {
    k <= |x| && k < |y| && x[..k] == y[..k] && (k == |x| || code(x[k]) < code(y[k]))
  }

  ghost predicate Precedes<T>(code: T -> int, x: seq<T>, y: seq<T>) {
    exists k: nat :: LessAt(code, x, y, k)
  }

  lemma FirstDiffers<T>(code: T -> int, x: seq<T>, y: seq<T>)
    requires x == [] || y == [] || x[0] != y[0]
    ensures Precedes(code, x, y) <==> y != [] && (x == [] || code(x[0]) < code(y[0]))
  {
    if Precedes(code, x, y) {
      var k: nat :| LessAt(code, x, y, k);
      if k > 0 { SameFirst(x, y, k); }
    }
    if y != [] && (x == [] || code(x[0]) < code(y[0])) { assert LessAt(code, x, y, 0); }
  }

  lemma SameFirst<T>(x: seq<T>, y: seq<T>, k: nat)
    requires 0 < k <= |x| && k <= |y| && x[..k] == y[..k]
    ensures x[0] == y[0]
  {
    assert x[0] == x[..k][0] == y[..k][0] == y[0];
  }

  lemma FirstEqual<T>(code: T -> int, x: seq<T>, y: seq<T>)
    requires x != [] && y != [] && x[0] == y[0]
    ensures Precedes(code, x, y) <==> Precedes(code, x[1..], y[1..])
  {
    if Precedes(code, x, y) {
      var k: nat :| LessAt(code, x, y, k);
      assert k > 0;
      assert x[1..][..k - 1] == x[..k][1..] && y[1..][..k - 1] == y[..k][1..];
      assert LessAt(code, x[1..], y[1..], k - 1);
    }
    if Precedes(code, x[1..], y[1..]) {
      var k: nat :| LessAt(code, x[1..], y[1..], k);
      assert x[..k + 1] == [x[0]] + x[1..][..k] && y[..k + 1] == [y[0]] + y[1..][..k];
      assert LessAt(code, x, y, k + 1);
    }
  }
}
