/** Device identifiers (crates/ud-core/src/identity.rs). They are ordered as strings, and that
    order alone decides every tie between two machines. */
module Identity {
  type DeviceId = string

  /** The derived ordering of identifiers: lexicographic by character. */
  predicate Before(a: DeviceId, b: DeviceId) {
    b != "" && (a == "" || a[0] < b[0] || (a[0] == b[0] && Before(a[1..], b[1..])))
  }

  /** An id comes first if it is smaller at the first difference, or ends before there is one. */
  lemma {:induction false} BeforeMeans(a: DeviceId, b: DeviceId)
    ensures Before(a, b) <==> exists k :: 0 <= k <= |a| && FirstDifference(a, b, k)
  {
    if a != "" && b != "" && a[0] == b[0] {
      BeforeMeans(a[1..], b[1..]);
      if Before(a[1..], b[1..]) {
        var k :| 0 <= k <= |a[1..]| && FirstDifference(a[1..], b[1..], k);
        assert a[..k + 1] == [a[0]] + a[1..][..k] && b[..k + 1] == [b[0]] + b[1..][..k];
        assert FirstDifference(a, b, k + 1);
      }
      if exists k :: 0 <= k <= |a| && FirstDifference(a, b, k) {
        var k :| 0 <= k <= |a| && FirstDifference(a, b, k);
        assert a[1..][..k - 1] == a[..k][1..] && b[1..][..k - 1] == b[..k][1..];
        assert FirstDifference(a[1..], b[1..], k - 1);
      }
    } else if Before(a, b) {
      assert FirstDifference(a, b, 0);
    } else {
      assert forall k :: 0 < k <= |a| && k < |b| && a[..k] == b[..k] ==> a[..k][0] == b[..k][0];
    }
  }

  predicate FirstDifference(a: DeviceId, b: DeviceId, k: nat) {
    k <= |a| && k < |b| && a[..k] == b[..k] && (k == |a| || a[k] < b[k])
  }

  /** Of two different machines exactly one comes first, so both agree on who that is. */
  lemma {:induction false} ExactlyOneComesFirst(a: DeviceId, b: DeviceId)
    requires a != b
    ensures Before(a, b) <==> !Before(b, a)
  {
    if a != "" && b != "" && a[0] == b[0] {
      assert a == [a[0]] + a[1..] && b == [b[0]] + b[1..];
      ExactlyOneComesFirst(a[1..], b[1..]);
    }
  }
}
