/** Byte strings in the order the storage engine sorts its keys by, and the sorted
    listing of a finite set of them (what an iterator walks over). */
module ByteStrings {

  type byte = b: int | 0 <= b < 256
  type Bytes = seq<byte>

  type uint64 = n: int | 0 <= n < 0x1_0000_0000_0000_0000
  type int64 = n: int | -0x8000_0000_0000_0000 <= n < 0x8000_0000_0000_0000
  type int32 = n: int | -0x8000_0000 <= n < 0x8000_0000

  datatype Option<+T> = None | Some(value: T)

  /** An operation that either yields a value or makes the process panic or fail. */
  datatype Outcome<+T> = Ok(value: T) | Fault

  // ---------- lexicographic order ----------

  predicate Less(a: Bytes, b: Bytes)
  {
    b != [] && (a == [] || a[0] < b[0] || (a[0] == b[0] && Less(a[1..], b[1..])))
  }

  lemma {:induction false} LessTotal(a: Bytes, b: Bytes)
    ensures a == b || Less(a, b) || Less(b, a)
    ensures !(Less(a, b) && Less(b, a))
    ensures a == b ==> !Less(a, b)
  {
    if a != [] && b != [] {
      LessTotal(a[1..], b[1..]);
      assert a == [a[0]] + a[1..] && b == [b[0]] + b[1..];
    }
  }

  lemma {:induction false} LessTransitive(a: Bytes, b: Bytes, c: Bytes)
    requires Less(a, b) && Less(b, c)
    ensures Less(a, c)
  {
    if a != [] && b[0] == a[0] && c[0] == b[0] {
      LessTransitive(a[1..], b[1..], c[1..]);
    }
  }

  lemma {:induction false} LessAfterPrefix(p: Bytes, a: Bytes, b: Bytes)
    ensures Less(p + a, p + b) <==> Less(a, b)
  {
    if p == [] {
      assert p + a == a && p + b == b;
    } else {
      assert (p + a)[1..] == p[1..] + a && (p + b)[1..] == p[1..] + b;
      LessAfterPrefix(p[1..], a, b);
    }
  }

  // ---------- sorted listings ----------

  ghost predicate Ascending(ks: seq<Bytes>)
  {
    forall i, j :: 0 <= i < j < |ks| ==> Less(ks[i], ks[j])
  }

  predicate IsLeast(k: Bytes, s: set<Bytes>)
  {
    k in s && forall x | x in s :: x == k || Less(k, x)
  }

  lemma {:induction false} LeastExists(s: set<Bytes>)
    requires s != {}
    ensures exists k :: IsLeast(k, s)
  {
    var x :| x in s;
    if s == {x} {
      assert IsLeast(x, s);
    } else {
      LeastExists(s - {x});
      var y :| IsLeast(y, s - {x});
      LessTotal(x, y);
      if Less(y, x) {
        assert IsLeast(y, s);
      } else {
        forall z | z in s && z != x ensures Less(x, z) {
          if z != y { LessTransitive(x, y, z); }
        }
        assert IsLeast(x, s);
      }
    }
  }

  lemma LeastUnique(s: set<Bytes>, a: Bytes, b: Bytes)
    requires IsLeast(a, s) && IsLeast(b, s)
    ensures a == b
  {
    LessTotal(a, b);
  }

  ghost function Least(s: set<Bytes>): (k: Bytes)
    requires s != {}
    ensures IsLeast(k, s)
  {
    LeastExists(s);
    var k :| IsLeast(k, s);
    k
  }

  /** The elements of a finite set in ascending order. */
  ghost function Sorted(s: set<Bytes>): (ks: seq<Bytes>)
    ensures Ascending(ks) && |ks| == |s|
    ensures forall k :: k in ks <==> k in s
  {
    if s == {} then []
    else
      var k := Least(s);
      var rest := Sorted(s - {k});
      [k] + rest
  }

  /** There is only one way to list a set in ascending order. */
  lemma {:induction false} AscendingUnique(a: seq<Bytes>, b: seq<Bytes>)
    requires Ascending(a) && Ascending(b)
    requires forall k :: k in a <==> k in b
    ensures a == b
  {
    assert a != [] ==> a[0] in b;
    assert b != [] ==> b[0] in a;
    if a != [] && b != [] {
      LessTotal(a[0], b[0]);
      assert a[0] == b[0];
      forall k ensures k in a[1..] <==> k in b[1..] {
        LessTotal(a[0], a[0]);
        if k in a[1..] { assert k in a && k != a[0]; assert k in b; }
        if k in b[1..] { assert k in b && k != b[0]; assert k in a; }
      }
      AscendingUnique(a[1..], b[1..]);
      assert a == [a[0]] + a[1..] && b == [b[0]] + b[1..];
    }
  }
}
