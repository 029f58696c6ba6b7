/** The byte order of strings: what a `BTreeMap<String, _>` iterates in and what `sort` sorts by. */
module ByteOrder {
  import opened Bytes

  predicate Less(a: Bytes, b: Bytes) {
    b != [] && (a == [] || a[0] < b[0] || (a[0] == b[0] && Less(a[1..], b[1..])))
  }

  lemma {:induction false} LessIsTotal(a: Bytes, b: Bytes)
    ensures a == b || Less(a, b) || Less(b, a)
    ensures !(Less(a, b) && Less(b, a)) && !Less(a, a)
    decreases |a|
  {
    if a != [] {
      LessIsTotal(a[1..], a[1..]);
      if b != [] {
        LessIsTotal(a[1..], b[1..]);
        assert a == [a[0]] + a[1..] && b == [b[0]] + b[1..];
      }
    }
  }

  lemma {:induction false} LessIsTransitive(a: Bytes, b: Bytes, c: Bytes)
    requires Less(a, b) && Less(b, c)
    ensures Less(a, c)
    decreases |a|
  {
    if a != [] && a[0] == b[0] && b[0] == c[0] {
      LessIsTransitive(a[1..], b[1..], c[1..]);
    }
  }

  ghost predicate IsLeast(k: Bytes, keys: set<Bytes>) {
    k in keys && forall other | other in keys :: other == k || Less(k, other)
  }

  lemma {:induction false} LeastExists(keys: set<Bytes>)
    requires keys != {}
    ensures exists k :: IsLeast(k, keys)
    decreases keys
  {
    var x :| x in keys;
    if keys == {x} {
      assert IsLeast(x, keys);
    } else {
      LeastExists(keys - {x});
      var k :| IsLeast(k, keys - {x});
      LessIsTotal(x, k);
      if Less(x, k) {
        forall other | other in keys ensures other == x || Less(x, other) {
          if other != x && other != k {
            LessIsTransitive(x, k, other);
          }
        }
        assert IsLeast(x, keys);
      } else {
        assert IsLeast(k, keys);
      }
    }
  }

  lemma LeastIsUnique(a: Bytes, b: Bytes, keys: set<Bytes>)
    requires IsLeast(a, keys) && IsLeast(b, keys)
    ensures a == b
  {
    LessIsTotal(a, b);
  }

  /** The first key an ordered map iterates. */
  ghost function Least(keys: set<Bytes>): (k: Bytes)
    requires keys != {}
    ensures IsLeast(k, keys)
  {
    LeastExists(keys);
    var k :| IsLeast(k, keys);
    k
  }
}
