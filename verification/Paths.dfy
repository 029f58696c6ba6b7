/** File paths as a map compares them: by their components, not their spelling. */
module Paths {
  import opened Bytes
  import opened ByteOrder

  const CURRENT: Bytes := "."
  const PARENT: Bytes := ".."

  /** Whether a path starts at the root, and its components: repeated and trailing separators and inner
      `.` are no component, a leading `.` is. */
  datatype PathKey = PathKey(rooted: bool, names: seq<Bytes>)

  function Segments(path: Bytes): (s: seq<Bytes>)
    ensures s != []
  {
    if path == [] then [[]]
    else
      var s := Segments(path[..|path| - 1]);
      var c := path[|path| - 1];
      if c == '/' then s + [[]] else s[..|s| - 1] + [s[|s| - 1] + [c]]
  }

  predicate IsComponent(segment: Bytes, first: bool) { segment != [] && (segment != CURRENT || first) }

  function Components(segments: seq<Bytes>): seq<Bytes> {
    if segments == [] then []
    else
      var n := |segments| - 1;
      Components(segments[..n]) + if IsComponent(segments[n], n == 0) then [segments[n]] else []
  }

  function Key(path: Bytes): PathKey { PathKey(path != [] && path[0] == '/', Components(Segments(path))) }

  // ---- their order -----------------------------------------------------------------------

  function Tier(name: Bytes): nat { if name == CURRENT then 0 else if name == PARENT then 1 else 2 }

  predicate NameLess(a: Bytes, b: Bytes) { Tier(a) < Tier(b) || (Tier(a) == Tier(b) && Less(a, b)) }

  predicate NamesLess(a: seq<Bytes>, b: seq<Bytes>) {
    b != [] && (a == [] || NameLess(a[0], b[0]) || (a[0] == b[0] && NamesLess(a[1..], b[1..])))
  }

  /** The root comes before any name, and after nothing at all. */
  predicate KeyLess(a: PathKey, b: PathKey) {
    if a.rooted == b.rooted then NamesLess(a.names, b.names) else if a.rooted then b.names != [] else a.names == []
  }

  lemma {:induction false} NamesLessIsStrict(a: seq<Bytes>, b: seq<Bytes>)
    ensures !(NamesLess(a, b) && NamesLess(b, a))
    decreases |a|
  {
    if a != [] && b != [] {
      LessIsTotal(a[0], b[0]);
      LessIsTotal(a[0], a[0]);
      NamesLessIsStrict(a[1..], b[1..]);
    }
  }

  lemma KeyLessIsStrict(a: PathKey, b: PathKey)
    ensures !(KeyLess(a, b) && KeyLess(b, a))
  {
    NamesLessIsStrict(a.names, b.names);
  }

  /** What differs first decides. */
  lemma {:induction false} NamesLessAt(init: seq<Bytes>, a: seq<Bytes>, b: seq<Bytes>)
    requires NamesLess(a, b)
    ensures NamesLess(init + a, init + b)
    decreases |init|
  {
    if init == [] {
      assert [] + a == a && [] + b == b;
    } else {
      NamesLessAt(init[1..], a, b);
      assert (init + a)[1..] == init[1..] + a && (init + b)[1..] == init[1..] + b;
    }
  }

  // ---- a carriage return after a path ------------------------------------------------------

  const RETURN: Bytes := "\r"
  const DOT_RETURN: Bytes := ".\r"

  predicate HasName(k: PathKey) { k.names != [] }

  function LastName(k: PathKey): Bytes
    requires HasName(k)
  {
    k.names[|k.names| - 1]
  }

  /** The keys a spelling of `k` can have with a carriage return after it: the return joins the last
      component, or is one, or joins a trailing `.` that was none. */
  function InName(k: PathKey): PathKey
    requires HasName(k)
  {
    k.(names := k.names[..|k.names| - 1] + [LastName(k) + RETURN])
  }

  function OwnName(k: PathKey): PathKey { k.(names := k.names + [RETURN]) }

  function DotName(k: PathKey): PathKey { k.(names := k.names + [DOT_RETURN]) }

  /** All of them, in the map's order backwards. */
  function ReturnKeys(k: PathKey): seq<PathKey> { (if HasName(k) then [InName(k)] else []) + [DotName(k), OwnName(k)] }

  lemma WithReturn(path: Bytes)
    requires path != []
    ensures Key(path + RETURN) in ReturnKeys(Key(path))
  {
    var whole := path + RETURN;
    assert whole[..|whole| - 1] == path && whole[|whole| - 1] == '\r';
    var s := Segments(path);
    var init, last := s[..|s| - 1], s[|s| - 1];
    var s' := init + [last + ['\r']];
    assert Segments(whole) == s';
    assert s'[..|s'| - 1] == init && s'[|s'| - 1] == last + ['\r'];
    assert (last + ['\r'])[|last|] == '\r';
    assert Components(s') == Components(init) + [last + ['\r']];
    ReturnJoins(Key(path), Components(init), last, |s| == 1);
  }

  lemma ReturnJoins(k: PathKey, before: seq<Bytes>, last: Bytes, first: bool)
    requires k.names == before + if IsComponent(last, first) then [last] else []
    ensures k.(names := before + [last + ['\r']]) in ReturnKeys(k)
  {
    if IsComponent(last, first) {
      assert k.names[..|k.names| - 1] == before;
    } else if last == [] {
      assert last + ['\r'] == RETURN && before == k.names;
    } else {
      assert last + ['\r'] == DOT_RETURN && before == k.names;
    }
  }

  lemma {:induction false} LongerIsLess(name: Bytes, more: Bytes)
    requires more != []
    ensures Less(name, name + more)
  {
    if name == [] {
      assert [] + more == more;
    } else {
      LongerIsLess(name[1..], more);
      assert (name + more)[1..] == name[1..] + more;
    }
  }

  lemma ReturnedIsGreater(name: Bytes)
    ensures NameLess(name, name + RETURN)
  {
    LongerIsLess(name, RETURN);
    assert (name + RETURN)[|name|] == '\r';
    assert Tier(name + RETURN) == 2;
  }

  /** Those keys in the map's order: after the path itself, the return its own component, the return on
      a dot, the return in the last component. */
  lemma ReturnsAreOrdered(k: PathKey)
    ensures KeyLess(k, OwnName(k)) && KeyLess(OwnName(k), DotName(k))
    ensures KeyLess(k, DotName(k)) && (HasName(k) ==> KeyLess(k, InName(k)))
    ensures HasName(k) ==> KeyLess(DotName(k), InName(k)) && KeyLess(OwnName(k), InName(k))
  {
    assert NamesLess([], [DOT_RETURN]);
    NamesLessAt(k.names, [], [DOT_RETURN]);
    assert NamesLess([], [RETURN]) && Less(RETURN, DOT_RETURN) && NamesLess([RETURN], [DOT_RETURN]);
    NamesLessAt(k.names, [], [RETURN]);
    assert k.names + [] == k.names;
    NamesLessAt(k.names, [RETURN], [DOT_RETURN]);
    if HasName(k) {
      var init, last := k.names[..|k.names| - 1], LastName(k);
      ReturnedIsGreater(last);
      assert NamesLess([last], [last + RETURN]);
      NamesLessAt(init, [last], [last + RETURN]);
      assert init + [last] == k.names;
      assert NamesLess([last] + [RETURN], [last + RETURN]) && NamesLess([last] + [DOT_RETURN], [last + RETURN]);
      NamesLessAt(init, [last] + [RETURN], [last + RETURN]);
      NamesLessAt(init, [last] + [DOT_RETURN], [last + RETURN]);
      assert init + ([last] + [RETURN]) == k.names + [RETURN] && init + ([last] + [DOT_RETURN]) == k.names + [DOT_RETURN];
    }
  }

  ghost predicate Descending(keys: seq<PathKey>) { forall i, j | 0 <= i < j < |keys| :: KeyLess(keys[j], keys[i]) }

  lemma ReturnsDescend(k: PathKey)
    ensures Descending(ReturnKeys(k)) && forall key :: key in ReturnKeys(k) ==> KeyLess(k, key)
  {
    ReturnsAreOrdered(k);
  }

  // ---- tables ----------------------------------------------------------------------------

  /** What a map holds under a path: the spelling it was first put in with, and the value. */
  datatype Entry<T> = Entry(path: Bytes, value: T)

  type Table<T> = map<PathKey, Entry<T>>

  /** Putting a value in keeps the spelling that is there. */
  function PutAt<T>(m: Table<T>, k: PathKey, path: Bytes, value: T): Table<T> {
    m[k := Entry(if k in m then m[k].path else path, value)]
  }

  function Put<T>(m: Table<T>, path: Bytes, value: T): Table<T> { PutAt(m, Key(path), path, value) }
}
