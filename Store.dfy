/** The Firebase Realtime Database as the app sees it: a tree addressed by
    key paths, here flattened into a map from the path of every LEAF to its
    primitive value. `setValue` at a path replaces the whole subtree there; a
    write the server rejects changes nothing. */
module Store {
  import opened KotlinCore

  /** The primitive values the app stores: `String`, `Long` and `Boolean`. */
  datatype Value = StrValue(s: string) | LongValue(n: Long) | BoolValue(b: bool)

  /** A node whose children are all leaves: what `toMap()` produces and what a
      snapshot child of a message or user list holds. */
  type Record = map<string, Value>

  /** `map[key] as? String ?: ""`: a record's string field, `""` when it is
      missing or holds another type. */
  function StringField(rec: Record, key: string): string {
    if key in rec && rec[key].StrValue? then rec[key].s else ""
  }

  type Path = seq<string>

  type Tree = map<Path, Value>

  /** Two paths are related when one lies on the other's branch: writing at one
      of them replaces what is stored at the other. */
  predicate Related(p: Path, q: Path) {
    p <= q || q <= p
  }

  /** A tree is well formed when no leaf hides another leaf below it. */
  ghost predicate PrefixFree(t: Tree) {
    forall p, q :: p in t && q in t && p != q ==> !(p <= q)
  }

  /** Removes everything `setValue` at `p` overwrites: the subtree under `p` and
      any leaf on the way down to `p`. */
  function Clear(t: Tree, p: Path): (r: Tree)
    ensures forall q :: q in r <==> q in t && !Related(p, q)
    ensures forall q :: q in r ==> r[q] == t[q]
  {
    map q | q in t && !Related(p, q) :: t[q]
  }

  /** `setValue(v)` at `p` for a primitive `v`. */
  function SetLeaf(t: Tree, p: Path, v: Value): Tree {
    Clear(t, p)[p := v]
  }

  /** The leaves `p + [k] := rec[k]` of a record stored at `p`. */
  function RecordLeaves(p: Path, rec: Record): (r: Tree)
    ensures forall k :: k in rec ==> p + [k] in r && r[p + [k]] == rec[k]
    ensures forall q :: q in r ==> p <= q && |q| == |p| + 1 && q[|p|] in rec
  {
    var r := map q | q in (set k | k in rec :: p + [k]) && |q| == |p| + 1 && q[|p|] in rec :: rec[q[|p|]];
    assert forall k :: k in rec ==> (p + [k])[|p|] == k;
    r
  }

  /** `setValue(rec)` at `p` for a map of primitives: one leaf per key. */
  function SetRecord(t: Tree, p: Path, rec: Record): Tree {
    Clear(t, p) + RecordLeaves(p, rec)
  }

  /** The subtree at `p` consists of exactly the leaves of `rec`. */
  ghost predicate HoldsRecord(t: Tree, p: Path, rec: Record) {
    && (forall k :: k in rec ==> p + [k] in t && t[p + [k]] == rec[k])
    && (forall q :: q in t && p <= q ==> |q| == |p| + 1 && q[|p|] in rec)
  }

  /** `t` and `t'` agree on every path unrelated to `p1` and `p2`. */
  ghost predicate SameAwayFrom(t: Tree, t': Tree, p1: Path, p2: Path) {
    forall q :: !Related(p1, q) && !Related(p2, q) ==>
      (q in t <==> q in t') && (q in t ==> t[q] == t'[q])
  }

  lemma {:induction false} AppendKeyInjective(p: Path, k1: string, k2: string)
    requires p + [k1] == p + [k2]
    ensures k1 == k2
  {
    assert (p + [k1])[|p|] == k1;
  }

  /** After a record write the record is there, nothing unrelated to the path has
      changed, and the tree is still well formed. */
  lemma {:induction false} SetRecordFacts(t: Tree, p: Path, rec: Record)
    ensures HoldsRecord(SetRecord(t, p, rec), p, rec)
    ensures SameAwayFrom(t, SetRecord(t, p, rec), p, p)
    ensures PrefixFree(t) ==> PrefixFree(SetRecord(t, p, rec))
  {
    var t' := SetRecord(t, p, rec);
    if PrefixFree(t) {
      forall a, b | a in t' && b in t' && a != b ensures !(a <= b) {
        CommonPrefix(a, p, b);
      }
    }
  }

  /** After a leaf write the value is there and nothing unrelated has changed. */
  lemma SetLeafFacts(t: Tree, p: Path, v: Value)
    ensures p in SetLeaf(t, p, v) && SetLeaf(t, p, v)[p] == v
    ensures forall q :: q in SetLeaf(t, p, v) && p <= q ==> q == p
    ensures SameAwayFrom(t, SetLeaf(t, p, v), p, p)
    ensures PrefixFree(t) ==> PrefixFree(SetLeaf(t, p, v))
  {
    if PrefixFree(t) {
      var t' := SetLeaf(t, p, v);
      forall a, b | a in t' && b in t' && a != b ensures !(a <= b) {
        CommonPrefix(a, p, b);
      }
    }
  }

  /** Both kinds of write keep the tree well formed. */
  lemma SetRecordKeepsWellFormed(t: Tree, p: Path, rec: Record)
    requires PrefixFree(t)
    ensures PrefixFree(SetRecord(t, p, rec))
  {
    SetRecordFacts(t, p, rec);
  }

  lemma SetLeafKeepsWellFormed(t: Tree, p: Path, v: Value)
    requires PrefixFree(t)
    ensures PrefixFree(SetLeaf(t, p, v))
  {
    SetLeafFacts(t, p, v);
  }

  /** A leaf write away from a record's path leaves the record in place. */
  lemma SetLeafKeepsRecord(t: Tree, p: Path, rec: Record, q: Path, v: Value)
    requires HoldsRecord(t, p, rec) && !Related(p, q)
    ensures HoldsRecord(SetLeaf(t, q, v), p, rec)
  {
  }

  /** Agreement away from paths composes over two writes. */
  lemma SameAwayFromCompose(t: Tree, t1: Tree, t2: Tree, p1: Path, p2: Path)
    requires SameAwayFrom(t, t1, p1, p1) && SameAwayFrom(t1, t2, p2, p2)
    ensures SameAwayFrom(t, t2, p1, p2)
  {
  }

  /** A record write followed by a leaf write elsewhere: both are in place and
      nothing away from the two paths has changed. */
  lemma {:induction false} SetRecordThenLeaf(t: Tree, p: Path, rec: Record, q: Path, v: Value)
    requires !Related(p, q)
    ensures HoldsRecord(SetLeaf(SetRecord(t, p, rec), q, v), p, rec)
    ensures q in SetLeaf(SetRecord(t, p, rec), q, v) && SetLeaf(SetRecord(t, p, rec), q, v)[q] == v
    ensures SameAwayFrom(t, SetLeaf(SetRecord(t, p, rec), q, v), p, q)
  {
    var saved := SetRecord(t, p, rec);
    SetRecordFacts(t, p, rec);
    SetLeafFacts(saved, q, v);
    SetLeafKeepsRecord(saved, p, rec, q, v);
    SameAwayFromCompose(t, saved, SetLeaf(saved, q, v), p, q);
  }

  /** `SetRecord` overwrites at a fixed path: writing the same record twice is
      writing it once. */
  lemma {:induction false} SetRecordIdempotent(t: Tree, p: Path, rec: Record)
    ensures SetRecord(SetRecord(t, p, rec), p, rec) == SetRecord(t, p, rec)
  {
    var once := SetRecord(t, p, rec);
    var twice := SetRecord(once, p, rec);
    assert forall q :: q in twice <==> q in once;
  }

  lemma CommonPrefix(p1: Path, p2: Path, q: Path)
    ensures p1 <= q && p2 <= q ==> Related(p1, p2)
  {
    if p1 <= q && p2 <= q && |p1| <= |p2| {
      assert p1 == q[..|p1|] == p2[..|p1|];
    } else if p1 <= q && p2 <= q {
      assert p2 == q[..|p2|] == p1[..|p2|];
    }
  }

  /** Record writes at two unrelated paths of the same depth commute. */
  lemma {:induction false} SetRecordCommute(t: Tree, p1: Path, r1: Record, p2: Path, r2: Record)
    requires !Related(p1, p2) && |p1| == |p2|
    ensures SetRecord(SetRecord(t, p1, r1), p2, r2) == SetRecord(SetRecord(t, p2, r2), p1, r1)
  {
    var a := SetRecord(SetRecord(t, p1, r1), p2, r2);
    var b := SetRecord(SetRecord(t, p2, r2), p1, r1);
    forall q ensures (q in a <==> q in b) && (q in a ==> a[q] == b[q]) {
      SetRecordCommuteAt(t, p1, r1, p2, r2, q);
    }
  }

  lemma SetRecordCommuteAt(t: Tree, p1: Path, r1: Record, p2: Path, r2: Record, q: Path)
    requires !Related(p1, p2) && |p1| == |p2|
    ensures var a := SetRecord(SetRecord(t, p1, r1), p2, r2);
      var b := SetRecord(SetRecord(t, p2, r2), p1, r1);
      (q in a <==> q in b) && (q in a ==> a[q] == b[q])
  {
    CommonPrefix(p1, p2, q);
  }

  /** The same record written at two paths of the same depth, one after the
      other: both copies are in place and nothing away from the two paths has
      changed. */
  lemma {:induction false} DualWriteFacts(t: Tree, p1: Path, p2: Path, rec: Record)
    requires |p1| == |p2|
    ensures HoldsRecord(SetRecord(SetRecord(t, p1, rec), p2, rec), p1, rec)
    ensures HoldsRecord(SetRecord(SetRecord(t, p1, rec), p2, rec), p2, rec)
    ensures SameAwayFrom(t, SetRecord(SetRecord(t, p1, rec), p2, rec), p1, p2)
  {
    var t1 := SetRecord(t, p1, rec);
    SetRecordFacts(t, p1, rec);
    SetRecordFacts(t1, p2, rec);
    SameAwayFromCompose(t, t1, SetRecord(t1, p2, rec), p1, p2);
    if p1 != p2 {
      assert !Related(p1, p2);
      SetRecordCommute(t, p1, rec, p2, rec);
      SetRecordFacts(SetRecord(t, p2, rec), p1, rec);
    }
  }

  /** Repeating the two writes changes nothing, and doing them after the first
      alone has the effect of doing them once. */
  lemma {:induction false} DualWriteIdempotent(t: Tree, p1: Path, p2: Path, rec: Record)
    requires |p1| == |p2|
    ensures SetRecord(SetRecord(SetRecord(SetRecord(t, p1, rec), p2, rec), p1, rec), p2, rec)
         == SetRecord(SetRecord(t, p1, rec), p2, rec)
    ensures SetRecord(SetRecord(SetRecord(t, p1, rec), p1, rec), p2, rec) == SetRecord(SetRecord(t, p1, rec), p2, rec)
  {
    var t1 := SetRecord(t, p1, rec);
    SetRecordIdempotent(t, p1, rec);
    if p1 == p2 {
      SetRecordIdempotent(t1, p2, rec);
    } else {
      assert !Related(p1, p2);
      // writing p1 again after p2 is writing it before p2, where it is already
      SetRecordCommute(t1, p1, rec, p2, rec);
      SetRecordIdempotent(SetRecord(t1, p1, rec), p2, rec);
      SetRecordIdempotent(t1, p2, rec);
    }
  }

  class Database {
    var tree: Tree

    constructor (initial: Tree)
      ensures tree == initial
    {
      tree := initial;
    }
  }
}
