/** The three-way merge of configuration trees (app/core/store.py). */
module ConfigMerge {
  import opened Wrappers

  datatype Json =
    | Null
    | Bool(b: bool)
    | Number(n: real)
    | Text(s: string)
    | List(items: seq<Json>)
    | Object(fields: map<string, Json>)

  /** A chain of keys; the empty path names the whole tree. */
  type Path = seq<string>

  datatype Merged = Merged(tree: Json) | Conflict

  function Get(fields: map<string, Json>, key: string): Option<Json> {
    if key in fields then Some(fields[key]) else None
  }

  function Child(tree: Option<Json>, key: string): Option<Json> {
    if tree.Some? && tree.value.Object? then Get(tree.value.fields, key) else None
  }

  /** What a tree holds at a path; None when the path leads nowhere. */
  function At(tree: Option<Json>, path: Path): Option<Json>
    decreases |path|
  {
    if path == [] then tree else At(Child(tree, path[0]), path[1..])
  }

  predicate IsObject(tree: Option<Json>) {
    tree.Some? && tree.value.Object?
  }

  /** The three presence clashes of one key that baseline or desired holds. */
  predicate PresenceClash(b: Option<Json>, c: Option<Json>, d: Option<Json>) {
    if d.None? then b.Some? && c.Some? && c != b
    else if b.None? then c.Some? && c != d
    else c.None?
  }

  function Merge(b: Json, c: Json, d: Json): Merged
    decreases b
  {
    if d == b then Merged(c)
    else if c == b || c == d then Merged(d)
    else if b.Object? && c.Object? && d.Object? then
      if forall k | k in b.fields.Keys + d.fields.Keys ::
           && !PresenceClash(Get(b.fields, k), Get(c.fields, k), Get(d.fields, k))
           && (k in b.fields && k in c.fields && k in d.fields ==>
                 Merge(b.fields[k], c.fields[k], d.fields[k]).Merged?)
      then
        Merged(Object(map k | k in d.fields.Keys + (c.fields.Keys - b.fields.Keys) ::
          if k in b.fields && k in c.fields && k in d.fields
          then Merge(b.fields[k], c.fields[k], d.fields[k]).tree
          else if k in d.fields then d.fields[k]
          else c.fields[k]))
      else Conflict
    else Conflict
  }

  /** The merge of what the three sides hold under one key. A key that neither baseline nor desired
      holds keeps its current value. */
  function MergeField(b: Option<Json>, c: Option<Json>, d: Option<Json>): Result<Option<Json>, ()> {
    if b.None? && d.None? then Success(c)
    else if PresenceClash(b, c, d) then Failure(())
    else if d.None? then Success(None)
    else if b.None? then Success(d)
    else match Merge(b.value, c.value, d.value)
      case Merged(tree) => Success(Some(tree))
      case Conflict => Failure(())
  }

  lemma MergeByField(b: Json, c: Json, d: Json, m: Json, k: string)
    requires b.Object? && c.Object? && d.Object? && d != b && c != b && c != d
    requires Merge(b, c, d) == Merged(m)
    ensures m.Object?
    ensures MergeField(Get(b.fields, k), Get(c.fields, k), Get(d.fields, k)) == Success(Get(m.fields, k))
  {}

  // ---------------------------------------------------------------------------------------------
  // What a successful merge holds at every path

  /** The laws of a three-way merge at one path. */
  ghost predicate PathLaws(b: Option<Json>, c: Option<Json>, d: Option<Json>, m: Option<Json>, p: Path) {
    var bp, cp, dp, mp := At(b, p), At(c, p), At(d, p), At(m, p);
    && (dp == bp ==> mp == cp)
    && (cp == bp ==> mp == dp)
    && (dp != bp && !IsObject(dp) ==> mp == dp)
    && (cp != bp && !IsObject(cp) ==> mp == cp)
    && (IsObject(cp) && IsObject(dp) ==> IsObject(mp))
  }

  lemma {:induction false} MissingStaysMissing(p: Path)
    ensures At(None, p) == None
    decreases |p|
  {
    if p != [] { MissingStaysMissing(p[1..]); }
  }

  /** A path below a key is read from what the key holds. */
  lemma {:induction false} FieldMergeLaws(b: Option<Json>, c: Option<Json>, d: Option<Json>, m: Option<Json>, p: Path)
    requires MergeField(b, c, d) == Success(m)
    ensures PathLaws(b, c, d, m, p)
    decreases |p|
  {
    MissingStaysMissing(p);
    if b.Some? && d.Some? && c.Some? && d != b && c != b && c != d && p != [] {
      MergeByField(b.value, c.value, d.value, m.value, p[0]);
      FieldMergeLaws(Child(b, p[0]), Child(c, p[0]), Child(d, p[0]), Child(m, p[0]), p[1..]);
    }
  }

  /** Main result: at every path the merged tree takes the side that changed, keeps each leaf edit of
      either side, and is a map wherever both sides are maps. */
  lemma {:induction false} MergeObeysPathLaws(b: Json, c: Json, d: Json, m: Json, p: Path)
    requires Merge(b, c, d) == Merged(m)
    ensures PathLaws(Some(b), Some(c), Some(d), Some(m), p)
  {
    FieldMergeLaws(Some(b), Some(c), Some(d), Some(m), p);
  }

  /** A leaf edit is only ever written over a value the saver had seen, or over that same value. */
  lemma {:induction false} NothingUnseenOverwritten(b: Option<Json>, c: Option<Json>, d: Option<Json>, p: Path)
    requires MergeField(b, c, d).Success?
    requires At(d, p) != At(b, p) && !IsObject(At(d, p))
    ensures At(c, p) == At(b, p) || At(c, p) == At(d, p)
    decreases |p|
  {
    MissingStaysMissing(p);
    if b.Some? && d.Some? && c.Some? && d != b && c != b && c != d && p != [] {
      MergeByField(b.value, c.value, d.value, MergeField(b, c, d).value.value, p[0]);
      NothingUnseenOverwritten(Child(b, p[0]), Child(c, p[0]), Child(d, p[0]), p[1..]);
    }
  }

  ghost predicate LawfulMerge(b: Option<Json>, c: Option<Json>, d: Option<Json>, m: Option<Json>) {
    forall p: Path :: PathLaws(b, c, d, m, p)
  }

  lemma LawfulChild(b: Option<Json>, c: Option<Json>, d: Option<Json>, m: Option<Json>, k: string)
    requires LawfulMerge(b, c, d, m)
    ensures LawfulMerge(Child(b, k), Child(c, k), Child(d, k), Child(m, k))
  {
    forall p: Path ensures PathLaws(Child(b, k), Child(c, k), Child(d, k), Child(m, k), p) {
      var kp := [k] + p;
      assert kp[1..] == p;
      assert PathLaws(b, c, d, m, kp);
    }
  }

  /** The path laws leave no freedom: two trees that satisfy them for the same three sides are equal. */
  lemma {:induction false} PathLawsDetermineMerge(b: Option<Json>, c: Option<Json>, d: Option<Json>,
                                                  m: Option<Json>, m': Option<Json>)
    requires LawfulMerge(b, c, d, m) && LawfulMerge(b, c, d, m')
    ensures m == m'
    decreases if c.Some? then c.value else Null
  {
    assert PathLaws(b, c, d, m, []) && PathLaws(b, c, d, m', []);
    if d != b && c != b && IsObject(d) && IsObject(c) {
      forall k ensures Child(m, k) == Child(m', k) {
        LawfulChild(b, c, d, m, k);
        LawfulChild(b, c, d, m', k);
        if Child(c, k).Some? {
          PathLawsDetermineMerge(Child(b, k), Child(c, k), Child(d, k), Child(m, k), Child(m', k));
        } else {
          assert PathLaws(Child(b, k), Child(c, k), Child(d, k), Child(m, k), []);
          assert PathLaws(Child(b, k), Child(c, k), Child(d, k), Child(m', k), []);
        }
      }
      ObjectsEqual(m, m');
    }
  }

  lemma ObjectsEqual(m: Option<Json>, m': Option<Json>)
    requires IsObject(m) && IsObject(m')
    requires forall k :: Child(m, k) == Child(m', k)
    ensures m == m'
  {
    var f, g := m.value.fields, m'.value.fields;
    forall k ensures k in f <==> k in g { assert Child(m, k) == Child(m', k); }
    forall k | k in f ensures f[k] == g[k] { assert Child(m, k) == Child(m', k); }
    assert f == g;
  }

  // ---------------------------------------------------------------------------------------------
  // When the merge is refused

  /** The three sides are maps, no two of them equal, so the merge looks at their keys. */
  predicate Diverging(b: Option<Json>, c: Option<Json>, d: Option<Json>) {
    IsObject(b) && IsObject(c) && IsObject(d) && b != c && c != d && d != b
  }

  /** What cannot be reconciled at one path: three different values not all maps, one that the saver deleted and
      another session changed, one that another session deleted and the saver kept, or two different new ones. */
  predicate Irreconcilable(b: Option<Json>, c: Option<Json>, d: Option<Json>) {
    || (b.Some? && c.Some? && d.Some? && b != c && c != d && d != b && !(IsObject(b) && IsObject(c) && IsObject(d)))
    || (b.Some? && c.Some? && d.None? && c != b)
    || (b.Some? && c.None? && d.Some?)
    || (b.None? && c.Some? && d.Some? && c != d)
  }

  /** A conflict at path p: the sides diverge on every path above p and cannot be reconciled at p. */
  ghost predicate ConflictAt(b: Option<Json>, c: Option<Json>, d: Option<Json>, p: Path) {
    && (forall i | 0 <= i < |p| :: Diverging(At(b, p[..i]), At(c, p[..i]), At(d, p[..i])))
    && Irreconcilable(At(b, p), At(c, p), At(d, p))
  }

  lemma AtBelow(tree: Option<Json>, k: string, q: Path)
    ensures At(tree, [k] + q) == At(Child(tree, k), q)
  {
    assert ([k] + q)[1..] == q;
  }

  /** A conflict below key k, seen from above and from the key. */
  lemma ConflictBelow(b: Option<Json>, c: Option<Json>, d: Option<Json>, k: string, q: Path)
    ensures ConflictAt(b, c, d, [k] + q) <==>
            Diverging(b, c, d) && ConflictAt(Child(b, k), Child(c, k), Child(d, k), q)
  {
    var p := [k] + q;
    AtBelow(b, k, q); AtBelow(c, k, q); AtBelow(d, k, q);
    forall i | 0 <= i < |q|
      ensures At(b, p[..i + 1]) == At(Child(b, k), q[..i])
      ensures At(c, p[..i + 1]) == At(Child(c, k), q[..i])
      ensures At(d, p[..i + 1]) == At(Child(d, k), q[..i])
    {
      assert p[..i + 1] == [k] + q[..i];
      AtBelow(b, k, q[..i]); AtBelow(c, k, q[..i]); AtBelow(d, k, q[..i]);
    }
    if ConflictAt(b, c, d, p) {
      assert p[..0] == [];
      forall i | 0 <= i < |q|
        ensures Diverging(At(Child(b, k), q[..i]), At(Child(c, k), q[..i]), At(Child(d, k), q[..i]))
      {
        assert Diverging(At(b, p[..i + 1]), At(c, p[..i + 1]), At(d, p[..i + 1]));
      }
    }
    if Diverging(b, c, d) && ConflictAt(Child(b, k), Child(c, k), Child(d, k), q) {
      forall i | 0 <= i < |p| ensures Diverging(At(b, p[..i]), At(c, p[..i]), At(d, p[..i])) {
        if i == 0 { assert p[..0] == []; } else {
          assert Diverging(At(Child(b, k), q[..i - 1]), At(Child(c, k), q[..i - 1]), At(Child(d, k), q[..i - 1]));
        }
      }
    }
  }

  lemma {:induction false} NoConflictWhenMerged(b: Option<Json>, c: Option<Json>, d: Option<Json>, p: Path)
    requires MergeField(b, c, d).Success?
    ensures !ConflictAt(b, c, d, p)
    decreases |p|
  {
    if p != [] && Diverging(b, c, d) {
      var k, q := p[0], p[1..];
      assert p == [k] + q;
      MergeByField(b.value, c.value, d.value, MergeField(b, c, d).value.value, k);
      NoConflictWhenMerged(Child(b, k), Child(c, k), Child(d, k), q);
      ConflictBelow(b, c, d, k, q);
    } else if p != [] {
      assert p[..0] == [] && !Diverging(At(b, p[..0]), At(c, p[..0]), At(d, p[..0]));
    }
  }

  lemma {:induction false} RefusedHasConflict(b: Json, c: Json, d: Json) returns (p: Path)
    requires Merge(b, c, d).Conflict?
    ensures ConflictAt(Some(b), Some(c), Some(d), p)
    decreases b
  {
    p := [];
    if Diverging(Some(b), Some(c), Some(d)) {
      var k, q;
      if clash :| && clash in b.fields.Keys + d.fields.Keys
                  && PresenceClash(Get(b.fields, clash), Get(c.fields, clash), Get(d.fields, clash)) {
        k, q := clash, [];
      } else {
        k :| k in b.fields && k in c.fields && k in d.fields
             && Merge(b.fields[k], c.fields[k], d.fields[k]).Conflict?;
        q := RefusedHasConflict(b.fields[k], c.fields[k], d.fields[k]);
      }
      ConflictBelow(Some(b), Some(c), Some(d), k, q);
      p := [k] + q;
    }
  }

  /** Main result: the merge is refused exactly when some path is in conflict. */
  lemma RefusedExactlyOnConflict(b: Json, c: Json, d: Json)
    ensures Merge(b, c, d).Conflict? <==> exists p :: ConflictAt(Some(b), Some(c), Some(d), p)
  {
    if Merge(b, c, d).Conflict? {
      var p := RefusedHasConflict(b, c, d);
    } else {
      forall p ensures !ConflictAt(Some(b), Some(c), Some(d), p) {
        NoConflictWhenMerged(Some(b), Some(c), Some(d), p);
      }
    }
  }

  /** Main result: when both orders of the two edits merge, they merge to the same tree. */
  lemma {:induction false} MergeCommutes(b: Json, c: Json, d: Json)
    requires Merge(b, c, d).Merged? && Merge(b, d, c).Merged?
    ensures Merge(b, c, d) == Merge(b, d, c)
    decreases b
  {
    if Diverging(Some(b), Some(c), Some(d)) {
      var m, m' := Merge(b, c, d).tree, Merge(b, d, c).tree;
      forall k ensures Child(Some(m), k) == Child(Some(m'), k) {
        MergeByField(b, c, d, m, k);
        MergeByField(b, d, c, m', k);
        if k in b.fields && k in c.fields && k in d.fields {
          MergeCommutes(b.fields[k], c.fields[k], d.fields[k]);
        }
      }
      ObjectsEqual(Some(m), Some(m'));
    }
  }

  /** One side deleted what the other side left alone. Only the saver may do that. */
  ghost predicate DeletedAgainst(b: Option<Json>, c: Option<Json>, d: Option<Json>, p: Path) {
    && (forall i | 0 <= i < |p| :: Diverging(At(b, p[..i]), At(c, p[..i]), At(d, p[..i])))
    && At(d, p).None? && At(b, p).Some? && At(c, p) == At(b, p)
  }

  /** Acceptance itself is not symmetric: when one order merges, the other is refused exactly if the
      saver deleted, below diverging maps, a value that the stored tree still holds unchanged. */
  lemma SwapRefusedExactlyOnDeletion(b: Json, c: Json, d: Json)
    requires Merge(b, c, d).Merged?
    ensures Merge(b, d, c).Conflict? <==> exists p :: DeletedAgainst(Some(b), Some(c), Some(d), p)
  {
    RefusedExactlyOnConflict(b, c, d);
    RefusedExactlyOnConflict(b, d, c);
    var sb, sc, sd := Some(b), Some(c), Some(d);
    if Merge(b, d, c).Conflict? {
      var p :| ConflictAt(sb, sd, sc, p);
      assert !ConflictAt(sb, sc, sd, p);
      SwapConflict(sb, sc, sd, p);
    }
    if p :| DeletedAgainst(sb, sc, sd, p) {
      assert ConflictAt(sb, sd, sc, p);
    }
  }

  lemma SwapConflict(b: Option<Json>, c: Option<Json>, d: Option<Json>, p: Path)
    requires ConflictAt(b, d, c, p) && !ConflictAt(b, c, d, p)
    ensures DeletedAgainst(b, c, d, p)
  {
    forall i | 0 <= i < |p| ensures Diverging(At(b, p[..i]), At(c, p[..i]), At(d, p[..i])) {
      assert Diverging(At(b, p[..i]), At(d, p[..i]), At(c, p[..i]));
    }
  }

  /** The refused order, on one key: the stored tree lost the key and the saver never touched it. */
  lemma UntouchedDeletionIsRefused(k: string, x: string, v: Json)
    requires k != x
    ensures var b := Object(map[k := v]);
            var emptied := Object(map[]);
            var edited := Object(map[k := v, x := v]);
            Merge(b, emptied, edited).Conflict? && Merge(b, edited, emptied) == Merged(Object(map[x := v]))
  {
    var b, c, d := Object(map[k := v]), Object(map[]), Object(map[k := v, x := v]);
    assert k in b.fields && k !in c.fields && k in d.fields;
    assert x in d.fields && x !in b.fields;
    assert PresenceClash(Get(b.fields, k), Get(c.fields, k), Get(d.fields, k));
    assert Merge(b, d, c).Merged?;
    assert Merge(b, d, c).tree.fields == map[x := v];
  }

  // ---------------------------------------------------------------------------------------------
  // The merge as the source runs it: a working copy of the current map, filled key by key

  /** The working copy: keys still to visit hold their current value, the others their merged value. */
  ghost predicate Filling(b: Json, c: Json, d: Json, merged: map<string, Json>, left: set<string>)
    requires b.Object? && c.Object? && d.Object?
  {
    forall k ::
      if k in left then Get(merged, k) == Get(c.fields, k)
      else MergeField(Get(b.fields, k), Get(c.fields, k), Get(d.fields, k)) == Success(Get(merged, k))
  }

  lemma FillOne(b: Json, c: Json, d: Json, merged: map<string, Json>, left: set<string>, key: string,
                value: Option<Json>)
    requires b.Object? && c.Object? && d.Object? && Filling(b, c, d, merged, left) && key in left
    requires MergeField(Get(b.fields, key), Get(c.fields, key), Get(d.fields, key)) == Success(value)
    ensures value.Some? ==> Filling(b, c, d, merged[key := value.value], left - {key})
    ensures value.None? ==> Filling(b, c, d, merged - {key}, left - {key})
    ensures value == Get(merged, key) ==> Filling(b, c, d, merged, left - {key})
  {}

  lemma KeyRefused(b: Json, c: Json, d: Json, key: string, q: Path)
    requires Diverging(Some(b), Some(c), Some(d))
    requires ConflictAt(Get(b.fields, key), Get(c.fields, key), Get(d.fields, key), q)
    ensures ConflictAt(Some(b), Some(c), Some(d), [key] + q) && Merge(b, c, d).Conflict?
  {
    ConflictBelow(Some(b), Some(c), Some(d), key, q);
    RefusedExactlyOnConflict(b, c, d);
  }

  method MergeConfigChanges(baseline: Json, current: Json, desired: Json) returns (r: Result<Json, Path>)
    ensures r.Success? ==> Merge(baseline, current, desired) == Merged(r.value)
    ensures r.Failure? ==> Merge(baseline, current, desired).Conflict?
                           && ConflictAt(Some(baseline), Some(current), Some(desired), r.error)
    decreases baseline, 1
  {
    if desired == baseline { return Success(current); }
    if current == baseline || current == desired { return Success(desired); }
    if !(baseline.Object? && current.Object? && desired.Object?) { return Failure([]); }

    var merged := current.fields;
    var keys := baseline.fields.Keys + desired.fields.Keys;
    while keys != {}
      invariant keys <= baseline.fields.Keys + desired.fields.Keys
      invariant Filling(baseline, current, desired, merged, keys)
      decreases |keys|
    {
      var key :| key in keys;
      var value := MergeKey(baseline, current, desired, key);
      if value.Failure? { return Failure(value.error); }
      FillOne(baseline, current, desired, merged, keys, key, value.value);
      merged := if value.value.Some? then merged[key := value.value.value] else merged - {key};
      keys := keys - {key};
    }
    MergedFromFields(baseline, current, desired, merged);
    r := Success(Object(merged));
  }

  /** One turn of the key loop: the value to keep under the key, or the path of a conflict. */
  method MergeKey(baseline: Json, current: Json, desired: Json, key: string) returns (r: Result<Option<Json>, Path>)
    requires Diverging(Some(baseline), Some(current), Some(desired))
    requires key in baseline.fields.Keys + desired.fields.Keys
    ensures r.Success? ==>
      MergeField(Get(baseline.fields, key), Get(current.fields, key), Get(desired.fields, key)) == Success(r.value)
    ensures r.Failure? ==> Merge(baseline, current, desired).Conflict?
                           && ConflictAt(Some(baseline), Some(current), Some(desired), r.error)
    decreases baseline, 0
  {
    var b, c, d := Get(baseline.fields, key), Get(current.fields, key), Get(desired.fields, key);
    if d.None? {
      if c.None? || c == b { return Success(None); }
      KeyRefused(baseline, current, desired, key, []);
      return Failure([key]);
    }
    if b.None? {
      if c.None? || c == d { return Success(d); }
      KeyRefused(baseline, current, desired, key, []);
      return Failure([key]);
    }
    if c.None? {
      KeyRefused(baseline, current, desired, key, []);
      return Failure([key]);
    }
    var below := MergeConfigChanges(b.value, c.value, d.value);
    if below.Failure? {
      KeyRefused(baseline, current, desired, key, below.error);
      return Failure([key] + below.error);
    }
    return Success(Some(below.value));
  }

  lemma MergedFromFields(b: Json, c: Json, d: Json, merged: map<string, Json>)
    requires Diverging(Some(b), Some(c), Some(d))
    requires forall k :: MergeField(Get(b.fields, k), Get(c.fields, k), Get(d.fields, k)) == Success(Get(merged, k))
    ensures Merge(b, c, d) == Merged(Object(merged))
  {
    forall k | k in b.fields.Keys + d.fields.Keys
      ensures !PresenceClash(Get(b.fields, k), Get(c.fields, k), Get(d.fields, k))
      ensures k in b.fields && k in c.fields && k in d.fields ==> Merge(b.fields[k], c.fields[k], d.fields[k]).Merged?
    {
      assert MergeField(Get(b.fields, k), Get(c.fields, k), Get(d.fields, k)) == Success(Get(merged, k));
    }
    assert Merge(b, c, d).Merged?;
    var m := Merge(b, c, d).tree;
    forall k ensures Child(Some(m), k) == Child(Some(Object(merged)), k) {
      MergeByField(b, c, d, m, k);
    }
    ObjectsEqual(Some(m), Some(Object(merged)));
  }
}
