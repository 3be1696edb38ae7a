/** The archive model index (app/services/archive_model_index.py): a table from model directories to rows,
    and the allocator of the short keys in it. Directories are non-empty and stripped. */
module ModelIndex {
  import opened Text
  import opened Wrappers

  type Dir = string

  datatype Source = SourceCn | SourceGlobal | SourceLocal | SourceOther

  /** What normalising a meta file yields; content stands for every other indexed column. */
  datatype Model = Model(source: Source, id: string, content: string)

  /** Modification time and size of a meta file; both are zero when there is none. */
  datatype Signature = Signature(mtime: nat, size: nat)

  datatype Row = Row(shortKey: string, signature: Signature, model: Model)

  type Rows = map<Dir, Row>

  const LOCAL_START := 100001
  const LOCAL_PREFIX := "local"

  // ---------------------------------------------------------------------------------------------
  // Numbers as digits

  predicate AllDigits(s: string) {
    forall c | c in s :: IsDigit(c)
  }

  function Decimal(n: nat): string {
    if n < 10 then [('0' as int + n) as char] else Decimal(n / 10) + [('0' as int + n % 10) as char]
  }

  function Number(s: string): nat
    requires AllDigits(s)
  {
    if s == "" then 0
    else
      assert s[|s| - 1] in s;
      10 * Number(s[..|s| - 1]) + (s[|s| - 1] as int - '0' as int)
  }

  lemma {:induction false} DecimalReadsBack(n: nat)
    ensures Decimal(n) != "" && AllDigits(Decimal(n)) && Number(Decimal(n)) == n
    decreases n
  {
    if n < 10 {
      assert Decimal(n)[..0] == "";
    } else {
      DecimalReadsBack(n / 10);
      var s := Decimal(n);
      assert s[..|s| - 1] == Decimal(n / 10);
    }
  }

  function DigitsOf(s: string): (digits: string)
    ensures AllDigits(digits)
  {
    if s == "" then "" else if IsDigit(s[0]) then [s[0]] + DigitsOf(s[1..]) else DigitsOf(s[1..])
  }

  // ---------------------------------------------------------------------------------------------
  // Short keys

  function RemoteKey(source: Source, id: string): string {
    var digits := DigitsOf(id);
    if digits == "" then ""
    else match source
      case SourceCn => "mwcn" + digits
      case SourceGlobal => "mwg" + digits
      case _ => ""
  }

  predicate HasPrefix(s: string, prefix: string) {
    |s| >= |prefix| && s[..|prefix|] == prefix
  }

  function LocalNumber(key: string): nat {
    if HasPrefix(key, LOCAL_PREFIX) && key[|LOCAL_PREFIX|..] != "" && AllDigits(key[|LOCAL_PREFIX|..])
    then Number(key[|LOCAL_PREFIX|..]) else 0
  }

  function LocalKey(n: nat): string {
    LOCAL_PREFIX + Decimal(n)
  }

  predicate NonEmptyDigits(s: string) {
    s != "" && AllDigits(s)
  }

  /** The shape test of the resolver, on a stripped lower-case key. */
  predicate IsModelShortKey(key: string) {
    if HasPrefix(key, "mwcn") then NonEmptyDigits(key[4..])
    else if HasPrefix(key, "mwg") then NonEmptyDigits(key[3..])
    else if HasPrefix(key, LOCAL_PREFIX) then NonEmptyDigits(key[|LOCAL_PREFIX|..])
    else IsLettersThenDigits(key)
  }

  predicate IsLettersThenDigits(key: string) {
    exists i | 0 < i < |key| :: (forall c | c in key[..i] :: 'a' <= c <= 'z') && AllDigits(key[i..])
  }

  function Keys(rows: Rows): set<string> {
    set dir | dir in rows :: rows[dir].shortKey
  }

  /** The largest local number among the keys, or one less than the first ever given. */
  ghost function MaxLocal(keys: set<string>): nat {
    if keys == {} then LOCAL_START - 1
    else
      var key :| key in keys;
      var rest := MaxLocal(keys - {key});
      if LocalNumber(key) > rest then LocalNumber(key) else rest
  }

  lemma {:induction false} MaxLocalFacts(keys: set<string>)
    ensures var m := MaxLocal(keys);
            && m >= LOCAL_START - 1
            && (forall key | key in keys :: LocalNumber(key) <= m)
            && (m == LOCAL_START - 1 || exists key :: key in keys && LocalNumber(key) == m)
  {
    if keys != {} {
      var key :| key in keys && MaxLocal(keys) ==
        var rest := MaxLocal(keys - {key}); if LocalNumber(key) > rest then LocalNumber(key) else rest;
      MaxLocalFacts(keys - {key});
    }
  }

  predicate TakenByOther(rows: Rows, dir: Dir, key: string) {
    exists other | other in rows :: other != dir && rows[other].shortKey == key
  }

  ghost function AssignedKey(rows: Rows, dir: Dir, model: Model): string {
    var remote := RemoteKey(model.source, model.id);
    if dir in rows && rows[dir].shortKey != "" then rows[dir].shortKey
    else if remote != "" then (if TakenByOther(rows, dir, remote) then "" else remote)
    else if model.source == SourceLocal then LocalKey(MaxLocal(Keys(rows)) + 1)
    else ""
  }

  ghost function Upserted(rows: Rows, dir: Dir, model: Model, signature: Signature): Rows {
    rows[dir := Row(AssignedKey(rows, dir, model), signature, model)]
  }

  function Deleted(rows: Rows, dirs: set<Dir>): Rows {
    rows - dirs
  }

  /** The directory a key resolves to, if the key has the shape of one and some row has it. */
  ghost function Resolved(rows: Rows, key: string): Option<Dir> {
    if IsModelShortKey(key) && key in Keys(rows) then
      var dir :| dir in rows && rows[dir].shortKey == key;
      Some(dir)
    else None
  }

  // ---------------------------------------------------------------------------------------------
  // Keys are unique, well-shaped and stable over every sequence of changes

  datatype Change =
    | Upsert(dir: Dir, model: Model, signature: Signature)
    | Delete(dirs: set<Dir>)
    | Truncate

  ghost function Apply(rows: Rows, change: Change): Rows {
    match change
    case Upsert(dir, model, signature) => Upserted(rows, dir, model, signature)
    case Delete(dirs) => Deleted(rows, dirs)
    case Truncate => map[]
  }

  ghost function Run(rows: Rows, changes: seq<Change>): Rows
    decreases |changes|
  {
    if changes == [] then rows else Run(Apply(rows, changes[0]), changes[1..])
  }

  ghost predicate UniqueKeys(rows: Rows) {
    forall a, b | a in rows && b in rows && rows[a].shortKey == rows[b].shortKey != "" :: a == b
  }

  ghost predicate WellShaped(rows: Rows) {
    forall dir | dir in rows :: rows[dir].shortKey == "" || IsModelShortKey(rows[dir].shortKey)
  }

  lemma LocalKeyFacts(n: nat)
    ensures IsModelShortKey(LocalKey(n)) && LocalNumber(LocalKey(n)) == n
  {
    DecimalReadsBack(n);
    var key := LocalKey(n);
    assert key[..|LOCAL_PREFIX|] == LOCAL_PREFIX && key[|LOCAL_PREFIX|..] == Decimal(n);
    assert key[0] == 'l';
  }

  lemma LocalKeyNumber(n: nat)
    ensures LocalNumber(LocalKey(n)) == n
  {
    LocalKeyFacts(n);
  }

  lemma RemoteKeyFacts(source: Source, id: string)
    requires RemoteKey(source, id) != ""
    ensures IsModelShortKey(RemoteKey(source, id))
  {
    var digits, key := DigitsOf(id), RemoteKey(source, id);
    if source == SourceCn {
      assert key[..4] == "mwcn" && key[4..] == digits;
    } else {
      assert key[..3] == "mwg" && key[3..] == digits && key[2] == 'g';
      assert |key| >= 4 ==> key[..4][2] == 'g';
    }
  }

  lemma ApplyKeepsKeys(rows: Rows, change: Change)
    requires UniqueKeys(rows) && WellShaped(rows)
    ensures UniqueKeys(Apply(rows, change)) && WellShaped(Apply(rows, change))
  {
    if change.Upsert? {
      AssignedKeyIsShaped(rows, change.dir, change.model);
      if AssignedKey(rows, change.dir, change.model) != "" { AssignedKeyIsFree(rows, change.dir, change.model); }
    }
  }

  lemma AssignedKeyIsShaped(rows: Rows, dir: Dir, model: Model)
    requires WellShaped(rows)
    ensures AssignedKey(rows, dir, model) == "" || IsModelShortKey(AssignedKey(rows, dir, model))
  {
    if RemoteKey(model.source, model.id) != "" { RemoteKeyFacts(model.source, model.id); }
    LocalKeyFacts(MaxLocal(Keys(rows)) + 1);
  }

  /** The key a row is given is no other row's: it is the row's own, or a site's key that was free, or new. */
  lemma AssignedKeyIsFree(rows: Rows, dir: Dir, model: Model)
    requires UniqueKeys(rows) && AssignedKey(rows, dir, model) != ""
    ensures !TakenByOther(rows, dir, AssignedKey(rows, dir, model))
  {
    if dir in rows && rows[dir].shortKey != "" {
      OwnKeyIsFree(rows, dir);
    } else if RemoteKey(model.source, model.id) == "" {
      NewLocalKeyIsFree(rows, dir, LocalKey(MaxLocal(Keys(rows)) + 1));
    }
  }

  lemma OwnKeyIsFree(rows: Rows, dir: Dir)
    requires UniqueKeys(rows) && dir in rows && rows[dir].shortKey != ""
    ensures !TakenByOther(rows, dir, rows[dir].shortKey)
  {}

  lemma NewLocalKeyIsFree(rows: Rows, dir: Dir, key: string)
    requires key == LocalKey(MaxLocal(Keys(rows)) + 1)
    ensures !TakenByOther(rows, dir, key)
  {
    LocalKeyNumber(MaxLocal(Keys(rows)) + 1);
    NotAmong(rows, key);
  }

  lemma NotAmong(rows: Rows, key: string)
    requires LocalNumber(key) > MaxLocal(Keys(rows))
    ensures forall other | other in rows :: rows[other].shortKey != key
  {
    MaxLocalFacts(Keys(rows));
    forall other | other in rows ensures rows[other].shortKey != key {
      assert rows[other].shortKey in Keys(rows);
    }
  }

  lemma {:induction false} RunKeepsKeys(rows: Rows, changes: seq<Change>)
    requires UniqueKeys(rows) && WellShaped(rows)
    ensures UniqueKeys(Run(rows, changes)) && WellShaped(Run(rows, changes))
    decreases |changes|
  {
    if changes != [] {
      ApplyKeepsKeys(rows, changes[0]);
      RunKeepsKeys(Apply(rows, changes[0]), changes[1..]);
    }
  }

  /** Main result: after any changes to an empty table, no two rows share a short key, every key passes the
      resolver's shape test, and resolving a row's key yields exactly that row's directory. */
  lemma ShortKeysResolve(changes: seq<Change>, dir: Dir)
    requires dir in Run(map[], changes) && Run(map[], changes)[dir].shortKey != ""
    ensures var rows := Run(map[], changes);
            UniqueKeys(rows) && IsModelShortKey(rows[dir].shortKey) && Resolved(rows, rows[dir].shortKey) == Some(dir)
  {
    RunKeepsKeys(map[], changes);
    var rows := Run(map[], changes);
    assert rows[dir].shortKey in Keys(rows);
  }

  lemma {:induction false} DigitsConcat(a: string, b: string)
    ensures DigitsOf(a + b) == DigitsOf(a) + DigitsOf(b)
    decreases |a|
  {
    if a == "" {
      assert a + b == b;
    } else {
      assert (a + b)[1..] == a[1..] + b;
      DigitsConcat(a[1..], b);
    }
  }

  /** The digits of an id are its digits, in order: all of a number, nothing of other characters. */
  lemma {:induction false} DigitsKept(s: string)
    ensures AllDigits(s) ==> DigitsOf(s) == s
    ensures (forall c | c in s :: !IsDigit(c)) ==> DigitsOf(s) == ""
    decreases |s|
  {
    if s != "" {
      assert s[0] in s && forall c | c in s[1..] :: c in s;
      assert s == [s[0]] + s[1..];
      DigitsKept(s[1..]);
    }
  }

  /** Main result: the key that a row without one is given says where its model comes from. A model of the Chinese site
      with this number is "mwcn" and the number, one of the other site "mwg" and the number, unless another row has
      that key; a local model without a number is "local" and a number, above all others and from 100001 on. */
  lemma NewKeySays(rows: Rows, dir: Dir, model: Model)
    requires dir in rows ==> rows[dir].shortKey == ""
    requires AllDigits(model.id)
    ensures var after := Apply(rows, Upsert(dir, model, Signature(0, 0)));
            var key := after[dir].shortKey;
            if model.id != "" && (model.source == SourceCn || model.source == SourceGlobal) then
              var site := (if model.source == SourceCn then "mwcn" else "mwg") + model.id;
              key == if exists other | other in rows :: other != dir && rows[other].shortKey == site then "" else site
            else if model.source == SourceLocal then
              exists n: nat :: key == "local" + Decimal(n) && n >= 100001
                               && forall other | other in rows :: LocalNumber(rows[other].shortKey) < n
            else key == ""
  {
    DigitsKept(model.id);
    if model.source == SourceLocal {
      var n := MaxLocal(Keys(rows)) + 1;
      MaxLocalFacts(Keys(rows));
      forall other | other in rows ensures LocalNumber(rows[other].shortKey) < n {
        assert rows[other].shortKey in Keys(rows);
      }
      assert AssignedKey(rows, dir, model) == "local" + Decimal(n);
    }
  }

  /** Lower-case letters up to i, and digits behind them. */
  predicate LettersUpTo(key: string, i: nat) {
    && 0 < i < |key| && (forall k | 0 <= k < i :: 'a' <= key[k] <= 'z')
    && forall k | i <= k < |key| :: '0' <= key[k] <= '9'
  }

  /** A key has the shape of one exactly when digits follow lower-case letters, and these are one of the prefixes if
      they start with one. */
  lemma {:induction false} ShapeExactlyWhen(key: string)
    ensures IsModelShortKey(key) <==>
            exists i: nat :: LettersUpTo(key, i) && (HasPrefix(key, "mwcn") ==> i == 4)
                        && (HasPrefix(key, "mwg") ==> i == 3) && (HasPrefix(key, "local") ==> i == 5)
  {
    if HasPrefix(key, "mwcn") {
      ShapeBehind(key, "mwcn");
      assert key[2] == key[..4][2] == 'c' && key[0] == key[..4][0] == 'm';
      assert key[..3][2] == key[2] && (|key| >= 5 ==> key[..5][0] == key[0]);
    } else if HasPrefix(key, "mwg") {
      ShapeBehind(key, "mwg");
      assert key[0] == key[..3][0] == 'm' && (|key| >= 5 ==> key[..5][0] == key[0]);
    } else if HasPrefix(key, "local") {
      ShapeBehind(key, "local");
    } else if IsModelShortKey(key) {
      var i :| 0 < i < |key| && (forall c | c in key[..i] :: 'a' <= c <= 'z') && AllDigits(key[i..]);
      assert forall k | 0 <= k < i :: key[k] in key[..i];
      assert forall k | i <= k < |key| :: key[k] == key[i..][k - i] && key[k] in key[i..];
      assert LettersUpTo(key, i);
    } else if i: nat :| LettersUpTo(key, i) {
      assert AllDigits(key[i..]);
    }
  }

  lemma ShapeBehind(key: string, prefix: string)
    requires HasPrefix(key, prefix) && prefix != "" && forall c | c in prefix :: 'a' <= c <= 'z'
    ensures NonEmptyDigits(key[|prefix|..]) <==> LettersUpTo(key, |prefix|)
  {
    var n := |prefix|;
    assert forall k | 0 <= k < n :: key[k] == key[..n][k] == prefix[k] && prefix[k] in prefix;
    assert forall k | n <= k < |key| :: key[k] == key[n..][k - n] && key[k] in key[n..];
  }

  predicate Keeps(change: Change, dir: Dir) {
    !change.Truncate? && !(change.Delete? && dir in change.dirs)
  }

  /** Main result: a short key once given stays with its row, through any upserts of any rows, until the
      row is removed. */
  lemma {:induction false} ShortKeyIsStable(rows: Rows, changes: seq<Change>, dir: Dir)
    requires dir in rows && rows[dir].shortKey != ""
    requires forall change | change in changes :: Keeps(change, dir)
    ensures dir in Run(rows, changes) && Run(rows, changes)[dir].shortKey == rows[dir].shortKey
    decreases |changes|
  {
    if changes != [] {
      assert changes[0] in changes && forall change | change in changes[1..] :: change in changes;
      ShortKeyIsStable(Apply(rows, changes[0]), changes[1..], dir);
    }
  }

  // ---------------------------------------------------------------------------------------------
  // When a removed row's local key is given again

  predicate OnlyUpserts(changes: seq<Change>) {
    forall change | change in changes :: change.Upsert?
  }

  /** An upsert gives this key to a row that does not have it. */
  ghost predicate Gives(rows: Rows, change: Change, key: string) {
    && change.Upsert? && AssignedKey(rows, change.dir, change.model) == key
    && !(change.dir in rows && rows[change.dir].shortKey == key)
  }

  /** Some upsert of the run gives this key. */
  ghost predicate GivesIn(rows: Rows, changes: seq<Change>, key: string)
    decreases |changes|
  {
    changes != [] && (Gives(rows, changes[0], key) || GivesIn(Apply(rows, changes[0]), changes[1..], key))
  }

  lemma MaxLocalIs(keys: set<string>, max: nat)
    requires max >= LOCAL_START - 1 && forall k | k in keys :: LocalNumber(k) <= max
    requires max == LOCAL_START - 1 || exists k :: k in keys && LocalNumber(k) == max
    ensures MaxLocal(keys) == max
  {
    MaxLocalFacts(keys);
    var m := MaxLocal(keys);
    assert m == LOCAL_START - 1 || exists k :: k in keys && LocalNumber(k) == m;
  }

  /** An upsert gives no local key but the next one. */
  lemma OnlyNextIsGiven(rows: Rows, change: Change, key: string)
    requires Gives(rows, change, key) && HasPrefix(key, LOCAL_PREFIX)
    ensures LocalNumber(key) == MaxLocal(Keys(rows)) + 1
  {
    NotLocal(change.model.source, change.model.id);
    LocalKeyFacts(MaxLocal(Keys(rows)) + 1);
  }

  lemma NotLocal(source: Source, id: string)
    ensures !HasPrefix(RemoteKey(source, id), LOCAL_PREFIX)
  {
    var key := RemoteKey(source, id);
    assert |key| >= |LOCAL_PREFIX| ==> key[..|LOCAL_PREFIX|][0] == key[0] && LOCAL_PREFIX[0] != key[0];
  }

  lemma IsLocal(n: nat)
    ensures HasPrefix(LocalKey(n), LOCAL_PREFIX) && LocalNumber(LocalKey(n)) == n
  {
    LocalKeyFacts(n);
  }

  /** Upserts never lower the largest local number. */
  lemma KeysStay(rows: Rows, change: Change)
    requires change.Upsert?
    ensures MaxLocal(Keys(rows)) <= MaxLocal(Keys(Apply(rows, change)))
  {
    var m, after := MaxLocal(Keys(rows)), Apply(rows, change);
    MaxLocalFacts(Keys(rows));
    MaxLocalFacts(Keys(after));
    if m >= LOCAL_START {
      var key :| key in Keys(rows) && LocalNumber(key) == m;
      var dir :| dir in rows && rows[dir].shortKey == key;
      assert key != "";
      assert after[dir].shortKey == key;
      assert key in Keys(after);
    }
  }

  lemma {:induction false} NeverGiven(rows: Rows, changes: seq<Change>, key: string)
    requires OnlyUpserts(changes) && HasPrefix(key, LOCAL_PREFIX) && LocalNumber(key) <= MaxLocal(Keys(rows))
    ensures !GivesIn(rows, changes, key)
    decreases |changes|
  {
    if changes != [] {
      assert changes[0] in changes && forall change | change in changes[1..] :: change in changes;
      if Gives(rows, changes[0], key) { OnlyNextIsGiven(rows, changes[0], key); }
      KeysStay(rows, changes[0]);
      NeverGiven(Apply(rows, changes[0]), changes[1..], key);
    }
  }

  /** A directory longer than any in the table. */
  lemma {:induction false} NewDir(dirs: set<Dir>) returns (dir: Dir)
    ensures forall other | other in dirs :: |other| < |dir|
    decreases |dirs|
  {
    if dirs == {} {
      dir := "a";
    } else {
      var other :| other in dirs;
      var rest := NewDir(dirs - {other});
      dir := rest + other + "a";
    }
  }

  function NewLocal(dir: Dir): Change {
    Upsert(dir, Model(SourceLocal, "", ""), Signature(0, 0))
  }

  lemma KeysWithNewRow(rows: Rows, dir: Dir, row: Row)
    requires dir !in rows
    ensures Keys(rows[dir := row]) == Keys(rows) + {row.shortKey}
  {
    var after := rows[dir := row];
    assert after[dir].shortKey in Keys(after);
    forall key | key in Keys(rows) ensures key in Keys(after) {
      var other :| other in rows && rows[other].shortKey == key;
      assert after[other].shortKey == key;
    }
  }

  /** A local model in a new directory is given the next local key. */
  lemma NewLocalKey(rows: Rows, dir: Dir)
    requires dir !in rows
    ensures AssignedKey(rows, dir, NewLocal(dir).model) == LocalKey(MaxLocal(Keys(rows)) + 1)
  {
    assert RemoteKey(SourceLocal, "") == "";
  }

  lemma NewMaximum(keys: set<string>, key: string)
    requires LocalNumber(key) == MaxLocal(keys) + 1
    ensures MaxLocal(keys + {key}) == MaxLocal(keys) + 1
  {
    MaxLocalFacts(keys);
    MaxLocalIs(keys + {key}, MaxLocal(keys) + 1);
  }

  lemma NewLocalRaisesMax(rows: Rows, dir: Dir, key: string)
    requires dir !in rows && key == AssignedKey(rows, dir, NewLocal(dir).model)
    requires LocalNumber(key) == MaxLocal(Keys(rows)) + 1
    ensures MaxLocal(Keys(Apply(rows, NewLocal(dir)))) == MaxLocal(Keys(rows)) + 1
  {
    KeysWithNewRow(rows, dir, Row(key, NewLocal(dir).signature, NewLocal(dir).model));
    NewMaximum(Keys(rows), key);
  }

  lemma NextLocalNumber(rows: Rows, dir: Dir)
    requires dir !in rows
    ensures LocalNumber(AssignedKey(rows, dir, NewLocal(dir).model)) == MaxLocal(Keys(rows)) + 1
  {
    NewLocalKey(rows, dir);
    LocalKeyNumber(MaxLocal(Keys(rows)) + 1);
  }

  /** Enough new local models raise the largest local number to any other. */
  lemma {:induction false} RaiseMax(rows: Rows, m: nat, n: nat) returns (changes: seq<Change>)
    requires m == MaxLocal(Keys(rows)) <= n
    ensures OnlyUpserts(changes) && MaxLocal(Keys(Run(rows, changes))) == n
    decreases n - m
  {
    changes := [];
    if m < n {
      var dir := NewDir(rows.Keys);
      NextLocalNumber(rows, dir);
      NewLocalRaisesMax(rows, dir, AssignedKey(rows, dir, NewLocal(dir).model));
      var rest := RaiseMax(Apply(rows, NewLocal(dir)), m + 1, n);
      RunFirst(rows, NewLocal(dir), rest);
      changes := [NewLocal(dir)] + rest;
    }
  }

  lemma RunFirst(rows: Rows, change: Change, rest: seq<Change>)
    ensures Run(rows, [change] + rest) == Run(Apply(rows, change), rest)
  {
    assert ([change] + rest)[1..] == rest;
  }

  lemma {:induction false} GivesAtLast(rows: Rows, changes: seq<Change>, last: Change, key: string)
    requires Gives(Run(rows, changes), last, key)
    ensures GivesIn(rows, changes + [last], key)
    decreases |changes|
  {
    if changes == [] {
      assert [] + [last] == [last];
    } else {
      assert (changes + [last])[1..] == changes[1..] + [last];
      GivesAtLast(Apply(rows, changes[0]), changes[1..], last, key);
    }
  }

  /** The run is made of upserts, and one of them gives this key. */
  ghost predicate Reaches(rows: Rows, changes: seq<Change>, key: string) {
    OnlyUpserts(changes) && GivesIn(rows, changes, key)
  }

  lemma NextIsGiven(rows: Rows, dir: Dir, n: nat)
    requires dir !in rows && MaxLocal(Keys(rows)) + 1 == n
    ensures Gives(rows, NewLocal(dir), LocalKey(n))
  {
    NewLocalKey(rows, dir);
  }

  lemma ReachesAtLast(rows: Rows, changes: seq<Change>, last: Change, key: string)
    requires OnlyUpserts(changes) && last.Upsert? && Gives(Run(rows, changes), last, key)
    ensures Reaches(rows, changes + [last], key)
  {
    GivesAtLast(rows, changes, last, key);
  }

  lemma EventuallyGiven(rows: Rows, n: nat) returns (changes: seq<Change>)
    requires MaxLocal(Keys(rows)) < n
    ensures Reaches(rows, changes, LocalKey(n))
  {
    var raised := RaiseMax(rows, MaxLocal(Keys(rows)), n - 1);
    var dir := NewDir(Run(rows, raised).Keys);
    NextIsGiven(Run(rows, raised), dir, n);
    ReachesAtLast(rows, raised, NewLocal(dir), LocalKey(n));
    changes := raised + [NewLocal(dir)];
  }

  /** Main result: upserts can give a local key to another row exactly when no row of the table has a local
      number as large. So a removed row's key comes back exactly when it was above all that stay. */
  lemma LocalKeyIsReused(rows: Rows, dirs: set<Dir>, n: nat)
    requires n >= LOCAL_START
    ensures var rest := Apply(rows, Delete(dirs));
            (exists changes :: Reaches(rest, changes, LocalKey(n)))
            <==> forall dir | dir in rest :: LocalNumber(rest[dir].shortKey) < n
  {
    var rest := Apply(rows, Delete(dirs));
    var m := MaxLocal(Keys(rest));
    MaxLocalFacts(Keys(rest));
    if m < n {
      var changes := EventuallyGiven(rest, n);
      forall dir | dir in rest ensures LocalNumber(rest[dir].shortKey) < n {
        assert rest[dir].shortKey in Keys(rest);
      }
    } else {
      var key :| key in Keys(rest) && LocalNumber(key) == m;
      var dir :| dir in rest && rest[dir].shortKey == key;
      assert LocalNumber(rest[dir].shortKey) >= n;
      IsLocal(n);
      forall changes | OnlyUpserts(changes) ensures !Reaches(rest, changes, LocalKey(n)) {
        NeverGiven(rest, changes, LocalKey(n));
      }
    }
  }

  /** The first local key of an empty table, given, taken away with its row and given to another. */
  lemma {:induction false} FirstLocalKeyTwice(a: Dir, b: Dir)
    ensures var before := Run(map[], [NewLocal(a)]);
            var after := Run(map[], [NewLocal(a)] + ([Delete({a})] + [NewLocal(b)]));
            a in before && b in after && before[a].shortKey == after[b].shortKey == "local" + Decimal(100001)
  {
    RunFirst(map[], NewLocal(a), []);
    assert [NewLocal(a)] + [] == [NewLocal(a)] && [NewLocal(b)] + [] == [NewLocal(b)];
    var one := Apply(map[], NewLocal(a));
    RunFirst(map[], NewLocal(a), [Delete({a})] + [NewLocal(b)]);
    RunFirst(one, Delete({a}), [NewLocal(b)]);
    assert Apply(one, Delete({a})) == map[];
    RunFirst(map[], NewLocal(b), []);
    assert Keys(map[]) == {};
  }

  // ---------------------------------------------------------------------------------------------
  // The table as the source changes it

  method NextLocalShortKey(rows: Rows) returns (key: string)
    ensures key == LocalKey(MaxLocal(Keys(rows)) + 1)
  {
    var keys := Keys(rows);
    var max: nat := LOCAL_START - 1;
    var rest := keys;
    while rest != {}
      invariant rest <= keys && max >= LOCAL_START - 1
      invariant forall k | k in keys - rest :: LocalNumber(k) <= max
      invariant max == LOCAL_START - 1 || exists k :: k in keys && LocalNumber(k) == max
      decreases |rest|
    {
      var k :| k in rest;
      if LocalNumber(k) > max { max := LocalNumber(k); }
      rest := rest - {k};
    }
    MaxLocalIs(keys, max);
    key := LocalKey(max + 1);
  }

  class Table {
    var rows: Rows
    var revision: nat

    constructor ()
      ensures rows == map[] && revision == 0
    {
      rows, revision := map[], 0;
    }

    method AssignShortKey(dir: Dir, model: Model) returns (key: string)
      ensures key == AssignedKey(rows, dir, model)
    {
      if dir in rows && rows[dir].shortKey != "" { return rows[dir].shortKey; }
      var remote := RemoteKey(model.source, model.id);
      if remote != "" {
        return if TakenByOther(rows, dir, remote) then "" else remote;
      }
      if model.source == SourceLocal {
        key := NextLocalShortKey(rows);
        return;
      }
      key := "";
    }

    method UpsertRow(dir: Dir, model: Model, signature: Signature)
      modifies this
      ensures rows == Apply(old(rows), Upsert(dir, model, signature))
      ensures revision == old(revision) + 1
    {
      var key := AssignShortKey(dir, model);
      rows := rows[dir := Row(key, signature, model)];
      revision := revision + 1;
    }

    method DeleteRows(dirs: set<Dir>) returns (deleted: nat)
      modifies this
      ensures rows == Apply(old(rows), Delete(dirs))
      ensures deleted == |old(rows).Keys * dirs|
      ensures revision == old(revision) + (if deleted > 0 then 1 else 0)
    {
      deleted := |rows.Keys * dirs|;
      rows := rows - dirs;
      if deleted > 0 { revision := revision + 1; }
    }

    method TruncateRows()
      modifies this
      ensures rows == Apply(old(rows), Truncate) && revision == old(revision) + 1
    {
      rows := map[];
      revision := revision + 1;
    }
  }
}
