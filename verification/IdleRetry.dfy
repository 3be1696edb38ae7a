/** Choosing missing 3MF files to retry while the archive queue is idle (app/services/archive_worker.py). */
module IdleRetry {
  import opened Wrappers
  import opened Platforms

  const COOLDOWN := 900
  const VERIFIED := {"verification_required", "cloudflare", "auth_required", "cookie_invalid"}
  const RETRIED := VERIFIED + {"missing", "failed", "http_error", "network_error", "download_limited",
                               "pending_download", "queued", "running", "retrying"}

  /** A recorded missing file; updated is 0 when its time is unknown. */
  datatype Missing = Missing(source: Option<Platform>, modelId: string, modelUrl: string, title: string,
                             status: string, updated: nat)

  datatype Key = Key(platform: Platform, name: string)

  /** One model to retry: the first record of its key, with what all of them say. */
  datatype Candidate = Candidate(key: Key, modelId: string, modelUrl: string, title: string,
                                 updated: nat, probe: bool)

  function Name(m: Missing): string {
    if m.modelId != "" then m.modelId else m.modelUrl
  }

  function Status(m: Missing): string {
    if m.status == "" then "missing" else m.status
  }

  /** The key a record is retried under, if it is retried. */
  function KeyOf(m: Missing): Option<Key> {
    if Status(m) in RETRIED && m.source.Some? && Name(m) != "" then Some(Key(m.source.value, Name(m))) else None
  }

  function Max(x: nat, y: nat): nat {
    if x >= y then x else y
  }

  function Fresh(k: Key, m: Missing): Candidate {
    Candidate(k, m.modelId, m.modelUrl, m.title, m.updated, Status(m) in VERIFIED)
  }

  function Joined(c: Candidate, m: Missing): Candidate {
    c.(updated := Max(c.updated, m.updated), probe := c.probe || Status(m) in VERIFIED)
  }

  /** Add a record to the candidate of its key, or start one at the end. */
  function Add(candidates: seq<Candidate>, k: Key, m: Missing): seq<Candidate> {
    if candidates == [] then [Fresh(k, m)]
    else if candidates[0].key == k then [Joined(candidates[0], m)] + candidates[1..]
    else [candidates[0]] + Add(candidates[1..], k, m)
  }

  function Grouped(items: seq<Missing>): seq<Candidate>
    decreases |items|
  {
    if items == [] then []
    else
      var before, last := Grouped(items[..|items| - 1]), items[|items| - 1];
      match KeyOf(last)
      case None => before
      case Some(k) => Add(before, k, last)
  }

  predicate Cooling(now: int, c: Candidate) {
    c.updated != 0 && now - c.updated < COOLDOWN
  }

  // ---------------------------------------------------------------------------------------------
  // Order

  predicate LexLeq(a: string, b: string) {
    a == "" || (b != "" && (a[0] < b[0] || (a[0] == b[0] && LexLeq(a[1..], b[1..]))))
  }

  /** Older first; among equals by name. */
  predicate Leq(a: Candidate, b: Candidate) {
    a.updated < b.updated || (a.updated == b.updated && LexLeq(a.key.name, b.key.name))
  }

  lemma {:induction false} LexTotal(a: string, b: string)
    ensures LexLeq(a, b) || LexLeq(b, a)
    ensures LexLeq(a, b) && LexLeq(b, a) ==> a == b
    decreases |a|
  {
    if a != "" && b != "" {
      LexTotal(a[1..], b[1..]);
      assert a == [a[0]] + a[1..] && b == [b[0]] + b[1..];
    }
  }

  lemma {:induction false} LexTransitive(a: string, b: string, c: string)
    requires LexLeq(a, b) && LexLeq(b, c)
    ensures LexLeq(a, c)
    decreases |a|
  {
    if a != "" && a[0] == b[0] && b[0] == c[0] { LexTransitive(a[1..], b[1..], c[1..]); }
  }

  ghost predicate Sorted(s: seq<Candidate>) {
    forall i, j | 0 <= i < j < |s| :: Leq(s[i], s[j])
  }

  function Insert(c: Candidate, s: seq<Candidate>): seq<Candidate> {
    if s == [] then [c]
    else if Leq(s[0], c) then [s[0]] + Insert(c, s[1..])
    else [c] + s
  }

  /** The library sort. */
  function SortedBy(s: seq<Candidate>): seq<Candidate>
    decreases |s|
  {
    if s == [] then [] else Insert(s[|s| - 1], SortedBy(s[..|s| - 1]))
  }

  /** The candidates of one platform that are not cooling down. */
  function Pending(p: Platform, now: int, candidates: seq<Candidate>): seq<Candidate>
    decreases |candidates|
  {
    if candidates == [] then []
    else
      var before, last := Pending(p, now, candidates[..|candidates| - 1]), candidates[|candidates| - 1];
      if last.key.platform == p && !Cooling(now, last) then before + [last] else before
  }

  function Bucket(p: Platform, now: int, candidates: seq<Candidate>): seq<Candidate> {
    SortedBy(Pending(p, now, candidates))
  }

  function CoolingCount(now: int, candidates: seq<Candidate>): nat
    decreases |candidates|
  {
    if candidates == [] then 0
    else
      var last := candidates[|candidates| - 1];
      CoolingCount(now, candidates[..|candidates| - 1]) + (if Cooling(now, last) then 1 else 0)
  }

  lemma {:induction false} InsertFacts(c: Candidate, s: seq<Candidate>)
    ensures |Insert(c, s)| == |s| + 1
    ensures forall d :: d in Insert(c, s) <==> d == c || d in s
    decreases |s|
  {
    if s != [] {
      assert s == [s[0]] + s[1..];
      if Leq(s[0], c) { InsertFacts(c, s[1..]); }
    }
  }

  lemma {:induction false} InsertSorted(c: Candidate, s: seq<Candidate>)
    requires Sorted(s)
    ensures Sorted(Insert(c, s))
    decreases |s|
  {
    if s != [] {
      LexTotal(s[0].key.name, c.key.name);
      var rest := if Leq(s[0], c) then Insert(c, s[1..]) else s;
      if Leq(s[0], c) {
        InsertSorted(c, s[1..]);
        InsertFacts(c, s[1..]);
        forall j | 0 <= j < |rest| ensures Leq(s[0], rest[j]) {
          assert rest[j] in rest;
        }
      } else {
        forall j | 0 <= j < |s| ensures Leq(c, s[j]) {
          if j > 0 && c.updated == s[0].updated == s[j].updated {
            LexTransitive(c.key.name, s[0].key.name, s[j].key.name);
          }
        }
      }
    }
  }

  lemma {:induction false} SortedByFacts(s: seq<Candidate>)
    ensures Sorted(SortedBy(s)) && |SortedBy(s)| == |s|
    ensures forall c :: c in SortedBy(s) <==> c in s
    decreases |s|
  {
    if s != [] {
      var init, last := s[..|s| - 1], s[|s| - 1];
      assert s == init + [last];
      SortedByFacts(init);
      InsertSorted(last, SortedBy(init));
      InsertFacts(last, SortedBy(init));
    }
  }

  lemma {:induction false} PendingFacts(p: Platform, now: int, candidates: seq<Candidate>)
    ensures forall c :: c in Pending(p, now, candidates) <==> c in candidates && c.key.platform == p && !Cooling(now, c)
    decreases |candidates|
  {
    if candidates != [] {
      assert candidates == candidates[..|candidates| - 1] + [candidates[|candidates| - 1]];
      PendingFacts(p, now, candidates[..|candidates| - 1]);
    }
  }

  /** A bucket is sorted and holds just the candidates of its platform that are out of cooldown. */
  lemma BucketFacts(p: Platform, now: int, candidates: seq<Candidate>)
    ensures Sorted(Bucket(p, now, candidates))
    ensures forall c :: c in Bucket(p, now, candidates) <==> c in candidates && c.key.platform == p && !Cooling(now, c)
  {
    SortedByFacts(Pending(p, now, candidates));
    PendingFacts(p, now, candidates);
  }

  /** At the first difference a has the smaller character, or a ends there. */
  ghost predicate Before(a: string, b: string, k: nat) {
    && k <= |a| && k <= |b| && a[..k] == b[..k]
    && if k == |a| then true else k < |b| && a[k] < b[k]
  }

  lemma {:induction false} LexLeqExactlyWhen(a: string, b: string)
    ensures LexLeq(a, b) <==> exists k: nat :: Before(a, b, k)
    decreases |a|
  {
    if a == "" {
      assert Before(a, b, 0);
    } else if b != "" && a[0] == b[0] {
      LexLeqExactlyWhen(a[1..], b[1..]);
      if LexLeq(a, b) {
        var k: nat :| Before(a[1..], b[1..], k);
        assert a[..k + 1] == [a[0]] + a[1..][..k] && b[..k + 1] == [b[0]] + b[1..][..k];
        assert Before(a, b, k + 1);
      }
      if k: nat :| Before(a, b, k) {
        assert k > 0 && a[1..][..k - 1] == a[..k][1..] && b[1..][..k - 1] == b[..k][1..];
        assert Before(a[1..], b[1..], k - 1);
      }
    } else if LexLeq(a, b) {
      assert Before(a, b, 0);
    } else {
      forall k: nat ensures !Before(a, b, k) {
        if 0 < k <= |a| && k <= |b| { assert a[..k][0] != b[..k][0]; }
      }
    }
  }

  /** Main result, in plain terms: a bucket holds each candidate of its site that was never tried or not in the last
      900 seconds, the longest untried first, and by name among equals. */
  lemma BucketSays(p: Platform, now: int, candidates: seq<Candidate>)
    ensures forall c :: c in Bucket(p, now, candidates) <==>
              c in candidates && c.key.platform == p && (c.updated == 0 || now - c.updated >= 900)
    ensures var b := Bucket(p, now, candidates);
            forall i, j | 0 <= i < j < |b| ::
              b[i].updated <= b[j].updated
              && (b[i].updated == b[j].updated ==> exists k: nat :: Before(b[i].key.name, b[j].key.name, k))
  {
    BucketFacts(p, now, candidates);
    var b := Bucket(p, now, candidates);
    forall i, j | 0 <= i < j < |b| && b[i].updated == b[j].updated
      ensures exists k: nat :: Before(b[i].key.name, b[j].key.name, k)
    {
      assert Leq(b[i], b[j]);
      LexLeqExactlyWhen(b[i].key.name, b[j].key.name);
    }
  }

  lemma {:induction false} PendingPartition(now: int, candidates: seq<Candidate>)
    ensures |Pending(Cn, now, candidates)| + |Pending(Global, now, candidates)| + CoolingCount(now, candidates)
            == |candidates|
    decreases |candidates|
  {
    if candidates != [] { PendingPartition(now, candidates[..|candidates| - 1]); }
  }

  // ---------------------------------------------------------------------------------------------
  // Grouping is exact

  ghost predicate DistinctKeys(candidates: seq<Candidate>) {
    forall i, j | 0 <= i < j < |candidates| :: candidates[i].key != candidates[j].key
  }

  function Keys(candidates: seq<Candidate>): set<Key> {
    set c | c in candidates :: c.key
  }

  /** Every key some record is retried under. */
  function KeysIn(items: seq<Missing>): set<Key> {
    set m | m in items && KeyOf(m).Some? :: KeyOf(m).value
  }

  lemma KeysOfCons(c: Candidate, rest: seq<Candidate>)
    ensures Keys([c] + rest) == {c.key} + Keys(rest)
  {
    assert c in [c] + rest;
    assert forall d | d in rest :: d in [c] + rest;
  }

  lemma {:induction false} AddKeys(candidates: seq<Candidate>, k: Key, m: Missing)
    ensures Keys(Add(candidates, k, m)) == Keys(candidates) + {k}
    decreases |candidates|
  {
    var after := Add(candidates, k, m);
    KeysOfCons(after[0], after[1..]);
    assert after == [after[0]] + after[1..];
    if candidates != [] {
      KeysOfCons(candidates[0], candidates[1..]);
      assert candidates == [candidates[0]] + candidates[1..];
      if candidates[0].key != k { AddKeys(candidates[1..], k, m); }
    }
  }

  lemma {:induction false} AddDistinct(candidates: seq<Candidate>, k: Key, m: Missing)
    requires DistinctKeys(candidates)
    ensures DistinctKeys(Add(candidates, k, m))
    decreases |candidates|
  {
    if candidates != [] && candidates[0].key != k {
      AddDistinct(candidates[1..], k, m);
      AddKeys(candidates[1..], k, m);
      var rest := Add(candidates[1..], k, m);
      forall j | 0 <= j < |rest| ensures rest[j].key != candidates[0].key {
        assert rest[j].key in Keys(rest);
      }
    }
  }

  lemma {:induction false} GroupedKeys(items: seq<Missing>)
    ensures DistinctKeys(Grouped(items)) && Keys(Grouped(items)) == KeysIn(items)
    decreases |items|
  {
    if items != [] {
      var init, last := items[..|items| - 1], items[|items| - 1];
      assert items == init + [last];
      GroupedKeys(init);
      if KeyOf(last).Some? {
        AddDistinct(Grouped(init), KeyOf(last).value, last);
        AddKeys(Grouped(init), KeyOf(last).value, last);
      }
    }
  }

  lemma {:induction false} DistinctCount(candidates: seq<Candidate>)
    requires DistinctKeys(candidates)
    ensures |Keys(candidates)| == |candidates|
    decreases |candidates|
  {
    if candidates != [] {
      var rest := candidates[1..];
      DistinctCount(rest);
      assert candidates == [candidates[0]] + rest;
      KeysOfCons(candidates[0], rest);
      assert candidates[0].key !in Keys(rest);
    }
  }

  /** Main result: the two buckets and the cooling candidates are, one for one, the keys the records are
      retried under. */
  lemma BucketsCountKeys(items: seq<Missing>, now: int)
    ensures var c := Grouped(items);
            |Bucket(Cn, now, c)| + |Bucket(Global, now, c)| + CoolingCount(now, c) == |KeysIn(items)|
  {
    GroupedKeys(items);
    DistinctCount(Grouped(items));
    PendingPartition(now, Grouped(items));
    SortedByFacts(Pending(Cn, now, Grouped(items)));
    SortedByFacts(Pending(Global, now, Grouped(items)));
  }

  /** The records of one key, taken together in order. */
  function Together(items: seq<Missing>, k: Key): Option<Candidate>
    decreases |items|
  {
    if items == [] then None
    else
      var before, last := Together(items[..|items| - 1], k), items[|items| - 1];
      if KeyOf(last) != Some(k) then before
      else if before.None? then Some(Fresh(k, last)) else Some(Joined(before.value, last))
  }

  lemma {:induction false} AddedCandidates(candidates: seq<Candidate>, k: Key, m: Missing, c: Candidate)
    requires DistinctKeys(candidates)
    ensures c.key != k ==> (c in Add(candidates, k, m) <==> c in candidates)
    ensures k !in Keys(candidates) ==> Fresh(k, m) in Add(candidates, k, m)
    ensures c in candidates && c.key == k ==> Joined(c, m) in Add(candidates, k, m)
    decreases |candidates|
  {
    if candidates != [] {
      var first, rest := candidates[0], candidates[1..];
      assert candidates == [first] + rest;
      KeysOfCons(first, rest);
      if first.key != k {
        AddedCandidates(rest, k, m, c);
      } else if c in rest {
        assert c.key == k ==> c.key in Keys(rest);
      }
    }
  }

  /** Each candidate is its records taken together. */
  lemma {:induction false} GroupedTogether(items: seq<Missing>, k: Key)
    ensures match Together(items, k)
            case None => k !in Keys(Grouped(items))
            case Some(c) => c in Grouped(items) && c.key == k
    decreases |items|
  {
    if items != [] {
      var init, last := items[..|items| - 1], items[|items| - 1];
      GroupedTogether(init, k);
      GroupedKeys(init);
      if KeyOf(last).Some? {
        var l := KeyOf(last).value;
        AddKeys(Grouped(init), l, last);
        var before := Together(init, k);
        AddedCandidates(Grouped(init), l, last, if before.Some? then before.value else Fresh(k, last));
      }
    }
  }

  predicate Has(items: seq<Missing>, k: Key, updated: nat) {
    exists m :: m in items && KeyOf(m) == Some(k) && m.updated == updated
  }

  lemma {:induction false} TogetherFacts(items: seq<Missing>, k: Key)
    requires Together(items, k).Some?
    ensures var c := Together(items, k).value;
            && Has(items, k, c.updated)
            && (forall m | m in items && KeyOf(m) == Some(k) :: m.updated <= c.updated)
            && (c.probe <==> exists m :: m in items && KeyOf(m) == Some(k) && Status(m) in VERIFIED)
    decreases |items|
  {
    var init, last := items[..|items| - 1], items[|items| - 1];
    assert items == init + [last];
    if Together(init, k).Some? {
      TogetherFacts(init, k);
    } else {
      NoneTogether(init, k);
    }
    if KeyOf(last) == Some(k) { assert last in items; }
  }

  lemma {:induction false} NoneTogether(items: seq<Missing>, k: Key)
    requires Together(items, k).None?
    ensures forall m | m in items :: KeyOf(m) != Some(k)
    decreases |items|
  {
    if items != [] {
      assert items == items[..|items| - 1] + [items[|items| - 1]];
      NoneTogether(items[..|items| - 1], k);
    }
  }

  /** Main result: a candidate carries the latest time of its records, and asks for verification exactly when
      one of them does. */
  lemma CandidateSaysAll(items: seq<Missing>, c: Candidate)
    requires c in Grouped(items)
    ensures Has(items, c.key, c.updated)
    ensures forall m | m in items && KeyOf(m) == Some(c.key) :: m.updated <= c.updated
    ensures c.probe <==> exists m :: m in items && KeyOf(m) == Some(c.key) && Status(m) in VERIFIED
  {
    GroupedKeys(items);
    assert c.key in Keys(Grouped(items));
    GroupedTogether(items, c.key);
    TogetherFacts(items, c.key);
    var d := Together(items, c.key).value;
    var i :| 0 <= i < |Grouped(items)| && Grouped(items)[i] == c;
    var j :| 0 <= j < |Grouped(items)| && Grouped(items)[j] == d;
    assert i == j;
  }

  /** The states in which a missing file is retried; those that ask for a verification come first. */
  const VERIFYING := {"verification_required", "cloudflare", "auth_required", "cookie_invalid"}
  const OTHERS := {"missing", "failed", "http_error", "network_error", "download_limited", "pending_download",
                   "queued", "running", "retrying", ""}

  /** A record is retried under its site and its model's id, or its page if it has none. */
  predicate IsRetriedAs(m: Missing, k: Key) {
    && m.status in VERIFYING + OTHERS && m.source == Some(k.platform)
    && k.name != "" && k.name == (if m.modelId == "" then m.modelUrl else m.modelId)
  }

  /** The first record that is retried under this key. */
  ghost predicate IsFirstOf(items: seq<Missing>, k: Key, i: nat) {
    i < |items| && IsRetriedAs(items[i], k) && forall j | 0 <= j < i :: !IsRetriedAs(items[j], k)
  }

  /** The candidate names its model as the first record of the key does. */
  ghost predicate NamedByFirst(items: seq<Missing>, k: Key, c: Candidate, i: nat) {
    IsFirstOf(items, k, i) && c.modelId == items[i].modelId && c.modelUrl == items[i].modelUrl
    && c.title == items[i].title
  }

  lemma {:induction false} FirstTogether(items: seq<Missing>, k: Key)
    requires Together(items, k).Some?
    ensures exists i: nat :: NamedByFirst(items, k, Together(items, k).value, i)
    decreases |items|
  {
    var init := items[..|items| - 1];
    OneTogether(items, k);
    if Together(init, k).Some? {
      FirstTogether(init, k);
      NamedStill(items, init, k, Together(init, k).value, Together(items, k).value);
    } else {
      NoneBefore(items, k);
      assert NamedByFirst(items, k, Together(items, k).value, |items| - 1);
    }
  }

  predicate NamedAlike(c: Candidate, modelId: string, modelUrl: string, title: string) {
    c.modelId == modelId && c.modelUrl == modelUrl && c.title == title
  }

  lemma OneTogether(items: seq<Missing>, k: Key)
    requires items != [] && Together(items, k).Some?
    ensures var before, c, last := Together(items[..|items| - 1], k), Together(items, k).value, items[|items| - 1];
            if before.Some? then NamedAlike(c, before.value.modelId, before.value.modelUrl, before.value.title)
            else IsRetriedAs(last, k) && NamedAlike(c, last.modelId, last.modelUrl, last.title)
  {}

  lemma NamedStill(items: seq<Missing>, init: seq<Missing>, k: Key, before: Candidate, after: Candidate)
    requires init <= items && exists i: nat :: NamedByFirst(init, k, before, i)
    requires NamedAlike(after, before.modelId, before.modelUrl, before.title)
    ensures exists i: nat :: NamedByFirst(items, k, after, i)
  {
    var i: nat :| NamedByFirst(init, k, before, i);
    assert items[i] == init[i] && forall j | 0 <= j < i :: items[j] == init[j];
    assert NamedByFirst(items, k, after, i);
  }

  lemma NoneBefore(items: seq<Missing>, k: Key)
    requires items != [] && Together(items[..|items| - 1], k).None?
    ensures forall j | 0 <= j < |items| - 1 :: !IsRetriedAs(items[j], k)
  {
    var init := items[..|items| - 1];
    NoneTogether(init, k);
    forall j | 0 <= j < |init| ensures !IsRetriedAs(items[j], k) { assert items[j] == init[j] && init[j] in init; }
  }

  /** Main result, in plain terms: there is one candidate for each key that a record is retried under; it names the
      model as the first such record does, carries the latest time of them all, and asks for a verification exactly
      when one of them does. */
  lemma CandidatesSay(items: seq<Missing>, k: Key)
    ensures (exists m :: m in items && IsRetriedAs(m, k)) <==> exists c :: c in Grouped(items) && c.key == k
    ensures forall c | c in Grouped(items) && c.key == k ::
              && (exists i: nat :: NamedByFirst(items, k, c, i))
              && (exists m :: m in items && IsRetriedAs(m, k) && m.updated == c.updated)
              && (forall m | m in items && IsRetriedAs(m, k) :: m.updated <= c.updated)
              && (c.probe <==> exists m :: m in items && IsRetriedAs(m, k) && m.status in VERIFYING)
  {
    forall m ensures IsRetriedAs(m, k) <==> KeyOf(m) == Some(k) {}
    forall m | IsRetriedAs(m, k) ensures m.status in VERIFYING <==> Status(m) in VERIFIED {}
    GroupedKeys(items);
    GroupedTogether(items, k);
    if Together(items, k).None? { NoneTogether(items, k); }
    forall c | c in Grouped(items) && c.key == k
      ensures c == Together(items, k).value
      ensures exists i: nat :: NamedByFirst(items, k, c, i)
      ensures exists m :: m in items && IsRetriedAs(m, k) && m.updated == c.updated
      ensures forall m | m in items && IsRetriedAs(m, k) :: m.updated <= c.updated
      ensures c.probe <==> exists m :: m in items && IsRetriedAs(m, k) && m.status in VERIFYING
    {
      CandidateSaysAll(items, c);
      OneCandidate(Grouped(items), c, Together(items, k).value);
      FirstTogether(items, k);
    }
  }

  lemma OneCandidate(candidates: seq<Candidate>, c: Candidate, d: Candidate)
    requires DistinctKeys(candidates) && c in candidates && d in candidates && c.key == d.key
    ensures c == d
  {
    var i :| 0 <= i < |candidates| && candidates[i] == c;
    var j :| 0 <= j < |candidates| && candidates[j] == d;
    assert i == j;
  }

  // ---------------------------------------------------------------------------------------------
  // The loops of the source: a dictionary of candidates in order of first occurrence, then two buckets

  function CandidateKey(c: Candidate): Key { c.key }

  lemma {:induction false} AddAt(list: seq<Candidate>, k: Key, m: Missing)
    requires DistinctKeys(list)
    ensures (forall j | 0 <= j < |list| :: list[j].key != k) ==> Add(list, k, m) == list + [Fresh(k, m)]
    ensures forall j | 0 <= j < |list| && list[j].key == k :: Add(list, k, m) == list[j := Joined(list[j], m)]
    decreases |list|
  {
    if list != [] && list[0].key != k {
      var rest := list[1..];
      AddAt(rest, k, m);
      assert forall j | 0 <= j < |rest| :: rest[j] == list[j + 1];
      forall j | 0 <= j < |list| && list[j].key == k ensures Add(list, k, m) == list[j := Joined(list[j], m)] {
        assert rest[j - 1].key == k;
      }
    }
  }

  method AddRecord(groupedBefore: map<Key, Candidate>, orderBefore: seq<Key>, k: Key, m: Missing,
                   ghost list: seq<Candidate>)
      returns (grouped: map<Key, Candidate>, order: seq<Key>)
    requires Shows(groupedBefore, orderBefore, list, CandidateKey)
    ensures Shows(grouped, order, Add(list, k, m), CandidateKey)
  {
    grouped, order := groupedBefore, orderBefore;
    AddAt(list, k, m);
    if k !in grouped {
      ShowsAppended(grouped, order, list, CandidateKey, Fresh(k, m));
      assert forall j | 0 <= j < |list| :: order[j] in grouped;
      grouped, order := grouped[k := Fresh(k, m)], order + [k];
    } else {
      ghost var j :| 0 <= j < |order| && order[j] == k;
      ShowsReplaced(grouped, order, list, CandidateKey, j, Joined(grouped[k], m));
      assert list[j].key == k;
      grouped := grouped[k := Joined(grouped[k], m)];
    }
  }

  method RetryBuckets(items: seq<Missing>, now: int)
      returns (cn: seq<Candidate>, global: seq<Candidate>, cooling: nat)
    ensures cn == Bucket(Cn, now, Grouped(items)) && global == Bucket(Global, now, Grouped(items))
    ensures cooling == CoolingCount(now, Grouped(items))
  {
    var grouped, order := map[], [];
    var i := 0;
    while i < |items|
      invariant 0 <= i <= |items|
      invariant Shows(grouped, order, Grouped(items[..i]), CandidateKey)
    {
      assert items[..i + 1][..i] == items[..i];
      var key := KeyOf(items[i]);
      if key.Some? { grouped, order := AddRecord(grouped, order, key.value, items[i], Grouped(items[..i])); }
      i := i + 1;
    }
    assert items[..i] == items;
    cn, global, cooling := FillBuckets(grouped, order, now, Grouped(items));
  }

  method FillBuckets(grouped: map<Key, Candidate>, order: seq<Key>, now: int, ghost list: seq<Candidate>)
      returns (cn: seq<Candidate>, global: seq<Candidate>, cooling: nat)
    requires Shows(grouped, order, list, CandidateKey)
    ensures cn == Bucket(Cn, now, list) && global == Bucket(Global, now, list) && cooling == CoolingCount(now, list)
  {
    cn, global, cooling := [], [], 0;
    var i := 0;
    while i < |order|
      invariant 0 <= i <= |order|
      invariant cn == Pending(Cn, now, list[..i]) && global == Pending(Global, now, list[..i])
      invariant cooling == CoolingCount(now, list[..i])
    {
      assert list[..i + 1][..i] == list[..i];
      var c := grouped[order[i]];
      if Cooling(now, c) { cooling := cooling + 1; }
      else if c.key.platform == Cn { cn := cn + [c]; }
      else { global := global + [c]; }
      i := i + 1;
    }
    assert list[..i] == list;
    cn, global := SortedBy(cn), SortedBy(global);
  }
}
