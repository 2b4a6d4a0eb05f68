/** The duplicate filter: one pass over the record stream that groups the
    records by their combination key, then keeps the keys seen exactly once. */
module DuplicateFilter {
  import opened Json

  /** A combination key: the values of the combination fields, in field order. */
  type Key = seq<Value>

  /** The combination fields the pipeline groups by. */
  const CombinationFields: seq<string> := ["owner", "price", "category"]

  /** The lookup failure raised when a groupable record has no "id". */
  datatype Error = MissingId

  /** The parsed input array. A missing file yields no elements at all; a
      syntax error mid-stream leaves the elements already produced. */
  datatype Source =
    | NotFound
    | Parsed(elements: seq<Element>)
    | Truncated(prefix: seq<Element>)

  /** The combination key of a record, or None as soon as a field is absent. */
  function KeyOf(rec: Record, fields: seq<string>): (r: Option<Key>)
    ensures r.Some? <==> forall i :: 0 <= i < |fields| ==> fields[i] in rec
    ensures r.Some? ==> |r.value| == |fields|
    ensures r.Some? ==> forall i :: 0 <= i < |fields| ==> r.value[i] == rec[fields[i]]
    decreases |fields|
  {
    if fields == [] then Some([])
    else if fields[0] !in rec then None
    else
      match KeyOf(rec, fields[1..])
      case None =>
        assert exists i :: 1 <= i < |fields| && fields[i] !in rec by {
          var j :| 0 <= j < |fields[1..]| && fields[1..][j] !in rec;
          assert fields[j + 1] !in rec;
        }
        None
      case Some(rest) => Some([rec[fields[0]]] + rest)
  }

  /** What one pass of the grouping loop makes of one stream element. */
  datatype Sighting = Skipped | Keyed(key: Key, id: Value) | Unidentified(key: Key)

  function Classify(e: Element, fields: seq<string>): Sighting
  {
    match e
    case NonObject(_) => Skipped
    case Object(rec) =>
      match KeyOf(rec, fields)
      case None => Skipped
      case Some(k) => if "id" in rec then Keyed(k, rec["id"]) else Unidentified(k)
  }

  predicate Crashes(e: Element, fields: seq<string>)
  {
    Classify(e, fields).Unidentified?
  }

  /** Some element of the stream has every combination field but no id. */
  predicate AnyCrash(s: seq<Element>, fields: seq<string>)
  {
    exists e :: e in s && Crashes(e, fields)
  }

  /** The ids of the grouped records of s whose key is k, in stream order. */
  function IdsWithKey(s: seq<Element>, fields: seq<string>, k: Key): seq<Value>
    decreases |s|
  {
    if s == [] then []
    else
      var rest := IdsWithKey(s[..|s| - 1], fields, k);
      match Classify(s[|s| - 1], fields)
      case Keyed(k', id) => if k' == k then rest + [id] else rest
      case _ => rest
  }

  /** The keys of the grouped records of s. */
  function KeysSeen(s: seq<Element>, fields: seq<string>): set<Key>
    decreases |s|
  {
    if s == [] then {}
    else
      var rest := KeysSeen(s[..|s| - 1], fields);
      match Classify(s[|s| - 1], fields)
      case Keyed(k, _) => rest + {k}
      case _ => rest
  }

  /** The number of elements of s the grouping loop skips. */
  function SkippedCount(s: seq<Element>, fields: seq<string>): nat
    decreases |s|
  {
    if s == [] then 0
    else SkippedCount(s[..|s| - 1], fields) + if Classify(s[|s| - 1], fields).Skipped? then 1 else 0
  }

  /** The occurrence lists of a stream: each key seen, to its ids. */
  function Occurrences(s: seq<Element>, fields: seq<string>): map<Key, seq<Value>>
  {
    map k | k in KeysSeen(s, fields) :: IdsWithKey(s, fields, k)
  }

  /** The reference definition of the unique set: the keys that exactly one
      grouped record has, each mapped to that record's id. */
  function SingleSighted(s: seq<Element>, fields: seq<string>): map<Key, Value>
  {
    map k | k in KeysSeen(s, fields) && |IdsWithKey(s, fields, k)| == 1 :: IdsWithKey(s, fields, k)[0]
  }

  /** The reference definition of what the duplicate filter returns. */
  function UniqueSet(src: Source, fields: seq<string>): Result<map<Key, Value>, Error>
  {
    match src
    case NotFound => Ok(map[])
    case Parsed(s) => if AnyCrash(s, fields) then Err(MissingId) else Ok(SingleSighted(s, fields))
    case Truncated(s) => if AnyCrash(s, fields) then Err(MissingId) else Ok(map[])
  }

  /** The total length of all occurrence lists. */
  ghost function TotalOccurrences(m: map<Key, seq<Value>>): nat
    decreases m.Keys
  {
    if m.Keys == {} then 0
    else
      var k :| k in m.Keys;
      |m[k]| + TotalOccurrences(m - {k})
  }

  /** The defaultdict append: add id at the end of k's list, creating it if new. */
  function Append(m: map<Key, seq<Value>>, k: Key, id: Value): map<Key, seq<Value>>
  {
    m[k := (if k in m then m[k] else []) + [id]]
  }

  /** The final dict comprehension: keep the keys whose list has one id. */
  function Uniques(acc: map<Key, seq<Value>>): (u: map<Key, Value>)
    ensures u.Keys <= acc.Keys
    ensures forall k :: k in acc && |acc[k]| == 1 ==> k in u
    ensures forall k :: k in u ==> acc[k] == [u[k]]
  {
    map k | k in acc && |acc[k]| == 1 :: acc[k][0]
  }

  /** The grouping loop: appends each groupable record's id to its key's
      list; a groupable record without an id aborts the whole pass. */
  method GroupOccurrences(s: seq<Element>, fields: seq<string>) returns (r: Result<map<Key, seq<Value>>, Error>)
    ensures r.Err? <==> AnyCrash(s, fields)
    ensures r.Ok? ==> r.value == Occurrences(s, fields)
    ensures r.Ok? ==> forall k :: k in r.value ==> r.value[k] != []
    ensures r.Ok? ==> TotalOccurrences(r.value) + SkippedCount(s, fields) == |s|
  {
    var counts: map<Key, seq<Value>> := map[];
    var i := 0;
    while i < |s|
      invariant 0 <= i <= |s|
      invariant !AnyCrash(s[..i], fields)
      invariant counts == Occurrences(s[..i], fields)
      invariant TotalOccurrences(counts) + SkippedCount(s[..i], fields) == i
    {
      var e := s[i];
      assert s[..i + 1] == s[..i] + [e];
      OccurrencesSnoc(s[..i], e, fields);
      if e.NonObject? {
        i := i + 1;
        continue;
      }
      var key := KeyOf(e.fields, fields);
      if key.None? {
        i := i + 1;
        continue;
      }
      if "id" !in e.fields {
        assert s[..i + 1][i] == e;
        return Err(MissingId);
      }
      TotalOccurrencesAppend(counts, key.value, e.fields["id"]);
      counts := Append(counts, key.value, e.fields["id"]);
      i := i + 1;
    }
    assert s[..i] == s;
    forall k | k in counts
      ensures counts[k] != []
    {
      KeysSeenIff(s, fields, k);
    }
    return Ok(counts);
  }

  /** The whole duplicate filter, for each way the stream can end. */
  method FindUniques(src: Source, fields: seq<string>) returns (r: Result<map<Key, Value>, Error>)
    ensures r == UniqueSet(src, fields)
  {
    match src
    case NotFound =>
      return Ok(map[]);
    case Truncated(s) =>
      var g := GroupOccurrences(s, fields);
      if g.Err? {
        return Err(MissingId);
      }
      return Ok(map[]);
    case Parsed(s) =>
      var g := GroupOccurrences(s, fields);
      if g.Err? {
        return Err(MissingId);
      }
      var u := Uniques(g.value);
      assert u == SingleSighted(s, fields);
      return Ok(u);
  }

  // ---------------------------------------------------------------------
  // Lemmas about the stream specification

  /** A key is seen iff some grouped record carries it. */
  lemma {:induction false} KeysSeenIff(s: seq<Element>, fields: seq<string>, k: Key)
    ensures k in KeysSeen(s, fields) <==> IdsWithKey(s, fields, k) != []
    decreases |s|
  {
    if s != [] {
      KeysSeenIff(s[..|s| - 1], fields, k);
    }
  }

  /** Every key seen has one value per combination field. */
  lemma {:induction false} KeysSeenLength(s: seq<Element>, fields: seq<string>, k: Key)
    requires k in KeysSeen(s, fields)
    ensures |k| == |fields|
    decreases |s|
  {
    var last := Classify(s[|s| - 1], fields);
    if !(last.Keyed? && last.key == k) {
      KeysSeenLength(s[..|s| - 1], fields, k);
    }
  }

  lemma OccurrencesSnoc(s: seq<Element>, e: Element, fields: seq<string>)
    ensures Classify(e, fields).Keyed? ==>
              Occurrences(s + [e], fields) == Append(Occurrences(s, fields), Classify(e, fields).key, Classify(e, fields).id)
    ensures !Classify(e, fields).Keyed? ==> Occurrences(s + [e], fields) == Occurrences(s, fields)
    ensures SkippedCount(s + [e], fields) == SkippedCount(s, fields) + if Classify(e, fields).Skipped? then 1 else 0
    ensures AnyCrash(s + [e], fields) <==> AnyCrash(s, fields) || Crashes(e, fields)
  {
    var t := s + [e];
    assert t[..|t| - 1] == s;
    forall k {
      KeysSeenIff(s, fields, k);
    }
    forall x | x in t
      ensures x in s || x == e
    {
    }
  }

  /** Grouping distributes over concatenation of streams. */
  lemma {:induction false} IdsWithKeyConcat(a: seq<Element>, b: seq<Element>, fields: seq<string>, k: Key)
    ensures IdsWithKey(a + b, fields, k) == IdsWithKey(a, fields, k) + IdsWithKey(b, fields, k)
    decreases |b|
  {
    if b == [] {
      assert a + b == a;
    } else {
      var b' := b[..|b| - 1];
      assert (a + b)[..|a + b| - 1] == a + b';
      IdsWithKeyConcat(a, b', fields, k);
    }
  }

  /** The ids grouped under a key depend only on the multiset of elements. */
  lemma {:induction false} IdsWithKeyPermutation(s: seq<Element>, t: seq<Element>, fields: seq<string>, k: Key)
    requires multiset(s) == multiset(t)
    ensures multiset(IdsWithKey(s, fields, k)) == multiset(IdsWithKey(t, fields, k))
    decreases |s|
  {
    if s == [] {
      assert |t| == |multiset(t)| == 0;
    } else {
      var x, s' := s[|s| - 1], s[..|s| - 1];
      assert s == s' + [x];
      var t1, t2 := PermutationSplit(s, t);
      var t' := t1 + t2;
      IdsWithKeyPermutation(s', t', fields, k);
      IdsWithKeyConcat(s', [x], fields, k);
      IdsWithKeyConcat(t1, [x], fields, k);
      IdsWithKeyConcat(t1 + [x], t2, fields, k);
      IdsWithKeyConcat(t1, t2, fields, k);
    }
  }

  /** Two streams that crash alike and group the same multisets of ids under
      every key have the same unique set. */
  lemma SameSightingsSameUniques(s: seq<Element>, t: seq<Element>, fields: seq<string>)
    requires AnyCrash(s, fields) == AnyCrash(t, fields)
    requires forall k :: multiset(IdsWithKey(s, fields, k)) == multiset(IdsWithKey(t, fields, k))
    ensures SingleSighted(s, fields) == SingleSighted(t, fields)
    ensures UniqueSet(Parsed(s), fields) == UniqueSet(Parsed(t), fields)
  {
    var A, B := SingleSighted(s, fields), SingleSighted(t, fields);
    forall k
      ensures k in A <==> k in B
      ensures k in A ==> A[k] == B[k]
    {
      var xs, ys := IdsWithKey(s, fields, k), IdsWithKey(t, fields, k);
      KeysSeenIff(s, fields, k);
      KeysSeenIff(t, fields, k);
      assert |xs| == |multiset(xs)| == |multiset(ys)| == |ys|;
      if |xs| == 1 {
        assert xs == [xs[0]] && ys == [ys[0]];
        assert xs[0] in multiset(ys);
      }
    }
    assert A == B;
  }

  /** Order independence: permuting the input does not change the result. */
  lemma UniqueSetPermutation(s: seq<Element>, t: seq<Element>, fields: seq<string>)
    requires multiset(s) == multiset(t)
    ensures SingleSighted(s, fields) == SingleSighted(t, fields)
    ensures UniqueSet(Parsed(s), fields) == UniqueSet(Parsed(t), fields)
  {
    forall e
      ensures e in s <==> e in t
    {
      assert e in s <==> e in multiset(s);
      assert e in t <==> e in multiset(t);
    }
    forall k
      ensures multiset(IdsWithKey(s, fields, k)) == multiset(IdsWithKey(t, fields, k))
    {
      IdsWithKeyPermutation(s, t, fields, k);
    }
    SameSightingsSameUniques(s, t, fields);
  }

  /** An element that is not an object, or an object missing a combination
      field, can be removed from anywhere in the stream without effect. */
  lemma SkippedElementIrrelevant(a: seq<Element>, e: Element, b: seq<Element>, fields: seq<string>)
    requires e.NonObject? || exists i :: 0 <= i < |fields| && fields[i] !in e.fields
    ensures UniqueSet(Parsed(a + [e] + b), fields) == UniqueSet(Parsed(a + b), fields)
  {
    assert Classify(e, fields).Skipped?;
    var s := a + [e] + b;
    forall x
      ensures x in s && Crashes(x, fields) <==> x in a + b && Crashes(x, fields)
    {
    }
    forall k
      ensures multiset(IdsWithKey(s, fields, k)) == multiset(IdsWithKey(a + b, fields, k))
    {
      IdsWithKeyConcat(a, [e], fields, k);
      IdsWithKeyConcat(a + [e], b, fields, k);
      IdsWithKeyConcat(a, b, fields, k);
      assert IdsWithKey([e], fields, k) == [] by {
        assert [e][..0] == [];
      }
    }
    SameSightingsSameUniques(s, a + b, fields);
  }

  /** No grouped record carries key k, so no id is listed under it. */
  lemma {:induction false} IdsWithKeyAbsent(s: seq<Element>, fields: seq<string>, k: Key)
    requires forall j :: 0 <= j < |s| ==> !(Classify(s[j], fields).Keyed? && Classify(s[j], fields).key == k)
    ensures IdsWithKey(s, fields, k) == []
    decreases |s|
  {
    if s != [] {
      var s' := s[..|s| - 1];
      assert forall j :: 0 <= j < |s'| ==> s'[j] == s[j];
      IdsWithKeyAbsent(s', fields, k);
    }
  }

  /** The ids listed for one element alone. */
  lemma IdsWithKeySingle(e: Element, fields: seq<string>, k: Key)
    ensures IdsWithKey([e], fields, k)
            == match Classify(e, fields) case Keyed(k', id) => if k' == k then [id] else [] case _ => []
  {
    assert [e][..0] == [];
  }

  /** Two records sharing a combination key keep that key out of the result. */
  lemma SharedKeyExcluded(s: seq<Element>, fields: seq<string>, i: int, j: int)
    requires 0 <= i < j < |s|
    requires s[i].Object? && s[j].Object?
    requires KeyOf(s[i].fields, fields).Some?
    requires KeyOf(s[i].fields, fields) == KeyOf(s[j].fields, fields)
    ensures UniqueSet(Parsed(s), fields).Ok? ==> KeyOf(s[i].fields, fields).value !in UniqueSet(Parsed(s), fields).value
  {
    if !AnyCrash(s, fields) {
      var k := KeyOf(s[i].fields, fields).value;
      assert !Crashes(s[i], fields) && !Crashes(s[j], fields);
      var A, B, C := s[..i], s[i + 1..j], s[j + 1..];
      assert s == A + [s[i]] + B + [s[j]] + C;
      IdsWithKeyConcat(A, [s[i]], fields, k);
      IdsWithKeyConcat(A + [s[i]], B, fields, k);
      IdsWithKeyConcat(A + [s[i]] + B, [s[j]], fields, k);
      IdsWithKeyConcat(A + [s[i]] + B + [s[j]], C, fields, k);
      IdsWithKeySingle(s[i], fields, k);
      IdsWithKeySingle(s[j], fields, k);
      assert |IdsWithKey(s, fields, k)| >= 2;
    }
  }

  /** A record whose key no other record shares keeps its key, mapped to its id. */
  lemma LoneRecordKept(s: seq<Element>, fields: seq<string>, i: int)
    requires 0 <= i < |s| && s[i].Object? && "id" in s[i].fields
    requires KeyOf(s[i].fields, fields).Some?
    requires forall j :: 0 <= j < |s| && j != i && s[j].Object? ==> KeyOf(s[j].fields, fields) != KeyOf(s[i].fields, fields)
    ensures UniqueSet(Parsed(s), fields).Ok? ==>
              && KeyOf(s[i].fields, fields).value in UniqueSet(Parsed(s), fields).value
              && UniqueSet(Parsed(s), fields).value[KeyOf(s[i].fields, fields).value] == s[i].fields["id"]
  {
    var k := KeyOf(s[i].fields, fields).value;
    var A, C := s[..i], s[i + 1..];
    assert s == A + [s[i]] + C;
    assert forall j :: 0 <= j < |A| ==> A[j] == s[j];
    assert forall j :: 0 <= j < |C| ==> C[j] == s[i + 1 + j];
    IdsWithKeyAbsent(A, fields, k);
    IdsWithKeyAbsent(C, fields, k);
    IdsWithKeyConcat(A, [s[i]], fields, k);
    IdsWithKeyConcat(A + [s[i]], C, fields, k);
    IdsWithKeySingle(s[i], fields, k);
    KeysSeenIff(s, fields, k);
  }

  // ---------------------------------------------------------------------
  // Lemmas about the total length of the occurrence lists

  /** The total does not depend on which key is taken first. */
  lemma {:induction false} TotalOccurrencesPick(m: map<Key, seq<Value>>, k: Key)
    requires k in m
    ensures TotalOccurrences(m) == |m[k]| + TotalOccurrences(m - {k})
    decreases m.Keys
  {
    var j :| j in m.Keys && TotalOccurrences(m) == |m[j]| + TotalOccurrences(m - {j});
    if j != k {
      TotalOccurrencesPick(m - {j}, k);
      TotalOccurrencesPick(m - {k}, j);
      assert m - {j} - {k} == m - {k} - {j};
    }
  }

  /** Appending one id to one list adds one to the total. */
  lemma TotalOccurrencesAppend(m: map<Key, seq<Value>>, k: Key, id: Value)
    ensures TotalOccurrences(Append(m, k, id)) == TotalOccurrences(m) + 1
  {
    var m' := Append(m, k, id);
    TotalOccurrencesPick(m', k);
    if k in m {
      TotalOccurrencesPick(m, k);
      assert m' - {k} == m - {k};
    } else {
      assert m' - {k} == m;
    }
  }
}
