/** Properties of the three stages composed: duplicate filter, then
    reconstruction, then the two aggregates. */
module Pipeline {
  import opened Json
  import opened DuplicateFilter
  import opened Reconstruction
  import opened Aggregation

  /** Every category that receives a count comes from a combination key that
      exactly one record of the stream carried: its third component. */
  lemma CountedCategoryFromUniqueKey(s: seq<Element>, out: seq<Record>, order: seq<Key>, c: Value)
    requires Reconstructs(SingleSighted(s, CombinationFields), CombinationFields, out, order)
    requires c in CountedCategories(out)
    ensures exists k :: k in SingleSighted(s, CombinationFields) && |IdsWithKey(s, CombinationFields, k)| == 1
                        && |k| == 3 && k[2] == c
  {
    var u := SingleSighted(s, CombinationFields);
    CountedCategoriesWitness(out, c);
    var i :| 0 <= i < |out| && CategoryOf(out[i]) == Some(c);
    var k := order[i];
    assert k in u;
    KeysSeenLength(s, CombinationFields, k);
    ZipLastWins(CombinationFields, k, 2);
    assert CombinationFields[2] == "category";
  }

  /** A sequence without repetitions holds each of its elements once. */
  lemma {:induction false} DistinctMultiplicity<T>(s: seq<T>, x: T)
    requires forall i, j :: 0 <= i < j < |s| ==> s[i] != s[j]
    ensures multiset(s)[x] == if x in s then 1 else 0
    decreases |s|
  {
    if s != [] {
      var s' := s[..|s| - 1];
      assert s == s' + [s[|s| - 1]];
      DistinctMultiplicity(s', x);
    }
  }

  /** The image of a sequence under f, element by element. */
  function Image<A, B>(f: A -> B, s: seq<A>): seq<B>
  {
    seq(|s|, i requires 0 <= i < |s| => f(s[i]))
  }

  /** Mapping preserves permutations. */
  lemma {:induction false} ImagePermutation<A, B>(f: A -> B, o1: seq<A>, o2: seq<A>)
    requires multiset(o1) == multiset(o2)
    ensures multiset(Image(f, o1)) == multiset(Image(f, o2))
    decreases |o1|
  {
    if o1 != [] {
      var x, o1' := o1[|o1| - 1], o1[..|o1| - 1];
      var b1, b2 := PermutationSplit(o1, o2);
      ImagePermutation(f, o1', b1 + b2);
      assert Image(f, o1) == Image(f, o1') + [f(x)];
      assert Image(f, o2) == Image(f, b1) + [f(x)] + Image(f, b2);
      assert Image(f, b1 + b2) == Image(f, b1) + Image(f, b2);
    }
  }

  /** The aggregates do not depend on the order in which the reconstruction
      visits the unique keys. */
  lemma TotalsIndependentOfVisitOrder(u: map<Key, Value>, fields: seq<string>,
                                      out1: seq<Record>, order1: seq<Key>,
                                      out2: seq<Record>, order2: seq<Key>)
    requires Reconstructs(u, fields, out1, order1)
    requires Reconstructs(u, fields, out2, order2)
    ensures PricedCategories(out1) == PricedCategories(out2)
    ensures CountedCategories(out1) == CountedCategories(out2)
    ensures forall c :: PriceSum(out1, c) == PriceSum(out2, c) && ItemCount(out1, c) == ItemCount(out2, c)
  {
    forall k
      ensures multiset(order1)[k] == multiset(order2)[k]
    {
      DistinctMultiplicity(order1, k);
      DistinctMultiplicity(order2, k);
    }
    assert multiset(order1) == multiset(order2);
    var zip := k => Zip(fields, k);
    ImagePermutation(zip, order1, order2);
    assert out1 == Image(zip, order1);
    assert out2 == Image(zip, order2);
    AggregatePermutation(out1, out2);
  }

  /** Permuting the input array changes neither the unique set nor, whatever
      order the keys are then visited in, the two aggregates. */
  lemma PipelinePermutation(s: seq<Element>, t: seq<Element>, fields: seq<string>,
                            out1: seq<Record>, order1: seq<Key>,
                            out2: seq<Record>, order2: seq<Key>)
    requires multiset(s) == multiset(t)
    requires Reconstructs(SingleSighted(s, fields), fields, out1, order1)
    requires Reconstructs(SingleSighted(t, fields), fields, out2, order2)
    ensures UniqueSet(Parsed(s), fields) == UniqueSet(Parsed(t), fields)
    ensures PricedCategories(out1) == PricedCategories(out2)
    ensures CountedCategories(out1) == CountedCategories(out2)
    ensures forall c :: PriceSum(out1, c) == PriceSum(out2, c) && ItemCount(out1, c) == ItemCount(out2, c)
  {
    UniqueSetPermutation(s, t, fields);
    TotalsIndependentOfVisitOrder(SingleSighted(s, fields), fields, out1, order1, out2, order2);
  }

  /** Two records with the same owner, price and category: neither key survives. */
  lemma SharedKeyScenario()
    ensures UniqueSet(Parsed([
              Object(map["id" := Int(1), "owner" := Str("a"), "price" := Int(10), "category" := Str("x")]),
              Object(map["id" := Int(2), "owner" := Str("a"), "price" := Int(10), "category" := Str("x")])
            ]), CombinationFields) == Ok(map[])
  {
    var r1 := map["id" := Int(1), "owner" := Str("a"), "price" := Int(10), "category" := Str("x")];
    var r2 := map["id" := Int(2), "owner" := Str("a"), "price" := Int(10), "category" := Str("x")];
    var s := [Object(r1), Object(r2)];
    var k := [Str("a"), Int(10), Str("x")];
    var f := CombinationFields;
    assert f[0] == "owner" && f[1] == "price" && f[2] == "category";
    assert forall i :: 0 <= i < |f| ==> f[i] in r1 && f[i] in r2 && r1[f[i]] == r2[f[i]] == k[i];
    assert KeyOf(r1, f).Some? && KeyOf(r2, f).Some?;
    assert KeyOf(r1, f).value == k && KeyOf(r2, f).value == k;
    assert Classify(s[0], f) == Keyed(k, Int(1)) && Classify(s[1], f) == Keyed(k, Int(2));
    assert !AnyCrash(s, f);
    assert s[..1] == [Object(r1)] && s[..1][..0] == [];
    assert KeysSeen(s[..1], f) == {k};
    assert KeysSeen(s, f) == {k};
    SharedKeyExcluded(s, CombinationFields, 0, 1);
  }

  /** A unique record whose price is a string is counted but not priced. */
  lemma NonNumericPriceScenario()
    ensures var items := [map["owner" := Str("a"), "price" := Str("ten"), "category" := Str("x")]];
            && PricedCategories(items) == {}
            && CountedCategories(items) == {Str("x")}
            && ItemCount(items, Str("x")) == 1
  {
  }
}
