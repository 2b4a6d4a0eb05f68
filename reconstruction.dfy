/** Reconstruction: turns each unique combination key back into a record
    whose fields are the combination fields. */
module Reconstruction {
  import opened Json
  import opened DuplicateFilter

  /** The record dict(zip(names, combo)) builds: names paired with values
      position by position, as far as the shorter of the two goes, each
      pairing stored in turn so that a repeated name keeps its last value. */
  function Zip(names: seq<string>, combo: seq<Value>): Record
    decreases |names|
  {
    if names == [] || combo == [] then map[]
    else
      var rest := Zip(names[1..], combo[1..]);
      if names[0] in rest then rest else rest[names[0] := combo[0]]
  }

  /** The fields of the zipped record are the names that found a value. */
  lemma {:induction false} ZipKeys(names: seq<string>, combo: seq<Value>)
    ensures forall name :: name in Zip(names, combo) <==> exists i :: 0 <= i < |names| && i < |combo| && names[i] == name
    decreases |names|
  {
    if names != [] && combo != [] {
      ZipKeys(names[1..], combo[1..]);
      forall name | name in Zip(names, combo) && name != names[0]
        ensures exists i :: 0 <= i < |names| && i < |combo| && names[i] == name
      {
        assert name in Zip(names[1..], combo[1..]);
        var i :| 0 <= i < |names[1..]| && i < |combo[1..]| && names[1..][i] == name;
        assert names[i + 1] == name;
      }
      forall i | 0 < i < |names| && i < |combo|
        ensures names[i] in Zip(names, combo)
      {
        assert names[1..][i - 1] == names[i];
      }
    }
  }

  /** A name that does not occur again later holds the value at its position. */
  lemma {:induction false} ZipLastWins(names: seq<string>, combo: seq<Value>, i: int)
    requires 0 <= i < |names| && i < |combo|
    requires forall j :: i < j < |names| && j < |combo| ==> names[j] != names[i]
    ensures names[i] in Zip(names, combo) && Zip(names, combo)[names[i]] == combo[i]
    decreases |names|
  {
    var rest := Zip(names[1..], combo[1..]);
    if i == 0 {
      ZipKeys(names[1..], combo[1..]);
      forall j | 0 <= j < |names[1..]| && j < |combo[1..]|
        ensures names[1..][j] != names[0]
      {
        assert names[1..][j] == names[j + 1];
      }
    } else {
      assert names[1..][i - 1] == names[i] && combo[1..][i - 1] == combo[i];
      forall j | i - 1 < j < |names[1..]| && j < |combo[1..]|
        ensures names[1..][j] != names[1..][i - 1]
      {
        assert names[1..][j] == names[j + 1];
      }
      ZipLastWins(names[1..], combo[1..], i - 1);
    }
  }

  /** out holds one record per key of uniques: order lists every key once,
      in the order visited, and out[i] is the record zipped from order[i]. */
  ghost predicate Reconstructs(uniques: map<Key, Value>, fields: seq<string>, out: seq<Record>, order: seq<Key>)
  {
    && |out| == |order| == |uniques|
    && (forall k :: k in uniques <==> k in order)
    && (forall i, j :: 0 <= i < j < |order| ==> order[i] != order[j])
    && (forall i :: 0 <= i < |out| ==> out[i] == Zip(fields, order[i]))
  }

  /** The reconstruction loop. The order in which it visits the keys is the
      dictionary's; `order` names it. */
  method ProcessUniques(uniques: map<Key, Value>, fields: seq<string>) returns (out: seq<Record>, ghost order: seq<Key>)
    ensures |out| == |uniques|
    ensures forall k :: k in uniques ==> Zip(fields, k) in out
    ensures forall i :: 0 <= i < |out| ==> exists k :: k in uniques && out[i] == Zip(fields, k)
    ensures Reconstructs(uniques, fields, out, order)
  {
    out, order := [], [];
    if |uniques| > 0 {
      var remaining := uniques.Keys;
      while remaining != {}
        invariant remaining <= uniques.Keys
        invariant forall k :: k in order <==> k in uniques && k !in remaining
        invariant forall i, j :: 0 <= i < j < |order| ==> order[i] != order[j]
        invariant |order| + |remaining| == |uniques|
        invariant |out| == |order|
        invariant forall i :: 0 <= i < |out| ==> out[i] == Zip(fields, order[i])
        decreases remaining
      {
        var combo :| combo in remaining;
        out := out + [Zip(fields, combo)];
        order := order + [combo];
        remaining := remaining - {combo};
      }
    }
    forall k | k in uniques
      ensures Zip(fields, k) in out
    {
      var i :| 0 <= i < |order| && order[i] == k;
      assert out[i] == Zip(fields, k);
    }
  }
}
