/** A Python dict with string keys and values, as the pairs it holds in
    insertion order. Both scripts rely on that order: the `cocoapods` dict
    and the pod entries of the source document, which the JSON decoder
    builds with `object_pairs_hook=OrderedDict`. */
module Pairs {
  import opened Wrappers

  type KeyValues = seq<(string, string)>

  /** The keys, in order. */
  function Keys(c: KeyValues): (keys: seq<string>)
    ensures |keys| == |c|
    ensures forall i :: 0 <= i < |c| ==> keys[i] == c[i].0
  {
    seq(|c|, i requires 0 <= i < |c| => c[i].0)
  }

  /** No key occurs twice, as in every dict. */
  predicate DistinctKeys(c: KeyValues) {
    forall i, j :: 0 <= i < j < |c| ==> c[i].0 != c[j].0
  }

  /** Position of the first pair whose key is `key`, or `|c|` when absent. */
  function FindKey(c: KeyValues, key: string): (i: nat)
    ensures i <= |c|
    ensures i < |c| ==> c[i].0 == key
    ensures forall j :: 0 <= j < i ==> c[j].0 != key
  {
    if |c| == 0 then 0
    else if c[0].0 == key then 0
    else 1 + FindKey(c[1..], key)
  }

  /** `c.get(key)`, and `c[key]` when it does not raise: the value of the
      first pair with that key. */
  function Get(c: KeyValues, key: string): Option<string> {
    var i := FindKey(c, key);
    if i < |c| then Some(c[i].1) else None
  }

  /** A key has a value exactly when it is one of the keys, and that value
      is paired with the key in the object. */
  lemma GetSomeIff(c: KeyValues, key: string)
    ensures Get(c, key).Some? <==> key in Keys(c)
    ensures Get(c, key).Some? ==> (key, Get(c, key).value) in c
  {
  }

  /** A lookup skips a first pair with another key. */
  lemma GetSkipsFirst(c: KeyValues, key: string)
    requires |c| > 0 && c[0].0 != key
    ensures Get(c, key) == Get(c[1..], key)
  {
    assert FindKey(c, key) == 1 + FindKey(c[1..], key);
  }

  /** `c[key] = value`: an existing key gets the new value in place; a new
      key is appended. */
  function Put(c: KeyValues, key: string, value: string): (r: KeyValues)
    ensures |r| == |c| || |r| == |c| + 1
  {
    if |c| == 0 then [(key, value)]
    else if c[0].0 == key then [(key, value)] + c[1..]
    else [c[0]] + Put(c[1..], key, value)
  }

  /** An existing key keeps its position; a new key is appended. */
  lemma {:induction false} PutKeys(c: KeyValues, key: string, value: string)
    ensures key in Keys(c) ==> Keys(Put(c, key, value)) == Keys(c)
    ensures key !in Keys(c) ==> Keys(Put(c, key, value)) == Keys(c) + [key]
  {
    if |c| > 0 && c[0].0 != key {
      PutKeys(c[1..], key, value);
      var r := Put(c, key, value);
      assert r[1..] == Put(c[1..], key, value);
    }
  }

  /** Assigning a key that is not there appends the pair. */
  lemma {:induction false} PutNew(c: KeyValues, key: string, value: string)
    requires key !in Keys(c)
    ensures Put(c, key, value) == c + [(key, value)]
  {
    if |c| > 0 {
      assert Keys(c)[0] == c[0].0;
      assert key !in Keys(c[1..]) by {
        assert forall i :: 0 <= i < |c| - 1 ==> Keys(c[1..])[i] == Keys(c)[i + 1];
      }
      PutNew(c[1..], key, value);
      assert [c[0]] + (c[1..] + [(key, value)]) == c + [(key, value)];
    }
  }

  /** After the assignment the key maps to the new value and every other
      key maps to what it mapped to before. */
  lemma {:induction false} PutGet(c: KeyValues, key: string, value: string, other: string)
    ensures Get(Put(c, key, value), key) == Some(value)
    ensures other != key ==> Get(Put(c, key, value), other) == Get(c, other)
  {
    var r := Put(c, key, value);
    if |c| == 0 {
      assert FindKey(r, key) == 0;
    } else if c[0].0 == key {
      assert FindKey(r, key) == 0;
      if other != key {
        GetSkipsFirst(r, other);
        GetSkipsFirst(c, other);
        assert r[1..] == c[1..];
      }
    } else {
      PutGet(c[1..], key, value, other);
      assert r[1..] == Put(c[1..], key, value);
      GetSkipsFirst(r, key);
      if other != key && other != c[0].0 {
        GetSkipsFirst(r, other);
        GetSkipsFirst(c, other);
      } else if other != key {
        assert FindKey(r, other) == 0 && FindKey(c, other) == 0;
      }
    }
  }

  /** Assignment keeps keys unique. */
  lemma PutDistinct(c: KeyValues, key: string, value: string)
    requires DistinctKeys(c)
    ensures DistinctKeys(Put(c, key, value))
  {
    PutKeys(c, key, value);
    var r := Put(c, key, value);
    assert forall i :: 0 <= i < |r| ==> r[i].0 == Keys(r)[i];
    assert forall i :: 0 <= i < |c| ==> c[i].0 == Keys(c)[i];
  }

  /** `OrderedDict(pairs)`, and equally a loop of `d[k] = v` over the pairs:
      each pair is assigned in turn. */
  function FromPairs(pairs: KeyValues): KeyValues {
    if |pairs| == 0 then []
    else
      var last := pairs[|pairs| - 1];
      Put(FromPairs(pairs[..|pairs| - 1]), last.0, last.1)
  }

  /** The keys of all but the last pair, then the last key. */
  lemma KeysSnoc(pairs: KeyValues)
    requires |pairs| > 0
    ensures Keys(pairs) == Keys(pairs[..|pairs| - 1]) + [pairs[|pairs| - 1].0]
  {
  }

  /** The dict has one pair per distinct key among the pairs, and no
      other keys. */
  lemma {:induction false} FromPairsKeys(pairs: KeyValues)
    ensures DistinctKeys(FromPairs(pairs))
    ensures forall k :: k in Keys(FromPairs(pairs)) <==> k in Keys(pairs)
  {
    if |pairs| > 0 {
      var pre := pairs[..|pairs| - 1];
      var last := pairs[|pairs| - 1];
      FromPairsKeys(pre);
      KeysSnoc(pairs);
      PutKeys(FromPairs(pre), last.0, last.1);
      PutDistinct(FromPairs(pre), last.0, last.1);
    }
  }

  /** The last pair with a key decides its value. */
  lemma FromPairsLastWins(pairs: KeyValues)
    ensures forall i :: 0 <= i < |pairs| && (forall j :: i < j < |pairs| ==> pairs[j].0 != pairs[i].0) ==>
              Get(FromPairs(pairs), pairs[i].0) == Some(pairs[i].1)
  {
    forall i | 0 <= i < |pairs| && (forall j :: i < j < |pairs| ==> pairs[j].0 != pairs[i].0)
      ensures Get(FromPairs(pairs), pairs[i].0) == Some(pairs[i].1)
    {
      LastWinsAt(pairs, i);
    }
  }

  /** The pair at position `i`, when no later pair has its key, decides
      that key's value. */
  lemma {:induction false} LastWinsAt(pairs: KeyValues, i: nat)
    requires i < |pairs|
    requires forall j :: i < j < |pairs| ==> pairs[j].0 != pairs[i].0
    ensures Get(FromPairs(pairs), pairs[i].0) == Some(pairs[i].1)
  {
    var pre := pairs[..|pairs| - 1];
    var last := pairs[|pairs| - 1];
    PutGet(FromPairs(pre), last.0, last.1, pairs[i].0);
    if i < |pairs| - 1 {
      assert pre[i] == pairs[i];
      LastWinsAt(pre, i);
    }
  }

  /** Position of the first occurrence of `x` in `xs`, or `|xs|` if none. */
  function IndexOf(xs: seq<string>, x: string): (i: nat)
    ensures i <= |xs|
    ensures i < |xs| ==> xs[i] == x
    ensures forall j :: 0 <= j < i ==> xs[j] != x
  {
    if |xs| == 0 then 0 else if xs[0] == x then 0 else 1 + IndexOf(xs[1..], x)
  }

  lemma IndexOfAppend(xs: seq<string>, y: string, x: string)
    requires x in xs
    ensures IndexOf(xs + [y], x) == IndexOf(xs, x)
  {
    var i := IndexOf(xs, x);
    assert (xs + [y])[i] == x;
  }

  /** `keys` lists names in the order of their first occurrence in `names`. */
  predicate InFirstOccurrenceOrder(keys: seq<string>, names: seq<string>) {
    forall p, q :: 0 <= p < q < |keys| ==> IndexOf(names, keys[p]) < IndexOf(names, keys[q])
  }

  /** Keys appear in the order in which they first occur among the pairs:
      a repeated key keeps its first position. */
  lemma {:induction false} FromPairsFirstOccurrenceOrder(pairs: KeyValues)
    ensures InFirstOccurrenceOrder(Keys(FromPairs(pairs)), Keys(pairs))
  {
    if |pairs| > 0 {
      var pre := pairs[..|pairs| - 1];
      var last := pairs[|pairs| - 1];
      FromPairsFirstOccurrenceOrder(pre);
      FromPairsKeys(pre);
      KeysSnoc(pairs);
      var m0 := FromPairs(pre);
      PutKeys(m0, last.0, last.1);
      if last.0 in Keys(m0) {
        AppendSeenKeepsOrder(Keys(m0), Keys(pre), last.0);
      } else {
        AppendNewKeepsOrder(Keys(m0), Keys(pre), last.0);
      }
    }
  }

  lemma AppendSeenKeepsOrder(keys: seq<string>, seen: seq<string>, name: string)
    requires forall x :: x in keys ==> x in seen
    requires InFirstOccurrenceOrder(keys, seen)
    ensures InFirstOccurrenceOrder(keys, seen + [name])
  {
    forall p | 0 <= p < |keys|
      ensures IndexOf(seen + [name], keys[p]) == IndexOf(seen, keys[p])
    {
      IndexOfAppend(seen, name, keys[p]);
    }
  }

  lemma AppendNewKeepsOrder(keys: seq<string>, seen: seq<string>, name: string)
    requires forall x :: x in keys <==> x in seen
    requires name !in keys
    requires InFirstOccurrenceOrder(keys, seen)
    ensures InFirstOccurrenceOrder(keys + [name], seen + [name])
  {
    var names := seen + [name];
    forall p | 0 <= p < |keys|
      ensures IndexOf(names, keys[p]) == IndexOf(seen, keys[p]) < |seen|
    {
      IndexOfAppend(seen, name, keys[p]);
    }
    assert name !in seen;
    var i := IndexOf(names, name);
    assert names[|seen|] == name;
    assert i == |seen|;
  }

  /** Pairs whose keys are already distinct build a dict holding exactly
      them, in the same order. */
  lemma {:induction false} FromPairsOfDistinct(pairs: KeyValues)
    requires DistinctKeys(pairs)
    ensures FromPairs(pairs) == pairs
  {
    if |pairs| > 0 {
      var pre := pairs[..|pairs| - 1];
      var last := pairs[|pairs| - 1];
      FromPairsOfDistinct(pre);
      FromPairsKeys(pre);
      assert last.0 !in Keys(pre);
      PutNew(pre, last.0, last.1);
      assert pre + [last] == pairs;
    }
  }
}
