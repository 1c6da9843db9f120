/** Splitting a dictionary by the case of its keys' first character (split_json, which
    temp_tools/splitter.py and temp_tools/json_maker.py both define with the same body). */
module Splitter {
  import opened Common

  /** {k: v for k, v in data.items() if k[0].isupper()}, for a map without an empty key. */
  function UpperKeys<V>(data: map<string, V>, lib: TextLib): (upper: map<string, V>)
    requires "" !in data
    ensures forall k :: k in upper <==> k in data && lib.isUpper(k[0])
    ensures forall k | k in upper :: upper[k] == data[k]
  {
    map k | k in data && lib.isUpper(k[0]) :: data[k]
  }

  /** {k: v for k, v in data.items() if k[0].islower()}, for a map without an empty key. */
  function LowerKeys<V>(data: map<string, V>, lib: TextLib): (lower: map<string, V>)
    requires "" !in data
    ensures forall k :: k in lower <==> k in data && lib.isLower(k[0])
    ensures forall k | k in lower :: lower[k] == data[k]
  {
    map k | k in data && lib.isLower(k[0]) :: data[k]
  }

  /** split_json's two comprehensions: the upper-case and the lower-case part of data, or
      IndexError when a key is the empty string and k[0] fails. */
  function SplitJson<V>(data: map<string, V>, lib: TextLib): (r: Result<(map<string, V>, map<string, V>)>)
    ensures r.Err? <==> "" in data
    ensures r.Err? ==> r.error == IndexError
    ensures r.Ok? ==> forall k :: k in r.value.0 <==> k in data && lib.isUpper(k[0])
    ensures r.Ok? ==> forall k :: k in r.value.1 <==> k in data && lib.isLower(k[0])
    ensures r.Ok? ==> forall k | k in r.value.0 :: r.value.0[k] == data[k]
    ensures r.Ok? ==> forall k | k in r.value.1 :: r.value.1[k] == data[k]
  {
    if "" in data then Err(IndexError) else Ok((UpperKeys(data, lib), LowerKeys(data, lib)))
  }

  /** With case classes that never overlap, the two parts share no key, together they are
      no larger than the input, and a key whose first character is uncased is in neither. */
  lemma SplitPartition<V>(data: map<string, V>, lib: TextLib)
    requires CaseConsistent(lib)
    requires "" !in data
    ensures UpperKeys(data, lib).Keys !! LowerKeys(data, lib).Keys
    ensures |UpperKeys(data, lib)| + |LowerKeys(data, lib)| <= |data|
    ensures forall k | k in data && !lib.isUpper(k[0]) && !lib.isLower(k[0]) ::
              k !in UpperKeys(data, lib) && k !in LowerKeys(data, lib)
  {
    var u := UpperKeys(data, lib).Keys;
    var l := LowerKeys(data, lib).Keys;
    assert u !! l by {
      forall k | k in u ensures k !in l {
        assert !(lib.isUpper(k[0]) && lib.isLower(k[0]));
      }
    }
    assert |u + l| == |u| + |l|;
    SubsetSize(u + l, data.Keys);
  }

  /** A subset is no larger than its superset. */
  lemma {:induction false} SubsetSize<T>(a: set<T>, b: set<T>)
    requires a <= b
    ensures |a| <= |b|
    decreases |a|
  {
    if a != {} {
      var x :| x in a;
      SubsetSize(a - {x}, b - {x});
    }
  }

  /** Splitting again changes nothing: each part is its own upper-case (respectively
      lower-case) part. */
  lemma SplitIdempotent<V>(data: map<string, V>, lib: TextLib)
    requires "" !in data
    ensures UpperKeys(UpperKeys(data, lib), lib) == UpperKeys(data, lib)
    ensures LowerKeys(LowerKeys(data, lib), lib) == LowerKeys(data, lib)
  {
  }
}
