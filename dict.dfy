/** JavaScript objects and `Map`s used as string-keyed dictionaries. Both
    remember the order in which keys were first inserted, and assigning to a
    key that is already present replaces its value in place, so a dictionary
    is modelled as an association list with distinct keys. The three ways
    the modelled code fills one are folds here: summing per key
    (`acc[k] = (acc[k] || 0) + n`), pushing into per-key buckets, and
    plain assignment where a later entry overwrites an earlier one. */
module Dict {
  import opened Js

  type Dict<V> = seq<(string, V)>

  function Keys<V>(d: Dict<V>): (ks: seq<string>)
    ensures |ks| == |d|
  {
    if d == [] then [] else [d[0].0] + Keys(d[1..])
  }

  lemma {:induction false} KeysAt<V>(d: Dict<V>, i: nat)
    requires i < |d|
    ensures Keys(d)[i] == d[i].0
  {
    if i > 0 {
      KeysAt(d[1..], i - 1);
    }
  }

  predicate Distinct(ks: seq<string>) {
    forall i, j :: 0 <= i < j < |ks| ==> ks[i] != ks[j]
  }

  /** `d[k]`: the value stored under `k`, if any. */
  function Get<V>(d: Dict<V>, k: string): (r: Option<V>)
    ensures r.Some? <==> k in Keys(d)
  {
    if d == [] then None
    else if d[0].0 == k then Some(d[0].1)
    else
      assert k in Keys(d) <==> k in Keys(d[1..]) by {
        assert Keys(d) == [d[0].0] + Keys(d[1..]);
      }
      Get(d[1..], k)
  }

  /** `d[k] || fallback` for a dictionary whose values are never falsy
      except where the fallback is the same value. */
  function GetOr<V>(d: Dict<V>, k: string, fallback: V): V {
    match Get(d, k)
    case Some(v) => v
    case None => fallback
  }

  /** With distinct keys, every entry is what lookup finds. */
  lemma {:induction false} GetEntry<V>(d: Dict<V>, i: nat)
    requires Distinct(Keys(d)) && i < |d|
    ensures Get(d, d[i].0) == Some(d[i].1)
  {
    if i > 0 {
      KeysAt(d, i);
      KeysAt(d[1..], i - 1);
      assert d[0].0 == Keys(d)[0] != Keys(d)[i] == d[i].0;
      assert Distinct(Keys(d[1..])) by {
        forall a, b | 0 <= a < b < |d| - 1 ensures Keys(d[1..])[a] != Keys(d[1..])[b] {
          assert Keys(d[1..])[a] == Keys(d)[a + 1] && Keys(d[1..])[b] == Keys(d)[b + 1];
        }
      }
      GetEntry(d[1..], i - 1);
    }
  }

  /** `d[k] = v`: a new key goes to the end, an existing one keeps its place;
      no other key's value changes. */
  function Put<V>(d: Dict<V>, k: string, v: V): (r: Dict<V>)
    ensures Keys(r) == if k in Keys(d) then Keys(d) else Keys(d) + [k]
    ensures Get(r, k) == Some(v)
    ensures forall j :: j != k ==> Get(r, j) == Get(d, j)
  {
    if d == [] then [(k, v)]
    else if d[0].0 == k then [(k, v)] + d[1..]
    else
      var rest := Put(d[1..], k, v);
      assert ([d[0]] + rest)[1..] == rest;
      [d[0]] + rest
  }

  lemma DistinctAppend(ks: seq<string>, k: string)
    requires Distinct(ks) && k !in ks
    ensures Distinct(ks + [k])
  {
  }

  /** Assignment keeps the keys distinct. */
  lemma PutDistinct<V>(d: Dict<V>, k: string, v: V)
    requires Distinct(Keys(d))
    ensures Distinct(Keys(Put(d, k, v)))
  {
    if k !in Keys(d) {
      DistinctAppend(Keys(d), k);
    }
  }

  /** `Put` keeps the old keys in front and adds at most its own key. */
  lemma PutKeys<V>(d: Dict<V>, k: string, v: V)
    ensures |Keys(d)| <= |Keys(Put(d, k, v))|
    ensures Keys(Put(d, k, v))[..|Keys(d)|] == Keys(d)
    ensures forall j :: j in Keys(Put(d, k, v)) <==> j in Keys(d) || j == k
  {
    var ks := Keys(d);
    if k !in ks {
      assert Keys(Put(d, k, v)) == ks + [k];
      assert (ks + [k])[..|ks|] == ks;
    }
  }

  /** Two `Put`s of different keys keep the old keys in front, set both
      keys and change nothing else. */
  lemma PutPut<V>(d: Dict<V>, k1: string, v1: V, k2: string, v2: V, k: string)
    requires Distinct(Keys(d)) && k1 != k2
    ensures var r := Put(Put(d, k1, v1), k2, v2);
            && Keys(r)[..|Keys(d)|] == Keys(d)
            && (forall j :: j in Keys(r) <==> j in Keys(d) || j == k1 || j == k2)
            && Get(r, k1) == Some(v1)
            && Get(r, k2) == Some(v2)
            && (k != k1 && k != k2 ==> Get(r, k) == Get(d, k))
            && Distinct(Keys(r))
  {
    var once := Put(d, k1, v1);
    var r := Put(once, k2, v2);
    PutDistinct(d, k1, v1);
    PutDistinct(once, k2, v2);
    PutKeys(d, k1, v1);
    PutKeys(once, k2, v2);
    assert Keys(r)[..|Keys(d)|] == Keys(r)[..|Keys(once)|][..|Keys(d)|];
  }

  /** The keys of `ks` in the order of their first occurrence, each once. */
  function FirstOccurrences(ks: seq<string>): (r: seq<string>)
    ensures Distinct(r)
    ensures forall k :: k in r <==> k in ks
  {
    if ks == [] then []
    else
      var prefix := FirstOccurrences(ks[..|ks| - 1]);
      var k := ks[|ks| - 1];
      assert ks == ks[..|ks| - 1] + [k];
      if k in prefix then prefix else prefix + [k]
  }

  function EntryKeys<V>(entries: seq<(string, V)>): (ks: seq<string>)
    ensures |ks| == |entries|
  {
    if entries == [] then [] else EntryKeys(entries[..|entries| - 1]) + [entries[|entries| - 1].0]
  }

  // ---------------------------------------------------------------------
  // acc[k] = (acc[k] || 0) + n

  /** Each element's key paired with its amount, in order. */
  function Amounts<T>(s: seq<T>, key: T -> string, amount: T -> int): (e: seq<(string, int)>)
    ensures |e| == |s|
    ensures forall i :: 0 <= i < |s| ==> e[i] == (key(s[i]), amount(s[i]))
  {
    if s == [] then []
    else Amounts(s[..|s| - 1], key, amount) + [(key(s[|s| - 1]), amount(s[|s| - 1]))]
  }

  lemma AmountsStep<T>(s: seq<T>, i: nat, key: T -> string, amount: T -> int)
    requires i < |s|
    ensures Amounts(s[..i + 1], key, amount) == Amounts(s[..i], key, amount) + [(key(s[i]), amount(s[i]))]
  {
    assert s[..i + 1][..i] == s[..i];
  }

  /** Amounts that are never negative add up to a non-negative total. */
  lemma {:induction false} AmountsTotalNonNegative<T>(s: seq<T>, key: T -> string, amount: T -> int)
    requires forall i :: 0 <= i < |s| ==> amount(s[i]) >= 0
    ensures Total(Amounts(s, key, amount)) >= 0
  {
    if s != [] {
      var init := s[..|s| - 1];
      assert forall i :: 0 <= i < |init| ==> init[i] == s[i];
      AmountsTotalNonNegative(init, key, amount);
      var e := Amounts(s, key, amount);
      assert e[..|e| - 1] == Amounts(init, key, amount);
    }
  }

  /** The keys a tally of `Amounts` holds are exactly the keys of the
      elements. */
  lemma AmountsTallyKeys<T>(s: seq<T>, key: T -> string, amount: T -> int, k: string)
    ensures k in Keys(Tally(Amounts(s, key, amount))) <==> exists i :: 0 <= i < |s| && key(s[i]) == k
  {
    var e := Amounts(s, key, amount);
    TallyKeys(e);
    EntryKeysAll(e);
    if k in EntryKeys(e) {
      var i :| 0 <= i < |e| && EntryKeys(e)[i] == k;
      assert key(s[i]) == k;
    }
    if exists i :: 0 <= i < |s| && key(s[i]) == k {
      var i :| 0 <= i < |s| && key(s[i]) == k;
      assert EntryKeys(e)[i] == k;
    }
  }

  /** With every amount 1, the total is the number of entries. */
  lemma {:induction false} TotalOnes(entries: seq<(string, int)>)
    requires forall i :: 0 <= i < |entries| ==> entries[i].1 == 1
    ensures Total(entries) == |entries|
  {
    if entries != [] {
      TotalOnes(entries[..|entries| - 1]);
    }
  }

  /** With every amount 1, the sum for a key is the number of entries with
      that key. */
  lemma {:induction false} SumForOnes(entries: seq<(string, int)>, k: string)
    requires forall i :: 0 <= i < |entries| ==> entries[i].1 == 1
    ensures SumFor(entries, k) == multiset(EntryKeys(entries))[k]
  {
    if entries != [] {
      var init := entries[..|entries| - 1];
      SumForOnes(init, k);
      EntryKeysPrefix(entries);
      assert multiset(EntryKeys(entries)) == multiset(EntryKeys(init)) + multiset{entries[|entries| - 1].0};
    }
  }

  /** A count per key (`acc[k] = (acc[k] || 0) + 1`): each key's value is
      the number of elements with that key, a key is present exactly when
      some element has it, and the values add up to the number of
      elements. */
  lemma CountTally<T>(s: seq<T>, key: T -> string, one: T -> int, k: string)
    requires forall i :: 0 <= i < |s| ==> one(s[i]) == 1
    ensures var counts := Tally(Amounts(s, key, one));
            && (k in Keys(counts) <==> exists i :: 0 <= i < |s| && key(s[i]) == k)
            && (k in Keys(counts) ==> Get(counts, k) == Some(multiset(EntryKeys(Amounts(s, key, one)))[k]))
            && SumValues(counts) == |s|
  {
    var e := Amounts(s, key, one);
    AmountsTallyKeys(s, key, one, k);
    TallyGet(e, k);
    TallyKeys(e);
    SumForOnes(e, k);
    TallyTotal(e);
    TotalOnes(e);
  }

  /** `s.reduce((acc, x) => acc + f(x), 0)` where `f` may throw (`None`):
      the sum, or `None` as soon as one element throws. */
  function OptionSum<T>(s: seq<T>, f: T -> Option<nat>): (r: Option<nat>)
    ensures r.Some? <==> forall i :: 0 <= i < |s| ==> f(s[i]).Some?
  {
    if s == [] then Some(0)
    else
      var init := s[..|s| - 1];
      assert forall i :: 0 <= i < |init| ==> init[i] == s[i];
      match OptionSum(init, f)
      case None => None
      case Some(total) =>
        match f(s[|s| - 1])
        case None => None
        case Some(n) => Some(total + n)
  }

  /** Where every element gives its amount, the sum is the total of the
      amounts. */
  lemma {:induction false} OptionSumTotal<T>(s: seq<T>, f: T -> Option<nat>, key: T -> string, amount: T -> int)
    requires forall i :: 0 <= i < |s| ==> f(s[i]) == Some(amount(s[i]))
    ensures OptionSum(s, f) == Some(Total(Amounts(s, key, amount)))
  {
    if s != [] {
      var init := s[..|s| - 1];
      assert forall i :: 0 <= i < |init| ==> init[i] == s[i];
      OptionSumTotal(init, f, key, amount);
      var e := Amounts(s, key, amount);
      assert e[..|e| - 1] == Amounts(init, key, amount);
    }
  }

  /** `s.reduce((acc, x) => acc + f(x), 0)` over numbers that may be NaN:
      NaN as soon as one element is NaN. */
  function NumSum<T>(s: seq<T>, f: T -> Num): (r: Num)
    ensures r.NaN? <==> exists i :: 0 <= i < |s| && f(s[i]).NaN?
  {
    if s == [] then Int(0)
    else
      var init := s[..|s| - 1];
      assert forall i :: 0 <= i < |init| ==> init[i] == s[i];
      NumSum(init, f).Plus(f(s[|s| - 1]))
  }

  /** Where every element gives its amount, the sum is the total of the
      amounts. */
  lemma {:induction false} NumSumTotal<T>(s: seq<T>, f: T -> Num, key: T -> string, amount: T -> int)
    requires forall i :: 0 <= i < |s| ==> f(s[i]) == Int(amount(s[i]))
    ensures NumSum(s, f) == Int(Total(Amounts(s, key, amount)))
  {
    if s != [] {
      var init := s[..|s| - 1];
      assert forall i :: 0 <= i < |init| ==> init[i] == s[i];
      NumSumTotal(init, f, key, amount);
      var e := Amounts(s, key, amount);
      assert e[..|e| - 1] == Amounts(init, key, amount);
    }
  }

  /** A sum of non-negative numbers is NaN or non-negative. */
  lemma {:induction false} NumSumNonNegative<T>(s: seq<T>, f: T -> Num)
    requires forall i :: 0 <= i < |s| ==> f(s[i]).Int? ==> f(s[i]).value >= 0
    ensures NumSum(s, f).Int? ==> NumSum(s, f).value >= 0
  {
    if s != [] {
      var init := s[..|s| - 1];
      assert forall i :: 0 <= i < |init| ==> init[i] == s[i];
      NumSumNonNegative(init, f);
    }
  }

  function Bump(d: Dict<int>, k: string, n: int): Dict<int> {
    Put(d, k, GetOr(d, k, 0) + n)
  }

  /** The dictionary a reduce with `acc[k] = (acc[k] || 0) + n` builds. */
  function Tally(entries: seq<(string, int)>): Dict<int> {
    if entries == [] then []
    else
      var last := entries[|entries| - 1];
      Bump(Tally(entries[..|entries| - 1]), last.0, last.1)
  }

  /** One more entry bumps its key by its amount. */
  lemma TallySnoc(init: seq<(string, int)>, last: (string, int))
    ensures Tally(init + [last]) == Bump(Tally(init), last.0, last.1)
  {
    assert (init + [last])[..|init|] == init;
  }

  /** The sum of the amounts of the entries with key `k`. */
  function SumFor(entries: seq<(string, int)>, k: string): int {
    if entries == [] then 0
    else
      var last := entries[|entries| - 1];
      SumFor(entries[..|entries| - 1], k) + (if last.0 == k then last.1 else 0)
  }

  /** The sum of all amounts. */
  function Total(entries: seq<(string, int)>): int {
    if entries == [] then 0 else Total(entries[..|entries| - 1]) + entries[|entries| - 1].1
  }

  function SumValues(d: Dict<int>): int {
    if d == [] then 0 else d[0].1 + SumValues(d[1..])
  }

  lemma {:induction false} SumValuesPut(d: Dict<int>, k: string, v: int)
    ensures SumValues(Put(d, k, v)) == SumValues(d) - GetOr(d, k, 0) + v
  {
    if d != [] && d[0].0 != k {
      SumValuesPut(d[1..], k, v);
    }
  }

  lemma {:induction false} EntryKeysPrefix<V>(entries: seq<(string, V)>)
    requires entries != []
    ensures EntryKeys(entries) == EntryKeys(entries[..|entries| - 1]) + [entries[|entries| - 1].0]
  {
  }

  /** A tally has one key per distinct entry key, in first-occurrence
      order. */
  lemma {:induction false} TallyKeys(entries: seq<(string, int)>)
    ensures Keys(Tally(entries)) == FirstOccurrences(EntryKeys(entries))
  {
    if entries != [] {
      var init := entries[..|entries| - 1];
      TallyKeys(init);
      EntryKeysPrefix(entries);
      assert EntryKeys(entries)[..|entries| - 1] == EntryKeys(init);
    }
  }

  lemma GetBump(d: Dict<int>, k0: string, n: int, k: string)
    ensures Get(Bump(d, k0, n), k) == if k == k0 then Some(GetOr(d, k0, 0) + n) else Get(d, k)
  {
  }

  /** The value a tally holds under `k` is the sum of that key's amounts,
      and keys that no entry has are absent. */
  lemma {:induction false} TallyGet(entries: seq<(string, int)>, k: string)
    ensures Get(Tally(entries), k) == if k in EntryKeys(entries) then Some(SumFor(entries, k)) else None
  {
    if entries != [] {
      TallyGet(entries[..|entries| - 1], k);
      TallyGetStep(entries, k);
    }
  }

  /** One step of `TallyGet`: the last entry bumps its own key only. */
  lemma TallyGetStep(entries: seq<(string, int)>, k: string)
    requires entries != []
    requires var init := entries[..|entries| - 1];
             Get(Tally(init), k) == if k in EntryKeys(init) then Some(SumFor(init, k)) else None
    ensures Get(Tally(entries), k) == if k in EntryKeys(entries) then Some(SumFor(entries, k)) else None
  {
    var init := entries[..|entries| - 1];
    var last := entries[|entries| - 1];
    assert Get(Tally(entries), k) == Get(Bump(Tally(init), last.0, last.1), k);
    assert SumFor(entries, k) == SumFor(init, k) + (if last.0 == k then last.1 else 0);
    EntryKeysPrefix(entries);
    assert k in EntryKeys(entries) <==> k in EntryKeys(init) || k == last.0;
    if k !in EntryKeys(init) {
      SumForAbsent(init, k);
    }
    BumpStep(Tally(init), last.0, last.1, k, k in EntryKeys(init), SumFor(init, k),
             k in EntryKeys(entries), SumFor(entries, k));
  }

  /** Bumping `k0` by `n` adds `n` to the sum under `k0` and leaves the
      other keys alone. */
  lemma BumpStep(before: Dict<int>, k0: string, n: int, k: string,
                 present: bool, sum: int, presentAfter: bool, sumAfter: int)
    requires Get(before, k) == if present then Some(sum) else None
    requires !present ==> sum == 0
    requires presentAfter == (present || k == k0)
    requires sumAfter == sum + (if k0 == k then n else 0)
    ensures Get(Bump(before, k0, n), k) == if presentAfter then Some(sumAfter) else None
  {
    GetBump(before, k0, n, k);
  }

  lemma {:induction false} SumForAbsent(entries: seq<(string, int)>, k: string)
    requires k !in EntryKeys(entries)
    ensures SumFor(entries, k) == 0
  {
    if entries != [] {
      EntryKeysPrefix(entries);
      SumForAbsent(entries[..|entries| - 1], k);
    }
  }

  /** The values of a tally add up to the sum of all amounts. */
  lemma {:induction false} TallyTotal(entries: seq<(string, int)>)
    ensures SumValues(Tally(entries)) == Total(entries)
  {
    if entries != [] {
      var init := entries[..|entries| - 1];
      var last := entries[|entries| - 1];
      TallyTotal(init);
      assert SumValues(Tally(entries)) == SumValues(Bump(Tally(init), last.0, last.1));
      assert Total(entries) == Total(init) + last.1;
      BumpTotal(Tally(init), last.0, last.1, Total(init), Total(entries));
    }
  }

  /** Bumping a key by `n` adds `n` to the sum of the values. */
  lemma BumpTotal(before: Dict<int>, k0: string, n: int, total: int, totalAfter: int)
    requires SumValues(before) == total && totalAfter == total + n
    ensures SumValues(Bump(before, k0, n)) == totalAfter
  {
    var v := GetOr(before, k0, 0) + n;
    assert Bump(before, k0, n) == Put(before, k0, v);
    SumValuesPut(before, k0, v);
  }

  // ---------------------------------------------------------------------
  // (d[k] ||= []).push(x)

  function Append<T>(d: Dict<seq<T>>, k: string, x: T): Dict<seq<T>> {
    Put(d, k, GetOr(d, k, []) + [x])
  }

  /** The buckets a reduce that pushes each value under its key builds. */
  function Buckets<T>(entries: seq<(string, T)>): Dict<seq<T>> {
    if entries == [] then []
    else
      var last := entries[|entries| - 1];
      Append(Buckets(entries[..|entries| - 1]), last.0, last.1)
  }

  /** The values of the entries with key `k`, in entry order. */
  function ValuesFor<T>(entries: seq<(string, T)>, k: string): seq<T> {
    if entries == [] then []
    else
      var last := entries[|entries| - 1];
      ValuesFor(entries[..|entries| - 1], k) + (if last.0 == k then [last.1] else [])
  }

  function EntryValues<T>(entries: seq<(string, T)>): (vs: seq<T>)
    ensures |vs| == |entries|
    ensures forall i :: 0 <= i < |entries| ==> vs[i] == entries[i].1
  {
    if entries == [] then [] else EntryValues(entries[..|entries| - 1]) + [entries[|entries| - 1].1]
  }

  /** The buckets have one key per distinct entry key, in first-occurrence
      order. */
  lemma {:induction false} BucketsKeys<T>(entries: seq<(string, T)>)
    ensures Keys(Buckets(entries)) == FirstOccurrences(EntryKeys(entries))
  {
    if entries != [] {
      var init := entries[..|entries| - 1];
      BucketsKeys(init);
      EntryKeysPrefix(entries);
      assert EntryKeys(entries)[..|entries| - 1] == EntryKeys(init);
    }
  }

  lemma GetAppend<T>(d: Dict<seq<T>>, k0: string, x: T, k: string)
    ensures Get(Append(d, k0, x), k) == if k == k0 then Some(GetOr(d, k0, []) + [x]) else Get(d, k)
  {
  }

  /** Each bucket holds exactly its key's values, in entry order. */
  lemma {:induction false} BucketsGet<T>(entries: seq<(string, T)>, k: string)
    ensures Get(Buckets(entries), k) == if k in EntryKeys(entries) then Some(ValuesFor(entries, k)) else None
  {
    if entries != [] {
      BucketsGet(entries[..|entries| - 1], k);
      BucketsGetStep(entries, k);
    }
  }

  /** One step of `BucketsGet`: the last entry goes into its own bucket
      only. */
  lemma BucketsGetStep<T>(entries: seq<(string, T)>, k: string)
    requires entries != []
    requires var init := entries[..|entries| - 1];
             Get(Buckets(init), k) == if k in EntryKeys(init) then Some(ValuesFor(init, k)) else None
    ensures Get(Buckets(entries), k) == if k in EntryKeys(entries) then Some(ValuesFor(entries, k)) else None
  {
    var init := entries[..|entries| - 1];
    var last := entries[|entries| - 1];
    assert Get(Buckets(entries), k) == Get(Append(Buckets(init), last.0, last.1), k);
    assert ValuesFor(entries, k) == ValuesFor(init, k) + (if last.0 == k then [last.1] else []);
    EntryKeysPrefix(entries);
    assert k in EntryKeys(entries) <==> k in EntryKeys(init) || k == last.0;
    if k !in EntryKeys(init) {
      ValuesForAbsent(init, k);
    }
    AppendStep(Buckets(init), last.0, last.1, k, k in EntryKeys(init), ValuesFor(init, k),
               k in EntryKeys(entries), ValuesFor(entries, k));
  }

  /** Pushing `x` under `k0` extends that bucket and leaves the others
      alone. */
  lemma AppendStep<T>(before: Dict<seq<T>>, k0: string, x: T, k: string,
                      present: bool, values: seq<T>, presentAfter: bool, valuesAfter: seq<T>)
    requires Get(before, k) == if present then Some(values) else None
    requires !present ==> values == []
    requires presentAfter == (present || k == k0)
    requires valuesAfter == values + (if k0 == k then [x] else [])
    ensures Get(Append(before, k0, x), k) == if presentAfter then Some(valuesAfter) else None
  {
    GetAppend(before, k0, x, k);
    if k != k0 {
      assert values + [] == values;
    }
  }

  lemma {:induction false} ValuesForAbsent<T>(entries: seq<(string, T)>, k: string)
    requires k !in EntryKeys(entries)
    ensures ValuesFor(entries, k) == []
  {
    if entries != [] {
      EntryKeysPrefix(entries);
      ValuesForAbsent(entries[..|entries| - 1], k);
    }
  }

  /** All values of a dictionary of buckets, bucket after bucket. */
  function Flatten<T>(d: Dict<seq<T>>): seq<T> {
    if d == [] then [] else d[0].1 + Flatten(d[1..])
  }

  lemma {:induction false} FlattenAppend<T>(d: Dict<seq<T>>, k: string, x: T)
    ensures multiset(Flatten(Append(d, k, x))) == multiset(Flatten(d)) + multiset{x}
  {
    if d != [] && d[0].0 != k {
      FlattenAppend(d[1..], k, x);
      assert Append(d, k, x) == [d[0]] + Append(d[1..], k, x);
    }
  }

  /** Bucketing loses and invents nothing. */
  lemma {:induction false} BucketsKeepValues<T>(entries: seq<(string, T)>)
    ensures multiset(Flatten(Buckets(entries))) == multiset(EntryValues(entries))
  {
    if entries != [] {
      var init := entries[..|entries| - 1];
      BucketsKeepValues(init);
      FlattenAppend(Buckets(init), entries[|entries| - 1].0, entries[|entries| - 1].1);
      assert EntryValues(entries) == EntryValues(init) + [entries[|entries| - 1].1];
    }
  }

  // ---------------------------------------------------------------------
  // d[k] = v for each entry, later entries overwriting earlier ones

  /** The dictionary `new Map(entries)` or a reduce with `acc[k] = v`
      builds. */
  function FromEntries<V>(entries: seq<(string, V)>): Dict<V> {
    if entries == [] then []
    else
      var last := entries[|entries| - 1];
      Put(FromEntries(entries[..|entries| - 1]), last.0, last.1)
  }

  /** Each element paired with its key, in order. */
  function KeyedBy<T>(s: seq<T>, key: T -> string): (e: seq<(string, T)>)
    ensures |e| == |s|
    ensures forall i :: 0 <= i < |s| ==> e[i] == (key(s[i]), s[i])
  {
    if s == [] then [] else KeyedBy(s[..|s| - 1], key) + [(key(s[|s| - 1]), s[|s| - 1])]
  }

  /** One more element stores itself under its key. */
  lemma KeyedByStep<T>(s: seq<T>, i: nat, key: T -> string)
    requires i < |s|
    ensures FromEntries(KeyedBy(s[..i + 1], key)) == Put(FromEntries(KeyedBy(s[..i], key)), key(s[i]), s[i])
  {
    assert s[..i + 1][..i] == s[..i];
    var e := KeyedBy(s[..i + 1], key);
    assert e[..|e| - 1] == KeyedBy(s[..i], key);
  }

  /** The value of the last entry with key `k`. */
  function LastFor<V>(entries: seq<(string, V)>, k: string): Option<V> {
    if entries == [] then None
    else if entries[|entries| - 1].0 == k then Some(entries[|entries| - 1].1)
    else LastFor(entries[..|entries| - 1], k)
  }

  /** One key per distinct entry key, in first-occurrence order. */
  lemma {:induction false} FromEntriesKeys<V>(entries: seq<(string, V)>)
    ensures Keys(FromEntries(entries)) == FirstOccurrences(EntryKeys(entries))
  {
    if entries != [] {
      var init := entries[..|entries| - 1];
      FromEntriesKeys(init);
      EntryKeysPrefix(entries);
      assert EntryKeys(entries)[..|entries| - 1] == EntryKeys(init);
    }
  }

  /** Each key holds the value of the last entry with that key. */
  lemma {:induction false} FromEntriesGet<V>(entries: seq<(string, V)>, k: string)
    ensures Get(FromEntries(entries), k) == LastFor(entries, k)
  {
    if entries != [] {
      FromEntriesGet(entries[..|entries| - 1], k);
    }
  }

  // ---------------------------------------------------------------------
  // Facts about keys

  lemma {:induction false} EntryKeysAll<V>(entries: seq<(string, V)>)
    ensures forall i :: 0 <= i < |entries| ==> EntryKeys(entries)[i] == entries[i].0
  {
    if entries != [] {
      EntryKeysAll(entries[..|entries| - 1]);
    }
  }

  /** A value lookup finds is the value of some entry. */
  lemma {:induction false} GetValueIn<V>(d: Dict<V>, k: string)
    requires Get(d, k).Some?
    ensures exists i :: 0 <= i < |d| && d[i] == (k, Get(d, k).value)
  {
    if d[0].0 != k {
      GetValueIn(d[1..], k);
      var i :| 0 <= i < |d| - 1 && d[1..][i] == (k, Get(d[1..], k).value);
      assert d[i + 1] == d[1..][i];
    }
  }

  lemma MultisetCountDistinct(s: seq<string>, x: string)
    requires Distinct(s)
    ensures multiset(s)[x] <= 1
  {
    if s != [] {
      var init := s[..|s| - 1];
      assert s == init + [s[|s| - 1]];
      assert Distinct(init);
      MultisetCountDistinct(init, x);
      if s[|s| - 1] == x {
        assert x !in init;
      }
    }
  }

  /** A permutation of distinct keys is distinct. */
  lemma DistinctMultiset(a: seq<string>, b: seq<string>)
    requires Distinct(a) && multiset(a) == multiset(b)
    ensures Distinct(b)
  {
    forall i, j | 0 <= i < j < |b| ensures b[i] != b[j] {
      if b[i] == b[j] {
        var x := b[i];
        assert x in b[..j];
        assert b[..j + 1] == b[..j] + [x];
        assert multiset(b[..j + 1])[x] >= 2;
        assert b == b[..j + 1] + b[j + 1..];
        assert multiset(b)[x] >= 2;
        MultisetCountDistinct(a, x);
      }
    }
  }

  /** Distinct keys are their own first occurrences. */
  lemma {:induction false} FirstOccurrencesDistinct(ks: seq<string>)
    requires Distinct(ks)
    ensures FirstOccurrences(ks) == ks
  {
    if ks != [] {
      var init := ks[..|ks| - 1];
      assert Distinct(init);
      FirstOccurrencesDistinct(init);
      assert ks[|ks| - 1] !in init;
      assert ks == init + [ks[|ks| - 1]];
    }
  }

  /** With distinct entry keys, the last entry for a key is its only one. */
  lemma {:induction false} LastForDistinct<V>(entries: seq<(string, V)>, i: nat)
    requires Distinct(EntryKeys(entries)) && i < |entries|
    ensures LastFor(entries, entries[i].0) == Some(entries[i].1)
  {
    EntryKeysAll(entries);
    if i < |entries| - 1 {
      var init := entries[..|entries| - 1];
      EntryKeysPrefix(entries);
      assert EntryKeys(init) == EntryKeys(entries)[..|entries| - 1];
      assert EntryKeys(entries)[i] != EntryKeys(entries)[|entries| - 1];
      LastForDistinct(init, i);
    }
  }
}
