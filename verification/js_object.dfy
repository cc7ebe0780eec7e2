/** A JavaScript object as `Object.entries` lists it: its own string keys
    with their values. Keys that are array indices (canonical decimal
    numerals below 2^32 - 1) come first in ascending numeric order, then the
    other keys in the order they were first set; setting an existing key
    replaces its value where it stands. */
module JsObject {
  import opened Seqs
  import opened Text

  type Entries<V> = seq<(string, V)>

  /** The largest array index is 2^32 - 2. */
  const IndexBound: nat := 4294967295

  /** A decimal numeral without superfluous leading zeros. */
  predicate IsCanonical(k: string) {
    k != [] && (forall i :: 0 <= i < |k| ==> IsDigit(k[i])) && (k[0] != '0' || |k| == 1)
  }

  /** `k` names an array index: it is what `String(n)` gives for some
      `n < 2^32 - 1`. */
  predicate IsArrayIndex(k: string) {
    IsCanonical(k) && DigitsValue(k) < IndexBound
  }

  /** In `Object.entries` order an entry keyed `a` may come before one keyed
      `b`: an index key comes only after smaller index keys. */
  predicate Precedes(a: string, b: string) {
    IsArrayIndex(b) ==> IsArrayIndex(a) && DigitsValue(a) < DigitsValue(b)
  }

  /** The entries are in `Object.entries` order. */
  predicate Ordered<V>(e: Entries<V>) {
    |e| <= 1 || (Precedes(e[0].0, e[1].0) && Ordered(e[1..]))
  }

  function Keys<V>(e: Entries<V>): set<string> {
    if e == [] then {} else {e[0].0} + Keys(e[1..])
  }

  /** No key is listed twice. */
  predicate DistinctKeys<V>(e: Entries<V>) {
    e == [] || (e[0].0 !in Keys(e[1..]) && DistinctKeys(e[1..]))
  }

  /** `o[k]`, `None` for `undefined`. */
  function Lookup<V>(e: Entries<V>, k: string): (r: Option<V>)
    ensures r.Some? <==> k in Keys(e)
  {
    if e == [] then None else if e[0].0 == k then Some(e[0].1) else Lookup(e[1..], k)
  }

  /** An index key `k` goes in front of an entry keyed `b`. */
  predicate GoesBefore(k: string, b: string) {
    IsArrayIndex(k) && (!IsArrayIndex(b) || DigitsValue(k) < DigitsValue(b))
  }

  /** `o[k] = v`. */
  function ObjectSet<V>(e: Entries<V>, k: string, v: V): (r: Entries<V>)
    ensures Keys(r) == Keys(e) + {k}
  {
    if e == [] then [(k, v)]
    else if e[0].0 == k then [(k, v)] + e[1..]
    else if GoesBefore(k, e[0].0) then [(k, v)] + e
    else [e[0]] + ObjectSet(e[1..], k, v)
  }

  /** After `o[k] = v`, `o[k]` is `v` and every other key reads as before. */
  lemma {:induction false} ObjectSetLookup<V>(e: Entries<V>, k: string, v: V, k': string)
    ensures Lookup(ObjectSet(e, k, v), k') == if k' == k then Some(v) else Lookup(e, k')
  {
    if e != [] && e[0].0 != k && !GoesBefore(k, e[0].0) {
      ObjectSetLookup(e[1..], k, v, k');
    }
  }

  /** Two index keys with the same value are the same key. */
  lemma IndexKeyInjective(a: string, b: string)
    requires IsArrayIndex(a) && IsArrayIndex(b) && DigitsValue(a) == DigitsValue(b)
    ensures a == b
  {
    CanonicalIsNatToString(a);
    CanonicalIsNatToString(b);
  }

  /** A canonical numeral is the one `String` writes for its value. */
  lemma {:induction false} CanonicalIsNatToString(k: string)
    requires IsCanonical(k)
    ensures NatToString(DigitsValue(k)) == k
    decreases |k|
  {
    var n := |k| - 1;
    if n > 0 {
      var init := k[..n];
      assert IsCanonical(init);
      CanonicalIsNatToString(init);
      LeadingDigitBound(init);
      var d := DigitsValue(k);
      assert d == 10 * DigitsValue(init) + DigitVal(k[n]);
      assert d / 10 == DigitsValue(init) && d % 10 == DigitVal(k[n]);
      assert k == init + [k[n]];
    }
  }

  /** A canonical numeral of two digits or more is worth at least 10. */
  lemma {:induction false} LeadingDigitBound(k: string)
    requires IsCanonical(k)
    ensures DigitsValue(k) >= 1 || k == "0"
    decreases |k|
  {
    if |k| > 1 {
      LeadingDigitBound(k[..|k| - 1]);
    }
  }

  /** Setting a key keeps `Object.entries` order. */
  lemma {:induction false} ObjectSetOrdered<V>(e: Entries<V>, k: string, v: V)
    requires Ordered(e)
    ensures Ordered(ObjectSet(e, k, v))
  {
    if e != [] && e[0].0 != k && !GoesBefore(k, e[0].0) {
      var rest := ObjectSet(e[1..], k, v);
      ObjectSetOrdered(e[1..], k, v);
      assert ObjectSet(e, k, v) == [e[0]] + rest;
      assert rest[0].0 == k || (|e| > 1 && rest[0].0 == e[1].0) by {
        ObjectSetHead(e[1..], k, v);
      }
      if rest[0].0 == k && IsArrayIndex(k) {
        assert IsArrayIndex(e[0].0);
        if DigitsValue(e[0].0) == DigitsValue(k) {
          IndexKeyInjective(e[0].0, k);
        }
      }
      assert ([e[0]] + rest)[1..] == rest;
    }
  }

  /** What `ObjectSet` puts first: the new key or the old first key. */
  lemma ObjectSetHead<V>(e: Entries<V>, k: string, v: V)
    ensures var r := ObjectSet(e, k, v);
            r != [] && (r[0].0 == k || (e != [] && r[0].0 == e[0].0))
  {
  }

  /** In ordered entries, an index key that goes before the first key is
      not among the keys at all. */
  lemma {:induction false} GoesBeforeAbsent<V>(e: Entries<V>, k: string)
    requires Ordered(e) && e != [] && GoesBefore(k, e[0].0)
    ensures k !in Keys(e)
  {
    if |e| > 1 {
      assert GoesBefore(k, e[1].0);
      GoesBeforeAbsent(e[1..], k);
    }
  }

  /** Setting a key never lists a key twice. */
  lemma {:induction false} ObjectSetDistinct<V>(e: Entries<V>, k: string, v: V)
    requires Ordered(e) && DistinctKeys(e)
    ensures DistinctKeys(ObjectSet(e, k, v))
  {
    if e == [] {
    } else if e[0].0 == k {
      assert ([(k, v)] + e[1..])[1..] == e[1..];
    } else if GoesBefore(k, e[0].0) {
      GoesBeforeAbsent(e, k);
      assert ([(k, v)] + e)[1..] == e;
    } else {
      ObjectSetDistinct(e[1..], k, v);
      assert ([e[0]] + ObjectSet(e[1..], k, v))[1..] == ObjectSet(e[1..], k, v);
    }
  }

  /** The keys in `Object.keys` order. */
  function KeyList<V>(e: Entries<V>): (ks: seq<string>)
    ensures |ks| == |e| && forall i :: 0 <= i < |e| ==> ks[i] == e[i].0
  {
    if e == [] then [] else [e[0].0] + KeyList(e[1..])
  }

  /** A new key that is not an array index goes after every key already
      there: other keys keep their insertion order. */
  lemma {:induction false} ObjectSetAppends<V>(e: Entries<V>, k: string, v: V)
    requires k !in Keys(e) && !IsArrayIndex(k)
    ensures ObjectSet(e, k, v) == e + [(k, v)]
  {
    if e != [] {
      ObjectSetAppends(e[1..], k, v);
      assert e == [e[0]] + e[1..];
    }
  }

  /** Setting a key that is already there replaces its value where it
      stands: the keys and their order do not change. */
  lemma {:induction false} ObjectSetKeepsKeyOrder<V>(e: Entries<V>, k: string, v: V)
    requires Ordered(e) && k in Keys(e)
    ensures KeyList(ObjectSet(e, k, v)) == KeyList(e)
  {
    if e[0].0 != k {
      if GoesBefore(k, e[0].0) {
        GoesBeforeAbsent(e, k);
      }
      ObjectSetKeepsKeyOrder(e[1..], k, v);
    }
  }
}
