/** A JavaScript plain object with string keys, seen as the ordered list of
    its own entries. Assigning to a key that is already present keeps its
    position; a new key is appended. This is the order `Object.entries`
    reports for non-numeric keys, and the order in which a spread
    `{ ...prev, [key]: value }` leaves them. */
module JsObject {
  import opened Wrappers

  datatype Entry<V> = Entry(key: string, value: V)

  type Object<V> = seq<Entry<V>>

  /** The keys in enumeration order. */
  function Keys<V>(o: Object<V>): (ks: seq<string>)
    ensures |ks| == |o|
    ensures forall i :: 0 <= i < |o| ==> ks[i] == o[i].key
  {
    if |o| == 0 then [] else [o[0].key] + Keys(o[1..])
  }

  ghost predicate Distinct(ks: seq<string>) {
    forall i, j :: 0 <= i < j < |ks| ==> ks[i] != ks[j]
  }

  /** Every object the source builds has pairwise distinct keys. */
  ghost predicate UniqueKeys<V>(o: Object<V>) {
    Distinct(Keys(o))
  }

  /** Property read `o[k]`; `None` stands for `undefined`. */
  function Get<V>(o: Object<V>, k: string): (r: Option<V>)
    ensures r.Some? <==> k in Keys(o)
  {
    if |o| == 0 then None
    else if o[0].key == k then Some(o[0].value)
    else Get(o[1..], k)
  }

  /** A read finds the first entry carrying the key. */
  lemma {:induction false} GetFirst<V>(o: Object<V>, k: string, i: nat)
    requires i < |o| && o[i].key == k
    requires forall j :: 0 <= j < i ==> o[j].key != k
    ensures Get(o, k) == Some(o[i].value)
  {
    if i > 0 {
      GetFirst(o[1..], k, i - 1);
    }
  }

  /** With distinct keys, the entry carrying the key is the one read. */
  lemma GetUnique<V>(o: Object<V>, k: string, i: nat)
    requires UniqueKeys(o)
    requires i < |o| && o[i].key == k
    ensures Get(o, k) == Some(o[i].value)
  {
    assert forall j :: 0 <= j < i ==> Keys(o)[j] != Keys(o)[i];
    GetFirst(o, k, i);
  }

  /** The object `{ ...o, [k]: v }`. */
  function Set<V>(o: Object<V>, k: string, v: V): (r: Object<V>)
    ensures Get(r, k) == Some(v)
    ensures forall j :: j != k ==> Get(r, j) == Get(o, j)
    ensures k in Keys(o) ==> Keys(r) == Keys(o)
  {
    if |o| == 0 then [Entry(k, v)]
    else if o[0].key == k then
      var r := [Entry(k, v)] + o[1..];
      assert r[1..] == o[1..];
      r
    else
      var r := [o[0]] + Set(o[1..], k, v);
      assert r[1..] == Set(o[1..], k, v);
      r
  }

  /** A key absent from an object is absent from its head and its tail. */
  lemma KeysTail<V>(o: Object<V>, k: string)
    requires |o| > 0 && k !in Keys(o)
    ensures o[0].key != k && k !in Keys(o[1..])
  {
    assert Keys(o) == [o[0].key] + Keys(o[1..]);
  }

  /** Assigning a key the first entry does not carry keeps that entry first. */
  lemma SetSkipsHead<V>(o: Object<V>, k: string, v: V)
    requires |o| > 0 && o[0].key != k
    ensures Set(o, k, v) == [o[0]] + Set(o[1..], k, v)
  {
  }

  lemma SeqConsAppend<T>(s: seq<T>, e: T)
    requires |s| > 0
    ensures [s[0]] + (s[1..] + [e]) == s + [e]
  {
    assert s == [s[0]] + s[1..];
  }

  /** Assigning a key that is absent appends its entry. */
  lemma {:induction false} SetAppends<V>(o: Object<V>, k: string, v: V)
    requires k !in Keys(o)
    ensures Set(o, k, v) == o + [Entry(k, v)]
  {
    if |o| > 0 {
      KeysTail(o, k);
      SetAppends(o[1..], k, v);
      SetSkipsHead(o, k, v);
      SeqConsAppend(o, Entry(k, v));
    }
  }

  /** Assigning a key that is absent adds it last to the keys. */
  lemma SetNewKey<V>(o: Object<V>, k: string, v: V)
    requires k !in Keys(o)
    ensures Keys(Set(o, k, v)) == Keys(o) + [k]
  {
    SetAppends(o, k, v);
    KeysAppend(o, Entry(k, v));
  }

  lemma KeysAppend<V>(o: Object<V>, e: Entry<V>)
    ensures Keys(o + [e]) == Keys(o) + [e.key]
  {
    var ks := Keys(o + [e]);
    assert forall i :: 0 <= i < |ks| ==> ks[i] == (Keys(o) + [e.key])[i];
  }

  /** Assigning two distinct absent keys appends both entries in order. */
  lemma SetTwiceAppends<V>(o: Object<V>, k1: string, v1: V, k2: string, v2: V)
    requires k1 !in Keys(o) && k2 !in Keys(o) && k1 != k2
    ensures Set(Set(o, k1, v1), k2, v2) == o + [Entry(k1, v1), Entry(k2, v2)]
  {
    SetAppends(o, k1, v1);
    var d := o + [Entry(k1, v1)];
    SetNewKey(o, k1, v1);
    SetAppends(d, k2, v2);
  }

  /** Assigning a key never duplicates one. */
  lemma SetKeepsKeysUnique<V>(o: Object<V>, k: string, v: V)
    requires UniqueKeys(o)
    ensures UniqueKeys(Set(o, k, v))
  {
    if k !in Keys(o) {
      SetNewKey(o, k, v);
    }
  }

  /** Every value of `o` satisfies `p`. */
  ghost predicate AllValues<V>(o: Object<V>, p: V -> bool) {
    forall i :: 0 <= i < |o| ==> p(o[i].value)
  }

  /** Assigning a value satisfying `p` keeps all values satisfying `p`. */
  lemma {:induction false} SetKeepsAllValues<V>(o: Object<V>, k: string, v: V, p: V -> bool)
    requires AllValues(o, p) && p(v)
    ensures AllValues(Set(o, k, v), p)
  {
    if |o| > 0 && o[0].key != k {
      SetKeepsAllValues(o[1..], k, v, p);
      assert Set(o, k, v) == [o[0]] + Set(o[1..], k, v);
    }
  }

  /** `Object.fromEntries(Object.entries(o).map(([k, x]) => [k, f(x)]))`. */
  function MapValues<V, W>(o: Object<V>, f: V -> W): (r: Object<W>)
    ensures Keys(r) == Keys(o)
    ensures forall i :: 0 <= i < |o| ==> r[i] == Entry(o[i].key, f(o[i].value))
  {
    if |o| == 0 then [] else [Entry(o[0].key, f(o[0].value))] + MapValues(o[1..], f)
  }

  /** Reading a mapped object reads the original and applies `f`. */
  lemma {:induction false} GetMapValues<V, W>(o: Object<V>, f: V -> W, k: string)
    ensures Get(MapValues(o, f), k) == (if k in Keys(o) then Some(f(Get(o, k).value)) else None)
  {
    if |o| > 0 && o[0].key != k {
      GetMapValues(o[1..], f, k);
      assert MapValues(o, f)[1..] == MapValues(o[1..], f);
    }
  }
}
