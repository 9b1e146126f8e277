/**
 * Plain JavaScript objects with string keys, as the server and the client
 * use them for score tables (`scores[color] = ...`, `Object.keys`,
 * `Object.values`). An object is an association list in insertion order:
 * assigning to an existing key keeps its place, a new key goes to the end.
 */
module JsObject {

  datatype Option<+T> = None | Some(value: T)

  /** One own property of an object. */
  datatype Entry<V> = Entry(key: string, value: V)

  type Obj<V> = seq<Entry<V>>

  /** `Object.keys(o)` */
  function Keys<V>(o: Obj<V>): (ks: seq<string>)
    ensures |ks| == |o|
    ensures forall i :: 0 <= i < |o| ==> ks[i] == o[i].key
  {
    if o == [] then [] else [o[0].key] + Keys(o[1..])
  }

  /** `Object.values(o)` */
  function Values<V>(o: Obj<V>): (vs: seq<V>)
    ensures |vs| == |o|
    ensures forall i :: 0 <= i < |o| ==> vs[i] == o[i].value
  {
    if o == [] then [] else [o[0].value] + Values(o[1..])
  }

  /** No key occurs twice: every object built with Put has this shape. */
  ghost predicate WellFormed<V>(o: Obj<V>) {
    forall i, j :: 0 <= i < j < |o| ==> o[i].key != o[j].key
  }

  /** Position of key `k`, if present. */
  function IndexOf<V>(o: Obj<V>, k: string): (r: Option<nat>)
    ensures r.Some? ==> r.value < |o| && o[r.value].key == k
    ensures r.Some? ==> forall i :: 0 <= i < r.value ==> o[i].key != k
    ensures r.None? <==> k !in Keys(o)
  {
    if o == [] then None
    else if o[0].key == k then Some(0)
    else match IndexOf(o[1..], k)
      case None => None
      case Some(i) => Some(i + 1)
  }

  /** `o[k]`, with `undefined` as None. */
  function Get<V>(o: Obj<V>, k: string): (r: Option<V>)
    ensures r.Some? <==> k in Keys(o)
    ensures WellFormed(o) ==> forall i :: 0 <= i < |o| && o[i].key == k ==> r == Some(o[i].value)
  {
    match IndexOf(o, k)
    case None => None
    case Some(i) => Some(o[i].value)
  }

  /** The assignment `o[k] = v`. */
  function Put<V>(o: Obj<V>, k: string, v: V): (r: Obj<V>)
    ensures Keys(r) == if k in Keys(o) then Keys(o) else Keys(o) + [k]
    ensures Get(r, k) == Some(v)
    ensures forall k' :: k' != k ==> Get(r, k') == Get(o, k')
    ensures WellFormed(o) ==> WellFormed(r)
  {
    match IndexOf(o, k)
    case None =>
      AppendFacts(o, Entry(k, v));
      o + [Entry(k, v)]
    case Some(i) =>
      ReplaceFacts(o, i, Entry(k, v));
      o[i := Entry(k, v)]
  }

  /** Appending an entry for a new key. */
  lemma AppendFacts<V>(o: Obj<V>, e: Entry<V>)
    requires e.key !in Keys(o)
    ensures Keys(o + [e]) == Keys(o) + [e.key]
    ensures Get(o + [e], e.key) == Some(e.value)
    ensures forall k' :: k' != e.key ==> Get(o + [e], k') == Get(o, k')
    ensures WellFormed(o) ==> WellFormed(o + [e])
  {
    var r := o + [e];
    assert Keys(r) == Keys(o) + [e.key];
    forall k' | k' != e.key ensures Get(r, k') == Get(o, k') {
      AppendIndexOf(o, e, k');
      if IndexOf(o, k').Some? {
        var j := IndexOf(o, k').value;
        assert r[j] == o[j];
      }
    }
    AppendIndexOfNew(o, e);
    assert r[|o|] == e;
    if WellFormed(o) {
      forall i, j | 0 <= i < j < |r| ensures r[i].key != r[j].key {
        assert r[i] == o[i];
        if j == |o| {
          assert Keys(o)[i] == o[i].key;
        } else {
          assert r[j] == o[j];
        }
      }
    }
  }

  /** Overwriting the entry at `i`, the first one for its key. */
  lemma ReplaceFacts<V>(o: Obj<V>, i: nat, e: Entry<V>)
    requires IndexOf(o, e.key) == Some(i)
    ensures Keys(o[i := e]) == Keys(o)
    ensures Get(o[i := e], e.key) == Some(e.value)
    ensures forall k' :: k' != e.key ==> Get(o[i := e], k') == Get(o, k')
    ensures WellFormed(o) ==> WellFormed(o[i := e])
  {
    var r := o[i := e];
    assert Keys(r) == Keys(o);
    SameKeysIndexOf(r, o, e.key);
    forall k' | k' != e.key ensures Get(r, k') == Get(o, k') {
      SameKeysIndexOf(r, o, k');
      if IndexOf(o, k').Some? {
        var j := IndexOf(o, k').value;
        assert j != i && r[j] == o[j];
      }
    }
    if WellFormed(o) {
      forall a, b | 0 <= a < b < |r| ensures r[a].key != r[b].key {
        assert r[a].key == o[a].key && r[b].key == o[b].key;
      }
    }
  }

  lemma {:induction false} AppendIndexOfNew<V>(o: Obj<V>, e: Entry<V>)
    requires e.key !in Keys(o)
    ensures IndexOf(o + [e], e.key) == Some(|o|)
  {
    if o != [] {
      assert (o + [e])[1..] == o[1..] + [e];
      assert e.key !in Keys(o[1..]) by {
        assert forall t :: 0 <= t < |o| - 1 ==> Keys(o[1..])[t] == Keys(o)[t + 1];
      }
      AppendIndexOfNew(o[1..], e);
    }
  }

  lemma {:induction false} AppendIndexOf<V>(o: Obj<V>, e: Entry<V>, k: string)
    requires e.key != k
    ensures IndexOf(o + [e], k) == IndexOf(o, k)
  {
    if o != [] {
      assert (o + [e])[1..] == o[1..] + [e];
      AppendIndexOf(o[1..], e, k);
    }
  }

  lemma {:induction false} SameKeysIndexOf<V>(a: Obj<V>, b: Obj<V>, k: string)
    requires Keys(a) == Keys(b)
    ensures IndexOf(a, k) == IndexOf(b, k)
  {
    if a != [] {
      assert Keys(a[1..]) == Keys(a)[1..];
      assert Keys(b[1..]) == Keys(b)[1..];
      SameKeysIndexOf(a[1..], b[1..], k);
    }
  }

  /**
   * The distinct elements of `s` in order of first occurrence: the key
   * order of an object filled by assigning the keys of `s` one by one.
   */
  function Dedup(s: seq<string>): (r: seq<string>)
    ensures forall x :: x in r <==> x in s
    ensures forall i, j :: 0 <= i < j < |r| ==> r[i] != r[j]
  {
    if s == [] then []
    else
      var d := Dedup(s[..|s| - 1]);
      if s[|s| - 1] in d then d else d + [s[|s| - 1]]
  }

  /**
   * The first element of Dedup(s) that lies in `S` is the first element of
   * `s` that lies in `S`: deduplication keeps first occurrences in order.
   */
  lemma {:induction false} DedupKeepsFirst(s: seq<string>, S: set<string>, j: nat)
    requires j < |s| && s[j] in S
    requires forall t :: 0 <= t < j ==> s[t] !in S
    ensures exists idx ::
              && 0 <= idx < |Dedup(s)| && Dedup(s)[idx] == s[j]
              && forall t :: 0 <= t < idx ==> Dedup(s)[t] !in S
  {
    var init := s[..|s| - 1];
    var d := Dedup(init);
    if j < |s| - 1 {
      DedupKeepsFirst(init, S, j);
      var idx :| 0 <= idx < |d| && d[idx] == init[j] && forall t :: 0 <= t < idx ==> d[t] !in S;
      assert Dedup(s)[idx] == s[j];
    } else {
      forall x | x in d ensures x !in S {
        var t :| 0 <= t < |init| && init[t] == x;
      }
      assert s[j] !in d;
      assert Dedup(s) == d + [s[j]];
      assert Dedup(s)[|d|] == s[j];
    }
  }
}
