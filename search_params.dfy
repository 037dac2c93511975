/** The query-string parameters of the page URL, as the `URLSearchParams`
    interface of the WHATWG URL Standard (section 6.2) keeps them: a list of
    name-value pairs in which a name may repeat. */
module SearchParams {
  import opened JsRuntime

  type Pair = (string, string)

  /** Some pair is named `k`. */
  predicate Has(ps: seq<Pair>, k: string) {
    exists i :: 0 <= i < |ps| && ps[i].0 == k
  }

  /** `get`: the value of the first pair named `k`, or null. */
  function Get(ps: seq<Pair>, k: string): (r: Option<string>)
    ensures r.Some? <==> Has(ps, k)
  {
    if ps == [] then None
    else if ps[0].0 == k then Some(ps[0].1)
    else Get(ps[1..], k)
  }

  /** `getAll`: the values of every pair named `k`, in order. */
  function GetAll(ps: seq<Pair>, k: string): (r: seq<string>)
    ensures |r| <= |ps|
    ensures r == [] <==> !Has(ps, k)
  {
    if ps == [] then []
    else (if ps[0].0 == k then [ps[0].1] else []) + GetAll(ps[1..], k)
  }

  /** The pairs whose name is not in `keys`, in order. */
  function Without(ps: seq<Pair>, keys: set<string>): (r: seq<Pair>)
    ensures |r| <= |ps|
    ensures forall i :: 0 <= i < |r| ==> r[i].0 !in keys
  {
    if ps == [] then []
    else (if ps[0].0 in keys then [] else [ps[0]]) + Without(ps[1..], keys)
  }

  /** `delete(k)`: remove every pair named `k`. */
  function Delete(ps: seq<Pair>, k: string): seq<Pair> {
    Without(ps, {k})
  }

  /** Give the first pair named `k` the value `v` and drop the later ones. */
  function SetFirst(ps: seq<Pair>, k: string, v: string): seq<Pair>
    requires Has(ps, k)
  {
    if ps[0].0 == k then [(k, v)] + Delete(ps[1..], k)
    else [ps[0]] + SetFirst(ps[1..], k, v)
  }

  /** `set(k, v)`: overwrite the first pair named `k` and remove the others,
      or append `(k, v)` when there is none. */
  function Set(ps: seq<Pair>, k: string, v: string): seq<Pair> {
    if Has(ps, k) then SetFirst(ps, k, v) else ps + [(k, v)]
  }

  // ---------------------------------------------------------------------
  // Properties

  lemma {:induction false} GetAllAppend(ps: seq<Pair>, qs: seq<Pair>, k: string)
    ensures GetAll(ps + qs, k) == GetAll(ps, k) + GetAll(qs, k)
  {
    if ps == [] {
      assert ps + qs == qs;
    } else {
      var head := if ps[0].0 == k then [ps[0].1] else [];
      assert (ps + qs)[0] == ps[0];
      assert (ps + qs)[1..] == ps[1..] + qs;
      assert GetAll(ps + qs, k) == head + GetAll(ps[1..] + qs, k);
      GetAllAppend(ps[1..], qs, k);
      assert GetAll(ps, k) == head + GetAll(ps[1..], k);
    }
  }

  lemma {:induction false} WithoutAppend(ps: seq<Pair>, qs: seq<Pair>, keys: set<string>)
    ensures Without(ps + qs, keys) == Without(ps, keys) + Without(qs, keys)
  {
    if ps == [] {
      assert ps + qs == qs;
    } else {
      assert (ps + qs)[1..] == ps[1..] + qs;
      WithoutAppend(ps[1..], qs, keys);
    }
  }

  /** `get` answers the first of the values `getAll` lists. */
  lemma {:induction false} GetIsFirstOfGetAll(ps: seq<Pair>, k: string)
    ensures Get(ps, k) == if GetAll(ps, k) == [] then None else Some(GetAll(ps, k)[0])
  {
    if ps != [] && ps[0].0 != k {
      GetIsFirstOfGetAll(ps[1..], k);
    }
  }

  /** Removing names leaves the values of every other name as they were. */
  lemma {:induction false} GetAllWithout(ps: seq<Pair>, keys: set<string>, k: string)
    ensures GetAll(Without(ps, keys), k) == if k in keys then [] else GetAll(ps, k)
  {
    if ps != [] {
      GetAllWithout(ps[1..], keys, k);
      var head := if ps[0].0 in keys then [] else [ps[0]];
      GetAllAppend(head, Without(ps[1..], keys), k);
    }
  }

  lemma GetWithout(ps: seq<Pair>, keys: set<string>, k: string)
    requires k !in keys
    ensures Get(Without(ps, keys), k) == Get(ps, k)
  {
    GetAllWithout(ps, keys, k);
    GetIsFirstOfGetAll(ps, k);
    GetIsFirstOfGetAll(Without(ps, keys), k);
  }

  /** Two lists that agree once `keys` are removed agree on every other name. */
  lemma GetAgrees(ps: seq<Pair>, qs: seq<Pair>, keys: set<string>, k: string)
    requires Without(ps, keys) == Without(qs, keys) && k !in keys
    ensures Get(ps, k) == Get(qs, k)
  {
    GetWithout(ps, keys, k);
    GetWithout(qs, keys, k);
  }

  /** Removing two sets of names one after the other removes their union. */
  lemma {:induction false} WithoutWithout(ps: seq<Pair>, a: set<string>, b: set<string>)
    ensures Without(Without(ps, a), b) == Without(ps, a + b)
  {
    if ps != [] {
      WithoutWithout(ps[1..], a, b);
      var head := if ps[0].0 in a then [] else [ps[0]];
      WithoutAppend(head, Without(ps[1..], a), b);
    }
  }

  /** Removing names none of the pairs carries changes nothing. */
  lemma {:induction false} WithoutAbsent(ps: seq<Pair>, keys: set<string>)
    requires forall i :: 0 <= i < |ps| ==> ps[i].0 !in keys
    ensures Without(ps, keys) == ps
  {
    if ps != [] {
      WithoutAbsent(ps[1..], keys);
    }
  }

  lemma {:induction false} SetFirstGetAll(ps: seq<Pair>, k: string, v: string)
    requires Has(ps, k)
    ensures GetAll(SetFirst(ps, k, v), k) == [v]
  {
    if ps[0].0 == k {
      GetAllAppend([(k, v)], Delete(ps[1..], k), k);
      GetAllWithout(ps[1..], {k}, k);
    } else {
      assert Has(ps[1..], k) by {
        var i :| 0 <= i < |ps| && ps[i].0 == k;
        assert ps[1..][i - 1].0 == k;
      }
      SetFirstGetAll(ps[1..], k, v);
      GetAllAppend([ps[0]], SetFirst(ps[1..], k, v), k);
    }
  }

  /** After `set(k, v)` there is exactly one pair named `k`, holding `v`. */
  lemma SetGetAll(ps: seq<Pair>, k: string, v: string)
    ensures GetAll(Set(ps, k, v), k) == [v]
    ensures Get(Set(ps, k, v), k) == Some(v)
  {
    if Has(ps, k) {
      SetFirstGetAll(ps, k, v);
    } else {
      GetAllAppend(ps, [(k, v)], k);
    }
    GetIsFirstOfGetAll(Set(ps, k, v), k);
  }

  lemma {:induction false} SetFirstWithout(ps: seq<Pair>, k: string, v: string, keys: set<string>)
    requires Has(ps, k) && k in keys
    ensures Without(SetFirst(ps, k, v), keys) == Without(ps, keys)
  {
    if ps[0].0 == k {
      WithoutAppend([(k, v)], Delete(ps[1..], k), keys);
      WithoutWithout(ps[1..], {k}, keys);
      assert {k} + keys == keys;
    } else {
      assert Has(ps[1..], k) by {
        var i :| 0 <= i < |ps| && ps[i].0 == k;
        assert ps[1..][i - 1].0 == k;
      }
      SetFirstWithout(ps[1..], k, v, keys);
      WithoutAppend([ps[0]], SetFirst(ps[1..], k, v), keys);
    }
  }

  /** `set(k, v)` leaves every pair not named `k` where it was: removing
      `k` (and any other names) from before and after gives the same list. */
  lemma SetKeepsOthers(ps: seq<Pair>, k: string, v: string, keys: set<string>)
    requires k in keys
    ensures Without(Set(ps, k, v), keys) == Without(ps, keys)
  {
    if Has(ps, k) {
      SetFirstWithout(ps, k, v, keys);
    } else {
      WithoutAppend(ps, [(k, v)], keys);
    }
  }

  /** `delete(k)` removes every `k` pair and leaves the other pairs in order. */
  lemma DeleteKeepsOthers(ps: seq<Pair>, k: string, keys: set<string>)
    requires k in keys
    ensures GetAll(Delete(ps, k), k) == []
    ensures Without(Delete(ps, k), keys) == Without(ps, keys)
  {
    GetAllWithout(ps, {k}, k);
    WithoutWithout(ps, {k}, keys);
    assert {k} + keys == keys;
  }

  /** `set` appends only a new name; an existing name keeps its place. */
  lemma {:induction false} SetFirstKeepsPlace(ps: seq<Pair>, k: string, v: string, i: int)
    requires 0 <= i < |ps| && ps[i].0 == k
    requires forall j :: 0 <= j < i ==> ps[j].0 != k
    ensures |SetFirst(ps, k, v)| > i
    ensures SetFirst(ps, k, v)[..i] == ps[..i] && SetFirst(ps, k, v)[i] == (k, v)
  {
    if i > 0 {
      SetFirstKeepsPlace(ps[1..], k, v, i - 1);
      assert ps[..i] == [ps[0]] + ps[1..][..i - 1];
    }
  }

  /** The parameter list as an object: `new URLSearchParams(init)` copies the
      list, and `set` and `delete` change it in place. */
  class UrlSearchParams {
    var entries: seq<Pair>

    constructor (init: seq<Pair>)
      ensures entries == init
    {
      entries := init;
    }

    /** `toString()` is empty exactly when there are no pairs, since a pair
        serializes to at least `=`. */
    predicate IsEmpty()
      reads this
    {
      |entries| == 0
    }

    method SetValue(k: string, v: string)
      modifies this
      ensures entries == Set(old(entries), k, v)
    {
      entries := Set(entries, k, v);
    }

    method DeleteKey(k: string)
      modifies this
      ensures entries == Delete(old(entries), k)
    {
      entries := Delete(entries, k);
    }
  }
}
