/** Python dicts with string keys, as the code uses them: insertion-ordered,
    one entry per key, an assignment to an existing key keeps its position. */
module OrderedMap {
  import opened Wrappers

  type OMap<V> = seq<(string, V)>

  function Keys<V>(m: OMap<V>): (r: seq<string>)
    ensures |r| == |m|
    ensures forall i :: 0 <= i < |m| ==> r[i] == m[i].0
  {
    if m == [] then [] else [m[0].0] + Keys(m[1..])
  }

  predicate HasKey<V>(m: OMap<V>, k: string)
  {
    k in Keys(m)
  }

  /** No key occurs twice. */
  predicate Unique<V>(m: OMap<V>)
  {
    forall i, j :: 0 <= i < j < |m| ==> m[i].0 != m[j].0
  }

  /** `m.get(k)`: the value stored under `k`, or None. */
  function Lookup<V>(m: OMap<V>, k: string): (r: Option<V>)
    ensures r.None? <==> !HasKey(m, k)
  {
    if m == [] then None
    else if m[0].0 == k then Some(m[0].1)
    else Lookup(m[1..], k)
  }

  /** `m[k] = v`: overwrite in place, or append a new entry at the end. */
  function Put<V>(m: OMap<V>, k: string, v: V): (r: OMap<V>)
    ensures HasKey(m, k) ==> Keys(r) == Keys(m)
    ensures !HasKey(m, k) ==> r == m + [(k, v)]
  {
    if m == [] then [(k, v)]
    else if m[0].0 == k then [(k, v)] + m[1..]
    else [m[0]] + Put(m[1..], k, v)
  }

  /** `if k not in m: m[k] = v`. */
  function PutIfAbsent<V>(m: OMap<V>, k: string, v: V): (r: OMap<V>)
  {
    if HasKey(m, k) then m else m + [(k, v)]
  }

  /** `del m[k]` when `k` is present; KeyError otherwise. */
  function Delete<V>(m: OMap<V>, k: string): (r: Result<OMap<V>>)
    ensures r.Err? <==> !HasKey(m, k)
  {
    if m == [] then Err(MissingKey(k))
    else if m[0].0 == k then Ok(m[1..])
    else match Delete(m[1..], k)
      case Ok(rest) => Ok([m[0]] + rest)
      case Err(e) => Err(e)
  }

  /** `dict(pairs)`: later pairs overwrite earlier ones with the same key. */
  function FromPairs<V>(pairs: seq<(string, V)>): (r: OMap<V>)
  {
    if pairs == [] then [] else Put(FromPairs(pairs[..|pairs| - 1]), pairs[|pairs| - 1].0, pairs[|pairs| - 1].1)
  }

  /** `for (k, v) in pairs: m[k] = v`, that is `m.update(pairs)`. */
  function PutAll<V>(m: OMap<V>, pairs: seq<(string, V)>): (r: OMap<V>)
  {
    if pairs == [] then m else Put(PutAll(m, pairs[..|pairs| - 1]), pairs[|pairs| - 1].0, pairs[|pairs| - 1].1)
  }

  /** `for (k, v) in extra.items(): if k not in m: m[k] = v`. */
  function AddMissing<V>(m: OMap<V>, extra: OMap<V>): (r: OMap<V>)
    decreases |extra|
  {
    if extra == [] then m else AddMissing(PutIfAbsent(m, extra[0].0, extra[0].1), extra[1..])
  }

  /** `{k: f(v) for k, v in m.items()}` */
  function MapValues<A, B>(m: OMap<A>, f: A -> B): (r: OMap<B>)
    ensures |r| == |m|
    ensures forall i :: 0 <= i < |m| ==> r[i] == (m[i].0, f(m[i].1))
  {
    if m == [] then [] else MapValues(m[..|m| - 1], f) + [(m[|m| - 1].0, f(m[|m| - 1].1))]
  }

  // ---- properties ----

  lemma KeysSnoc<V>(m: OMap<V>, x: (string, V))
    ensures Keys(m + [x]) == Keys(m) + [x.0]
  {
  }

  lemma KeysPrefix<V>(m: OMap<V>, k: nat)
    requires k <= |m|
    ensures Keys(m[..k]) == Keys(m)[..k]
  {
  }

  lemma KeysAppend<V>(a: OMap<V>, b: OMap<V>)
    ensures Keys(a + b) == Keys(a) + Keys(b)
  {
  }

  /** Keys are unique exactly when the key sequence has no repeats. */
  lemma UniqueKeys<V>(m: OMap<V>, i: nat)
    requires Unique(m) && i < |m|
    ensures m[i].0 !in Keys(m)[..i] && m[i].0 !in Keys(m)[i + 1..]
  {
  }

  lemma LookupFirst<V>(m: OMap<V>, i: nat, k: string)
    requires i < |m| && m[i].0 == k && k !in Keys(m)[..i]
    ensures Lookup(m, k) == Some(m[i].1)
  {
    if i > 0 {
      assert Keys(m)[1..][..i - 1] == Keys(m)[..i][1..];
      LookupFirst(m[1..], i - 1, k);
    }
  }

  lemma LookupUnique<V>(m: OMap<V>, i: nat)
    requires Unique(m) && i < |m|
    ensures Lookup(m, m[i].0) == Some(m[i].1)
  {
    LookupFirst(m, i, m[i].0);
  }

  /** After `m[k] = v`, `k` maps to `v` and every other key is unaffected. */
  lemma {:induction false} PutLookup<V>(m: OMap<V>, k: string, v: V, k': string)
    ensures Lookup(Put(m, k, v), k') == if k' == k then Some(v) else Lookup(m, k')
  {
    if m != [] && m[0].0 != k {
      PutLookup(m[1..], k, v, k');
    }
  }

  /** Assignment keeps keys unique. */
  lemma {:induction false} PutUnique<V>(m: OMap<V>, k: string, v: V)
    requires Unique(m)
    ensures Unique(Put(m, k, v))
  {
    if m != [] && m[0].0 != k {
      PutUnique(m[1..], k, v);
      var r := Put(m, k, v);
      assert Keys(r) == [m[0].0] + Keys(Put(m[1..], k, v));
      if HasKey(m[1..], k) {
        assert Keys(Put(m[1..], k, v)) == Keys(m[1..]);
      } else {
        assert Put(m[1..], k, v) == m[1..] + [(k, v)];
        assert m[0].0 !in Keys(m[1..]) by {
          assert forall j :: 0 < j < |m| ==> m[0].0 != m[j].0;
        }
      }
    }
  }

  lemma PutIfAbsentSpec<V>(m: OMap<V>, k: string, v: V, k': string)
    ensures Lookup(PutIfAbsent(m, k, v), k') == if k' == k && !HasKey(m, k) then Some(v) else Lookup(m, k')
    ensures Unique(m) ==> Unique(PutIfAbsent(m, k, v))
  {
    if !HasKey(m, k) {
      PutLookup(m, k, v, k');
      if Unique(m) {
        PutUnique(m, k, v);
      }
    }
  }

  /** Entries already present keep their position and value; each missing
      key of `extra` is appended with its value. */
  lemma {:induction false} AddMissingSpec<V>(m: OMap<V>, extra: OMap<V>, k: string)
    ensures |m| <= |AddMissing(m, extra)|
    ensures AddMissing(m, extra)[..|m|] == m
    ensures Lookup(AddMissing(m, extra), k) == if HasKey(m, k) then Lookup(m, k) else Lookup(extra, k)
    ensures Unique(m) ==> Unique(AddMissing(m, extra))
    decreases |extra|
  {
    if extra != [] {
      var k0, v0 := extra[0].0, extra[0].1;
      var m' := PutIfAbsent(m, k0, v0);
      PutIfAbsentSpec(m, k0, v0, k);
      AddMissingSpec(m', extra[1..], k);
      var r := AddMissing(m', extra[1..]);
      assert r[..|m|] == m by {
        assert r[..|m'|] == m';
        assert m'[..|m|] == m;
      }
    }
  }

  /** Assigning keys that are all new appends the pairs in order. */
  lemma {:induction false} PutAllFresh<V>(m: OMap<V>, pairs: seq<(string, V)>)
    requires Unique(pairs)
    requires forall i :: 0 <= i < |pairs| ==> pairs[i].0 !in Keys(m)
    ensures PutAll(m, pairs) == m + pairs
  {
    if pairs != [] {
      var init := pairs[..|pairs| - 1];
      var last := pairs[|pairs| - 1];
      PutAllFresh(m, init);
      assert last.0 !in Keys(m + init) by {
        KeysAppend(m, init);
        UniqueKeys(pairs, |pairs| - 1);
        assert Keys(pairs)[..|pairs| - 1] == Keys(init);
      }
      assert m + init + [last] == m + pairs;
    }
  }

  /** Two maps with unique keys and no key in common concatenate to one. */
  lemma UniqueAppend<V>(a: OMap<V>, b: OMap<V>)
    requires Unique(a) && Unique(b)
    requires forall j :: 0 <= j < |b| ==> b[j].0 !in Keys(a)
    ensures Unique(a + b)
  {
    forall i, j | 0 <= i < j < |a + b|
      ensures (a + b)[i].0 != (a + b)[j].0
    {
      if i < |a| && j >= |a| {
        assert (a + b)[i].0 in Keys(a);
      }
    }
  }

  /** A map built from pairs has unique keys. */
  lemma {:induction false} FromPairsUnique<V>(pairs: seq<(string, V)>)
    ensures Unique(FromPairs(pairs))
  {
    if pairs != [] {
      var init := pairs[..|pairs| - 1];
      FromPairsUnique(init);
      PutUnique(FromPairs(init), pairs[|pairs| - 1].0, pairs[|pairs| - 1].1);
    }
  }

  /** The keys of a map built from pairs are those of the pairs. */
  lemma {:induction false} FromPairsKeys<V>(pairs: seq<(string, V)>, k: string)
    ensures HasKey(FromPairs(pairs), k) <==> k in Keys(pairs)
  {
    if pairs != [] {
      var init := pairs[..|pairs| - 1];
      var last := pairs[|pairs| - 1];
      FromPairsKeys(init, k);
      var m := FromPairs(init);
      var ks := Keys(pairs);
      KeysPrefix(pairs, |pairs| - 1);
      assert ks == ks[..|ks| - 1] + [ks[|ks| - 1]];
      assert k in ks <==> k in Keys(init) || k == last.0;
      if !HasKey(m, last.0) {
        KeysSnoc(m, (last.0, last.1));
      }
      assert HasKey(Put(m, last.0, last.1), k) <==> k == last.0 || HasKey(m, k);
    }
  }

  /** The last pair for a key gives its value. */
  lemma FromPairsLast<V>(pairs: seq<(string, V)>)
    requires pairs != []
    ensures Lookup(FromPairs(pairs), pairs[|pairs| - 1].0) == Some(pairs[|pairs| - 1].1)
  {
    var last := pairs[|pairs| - 1];
    PutLookup(FromPairs(pairs[..|pairs| - 1]), last.0, last.1, last.0);
  }

  /** Assignments keep keys unique. */
  lemma {:induction false} PutAllUnique<V>(m: OMap<V>, pairs: seq<(string, V)>)
    requires Unique(m)
    ensures Unique(PutAll(m, pairs))
  {
    if pairs != [] {
      PutAllUnique(m, pairs[..|pairs| - 1]);
      PutUnique(PutAll(m, pairs[..|pairs| - 1]), pairs[|pairs| - 1].0, pairs[|pairs| - 1].1);
    }
  }

  /** After assigning pairs with distinct keys, each key reads the value
      it was assigned, whatever the map held before. */
  lemma {:induction false} PutAllLookup<V>(m: OMap<V>, pairs: seq<(string, V)>, i: nat)
    requires Unique(pairs) && i < |pairs|
    ensures Lookup(PutAll(m, pairs), pairs[i].0) == Some(pairs[i].1)
  {
    var init, last := pairs[..|pairs| - 1], pairs[|pairs| - 1];
    PutLookup(PutAll(m, init), last.0, last.1, pairs[i].0);
    if i < |pairs| - 1 {
      assert init[i] == pairs[i];
      PutAllLookup(m, init, i);
    }
  }

  /** Assignments never move or drop a key: the old keys stay in front. */
  lemma {:induction false} PutAllKeysPrefix<V>(m: OMap<V>, pairs: seq<(string, V)>)
    ensures |m| <= |PutAll(m, pairs)|
    ensures Keys(PutAll(m, pairs))[..|m|] == Keys(m)
  {
    if pairs != [] {
      var before := PutAll(m, pairs[..|pairs| - 1]);
      PutAllKeysPrefix(m, pairs[..|pairs| - 1]);
      var last := pairs[|pairs| - 1];
      if !HasKey(before, last.0) {
        KeysSnoc(before, last);
      }
    }
  }

  /** Assigning an existing key overwrites its entry where it stands. */
  lemma {:induction false} PutAt<V>(m: OMap<V>, i: nat, v: V)
    requires Unique(m) && i < |m|
    ensures Put(m, m[i].0, v) == m[i := (m[i].0, v)]
  {
    if i > 0 {
      var t := m[1..];
      assert t[i - 1] == m[i] && m[0].0 != m[i].0;
      PutAt(t, i - 1, v);
      assert Put(m, m[i].0, v) == [m[0]] + Put(t, m[i].0, v);
      assert m[i := (m[i].0, v)] == [m[0]] + t[i - 1 := (m[i].0, v)];
    }
  }

  /** Assigning pairs whose keys are, in order, the first keys of `m`
      replaces those entries and keeps the rest. */
  lemma {:induction false} PutAllOverPrefix<V>(m: OMap<V>, pairs: seq<(string, V)>)
    requires Unique(m) && |pairs| <= |m|
    requires Keys(m)[..|pairs|] == Keys(pairs)
    ensures PutAll(m, pairs) == pairs + m[|pairs|..]
  {
    if pairs != [] {
      var n := |pairs| - 1;
      var init := pairs[..n];
      assert Keys(m)[..n] == Keys(init) by {
        forall k | 0 <= k < n ensures Keys(m)[k] == Keys(init)[k] {
          assert Keys(m)[..|pairs|][k] == Keys(pairs)[k];
        }
      }
      PutAllOverPrefix(m, init);
      assert Keys(m)[..|pairs|][n] == Keys(pairs)[n];
      OverLastStep(m, pairs);
    }
  }

  lemma OverLastStep<V>(m: OMap<V>, pairs: seq<(string, V)>)
    requires Unique(m) && 0 < |pairs| <= |m|
    requires Keys(m)[..|pairs| - 1] == Keys(pairs[..|pairs| - 1])
    requires m[|pairs| - 1].0 == pairs[|pairs| - 1].0
    requires PutAll(m, pairs[..|pairs| - 1]) == pairs[..|pairs| - 1] + m[|pairs| - 1..]
    ensures PutAll(m, pairs) == pairs + m[|pairs|..]
  {
    var n := |pairs| - 1;
    var q := pairs[..n] + m[n..];
    assert q[..n] == pairs[..n] && q[n..] == m[n..];
    SameKeysUnique(m, q, n);
    PutAt(q, n, pairs[n].1);
    assert (q[n].0, pairs[n].1) == pairs[n];
    SpliceLast(pairs, m);
  }

  lemma SpliceLast<T>(a: seq<T>, b: seq<T>)
    requires 0 < |a| <= |b|
    ensures (a[..|a| - 1] + b[|a| - 1..])[|a| - 1 := a[|a| - 1]] == a + b[|a|..]
  {
    var n := |a| - 1;
    var r := (a[..n] + b[n..])[n := a[n]];
    forall k | 0 <= k < |r| ensures r[k] == (a + b[|a|..])[k] {
      if k < n {
        assert r[k] == a[..n][k];
      } else if k > n {
        assert r[k] == b[n..][k - n];
      }
    }
  }

  lemma SameKeysUnique<V>(m: OMap<V>, q: OMap<V>, n: nat)
    requires Unique(m) && n <= |m| && |q| == |m|
    requires Keys(m)[..n] == Keys(q[..n]) && q[n..] == m[n..]
    ensures Unique(q)
  {
    assert forall a :: 0 <= a < |q| ==> q[a].0 == Keys(m)[a] by {
      forall a | 0 <= a < |q| ensures q[a].0 == Keys(m)[a] {
        if a < n {
          assert Keys(m)[..n][a] == Keys(q[..n])[a];
        } else {
          assert q[n..][a - n] == m[n..][a - n];
        }
      }
    }
  }

  /** Loading a dict twice is loading it once. */
  lemma PutAllTwice<V>(pairs: seq<(string, V)>)
    requires Unique(pairs)
    ensures PutAll(PutAll([], pairs), pairs) == pairs
  {
    PutAllFresh([], pairs);
    assert [] + pairs == pairs;
    PutAllOverPrefix(pairs, pairs);
    assert pairs[|pairs|..] == [];
  }

  lemma MapValuesKeys<A, B>(m: OMap<A>, f: A -> B)
    ensures Keys(MapValues(m, f)) == Keys(m)
    ensures Unique(m) ==> Unique(MapValues(m, f))
  {
  }

  /** `AddMissing` over one more pair adds that pair last if its key is
      new. */
  lemma {:induction false} AddMissingAppend<V>(m: OMap<V>, extra: OMap<V>, x: (string, V))
    ensures AddMissing(m, extra + [x]) == PutIfAbsent(AddMissing(m, extra), x.0, x.1)
    decreases |extra|
  {
    if extra == [] {
      assert AddMissing(m, [x]) == AddMissing(PutIfAbsent(m, x.0, x.1), []);
    } else {
      assert (extra + [x])[1..] == extra[1..] + [x];
      AddMissingAppend(PutIfAbsent(m, extra[0].0, extra[0].1), extra[1..], x);
    }
  }

  lemma AddMissingSnoc<V>(m: OMap<V>, extra: OMap<V>, i: nat)
    requires i < |extra|
    ensures AddMissing(m, extra[..i + 1]) == PutIfAbsent(AddMissing(m, extra[..i]), extra[i].0, extra[i].1)
  {
    assert extra[..i + 1] == extra[..i] + [extra[i]];
    AddMissingAppend(m, extra[..i], extra[i]);
  }

  /** Deleting a key of a map without repeated keys removes that key and
      keeps every other lookup. */
  lemma {:induction false} DeleteSpec<V>(m: OMap<V>, k: string, k': string)
    requires Unique(m) && HasKey(m, k)
    ensures Delete(m, k).Ok? && Unique(Delete(m, k).value)
    ensures Lookup(Delete(m, k).value, k') == if k' == k then None else Lookup(m, k')
  {
    assert Unique(m[1..]) by {
      forall i, j | 0 <= i < j < |m[1..]| ensures m[1..][i].0 != m[1..][j].0 {
        assert m[1..][i] == m[i + 1] && m[1..][j] == m[j + 1];
      }
    }
    if m[0].0 == k {
      assert !HasKey(m[1..], k) by {
        assert forall j :: 0 <= j < |m[1..]| ==> Keys(m[1..])[j] == m[j + 1].0;
      }
    } else {
      assert HasKey(m[1..], k) by {
        var j :| 0 <= j < |m| && Keys(m)[j] == k;
        assert j > 0 && Keys(m[1..])[j - 1] == k;
      }
      DeleteSpec(m[1..], k, k');
      DeleteSpec(m[1..], k, m[0].0);
      var rest := Delete(m[1..], k).value;
      var r := [m[0]] + rest;
      assert r[1..] == rest;
      assert !HasKey(rest, m[0].0) by {
        assert !HasKey(m[1..], m[0].0) by {
          assert forall j :: 0 <= j < |m[1..]| ==> Keys(m[1..])[j] == m[j + 1].0;
        }
      }
      assert Unique(r) by {
        forall i, j | 0 <= i < j < |r| ensures r[i].0 != r[j].0 {
          if i == 0 {
            assert r[j] == rest[j - 1];
            assert Keys(rest)[j - 1] == r[j].0;
          } else {
            assert r[i] == rest[i - 1] && r[j] == rest[j - 1];
          }
        }
      }
    }
  }
}
