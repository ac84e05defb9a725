/**
 * The in-memory store: one map of ad records and one of CRM records, each keyed by
 * the record's natural key. Upserts are last-write-wins; reads return a snapshot of
 * the values. Each operation is one atomic step (the read/write lock is not modelled).
 */
module Store {
  import opened Wrappers
  import opened Model

  datatype Store = Store(ads: map<string, AdsPerf>, crm: map<string, CRMOpp>)

  /** `NewMemory()`. */
  const Empty: Store := Store(map[], map[])

  /** Every entry sits under its own record's key, as upserts leave it. */
  predicate Keyed(s: Store) {
    && (forall k :: k in s.ads ==> AdKey(s.ads[k]) == k)
    && (forall k :: k in s.crm ==> CrmKey(s.crm[k]) == k)
  }

  /** `UpsertAds`: `a` replaces whatever was stored under its key; nothing else changes. */
  function UpsertAds(s: Store, a: AdsPerf): (r: Store)
    ensures AdKey(a) in r.ads && r.ads[AdKey(a)] == a
    ensures forall k :: k != AdKey(a) ==> (k in r.ads <==> k in s.ads)
    ensures forall k :: k != AdKey(a) && k in s.ads ==> r.ads[k] == s.ads[k]
    ensures r.crm == s.crm
    ensures |r.ads| == if AdKey(a) in s.ads then |s.ads| else |s.ads| + 1
    ensures Keyed(s) ==> Keyed(r)
  {
    PutSize(s.ads, AdKey(a), a);
    s.(ads := s.ads[AdKey(a) := a])
  }

  /** Writing a key grows a map by one exactly when the key is new. */
  lemma PutSize<V>(m: map<string, V>, k: string, v: V)
    ensures |m[k := v]| == if k in m then |m| else |m| + 1
  {
    if k in m {
      assert m[k := v].Keys == m.Keys;
    } else {
      assert m[k := v].Keys == m.Keys + {k};
    }
  }

  /** `UpsertCRM`: `o` replaces whatever was stored under its id; nothing else changes. */
  function UpsertCRM(s: Store, o: CRMOpp): (r: Store)
    ensures CrmKey(o) in r.crm && r.crm[CrmKey(o)] == o
    ensures forall k :: k != CrmKey(o) ==> (k in r.crm <==> k in s.crm)
    ensures forall k :: k != CrmKey(o) && k in s.crm ==> r.crm[k] == s.crm[k]
    ensures r.ads == s.ads
    ensures |r.crm| == if CrmKey(o) in s.crm then |s.crm| else |s.crm| + 1
    ensures Keyed(s) ==> Keyed(r)
  {
    PutSize(s.crm, CrmKey(o), o);
    s.(crm := s.crm[CrmKey(o) := o])
  }

  /** Upserting the same ad twice leaves the store as upserting it once. */
  lemma UpsertAdsIdempotent(s: Store, a: AdsPerf)
    ensures UpsertAds(UpsertAds(s, a), a) == UpsertAds(s, a)
  {
  }

  /** Upserting the same CRM record twice leaves the store as upserting it once. */
  lemma UpsertCRMIdempotent(s: Store, o: CRMOpp)
    ensures UpsertCRM(UpsertCRM(s, o), o) == UpsertCRM(s, o)
  {
  }

  /** A later record for the same opportunity (a stage change, say) overwrites the earlier one. */
  lemma LaterCRMOverwrites(s: Store, earlier: CRMOpp, later: CRMOpp)
    requires earlier.opportunityId == later.opportunityId
    ensures UpsertCRM(UpsertCRM(s, earlier), later) == UpsertCRM(s, later)
  {
  }

  /** A run of upserts into one map, in order, each value stored under `key` of itself. */
  function UpsertSeq<V>(m: map<string, V>, vs: seq<V>, key: V -> string): map<string, V>
    decreases |vs|
  {
    if vs == [] then m
    else UpsertSeq(m, vs[..|vs| - 1], key)[key(vs[|vs| - 1]) := vs[|vs| - 1]]
  }

  lemma UpsertSeqSnoc<V>(m: map<string, V>, vs: seq<V>, v: V, key: V -> string)
    ensures UpsertSeq(m, vs + [v], key) == UpsertSeq(m, vs, key)[key(v) := v]
  {
    assert (vs + [v])[..|vs|] == vs;
  }

  /** The last value in `vs` whose key is `k`: the one a run of upserts leaves behind. */
  function LastWithKey<V>(vs: seq<V>, key: V -> string, k: string): (r: Option<V>)
    ensures r.Some? ==> r.value in vs && key(r.value) == k
    ensures r.None? ==> forall i :: 0 <= i < |vs| ==> key(vs[i]) != k
    decreases |vs|
  {
    if vs == [] then None
    else if key(vs[|vs| - 1]) == k then Some(vs[|vs| - 1])
    else LastWithKey(vs[..|vs| - 1], key, k)
  }

  /**
   * Last write wins: after a run of upserts, a key holds the last value written
   * under it; a key nothing was written under keeps its old entry, or stays absent.
   */
  lemma {:induction false} UpsertSeqLastWins<V>(m: map<string, V>, vs: seq<V>, key: V -> string, k: string)
    ensures LastWithKey(vs, key, k).Some? ==>
              k in UpsertSeq(m, vs, key) && UpsertSeq(m, vs, key)[k] == LastWithKey(vs, key, k).value
    ensures LastWithKey(vs, key, k).None? ==>
              (k in UpsertSeq(m, vs, key) <==> k in m)
              && (k in m ==> UpsertSeq(m, vs, key)[k] == m[k])
    decreases |vs|
  {
    if vs != [] {
      UpsertSeqLastWins(m, vs[..|vs| - 1], key, k);
    }
  }

  lemma LastWithKeySnoc<V>(vs: seq<V>, v: V, key: V -> string, k: string)
    ensures LastWithKey(vs + [v], key, k) == if key(v) == k then Some(v) else LastWithKey(vs, key, k)
  {
    assert (vs + [v])[..|vs|] == vs;
  }

  /**
   * The entries of a feed that pass `keep` (under the run's parameter `p`), each
   * mapped through `norm`, in feed order: what an ingestion loop upserts.
   */
  function Selected<P, R, V>(rs: seq<R>, p: P, keep: (P, R) -> bool, norm: R -> V): (vs: seq<V>)
    ensures |vs| <= |rs|
    decreases |rs|
  {
    if rs == [] then []
    else
      var prev := Selected(rs[..|rs| - 1], p, keep, norm);
      if keep(p, rs[|rs| - 1]) then prev + [norm(rs[|rs| - 1])] else prev
  }

  /** A selected entry that no later entry's key shadows is the last one written under its key. */
  lemma {:induction false} LastSelected<P, R, V>(rs: seq<R>, p: P, keep: (P, R) -> bool, norm: R -> V,
                                                 key: V -> string, i: nat)
    requires i < |rs| && keep(p, rs[i])
    requires forall j :: i < j < |rs| ==> key(norm(rs[j])) != key(norm(rs[i]))
    ensures LastWithKey(Selected(rs, p, keep, norm), key, key(norm(rs[i]))) == Some(norm(rs[i]))
    decreases |rs|
  {
    var init := rs[..|rs| - 1];
    var last := rs[|rs| - 1];
    var prev := Selected(init, p, keep, norm);
    if keep(p, last) {
      LastWithKeySnoc(prev, norm(last), key, key(norm(rs[i])));
    }
    if i < |rs| - 1 {
      LastSelected(init, p, keep, norm, key, i);
    }
  }

  /** A key no selected entry carries is never written. */
  lemma {:induction false} NoneSelected<P, R, V>(rs: seq<R>, p: P, keep: (P, R) -> bool, norm: R -> V,
                                                 key: V -> string, k: string)
    requires forall j :: 0 <= j < |rs| && keep(p, rs[j]) ==> key(norm(rs[j])) != k
    ensures LastWithKey(Selected(rs, p, keep, norm), key, k).None?
    decreases |rs|
  {
    if rs != [] {
      var init := rs[..|rs| - 1];
      var last := rs[|rs| - 1];
      var prev := Selected(init, p, keep, norm);
      if keep(p, last) {
        LastWithKeySnoc(prev, norm(last), key, k);
      }
      NoneSelected(init, p, keep, norm, key, k);
    }
  }

  /** Upserting the selected entries leaves an entry no later entry shadows under its key. */
  lemma SelectedLastWins<P, R, V>(m: map<string, V>, rs: seq<R>, p: P, keep: (P, R) -> bool, norm: R -> V,
                                  key: V -> string, i: nat)
    requires i < |rs| && keep(p, rs[i])
    requires forall j :: i < j < |rs| ==> key(norm(rs[j])) != key(norm(rs[i]))
    ensures key(norm(rs[i])) in UpsertSeq(m, Selected(rs, p, keep, norm), key)
    ensures UpsertSeq(m, Selected(rs, p, keep, norm), key)[key(norm(rs[i]))] == norm(rs[i])
  {
    LastSelected(rs, p, keep, norm, key, i);
    UpsertSeqLastWins(m, Selected(rs, p, keep, norm), key, key(norm(rs[i])));
  }

  /** Upserting the selected entries leaves a key none of them carries as it was. */
  lemma SelectedUntouched<P, R, V>(m: map<string, V>, rs: seq<R>, p: P, keep: (P, R) -> bool, norm: R -> V,
                                   key: V -> string, k: string)
    requires forall j :: 0 <= j < |rs| && keep(p, rs[j]) ==> key(norm(rs[j])) != k
    ensures k in UpsertSeq(m, Selected(rs, p, keep, norm), key) <==> k in m
    ensures k in m ==> UpsertSeq(m, Selected(rs, p, keep, norm), key)[k] == m[k]
  {
    NoneSelected(rs, p, keep, norm, key, k);
    UpsertSeqLastWins(m, Selected(rs, p, keep, norm), key, k);
  }

  /** Repeating a run of upserts changes nothing. */
  lemma UpsertSeqIdempotent<V>(m: map<string, V>, vs: seq<V>, key: V -> string)
    ensures UpsertSeq(UpsertSeq(m, vs, key), vs, key) == UpsertSeq(m, vs, key)
  {
    var once := UpsertSeq(m, vs, key);
    var twice := UpsertSeq(once, vs, key);
    forall k
      ensures (k in twice <==> k in once) && (k in once ==> twice[k] == once[k])
    {
      UpsertSeqLastWins(m, vs, key, k);
      UpsertSeqLastWins(once, vs, key, k);
    }
    assert twice == once;
  }

  /** The values of a map, one per key, in an unspecified order (Go's map iteration). */
  method Values<V(==)>(m: map<string, V>) returns (out: seq<V>, ghost keys: seq<string>)
    ensures |out| == |m|
    ensures forall i :: 0 <= i < |out| ==> out[i] in m.Values
    ensures forall k :: k in m ==> m[k] in out
    ensures |keys| == |m|
    ensures forall i :: 0 <= i < |keys| ==> keys[i] in m && out[i] == m[keys[i]]
    ensures forall i, j :: 0 <= i < j < |keys| ==> keys[i] != keys[j]
    ensures forall k :: k in m ==> k in keys
  {
    out, keys := [], [];
    var rest := m.Keys;
    while rest != {}
      invariant rest <= m.Keys
      invariant |out| == |keys| && |keys| + |rest| == |m|
      invariant forall i :: 0 <= i < |keys| ==> keys[i] in m && keys[i] !in rest && out[i] == m[keys[i]]
      invariant forall i, j :: 0 <= i < j < |keys| ==> keys[i] != keys[j]
      invariant forall k :: k in m ==> k in rest || k in keys
      decreases |rest|
    {
      var k :| k in rest;
      out, keys := out + [m[k]], keys + [k];
      rest := rest - {k};
    }
    forall k | k in m ensures m[k] in out {
      var i :| 0 <= i < |keys| && keys[i] == k;
      assert out[i] == m[k];
    }
  }

  /** `AllAds`: exactly the stored ad records, one per key. */
  method AllAds(s: Store) returns (out: seq<AdsPerf>)
    ensures |out| == |s.ads|
    ensures forall i :: 0 <= i < |out| ==> out[i] in s.ads.Values
    ensures forall k :: k in s.ads ==> s.ads[k] in out
    ensures Keyed(s) ==> forall i :: 0 <= i < |out| ==> AdKey(out[i]) in s.ads && s.ads[AdKey(out[i])] == out[i]
    ensures Keyed(s) ==> forall i, j :: 0 <= i < j < |out| ==> AdKey(out[i]) != AdKey(out[j])
  {
    ghost var keys;
    out, keys := Values(s.ads);
  }

  /** `AllCRM`: exactly the stored CRM records, one per opportunity id. */
  method AllCRM(s: Store) returns (out: seq<CRMOpp>)
    ensures |out| == |s.crm|
    ensures forall i :: 0 <= i < |out| ==> out[i] in s.crm.Values
    ensures forall k :: k in s.crm ==> s.crm[k] in out
    ensures Keyed(s) ==> forall i :: 0 <= i < |out| ==> CrmKey(out[i]) in s.crm && s.crm[CrmKey(out[i])] == out[i]
    ensures Keyed(s) ==> forall i, j :: 0 <= i < j < |out| ==> CrmKey(out[i]) != CrmKey(out[j])
  {
    ghost var keys;
    out, keys := Values(s.crm);
  }

  /** After upserting `a`, a snapshot holds `a` and no other record under `a`'s key. */
  method SnapshotAfterUpsert(s: Store, a: AdsPerf) returns (out: seq<AdsPerf>)
    requires Keyed(s)
    ensures a in out
    ensures forall i :: 0 <= i < |out| && AdKey(out[i]) == AdKey(a) ==> out[i] == a
  {
    out := AllAds(UpsertAds(s, a));
  }
}
