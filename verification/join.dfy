/**
 * The CRM side of `ChannelMetrics`: the date window, the optional text filters,
 * the index of in-window opportunities by lower-cased UTM triple, and the join
 * of one ad against that index (exact triple first, campaign-only as fallback).
 */
module Join {
  import opened Wrappers
  import opened Text
  import opened TimeUtil
  import opened Model

  /** `inRange`: `t` lies in `[from, to]`; a missing bound does not constrain. */
  predicate InRange(t: Instant, from: Option<Instant>, to: Option<Instant>) {
    !(from.Some? && t < from.value) && !(to.Some? && t > to.value)
  }

  /** Both bounds of the window are inclusive, and a missing bound leaves that side open. */
  lemma InRangeBounds(t: Instant, from: Option<Instant>, to: Option<Instant>)
    ensures InRange(t, from, to) <==> (from.None? || from.value <= t) && (to.None? || t <= to.value)
  {
  }

  /** `like`: an empty filter matches everything, otherwise the two must fold to the same string. */
  predicate Like(a: string, b: string) {
    b == "" || EqualFold(a, b)
  }

  /** A filter matches exactly when it is empty or equals the value once both are lower-cased. */
  lemma LikeSpec(a: string, b: string)
    ensures Like(a, b) <==> b == [] || ToLower(a) == ToLower(b)
  {
    EqualFoldIffLowerEqual(a, b);
  }

  /** The index key: the UTM triple. */
  datatype UtmKey = UtmKey(uc: string, us: string, um: string)

  /** The key an opportunity is indexed under: its lower-cased UTM triple. */
  function IndexKey(o: CRMOpp): UtmKey {
    UtmKey(ToLower(o.utmCampaign), ToLower(o.utmSource), ToLower(o.utmMedium))
  }

  /** The key an ad is looked up under: its UTM triple as stored, not lower-cased. */
  function AdUtm(a: AdsPerf): UtmKey {
    UtmKey(a.utmCampaign, a.utmSource, a.utmMedium)
  }

  predicate Distinct<T(==)>(s: seq<T>) {
    forall i, j :: 0 <= i < j < |s| ==> s[i] != s[j]
  }

  /**
   * `crmByUTM`: the buckets of the map, plus the order in which keys were first
   * inserted, which stands for one of Go's map iteration orders.
   */
  datatype CrmIndex = CrmIndex(keys: seq<UtmKey>, buckets: map<UtmKey, seq<CRMOpp>>)

  ghost predicate IndexShape(idx: CrmIndex) {
    && Distinct(idx.keys)
    && (forall k :: k in idx.buckets <==> k in idx.keys)
  }

  /** `crmByUTM[k]`: a missing key reads as the empty slice. */
  function Lookup(idx: CrmIndex, k: UtmKey): seq<CRMOpp> {
    if k in idx.buckets then idx.buckets[k] else []
  }

  /** The loop that builds `crmByUTM`: out-of-window records are skipped, the rest appended to their key's bucket. */
  function BuildIndex(crm: seq<CRMOpp>, from: Option<Instant>, to: Option<Instant>): (idx: CrmIndex)
    ensures IndexShape(idx)
    decreases |crm|
  {
    if crm == [] then CrmIndex([], map[])
    else
      var prev := BuildIndex(crm[..|crm| - 1], from, to);
      var o := crm[|crm| - 1];
      if !InRange(o.createdAt, from, to) then prev
      else
        var k := IndexKey(o);
        if k in prev.buckets then CrmIndex(prev.keys, prev.buckets[k := prev.buckets[k] + [o]])
        else CrmIndex(prev.keys + [k], prev.buckets[k := [o]])
  }

  /** Reference: the in-window opportunities whose lower-cased triple is `k`, in feed order. */
  function ExactFilter(crm: seq<CRMOpp>, from: Option<Instant>, to: Option<Instant>, k: UtmKey): seq<CRMOpp>
    decreases |crm|
  {
    if crm == [] then []
    else
      var o := crm[|crm| - 1];
      ExactFilter(crm[..|crm| - 1], from, to, k)
        + (if InRange(o.createdAt, from, to) && IndexKey(o) == k then [o] else [])
  }

  /** Reference: the in-window opportunities whose lower-cased campaign is `uc`, in feed order. */
  function CampaignFilter(crm: seq<CRMOpp>, from: Option<Instant>, to: Option<Instant>, uc: string): seq<CRMOpp>
    decreases |crm|
  {
    if crm == [] then []
    else
      var o := crm[|crm| - 1];
      CampaignFilter(crm[..|crm| - 1], from, to, uc)
        + (if InRange(o.createdAt, from, to) && ToLower(o.utmCampaign) == uc then [o] else [])
  }

  /** Each bucket of the index holds exactly the in-window records with that key, in feed order. */
  lemma {:induction false} LookupIsExactFilter(crm: seq<CRMOpp>, from: Option<Instant>, to: Option<Instant>, k: UtmKey)
    ensures Lookup(BuildIndex(crm, from, to), k) == ExactFilter(crm, from, to, k)
    decreases |crm|
  {
    if crm != [] {
      LookupIsExactFilter(crm[..|crm| - 1], from, to, k);
    }
  }

  /** Every in-window record's key is among the index keys. */
  lemma {:induction false} IndexKeysCover(crm: seq<CRMOpp>, from: Option<Instant>, to: Option<Instant>)
    ensures forall i :: 0 <= i < |crm| && InRange(crm[i].createdAt, from, to) ==>
              IndexKey(crm[i]) in BuildIndex(crm, from, to).keys
    decreases |crm|
  {
    if crm != [] {
      var init := crm[..|crm| - 1];
      IndexKeysCover(init, from, to);
      var prev := BuildIndex(init, from, to);
      var idx := BuildIndex(crm, from, to);
      assert forall k :: k in prev.keys ==> k in idx.keys;
      forall i | 0 <= i < |crm| && InRange(crm[i].createdAt, from, to)
        ensures IndexKey(crm[i]) in idx.keys
      {
        if i < |crm| - 1 {
          assert crm[i] == init[i];
        }
      }
    }
  }

  /**
   * The fallback loop: walk the index keys in `ks` order and append the bucket of
   * every key whose campaign part equals `uc`.
   */
  function Fallback(idx: CrmIndex, ks: seq<UtmKey>, uc: string): seq<CRMOpp>
    decreases |ks|
  {
    if ks == [] then []
    else
      var k := ks[|ks| - 1];
      Fallback(idx, ks[..|ks| - 1], uc) + (if k.uc == uc then Lookup(idx, k) else [])
  }

  /** `matches`: the exact-triple bucket, or, when that is empty and the campaign is set, the campaign-only fallback. */
  function Matches(idx: CrmIndex, a: AdsPerf): seq<CRMOpp> {
    var exact := Lookup(idx, AdUtm(a));
    if |exact| == 0 && a.utmCampaign != "" then Fallback(idx, idx.keys, a.utmCampaign) else exact
  }

  /** The fallback over the built index, written against the feed. */
  function FallbackOf(crm: seq<CRMOpp>, from: Option<Instant>, to: Option<Instant>, ks: seq<UtmKey>, uc: string): seq<CRMOpp>
    decreases |ks|
  {
    if ks == [] then []
    else
      var k := ks[|ks| - 1];
      FallbackOf(crm, from, to, ks[..|ks| - 1], uc) + (if k.uc == uc then ExactFilter(crm, from, to, k) else [])
  }

  lemma {:induction false} FallbackIsFallbackOf(crm: seq<CRMOpp>, from: Option<Instant>, to: Option<Instant>,
                                                 ks: seq<UtmKey>, uc: string)
    ensures Fallback(BuildIndex(crm, from, to), ks, uc) == FallbackOf(crm, from, to, ks, uc)
    decreases |ks|
  {
    if ks != [] {
      FallbackIsFallbackOf(crm, from, to, ks[..|ks| - 1], uc);
      LookupIsExactFilter(crm, from, to, ks[|ks| - 1]);
    }
  }

  /** Adding one record to the feed adds it to the fallback once if its key is among `ks` and matches `uc`. */
  lemma {:induction false} FallbackOfSnoc(crm: seq<CRMOpp>, o: CRMOpp, from: Option<Instant>, to: Option<Instant>,
                                           ks: seq<UtmKey>, uc: string)
    requires Distinct(ks)
    ensures multiset(FallbackOf(crm + [o], from, to, ks, uc))
         == multiset(FallbackOf(crm, from, to, ks, uc))
            + (if InRange(o.createdAt, from, to) && IndexKey(o).uc == uc && IndexKey(o) in ks
               then multiset{o} else multiset{})
    decreases |ks|
  {
    if ks != [] {
      var init := ks[..|ks| - 1];
      var k := ks[|ks| - 1];
      assert Distinct(init);
      FallbackOfSnoc(crm, o, from, to, init, uc);
      ExactFilterSnoc(crm, o, from, to, k);
      var live := InRange(o.createdAt, from, to) && IndexKey(o).uc == uc;
      var before := multiset(FallbackOf(crm, from, to, init, uc));
      var after := multiset(FallbackOf(crm + [o], from, to, init, uc));
      var piece := if k.uc == uc then ExactFilter(crm, from, to, k) else [];
      var piece' := if k.uc == uc then ExactFilter(crm + [o], from, to, k) else [];
      var extraInit: multiset<CRMOpp> := if live && IndexKey(o) in init then multiset{o} else multiset{};
      var extraK: multiset<CRMOpp> := if live && IndexKey(o) == k then multiset{o} else multiset{};
      assert after == before + extraInit;
      assert multiset(piece') == multiset(piece) + extraK;
      assert multiset(FallbackOf(crm + [o], from, to, ks, uc)) == after + multiset(piece');
      assert multiset(FallbackOf(crm, from, to, ks, uc)) == before + multiset(piece);
      var extra: multiset<CRMOpp> := if live && IndexKey(o) in ks then multiset{o} else multiset{};
      assert IndexKey(o) in ks <==> IndexKey(o) in init || IndexKey(o) == k;
      if IndexKey(o) == k {
        assert IndexKey(o) !in init;
      }
      assert extraInit + extraK == extra;
      MultisetRegroup(before, multiset(piece), extraInit, extraK);
    }
  }

  lemma MultisetRegroup<T>(a: multiset<T>, b: multiset<T>, c: multiset<T>, d: multiset<T>)
    ensures (a + c) + (b + d) == (a + b) + (c + d)
  {
  }

  lemma ExactFilterSnoc(crm: seq<CRMOpp>, o: CRMOpp, from: Option<Instant>, to: Option<Instant>, k: UtmKey)
    ensures ExactFilter(crm + [o], from, to, k)
         == ExactFilter(crm, from, to, k) + (if InRange(o.createdAt, from, to) && IndexKey(o) == k then [o] else [])
  {
    assert (crm + [o])[..|crm|] == crm;
  }

  /** `FallbackOf` over any distinct keys that cover the window's records gathers the campaign's records, in some order. */
  lemma {:induction false} FallbackOfIsCampaign(crm: seq<CRMOpp>, from: Option<Instant>, to: Option<Instant>,
                                                ks: seq<UtmKey>, uc: string)
    requires Distinct(ks)
    requires forall i :: 0 <= i < |crm| && InRange(crm[i].createdAt, from, to) ==> IndexKey(crm[i]) in ks
    ensures multiset(FallbackOf(crm, from, to, ks, uc)) == multiset(CampaignFilter(crm, from, to, uc))
    decreases |crm|
  {
    if crm == [] {
      EmptyFallbackOf(from, to, ks, uc);
    } else {
      var init := crm[..|crm| - 1];
      var o := crm[|crm| - 1];
      assert crm == init + [o];
      assert forall i :: 0 <= i < |init| ==> init[i] == crm[i];
      FallbackOfIsCampaign(init, from, to, ks, uc);
      FallbackOfSnoc(init, o, from, to, ks, uc);
    }
  }

  lemma EmptyFallbackOf(from: Option<Instant>, to: Option<Instant>, ks: seq<UtmKey>, uc: string)
    ensures FallbackOf([], from, to, ks, uc) == []
    decreases |ks|
  {
    if ks != [] {
      EmptyFallbackOf(from, to, ks[..|ks| - 1], uc);
    }
  }

  /**
   * Whatever order the map's keys are visited in, the fallback gathers the same
   * records: every in-window opportunity whose lower-cased campaign equals the
   * ad's campaign, each exactly once.
   */
  lemma FallbackAnyOrder(crm: seq<CRMOpp>, from: Option<Instant>, to: Option<Instant>, ks: seq<UtmKey>, uc: string)
    requires Distinct(ks)
    requires forall k :: k in ks <==> k in BuildIndex(crm, from, to).keys
    ensures multiset(Fallback(BuildIndex(crm, from, to), ks, uc)) == multiset(CampaignFilter(crm, from, to, uc))
  {
    IndexKeysCover(crm, from, to);
    FallbackIsFallbackOf(crm, from, to, ks, uc);
    FallbackOfIsCampaign(crm, from, to, ks, uc);
  }

  /**
   * The join of one ad: the exact bucket is the in-window records with the ad's
   * stored triple; the fallback is taken only when that is empty and the ad's
   * campaign is non-empty, and then yields the in-window records of that campaign.
   */
  lemma MatchesSpec(crm: seq<CRMOpp>, from: Option<Instant>, to: Option<Instant>, a: AdsPerf)
    ensures var m := Matches(BuildIndex(crm, from, to), a);
            var exact := ExactFilter(crm, from, to, AdUtm(a));
      && (exact != [] || a.utmCampaign == "" ==> m == exact)
      && (exact == [] && a.utmCampaign != "" ==>
            multiset(m) == multiset(CampaignFilter(crm, from, to, a.utmCampaign)))
  {
    var idx := BuildIndex(crm, from, to);
    LookupIsExactFilter(crm, from, to, AdUtm(a));
    FallbackAnyOrder(crm, from, to, idx.keys, a.utmCampaign);
  }

  lemma {:induction false} ExactFilterMembers(crm: seq<CRMOpp>, from: Option<Instant>, to: Option<Instant>, k: UtmKey)
    ensures forall o :: o in ExactFilter(crm, from, to, k) ==> InRange(o.createdAt, from, to) && IndexKey(o) == k
    decreases |crm|
  {
    if crm != [] {
      ExactFilterMembers(crm[..|crm| - 1], from, to, k);
    }
  }

  /**
   * The exact join compares the ad's tags as stored against lower-cased keys, so an
   * ad whose campaign tag is not already lower case never joins exactly; the join is
   * case-insensitive only because ingestion lower-cases the tags beforehand.
   */
  lemma UnloweredAdMissesExact(crm: seq<CRMOpp>, from: Option<Instant>, to: Option<Instant>, a: AdsPerf)
    ensures ToLower(a.utmCampaign) != a.utmCampaign ==> ExactFilter(crm, from, to, AdUtm(a)) == []
  {
    ExactFilterMembers(crm, from, to, AdUtm(a));
    var e := ExactFilter(crm, from, to, AdUtm(a));
    if e != [] {
      var o := e[0];
      assert o in e;
      ToLowerIdempotent(o.utmCampaign);
    }
  }

  /** For an ad whose tags are lower case, the exact join is the case-insensitive match on all three tags. */
  lemma LoweredAdJoinsCaseInsensitively(crm: seq<CRMOpp>, from: Option<Instant>, to: Option<Instant>,
                                        a: AdsPerf, o: CRMOpp)
    requires IsNormalized(a.utmCampaign) && IsNormalized(a.utmSource) && IsNormalized(a.utmMedium)
    requires o in crm && InRange(o.createdAt, from, to)
    ensures o in ExactFilter(crm, from, to, AdUtm(a)) <==>
              EqualFold(o.utmCampaign, a.utmCampaign) && EqualFold(o.utmSource, a.utmSource)
              && EqualFold(o.utmMedium, a.utmMedium)
  {
    ExactFilterMembers(crm, from, to, AdUtm(a));
    EqualFoldNormalized(o.utmCampaign, a.utmCampaign);
    EqualFoldNormalized(o.utmSource, a.utmSource);
    EqualFoldNormalized(o.utmMedium, a.utmMedium);
    if IndexKey(o) == AdUtm(a) {
      ExactFilterHas(crm, from, to, o);
    }
  }

  lemma {:induction false} ExactFilterHas(crm: seq<CRMOpp>, from: Option<Instant>, to: Option<Instant>, o: CRMOpp)
    requires o in crm && InRange(o.createdAt, from, to)
    ensures o in ExactFilter(crm, from, to, IndexKey(o))
    decreases |crm|
  {
    var init := crm[..|crm| - 1];
    if crm[|crm| - 1] != o {
      assert crm == init + [crm[|crm| - 1]];
      assert o in init;
      ExactFilterHas(init, from, to, o);
    }
  }
}
