/**
 * `ETL.Run` as a pure function: given the two fetch results (a decoded payload or
 * the fetch error) and the optional `since` instant, produce the new store and the
 * error `Run` returns. Both fetches come before any upsert, so a failure of either
 * leaves the store as it was.
 */
module Etl {
  import opened Wrappers
  import opened Text
  import opened TimeUtil
  import opened Model
  import opened Store
  import opened Clients

  /** An ad-performance entry as the ads feed delivers it. */
  datatype RawAd = RawAd(
    date: string,
    campaignId: string,
    channel: string,
    clicks: int,
    impressions: int,
    cost: real,
    utmCampaign: string,
    utmSource: string,
    utmMedium: string)

  /** An opportunity entry as the CRM feed delivers it. */
  datatype RawCrm = RawCrm(
    opportunityId: string,
    contactEmail: string,
    stage: string,
    amount: real,
    createdAt: string,
    utmCampaign: string,
    utmSource: string,
    utmMedium: string)

  /** What `Run` returns: the store after the run, and the error, if any. */
  datatype RunResult = RunResult(store: Store, err: Option<FetchError>)

  /** An ad record in stored form: non-negative numbers, normalised channel and UTM tags. */
  predicate CleanAd(a: AdsPerf) {
    && a.clicks >= 0 && a.impressions >= 0 && a.cost >= 0.0
    && TrimSpace(a.campaignId) == a.campaignId
    && IsNormalized(a.channel)
    && IsNormalized(a.utmCampaign) && IsNormalized(a.utmSource) && IsNormalized(a.utmMedium)
  }

  /** A CRM record in stored form: non-negative amount, normalised stage and UTM tags. */
  predicate CleanCrm(o: CRMOpp) {
    && o.amount >= 0.0
    && TrimSpace(o.opportunityId) == o.opportunityId
    && TrimSpace(o.contactEmail) == o.contactEmail
    && IsNormalized(o.stage)
    && IsNormalized(o.utmCampaign) && IsNormalized(o.utmSource) && IsNormalized(o.utmMedium)
  }

  /** The store invariant ingestion maintains. */
  predicate WellFormed(s: Store) {
    && Keyed(s)
    && (forall k :: k in s.ads ==> CleanAd(s.ads[k]))
    && (forall k :: k in s.crm ==> CleanCrm(s.crm[k]))
  }

  /**
   * The normalisation of one ads entry: the date parsed (or zero), text trimmed,
   * channel and UTM tags lower-cased, negative numbers clamped to zero.
   */
  function NormalizeAd(r: RawAd): (a: AdsPerf)
    ensures CleanAd(a)
    ensures a.date == ParseYMD(r.date)
    ensures a.campaignId == TrimSpace(r.campaignId)
    ensures a.clicks == (if r.clicks < 0 then 0 else r.clicks)
    ensures a.impressions == (if r.impressions < 0 then 0 else r.impressions)
    ensures a.cost == (if r.cost < 0.0 then 0.0 else r.cost)
  {
    NormalizeIsNormalized(r.channel);
    NormalizeIsNormalized(r.utmCampaign);
    NormalizeIsNormalized(r.utmSource);
    NormalizeIsNormalized(r.utmMedium);
    TrimSpaceIdempotent(r.campaignId);
    AdsPerf(
      ParseYMD(r.date),
      TrimSpace(r.campaignId),
      Normalize(r.channel),
      NonNegInt(r.clicks),
      NonNegInt(r.impressions),
      NonNegReal(r.cost),
      Normalize(r.utmCampaign),
      Normalize(r.utmSource),
      Normalize(r.utmMedium))
  }

  /** The normalisation of one CRM entry: the timestamp parsed (or zero), stage and UTM tags lower-cased. */
  function NormalizeCrm(r: RawCrm): (o: CRMOpp)
    ensures CleanCrm(o)
    ensures o.opportunityId == TrimSpace(r.opportunityId) && o.contactEmail == TrimSpace(r.contactEmail)
    ensures o.createdAt == ParseRFC3339(r.createdAt)
    ensures o.amount == (if r.amount < 0.0 then 0.0 else r.amount)
  {
    NormalizeIsNormalized(r.stage);
    NormalizeIsNormalized(r.utmCampaign);
    NormalizeIsNormalized(r.utmSource);
    NormalizeIsNormalized(r.utmMedium);
    TrimSpaceIdempotent(r.opportunityId);
    TrimSpaceIdempotent(r.contactEmail);
    CRMOpp(
      TrimSpace(r.opportunityId),
      TrimSpace(r.contactEmail),
      Normalize(r.stage),
      NonNegReal(r.amount),
      ParseRFC3339(r.createdAt),
      Normalize(r.utmCampaign),
      Normalize(r.utmSource),
      Normalize(r.utmMedium))
  }

  /** Normalising an ads entry changes its channel and UTM tags only by case and outer whitespace. */
  lemma NormalizeAdFolds(r: RawAd)
    ensures EqualFold(NormalizeAd(r).channel, TrimSpace(r.channel))
    ensures EqualFold(NormalizeAd(r).utmCampaign, TrimSpace(r.utmCampaign))
    ensures EqualFold(NormalizeAd(r).utmSource, TrimSpace(r.utmSource))
    ensures EqualFold(NormalizeAd(r).utmMedium, TrimSpace(r.utmMedium))
  {
    NormalizeIsNormalized(r.channel);
    NormalizeIsNormalized(r.utmCampaign);
    NormalizeIsNormalized(r.utmSource);
    NormalizeIsNormalized(r.utmMedium);
  }

  /** Normalising a CRM entry changes its stage and UTM tags only by case and outer whitespace. */
  lemma NormalizeCrmFolds(r: RawCrm)
    ensures EqualFold(NormalizeCrm(r).stage, TrimSpace(r.stage))
    ensures EqualFold(NormalizeCrm(r).utmCampaign, TrimSpace(r.utmCampaign))
    ensures EqualFold(NormalizeCrm(r).utmSource, TrimSpace(r.utmSource))
    ensures EqualFold(NormalizeCrm(r).utmMedium, TrimSpace(r.utmMedium))
  {
    NormalizeIsNormalized(r.stage);
    NormalizeIsNormalized(r.utmCampaign);
    NormalizeIsNormalized(r.utmSource);
    NormalizeIsNormalized(r.utmMedium);
  }

  /** Normalisation is idempotent on the text fields it touches. */
  lemma NormalizeAdStable(r: RawAd)
    ensures var a := NormalizeAd(r);
      NormalizeAd(RawAd(r.date, a.campaignId, a.channel, a.clicks, a.impressions, a.cost,
                        a.utmCampaign, a.utmSource, a.utmMedium)) == a
  {
    NormalizeIsNormalized(r.channel);
    NormalizeIsNormalized(r.utmCampaign);
    NormalizeIsNormalized(r.utmSource);
    NormalizeIsNormalized(r.utmMedium);
    TrimSpaceIdempotent(r.campaignId);
  }

  /** `since == nil || !t.Before(*since)`: a record at exactly `since` is kept. */
  predicate Kept(since: Option<Instant>, t: Instant) {
    since.None? || !(t < since.value)
  }

  predicate KeptAd(since: Option<Instant>, r: RawAd) {
    Kept(since, DayStart(ParseYMD(r.date)))
  }

  predicate KeptCrm(since: Option<Instant>, r: RawCrm) {
    Kept(since, ParseRFC3339(r.createdAt))
  }

  lemma UpsertAdsWellFormed(s: Store, a: AdsPerf)
    ensures WellFormed(s) && CleanAd(a) ==> WellFormed(UpsertAds(s, a))
  {
  }

  lemma UpsertCrmWellFormed(s: Store, o: CRMOpp)
    ensures WellFormed(s) && CleanCrm(o) ==> WellFormed(UpsertCRM(s, o))
  {
  }

  /** The kept ads entries, normalised, in feed order. */
  function KeptAds(rs: seq<RawAd>, since: Option<Instant>): seq<AdsPerf> {
    Selected(rs, since, KeptAd, NormalizeAd)
  }

  /** The kept CRM entries, normalised, in feed order. */
  function KeptCrms(rs: seq<RawCrm>, since: Option<Instant>): seq<CRMOpp> {
    Selected(rs, since, KeptCrm, NormalizeCrm)
  }

  /** The ads loop of `Run`: each kept entry is normalised and upserted in turn. */
  function IngestAds(s: Store, rs: seq<RawAd>, since: Option<Instant>): (r: Store)
    ensures r.ads == UpsertSeq(s.ads, KeptAds(rs, since), AdKey)
    ensures r.crm == s.crm
    ensures WellFormed(s) ==> WellFormed(r)
    decreases |rs|
  {
    if rs == [] then s
    else
      var prev := IngestAds(s, rs[..|rs| - 1], since);
      var x := rs[|rs| - 1];
      var a := NormalizeAd(x);
      UpsertSeqSnoc(s.ads, KeptAds(rs[..|rs| - 1], since), a, AdKey);
      UpsertAdsWellFormed(prev, a);
      if KeptAd(since, x) then UpsertAds(prev, a) else prev
  }

  /** The CRM loop of `Run`: each kept entry is normalised and upserted in turn. */
  function IngestCrm(s: Store, rs: seq<RawCrm>, since: Option<Instant>): (r: Store)
    ensures r.crm == UpsertSeq(s.crm, KeptCrms(rs, since), CrmKey)
    ensures r.ads == s.ads
    ensures WellFormed(s) ==> WellFormed(r)
    decreases |rs|
  {
    if rs == [] then s
    else
      var prev := IngestCrm(s, rs[..|rs| - 1], since);
      var x := rs[|rs| - 1];
      var o := NormalizeCrm(x);
      UpsertSeqSnoc(s.crm, KeptCrms(rs[..|rs| - 1], since), o, CrmKey);
      UpsertCrmWellFormed(prev, o);
      if KeptCrm(since, x) then UpsertCRM(prev, o) else prev
  }

  /**
   * `ETL.Run`: the ads fetch result is consulted first, then the CRM one; either
   * error is returned with the store untouched. Otherwise the ads entries are
   * ingested, then the CRM entries, and no error is returned.
   */
  function Run(s: Store, ads: Result<seq<RawAd>, FetchError>, crm: Result<seq<RawCrm>, FetchError>,
               since: Option<Instant>): (r: RunResult)
    ensures ads.Err? ==> r == RunResult(s, Some(ads.error))
    ensures ads.Ok? && crm.Err? ==> r == RunResult(s, Some(crm.error))
    ensures r.err.None? <==> ads.Ok? && crm.Ok?
    ensures WellFormed(s) ==> WellFormed(r.store)
  {
    if ads.Err? then RunResult(s, Some(ads.error))
    else if crm.Err? then RunResult(s, Some(crm.error))
    else RunResult(IngestCrm(IngestAds(s, ads.value, since), crm.value, since), None)
  }

  /** Ingesting the same payloads a second time leaves the store as the first run left it. */
  lemma RunIdempotent(s: Store, ads: Result<seq<RawAd>, FetchError>, crm: Result<seq<RawCrm>, FetchError>,
                      since: Option<Instant>)
    ensures Run(Run(s, ads, crm, since).store, ads, crm, since) == Run(s, ads, crm, since)
  {
    if ads.Ok? && crm.Ok? {
      var once := Run(s, ads, crm, since).store;
      var twice := Run(once, ads, crm, since).store;
      UpsertSeqIdempotent(s.ads, KeptAds(ads.value, since), AdKey);
      UpsertSeqIdempotent(s.crm, KeptCrms(crm.value, since), CrmKey);
      assert twice.ads == once.ads && twice.crm == once.crm;
    }
  }

  /**
   * The `since` filter is inclusive. An ads entry dated exactly `since`, and last
   * in the feed with its key, is what the store holds under that key afterwards;
   * one dated before `since` whose key no other entry shares leaves that key's
   * entry (or absence) as it was.
   */
  lemma SinceInclusiveAds(s: Store, rs: seq<RawAd>, since: Instant, i: nat)
    requires i < |rs|
    requires forall j :: 0 <= j < |rs| && j != i ==> AdKey(NormalizeAd(rs[j])) != AdKey(NormalizeAd(rs[i]))
    ensures var k := AdKey(NormalizeAd(rs[i]));
            var r := IngestAds(s, rs, Some(since));
      && (DayStart(ParseYMD(rs[i].date)) == since ==> k in r.ads && r.ads[k] == NormalizeAd(rs[i]))
      && (DayStart(ParseYMD(rs[i].date)) < since ==>
            (k in r.ads <==> k in s.ads) && (k in s.ads ==> r.ads[k] == s.ads[k]))
  {
    if DayStart(ParseYMD(rs[i].date)) == since {
      AdAtSinceKept(s, rs, since, i);
    } else if DayStart(ParseYMD(rs[i].date)) < since {
      AdBeforeSinceSkipped(s, rs, since, i);
    }
  }

  lemma AdAtSinceKept(s: Store, rs: seq<RawAd>, since: Instant, i: nat)
    requires i < |rs| && DayStart(ParseYMD(rs[i].date)) == since
    requires forall j :: i < j < |rs| ==> AdKey(NormalizeAd(rs[j])) != AdKey(NormalizeAd(rs[i]))
    ensures AdKey(NormalizeAd(rs[i])) in IngestAds(s, rs, Some(since)).ads
    ensures IngestAds(s, rs, Some(since)).ads[AdKey(NormalizeAd(rs[i]))] == NormalizeAd(rs[i])
  {
    SelectedLastWins(s.ads, rs, Some(since), KeptAd, NormalizeAd, AdKey, i);
  }

  lemma AdBeforeSinceSkipped(s: Store, rs: seq<RawAd>, since: Instant, i: nat)
    requires i < |rs| && !KeptAd(Some(since), rs[i])
    requires forall j :: 0 <= j < |rs| && j != i ==> AdKey(NormalizeAd(rs[j])) != AdKey(NormalizeAd(rs[i]))
    ensures var k := AdKey(NormalizeAd(rs[i]));
      && (k in IngestAds(s, rs, Some(since)).ads <==> k in s.ads)
      && (k in s.ads ==> IngestAds(s, rs, Some(since)).ads[k] == s.ads[k])
  {
    var k := AdKey(NormalizeAd(rs[i]));
    assert forall j :: 0 <= j < |rs| && KeptAd(Some(since), rs[j]) ==> AdKey(NormalizeAd(rs[j])) != k by {
      forall j | 0 <= j < |rs| && KeptAd(Some(since), rs[j]) ensures AdKey(NormalizeAd(rs[j])) != k {
        assert j != i;
      }
    }
    SelectedUntouched(s.ads, rs, Some(since), KeptAd, NormalizeAd, AdKey, k);
    assert IngestAds(s, rs, Some(since)).ads == UpsertSeq(s.ads, Selected(rs, Some(since), KeptAd, NormalizeAd), AdKey);
  }

  /** The `since` filter on `created_at` is inclusive, as for ads dates. */
  lemma SinceInclusiveCrm(s: Store, rs: seq<RawCrm>, since: Instant, i: nat)
    requires i < |rs|
    requires forall j :: 0 <= j < |rs| && j != i ==> CrmKey(NormalizeCrm(rs[j])) != CrmKey(NormalizeCrm(rs[i]))
    ensures var k := CrmKey(NormalizeCrm(rs[i]));
            var r := IngestCrm(s, rs, Some(since));
      && (ParseRFC3339(rs[i].createdAt) == since ==> k in r.crm && r.crm[k] == NormalizeCrm(rs[i]))
      && (ParseRFC3339(rs[i].createdAt) < since ==>
            (k in r.crm <==> k in s.crm) && (k in s.crm ==> r.crm[k] == s.crm[k]))
  {
    if ParseRFC3339(rs[i].createdAt) == since {
      CrmAtSinceKept(s, rs, since, i);
    } else if ParseRFC3339(rs[i].createdAt) < since {
      CrmBeforeSinceSkipped(s, rs, since, i);
    }
  }

  lemma CrmAtSinceKept(s: Store, rs: seq<RawCrm>, since: Instant, i: nat)
    requires i < |rs| && ParseRFC3339(rs[i].createdAt) == since
    requires forall j :: i < j < |rs| ==> CrmKey(NormalizeCrm(rs[j])) != CrmKey(NormalizeCrm(rs[i]))
    ensures CrmKey(NormalizeCrm(rs[i])) in IngestCrm(s, rs, Some(since)).crm
    ensures IngestCrm(s, rs, Some(since)).crm[CrmKey(NormalizeCrm(rs[i]))] == NormalizeCrm(rs[i])
  {
    SelectedLastWins(s.crm, rs, Some(since), KeptCrm, NormalizeCrm, CrmKey, i);
  }

  lemma CrmBeforeSinceSkipped(s: Store, rs: seq<RawCrm>, since: Instant, i: nat)
    requires i < |rs| && !KeptCrm(Some(since), rs[i])
    requires forall j :: 0 <= j < |rs| && j != i ==> CrmKey(NormalizeCrm(rs[j])) != CrmKey(NormalizeCrm(rs[i]))
    ensures var k := CrmKey(NormalizeCrm(rs[i]));
      && (k in IngestCrm(s, rs, Some(since)).crm <==> k in s.crm)
      && (k in s.crm ==> IngestCrm(s, rs, Some(since)).crm[k] == s.crm[k])
  {
    var k := CrmKey(NormalizeCrm(rs[i]));
    assert forall j :: 0 <= j < |rs| && KeptCrm(Some(since), rs[j]) ==> CrmKey(NormalizeCrm(rs[j])) != k by {
      forall j | 0 <= j < |rs| && KeptCrm(Some(since), rs[j]) ensures CrmKey(NormalizeCrm(rs[j])) != k {
        assert j != i;
      }
    }
    SelectedUntouched(s.crm, rs, Some(since), KeptCrm, NormalizeCrm, CrmKey, k);
    assert IngestCrm(s, rs, Some(since)).crm == UpsertSeq(s.crm, Selected(rs, Some(since), KeptCrm, NormalizeCrm), CrmKey);
  }

  /** Starting from an empty store, every run leaves only clean, correctly keyed records. */
  lemma RunFromEmptyIsWellFormed(ads: Result<seq<RawAd>, FetchError>, crm: Result<seq<RawCrm>, FetchError>,
                                 since: Option<Instant>)
    ensures WellFormed(Run(Empty, ads, crm, since).store)
    ensures forall k :: k in Run(Empty, ads, crm, since).store.ads ==>
              var a := Run(Empty, ads, crm, since).store.ads[k];
              a.clicks >= 0 && a.impressions >= 0 && a.cost >= 0.0
    ensures forall k :: k in Run(Empty, ads, crm, since).store.crm ==>
              Run(Empty, ads, crm, since).store.crm[k].amount >= 0.0
  {
    assert WellFormed(Empty);
    WellFormedClamps(Run(Empty, ads, crm, since).store);
  }

  /** A well-formed store holds no negative count, cost or amount. */
  lemma WellFormedClamps(s: Store)
    requires WellFormed(s)
    ensures forall k :: k in s.ads ==> s.ads[k].clicks >= 0 && s.ads[k].impressions >= 0 && s.ads[k].cost >= 0.0
    ensures forall k :: k in s.crm ==> s.crm[k].amount >= 0.0
  {
  }
}
