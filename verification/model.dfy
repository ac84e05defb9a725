/** The two stored record kinds and the natural keys the store uses for idempotent upserts. */
module Model {
  import opened TimeUtil

  /** One row of ad performance: a day's clicks, impressions and spend for a campaign on a channel. */
  datatype AdsPerf = AdsPerf(
    date: CalDate,
    campaignId: string,
    channel: string,
    clicks: int,
    impressions: int,
    cost: real,
    utmCampaign: string,
    utmSource: string,
    utmMedium: string)

  /** One CRM opportunity: its stage (`lead`, `opportunity`, `closed_won`, ...), amount and UTM tags. */
  datatype CRMOpp = CRMOpp(
    opportunityId: string,
    contactEmail: string,
    stage: string,
    amount: real,
    createdAt: Instant,
    utmCampaign: string,
    utmSource: string,
    utmMedium: string)

  /** `AdsPerf.Key()`: `YYYY-MM-DD|campaign_id|channel`. */
  function AdKey(a: AdsPerf): string {
    FormatYMD(a.date) + "|" + a.campaignId + "|" + a.channel
  }

  /** `CRMOpp.Key()`: the opportunity id. */
  function CrmKey(o: CRMOpp): string {
    o.opportunityId
  }

  lemma SplitAtBar(c1: string, t1: string, c2: string, t2: string)
    requires '|' !in c1 && '|' !in c2
    requires c1 + "|" + t1 == c2 + "|" + t2
    ensures c1 == c2 && t1 == t2
  {
    var s1 := c1 + "|" + t1;
    var s2 := c2 + "|" + t2;
    var m := if |c1| < |c2| then |c1| else |c2|;
    assert s1[m] == s2[m];
    assert |c1| == |c2|;
    assert c1 == s1[..|c1|] && c2 == s2[..|c2|];
    assert t1 == s1[|c1| + 1..] && t2 == s2[|c2| + 1..];
  }

  /**
   * The ad key identifies the natural key (date, campaign id, channel): equal
   * natural keys give equal keys, and, as long as campaign ids hold no `|`,
   * equal keys come only from equal natural keys. Clicks, cost and UTM tags play no part.
   */
  lemma AdKeyIsNaturalKey(a: AdsPerf, b: AdsPerf)
    ensures a.date == b.date && a.campaignId == b.campaignId && a.channel == b.channel ==> AdKey(a) == AdKey(b)
    ensures '|' !in a.campaignId && '|' !in b.campaignId && AdKey(a) == AdKey(b) ==>
              a.date == b.date && a.campaignId == b.campaignId && a.channel == b.channel
  {
    var ka := AdKey(a);
    var kb := AdKey(b);
    if '|' !in a.campaignId && '|' !in b.campaignId && ka == kb {
      assert ka[..10] == FormatYMD(a.date) && kb[..10] == FormatYMD(b.date);
      FormatYMDInjective(a.date, b.date);
      assert ka[11..] == a.campaignId + "|" + a.channel;
      assert kb[11..] == b.campaignId + "|" + b.channel;
      SplitAtBar(a.campaignId, a.channel, b.campaignId, b.channel);
    }
  }

  /** With a `|` inside a campaign id, two different natural keys share one ad key. */
  lemma AdKeyCollision(d: CalDate)
    ensures AdKey(AdsPerf(d, "x|y", "z", 0, 0, 0.0, "", "", ""))
         == AdKey(AdsPerf(d, "x", "y|z", 0, 0, 0.0, "", "", ""))
  {
  }
}
