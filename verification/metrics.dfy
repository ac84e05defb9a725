/**
 * `ChannelMetrics`: filter the ads, group them by (day, channel, campaign id), add
 * up their spend and the CRM stages they join to, derive the five ratios, and cut
 * a page. Rows come out in the order their group first appears among the ads,
 * which stands for one of Go's map iteration orders.
 */
module Metrics {
  import opened Wrappers
  import opened Text
  import opened TimeUtil
  import opened Model
  import opened Join

  /** The query: an optional date window, five optional text filters, and the page. */
  datatype Filters = Filters(
    from: Option<Instant>,
    to: Option<Instant>,
    channel: string,
    campaign: string,
    utmCampaign: string,
    utmSource: string,
    utmMedium: string,
    limit: int,
    offset: int)

  /** One output row: a group, its sums, its stage counts and the derived ratios. */
  datatype ChannelRow = ChannelRow(
    date: string,
    channel: string,
    campaignId: string,
    clicks: int,
    impressions: int,
    cost: real,
    leads: int,
    opportunities: int,
    closedWon: int,
    revenue: real,
    cpc: real,
    cpa: real,
    cvrLeadToOpp: real,
    cvrOppToWon: real,
    roas: real)

  /** An ad that passes the date window and all five filters. */
  predicate Retained(a: AdsPerf, f: Filters) {
    && InRange(DayStart(a.date), f.from, f.to)
    && Like(a.channel, f.channel) && Like(a.campaignId, f.campaign)
    && Like(a.utmCampaign, f.utmCampaign) && Like(a.utmSource, f.utmSource) && Like(a.utmMedium, f.utmMedium)
  }

  /** The grouping key; the day stands for its `YYYY-MM-DD` form, which determines it. */
  datatype GroupKey = GroupKey(date: CalDate, channel: string, campaignId: string)

  function GroupOf(a: AdsPerf): GroupKey {
    GroupKey(a.date, a.channel, a.campaignId)
  }

  /** Grouping by day is grouping by the formatted day, as Go's string key does. */
  lemma GroupOfIsFormattedKey(a: AdsPerf, b: AdsPerf)
    ensures GroupOf(a) == GroupOf(b) <==>
              FormatYMD(a.date) == FormatYMD(b.date) && a.channel == b.channel && a.campaignId == b.campaignId
  {
    FormatYMDInjective(a.date, b.date);
  }

  // ---------------------------------------------------------------- counters

  /** The additive part of a row. */
  datatype Totals = Totals(
    clicks: int,
    impressions: int,
    cost: real,
    leads: int,
    opportunities: int,
    closedWon: int,
    revenue: real)

  const Zero := Totals(0, 0, 0.0, 0, 0, 0, 0.0)

  function Plus(x: Totals, y: Totals): Totals {
    Totals(x.clicks + y.clicks, x.impressions + y.impressions, x.cost + y.cost,
           x.leads + y.leads, x.opportunities + y.opportunities, x.closedWon + y.closedWon,
           x.revenue + y.revenue)
  }

  /**
   * What one joined opportunity adds to its row: it is re-checked against the
   * window; `lead`, `opportunity` and `closed_won` bump their counter, and only
   * `closed_won` adds its amount to the revenue. Any other stage adds nothing.
   */
  function StageDelta(o: CRMOpp, from: Option<Instant>, to: Option<Instant>): (t: Totals)
    ensures t.clicks == 0 && t.impressions == 0 && t.cost == 0.0
    ensures t.leads == (if InRange(o.createdAt, from, to) && o.stage == "lead" then 1 else 0)
    ensures t.opportunities == (if InRange(o.createdAt, from, to) && o.stage == "opportunity" then 1 else 0)
    ensures t.closedWon == (if InRange(o.createdAt, from, to) && o.stage == "closed_won" then 1 else 0)
    ensures t.revenue == (if InRange(o.createdAt, from, to) && o.stage == "closed_won" then o.amount else 0.0)
  {
    if !InRange(o.createdAt, from, to) then Zero
    else if o.stage == "lead" then Totals(0, 0, 0.0, 1, 0, 0, 0.0)
    else if o.stage == "opportunity" then Totals(0, 0, 0.0, 0, 1, 0, 0.0)
    else if o.stage == "closed_won" then Totals(0, 0, 0.0, 0, 0, 1, o.amount)
    else Zero
  }

  lemma PlusSwap(x: Totals, y: Totals, z: Totals)
    ensures Plus(Plus(x, y), z) == Plus(Plus(x, z), y)
  {
  }

  /** The stage loop over one ad's matches. */
  function Tally(ms: seq<CRMOpp>, from: Option<Instant>, to: Option<Instant>): Totals
    decreases |ms|
  {
    if ms == [] then Zero
    else Plus(Tally(ms[..|ms| - 1], from, to), StageDelta(ms[|ms| - 1], from, to))
  }

  /** Reference: how many in-window matches are at stage `st`. */
  ghost function StageCount(ms: seq<CRMOpp>, from: Option<Instant>, to: Option<Instant>, st: string): nat {
    |set i | 0 <= i < |ms| && InRange(ms[i].createdAt, from, to) && ms[i].stage == st|
  }

  /** Reference: the amounts of the in-window `closed_won` matches, added front to back. */
  function WonRevenue(ms: seq<CRMOpp>, from: Option<Instant>, to: Option<Instant>): real
    decreases |ms|
  {
    if ms == [] then 0.0
    else (if InRange(ms[0].createdAt, from, to) && ms[0].stage == "closed_won" then ms[0].amount else 0.0)
         + WonRevenue(ms[1..], from, to)
  }

  lemma {:induction false} StageCountSnoc(ms: seq<CRMOpp>, o: CRMOpp, from: Option<Instant>, to: Option<Instant>,
                                          st: string)
    ensures StageCount(ms + [o], from, to, st)
         == StageCount(ms, from, to, st) + (if InRange(o.createdAt, from, to) && o.stage == st then 1 else 0)
  {
    var s := ms + [o];
    var before := set i | 0 <= i < |ms| && InRange(ms[i].createdAt, from, to) && ms[i].stage == st;
    var after := set i | 0 <= i < |s| && InRange(s[i].createdAt, from, to) && s[i].stage == st;
    var hit := InRange(o.createdAt, from, to) && o.stage == st;
    var extra: set<int> := if hit then {|ms|} else {};
    forall i ensures i in after <==> i in before + extra {
      if 0 <= i < |ms| {
        assert s[i] == ms[i];
      } else if i == |ms| {
        assert s[i] == o;
      }
    }
    assert after == before + extra;
    assert |ms| !in before;
    assert |before + extra| == |before| + |extra|;
  }

  lemma {:induction false} WonRevenueSnoc(ms: seq<CRMOpp>, o: CRMOpp, from: Option<Instant>, to: Option<Instant>)
    ensures WonRevenue(ms + [o], from, to)
         == WonRevenue(ms, from, to) + (if InRange(o.createdAt, from, to) && o.stage == "closed_won" then o.amount else 0.0)
    decreases |ms|
  {
    if ms != [] {
      assert (ms + [o])[1..] == ms[1..] + [o];
      WonRevenueSnoc(ms[1..], o, from, to);
    }
  }

  /**
   * The stage loop counts exactly the in-window matches at each of the three
   * stages, adds exactly the in-window `closed_won` amounts, and nothing else.
   */
  lemma {:induction false} TallyCounts(ms: seq<CRMOpp>, from: Option<Instant>, to: Option<Instant>)
    ensures var t := Tally(ms, from, to);
      && t.clicks == 0 && t.impressions == 0 && t.cost == 0.0
      && t.leads == StageCount(ms, from, to, "lead")
      && t.opportunities == StageCount(ms, from, to, "opportunity")
      && t.closedWon == StageCount(ms, from, to, "closed_won")
      && t.revenue == WonRevenue(ms, from, to)
    decreases |ms|
  {
    if ms != [] {
      var init := ms[..|ms| - 1];
      var o := ms[|ms| - 1];
      assert ms == init + [o];
      TallyCounts(init, from, to);
      StageCountSnoc(init, o, from, to, "lead");
      StageCountSnoc(init, o, from, to, "opportunity");
      StageCountSnoc(init, o, from, to, "closed_won");
      WonRevenueSnoc(init, o, from, to);
    }
  }

  /** A match at any other stage leaves the counters as they were. */
  lemma OtherStageIgnored(ms: seq<CRMOpp>, o: CRMOpp, from: Option<Instant>, to: Option<Instant>)
    requires o.stage != "lead" && o.stage != "opportunity" && o.stage != "closed_won"
    ensures Tally(ms + [o], from, to) == Tally(ms, from, to)
  {
    assert (ms + [o])[..|ms|] == ms;
  }

  /** Tallying two runs of matches one after the other adds their tallies. */
  lemma {:induction false} TallyAppend(a: seq<CRMOpp>, b: seq<CRMOpp>, from: Option<Instant>, to: Option<Instant>)
    ensures Tally(a + b, from, to) == Plus(Tally(a, from, to), Tally(b, from, to))
    decreases |b|
  {
    if b == [] {
      assert a + b == a;
    } else {
      var init, x := b[..|b| - 1], b[|b| - 1];
      assert (a + b)[..|a + b| - 1] == a + init;
      assert (a + b)[|a + b| - 1] == x;
      TallyAppend(a, init, from, to);
      var ta, ti, d := Tally(a, from, to), Tally(init, from, to), StageDelta(x, from, to);
      assert Tally(a + b, from, to) == Plus(Plus(ta, ti), d);
      assert Tally(b, from, to) == Plus(ti, d);
      PlusAssoc(ta, ti, d);
    }
  }

  lemma PlusAssoc(x: Totals, y: Totals, z: Totals)
    ensures Plus(Plus(x, y), z) == Plus(x, Plus(y, z))
  {
  }

  lemma MultisetRemove<T>(ai: seq<T>, x: T, b1: seq<T>, b2: seq<T>)
    requires multiset(ai + [x]) == multiset(b1 + [x] + b2)
    ensures multiset(ai) == multiset(b1 + b2)
  {
    var l, r := multiset(ai), multiset(b1 + b2);
    assert multiset(ai + [x]) == l + multiset{x};
    assert b1 + [x] + b2 == b1 + ([x] + b2);
    assert multiset(b1 + [x] + b2) == multiset(b1) + multiset{x} + multiset(b2);
    assert r == multiset(b1) + multiset(b2);
    assert l + multiset{x} == r + multiset{x};
    forall y
      ensures l[y] == r[y]
    {
      assert (l + multiset{x})[y] == l[y] + multiset{x}[y];
      assert (r + multiset{x})[y] == r[y] + multiset{x}[y];
    }
  }

  /** The tally depends only on which matches there are, not on their order. */
  lemma {:induction false} TallyPermutation(a: seq<CRMOpp>, b: seq<CRMOpp>, from: Option<Instant>, to: Option<Instant>)
    requires multiset(a) == multiset(b)
    ensures Tally(a, from, to) == Tally(b, from, to)
    decreases |a|
  {
    if a == [] {
      assert |b| == |multiset(b)| == 0;
    } else {
      var x := a[|a| - 1];
      var ai := a[..|a| - 1];
      assert a == ai + [x];
      assert x in multiset(b);
      var j :| 0 <= j < |b| && b[j] == x;
      var b1, b2 := b[..j], b[j + 1..];
      assert b == (b1 + [x]) + b2;
      MultisetRemove(ai, x, b1, b2);
      TallyPermutation(ai, b1 + b2, from, to);
      TallyAppend(b1, b2, from, to);
      TallyAppend(b1 + [x], b2, from, to);
      assert (b1 + [x])[..|b1|] == b1;
      var t1, t2, d := Tally(b1, from, to), Tally(b2, from, to), StageDelta(x, from, to);
      assert Tally(b1 + [x], from, to) == Plus(t1, d);
      assert Tally(a, from, to) == Plus(Plus(t1, t2), d);
      assert Tally(b, from, to) == Plus(Plus(t1, d), t2);
      PlusSwap(t1, t2, d);
    }
  }

  /**
   * Whatever order Go visits the index keys in during the fallback, the stage
   * counts and revenue an ad joins to are the same.
   */
  lemma FallbackTallyAnyOrder(crm: seq<CRMOpp>, from: Option<Instant>, to: Option<Instant>, ks1: seq<UtmKey>,
                              ks2: seq<UtmKey>, uc: string)
    requires Distinct(ks1) && Distinct(ks2)
    requires forall k :: k in ks1 <==> k in BuildIndex(crm, from, to).keys
    requires forall k :: k in ks2 <==> k in BuildIndex(crm, from, to).keys
    ensures Tally(Fallback(BuildIndex(crm, from, to), ks1, uc), from, to)
         == Tally(Fallback(BuildIndex(crm, from, to), ks2, uc), from, to)
  {
    FallbackAnyOrder(crm, from, to, ks1, uc);
    FallbackAnyOrder(crm, from, to, ks2, uc);
    TallyPermutation(Fallback(BuildIndex(crm, from, to), ks1, uc), Fallback(BuildIndex(crm, from, to), ks2, uc), from, to);
  }

  // ---------------------------------------------------------------- grouping

  /** What one retained ad adds to its group: its own numbers plus the tally of its matches. */
  function AdTotals(a: AdsPerf, idx: CrmIndex, f: Filters): Totals {
    Plus(Totals(a.clicks, a.impressions, a.cost, 0, 0, 0, 0.0), Tally(Matches(idx, a), f.from, f.to))
  }

  /** `acc`: the groups in first-seen order, and each group's running totals. */
  datatype Acc = Acc(order: seq<GroupKey>, sums: map<GroupKey, Totals>)

  /** The ads loop: skip what is not retained, open a group on first sight, add the ad's totals. */
  function Accumulate(ads: seq<AdsPerf>, idx: CrmIndex, f: Filters): (acc: Acc)
    ensures Distinct(acc.order)
    ensures forall g :: g in acc.sums <==> g in acc.order
    decreases |ads|
  {
    if ads == [] then Acc([], map[])
    else
      var prev := Accumulate(ads[..|ads| - 1], idx, f);
      var a := ads[|ads| - 1];
      if !Retained(a, f) then prev
      else
        var g := GroupOf(a);
        if g in prev.sums then Acc(prev.order, prev.sums[g := Plus(prev.sums[g], AdTotals(a, idx, f))])
        else Acc(prev.order + [g], prev.sums[g := AdTotals(a, idx, f)])
  }

  /** Reference: the retained ads of group `g`, in feed order. */
  function Members(ads: seq<AdsPerf>, f: Filters, g: GroupKey): seq<AdsPerf>
    decreases |ads|
  {
    if ads == [] then []
    else
      var a := ads[|ads| - 1];
      Members(ads[..|ads| - 1], f, g) + (if Retained(a, f) && GroupOf(a) == g then [a] else [])
  }

  /** Reference: the totals of a run of ads, each contributing its own numbers and its matches. */
  function SumTotals(ms: seq<AdsPerf>, idx: CrmIndex, f: Filters): Totals
    decreases |ms|
  {
    if ms == [] then Zero
    else Plus(SumTotals(ms[..|ms| - 1], idx, f), AdTotals(ms[|ms| - 1], idx, f))
  }

  /**
   * After the ads loop there is a group exactly for each (day, channel, campaign)
   * some retained ad has, and its totals are the sum over the group's retained ads.
   */
  lemma {:induction false} AccumulateSpec(ads: seq<AdsPerf>, idx: CrmIndex, f: Filters, g: GroupKey)
    ensures g in Accumulate(ads, idx, f).sums <==> Members(ads, f, g) != []
    ensures g in Accumulate(ads, idx, f).sums ==>
              Accumulate(ads, idx, f).sums[g] == SumTotals(Members(ads, f, g), idx, f)
    decreases |ads|
  {
    if ads != [] {
      var init := ads[..|ads| - 1];
      var a := ads[|ads| - 1];
      AccumulateSpec(init, idx, f, g);
      var m := Members(init, f, g);
      if Retained(a, f) && GroupOf(a) == g {
        assert Members(ads, f, g) == m + [a];
        assert (m + [a])[..|m|] == m;
        assert SumTotals(m + [a], idx, f) == Plus(SumTotals(m, idx, f), AdTotals(a, idx, f));
      } else {
        assert Members(ads, f, g) == m;
      }
    }
  }

  /** Members are retained ads of the group, drawn from the feed. */
  lemma {:induction false} MembersAreRetained(ads: seq<AdsPerf>, f: Filters, g: GroupKey)
    ensures forall a :: a in Members(ads, f, g) ==> a in ads && Retained(a, f) && GroupOf(a) == g
    decreases |ads|
  {
    if ads != [] {
      var init := ads[..|ads| - 1];
      MembersAreRetained(init, f, g);
      assert forall a :: a in init ==> a in ads;
    }
  }

  /** A retained ad of the feed is a member of its group. */
  lemma {:induction false} RetainedIsMember(ads: seq<AdsPerf>, f: Filters, a: AdsPerf)
    requires a in ads && Retained(a, f)
    ensures a in Members(ads, f, GroupOf(a))
    decreases |ads|
  {
    var init := ads[..|ads| - 1];
    if ads[|ads| - 1] != a {
      assert ads == init + [ads[|ads| - 1]];
      assert a in init;
      RetainedIsMember(init, f, a);
    }
  }

  /** The ads that pass the window and the filters, in feed order. */
  function RetainedAds(ads: seq<AdsPerf>, f: Filters): (r: seq<AdsPerf>)
    ensures forall a :: a in r ==> a in ads && Retained(a, f)
    decreases |ads|
  {
    if ads == [] then []
    else
      var a := ads[|ads| - 1];
      RetainedAds(ads[..|ads| - 1], f) + (if Retained(a, f) then [a] else [])
  }

  /** An ad outside the window or failing a filter contributes nothing: dropping such ads changes no group. */
  lemma {:induction false} SkippedAdsContributeNothing(ads: seq<AdsPerf>, idx: CrmIndex, f: Filters)
    ensures Accumulate(RetainedAds(ads, f), idx, f) == Accumulate(ads, idx, f)
    decreases |ads|
  {
    if ads != [] {
      var init := ads[..|ads| - 1];
      var a := ads[|ads| - 1];
      SkippedAdsContributeNothing(init, idx, f);
      var r := RetainedAds(init, f);
      if Retained(a, f) {
        assert RetainedAds(ads, f) == r + [a];
        assert (r + [a])[..|r|] == r;
      } else {
        assert RetainedAds(ads, f) == r + [];
        assert r + [] == r;
      }
    }
  }

  // ---------------------------------------------------------------- derived ratios and rows

  /** A finished row: the group, its totals, and the five ratios, each 0 on a zero denominator. */
  function Derive(g: GroupKey, t: Totals): (r: ChannelRow)
    ensures t.clicks == 0 ==> r.cpc == 0.0
    ensures t.clicks != 0 ==> r.cpc * (t.clicks as real) == t.cost
    ensures t.leads == 0 ==> r.cpa == 0.0
    ensures t.leads != 0 ==> r.cpa * (t.leads as real) == t.cost
    ensures t.leads == 0 ==> r.cvrLeadToOpp == 0.0
    ensures t.leads != 0 ==> r.cvrLeadToOpp * (t.leads as real) == t.opportunities as real
    ensures t.opportunities == 0 ==> r.cvrOppToWon == 0.0
    ensures t.opportunities != 0 ==> r.cvrOppToWon * (t.opportunities as real) == t.closedWon as real
    ensures t.cost == 0.0 ==> r.roas == 0.0
    ensures t.cost != 0.0 ==> r.roas * t.cost == t.revenue
  {
    ChannelRow(FormatYMD(g.date), g.channel, g.campaignId,
               t.clicks, t.impressions, t.cost, t.leads, t.opportunities, t.closedWon, t.revenue,
               SafeDiv(t.cost, t.clicks as real),
               SafeDiv(t.cost, t.leads as real),
               SafeDiv(t.opportunities as real, t.leads as real),
               SafeDiv(t.closedWon as real, t.opportunities as real),
               SafeDiv(t.revenue, t.cost))
  }

  /** The derivation loop over the groups. */
  function RowsOf(order: seq<GroupKey>, sums: map<GroupKey, Totals>): (rows: seq<ChannelRow>)
    requires forall g :: g in order ==> g in sums
    ensures |rows| == |order|
    decreases |order|
  {
    if order == [] then []
    else RowsOf(order[..|order| - 1], sums) + [Derive(order[|order| - 1], sums[order[|order| - 1]])]
  }

  /** The `i`-th row is the derivation of the `i`-th group. */
  lemma {:induction false} RowsOfAt(order: seq<GroupKey>, sums: map<GroupKey, Totals>, i: int)
    requires forall g :: g in order ==> g in sums
    requires 0 <= i < |order|
    ensures RowsOf(order, sums)[i] == Derive(order[i], sums[order[i]])
    decreases |order|
  {
    if i < |order| - 1 {
      RowsOfAt(order[..|order| - 1], sums, i);
    }
  }

  /** Every row, before pagination. */
  function AllRows(ads: seq<AdsPerf>, crm: seq<CRMOpp>, f: Filters): seq<ChannelRow> {
    var acc := Accumulate(ads, BuildIndex(crm, f.from, f.to), f);
    RowsOf(acc.order, acc.sums)
  }

  /** The totals a group's row carries, stated against the feeds. */
  function GroupTotals(ads: seq<AdsPerf>, crm: seq<CRMOpp>, f: Filters, g: GroupKey): Totals {
    SumTotals(Members(ads, f, g), BuildIndex(crm, f.from, f.to), f)
  }

  /** Every row is the derivation of some group's totals, for a group with at least one retained ad. */
  lemma AllRowsAreGroups(ads: seq<AdsPerf>, crm: seq<CRMOpp>, f: Filters, i: int)
    requires 0 <= i < |AllRows(ads, crm, f)|
    ensures exists g :: Members(ads, f, g) != [] && AllRows(ads, crm, f)[i] == Derive(g, GroupTotals(ads, crm, f, g))
  {
    var acc := Accumulate(ads, BuildIndex(crm, f.from, f.to), f);
    var g := acc.order[i];
    AccumulateSpec(ads, BuildIndex(crm, f.from, f.to), f, g);
    RowsOfAt(acc.order, acc.sums, i);
  }

  /** Every retained ad's group has a row, carrying that group's totals. */
  lemma AllRowsCoverRetained(ads: seq<AdsPerf>, crm: seq<CRMOpp>, f: Filters, a: AdsPerf)
    requires a in ads && Retained(a, f)
    ensures exists i :: 0 <= i < |AllRows(ads, crm, f)|
              && AllRows(ads, crm, f)[i] == Derive(GroupOf(a), GroupTotals(ads, crm, f, GroupOf(a)))
  {
    var idx := BuildIndex(crm, f.from, f.to);
    var acc := Accumulate(ads, idx, f);
    var g := GroupOf(a);
    RetainedIsMember(ads, f, a);
    AccumulateSpec(ads, idx, f, g);
    assert g in acc.order;
    var i :| 0 <= i < |acc.order| && acc.order[i] == g;
    RowsOfAt(acc.order, acc.sums, i);
    var rows := RowsOf(acc.order, acc.sums);
    assert rows == AllRows(ads, crm, f);
    assert acc.sums[g] == GroupTotals(ads, crm, f, g);
    assert rows[i] == Derive(g, GroupTotals(ads, crm, f, g));
  }

  /** No two rows share (date, channel, campaign id). */
  lemma AllRowKeysDistinct(ads: seq<AdsPerf>, crm: seq<CRMOpp>, f: Filters, i: int, j: int)
    requires 0 <= i < j < |AllRows(ads, crm, f)|
    ensures var rows := AllRows(ads, crm, f);
      (rows[i].date, rows[i].channel, rows[i].campaignId) != (rows[j].date, rows[j].channel, rows[j].campaignId)
  {
    var acc := Accumulate(ads, BuildIndex(crm, f.from, f.to), f);
    RowsOfAt(acc.order, acc.sums, i);
    RowsOfAt(acc.order, acc.sums, j);
    FormatYMDInjective(acc.order[i].date, acc.order[j].date);
  }

  /** Each ad re-adds its matches: an ad listed twice counts its joined stages twice. */
  lemma DuplicateAdCountsTwice(a: AdsPerf, crm: seq<CRMOpp>, f: Filters)
    requires Retained(a, f)
    ensures var once := AllRows([a], crm, f);
            var twice := AllRows([a, a], crm, f);
      && |once| == 1 && |twice| == 1
      && twice[0].clicks == 2 * once[0].clicks
      && twice[0].leads == 2 * once[0].leads
      && twice[0].opportunities == 2 * once[0].opportunities
      && twice[0].closedWon == 2 * once[0].closedWon
      && twice[0].revenue == 2.0 * once[0].revenue
  {
    var idx := BuildIndex(crm, f.from, f.to);
    AccumulateRepeated(a, idx, f);
    var t := AdTotals(a, idx, f);
    assert AllRows([a], crm, f) == [Derive(GroupOf(a), t)];
    assert AllRows([a, a], crm, f) == [Derive(GroupOf(a), Plus(t, t))];
  }

  lemma AccumulateRepeated(a: AdsPerf, idx: CrmIndex, f: Filters)
    requires Retained(a, f)
    ensures Accumulate([a], idx, f) == Acc([GroupOf(a)], map[GroupOf(a) := AdTotals(a, idx, f)])
    ensures Accumulate([a, a], idx, f)
         == Acc([GroupOf(a)], map[GroupOf(a) := Plus(AdTotals(a, idx, f), AdTotals(a, idx, f))])
  {
    assert [a, a][..1] == [a];
    assert [a][..0] == [];
  }

  // ---------------------------------------------------------------- pagination

  /** `out[start:end]` as `ChannelMetrics` computes `start` and `end`; a negative offset would not be a valid slice. */
  function Paginate<T>(rows: seq<T>, offset: int, limit: int): (r: seq<T>)
    requires offset >= 0
    ensures offset > |rows| ==> r == []
    ensures offset <= |rows| && limit <= 0 ==> r == rows[offset..]
    ensures limit > 0 ==> |r| <= limit
    ensures offset <= |rows| && limit > 0 ==>
              |r| == (if limit < |rows| - offset then limit else |rows| - offset) && r == rows[offset..offset + |r|]
  {
    if offset > |rows| then []
    else
      var end := if limit <= 0 || offset + limit > |rows| then |rows| else offset + limit;
      rows[offset..end]
  }

  /** `ChannelMetrics`: all rows, then the requested page. */
  function ChannelMetrics(ads: seq<AdsPerf>, crm: seq<CRMOpp>, f: Filters): (rows: seq<ChannelRow>)
    requires f.offset >= 0
    ensures var all := AllRows(ads, crm, f);
      && (f.offset > |all| ==> rows == [])
      && (f.offset <= |all| && f.limit <= 0 ==> |rows| == |all| - f.offset)
      && (f.offset <= |all| && f.limit > 0 ==>
            |rows| == (if f.limit < |all| - f.offset then f.limit else |all| - f.offset))
    ensures f.limit > 0 ==> |rows| <= f.limit
    ensures forall i :: 0 <= i < |rows| ==>
              f.offset + i < |AllRows(ads, crm, f)| && rows[i] == AllRows(ads, crm, f)[f.offset + i]
  {
    var all := AllRows(ads, crm, f);
    PaginateAt(all, f.offset, f.limit);
    Paginate(all, f.offset, f.limit)
  }

  /** A page is a run of consecutive rows starting at the offset. */
  lemma PaginateAt<T>(rows: seq<T>, offset: int, limit: int)
    requires offset >= 0
    ensures forall i :: 0 <= i < |Paginate(rows, offset, limit)| ==>
              offset + i < |rows| && Paginate(rows, offset, limit)[i] == rows[offset + i]
  {
    if offset <= |rows| {
      var end := if limit <= 0 || offset + limit > |rows| then |rows| else offset + limit;
      var page := Paginate(rows, offset, limit);
      assert page == rows[offset..end];
      assert |page| == end - offset;
      forall i | 0 <= i < |page| ensures offset + i < |rows| && page[i] == rows[offset + i] {
      }
    }
  }

  // ---------------------------------------------------------------- the scenario of the repository's metrics test

  const ScenarioDay: CalDate := Date(2025, 8, 1)

  /** The ad of the scenario of the repository's metrics test. */
  const ScenarioAd := AdsPerf(ScenarioDay, "C-1001", "google_ads", 100, 1000, 200.0, "back_to_school", "google", "cpc")

  /** The three opportunities of that scenario: a lead, an opportunity and a 5000 `closed_won`. */
  const ScenarioCrm := [
    CRMOpp("O-1", "", "lead", 0.0, DayStart(ScenarioDay), "back_to_school", "google", "cpc"),
    CRMOpp("O-2", "", "opportunity", 0.0, DayStart(ScenarioDay), "back_to_school", "google", "cpc"),
    CRMOpp("O-3", "", "closed_won", 5000.0, DayStart(ScenarioDay), "back_to_school", "google", "cpc")]

  /** The zero `Filters` value: no window, no text filters, no limit, offset 0. */
  const NoFilters := Filters(None, None, "", "", "", "", "", 0, 0)

  const ScenarioKey := UtmKey("back_to_school", "google", "cpc")

  lemma ScenarioKeys()
    ensures IndexKey(ScenarioCrm[0]) == ScenarioKey
    ensures IndexKey(ScenarioCrm[1]) == ScenarioKey
    ensures IndexKey(ScenarioCrm[2]) == ScenarioKey
    ensures AdUtm(ScenarioAd) == ScenarioKey
  {
    ScenarioTagsLower();
  }

  lemma ScenarioTagsLower()
    ensures ToLower("back_to_school") == "back_to_school"
    ensures ToLower("google") == "google"
    ensures ToLower("cpc") == "cpc"
  {
    TagLower("back_to_school");
    TagLower("google");
    TagLower("cpc");
  }

  lemma TagLower(s: string)
    requires s == "back_to_school" || s == "google" || s == "cpc"
    ensures ToLower(s) == s
  {
    ToLowerOfLower(s);
  }

  /**
   * One retained ad and, with exactly its tags, a lead, an opportunity and a won
   * deal: one row, with one of each stage and the won amount as revenue; CPC and
   * ROAS are non-zero when the ad has clicks and spend.
   */
  lemma OneAdThreeStages(ad: AdsPerf, lead: CRMOpp, opp: CRMOpp, won: CRMOpp)
    requires lead.stage == "lead" && opp.stage == "opportunity" && won.stage == "closed_won"
    requires IndexKey(lead) == AdUtm(ad) && IndexKey(opp) == AdUtm(ad) && IndexKey(won) == AdUtm(ad)
    requires Retained(ad, NoFilters)
    requires ad.clicks > 0 && ad.cost > 0.0 && won.amount > 0.0
    ensures var rows := ChannelMetrics([ad], [lead, opp, won], NoFilters);
      && |rows| == 1
      && rows[0].leads == 1 && rows[0].opportunities == 1
      && rows[0].closedWon == 1 && rows[0].revenue == won.amount
      && rows[0].cpc != 0.0 && rows[0].roas != 0.0
  {
    var crm := [lead, opp, won];
    var idx := BuildIndex(crm, None, None);
    StagesOfThree(lead, opp, won);
    JoinOfThree(ad, lead, opp, won);
    var t := Totals(ad.clicks, ad.impressions, ad.cost, 1, 1, 1, won.amount);
    assert AdTotals(ad, idx, NoFilters) == t;
    AccumulateRepeated(ad, idx, NoFilters);
    assert AllRows([ad], crm, NoFilters) == [Derive(GroupOf(ad), t)];
  }

  lemma StagesOfThree(lead: CRMOpp, opp: CRMOpp, won: CRMOpp)
    requires lead.stage == "lead" && opp.stage == "opportunity" && won.stage == "closed_won"
    ensures Tally([lead, opp, won], None, None) == Totals(0, 0, 0.0, 1, 1, 1, won.amount)
  {
    var crm := [lead, opp, won];
    assert crm[..2] == [lead, opp] && [lead, opp][..1] == [lead] && [lead][..0] == [];
    StageDeltasOfThree(lead, opp, won);
    assert Tally([lead], None, None) == Totals(0, 0, 0.0, 1, 0, 0, 0.0);
    assert Tally([lead, opp], None, None) == Totals(0, 0, 0.0, 1, 1, 0, 0.0);
  }

  lemma StageDeltasOfThree(lead: CRMOpp, opp: CRMOpp, won: CRMOpp)
    requires lead.stage == "lead" && opp.stage == "opportunity" && won.stage == "closed_won"
    ensures StageDelta(lead, None, None) == Totals(0, 0, 0.0, 1, 0, 0, 0.0)
    ensures StageDelta(opp, None, None) == Totals(0, 0, 0.0, 0, 1, 0, 0.0)
    ensures StageDelta(won, None, None) == Totals(0, 0, 0.0, 0, 0, 1, won.amount)
  {
    assert |opp.stage| == 11 && |won.stage| == 10;
  }

  lemma JoinOfThree(ad: AdsPerf, lead: CRMOpp, opp: CRMOpp, won: CRMOpp)
    requires IndexKey(lead) == AdUtm(ad) && IndexKey(opp) == AdUtm(ad) && IndexKey(won) == AdUtm(ad)
    ensures Matches(BuildIndex([lead, opp, won], None, None), ad) == [lead, opp, won]
  {
    var crm := [lead, opp, won];
    var k := AdUtm(ad);
    LookupIsExactFilter(crm, None, None, k);
    assert crm[..2] == [lead, opp] && [lead, opp][..1] == [lead] && [lead][..0] == [];
    assert ExactFilter([lead], None, None, k) == [lead];
    assert ExactFilter([lead, opp], None, None, k) == [lead, opp];
    assert ExactFilter(crm, None, None, k) == crm;
    assert Lookup(BuildIndex(crm, None, None), k) == crm;
  }

  /**
   * The scenario of the repository's own metrics test: one ad on 2025-08-01 and
   * three opportunities that day with the same UTM tags, no filters, gives one row
   * with one `closed_won`, revenue 5000, and non-zero CPC and ROAS.
   */
  lemma BasicScenario()
    ensures var rows := ChannelMetrics([ScenarioAd], ScenarioCrm, NoFilters);
      && |rows| == 1
      && rows[0].closedWon == 1 && rows[0].revenue == 5000.0
      && rows[0].cpc != 0.0 && rows[0].roas != 0.0
  {
    ScenarioKeys();
    OneAdThreeStages(ScenarioAd, ScenarioCrm[0], ScenarioCrm[1], ScenarioCrm[2]);
    assert ScenarioCrm == [ScenarioCrm[0], ScenarioCrm[1], ScenarioCrm[2]];
  }
}
