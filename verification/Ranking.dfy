/** Discovery: a hard filter that only removes, then a ranking of the survivors by score and id. */
module Ranking {
  import opened Outcomes
  import opened Products
  import opened Similarity
  import opened Sorting

  datatype Listing = Listing(
    id: string, provider: string, taxonomy: string, words: Counts, active: bool, expires: int, inputRef: string, outputRef: string,
    price: real, currency: string, p95: real, retainsNothing: bool, stake: real, slashable: bool)

  datatype Ceiling = Ceiling(amount: real, currency: string)

  /** Weights the requester gives; the rest default. */
  datatype Prefs = Prefs(price: Option<real>, latency: Option<real>, trust: Option<real>, schema: Option<real>, stake: Option<real>)

  datatype Query = Query(
    taxonomy: string, semantic: bool, words: Counts, mustValidate: bool, inputRef: Option<string>, outputRef: Option<string>,
    ceiling: Option<Ceiling>, target: Option<real>, noRetention: bool, minTrust: Option<real>, minJobs: Option<int>, prefs: Prefs)

  datatype Standing = Standing(trust: real, jobs: int, history: real, lastSettled: Option<int>)

  /** The clock and the providers' standing, resolved once per query. */
  datatype Context = Context(now: int, standing: string -> Standing)

  // ---- the hard filter --------------------------------------------------------------------

  ghost predicate CapabilityMatches(q: Query, l: Listing) {
    || l.taxonomy == q.taxonomy
    || (q.semantic && AtLeastHalf(Dot(q.words, l.words), Dot(q.words, q.words), Dot(l.words, l.words)))
  }

  predicate WithinBounds(q: Query, ctx: Context, l: Listing) {
    && (q.mustValidate ==> (q.inputRef.Some? ==> l.inputRef == q.inputRef.value) && (q.outputRef.Some? ==> l.outputRef == q.outputRef.value))
    && (q.ceiling.Some? ==> l.currency == q.ceiling.value.currency && l.price <= q.ceiling.value.amount)
    && (q.target.Some? ==> l.p95 <= q.target.value)
    && (q.noRetention ==> l.retainsNothing)
    && (q.minTrust.Some? ==> ctx.standing(l.provider).trust >= q.minTrust.value)
    && (q.minJobs.Some? ==> ctx.standing(l.provider).jobs >= q.minJobs.value)
  }

  ghost predicate Survives(q: Query, ctx: Context, l: Listing) {
    l.active && l.expires > ctx.now && CapabilityMatches(q, l) && WithinBounds(q, ctx, l)
  }

  ghost function Survivors(q: Query, ctx: Context, ls: seq<Listing>): seq<Listing> {
    if ls == [] then []
    else Survivors(q, ctx, ls[..|ls| - 1]) + if Survives(q, ctx, ls[|ls| - 1]) then [ls[|ls| - 1]] else []
  }

  /** The ids of the listings that a query drops, in stored order. */
  ghost function Dropped(q: Query, ctx: Context, ls: seq<Listing>): seq<string> {
    if ls == [] then []
    else Dropped(q, ctx, ls[..|ls| - 1]) + if Survives(q, ctx, ls[|ls| - 1]) then [] else [ls[|ls| - 1].id]
  }

  method MatchesCapability(q: Query, l: Listing) returns (ok: bool)
    ensures ok <==> CapabilityMatches(q, l)
  {
    if l.taxonomy == q.taxonomy { return true; }
    if !q.semantic { return false; }
    var dot := DotProduct(q.words, l.words);
    var normQ := DotProduct(q.words, q.words);
    var normL := DotProduct(l.words, l.words);
    ok := AtLeastHalf(dot, normQ, normL);
  }

  /** Every listing ends in exactly one of the two lists, in stored order. */
  method HardFilter(q: Query, ctx: Context, listings: seq<Listing>) returns (survivors: seq<Listing>, removed: seq<string>)
    ensures survivors == Survivors(q, ctx, listings)
    ensures removed == Dropped(q, ctx, listings)
  {
    survivors, removed := [], [];
    var i := 0;
    while i < |listings|
      invariant 0 <= i <= |listings| && survivors == Survivors(q, ctx, listings[..i])
      invariant removed == Dropped(q, ctx, listings[..i])
    {
      var l := listings[i];
      assert listings[..i + 1][..i] == listings[..i];
      i := i + 1;
      if !l.active || l.expires <= ctx.now { removed := removed + [l.id]; continue; }
      var matches := MatchesCapability(q, l);
      hide CapabilityMatches;
      if !matches { removed := removed + [l.id]; continue; }
      if q.mustValidate {
        if q.inputRef.Some? && l.inputRef != q.inputRef.value { removed := removed + [l.id]; continue; }
        if q.outputRef.Some? && l.outputRef != q.outputRef.value { removed := removed + [l.id]; continue; }
      }
      if q.ceiling.Some? {
        if l.currency != q.ceiling.value.currency { removed := removed + [l.id]; continue; }
        if l.price > q.ceiling.value.amount { removed := removed + [l.id]; continue; }
      }
      if q.target.Some? && l.p95 > q.target.value { removed := removed + [l.id]; continue; }
      if q.noRetention && !l.retainsNothing { removed := removed + [l.id]; continue; }
      var standing := ctx.standing(l.provider);
      if q.minTrust.Some? && standing.trust < q.minTrust.value { removed := removed + [l.id]; continue; }
      if q.minJobs.Some? && standing.jobs < q.minJobs.value { removed := removed + [l.id]; continue; }
      survivors := survivors + [l];
    }
    assert listings[..|listings|] == listings;
  }

  /** `q` asks at least everything that `wide` asks. */
  ghost predicate Narrower(q: Query, wide: Query) {
    && q.taxonomy == wide.taxonomy && q.words == wide.words && (q.semantic ==> wide.semantic)
    && (wide.mustValidate ==> q.mustValidate)
    && (wide.inputRef.Some? ==> q.inputRef == wide.inputRef) && (wide.outputRef.Some? ==> q.outputRef == wide.outputRef)
    && (wide.ceiling.Some? ==> q.ceiling.Some? && q.ceiling.value.currency == wide.ceiling.value.currency
                               && q.ceiling.value.amount <= wide.ceiling.value.amount)
    && (wide.target.Some? ==> q.target.Some? && q.target.value <= wide.target.value)
    && (wide.noRetention ==> q.noRetention)
    && (wide.minTrust.Some? ==> q.minTrust.Some? && q.minTrust.value >= wide.minTrust.value)
    && (wide.minJobs.Some? ==> q.minJobs.Some? && q.minJobs.value >= wide.minJobs.value)
  }

  lemma NarrowerSurvives(q: Query, wide: Query, ctx: Context, l: Listing)
    requires Narrower(q, wide) && Survives(q, ctx, l)
    ensures Survives(wide, ctx, l)
  {
    hide AtLeastHalf, Dot;
  }

  /** Tightening a bound can only shrink the survivors: filtering by the wider query first changes
    nothing. */
  lemma {:induction false} NarrowerKeepsFewer(q: Query, wide: Query, ctx: Context, ls: seq<Listing>)
    requires Narrower(q, wide)
    ensures Survivors(q, ctx, Survivors(wide, ctx, ls)) == Survivors(q, ctx, ls)
    decreases |ls|
  {
    if ls != [] {
      var n := |ls| - 1;
      NarrowerKeepsFewer(q, wide, ctx, ls[..n]);
      var kept := Survivors(wide, ctx, ls[..n]);
      hide Narrower, Survives;
      if Survives(q, ctx, ls[n]) { NarrowerSurvives(q, wide, ctx, ls[n]); }
      if Survives(wide, ctx, ls[n]) {
        assert (kept + [ls[n]])[..|kept|] == kept;
      } else {
        assert kept + [] == kept;
      }
    }
  }

  /** A listing is dropped exactly for one of these reasons. */
  lemma DroppedIff(q: Query, ctx: Context, l: Listing)
    ensures !Survives(q, ctx, l) <==>
      || !l.active || l.expires <= ctx.now || !CapabilityMatches(q, l)
      || (q.mustValidate && q.inputRef.Some? && q.inputRef != Some(l.inputRef))
      || (q.mustValidate && q.outputRef.Some? && q.outputRef != Some(l.outputRef))
      || (q.ceiling.Some? && (l.currency != q.ceiling.value.currency || l.price > q.ceiling.value.amount))
      || (q.target.Some? && l.p95 > q.target.value)
      || (q.noRetention && !l.retainsNothing)
      || (q.minTrust.Some? && ctx.standing(l.provider).trust < q.minTrust.value)
      || (q.minJobs.Some? && ctx.standing(l.provider).jobs < q.minJobs.value)
  {
    hide CapabilityMatches;
  }

  // ---- scores -----------------------------------------------------------------------------

  datatype Weights = Weights(price: real, latency: real, trust: real, schema: real, stake: real) {
    function Sum(): real {
      price + latency + trust + schema + stake
    }
  }

  function Or(x: Option<real>, default: real): real {
    if x.Some? then x.value else default
  }

  function WeightsOf(p: Prefs): Weights {
    Weights(Or(p.price, 0.4), Or(p.latency, 0.2), Or(p.trust, 0.4), Or(p.schema, 0.15), Or(p.stake, 0.15))
  }

  datatype Signals = Signals(schema: real, price: real, latency: real, trust: real, stake: real, history: real, freshness: real)

  function SchemaScore(q: Query, l: Listing): real {
    var input := q.inputRef.Some? && l.inputRef == q.inputRef.value;
    var output := q.outputRef.Some? && l.outputRef == q.outputRef.value;
    if q.inputRef.None? && q.outputRef.None? then 1.0
    else if q.inputRef.Some? && q.outputRef.Some? then (if input then 0.5 else 0.0) + (if output then 0.5 else 0.0)
    else if input || output then 1.0 else 0.0
  }

  const FRESHNESS_HORIZON_MS := 30 * 24 * 60 * 60 * 1000
  const STAKE_SATURATION := 250.0

  function Fresh(now: int, s: Standing): real {
    if s.lastSettled.None? then 0.0
    else Clamp01(1.0 - (if now > s.lastSettled.value then now - s.lastSettled.value else 0) as real / FRESHNESS_HORIZON_MS as real)
  }

  function SignalsOf(q: Query, ctx: Context, l: Listing): Signals {
    var s := ctx.standing(l.provider);
    Signals(
      SchemaScore(q, l),
      if q.ceiling.None? then 0.5 else if q.ceiling.value.amount <= 0.0 then 0.0
        else Clamp01((q.ceiling.value.amount - l.price) / q.ceiling.value.amount),
      if q.target.None? then 0.5 else Clamp01(q.target.value / (if l.p95 > 1.0 then l.p95 else 1.0)),
      Clamp01(s.trust),
      if l.slashable then Clamp01(l.stake / STAKE_SATURATION) else 0.0,
      Clamp01(s.history),
      Fresh(ctx.now, s))
  }

  function Weighted(w: Weights, s: Signals): real {
    Mul(w.price, s.price) + Mul(w.latency, s.latency) + Mul(w.trust, s.trust) + Mul(w.schema, s.schema) + Mul(w.stake, s.stake)
  }

  function Core(w: Weights, s: Signals): real {
    Weighted(w, s) / if w.Sum() > 0.0 then w.Sum() else 1.0
  }

  function Score(w: Weights, s: Signals): real {
    Clamp01(Core(w, s) + (0.05 * s.history + 0.05 * s.freshness))
  }

  ghost predicate Nonnegative(w: Weights) {
    w.price >= 0.0 && w.latency >= 0.0 && w.trust >= 0.0 && w.schema >= 0.0 && w.stake >= 0.0
  }

  ghost predicate NoWorse(s: Signals, t: Signals) {
    && s.schema >= t.schema && s.price >= t.price && s.latency >= t.latency && s.trust >= t.trust && s.stake >= t.stake
    && s.history >= t.history && s.freshness >= t.freshness
  }

  const NOTHING := Signals(0.0, 0.0, 0.0, 0.0, 0.0, 0.0, 0.0)
  const EVERYTHING := Signals(1.0, 1.0, 1.0, 1.0, 1.0, 1.0, 1.0)

  lemma SignalsBounded(q: Query, ctx: Context, l: Listing)
    ensures NoWorse(SignalsOf(q, ctx, l), NOTHING) && NoWorse(EVERYTHING, SignalsOf(q, ctx, l))
  {
  }

  lemma WeightedMonotone(w: Weights, s: Signals, t: Signals)
    requires Nonnegative(w) && NoWorse(s, t)
    ensures Weighted(w, t) <= Weighted(w, s)
  {
    MulSwapped(w.price, t.price, s.price);
    MulSwapped(w.latency, t.latency, s.latency);
    MulSwapped(w.trust, t.trust, s.trust);
    MulSwapped(w.schema, t.schema, s.schema);
    MulSwapped(w.stake, t.stake, s.stake);
    hide Mul;
  }

  lemma MulSwapped(w: real, x: real, y: real)
    requires w >= 0.0 && x <= y
    ensures Mul(w, x) <= Mul(w, y)
  {
    MulMonotone(x, y, w);
    MulSigns(w, x);
    MulSigns(w, y);
    hide Mul;
  }

  /** Signals that are nowhere worse never score lower. */
  lemma SignalsMonotone(w: Weights, s: Signals, t: Signals)
    requires Nonnegative(w) && NoWorse(s, t)
    ensures Score(w, t) <= Score(w, s)
  {
    WeightedMonotone(w, s, t);
    DivMonotone(Weighted(w, t), Weighted(w, s), if w.Sum() > 0.0 then w.Sum() else 1.0);
    hide Weighted;
  }

  /** Listing `a` meets every requested schema that `b` meets, costs no more, is no slower, has at least
    the slashable stake, and its provider stands no worse. */
  ghost predicate NoWorseListing(q: Query, ctx: Context, a: Listing, b: Listing) {
    && (q.inputRef.Some? && b.inputRef == q.inputRef.value ==> a.inputRef == b.inputRef)
    && (q.outputRef.Some? && b.outputRef == q.outputRef.value ==> a.outputRef == b.outputRef)
    && a.price <= b.price && a.p95 <= b.p95
    && (b.slashable ==> a.slashable && a.stake >= b.stake)
    && var s, t := ctx.standing(a.provider), ctx.standing(b.provider);
       && s.trust >= t.trust && s.history >= t.history
       && (t.lastSettled.Some? ==> s.lastSettled.Some? && s.lastSettled.value >= t.lastSettled.value)
  }

  lemma HeadroomGrows(q: Query, a: real, b: real)
    requires a <= b && q.ceiling.Some? && q.ceiling.value.amount > 0.0
    ensures var c := q.ceiling.value.amount; Clamp01((c - b) / c) <= Clamp01((c - a) / c)
  {
    var c := q.ceiling.value.amount;
    DivMonotone(c - b, c - a, c);
    ClampGrows((c - b) / c, (c - a) / c);
  }

  lemma SpeedGrows(target: real, a: real, b: real)
    requires 1.0 <= a <= b
    ensures Clamp01(target / b) <= Clamp01(target / a)
  {
    if target > 0.0 {
      DivAntitone(target, a, b);
      ClampGrows(target / b, target / a);
    } else {
      DivMonotone(target, 0.0, b);
      assert 0.0 / b == 0.0;
    }
  }

  lemma StandingGrows(ctx: Context, a: Standing, b: Standing)
    requires b.lastSettled.Some? ==> a.lastSettled.Some? && a.lastSettled.value >= b.lastSettled.value
    ensures Fresh(ctx.now, b) <= Fresh(ctx.now, a)
  {
    if b.lastSettled.Some? {
      var x := if ctx.now > a.lastSettled.value then ctx.now - a.lastSettled.value else 0;
      var y := if ctx.now > b.lastSettled.value then ctx.now - b.lastSettled.value else 0;
      DivMonotone(x as real, y as real, FRESHNESS_HORIZON_MS as real);
      ClampGrows(1.0 - y as real / FRESHNESS_HORIZON_MS as real, 1.0 - x as real / FRESHNESS_HORIZON_MS as real);
    }
  }

  lemma StakeGrows(x: real, y: real)
    requires x <= y
    ensures Clamp01(x / STAKE_SATURATION) <= Clamp01(y / STAKE_SATURATION)
  {
    DivMonotone(x, y, STAKE_SATURATION);
    ClampGrows(x / STAKE_SATURATION, y / STAKE_SATURATION);
  }

  lemma BetterSignals(q: Query, ctx: Context, a: Listing, b: Listing)
    requires NoWorseListing(q, ctx, a, b)
    ensures NoWorse(SignalsOf(q, ctx, a), SignalsOf(q, ctx, b))
  {
    var s, t := ctx.standing(a.provider), ctx.standing(b.provider);
    if q.ceiling.Some? && q.ceiling.value.amount > 0.0 { HeadroomGrows(q, a.price, b.price); }
    if q.target.Some? { SpeedGrows(q.target.value, if a.p95 > 1.0 then a.p95 else 1.0, if b.p95 > 1.0 then b.p95 else 1.0); }
    StandingGrows(ctx, s, t);
    ClampGrows(t.trust, s.trust);
    ClampGrows(t.history, s.history);
    if b.slashable { StakeGrows(b.stake, a.stake); }
    assert SchemaScore(q, b) <= SchemaScore(q, a);
    hide Fresh, SchemaScore;
  }

  /** A listing that is nowhere worse than another never scores lower, whatever nonnegative weights the
    requester gives. */
  lemma ScoreMonotone(q: Query, ctx: Context, w: Weights, a: Listing, b: Listing)
    requires Nonnegative(w) && NoWorseListing(q, ctx, a, b)
    ensures Score(w, SignalsOf(q, ctx, b)) <= Score(w, SignalsOf(q, ctx, a))
  {
    BetterSignals(q, ctx, a, b);
    hide SignalsOf, NoWorse, NoWorseListing;
    SignalsMonotone(w, SignalsOf(q, ctx, a), SignalsOf(q, ctx, b));
  }

  /** The core is a weighted average: between 0 and 1 for every listing, so the boost can add at most a
    tenth before the final clamp. */
  lemma CoreBounded(q: Query, ctx: Context, l: Listing, w: Weights)
    requires Nonnegative(w)
    ensures 0.0 <= Core(w, SignalsOf(q, ctx, l)) <= 1.0
    ensures 0.0 <= Score(w, SignalsOf(q, ctx, l)) <= 1.0
    ensures Score(w, SignalsOf(q, ctx, l)) <= Core(w, SignalsOf(q, ctx, l)) + 0.1
  {
    var s := SignalsOf(q, ctx, l);
    SignalsBounded(q, ctx, l);
    hide SignalsOf;
    WeightedMonotone(w, s, NOTHING);
    WeightedMonotone(w, EVERYTHING, s);
    WholeWeight(w);
    UnitRange(Weighted(w, s), if w.Sum() > 0.0 then w.Sum() else 1.0);
    hide Weighted;
    assert w.Sum() >= 0.0;
    SmallBoost(w, s);
  }

  lemma SmallBoost(w: Weights, s: Signals)
    requires 0.0 <= Core(w, s) <= 1.0 && NoWorse(s, NOTHING) && NoWorse(EVERYTHING, s)
    ensures 0.0 <= Score(w, s) <= 1.0 && Score(w, s) <= Core(w, s) + 0.1
  {
    hide Core;
  }

  lemma WholeWeight(w: Weights)
    ensures Weighted(w, NOTHING) == 0.0 && Weighted(w, EVERYTHING) == w.Sum()
  {
  }

  // ---- what the numbers mean --------------------------------------------------------------

  function CountOf(b: bool): int {
    if b then 1 else 0
  }

  /** The schema signal is the part of the requested schemas that the listing has, whole if none is requested. */
  lemma SchemaFraction(q: Query, l: Listing)
    ensures var asked := CountOf(q.inputRef.Some?) + CountOf(q.outputRef.Some?);
            var met := CountOf(q.inputRef == Some(l.inputRef)) + CountOf(q.outputRef == Some(l.outputRef));
            SchemaScore(q, l) * asked as real == met as real && (asked == 0 ==> SchemaScore(q, l) == 1.0)
  {
  }

  /** `x` measures `part` against `whole`, from nothing to all. */
  predicate Measures(x: real, part: real, whole: real) {
    && (part <= 0.0 ==> x == 0.0) && (part >= whole ==> x == 1.0)
    && (0.0 <= part <= whole ==> x * whole == part)
  }

  lemma ClampMeasures(part: real, whole: real)
    requires whole > 0.0
    ensures Measures(Clamp01(part / whole), part, whole)
  {
    Quotient(part, whole);
    if part >= whole { DivMonotone(whole, part, whole); assert whole / whole == 1.0; }
    if part <= 0.0 { DivMonotone(part, 0.0, whole); assert 0.0 / whole == 0.0; }
    if 0.0 <= part <= whole { UnitRange(part, whole); }
  }

  /** Each signal on its own scale: the headroom under the ceiling, the target against the latency, the
    slashable stake against 250, the age of the last settlement against thirty days, and half where the
    query gives nothing to compare with. */
  lemma SignalsMeasure(q: Query, ctx: Context, l: Listing)
    ensures var s, p := SignalsOf(q, ctx, l), ctx.standing(l.provider);
            && s.schema == SchemaScore(q, l)
            && (match q.ceiling
                case None => s.price == 0.5
                case Some(c) => if c.amount <= 0.0 then s.price == 0.0 else Measures(s.price, c.amount - l.price, c.amount))
            && (match q.target
                case None => s.latency == 0.5
                case Some(t) => Measures(s.latency, t, if l.p95 <= 1.0 then 1.0 else l.p95))
            && Measures(s.trust, p.trust, 1.0) && Measures(s.history, p.history, 1.0)
            && (if l.slashable then Measures(s.stake, l.stake, 250.0) else s.stake == 0.0)
            && (match p.lastSettled
                case None => s.freshness == 0.0
                case Some(last) => Measures(1.0 - s.freshness, (ctx.now - last) as real, 2_592_000_000.0))
  {
    var p := ctx.standing(l.provider);
    if q.ceiling.Some? && q.ceiling.value.amount > 0.0 { ClampMeasures(q.ceiling.value.amount - l.price, q.ceiling.value.amount); }
    if q.target.Some? { ClampMeasures(q.target.value, if l.p95 > 1.0 then l.p95 else 1.0); }
    ClampMeasures(l.stake, 250.0);
    if p.lastSettled.Some? { FreshMeasures(ctx.now, p); }
    hide SchemaScore, Fresh;
  }

  lemma FreshMeasures(now: int, p: Standing)
    requires p.lastSettled.Some?
    ensures Measures(1.0 - Fresh(now, p), (now - p.lastSettled.value) as real, 2_592_000_000.0)
  {
  }

  lemma CoreTimesSum(w: Weights, s: Signals)
    requires w.Sum() > 0.0
    ensures Core(w, s) * w.Sum() == Weighted(w, s)
  {
    Quotient(Weighted(w, s), w.Sum());
    hide Weighted;
  }

  /** The core is the average of the five signals under the weights, each signal under its own weight. */
  lemma CoreIsAverage(w: Weights, s: Signals)
    requires w.price + w.latency + w.trust + w.schema + w.stake > 0.0
    ensures Core(w, s) * (w.price + w.latency + w.trust + w.schema + w.stake)
         == w.price * s.price + w.latency * s.latency + w.trust * s.trust + w.schema * s.schema + w.stake * s.stake
  {
    CoreTimesSum(w, s);
    hide Core;
  }

  /** A twentieth of history and of freshness comes on top, cut off at one. */
  lemma ScoreIsCoreAndBoost(q: Query, ctx: Context, l: Listing, w: Weights)
    requires Nonnegative(w)
    ensures var s := SignalsOf(q, ctx, l); var sum := Core(w, s) + (s.history + s.freshness) / 20.0;
            Score(w, s) == if sum > 1.0 then 1.0 else sum
  {
    CoreBounded(q, ctx, l, w);
    SignalsBounded(q, ctx, l);
    hide SignalsOf, Core;
  }

  /** Weights that the requester leaves out default to 0.4 for price and trust, 0.2 for latency and 0.15 for
    schema and stake. */
  lemma WeightsDefault(p: Prefs)
    ensures var w := WeightsOf(p);
            && (match p.price case Some(x) => w.price == x case None => w.price == 0.4)
            && (match p.latency case Some(x) => w.latency == x case None => w.latency == 0.2)
            && (match p.trust case Some(x) => w.trust == x case None => w.trust == 0.4)
            && (match p.schema case Some(x) => w.schema == x case None => w.schema == 0.15)
            && (match p.stake case Some(x) => w.stake == x case None => w.stake == 0.15)
  {
  }

  // ---- the ranking ------------------------------------------------------------------------

  datatype Ranked = Ranked(id: string, score: real)

  /** Ids compare character by character. */
  predicate IdAtMost(a: string, b: string) {
    if a == "" then true
    else if b == "" then false
    else a[0] < b[0] || (a[0] == b[0] && IdAtMost(a[1..], b[1..]))
  }

  /** Higher scores first, then smaller ids. */
  predicate Before(a: Ranked, b: Ranked) {
    a.score > b.score || (a.score == b.score && IdAtMost(a.id, b.id))
  }

  lemma {:induction false} IdTotal(a: string, b: string)
    ensures IdAtMost(a, b) || IdAtMost(b, a)
    ensures IdAtMost(a, b) && IdAtMost(b, a) ==> a == b
    decreases |a|
  {
    if a != "" && b != "" {
      IdTotal(a[1..], b[1..]);
      assert a == [a[0]] + a[1..] && b == [b[0]] + b[1..];
    }
  }

  lemma {:induction false} IdTransitive(a: string, b: string, c: string)
    requires IdAtMost(a, b) && IdAtMost(b, c)
    ensures IdAtMost(a, c)
    decreases |a|
  {
    if a != "" && a[0] == b[0] && b[0] == c[0] {
      IdTransitive(a[1..], b[1..], c[1..]);
    }
  }

  lemma BeforeTotalOrder()
    ensures TotalOrder(Before)
  {
    forall x: Ranked, y: Ranked ensures (Before(x, y) || Before(y, x)) && (Before(x, y) && Before(y, x) ==> x == y) {
      IdTotal(x.id, y.id);
    }
    forall x: Ranked, y: Ranked, z: Ranked | Before(x, y) && Before(y, z) ensures Before(x, z) {
      if x.score == y.score == z.score { IdTransitive(x.id, y.id, z.id); }
    }
  }

  /** Up to `k` the ids agree, and there `a` ends or has the smaller character. */
  predicate SmallerAt(a: string, b: string, k: nat) {
    k <= |a| && k <= |b| && a[..k] == b[..k] && (k == |a| || (k < |b| && a[k] < b[k]))
  }

  /** Ids are in dictionary order. */
  lemma {:induction false} IdLexicographic(a: string, b: string)
    ensures IdAtMost(a, b) <==> exists k: nat :: SmallerAt(a, b, k)
    decreases |a|
  {
    if a == "" {
      assert SmallerAt(a, b, 0);
    } else if b != "" && a[0] == b[0] {
      IdLexicographic(a[1..], b[1..]);
      if k: nat :| SmallerAt(a[1..], b[1..], k) {
        assert a[..k + 1] == [a[0]] + a[1..][..k] && b[..k + 1] == [b[0]] + b[1..][..k];
        assert SmallerAt(a, b, k + 1);
      }
      if k: nat :| SmallerAt(a, b, k) {
        if k == 0 {
          assert false;
        } else {
          assert a[1..][..k - 1] == a[..k][1..] && b[1..][..k - 1] == b[..k][1..];
          assert SmallerAt(a[1..], b[1..], k - 1);
        }
      }
    } else {
      if b != "" && a[0] < b[0] { assert SmallerAt(a, b, 0); }
      if k: nat :| SmallerAt(a, b, k) { FirstAgrees(a, b, k); }
    }
  }

  lemma FirstAgrees(a: string, b: string, k: nat)
    requires SmallerAt(a, b, k)
    ensures k > 0 ==> a != "" && b != "" && a[0] == b[0]
  {
    if k > 0 { assert a[..k][0] == a[0] && b[..k][0] == b[0]; }
  }

  function Entry(q: Query, ctx: Context, l: Listing): Ranked {
    Ranked(l.id, Score(WeightsOf(q.prefs), SignalsOf(q, ctx, l)))
  }

  ghost function Entries(q: Query, ctx: Context, ls: seq<Listing>): seq<Ranked> {
    if ls == [] then []
    else Entries(q, ctx, ls[..|ls| - 1]) + if Survives(q, ctx, ls[|ls| - 1]) then [Entry(q, ctx, ls[|ls| - 1])] else []
  }

  /** The answer to a query before it is cut. */
  ghost function Ranking(q: Query, ctx: Context, ls: seq<Listing>): seq<Ranked> {
    Sort(Entries(q, ctx, ls), Before)
  }

  /** Filter, score, sort and cut to `max`. */
  method Discover(q: Query, ctx: Context, listings: seq<Listing>, max: nat) returns (answer: seq<Ranked>)
    ensures answer == if max < |Ranking(q, ctx, listings)| then Ranking(q, ctx, listings)[..max] else Ranking(q, ctx, listings)
  {
    var survivors, _ := HardFilter(q, ctx, listings);
    var scored := [];
    var i := 0;
    while i < |survivors|
      invariant 0 <= i <= |survivors| && |scored| == i
      invariant forall j | 0 <= j < i :: scored[j] == Entry(q, ctx, survivors[j])
    {
      scored := scored + [Entry(q, ctx, survivors[i])];
      i := i + 1;
    }
    EntriesOfSurvivors(q, ctx, listings, survivors, scored);
    var ranked := Sort(scored, Before);
    answer := if max < |ranked| then ranked[..max] else ranked;
  }

  lemma {:induction false} EntriesOfSurvivors(q: Query, ctx: Context, ls: seq<Listing>, survivors: seq<Listing>, scored: seq<Ranked>)
    requires survivors == Survivors(q, ctx, ls) && |scored| == |survivors|
    requires forall j | 0 <= j < |survivors| :: scored[j] == Entry(q, ctx, survivors[j])
    ensures scored == Entries(q, ctx, ls)
    decreases |ls|
  {
    if ls != [] {
      var n := |ls| - 1;
      var before := Survivors(q, ctx, ls[..n]);
      hide Survives, Entry;
      EntriesOfSurvivors(q, ctx, ls[..n], before, scored[..|before|]);
      if Survives(q, ctx, ls[n]) {
        assert scored == scored[..|before|] + [scored[|before|]];
      } else {
        assert scored == scored[..|before|];
      }
    }
  }

  /** The ranking is a sorted permutation of the survivors' entries, and the only one. */
  lemma RankingUnique(q: Query, ctx: Context, ls: seq<Listing>, other: seq<Ranked>)
    ensures (Sorted(other, Before) && multiset(other) == multiset(Entries(q, ctx, ls))) <==> other == Ranking(q, ctx, ls)
  {
    BeforeTotalOrder();
    SortSorts(Entries(q, ctx, ls), Before);
    if Sorted(other, Before) && multiset(other) == multiset(Entries(q, ctx, ls)) {
      SortedUnique(other, Ranking(q, ctx, ls), Before);
    }
  }

  lemma {:induction false} EntriesJoin(q: Query, ctx: Context, a: seq<Listing>, b: seq<Listing>)
    ensures Entries(q, ctx, a + b) == Entries(q, ctx, a) + Entries(q, ctx, b)
    decreases |b|
  {
    if b == [] {
      assert a + b == a;
    } else {
      var n := |b| - 1;
      EntriesJoin(q, ctx, a, b[..n]);
      hide Survives, Entry;
      assert (a + b)[..|a| + n] == a + b[..n] && (a + b)[|a| + n] == b[n];
    }
  }

  lemma EntriesMoved(q: Query, ctx: Context, x: seq<Listing>, l: Listing, y: seq<Listing>)
    ensures multiset(Entries(q, ctx, x + ([l] + y))) == multiset(Entries(q, ctx, [l])) + multiset(Entries(q, ctx, x + y))
  {
    EntriesJoin(q, ctx, x, [l] + y);
    EntriesJoin(q, ctx, [l], y);
    EntriesJoin(q, ctx, x, y);
    hide Entries;
  }

  lemma {:induction false} EntriesDependOnElements(q: Query, ctx: Context, a: seq<Listing>, b: seq<Listing>)
    requires multiset(a) == multiset(b)
    ensures multiset(Entries(q, ctx, a)) == multiset(Entries(q, ctx, b))
    decreases |a|
  {
    if a == [] {
      assert |b| == |multiset(b)|;
    } else {
      var i := HeadRemoved(a, b);
      hide Entries;
      EntriesDependOnElements(q, ctx, a[1..], b[..i] + b[i + 1..]);
      EntriesMoved(q, ctx, [], a[0], a[1..]);
      EntriesMoved(q, ctx, b[..i], a[0], b[i + 1..]);
      assert [] + ([a[0]] + a[1..]) == a && [] + a[1..] == a[1..];
    }
  }

  /** The order in which listings are stored does not matter. */
  lemma StoredOrderIrrelevant(q: Query, ctx: Context, a: seq<Listing>, b: seq<Listing>)
    requires multiset(a) == multiset(b)
    ensures Ranking(q, ctx, a) == Ranking(q, ctx, b)
  {
    EntriesDependOnElements(q, ctx, a, b);
    BeforeTotalOrder();
    SortDependsOnElements(Entries(q, ctx, a), Entries(q, ctx, b), Before);
  }

  /** In the answer a higher score comes first, and of equal scores the id that is first in the dictionary. */
  lemma RankedByScoreThenId(q: Query, ctx: Context, ls: seq<Listing>, i: nat, j: nat)
    requires i < j < |Ranking(q, ctx, ls)|
    ensures var a, b := Ranking(q, ctx, ls)[i], Ranking(q, ctx, ls)[j];
            a.score > b.score || (a.score == b.score && exists k: nat :: SmallerAt(a.id, b.id, k))
  {
    BeforeTotalOrder();
    SortSorts(Entries(q, ctx, ls), Before);
    IdLexicographic(Ranking(q, ctx, ls)[i].id, Ranking(q, ctx, ls)[j].id);
    hide SmallerAt, Entries, IdAtMost;
  }

  /** Cutting the answer drops nothing that ranks above what is kept. */
  lemma CutKeepsTheBest(q: Query, ctx: Context, ls: seq<Listing>, max: nat, kept: nat, dropped: nat)
    requires kept < max <= dropped < |Ranking(q, ctx, ls)|
    ensures Before(Ranking(q, ctx, ls)[kept], Ranking(q, ctx, ls)[dropped])
    ensures Ranking(q, ctx, ls)[kept].score >= Ranking(q, ctx, ls)[dropped].score
  {
    BeforeTotalOrder();
    SortSorts(Entries(q, ctx, ls), Before);
  }
}
