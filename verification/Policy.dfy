/** The policy evaluator: what a delegation lets an agent do, given what it has already spent. Pure,
  and denying unless some path allows. */
module Policy {
  import opened Amounts
  import opened Outcomes

  datatype Kind = Spend | Tip | Message | Post | Escrow | Stake | Unknown

  datatype Action = Action(
    kind: Kind, agent: string, amount: Option<Money>, category: Option<string>, counterparty: Option<string>, subKind: Option<string>)

  datatype Usage = Usage(daily: Money, total: Money)

  datatype Rules = Rules(
    perTxMax: Money, dailyMax: Money, totalMax: Money,
    categoriesAllow: seq<string>, categoriesDeny: seq<string>,
    counterpartiesAllow: seq<string>, counterpartiesDeny: seq<string>,
    approvalOver: Money, maySend: bool, offers: bool, rfps: bool, mayCommit: bool, maxEscrow: Money, mayStake: bool)

  /** `Breaks` is the exception of comparing amounts in different currencies. */
  datatype Decision = Deny | NeedsApproval | Allow | Breaks {
    /** How far the decision lets the action go. */
    function Reach(): nat {
      match this
      case Allow => 2
      case NeedsApproval => 1
      case _ => 0
    }
  }

  /** "*" matches everything, a trailing ".*" a whole subtree, anything else itself. */
  predicate MatchTaxonomy(pattern: string, id: string) {
    || pattern == "*"
    || pattern == id
    || (|pattern| >= 2 && pattern[|pattern| - 2..] == ".*"
        && var prefix := pattern[..|pattern| - 2]; id == prefix || prefix + "." <= id)
  }

  /** The dotted segments of an id. */
  function Segments(s: string): (r: seq<string>)
    ensures |r| > 0
  {
    if s == "" then [""]
    else if s[0] == '.' then [""] + Segments(s[1..])
    else
      var rest := Segments(s[1..]);
      [[s[0]] + rest[0]] + rest[1..]
  }

  lemma {:induction false} SegmentsJoin(a: string, b: string)
    ensures Segments(a + "." + b) == Segments(a) + Segments(b)
    decreases |a|
  {
    if a == "" {
      assert a + "." + b == "." + b && ("." + b)[1..] == b;
    } else {
      assert (a + "." + b)[1..] == a[1..] + "." + b;
      SegmentsJoin(a[1..], b);
    }
  }

  lemma {:induction false} SegmentsSplit(p: string, id: string)
    requires Segments(p) <= Segments(id)
    ensures id == p || p + "." <= id
    decreases |p|
  {
    var sp, si := Segments(p), Segments(id);
    assert |sp| <= |si| && sp[0] == si[0];
    if p == "" {
      assert id != "" ==> id[0] == '.';
    } else {
      SameStart(p, id);
      SegmentsTail(p, id);
      SegmentsSplit(p[1..], id[1..]);
      assert p == [p[0]] + p[1..] && id == [id[0]] + id[1..];
    }
  }

  lemma Unfolded(s: string)
    requires s != ""
    ensures s[0] == '.' ==> Segments(s)[0] == "" && Segments(s)[1..] == Segments(s[1..])
    ensures s[0] != '.' ==>
      Segments(s)[0] == [s[0]] + Segments(s[1..])[0] && Segments(s)[1..] == Segments(s[1..])[1..]
  {
  }

  lemma SameStart(p: string, id: string)
    requires p != "" && Segments(p) <= Segments(id)
    ensures id != "" && id[0] == p[0]
  {
    assert |Segments(p)| <= |Segments(id)| && Segments(p)[0] == Segments(id)[0];
    assert id == "" ==> Segments(id) == [""];
    hide Segments;
    Unfolded(p);
    var sp, si := Segments(p), Segments(id);
    if p[0] == '.' {
      assert |sp| >= 2 by { assert |sp[1..]| > 0; }
    } else {
      assert |sp[0]| > 0 && sp[0][0] == p[0];
    }
    if id != "" {
      Unfolded(id);
      assert if id[0] == '.' then si[0] == "" else |si[0]| > 0 && si[0][0] == id[0];
    }
  }

  lemma SegmentsTail(p: string, id: string)
    requires p != "" && id != "" && p[0] == id[0] && Segments(p) <= Segments(id)
    ensures Segments(p[1..]) <= Segments(id[1..])
  {
    hide Segments;
    Unfolded(p);
    Unfolded(id);
    var sp, si, tp, ti := Segments(p), Segments(id), Segments(p[1..]), Segments(id[1..]);
    assert sp[0] == si[0];
    PrefixTail(sp, si);
    if p[0] == '.' {
      assert sp[1..] == tp && si[1..] == ti;
      assert tp <= ti;
    } else {
      assert tp[0] == sp[0][1..] && ti[0] == si[0][1..];
      PrefixCons(tp, ti);
      assert tp <= ti;
    }
  }

  lemma PrefixTail(a: seq<string>, b: seq<string>)
    requires a != [] && a <= b
    ensures a[1..] <= b[1..]
  {
    assert b == a + b[|a|..];
    assert b[1..] == a[1..] + b[|a|..];
  }

  lemma PrefixCons(a: seq<string>, b: seq<string>)
    requires a != [] && b != [] && a[0] == b[0] && a[1..] <= b[1..]
    ensures a <= b
  {
    forall k | 0 <= k < |a| ensures k < |b| && a[k] == b[k] {
      if k > 0 { assert a[1..][k - 1] == b[1..][k - 1]; }
    }
  }

  /** A pattern with a trailing ".*" matches exactly the ids whose segments begin with its own. */
  lemma SubtreePattern(p: string, id: string)
    ensures MatchTaxonomy(p + ".*", id) <==> Segments(p) <= Segments(id)
  {
    var pattern := p + ".*";
    assert pattern[|pattern| - 2..] == ".*" && pattern[..|pattern| - 2] == p;
    if Segments(p) <= Segments(id) { SegmentsSplit(p, id); }
    if p + "." <= id {
      assert id == p + "." + id[|p| + 1..];
      SegmentsJoin(p, id[|p| + 1..]);
    }
    assert id == pattern ==> p + "." <= id;
  }

  predicate AnyMatches(patterns: seq<string>, id: string) {
    exists i :: 0 <= i < |patterns| && MatchTaxonomy(patterns[i], id)
  }

  /** Deny-list before allow-list; absence from the allow-list denies. */
  predicate Listed(id: string, allow: seq<string>, deny: seq<string>) {
    !AnyMatches(deny, id) && AnyMatches(allow, id)
  }

  predicate IsSubtree(pattern: string) {
    |pattern| >= 2 && pattern[|pattern| - 2..] == ".*"
  }

  /** Every id that `pattern` matches is matched by the single pattern `deny`. A subtree is covered only
    by everything or by a subtree around it; an exact id, by any pattern that matches it. */
  predicate Covers(deny: string, pattern: string) {
    || deny == "*"
    || (pattern != "*"
        && if IsSubtree(pattern) then IsSubtree(deny) && MatchTaxonomy(deny, pattern[..|pattern| - 2]) else MatchTaxonomy(deny, pattern))
  }

  /** Some allowed pattern is not covered by a denied one: a test on the two lists. */
  predicate ListsSomething(allow: seq<string>, deny: seq<string>) {
    exists i :: 0 <= i < |allow| && forall j :: 0 <= j < |deny| ==> !Covers(deny[j], allow[i])
  }

  lemma CoversMatches(deny: string, pattern: string, id: string)
    requires Covers(deny, pattern) && MatchTaxonomy(pattern, id)
    ensures MatchTaxonomy(deny, id)
  {
    if deny != "*" && IsSubtree(pattern) {
      var q, r := pattern[..|pattern| - 2], deny[..|deny| - 2];
      if id == pattern { assert q + "." <= id; }
      if r != q && q != id {
        assert r + "." <= q && q + "." <= id;
        assert r + "." <= id;
      }
    }
  }

  lemma {:induction false} LongerThanAll(patterns: seq<string>) returns (n: nat)
    ensures forall i | 0 <= i < |patterns| :: |patterns[i]| < n
    decreases |patterns|
  {
    if patterns == [] {
      n := 0;
    } else {
      var m := LongerThanAll(patterns[..|patterns| - 1]);
      var last := patterns[|patterns| - 1];
      assert forall i | 0 <= i < |patterns| - 1 :: patterns[i] == patterns[..|patterns| - 1][i];
      n := if m > |last| then m else |last| + 1;
    }
  }

  function Xs(n: nat): string {
    seq(n, _ => 'x')
  }

  /** A long name without dots below `q` is matched only by a subtree around `q`. */
  lemma DeepMatch(deny: string, q: string, n: nat)
    requires |deny| < n && deny != "*" && MatchTaxonomy(deny, q + "." + Xs(n))
    ensures IsSubtree(deny) && MatchTaxonomy(deny, q)
  {
    var id := q + "." + Xs(n);
    var r := deny[..|deny| - 2];
    assert r + "." <= id;
    assert id[|r|] == '.';
    assert forall k | |q| < k < |id| :: id[k] == 'x';
    assert |r| <= |q|;
    if r != q {
      assert |r| == |q| ==> r == q by { assert id[..|q|] == q && id[..|r|] == r; }
      assert r + "." == id[..|r| + 1] == q[..|r| + 1];
    }
  }

  /** A long name without dots is matched by no other pattern than "*". */
  lemma FlatMatch(deny: string, n: nat)
    requires |deny| < n && MatchTaxonomy(deny, Xs(n))
    ensures deny == "*"
  {
    if deny != "*" {
      NoDot(deny[..|deny| - 2], n);
    }
  }

  lemma NoDot(r: string, n: nat)
    ensures !(r + "." <= Xs(n))
  {
    assert (r + ".")[|r|] == '.';
  }

  /** Some id is listed if and only if some allowed pattern is not covered by a single denied one. */
  lemma ListsSomethingIff(allow: seq<string>, deny: seq<string>)
    ensures ListsSomething(allow, deny) <==> exists id :: Listed(id, allow, deny)
  {
    if id :| Listed(id, allow, deny) {
      var i :| 0 <= i < |allow| && MatchTaxonomy(allow[i], id);
      forall j | 0 <= j < |deny| ensures !Covers(deny[j], allow[i]) {
        if Covers(deny[j], allow[i]) { CoversMatches(deny[j], allow[i], id); }
      }
    }
    if ListsSomething(allow, deny) {
      var i :| 0 <= i < |allow| && forall j :: 0 <= j < |deny| ==> !Covers(deny[j], allow[i]);
      var id := UncoveredId(allow[i], deny);
      assert Listed(id, allow, deny);
    }
  }

  lemma UncoveredId(pattern: string, deny: seq<string>) returns (id: string)
    requires forall j :: 0 <= j < |deny| ==> !Covers(deny[j], pattern)
    ensures MatchTaxonomy(pattern, id) && !AnyMatches(deny, id)
  {
    var n := LongerThanAll(deny);
    if pattern == "*" {
      id := Xs(n);
      forall j | 0 <= j < |deny| ensures !MatchTaxonomy(deny[j], id) {
        if MatchTaxonomy(deny[j], id) { FlatMatch(deny[j], n); }
      }
    } else if IsSubtree(pattern) {
      var q := pattern[..|pattern| - 2];
      id := q + "." + Xs(n);
      assert q + "." <= id;
      forall j | 0 <= j < |deny| ensures !MatchTaxonomy(deny[j], id) {
        if MatchTaxonomy(deny[j], id) { DeepMatch(deny[j], q, n); }
      }
    } else {
      id := pattern;
    }
  }

  /** Usage in another currency counts as none. */
  function UsageIn(m: Money, currency: string): real {
    if m.currency == currency then m.amount else 0.0
  }

  function ApprovalTail(amount: Money, threshold: Money): Decision {
    if amount.currency == threshold.currency && amount.amount > threshold.amount then NeedsApproval else Allow
  }

  function EvaluateSpend(r: Rules, a: Action, u: Usage): Decision {
    if a.category.None? || a.amount.None? then Deny
    else
      var m := a.amount.value;
      if !Listed(a.category.value, r.categoriesAllow, r.categoriesDeny) then Deny
      else if m.currency != r.perTxMax.currency then Deny
      else if m.amount > r.perTxMax.amount then Deny
      else if m.currency != r.dailyMax.currency then Breaks
      else if UsageIn(u.daily, m.currency) + m.amount > r.dailyMax.amount then Deny
      else if m.currency != r.totalMax.currency then Breaks
      else if UsageIn(u.total, m.currency) + m.amount > r.totalMax.amount then Deny
      else ApprovalTail(m, r.approvalOver)
  }

  function EvaluatePost(r: Rules, a: Action): Decision {
    if !(r.offers || r.rfps) then Deny
    else if a.subKind == Some("offer") && !r.offers then Deny
    else if a.subKind == Some("rfp") && !r.rfps then Deny
    else Allow
  }

  function EvaluateEscrow(r: Rules, a: Action): Decision {
    if !r.mayCommit || a.amount.None? then Deny
    else
      var m := a.amount.value;
      if m.currency != r.maxEscrow.currency then Deny
      else if m.amount > r.maxEscrow.amount then Deny
      else ApprovalTail(m, r.approvalOver)
  }

  function Evaluate(r: Rules, a: Action, u: Usage): Decision {
    if a.counterparty.Some? && !Listed(a.counterparty.value, r.counterpartiesAllow, r.counterpartiesDeny) then Deny
    else match a.kind
      case Spend => EvaluateSpend(r, a, u)
      case Tip => EvaluateSpend(r, a, u)
      case Message => if r.maySend then Allow else Deny
      case Post => EvaluatePost(r, a)
      case Escrow => EvaluateEscrow(r, a)
      case Stake => if r.mayStake then Allow else Deny
      case Unknown => Deny
  }

  // ---- what exactly gets through ----------------------------------------------------------

  /** A pattern matches an id exactly if it is "*", the id itself, or a subtree whose dotted segments the
    id begins with. */
  lemma MatchesIff(pattern: string, id: string)
    ensures MatchTaxonomy(pattern, id)
            <==> pattern == "*" || pattern == id || exists p :: pattern == p + ".*" && Segments(p) <= Segments(id)
  {
    forall p | pattern == p + ".*" ensures MatchTaxonomy(pattern, id) <==> Segments(p) <= Segments(id) {
      SubtreePattern(p, id);
    }
    if |pattern| >= 2 && pattern[|pattern| - 2..] == ".*" {
      assert pattern == pattern[..|pattern| - 2] + ".*";
    }
  }

  /** An id is listed exactly if some allowed pattern matches it and no denied one does. */
  lemma ListedIff(id: string, allow: seq<string>, deny: seq<string>)
    ensures Listed(id, allow, deny) <==> (exists p | p in allow :: MatchTaxonomy(p, id)) && forall p | p in deny :: !MatchTaxonomy(p, id)
  {
    hide MatchTaxonomy;
  }

  /** What `u` says was spent in `currency`; amounts in another one do not count. */
  function SpentIn(m: Money, currency: string): real {
    if m.currency != currency then 0.0 else m.amount
  }

  ghost predicate KnownParty(r: Rules, a: Action) {
    a.counterparty.Some? ==> Listed(a.counterparty.value, r.counterpartiesAllow, r.counterpartiesDeny)
  }

  /** Of a spend: counterparty and category are listed, and the amount is in the currency of the caps and
    within the cap per payment, the day's and the lifetime's, with what was spent before. */
  ghost predicate Payable(r: Rules, a: Action, u: Usage) {
    && KnownParty(r, a) && a.category.Some? && Listed(a.category.value, r.categoriesAllow, r.categoriesDeny) && a.amount.Some?
    && var m := a.amount.value;
       && m.currency == r.perTxMax.currency == r.dailyMax.currency == r.totalMax.currency
       && m.amount <= r.perTxMax.amount
       && SpentIn(u.daily, m.currency) + m.amount <= r.dailyMax.amount
       && SpentIn(u.total, m.currency) + m.amount <= r.totalMax.amount
  }

  /** Of an escrow: committing is allowed, the counterparty is listed, and the amount is within the bound
    and in its currency. */
  ghost predicate Committable(r: Rules, a: Action) {
    && KnownParty(r, a) && r.mayCommit && a.amount.Some?
    && a.amount.value.currency == r.maxEscrow.currency && a.amount.value.amount <= r.maxEscrow.amount
  }

  /** The amount is over the delegation's approval threshold, in the threshold's currency. */
  predicate OverThreshold(r: Rules, a: Action) {
    a.amount.Some? && a.amount.value.currency == r.approvalOver.currency && a.amount.value.amount > r.approvalOver.amount
  }

  /** The three caps are not in one currency, and the comparison that would show it is reached. */
  ghost predicate MixedCaps(r: Rules, a: Action, u: Usage) {
    && KnownParty(r, a) && a.category.Some? && Listed(a.category.value, r.categoriesAllow, r.categoriesDeny) && a.amount.Some?
    && var m := a.amount.value;
       && m.currency == r.perTxMax.currency && m.amount <= r.perTxMax.amount
       && (m.currency != r.dailyMax.currency
           || (m.currency != r.totalMax.currency && SpentIn(u.daily, m.currency) + m.amount <= r.dailyMax.amount))
  }

  /** A spend or tip that is payable needs approval exactly if it is over the threshold, and is allowed
    exactly if it is not. */
  lemma SpendDecided(r: Rules, a: Action, u: Usage)
    requires a.kind == Spend || a.kind == Tip
    ensures Evaluate(r, a, u) == if Payable(r, a, u) then (if OverThreshold(r, a) then NeedsApproval else Allow)
                                 else if MixedCaps(r, a, u) then Breaks else Deny
  {
    hide Listed;
  }

  lemma EscrowDecided(r: Rules, a: Action, u: Usage)
    requires a.kind == Escrow
    ensures Evaluate(r, a, u) == if !Committable(r, a) then Deny else if OverThreshold(r, a) then NeedsApproval else Allow
  {
    hide Listed;
  }

  /** Messages, posts, stakes and unknown kinds are allowed or denied, never parked; usage and amounts do
    not matter. */
  lemma OthersDecided(r: Rules, a: Action, u: Usage)
    requires a.kind in {Message, Post, Stake, Unknown}
    ensures Evaluate(r, a, u) == Allow || Evaluate(r, a, u) == Deny
    ensures Evaluate(r, a, u) == Allow
            <==> KnownParty(r, a) && match a.kind
                 case Message => r.maySend
                 case Stake => r.mayStake
                 case Post =>
                   if a.subKind == Some("offer") then r.offers else if a.subKind == Some("rfp") then r.rfps else r.offers || r.rfps
                 case _ => false
  {
    hide Listed;
  }

  // ---- tightening a delegation never lets more through ------------------------------------

  ghost predicate NoLooser(m: Money, than: Money) {
    m.currency == than.currency && m.amount <= than.amount
  }

  ghost predicate SubList(a: seq<string>, b: seq<string>) {
    forall i | 0 <= i < |a| :: a[i] in b
  }

  /** Every bound of `r` is at most that of `than`, it allows no more patterns and denies no fewer. */
  ghost predicate Tighter(r: Rules, than: Rules) {
    && NoLooser(r.perTxMax, than.perTxMax) && NoLooser(r.dailyMax, than.dailyMax) && NoLooser(r.totalMax, than.totalMax)
    && NoLooser(r.approvalOver, than.approvalOver) && NoLooser(r.maxEscrow, than.maxEscrow)
    && SubList(r.categoriesAllow, than.categoriesAllow) && SubList(than.categoriesDeny, r.categoriesDeny)
    && SubList(r.counterpartiesAllow, than.counterpartiesAllow) && SubList(than.counterpartiesDeny, r.counterpartiesDeny)
    && (r.maySend ==> than.maySend) && (r.offers ==> than.offers) && (r.rfps ==> than.rfps)
    && (r.mayCommit ==> than.mayCommit) && (r.mayStake ==> than.mayStake)
  }

  ghost predicate AtLeast(u: Usage, than: Usage) {
    && u.daily.currency == than.daily.currency && u.daily.amount >= than.daily.amount
    && u.total.currency == than.total.currency && u.total.amount >= than.total.amount
  }

  lemma MatchesKept(a: seq<string>, b: seq<string>, id: string)
    requires SubList(a, b) && AnyMatches(a, id)
    ensures AnyMatches(b, id)
  {
    hide MatchTaxonomy;
    var i :| 0 <= i < |a| && MatchTaxonomy(a[i], id);
    var j :| 0 <= j < |b| && b[j] == a[i];
  }

  lemma ListedKept(id: string, allow: seq<string>, deny: seq<string>, allow': seq<string>, deny': seq<string>)
    requires SubList(allow, allow') && SubList(deny', deny) && Listed(id, allow, deny)
    ensures Listed(id, allow', deny')
  {
    hide MatchTaxonomy;
    MatchesKept(allow, allow', id);
    if AnyMatches(deny', id) { MatchesKept(deny', deny, id); }
  }

  /** A tighter delegation, or more recorded spending, never lets an action get further. */
  lemma EvaluateMonotone(r: Rules, than: Rules, a: Action, u: Usage, less: Usage)
    requires Tighter(r, than) && AtLeast(u, less)
    ensures Evaluate(r, a, u).Reach() <= Evaluate(than, a, less).Reach()
  {
    if a.counterparty.Some? && Listed(a.counterparty.value, r.counterpartiesAllow, r.counterpartiesDeny) {
      ListedKept(a.counterparty.value, r.counterpartiesAllow, r.counterpartiesDeny, than.counterpartiesAllow, than.counterpartiesDeny);
    }
    if a.category.Some? && Listed(a.category.value, r.categoriesAllow, r.categoriesDeny) {
      ListedKept(a.category.value, r.categoriesAllow, r.categoriesDeny, than.categoriesAllow, than.categoriesDeny);
    }
    hide Listed, SubList;
  }
}
