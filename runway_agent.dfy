/** The deterministic part of agents/runway_agent.py: `format_request_for_agent`,
    which condenses a runway request into the prompt text sent to the model
    (balances grouped by asset type, totals, liquid assets, the debts, the
    region and the monthly history), and the module's own copy of
    `extract_json_from_response`.

    Python's fixed-point formatting (`:.0f`, `:.1f`) is the pair of
    functions in `Formats`. */
module RunwayAgent {
  import opened Wrappers
  import opened TextScan
  import ImportAgent

  // ---------------------------------------------------------------------
  // The request (schemas/request.py)
  // ---------------------------------------------------------------------

  datatype Asset = Asset(
    id: string,
    name: string,
    assetType: string,
    ticker: Option<string>,
    balance: real,
    currency: string)

  datatype Debt = Debt(
    id: string,
    name: string,
    debtType: string,
    currentBalance: real,
    interestRate: real,
    monthlyPayment: real)

  datatype MonthlyStats = MonthlyStats(month: string, income: real, expenses: real)

  datatype RunwayRequest = RunwayRequest(
    assets: seq<Asset>,
    debts: seq<Debt>,
    monthlyPassiveIncome: real,
    monthlyExpenses: real,
    monthlyGap: real,
    annualPassiveIncome: real,
    annualExpenses: real,
    annualGap: real,
    monthlyHistory: seq<MonthlyStats>,
    netWorth: real,
    currency: string,
    timezone: Option<string>)

  /** `f"{x:.0f}"` and `f"{x:.1f}"`. */
  datatype Formats = Formats(fixed0: real -> string, fixed1: real -> string)

  /** The bucket of illiquid assets. */
  const RealEstate: string := "real_estate"

  // ---------------------------------------------------------------------
  // Sums over the assets, the specification of the grouping loop
  // ---------------------------------------------------------------------

  /** The balances of the assets of type `t`, added up. */
  function SumOfType(assets: seq<Asset>, t: string): real {
    if assets == [] then 0.0
    else
      var last := assets[|assets| - 1];
      SumOfType(assets[..|assets| - 1], t) + (if last.assetType == t then last.balance else 0.0)
  }

  /** The balances of the assets whose type is in `ts`, added up. */
  function SumInTypes(assets: seq<Asset>, ts: set<string>): real {
    if assets == [] then 0.0
    else
      var last := assets[|assets| - 1];
      SumInTypes(assets[..|assets| - 1], ts) + (if last.assetType in ts then last.balance else 0.0)
  }

  /** `sum(a.balance for a in assets)`: never negative when no balance is. */
  function TotalBalance(assets: seq<Asset>): (r: real)
    ensures (forall i :: 0 <= i < |assets| ==> assets[i].balance >= 0.0) ==> r >= 0.0
    ensures |assets| == 1 ==> r == assets[0].balance
  {
    if assets == [] then 0.0
    else TotalBalance(assets[..|assets| - 1]) + assets[|assets| - 1].balance
  }

  /** The distinct types of the assets. */
  function TypesOf(assets: seq<Asset>): set<string> {
    set i | 0 <= i < |assets| :: assets[i].assetType
  }

  /** What `assets_by_type` holds once the loop is done: one key per distinct
      type, mapped to that type's total. */
  function BalancesByType(assets: seq<Asset>): map<string, real> {
    map t | t in TypesOf(assets) :: SumOfType(assets, t)
  }

  /** `assets_by_type.get(t, 0)`. */
  function BucketOr0(byType: map<string, real>, t: string): real {
    if t in byType then byType[t] else 0.0
  }

  /** The loop that groups the balances by type: every type seen gets one
      key, holding the sum of the balances of its assets. */
  method GroupBalancesByType(assets: seq<Asset>) returns (byType: map<string, real>)
    ensures byType.Keys == TypesOf(assets)
    ensures forall t :: t in byType ==> byType[t] == SumOfType(assets, t)
    ensures byType == BalancesByType(assets)
  {
    byType := map[];
    var i := 0;
    while i < |assets|
      invariant 0 <= i <= |assets|
      invariant byType.Keys == TypesOf(assets[..i])
      invariant forall t :: t in byType ==> byType[t] == SumOfType(assets[..i], t)
    {
      var a := assets[i];
      byType := byType[a.assetType := BucketOr0(byType, a.assetType) + a.balance];
      i := i + 1;
      assert assets[..i][..i - 1] == assets[..i - 1];
      assert TypesOf(assets[..i]) == TypesOf(assets[..i - 1]) + {a.assetType} by {
        assert forall j :: 0 <= j < i - 1 ==> assets[..i][j] == assets[..i - 1][j];
      }
      forall t | t in byType ensures byType[t] == SumOfType(assets[..i], t) {
        if t != a.assetType && t !in TypesOf(assets[..i - 1]) {
          assert false;
        }
        if t == a.assetType && t !in TypesOf(assets[..i - 1]) {
          SumOfAbsentType(assets[..i - 1], t);
        }
      }
    }
    assert assets[..i] == assets;
  }

  /** A type that no asset has sums to zero. */
  lemma {:induction false} SumOfAbsentType(assets: seq<Asset>, t: string)
    requires t !in TypesOf(assets)
    ensures SumOfType(assets, t) == 0.0
  {
    if assets != [] {
      var init := assets[..|assets| - 1];
      assert TypesOf(init) <= TypesOf(assets) by {
        forall j | 0 <= j < |init| ensures init[j].assetType in TypesOf(assets) {
          assert init[j] == assets[j];
        }
      }
      SumOfAbsentType(init, t);
      assert assets[|assets| - 1].assetType in TypesOf(assets);
    }
  }

  /** Splitting a set of types into one type and the rest splits the sum. */
  lemma {:induction false} SumInTypesSplit(assets: seq<Asset>, t: string, ts: set<string>)
    requires t !in ts
    ensures SumInTypes(assets, ts + {t}) == SumOfType(assets, t) + SumInTypes(assets, ts)
  {
    if assets != [] {
      SumInTypesSplit(assets[..|assets| - 1], t, ts);
    }
  }

  /** Any set of types covering all the assets' types takes in every balance. */
  lemma {:induction false} SumInCoveringTypes(assets: seq<Asset>, ts: set<string>)
    requires TypesOf(assets) <= ts
    ensures SumInTypes(assets, ts) == TotalBalance(assets)
  {
    if assets != [] {
      var init := assets[..|assets| - 1];
      assert TypesOf(init) <= TypesOf(assets) by {
        forall j | 0 <= j < |init| ensures init[j].assetType in TypesOf(assets) {
          assert init[j] == assets[j];
        }
      }
      SumInCoveringTypes(init, ts);
      assert assets[|assets| - 1].assetType in TypesOf(assets);
    }
  }

  /** The total splits into the bucket of one type and all the other assets. */
  lemma {:induction false} TotalSplitsAtType(assets: seq<Asset>, t: string)
    ensures TotalBalance(assets) == SumOfType(assets, t) + SumInTypes(assets, TypesOf(assets) - {t})
  {
    SumInTypesSplit(assets, t, TypesOf(assets) - {t});
    SumInCoveringTypes(assets, TypesOf(assets) - {t} + {t});
  }

  /** `m[ts[0]] + m[ts[1]] + ...`. */
  function SumOver(byType: map<string, real>, ts: seq<string>): real
    requires forall i :: 0 <= i < |ts| ==> ts[i] in byType
  {
    if ts == [] then 0.0 else byType[ts[0]] + SumOver(byType, ts[1..])
  }

  function Elems(ts: seq<string>): set<string> {
    set t | t in ts
  }

  predicate Distinct(ts: seq<string>) {
    forall i, j :: 0 <= i < j < |ts| ==> ts[i] != ts[j]
  }

  /** Adding up the buckets of distinct types adds up the assets of those
      types. */
  lemma {:induction false} SumOverBuckets(assets: seq<Asset>, ts: seq<string>)
    requires Distinct(ts)
    requires forall i :: 0 <= i < |ts| ==> ts[i] in TypesOf(assets)
    ensures SumOver(BalancesByType(assets), ts) == SumInTypes(assets, Elems(ts))
  {
    if ts == [] {
      assert Elems(ts) == {};
      SumInCoveringTypesEmpty(assets);
    } else {
      var rest := ts[1..];
      assert Elems(ts) == Elems(rest) + {ts[0]} by {
        assert ts == [ts[0]] + rest;
      }
      assert ts[0] !in Elems(rest) by {
        forall i | 0 <= i < |rest| ensures rest[i] != ts[0] {
          assert rest[i] == ts[i + 1];
        }
      }
      SumOverBuckets(assets, rest);
      SumInTypesSplit(assets, ts[0], Elems(rest));
    }
  }

  /** No type takes in nothing. */
  lemma {:induction false} SumInCoveringTypesEmpty(assets: seq<Asset>)
    ensures SumInTypes(assets, {}) == 0.0
  {
    if assets != [] {
      SumInCoveringTypesEmpty(assets[..|assets| - 1]);
    }
  }

  /** The buckets add up to `total_assets`, whatever order the distinct
      types are listed in. */
  lemma BucketsAddUpToTotal(assets: seq<Asset>, ts: seq<string>)
    requires Distinct(ts)
    requires forall t :: t in ts <==> t in TypesOf(assets)
    ensures SumOver(BalancesByType(assets), ts) == TotalBalance(assets)
  {
    SumOverBuckets(assets, ts);
    assert Elems(ts) == TypesOf(assets);
    SumInCoveringTypes(assets, TypesOf(assets));
  }

  /** `liquid_assets` is the total of every asset that is not real estate,
      whether or not a real-estate bucket exists. */
  lemma LiquidIsNonRealEstate(assets: seq<Asset>)
    ensures TotalBalance(assets) - BucketOr0(BalancesByType(assets), RealEstate)
            == SumInTypes(assets, TypesOf(assets) - {RealEstate})
  {
    TotalSplitsAtType(assets, RealEstate);
    if RealEstate !in TypesOf(assets) {
      SumOfAbsentType(assets, RealEstate);
    }
  }

  // ---------------------------------------------------------------------
  // sorted(): the order of Python's string comparison
  // ---------------------------------------------------------------------

  /** `a < b` on Python strings: code point by code point, a proper prefix
      first. */
  predicate LexLess(a: string, b: string) {
    b != [] && (a == [] || a[0] < b[0] || (a[0] == b[0] && LexLess(a[1..], b[1..])))
  }

  lemma {:induction false} LexLessIrreflexive(a: string)
    ensures !LexLess(a, a)
  {
    if a != [] {
      LexLessIrreflexive(a[1..]);
    }
  }

  lemma {:induction false} LexLessTransitive(a: string, b: string, c: string)
    requires LexLess(a, b) && LexLess(b, c)
    ensures LexLess(a, c)
  {
    if a != [] && a[0] == b[0] && b[0] == c[0] {
      LexLessTransitive(a[1..], b[1..], c[1..]);
    }
  }

  lemma {:induction false} LexLessTotal(a: string, b: string)
    requires a != b
    ensures LexLess(a, b) || LexLess(b, a)
  {
    if a != [] && b != [] && a[0] == b[0] {
      assert a[1..] != b[1..];
      LexLessTotal(a[1..], b[1..]);
    }
  }

  predicate StrictlySorted(ts: seq<string>) {
    forall i, j :: 0 <= i < j < |ts| ==> LexLess(ts[i], ts[j])
  }

  /** `t` placed into a sorted list of other keys at its place. */
  function InsertSorted(t: string, ts: seq<string>): (r: seq<string>)
    requires StrictlySorted(ts) && t !in ts
    ensures StrictlySorted(r)
    ensures |r| == |ts| + 1
    ensures forall x :: x in r <==> x == t || x in ts
  {
    if ts == [] then [t]
    else if LexLess(t, ts[0]) then
      assert forall j :: 0 <= j < |ts| ==> LexLess(t, ts[j]) by {
        forall j | 0 < j < |ts| ensures LexLess(t, ts[j]) {
          LexLessTransitive(t, ts[0], ts[j]);
        }
      }
      [t] + ts
    else
      LexLessTotal(t, ts[0]);
      var rest := InsertSorted(t, ts[1..]);
      assert forall x :: x in rest ==> LexLess(ts[0], x) by {
        forall x | x in rest ensures LexLess(ts[0], x) {
          if x != t {
            var j :| 0 <= j < |ts[1..]| && ts[1..][j] == x;
            assert ts[j + 1] == x;
          }
        }
      }
      [ts[0]] + rest
  }

  /** `sorted(assets_by_type.items())`, read for its keys: the distinct
      types of the assets in ascending order. The keys are distinct, so the
      pairs are ordered by key alone. */
  function SortedTypes(assets: seq<Asset>): (ts: seq<string>)
    ensures StrictlySorted(ts)
    ensures forall t :: t in ts <==> t in TypesOf(assets)
  {
    if assets == [] then []
    else
      var rest := SortedTypes(assets[..|assets| - 1]);
      var t := assets[|assets| - 1].assetType;
      TypesOfSnoc(assets);
      if t in rest then rest else InsertSorted(t, rest)
  }

  /** The types of a list are those of all but its last asset, and the last
      asset's. */
  lemma TypesOfSnoc(assets: seq<Asset>)
    requires assets != []
    ensures TypesOf(assets) == TypesOf(assets[..|assets| - 1]) + {assets[|assets| - 1].assetType}
  {
    var prefix := assets[..|assets| - 1];
    assert forall j :: 0 <= j < |prefix| ==> prefix[j] == assets[j];
  }

  /** A sorted list of distinct keys is the only one of its elements: the
      order of the summary does not depend on the map's iteration order. */
  lemma {:induction false} SortedKeysUnique(a: seq<string>, b: seq<string>)
    requires StrictlySorted(a) && StrictlySorted(b)
    requires forall x :: x in a <==> x in b
    ensures a == b
  {
    if a != [] {
      assert a[0] in a;
    }
    if b != [] {
      assert b[0] in b;
    }
    if a != [] && b != [] {
      assert a[0] == b[0] by {
        if a[0] != b[0] {
          var i :| 0 <= i < |b| && b[i] == a[0];
          var j :| 0 <= j < |a| && a[j] == b[0];
          assert 0 < i && 0 < j;
          LexLessTransitive(a[0], a[j], b[i]);
          LexLessIrreflexive(a[0]);
        }
      }
      forall x ensures x in a[1..] <==> x in b[1..] {
        if x in a[1..] {
          var i :| 0 <= i < |a[1..]| && a[1..][i] == x;
          assert LexLess(a[0], a[i + 1]) && a[i + 1] in a;
          LexLessIrreflexive(x);
          var j :| 0 <= j < |b| && b[j] == x;
          assert j != 0;
          assert b[1..][j - 1] == x;
        }
        if x in b[1..] {
          var i :| 0 <= i < |b[1..]| && b[1..][i] == x;
          assert LexLess(b[0], b[i + 1]) && b[i + 1] in b;
          LexLessIrreflexive(x);
          var j :| 0 <= j < |a| && a[j] == x;
          assert j != 0;
          assert a[1..][j - 1] == x;
        }
      }
      SortedKeysUnique(a[1..], b[1..]);
      assert a == [a[0]] + a[1..] && b == [b[0]] + b[1..];
    }
  }

  // ---------------------------------------------------------------------
  // The sections of the prompt
  // ---------------------------------------------------------------------

  /** `f"{t}={v:.0f}"`: one bucket of the asset summary. */
  function BucketEntry(t: string, v: real, fmt: Formats): (e: string)
    ensures |t| < |e| && e[..|t|] == t && e[|t|] == '='
  {
    t + "=" + fmt.fixed0(v)
  }

  /** `", ".join(f"{t}={v:.0f}" for t, v in sorted(...))`: empty exactly
      when there are no buckets, otherwise starting with the first bucket's
      entry. */
  function AssetsSummary(byType: map<string, real>, ts: seq<string>, fmt: Formats): (r: string)
    requires forall t :: t in ts ==> t in byType
    ensures r == [] <==> ts == []
    ensures ts != [] ==> BucketEntry(ts[0], byType[ts[0]], fmt) <= r
  {
    var entries := seq(|ts|, i requires 0 <= i < |ts| => BucketEntry(ts[i], byType[ts[i]], fmt));
    assert ts != [] ==> entries[0] == BucketEntry(ts[0], byType[ts[0]], fmt) && entries[0] != [];
    Join(entries, ", ")
  }

  /** `sum(d.current_balance for d in debts)`: never negative when no
      balance is, and additive over a split of the list. */
  function TotalDebts(debts: seq<Debt>): (r: real)
    ensures (forall i :: 0 <= i < |debts| ==> debts[i].currentBalance >= 0.0) ==> r >= 0.0
    ensures |debts| == 1 ==> r == debts[0].currentBalance
  {
    if debts == [] then 0.0
    else TotalDebts(debts[..|debts| - 1]) + debts[|debts| - 1].currentBalance
  }

  /** The total of a list is the total of its two halves. */
  lemma {:induction false} TotalDebtsAppend(a: seq<Debt>, b: seq<Debt>)
    ensures TotalDebts(a + b) == TotalDebts(a) + TotalDebts(b)
  {
    if b == [] {
      assert a + b == a;
    } else {
      assert (a + b)[..|a + b| - 1] == a + b[..|b| - 1];
      TotalDebtsAppend(a, b[..|b| - 1]);
    }
  }

  /** One debt: name, balance, yearly rate in percent, monthly payment. */
  function DebtEntry(d: Debt, fmt: Formats): (e: string)
    ensures |d.name| < |e| && e[|d.name|] == '='
  {
    d.name + "=" + fmt.fixed0(d.currentBalance) + "@" + fmt.fixed1(d.interestRate * 100.0) + "%/"
    + fmt.fixed0(d.monthlyPayment) + "mo"
  }

  function DebtEntries(debts: seq<Debt>, fmt: Formats): (es: seq<string>)
    ensures |es| == |debts|
    ensures forall i :: 0 <= i < |debts| ==> es[i] == DebtEntry(debts[i], fmt)
  {
    seq(|debts|, i requires 0 <= i < |debts| => DebtEntry(debts[i], fmt))
  }

  const NoDebts: string := "None"

  /** The debts section: "None" exactly when there are no debts, otherwise
      one entry per debt, in the request's order, joined by ", ". */
  function DebtsSection(debts: seq<Debt>, fmt: Formats): (r: string)
    ensures r == NoDebts <==> debts == []
    ensures debts != [] ==> r == Join(DebtEntries(debts, fmt), ", ")
    ensures debts != [] ==> DebtEntry(debts[0], fmt) <= r
  {
    var joined := Join(DebtEntries(debts, fmt), ", ");
    if joined == [] then NoDebts
    else
      assert debts != [] ==> joined != NoDebts by {
        if debts != [] {
          var first := DebtEntry(debts[0], fmt);
          assert joined[..|first|] == first;
          assert joined[|debts[0].name|] == first[|debts[0].name|] == '=';
        }
      }
      joined
  }

  const UnknownRegion: string := "Region: Unknown (use 4% inflation)"
  const RegionPrefix: string := "Region: "

  /** The region line: the timezone when one is given and not empty, the
      4% default otherwise. */
  function RegionLine(timezone: Option<string>): (r: string)
    ensures timezone.Some? && timezone.value != [] ==> r == RegionPrefix + timezone.value
    ensures timezone.None? || timezone.value == [] ==> r == UnknownRegion
    ensures r[..|RegionPrefix|] == RegionPrefix
  {
    if timezone.Some? && timezone.value != [] then RegionPrefix + timezone.value else UnknownRegion
  }

  const HistoryPrefix: string := "\nMonthly History: "

  const IncomeTag: string := ": in="

  /** One month of the history: the month's label, then its income and
      expenses. */
  function HistoryEntry(m: MonthlyStats, fmt: Formats): (e: string)
    ensures |m.month| + |IncomeTag| <= |e|
    ensures e[..|m.month|] == m.month && e[|m.month|..|m.month| + |IncomeTag|] == IncomeTag
  {
    m.month + IncomeTag + fmt.fixed0(m.income) + ", ex=" + fmt.fixed0(m.expenses)
  }

  /** The monthly history: absent (empty) exactly when there is none,
      otherwise one entry per month, in order, joined by "; ". */
  function HistorySection(history: seq<MonthlyStats>, fmt: Formats): (r: string)
    ensures r == [] <==> history == []
    ensures history != [] ==>
      r == HistoryPrefix + Join(seq(|history|, i requires 0 <= i < |history| => HistoryEntry(history[i], fmt)), "; ")
  {
    if history == [] then ""
    else HistoryPrefix + Join(seq(|history|, i requires 0 <= i < |history| => HistoryEntry(history[i], fmt)), "; ")
  }

  /** The values `format_request_for_agent` computes before rendering. */
  datatype PromptSections = PromptSections(
    byType: map<string, real>,
    types: seq<string>,
    totalAssets: real,
    totalDebts: real,
    liquidAssets: real,
    debts: string,
    region: string,
    history: string)

  predicate WellFormed(s: PromptSections) {
    forall t :: t in s.types ==> t in s.byType
  }

  const CurrencyPrefix: string := "Currency: "
  const ClosingInstruction: string := "\n\nCalculate runway until liquid assets depleted. Return JSON only."

  /** The lines of the prompt between the currency and the region: the
      asset summary, the totals, the debts, income, expenses and net worth. */
  function Figures(request: RunwayRequest, s: PromptSections, fmt: Formats): string
    requires WellFormed(s)
  {
    "\nAssets by Type: " + AssetsSummary(s.byType, s.types, fmt)
    + "\nTotal Assets: " + fmt.fixed0(s.totalAssets)
    + " | Liquid Assets: " + fmt.fixed0(s.liquidAssets) + " (excludes real_estate)"
    + "\nDebts: " + s.debts
    + "\nTotal Debts: " + fmt.fixed0(s.totalDebts)
    + "\nPassive Income: " + fmt.fixed0(request.annualPassiveIncome) + "/yr"
    + "\nLiving Expenses: " + fmt.fixed0(request.annualExpenses) + "/yr (does NOT include debt payments)"
    + "\nNet Worth: " + fmt.fixed0(request.netWorth)
    + "\n"
  }

  /** `r.endswith(suffix)`. */
  predicate EndsWith(r: string, suffix: string) {
    |suffix| <= |r| && r[|r| - |suffix|..] == suffix
  }

  /** The f-string the prompt is rendered from: it opens with the currency
      and closes with the region line, the history section and the
      instruction, in that order. */
  function Render(request: RunwayRequest, s: PromptSections, fmt: Formats): (r: string)
    requires WellFormed(s)
    ensures CurrencyPrefix + request.currency <= r
    ensures EndsWith(r, s.region + s.history + ClosingInstruction)
  {
    var head := CurrencyPrefix + request.currency;
    var tail := s.region + s.history + ClosingInstruction;
    var middle := Figures(request, s, fmt);
    FramedBy(head, middle, tail);
    head + middle + tail
  }

  /** A string built as `head + middle + tail` starts with `head` and ends
      with `tail`. */
  lemma FramedBy(head: string, middle: string, tail: string)
    ensures head <= head + middle + tail
    ensures EndsWith(head + middle + tail, tail)
  {
  }

  /** The asset half of `format_request_for_agent`: the buckets, their
      keys in order, the total and the liquid total. */
  method SummarizeAssets(assets: seq<Asset>)
    returns (byType: map<string, real>, types: seq<string>, totalAssets: real, liquidAssets: real)
    ensures byType == BalancesByType(assets)
    ensures StrictlySorted(types)
    ensures forall t :: t in types <==> t in TypesOf(assets)
    ensures totalAssets == TotalBalance(assets)
    ensures liquidAssets == SumInTypes(assets, TypesOf(assets) - {RealEstate})
  {
    byType := GroupBalancesByType(assets);
    types := SortedTypes(assets);
    totalAssets := TotalBalance(assets);
    liquidAssets := totalAssets - BucketOr0(byType, RealEstate);
    LiquidIsNonRealEstate(assets);
  }

  /** `format_request_for_agent(request)`: groups the balances by type, lists
      the buckets in key order, totals assets and debts, takes real estate
      out of the liquid total, and renders the sections. */
  method FormatRequestForAgent(request: RunwayRequest, fmt: Formats)
    returns (prompt: string, sections: PromptSections)
    ensures sections.byType == BalancesByType(request.assets)
    ensures StrictlySorted(sections.types)
    ensures forall t :: t in sections.types <==> t in TypesOf(request.assets)
    ensures sections.totalAssets == TotalBalance(request.assets)
    ensures sections.totalDebts == TotalDebts(request.debts)
    ensures sections.liquidAssets == SumInTypes(request.assets, TypesOf(request.assets) - {RealEstate})
    ensures sections.debts == DebtsSection(request.debts, fmt)
    ensures sections.region == RegionLine(request.timezone)
    ensures sections.history == HistorySection(request.monthlyHistory, fmt)
    ensures WellFormed(sections) && prompt == Render(request, sections, fmt)
  {
    var byType, types, totalAssets, liquidAssets := SummarizeAssets(request.assets);
    var totalDebts := TotalDebts(request.debts);
    var debts := DebtsSection(request.debts, fmt);
    var region := RegionLine(request.timezone);
    var history := HistorySection(request.monthlyHistory, fmt);
    sections := PromptSections(byType, types, totalAssets, totalDebts, liquidAssets, debts, region, history);
    prompt := Render(request, sections, fmt);
  }

  // ---------------------------------------------------------------------
  // The module's copy of extract_json_from_response
  // ---------------------------------------------------------------------

  /** The runway agent's own `extract_json_from_response`. */
  function ExtractJsonFromResponse<J>(text: string, parse: string -> Option<J>): (r: Result<J>)
    ensures r.Failure? ==> r.error == ImportAgent.ParseError(text)
  {
    if parse(text).Some? then Success(parse(text).value)
    else if FenceInterior(text).Some? && parse(FenceInterior(text).value).Some? then
      Success(parse(FenceInterior(text).value).value)
    else if BraceSpan(text).Some? && parse(BraceSpan(text).value).Some? then
      Success(parse(BraceSpan(text).value).value)
    else Failure(ImportAgent.ParseError(text))
  }

  /** The two copies agree on every reply and every parser. */
  lemma CopiesAgree<J>(text: string, parse: string -> Option<J>)
    ensures ExtractJsonFromResponse(text, parse) == ImportAgent.ExtractJsonFromResponse(text, parse)
  {
  }
}
