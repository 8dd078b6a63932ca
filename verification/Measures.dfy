/** The measures query under SQL's three-valued logic: every row has a value or says why it has none. */
module Measures {
  import opened Prelude

  // --- SQL values -----------------------------------------------------------------------------------

  // A condition may be unknown, which is neither true nor false.
  type Truth = Option<bool>

  function And(a: Truth, b: Truth): Truth {
    if a == Some(false) || b == Some(false) then Some(false) else if a.None? || b.None? then None else Some(true)
  }

  function Or(a: Truth, b: Truth): Truth {
    if a == Some(true) || b == Some(true) then Some(true) else if a.None? || b.None? then None else Some(false)
  }

  function IsNull<T>(a: Option<T>): Truth {
    Some(a.None?)
  }

  function NotNull<T>(a: Option<T>): Truth {
    Some(a.Some?)
  }

  function Equal<T(==)>(a: Option<T>, b: Option<T>): Truth {
    if a.Some? && b.Some? then Some(a.value == b.value) else None
  }

  function Differ<T(==)>(a: Option<T>, b: Option<T>): Truth {
    if a.Some? && b.Some? then Some(a.value != b.value) else None
  }

  /** `IS DISTINCT FROM`, which is never unknown. */
  function Distinct<T(==)>(a: Option<T>, b: Option<T>): Truth {
    Some(a != b)
  }

  function Positive(a: Option<real>): Truth {
    if a.Some? then Some(a.value > 0.0) else None
  }

  function NotPositive(a: Option<real>): Truth {
    if a.Some? then Some(a.value <= 0.0) else None
  }

  function Plus(a: Option<real>, b: Option<real>): Option<real> {
    if a.Some? && b.Some? then Some(a.value + b.value) else None
  }

  function Minus(a: Option<real>, b: Option<real>): Option<real> {
    if a.Some? && b.Some? then Some(a.value - b.value) else None
  }

  function Times(a: Option<real>, b: Option<real>): Option<real> {
    if a.Some? && b.Some? then Some(a.value * b.value) else None
  }

  function Over(a: Option<real>, b: Option<real>): Option<real>
    requires b.Some? ==> b.value != 0.0
  {
    if a.Some? && b.Some? then Some(a.value / b.value) else None
  }

  function Coalesce<T>(a: Option<T>, b: Option<T>): Option<T> {
    if a.Some? then a else b
  }

  /** `CASE WHEN condition THEN result ... END`: the first condition that is true. */
  function Case<T>(whens: seq<(Truth, Option<T>)>): (r: Option<T>) {
    if whens == [] then None else if whens[0].0 == Some(true) then whens[0].1 else Case(whens[1..])
  }

  // --- What is measured ------------------------------------------------------------------------------

  const NO_CONCEPT := Some("no concept filed")
  const MIXED := Some("mixed currencies")
  const FINANCIAL_SERVICES := "financial services"

  // A row of a series; an outer join that finds none gives all nulls.
  datatype Row = Row(value: Option<real>, currency: Option<string>, reason: Option<string>)

  const NO_ROW := Row(None, None, None)

  // One company: the end of each fiscal year, its line items, the years holding two annual periods, its
  // statement format and its country.
  datatype Company = Company(fiscal: map<int, int>, items: map<(int, string), Row>, twoEnds: set<int>,
                             format: Option<string>, country: Option<string>)

  // What the query takes from elsewhere: the growth windows, the month a day falls in, the statutory rate of a
  // country on a day, and the n-th root and rounding of a figure.
  datatype Rules = Rules(windows: set<int>, month: int -> nat, rate: (string, int) -> Option<real>, root: (real, int) -> real,
                         round: real -> real)

  datatype Measure =
    | Ratio(top: string, bottom: string, notFs: bool)
    | Return(average: bool, top: string, balance: string, notFs: bool)
    | Growth(series: string, window: int)

  /** A line item has no reason of its own, and only fiscal years have line items. */
  predicate Filed(c: Company) {
    forall k :: k in c.items ==> c.items[k].reason.None? && k.0 in c.fiscal
  }

  function Item(c: Company, name: string, y: int): Row {
    if (y, name) in c.items then c.items[(y, name)] else NO_ROW
  }

  // --- The computed series -----------------------------------------------------------------------------

  function Fcf(c: Company, y: int): Row {
    var o, p := Item(c, "ocf", y), Item(c, "capex", y);
    Row(if Distinct(o.currency, p.currency) == Some(false) then Minus(o.value, p.value) else None,
        o.currency,
        Case([(And(And(NotNull(o.value), NotNull(p.value)), Distinct(o.currency, p.currency)), MIXED)]))
  }

  function OwnRate(pretax: Option<real>, tax: Option<real>): Option<real> {
    if Positive(pretax) == Some(true) then
      var rate := Over(tax, pretax);
      if rate.Some? && 0.0 <= rate.value <= 1.0 then rate else None
    else None
  }

  function StatutoryRate(r: Rules, c: Company, y: int): Option<real> {
    if y in c.fiscal && c.country.Some? then r.rate(c.country.value, c.fiscal[y]) else None
  }

  function AfterTax(r: Rules, c: Company, y: int): Row {
    var oi, pretax, tax := Item(c, "operating_income", y), Item(c, "pretax_income", y), Item(c, "income_tax", y);
    var own, statutory := OwnRate(pretax.value, tax.value), StatutoryRate(r, c, y);
    var missing := Or(Or(IsNull(oi.value), IsNull(pretax.value)), IsNull(tax.value));
    var reason := Case([(missing, NO_CONCEPT),
                        (And(IsNull(own), IsNull(c.country)), Some("no country of incorporation")),
                        (And(IsNull(own), IsNull(statutory)), Some("no statutory rate for the country and year"))]);
    Row(if reason.None? then Times(oi.value, Minus(Some(1.0), Coalesce(own, statutory))) else None, oi.currency, reason)
  }

  function Invested(c: Company, y: int): Row {
    var d, e, k := Item(c, "total_debt", y), Item(c, "book_value", y), Item(c, "cash", y);
    Row(if Distinct(d.currency, e.currency) == Some(false) && Distinct(e.currency, k.currency) == Some(false)
        then Minus(Plus(d.value, e.value), k.value) else None,
        e.currency,
        Case([(And(And(And(NotNull(d.value), NotNull(e.value)), NotNull(k.value)),
                   Or(Distinct(d.currency, e.currency), Distinct(e.currency, k.currency))), MIXED)]))
  }

  /** The row of a series in a year: a computed one exists for fiscal years only. */
  function Series(r: Rules, c: Company, name: string, y: int): Row {
    if y !in c.fiscal then NO_ROW
    else match name
      case "fcf" => Fcf(c, y)
      case "operating_income_after_tax" => AfterTax(r, c, y)
      case "invested_capital" => Invested(c, y)
      case _ => Item(c, name, y)
  }

  // --- Why an earlier year has no figure -----------------------------------------------------------------

  lemma Member(s: set<int>)
    ensures s == {} || exists x :: x in s
  {
    if forall x :: x !in s {
      assert s == {};
    }
  }

  lemma {:induction false} ExtremesExist(s: set<int>) returns (lo: int, hi: int)
    requires s != {}
    ensures lo in s && hi in s && forall y :: y in s ==> lo <= y <= hi
    decreases |s|
  {
    Member(s);
    var x :| x in s;
    lo, hi := x, x;
    var rest := s - {x};
    if rest != {} {
      var low, high := ExtremesExist(rest);
      lo, hi := if low < x then low else x, if high < x then x else high;
    }
    assert forall y :: y in s ==> y == x || y in rest;
  }

  /** The last year of some years, if there is one. */
  function Last(years: set<int>): (last: Option<int>)
    ensures last.Some? ==> last.value in years && forall y :: y in years ==> y <= last.value
    ensures last.None? ==> years == {}
  {
    if years == {} then None
    else
      assert exists m :: m in years && forall y :: y in years ==> y <= m by { var lo, hi := ExtremesExist(years); }
      var m :| m in years && forall y :: y in years ==> y <= m;
      Some(m)
  }

  function First(years: set<int>): (first: Option<int>)
    ensures first.Some? ==> first.value in years && forall y :: y in years ==> first.value <= y
    ensures first.None? ==> years == {}
  {
    if years == {} then None
    else
      assert exists m :: m in years && forall y :: y in years ==> m <= y by { var lo, hi := ExtremesExist(years); }
      var m :| m in years && forall y :: y in years ==> m <= y;
      Some(m)
  }

  function YearsBefore(c: Company, prior: int): set<int> {
    set y | y in c.fiscal && y < prior
  }

  function YearsAfter(c: Company, prior: int): set<int> {
    set y | y in c.fiscal && prior < y
  }

  function Month(r: Rules, c: Company, y: int): nat
    requires y in c.fiscal
  {
    r.month(c.fiscal[y] - 7)
  }

  /** The `gap` row for an earlier year, if there is one: there is for each growth window, and for one year back. */
  function Gap(r: Rules, c: Company, prior: int): Option<string> {
    if !exists n :: n in r.windows + {1} && prior + n in c.fiscal then None
    else
      var lo, hi := Last(YearsBefore(c, prior)), First(YearsAfter(c, prior));
      if prior in c.fiscal || lo.None? || hi.None? then Some("missing year")
      else if Month(r, c, lo.value) != Month(r, c, hi.value) || (exists t :: t in c.twoEnds && lo.value <= t <= hi.value)
      then Some("fiscal year changed")
      else Some("missing year")
  }

  // --- The measures --------------------------------------------------------------------------------------

  function FormatReason(notFs: bool, format: Option<string>): seq<(Truth, Option<string>)> {
    [(And(Some(notFs), Equal(format, Some(FINANCIAL_SERVICES))), Some("not meaningful for financial services")),
     (And(Some(notFs), IsNull(format)), Some("statement format unknown"))]
  }

  function Bottom(average: bool, now: Option<real>, prior: Option<real>): Option<real> {
    if average then Over(Plus(now, prior), Some(2.0)) else prior
  }

  function Currencies(rows: seq<Row>): set<string> {
    set i | 0 <= i < |rows| && rows[i].currency.Some? :: rows[i].currency.value
  }

  /** What the union of the three queries holds for one measure and year, before the outer query. */
  function Reason(r: Rules, c: Company, m: Measure, y: int): Option<string> {
    match m
    case Ratio(top, bottom, notFs) =>
      var t, b := Series(r, c, top, y), Series(r, c, bottom, y);
      Case(FormatReason(notFs, c.format) +
           [(IsNull(t.value), Coalesce(t.reason, NO_CONCEPT)),
            (IsNull(b.value), Coalesce(b.reason, NO_CONCEPT)),
            (Differ(t.currency, b.currency), MIXED),
            (NotPositive(b.value), Some("denominator zero or negative"))])
    case Return(average, top, balance, notFs) =>
      var t, n, p := Series(r, c, top, y), Series(r, c, balance, y), Series(r, c, balance, y - 1);
      Case(FormatReason(notFs, c.format) +
           [(IsNull(t.value), Coalesce(t.reason, NO_CONCEPT)),
            (IsNull(n.value), Coalesce(n.reason, NO_CONCEPT)),
            (IsNull(p.value), Coalesce(p.reason, Gap(r, c, y - 1))),
            (Some(|Currencies([t, n, p])| > 1), MIXED),
            (NotPositive(Bottom(average, n.value, p.value)), Some("denominator zero or negative"))])
    case Growth(series, window) =>
      var e, s := Series(r, c, series, y), Series(r, c, series, y - window);
      Case([(IsNull(e.value), Coalesce(e.reason, NO_CONCEPT)),
            (IsNull(s.value), Coalesce(s.reason, Gap(r, c, y - window))),
            (Differ(s.currency, e.currency), MIXED),
            (Or(NotPositive(s.value), NotPositive(e.value)), Some("not meaningful"))])
  }

  function RawValue(r: Rules, c: Company, m: Measure, y: int): Option<real> {
    match m
    case Ratio(top, bottom, _) =>
      var t, b := Series(r, c, top, y), Series(r, c, bottom, y);
      if Positive(b.value) == Some(true) then Over(t.value, b.value) else None
    case Return(average, top, balance, _) =>
      var t, n, p := Series(r, c, top, y), Series(r, c, balance, y), Series(r, c, balance, y - 1);
      var bottom := Bottom(average, n.value, p.value);
      if Positive(bottom) == Some(true) then Over(t.value, bottom) else None
    case Growth(series, window) =>
      var e, s := Series(r, c, series, y), Series(r, c, series, y - window);
      if And(Positive(s.value), Positive(e.value)) == Some(true)
      then Some(r.root(e.value.value / s.value.value, window) - 1.0) else None
  }

  /** The row of a measure for a fiscal year: its value, null where a reason is given, and the reason. */
  function Measured(r: Rules, c: Company, m: Measure, y: int): (Option<real>, Option<string>) {
    var reason, raw := Reason(r, c, m, y), RawValue(r, c, m, y);
    (if reason.None? && raw.Some? then Some(r.round(raw.value)) else None, reason)
  }

  // --- Every empty value is explained -----------------------------------------------------------------------

  predicate FormatAllows(notFs: bool, format: Option<string>) {
    notFs ==> format.Some? && format.value != FINANCIAL_SERVICES
  }

  /** At most one of the currencies that are known. */
  predicate OneCurrency(rows: seq<Row>) {
    forall i, j :: 0 <= i < |rows| && 0 <= j < |rows| && rows[i].currency.Some? && rows[j].currency.Some? ==>
      rows[i].currency == rows[j].currency
  }

  lemma CurrenciesCount(rows: seq<Row>)
    ensures |Currencies(rows)| <= 1 <==> OneCurrency(rows)
  {
    if |Currencies(rows)| <= 1 {
      forall i, j | 0 <= i < |rows| && 0 <= j < |rows| && rows[i].currency.Some? && rows[j].currency.Some?
        ensures rows[i].currency == rows[j].currency
      {
        var a, b := rows[i].currency.value, rows[j].currency.value;
        assert a in Currencies(rows) && b in Currencies(rows);
        if a != b {
          assert {a, b} <= Currencies(rows);
          Bigger({a, b}, Currencies(rows));
        }
      }
    }
    if OneCurrency(rows) && Currencies(rows) != {} {
      var a :| a in Currencies(rows);
      assert Currencies(rows) == {a};
    }
  }

  lemma Bigger(a: set<string>, b: set<string>)
    requires a <= b
    ensures |a| <= |b|
  {
    assert b == a + (b - a);
  }

  /** What each measure needs to have a value, told apart from how the query asks. */
  predicate Measurable(r: Rules, c: Company, m: Measure, y: int) {
    match m
    case Ratio(top, bottom, notFs) =>
      var t, b := Series(r, c, top, y), Series(r, c, bottom, y);
      FormatAllows(notFs, c.format) && t.value.Some? && b.value.Some? && OneCurrency([t, b]) && b.value.value > 0.0
    case Return(average, top, balance, notFs) =>
      var t, n, p := Series(r, c, top, y), Series(r, c, balance, y), Series(r, c, balance, y - 1);
      FormatAllows(notFs, c.format) && t.value.Some? && n.value.Some? && p.value.Some? && OneCurrency([t, n, p])
      && (if average then n.value.value + p.value.value else p.value.value) > 0.0
    case Growth(series, window) =>
      var e, s := Series(r, c, series, y), Series(r, c, series, y - window);
      e.value.Some? && s.value.Some? && OneCurrency([s, e]) && s.value.value > 0.0 && e.value.value > 0.0
  }

  /** A measure's window is one the gaps are worked out for. */
  predicate Windowed(r: Rules, m: Measure) {
    m.Growth? ==> m.window in r.windows
  }

  /** `gap` holds a reason for every earlier year a measure of a fiscal year reads. */
  lemma GapCovers(r: Rules, c: Company, y: int, n: int)
    requires y in c.fiscal && n in r.windows + {1}
    ensures Gap(r, c, y - n).Some?
  {
    assert (y - n) + n in c.fiscal;
  }

  /** The two format reasons are given exactly when the format does not allow the measure. */
  lemma FormatGives(notFs: bool, format: Option<string>, rest: seq<(Truth, Option<string>)>)
    ensures Case(FormatReason(notFs, format) + rest) ==
      if FormatAllows(notFs, format) then Case(rest)
      else if format.None? then Some("statement format unknown") else Some("not meaningful for financial services")
  {
    var whens := FormatReason(notFs, format) + rest;
    assert whens[1..][1..] == rest;
    assert whens[0] == FormatReason(notFs, format)[0] && whens[1..][0] == FormatReason(notFs, format)[1];
  }

  lemma CaseCons(a: (Truth, Option<string>), rest: seq<(Truth, Option<string>)>)
    ensures Case([a] + rest) == if a.0 == Some(true) then a.1 else Case(rest)
  {
    assert ([a] + rest)[1..] == rest;
  }

  lemma Case1(a: (Truth, Option<string>))
    ensures Case([a]) == if a.0 == Some(true) then a.1 else None
  {
  }

  lemma Case3(a: (Truth, Option<string>), b: (Truth, Option<string>), d: (Truth, Option<string>))
    ensures Case([a, b, d]) == if a.0 == Some(true) then a.1 else if b.0 == Some(true) then b.1
                               else if d.0 == Some(true) then d.1 else None
  {
    assert [a, b, d] == [a] + [b, d] && [b, d] == [b] + [d] && [d] == [d] + [];
    CaseCons(a, [b, d]);
    CaseCons(b, [d]);
    CaseCons(d, []);
  }

  lemma Case4(a: (Truth, Option<string>), b: (Truth, Option<string>), d: (Truth, Option<string>), e: (Truth, Option<string>))
    ensures Case([a, b, d, e]) == if a.0 == Some(true) then a.1 else if b.0 == Some(true) then b.1
                                  else if d.0 == Some(true) then d.1 else if e.0 == Some(true) then e.1 else None
  {
    assert [a, b, d, e] == [a] + [b, d, e];
    CaseCons(a, [b, d, e]);
    Case3(b, d, e);
  }

  lemma Case5(a: (Truth, Option<string>), b: (Truth, Option<string>), d: (Truth, Option<string>), e: (Truth, Option<string>),
              f: (Truth, Option<string>))
    ensures Case([a, b, d, e, f]) == if a.0 == Some(true) then a.1 else Case([b, d, e, f])
  {
    assert [a, b, d, e, f] == [a] + [b, d, e, f];
    CaseCons(a, [b, d, e, f]);
  }

  /** A reason is given exactly when the measure lacks something it needs. */
  lemma ReasonIff(r: Rules, c: Company, m: Measure, y: int)
    requires y in c.fiscal && Windowed(r, m)
    ensures Reason(r, c, m, y).None? <==> Measurable(r, c, m, y)
  {
    hide Series, Gap, Case, FormatReason;
    match m {
      case Ratio(top, bottom, notFs) =>
        var t, b := Series(r, c, top, y), Series(r, c, bottom, y);
        var whens := [(IsNull(t.value), Coalesce(t.reason, NO_CONCEPT)), (IsNull(b.value), Coalesce(b.reason, NO_CONCEPT)),
                      (Differ(t.currency, b.currency), MIXED), (NotPositive(b.value), Some("denominator zero or negative"))];
        FormatGives(notFs, c.format, whens);
        Case4(whens[0], whens[1], whens[2], whens[3]);
        TwoCurrencies(t, b);
      case Return(average, top, balance, notFs) =>
        var t, n, p := Series(r, c, top, y), Series(r, c, balance, y), Series(r, c, balance, y - 1);
        var whens := [(IsNull(t.value), Coalesce(t.reason, NO_CONCEPT)), (IsNull(n.value), Coalesce(n.reason, NO_CONCEPT)),
                      (IsNull(p.value), Coalesce(p.reason, Gap(r, c, y - 1))), (Some(|Currencies([t, n, p])| > 1), MIXED),
                      (NotPositive(Bottom(average, n.value, p.value)), Some("denominator zero or negative"))];
        GapCovers(r, c, y, 1);
        FormatGives(notFs, c.format, whens);
        Case5(whens[0], whens[1], whens[2], whens[3], whens[4]);
        Case4(whens[1], whens[2], whens[3], whens[4]);
        CurrenciesCount([t, n, p]);
      case Growth(series, window) =>
        var e, s := Series(r, c, series, y), Series(r, c, series, y - window);
        GapCovers(r, c, y, window);
        Case4((IsNull(e.value), Coalesce(e.reason, NO_CONCEPT)), (IsNull(s.value), Coalesce(s.reason, Gap(r, c, y - window))),
              (Differ(s.currency, e.currency), MIXED), (Or(NotPositive(s.value), NotPositive(e.value)), Some("not meaningful")));
        TwoCurrencies(s, e);
    }
  }

  lemma TwoCurrencies(a: Row, b: Row)
    ensures OneCurrency([a, b]) <==> Differ(a.currency, b.currency) != Some(true)
  {
    assert [a, b][0] == a && [a, b][1] == b;
  }

  /** The figure of a measure that can be measured. */
  function Figure(r: Rules, c: Company, m: Measure, y: int): real
    requires Measurable(r, c, m, y)
  {
    match m
    case Ratio(top, bottom, _) => Series(r, c, top, y).value.value / Series(r, c, bottom, y).value.value
    case Return(average, top, balance, _) =>
      var now, prior := Series(r, c, balance, y).value.value, Series(r, c, balance, y - 1).value.value;
      Series(r, c, top, y).value.value / if average then (now + prior) / 2.0 else prior
    case Growth(series, window) =>
      r.root(Series(r, c, series, y).value.value / Series(r, c, series, y - window).value.value, window) - 1.0
  }

  /** Every ratio, return and growth row of a fiscal year has exactly one of a value and a reason; it has the
      value when, and only when, everything the measure needs is there, and the value is then its figure. */
  lemma ExactlyOne(r: Rules, c: Company, m: Measure, y: int)
    requires y in c.fiscal && Windowed(r, m)
    ensures
      var (value, reason) := Measured(r, c, m, y);
      && (value.Some? <==> reason.None?)
      && (value.Some? <==> Measurable(r, c, m, y))
      && (value.Some? ==> value.value == r.round(Figure(r, c, m, y)))
  {
    hide Series, Reason;
    ReasonIff(r, c, m, y);
  }

  // --- Why there is no value ----------------------------------------------------------------------------------

  /** Operating income after tax has exactly one of a value and a reason, in any year. */
  lemma AfterTaxExplained(r: Rules, c: Company, y: int)
    ensures AfterTax(r, c, y).value.Some? <==> AfterTax(r, c, y).reason.None?
  {
    var oi, pretax, tax := Item(c, "operating_income", y), Item(c, "pretax_income", y), Item(c, "income_tax", y);
    var own, statutory := OwnRate(pretax.value, tax.value), StatutoryRate(r, c, y);
    var missing := Or(Or(IsNull(oi.value), IsNull(pretax.value)), IsNull(tax.value));
    var country := (And(IsNull(own), IsNull(c.country)), Some("no country of incorporation"));
    var rate := (And(IsNull(own), IsNull(statutory)), Some("no statutory rate for the country and year"));
    Case3((missing, NO_CONCEPT), country, rate);
  }

  /** A computed series with a reason has no value, so the reason reaches every measure that reads it. */
  lemma ReasonMeansNoValue(r: Rules, c: Company, name: string, y: int)
    requires Filed(c)
    ensures Series(r, c, name, y).reason.Some? ==> Series(r, c, name, y).value.None?
  {
    hide OwnRate, StatutoryRate;
    match name {
      case "operating_income_after_tax" => AfterTaxExplained(r, c, y);
      case "fcf" =>
        var o, p := Item(c, "ocf", y), Item(c, "capex", y);
        Case1((And(And(NotNull(o.value), NotNull(p.value)), Distinct(o.currency, p.currency)), MIXED));
      case "invested_capital" =>
        var d, e, k := Item(c, "total_debt", y), Item(c, "book_value", y), Item(c, "cash", y);
        Case1((And(And(And(NotNull(d.value), NotNull(e.value)), NotNull(k.value)),
                   Or(Distinct(d.currency, e.currency), Distinct(e.currency, k.currency))), MIXED));
      case _ =>
    }
  }

  /** The first thing missing is the one that is given: a numerator with no figure, where the format allows the
      measure, is explained by its own reason and otherwise as not filed. */
  lemma MissingTopExplained(r: Rules, c: Company, m: Measure, y: int)
    requires y in c.fiscal && !m.Growth? && FormatAllows(m.notFs, c.format)
    requires Series(r, c, m.top, y).value.None?
    ensures Measured(r, c, m, y).1 == Coalesce(Series(r, c, m.top, y).reason, NO_CONCEPT)
  {
    hide Series, Gap, Case, FormatReason;
    match m {
      case Ratio(top, bottom, notFs) =>
        var t, b := Series(r, c, top, y), Series(r, c, bottom, y);
        var whens := [(IsNull(t.value), Coalesce(t.reason, NO_CONCEPT)), (IsNull(b.value), Coalesce(b.reason, NO_CONCEPT)),
                      (Differ(t.currency, b.currency), MIXED), (NotPositive(b.value), Some("denominator zero or negative"))];
        FormatGives(notFs, c.format, whens);
        Case4(whens[0], whens[1], whens[2], whens[3]);
      case Return(average, top, balance, notFs) =>
        var t, n, p := Series(r, c, top, y), Series(r, c, balance, y), Series(r, c, balance, y - 1);
        var whens := [(IsNull(t.value), Coalesce(t.reason, NO_CONCEPT)), (IsNull(n.value), Coalesce(n.reason, NO_CONCEPT)),
                      (IsNull(p.value), Coalesce(p.reason, Gap(r, c, y - 1))), (Some(|Currencies([t, n, p])| > 1), MIXED),
                      (NotPositive(Bottom(average, n.value, p.value)), Some("denominator zero or negative"))];
        FormatGives(notFs, c.format, whens);
        Case5(whens[0], whens[1], whens[2], whens[3], whens[4]);
    }
  }

  /** A gap reads "fiscal year changed" exactly when the year has no annual period, years stand on both sides of
      it, and the year end moved between the nearest of them. */
  lemma GapMeans(r: Rules, c: Company, prior: int, lo: int, hi: int)
    requires lo in c.fiscal && hi in c.fiscal && lo < prior < hi && Gap(r, c, prior).Some?
    requires forall y :: y in c.fiscal && lo < y < hi ==> y == prior
    ensures Gap(r, c, prior) == Some("fiscal year changed") <==>
      prior !in c.fiscal
      && (r.month(c.fiscal[lo] - 7) != r.month(c.fiscal[hi] - 7) || exists t :: t in c.twoEnds && lo <= t <= hi)
  {
    assert lo in YearsBefore(c, prior) && hi in YearsAfter(c, prior);
    assert Last(YearsBefore(c, prior)) == Some(lo);
    assert First(YearsAfter(c, prior)) == Some(hi);
  }

  // --- What is worked out, and which reason is given, without null logic --------------------------------------------

  /** Free cash flow: operating cash flow less capital expenditure, where both are filed in one currency. */
  lemma FcfFigure(c: Company, y: int)
    ensures
      var o, p := Item(c, "ocf", y), Item(c, "capex", y);
      var both := o.value.Some? && p.value.Some?;
      && Fcf(c, y).value == (if both && o.currency == p.currency then Some(o.value.value - p.value.value) else None)
      && Fcf(c, y).reason == (if both && o.currency != p.currency then MIXED else None)
      && Fcf(c, y).currency == o.currency
  {
    hide Item, Case;
    var o, p := Item(c, "ocf", y), Item(c, "capex", y);
    Case1((And(And(NotNull(o.value), NotNull(p.value)), Distinct(o.currency, p.currency)), MIXED));
  }

  /** Invested capital: debt and equity less cash, where the three are filed in one currency. */
  lemma InvestedFigure(c: Company, y: int)
    ensures
      var d, e, k := Item(c, "total_debt", y), Item(c, "book_value", y), Item(c, "cash", y);
      var all := d.value.Some? && e.value.Some? && k.value.Some?;
      && Invested(c, y).value == (if all && d.currency == e.currency == k.currency
                                  then Some(d.value.value + e.value.value - k.value.value) else None)
      && Invested(c, y).reason == (if all && !(d.currency == e.currency == k.currency) then MIXED else None)
      && Invested(c, y).currency == e.currency
  {
    hide Item, Case;
    var d, e, k := Item(c, "total_debt", y), Item(c, "book_value", y), Item(c, "cash", y);
    Case1((And(And(And(NotNull(d.value), NotNull(e.value)), NotNull(k.value)),
               Or(Distinct(d.currency, e.currency), Distinct(e.currency, k.currency))), MIXED));
  }

  /** The rate filed: tax over a positive pretax income, where that is from nothing to all of it. */
  lemma FiledRate(pretax: Option<real>, tax: Option<real>)
    ensures OwnRate(pretax, tax).Some? <==>
            pretax.Some? && tax.Some? && pretax.value > 0.0 && 0.0 <= tax.value / pretax.value <= 1.0
    ensures OwnRate(pretax, tax).Some? ==> OwnRate(pretax, tax).value == tax.value / pretax.value
  {
  }

  /** Operating income after tax: less its share by the rate filed, or else by the country's rate at the year's end. */
  lemma AfterTaxFigure(r: Rules, c: Company, y: int)
    requires y in c.fiscal
    ensures
      var oi, pretax, tax := Item(c, "operating_income", y), Item(c, "pretax_income", y), Item(c, "income_tax", y);
      var own := OwnRate(pretax.value, tax.value);
      var statutory := if c.country.Some? then r.rate(c.country.value, c.fiscal[y]) else None;
      var rate := if own.Some? then own else statutory;
      && AfterTax(r, c, y).currency == oi.currency
      && AfterTax(r, c, y).reason ==
           (if oi.value.None? || pretax.value.None? || tax.value.None? then NO_CONCEPT
            else if own.Some? then None
            else if c.country.None? then Some("no country of incorporation")
            else if statutory.None? then Some("no statutory rate for the country and year")
            else None)
      && AfterTax(r, c, y).value ==
           (if oi.value.Some? && pretax.value.Some? && tax.value.Some? && rate.Some?
            then Times(oi.value, Some(1.0 - rate.value)) else None)
  {
    hide Item, Case, OwnRate;
    var oi, pretax, tax := Item(c, "operating_income", y), Item(c, "pretax_income", y), Item(c, "income_tax", y);
    var own, statutory := OwnRate(pretax.value, tax.value), StatutoryRate(r, c, y);
    var missing := Or(Or(IsNull(oi.value), IsNull(pretax.value)), IsNull(tax.value));
    Case3((missing, NO_CONCEPT), (And(IsNull(own), IsNull(c.country)), Some("no country of incorporation")),
          (And(IsNull(own), IsNull(statutory)), Some("no statutory rate for the country and year")));
  }

  function Otherwise(reason: Option<string>, other: Option<string>): Option<string> {
    if reason.Some? then reason else other
  }

  predicate TwoKnown(a: Row, b: Row) {
    a.currency.Some? && b.currency.Some? && a.currency != b.currency
  }

  /** The reason given, the first that holds: the format; an amount missing, numerator first, by its own reason or as
      not filed or by the gap; two known currencies; a denominator, or a growing amount, not above zero. */
  function FirstReason(r: Rules, c: Company, m: Measure, y: int): Option<string> {
    if !m.Growth? && m.notFs && c.format == Some(FINANCIAL_SERVICES) then Some("not meaningful for financial services")
    else if !m.Growth? && m.notFs && c.format.None? then Some("statement format unknown")
    else
      match m
      case Ratio(top, bottom, _) =>
        var t, b := Series(r, c, top, y), Series(r, c, bottom, y);
        if t.value.None? then Otherwise(t.reason, NO_CONCEPT)
        else if b.value.None? then Otherwise(b.reason, NO_CONCEPT)
        else if TwoKnown(t, b) then MIXED
        else if b.value.value <= 0.0 then Some("denominator zero or negative")
        else None
      case Return(average, top, balance, _) =>
        var t, n, p := Series(r, c, top, y), Series(r, c, balance, y), Series(r, c, balance, y - 1);
        if t.value.None? then Otherwise(t.reason, NO_CONCEPT)
        else if n.value.None? then Otherwise(n.reason, NO_CONCEPT)
        else if p.value.None? then Otherwise(p.reason, Gap(r, c, y - 1))
        else if TwoKnown(t, n) || TwoKnown(t, p) || TwoKnown(n, p) then MIXED
        else if (if average then n.value.value + p.value.value else p.value.value) <= 0.0 then Some("denominator zero or negative")
        else None
      case Growth(series, window) =>
        var e, s := Series(r, c, series, y), Series(r, c, series, y - window);
        if e.value.None? then Otherwise(e.reason, NO_CONCEPT)
        else if s.value.None? then Otherwise(s.reason, Gap(r, c, y - window))
        else if TwoKnown(s, e) then MIXED
        else if s.value.value <= 0.0 || e.value.value <= 0.0 then Some("not meaningful")
        else None
  }

  lemma ReasonIsFirst(r: Rules, c: Company, m: Measure, y: int)
    requires y in c.fiscal && Windowed(r, m)
    ensures Reason(r, c, m, y) == FirstReason(r, c, m, y)
  {
    hide Series, Gap, Case, FormatReason;
    match m {
      case Ratio(top, bottom, notFs) =>
        var t, b := Series(r, c, top, y), Series(r, c, bottom, y);
        var whens := [(IsNull(t.value), Coalesce(t.reason, NO_CONCEPT)), (IsNull(b.value), Coalesce(b.reason, NO_CONCEPT)),
                      (Differ(t.currency, b.currency), MIXED), (NotPositive(b.value), Some("denominator zero or negative"))];
        FormatGives(notFs, c.format, whens);
        Case4(whens[0], whens[1], whens[2], whens[3]);
      case Return(average, top, balance, notFs) =>
        var t, n, p := Series(r, c, top, y), Series(r, c, balance, y), Series(r, c, balance, y - 1);
        var whens := [(IsNull(t.value), Coalesce(t.reason, NO_CONCEPT)), (IsNull(n.value), Coalesce(n.reason, NO_CONCEPT)),
                      (IsNull(p.value), Coalesce(p.reason, Gap(r, c, y - 1))), (Some(|Currencies([t, n, p])| > 1), MIXED),
                      (NotPositive(Bottom(average, n.value, p.value)), Some("denominator zero or negative"))];
        FormatGives(notFs, c.format, whens);
        Case5(whens[0], whens[1], whens[2], whens[3], whens[4]);
        Case4(whens[1], whens[2], whens[3], whens[4]);
        CurrenciesCount([t, n, p]);
        ThreeCurrencies(t, n, p);
        hide Currencies;
      case Growth(series, window) =>
        var e, s := Series(r, c, series, y), Series(r, c, series, y - window);
        Case4((IsNull(e.value), Coalesce(e.reason, NO_CONCEPT)), (IsNull(s.value), Coalesce(s.reason, Gap(r, c, y - window))),
              (Differ(s.currency, e.currency), MIXED), (Or(NotPositive(s.value), NotPositive(e.value)), Some("not meaningful")));
    }
  }

  lemma ThreeCurrencies(t: Row, n: Row, p: Row)
    ensures OneCurrency([t, n, p]) <==> !(TwoKnown(t, n) || TwoKnown(t, p) || TwoKnown(n, p))
  {
    assert [t, n, p][0] == t && [t, n, p][1] == n && [t, n, p][2] == p;
  }

  // --- Which figures mix currencies -------------------------------------------------------------------------------

  /** The line items whose amounts a series adds or subtracts. */
  function Leaves(c: Company, name: string, y: int): seq<Row> {
    match name
    case "fcf" => [Item(c, "ocf", y), Item(c, "capex", y)]
    case "operating_income_after_tax" => [Item(c, "operating_income", y)]
    case "invested_capital" => [Item(c, "total_debt", y), Item(c, "book_value", y), Item(c, "cash", y)]
    case _ => [Item(c, name, y)]
  }

  /** The line items whose amounts give a series its tax rate, where the filed rate is used. */
  function Rates(c: Company, name: string, y: int): seq<Row> {
    var pretax, tax := Item(c, "pretax_income", y), Item(c, "income_tax", y);
    if name == "operating_income_after_tax" && OwnRate(pretax.value, tax.value).Some? then [pretax, tax] else []
  }

  /** Every amount in a series that has a value is in the series' own currency, known or not. */
  lemma SeriesCurrency(r: Rules, c: Company, name: string, y: int)
    requires Series(r, c, name, y).value.Some?
    ensures forall i :: 0 <= i < |Leaves(c, name, y)| ==> Leaves(c, name, y)[i].currency == Series(r, c, name, y).currency
  {
    hide OwnRate, StatutoryRate, Case;
  }

  /** The series a measure reads, each with its year. */
  function Reads(m: Measure, y: int): seq<(string, int)> {
    match m
    case Ratio(top, bottom, _) => [(top, y), (bottom, y)]
    case Return(_, top, balance, _) => [(top, y), (balance, y), (balance, y - 1)]
    case Growth(series, window) => [(series, y), (series, y - window)]
  }

  /** No value adds, subtracts or divides amounts in two known currencies, however deep they lie, but for those
      that only make its tax rate. */
  lemma NoMixedCurrencies(r: Rules, c: Company, m: Measure, y: int, i: nat, j: nat, a: nat, b: nat)
    requires y in c.fiscal && Windowed(r, m) && Measured(r, c, m, y).0.Some?
    requires i < |Reads(m, y)| && j < |Reads(m, y)|
    requires a < |Leaves(c, Reads(m, y)[i].0, Reads(m, y)[i].1)| && b < |Leaves(c, Reads(m, y)[j].0, Reads(m, y)[j].1)|
    ensures
      var one, other := Leaves(c, Reads(m, y)[i].0, Reads(m, y)[i].1)[a], Leaves(c, Reads(m, y)[j].0, Reads(m, y)[j].1)[b];
      one.currency.Some? && other.currency.Some? ==> one.currency == other.currency
  {
    hide Series, Leaves, Measured;
    ExactlyOne(r, c, m, y);
    var (n1, y1) := Reads(m, y)[i];
    var (n2, y2) := Reads(m, y)[j];
    SeriesCurrency(r, c, n1, y1);
    SeriesCurrency(r, c, n2, y2);
    match m {
      case Ratio(top, bottom, _) =>
        var rows := [Series(r, c, top, y), Series(r, c, bottom, y)];
        assert rows[i] == Series(r, c, n1, y1) && rows[j] == Series(r, c, n2, y2);
      case Return(_, top, balance, _) =>
        var rows := [Series(r, c, top, y), Series(r, c, balance, y), Series(r, c, balance, y - 1)];
        assert rows[i] == Series(r, c, n1, y1) && rows[j] == Series(r, c, n2, y2);
      case Growth(series, window) =>
        var rows := [Series(r, c, series, y - window), Series(r, c, series, y)];
        assert rows[1 - i] == Series(r, c, n1, y1) && rows[1 - j] == Series(r, c, n2, y2);
    }
  }

  /** The known currencies of the amounts a measure's series add or subtract. */
  function LeafCurrencies(c: Company, m: Measure, y: int): set<string> {
    set k, known | 0 <= k < |Reads(m, y)| && known in Currencies(Leaves(c, Reads(m, y)[k].0, Reads(m, y)[k].1)) :: known
  }

  /** The known currencies of the amounts that make the tax rates a measure uses. */
  function RateCurrencies(c: Company, m: Measure, y: int): set<string> {
    set k, known | 0 <= k < |Reads(m, y)| && known in Currencies(Rates(c, Reads(m, y)[k].0, Reads(m, y)[k].1)) :: known
  }

  /** A measure is worked out from amounts in two known currencies. */
  ghost predicate Mixed(c: Company, m: Measure, y: int) {
    exists a, b :: a in LeafCurrencies(c, m, y) + RateCurrencies(c, m, y)
                   && b in LeafCurrencies(c, m, y) + RateCurrencies(c, m, y) && a != b
  }

  lemma LeavesAgree(r: Rules, c: Company, m: Measure, y: int)
    requires y in c.fiscal && Windowed(r, m) && Measured(r, c, m, y).0.Some?
    ensures forall a, b :: a in LeafCurrencies(c, m, y) && b in LeafCurrencies(c, m, y) ==> a == b
  {
    hide Measured, Leaves, Reads;
    forall one, other | one in LeafCurrencies(c, m, y) && other in LeafCurrencies(c, m, y)
      ensures one == other
    {
      var i: nat :| i < |Reads(m, y)| && one in Currencies(Leaves(c, Reads(m, y)[i].0, Reads(m, y)[i].1));
      var j: nat :| j < |Reads(m, y)| && other in Currencies(Leaves(c, Reads(m, y)[j].0, Reads(m, y)[j].1));
      var first, second := Leaves(c, Reads(m, y)[i].0, Reads(m, y)[i].1), Leaves(c, Reads(m, y)[j].0, Reads(m, y)[j].1);
      var a: nat :| a < |first| && first[a].currency == Some(one);
      var b: nat :| b < |second| && second[b].currency == Some(other);
      NoMixedCurrencies(r, c, m, y, i, j, a, b);
    }
  }

  /** Operating income after tax of a read year is worked out with the rate filed for it. */
  predicate UsesOwnRate(c: Company, m: Measure, y: int, k: nat)
    requires k < |Reads(m, y)|
  {
    Rates(c, Reads(m, y)[k].0, Reads(m, y)[k].1) != []
  }

  /** The operating income, pretax income and tax of a read year are not all in one known currency. */
  predicate TaxedAcross(c: Company, m: Measure, y: int, k: nat)
    requires k < |Reads(m, y)|
  {
    var at := Reads(m, y)[k].1;
    !OneCurrency([Item(c, "operating_income", at), Item(c, "pretax_income", at), Item(c, "income_tax", at)])
  }

  /** A value mixes currencies exactly when an amount behind a tax rate it uses is in another known currency than
      some amount it reads. Where operating income's own currency is known, that is exactly when a year it
      reads after tax, by the rate filed, has operating income, pretax income and tax in more than one. */
  lemma MixedIff(r: Rules, c: Company, m: Measure, y: int)
    requires y in c.fiscal && Windowed(r, m) && Measured(r, c, m, y).0.Some?
    ensures Mixed(c, m, y) <==>
      exists a, b :: a in RateCurrencies(c, m, y) && b in LeafCurrencies(c, m, y) + RateCurrencies(c, m, y) && a != b
    ensures
      (forall k :: 0 <= k < |Reads(m, y)| && UsesOwnRate(c, m, y, k) ==> Item(c, "operating_income", Reads(m, y)[k].1).currency.Some?)
      ==> (Mixed(c, m, y) <==> exists k :: 0 <= k < |Reads(m, y)| && UsesOwnRate(c, m, y, k) && TaxedAcross(c, m, y, k))
  {
    hide Measured, Reads, LeafCurrencies, RateCurrencies, TaxedAcross, UsesOwnRate, Item;
    LeavesAgree(r, c, m, y);
    if forall k :: 0 <= k < |Reads(m, y)| && UsesOwnRate(c, m, y, k) ==> Item(c, "operating_income", Reads(m, y)[k].1).currency.Some? {
      if a, b :| a in RateCurrencies(c, m, y) && b in LeafCurrencies(c, m, y) + RateCurrencies(c, m, y) && a != b {
        var k := RateOf(c, m, y, a);
        OwnLeaf(c, m, y, k);
        if b in RateCurrencies(c, m, y) {
          var j := RateOf(c, m, y, b);
          OwnLeaf(c, m, y, j);
          OtherCurrency(c, m, y, j, b);
        }
        OtherCurrency(c, m, y, k, a);
      }
      if k :| 0 <= k < |Reads(m, y)| && UsesOwnRate(c, m, y, k) && TaxedAcross(c, m, y, k) {
        OwnLeaf(c, m, y, k);
        AcrossIsMixed(c, m, y, k);
      }
    }
  }

  /** The read year whose rate an amount makes. */
  lemma RateOf(c: Company, m: Measure, y: int, a: string) returns (k: nat)
    requires a in RateCurrencies(c, m, y)
    ensures k < |Reads(m, y)| && UsesOwnRate(c, m, y, k)
    ensures Item(c, "pretax_income", Reads(m, y)[k].1).currency == Some(a) || Item(c, "income_tax", Reads(m, y)[k].1).currency == Some(a)
  {
    hide Reads, Item, OwnRate;
    k :| k < |Reads(m, y)| && a in Currencies(Rates(c, Reads(m, y)[k].0, Reads(m, y)[k].1));
  }

  lemma OwnLeaf(c: Company, m: Measure, y: int, k: nat)
    requires k < |Reads(m, y)| && UsesOwnRate(c, m, y, k)
    ensures
      var oi := Item(c, "operating_income", Reads(m, y)[k].1);
      oi.currency.Some? ==> oi.currency.value in LeafCurrencies(c, m, y)
  {
    hide Reads, Item, OwnRate;
    var (name, at) := Reads(m, y)[k];
    assert Leaves(c, name, at) == [Item(c, "operating_income", at)];
    if Item(c, "operating_income", at).currency.Some? {
      assert Item(c, "operating_income", at).currency.value in Currencies(Leaves(c, name, at)) by {
        assert Leaves(c, name, at)[0] == Item(c, "operating_income", at);
      }
    }
  }

  lemma OtherCurrency(c: Company, m: Measure, y: int, k: nat, a: string)
    requires k < |Reads(m, y)|
    requires
      var at := Reads(m, y)[k].1;
      Item(c, "pretax_income", at).currency == Some(a) || Item(c, "income_tax", at).currency == Some(a)
    ensures
      var oi := Item(c, "operating_income", Reads(m, y)[k].1);
      oi.currency.Some? && oi.currency.value != a ==> TaxedAcross(c, m, y, k)
  {
    hide Reads, Item;
    var at := Reads(m, y)[k].1;
    var rows := [Item(c, "operating_income", at), Item(c, "pretax_income", at), Item(c, "income_tax", at)];
    assert rows[0].currency == Item(c, "operating_income", at).currency;
    assert rows[1].currency == Some(a) || rows[2].currency == Some(a);
  }

  lemma AcrossIsMixed(c: Company, m: Measure, y: int, k: nat)
    requires k < |Reads(m, y)| && UsesOwnRate(c, m, y, k) && TaxedAcross(c, m, y, k)
    ensures Mixed(c, m, y)
  {
    hide Reads, Item, OwnRate;
    var (name, at) := Reads(m, y)[k];
    OwnLeaf(c, m, y, k);
    assert Rates(c, name, at) == [Item(c, "pretax_income", at), Item(c, "income_tax", at)];
    var rates := Rates(c, name, at);
    assert forall i :: 0 <= i < 2 && rates[i].currency.Some? ==> rates[i].currency.value in Currencies(rates);
    assert Currencies(rates) <= RateCurrencies(c, m, y);
    var rows := [Item(c, "operating_income", at), Item(c, "pretax_income", at), Item(c, "income_tax", at)];
    assert rows[1] == rates[0] && rows[2] == rates[1];
    var i, j :| 0 <= i < 3 && 0 <= j < 3 && rows[i].currency.Some? && rows[j].currency.Some? && rows[i].currency != rows[j].currency;
    hide LeafCurrencies, RateCurrencies, Currencies;
    assert forall n :: 1 <= n < 3 && rows[n].currency.Some? ==> rows[n].currency.value in RateCurrencies(c, m, y);
    assert rows[i].currency.value in LeafCurrencies(c, m, y) + RateCurrencies(c, m, y);
    assert rows[j].currency.value in LeafCurrencies(c, m, y) + RateCurrencies(c, m, y);
  }

  /** A company that files its pretax income in euros and everything else in dollars. */
  function TwoCurrencyFiler(): Company {
    Company(map[2023 := 0, 2024 := 366],
            map y: int, name: string | y in {2023, 2024} && name in Amounts().Keys ::
              (y, name) := Row(Some(Amounts()[name]), Some(if name == "pretax_income" then "EUR" else "USD"), None),
            {}, Some("industrial"), Some("US"))
  }

  function Amounts(): map<string, real> {
    map["operating_income" := 100.0, "pretax_income" := 80.0, "income_tax" := 20.0,
        "total_debt" := 100.0, "book_value" := 100.0, "cash" := 50.0]
  }

  lemma FilerItems(y: int, name: string)
    requires y in {2023, 2024} && name in Amounts()
    ensures Item(TwoCurrencyFiler(), name, y) ==
            Row(Some(Amounts()[name]), Some(if name == "pretax_income" then "EUR" else "USD"), None)
  {
    assert (y, name) in TwoCurrencyFiler().items;
  }

  lemma FilerYears()
    ensures 2023 in TwoCurrencyFiler().fiscal && 2024 in TwoCurrencyFiler().fiscal
  {
  }

  lemma FilerSeries(r: Rules)
    ensures AfterTax(r, TwoCurrencyFiler(), 2024) == Row(Some(75.0), Some("USD"), None)
    ensures Invested(TwoCurrencyFiler(), 2023) == Invested(TwoCurrencyFiler(), 2024) == Row(Some(150.0), Some("USD"), None)
    ensures OwnRate(Item(TwoCurrencyFiler(), "pretax_income", 2024).value, Item(TwoCurrencyFiler(), "income_tax", 2024).value) == Some(0.25)
  {
    var c := TwoCurrencyFiler();
    hide TwoCurrencyFiler, Item, AfterTax, Invested;
    FilerItems(2024, "operating_income");
    FilerItems(2024, "pretax_income");
    FilerItems(2024, "income_tax");
    FilerItems(2024, "total_debt");
    FilerItems(2024, "book_value");
    FilerItems(2024, "cash");
    FilerItems(2023, "total_debt");
    FilerItems(2023, "book_value");
    FilerItems(2023, "cash");
    assert 20.0 / 80.0 == 0.25 && 100.0 * (1.0 - 0.25) == 75.0;
    FilerYears();
    AfterTaxFigure(r, c, 2024);
    InvestedFigure(c, 2023);
    InvestedFigure(c, 2024);
  }

  /** Its return on invested capital has a value and no reason, whatever the rules: dollars of tax were divided by
      euros of income. */
  lemma TaxRateMixesCurrencies(r: Rules)
    ensures
      var m := Return(false, "operating_income_after_tax", "invested_capital", true);
      Measured(r, TwoCurrencyFiler(), m, 2024) == (Some(r.round(0.5)), None) && Mixed(TwoCurrencyFiler(), m, 2024)
  {
    var c, m := TwoCurrencyFiler(), Return(false, "operating_income_after_tax", "invested_capital", true);
    hide *;
    FilerMeasured(r);
    FilerTaxedAcross();
    AcrossIsMixed(c, m, 2024, 0);
  }

  lemma FilerMeasured(r: Rules)
    ensures
      var m := Return(false, "operating_income_after_tax", "invested_capital", true);
      Measured(r, TwoCurrencyFiler(), m, 2024) == (Some(r.round(0.5)), None)
  {
    var c, m := TwoCurrencyFiler(), Return(false, "operating_income_after_tax", "invested_capital", true);
    FilerSeries(r);
    assert c.format == Some("industrial") && 2023 in c.fiscal && 2024 in c.fiscal;
    hide TwoCurrencyFiler, AfterTax, Invested, Item, OwnRate, Measured, Reason, Gap;
    assert Series(r, c, "operating_income_after_tax", 2024) == Row(Some(75.0), Some("USD"), None);
    assert Series(r, c, "invested_capital", 2024) == Series(r, c, "invested_capital", 2023) == Row(Some(150.0), Some("USD"), None);
    hide Series;
    assert Measurable(r, c, m, 2024);
    ExactlyOne(r, c, m, 2024);
    assert 75.0 / 150.0 == 0.5;
  }

  lemma FilerTaxedAcross()
    ensures
      var m := Return(false, "operating_income_after_tax", "invested_capital", true);
      0 < |Reads(m, 2024)| && UsesOwnRate(TwoCurrencyFiler(), m, 2024, 0) && TaxedAcross(TwoCurrencyFiler(), m, 2024, 0)
  {
    var c, m := TwoCurrencyFiler(), Return(false, "operating_income_after_tax", "invested_capital", true);
    FilerItems(2024, "pretax_income");
    FilerItems(2024, "operating_income");
    FilerItems(2024, "income_tax");
    hide TwoCurrencyFiler, Item;
    assert Reads(m, 2024)[0] == ("operating_income_after_tax", 2024);
    var rows := [Item(c, "operating_income", 2024), Item(c, "pretax_income", 2024), Item(c, "income_tax", 2024)];
    assert rows[0].currency == Some("USD") && rows[1].currency == Some("EUR");
    assert 20.0 / 80.0 == 0.25;
  }
}
