/** The placeholder dictionary `generate_invoice` builds: the form's data,
    the order date and invoice number, and the formatted totals. */
module InvoiceData {
  import opened Decimal
  import opened Dict
  import opened Placeholders

  /** The `user_data` dictionary the form builds: the year and the
      quantities as strings, month and day as integers. */
  datatype UserData = UserData(customer: string, year: string, month: int, day: int,
                               quantityItem1: string, quantityItem2: string)

  /** The five totals, already rendered by the decimal formatter. */
  datatype Totals = Totals(totalPriceItem1: string, totalPriceItem2: string, totalPrice: string,
                           tax: string, totalPriceWithTax: string)

  const UserKeys: seq<string> := ["customer", "year", "month", "day", "quantity_item1", "quantity_item2"]
  const DateKeys: seq<string> := ["order_date", "invoice_nr"]
  const TotalsKeys: seq<string> :=
    ["total_price_item1", "total_price_item2", "total_price", "tax", "total_price_with_tax"]

  function UserEntries(u: UserData): Mapping {
    [("customer", Text(u.customer)), ("year", Text(u.year)), ("month", Number(u.month)),
     ("day", Number(u.day)), ("quantity_item1", Text(u.quantityItem1)),
     ("quantity_item2", Text(u.quantityItem2))]
  }

  /** `f"{day:02d}-{month:02d}-{year}"` from the form's values. */
  function OrderDate(u: UserData): string {
    FormatInt(u.day, 2) + "-" + FormatInt(u.month, 2) + "-" + u.year
  }

  /** `f"{year}-{invoice_number:03d}"` with the year the form gave. */
  function InvoiceNr(u: UserData, number: nat): string {
    u.year + "-" + ZeroPad(number, 3)
  }

  /** `DD-MM-YYYY`: day and month exactly two digits whenever they fit in
      two, each reading back as the form's value, then the form's year as
      given. */
  lemma OrderDateLayout(u: UserData)
    requires 0 <= u.day < 100 && 0 <= u.month < 100
    ensures var d := OrderDate(u);
            && |d| == |u.year| + 6
            && Denotes(d[..2], u.day) && d[2] == '-'
            && Denotes(d[3..5], u.month) && d[5] == '-'
            && d[6..] == u.year
  {
    Pow10Values();
    PadFits(u.day, 2);
    PadFits(u.month, 2);
    FormatNonNegative(u.day, 2);
    FormatNonNegative(u.month, 2);
    DateJoin(FormatInt(u.day, 2), FormatInt(u.month, 2), u.year, u.day, u.month);
  }

  lemma DateJoin(dd: string, mm: string, y: string, day: int, month: int)
    requires |dd| == 2 && Denotes(dd, day) && |mm| == 2 && Denotes(mm, month)
    ensures var d := dd + "-" + mm + "-" + y;
            && |d| == |y| + 6
            && Denotes(d[..2], day) && d[2] == '-'
            && Denotes(d[3..5], month) && d[5] == '-'
            && d[6..] == y
  {
    var d := dd + "-" + mm + "-" + y;
    assert d[..2] == dd && d[3..5] == mm && d[6..] == y;
  }

  /** The form's year, a dash, and the number in at least three digits:
      exactly three up to 999, more (never cut off) beyond. */
  lemma InvoiceNrLayout(u: UserData, number: nat)
    ensures var nr := InvoiceNr(u, number);
            && nr[..|u.year|] == u.year && nr[|u.year|] == '-'
            && Denotes(nr[|u.year| + 1..], number)
            && (number <= 999 <==> |nr| == |u.year| + 4)
  {
    var pad := ZeroPad(number, 3);
    var nr := u.year + "-" + pad;
    assert nr[..|u.year|] == u.year && nr[|u.year| + 1..] == pad;
    Pow10Values();
    ZeroPadWidth(number, 3);
  }

  function DateEntries(u: UserData, number: nat): Mapping {
    [("order_date", Text(OrderDate(u))), ("invoice_nr", Text(InvoiceNr(u, number)))]
  }

  function TotalsEntries(t: Totals): Mapping {
    [("total_price_item1", Text(t.totalPriceItem1)), ("total_price_item2", Text(t.totalPriceItem2)),
     ("total_price", Text(t.totalPrice)), ("tax", Text(t.tax)),
     ("total_price_with_tax", Text(t.totalPriceWithTax))]
  }

  /** `{**user_data, "order_date": ..., "invoice_nr": ..., **totals}`. */
  function PlaceholderMap(u: UserData, number: nat, t: Totals): Mapping {
    Merge(Merge(UserEntries(u), DateEntries(u, number)), TotalsEntries(t))
  }

  lemma UserEntriesKeys(u: UserData)
    ensures Keys(UserEntries(u)) == UserKeys
  {
  }

  lemma DateEntriesKeys(u: UserData, number: nat)
    ensures Keys(DateEntries(u, number)) == DateKeys
  {
  }

  lemma TotalsEntriesKeys(t: Totals)
    ensures Keys(TotalsEntries(t)) == TotalsKeys
  {
  }

  /** The dates spread into the form's data add two new keys. */
  lemma DatesMergeFresh(user: Mapping, dates: Mapping)
    requires Keys(user) == UserKeys && Keys(dates) == DateKeys
    ensures Merge(user, dates) == user + dates
  {
    assert DateKeys[0] != DateKeys[1];
    assert DistinctKeys(dates);
    assert DateKeys[0] !in UserKeys && DateKeys[1] !in UserKeys;
    assert forall i :: 0 <= i < |dates| ==> dates[i].0 !in Keys(user);
    MergeFresh(user, dates);
  }

  lemma TotalsKeysDistinct()
    ensures forall i, j :: 0 <= i < j < |TotalsKeys| ==> TotalsKeys[i] != TotalsKeys[j]
  {
  }

  /** Every totals key starts with `t`, no key before them does. */
  lemma TotalsKeysNew()
    ensures forall i :: 0 <= i < |TotalsKeys| ==> TotalsKeys[i] !in UserKeys + DateKeys
  {
    var earlier := UserKeys + DateKeys;
    assert forall i :: 0 <= i < |TotalsKeys| ==> TotalsKeys[i][0] == 't';
    assert forall j :: 0 <= j < |earlier| ==> |earlier[j]| > 0 && earlier[j][0] != 't';
  }

  /** The totals spread in last add five new keys. */
  lemma TotalsMergeFresh(front: Mapping, totals: Mapping)
    requires Keys(front) == UserKeys + DateKeys && Keys(totals) == TotalsKeys
    ensures Merge(front, totals) == front + totals
  {
    TotalsKeysDistinct();
    TotalsKeysNew();
    assert DistinctKeys(totals);
    assert forall i :: 0 <= i < |totals| ==> totals[i].0 !in Keys(front);
    MergeFresh(front, totals);
  }

  /** All thirteen keys are distinct, so the spreads override nothing: the
      dictionary is the form's six entries, then `order_date` and
      `invoice_nr`, then the five totals, in that order. */
  lemma PlaceholderEntries(u: UserData, number: nat, t: Totals)
    ensures PlaceholderMap(u, number, t) == UserEntries(u) + DateEntries(u, number) + TotalsEntries(t)
  {
    var user, dates, totals := UserEntries(u), DateEntries(u, number), TotalsEntries(t);
    UserEntriesKeys(u);
    DateEntriesKeys(u, number);
    TotalsEntriesKeys(t);
    DatesMergeFresh(user, dates);
    KeysAppend(user, dates);
    TotalsMergeFresh(user + dates, totals);
  }

}
