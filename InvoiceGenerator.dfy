/** `generate_invoice` as a whole: plan where the invoice goes, build the
    placeholder dictionary with the plan's number, fill the template and
    return the path it is saved under. */
module InvoiceGenerator {
  import opened Wrappers
  import opened Strings
  import opened Decimal
  import opened Dict
  import opened Placeholders
  import opened InvoiceData
  import opened Generator

  /** A fill that raises on the form's own entries raises on the whole
      dictionary, whose first entries they are. */
  lemma RaisesOnForm(text: string, u: UserData, number: nat, t: Totals)
    requires Fill(text, UserEntries(u)) == None
    ensures Fill(text, PlaceholderMap(u, number, t)) == None
  {
    var user, dates, totals := UserEntries(u), DateEntries(u, number), TotalsEntries(t);
    PlaceholderEntries(u, number, t);
    FillRaisedStays(text, user, dates);
    FillRaisedStays(text, user + dates, totals);
  }

  /** No key of the form contains a brace. */
  lemma FormKeysBraceFree(u: UserData)
    ensures forall k :: 0 <= k < |UserEntries(u)| ==> BraceFree(UserEntries(u)[k].0)
  {
    UserEntriesKeys(u);
    assert forall k :: 0 <= k < |UserKeys| ==> BraceFree(UserKeys[k]);
  }

  /** The `{{month}}` token meets the form's integer month: a node holding
      it raises, whatever else it holds, since the `customer` and `year`
      replacements before it cannot remove it. */
  lemma MonthTokenRaises(text: string, u: UserData, number: nat, t: Totals)
    requires Contains(text, Token("month"))
    ensures Fill(text, PlaceholderMap(u, number, t)) == None
  {
    var user := UserEntries(u);
    FormKeysBraceFree(u);
    assert user[2] == ("month", Number(u.month));
    assert user[0].0 == "customer" && user[1].0 == "year";
    FillRaisesAtTurn(text, user, 2);
    RaisesOnForm(text, u, number, t);
  }

  /** The same for `{{day}}` and the form's integer day. */
  lemma DayTokenRaises(text: string, u: UserData, number: nat, t: Totals)
    requires Contains(text, Token("day"))
    ensures Fill(text, PlaceholderMap(u, number, t)) == None
  {
    var user := UserEntries(u);
    FormKeysBraceFree(u);
    assert user[3] == ("day", Number(u.day));
    assert user[0].0 == "customer" && user[1].0 == "year" && user[2].0 == "month";
    FillRaisesAtTurn(text, user, 3);
    RaisesOnForm(text, u, number, t);
  }

  /** A date line `{{day}}.{{month}}.{{year}}` cannot be filled, whatever
      the form says. */
  lemma DateLineExample(u: UserData, number: nat, t: Totals)
    ensures Fill(Token("day") + "." + Token("month") + "." + Token("year"), PlaceholderMap(u, number, t)) == None
  {
    var front := Token("day") + ".";
    ContainsInside(front, Token("month"), "." + Token("year"));
    AppendAssoc(front + Token("month"), ".", Token("year"));
    MonthTokenRaises(front + Token("month") + "." + Token("year"), u, number, t);
  }

  /** `{year}-{invoice_number:03d}` for the first invoice. */
  lemma FirstInvoiceNr(u: UserData)
    ensures InvoiceNr(u, 1) == u.year + "-001"
  {
    assert NatToString(1) == "1";
    assert ZeroPad(1, 3) == "001";
  }

  /** The directories follow today's year, the invoice number the year the
      form gave: a form year of 2025 filled in January 2026 files `2025-001`
      under `2026`. */
  lemma YearMismatchExample(outputDir: string, u: UserData)
    requires u.year == "2025"
    ensures var p := Plan(outputDir, Today(2026, 1, 15, 3), None, u.customer);
            p.yearSegment == "2026" && InvoiceNr(u, p.invoiceNumber) == "2025-001"
  {
    JanuaryExample(outputDir, u.customer);
    FirstInvoiceNr(u);
  }

  /** Plans the paths, fills the template `doc` with the dictionary built
      for the plan's number and returns the invoice path; `None` when a
      placeholder's value is one of the form's integers and `str.replace`
      raises. */
  method GenerateInvoice(doc: Document, outputDir: string, today: Today,
                         yearListing: Option<seq<string>>, u: UserData, totals: Totals)
    returns (path: Option<seq<string>>)
    requires ValidToday(today)
    modifies doc, doc.paragraphs
    ensures var p := Plan(outputDir, today, yearListing, u.customer);
            var m := PlaceholderMap(u, p.invoiceNumber, totals);
            && doc.paragraphs == old(doc.paragraphs)
            && (path.Some? <==> AllFill(old(doc.paragraphs[..]), m) && TablesFill(old(doc.tables), m))
            && (path.Some? ==> path.value == InvoicePath(p)
                               && doc.paragraphs[..] == FillEach(old(doc.paragraphs[..]), m)
                               && doc.tables == FillTables(old(doc.tables), m))
  {
    var p := Plan(outputDir, today, yearListing, u.customer);
    var placeholders := PlaceholderMap(u, p.invoiceNumber, totals);
    var ok := doc.ReplacePlaceholders(placeholders);
    if ok {
      path := Some(InvoicePath(p));
    } else {
      path := None;
    }
  }
}
