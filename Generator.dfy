/** Where `generate_invoice` files an invoice: from today's date, the year
    directory's listing and the customer, the directories, the invoice
    number and the file name. */
module Generator {
  import opened Wrappers
  import opened Decimal
  import opened Calendar
  import opened Numbering

  /** `datetime.today()`, with the weekday of the 1st of its month. */
  datatype Today = Today(year: int, month: int, day: int, firstWeekday: int)

  predicate ValidToday(t: Today) {
    1 <= t.year <= 9999 && 1 <= t.month <= 12 && 1 <= t.day <= 31 && 0 <= t.firstWeekday <= 6
  }

  /** Where the invoice goes, one path segment per directory level, its
      number and its file name. */
  datatype InvoicePlan = InvoicePlan(outputDir: string, yearSegment: string, monthSegment: string,
                                     weekSegment: string, invoiceNumber: nat, fileName: string)

  /** `f"{customer}-{invoice_number:03d}.docx"`. */
  function InvoiceFileName(customer: string, number: nat): string {
    customer + "-" + ZeroPad(number, 3) + DocxSuffix
  }

  /** The directories are created before the year directory is listed, so
      the number is computed from the listing with the month directory in
      it. */
  function Plan(outputDir: string, today: Today, yearListing: Option<seq<string>>,
                customer: string): InvoicePlan
    requires ValidToday(today)
  {
    var week := WeekOfMonth(today.day, today.firstWeekday);
    var monthDir := MonthDirName(today.year, today.month);
    var number := InvoiceNumber(Some(AfterMakeDirs(yearListing, monthDir)));
    InvoicePlan(outputDir, NatToString(today.year), monthDir, ZeroPad(week, 2),
                number, InvoiceFileName(customer, number))
  }

  /** `os.path.join(week_dir, invoice_name)`, as its segments. */
  function InvoicePath(p: InvoicePlan): seq<string> {
    [p.outputDir, p.yearSegment, p.monthSegment, p.weekSegment, p.fileName]
  }

  /** The number is one more than the `.docx` entries of the year directory
      as it was before the run: creating the month directory first adds no
      such entry. */
  lemma PlanNumber(outputDir: string, today: Today, yearListing: Option<seq<string>>,
                   customer: string)
    requires ValidToday(today)
    ensures var p := Plan(outputDir, today, yearListing, customer);
            && p.invoiceNumber == 1 + CountDocx(yearListing.GetOr([]))
            && p.fileName == InvoiceFileName(customer, p.invoiceNumber)
  {
    MonthDirNameShape(today.year, today.month);
    NumberAfterMakeDirs(yearListing, MonthDirName(today.year, today.month));
  }

  /** The date segments of a plan read back as `year`, `month` and `week`:
      `YYYY`, `YYYY-MM` and `WW`, the month and the week exactly two
      digits wide. */
  predicate DateSegments(p: InvoicePlan, year: int, month: int, week: int) {
    && Denotes(p.yearSegment, year)
    && MonthDirOf(p.monthSegment, p.yearSegment, month)
    && |p.weekSegment| == 2 && Denotes(p.weekSegment, week)
  }

  lemma WeekSegment(week: nat)
    requires 1 <= week <= 6
    ensures |ZeroPad(week, 2)| == 2 && Denotes(ZeroPad(week, 2), week)
  {
    Pow10Values();
    PadFits(week, 2);
  }

  /** `output_dir / YYYY / YYYY-MM / WW / file`, every date segment read
      back giving today's year, month and week of the month. */
  lemma PlanLayout(outputDir: string, today: Today, yearListing: Option<seq<string>>,
                   customer: string)
    requires ValidToday(today)
    ensures var p := Plan(outputDir, today, yearListing, customer);
            && p.outputDir == outputDir
            && DateSegments(p, today.year, today.month, WeekOfMonth(today.day, today.firstWeekday))
  {
    var p := Plan(outputDir, today, yearListing, customer);
    var week := WeekOfMonth(today.day, today.firstWeekday);
    assert p.yearSegment == NatToString(today.year) && p.monthSegment == MonthDirName(today.year, today.month)
           && p.weekSegment == ZeroPad(week, 2);
    assert Denotes(p.yearSegment, today.year);
    MonthDirLayout(today.year, today.month);
    WeekSegment(week);
  }

  /** The file name is the customer, a dash, the number in at least three
      digits, and `.docx`; exactly three for numbers up to 999, more (never
      cut off) beyond. */
  lemma FileNameLayout(customer: string, number: nat)
    ensures var f := InvoiceFileName(customer, number);
            var digits := f[|customer| + 1..|f| - 5];
            && |f| >= |customer| + 9 && f[..|customer|] == customer && f[|customer|] == '-'
            && f[|f| - 5..] == DocxSuffix
            && AllDigits(digits) && DigitsValue(digits) == number
            && (number <= 999 <==> |f| == |customer| + 9)
  {
    var f := InvoiceFileName(customer, number);
    var pad := ZeroPad(number, 3);
    assert f == customer + "-" + pad + DocxSuffix;
    assert f[..|customer|] == customer;
    assert f[|customer| + 1..|f| - 5] == pad;
    assert f[|f| - 5..] == DocxSuffix;
    Pow10Values();
    ZeroPadWidth(number, 3);
  }

  /** A run on 15 January 2026 with no year directory yet: filed under
      `2026/2026-01/03` as number 1. */
  lemma JanuaryExample(outputDir: string, customer: string)
    ensures var p := Plan(outputDir, Today(2026, 1, 15, 3), None, customer);
            && p.yearSegment == "2026" && p.monthSegment == "2026-01" && p.weekSegment == "03"
            && p.invoiceNumber == 1
  {
    var today := Today(2026, 1, 15, 3);
    PlanNumber(outputDir, today, None, customer);
    assert CountDocx([]) == 0;
    assert WeekOfMonth(15, 3) == 3;
    assert NatToString(2026) == "2026";
    assert ZeroPad(1, 2) == "01" && ZeroPad(3, 2) == "03";
  }

  /** Invoices are saved two levels below the year directory, so the next
      run in the same year lists only the month directories again and gets
      the same number; in the same week and for the same customer it picks
      the same path and overwrites the earlier invoice. */
  lemma ConsecutiveRunsShareNumber(outputDir: string, today1: Today, today2: Today,
                                   yearListing: Option<seq<string>>,
                                   customer1: string, customer2: string)
    requires ValidToday(today1) && ValidToday(today2) && today1.year == today2.year
    ensures var p1 := Plan(outputDir, today1, yearListing, customer1);
            var after := Some(AfterMakeDirs(yearListing, MonthDirName(today1.year, today1.month)));
            var p2 := Plan(outputDir, today2, after, customer2);
            && p2.invoiceNumber == p1.invoiceNumber
            && (customer1 == customer2 && today1.month == today2.month &&
                WeekOfMonth(today1.day, today1.firstWeekday) == WeekOfMonth(today2.day, today2.firstWeekday)
                ==> InvoicePath(p2) == InvoicePath(p1))
  {
    var after := Some(AfterMakeDirs(yearListing, MonthDirName(today1.year, today1.month)));
    MonthDirNameShape(today1.year, today1.month);
    NumberAfterMakeDirs(yearListing, MonthDirName(today1.year, today1.month));
    PlanNumber(outputDir, today1, yearListing, customer1);
    PlanNumber(outputDir, today2, after, customer2);
  }

  /** A year directory the generator alone has written to gives number 1. */
  lemma OwnLayoutGivesOne(outputDir: string, today: Today, yearListing: seq<string>,
                          customer: string)
    requires ValidToday(today)
    requires forall i :: 0 <= i < |yearListing| ==> IsMonthDir(yearListing[i])
    ensures Plan(outputDir, today, Some(yearListing), customer).invoiceNumber == 1
  {
    OnlyMonthDirsGiveOne(yearListing);
    PlanNumber(outputDir, today, Some(yearListing), customer);
  }
}
