/** Invoice numbering: one more than the number of `.docx` entries directly
    inside the year directory, and the month directories the generator
    itself creates there. */
module Numbering {
  import opened Wrappers
  import opened Strings
  import opened Decimal

  const DocxSuffix: string := ".docx"

  /** `len([f for f in entries if f.endswith('.docx')])`. */
  function CountDocx(entries: seq<string>): (n: nat)
    ensures n <= |entries|
  {
    if entries == [] then 0
    else (if EndsWith(entries[0], DocxSuffix) then 1 else 0) + CountDocx(entries[1..])
  }

  /** The listing of the year directory, `None` when it does not exist. */
  function InvoiceNumber(yearDir: Option<seq<string>>): (n: nat)
    ensures n >= 1
    ensures yearDir.None? ==> n == 1
  {
    match yearDir
    case None => 1
    case Some(entries) => CountDocx(entries) + 1
  }

  lemma {:induction false} CountDocxAppend(a: seq<string>, b: seq<string>)
    ensures CountDocx(a + b) == CountDocx(a) + CountDocx(b)
    decreases |a|
  {
    if a == [] {
      assert a + b == b;
    } else {
      assert (a + b)[0] == a[0] && (a + b)[1..] == a[1..] + b;
      CountDocxAppend(a[1..], b);
    }
  }

  /** Taking one entry out of a listing takes out its own count. */
  lemma CountDocxRemove(b: seq<string>, k: int)
    requires 0 <= k < |b|
    ensures CountDocx(b) == CountDocx(b[..k] + b[k + 1..]) + CountDocx([b[k]])
  {
    var front, x, back := b[..k], [b[k]], b[k + 1..];
    SplitAround(b, k);
    CountDocxAppend(front, x + back);
    CountDocxAppend(x, back);
    CountDocxAppend(front, back);
  }

  lemma SplitAround<T>(b: seq<T>, k: int)
    requires 0 <= k < |b|
    ensures b == b[..k] + ([b[k]] + b[k + 1..])
  {
  }

  /** The first element of `a` sits somewhere in any reordering `b`, and
      the rest of `a` reorders what `b` keeps without it. */
  lemma MultisetTake<T>(a: seq<T>, b: seq<T>) returns (k: int)
    requires a != [] && multiset(a) == multiset(b)
    ensures 0 <= k < |b| && b[k] == a[0]
    ensures multiset(a[1..]) == multiset(b[..k] + b[k + 1..])
  {
    assert a[0] in multiset(a);
    k :| 0 <= k < |b| && b[k] == a[0];
    var front, back := b[..k], b[k + 1..];
    calc {
      multiset(a[1..]);
      { assert a == [a[0]] + a[1..]; }
      multiset(a) - multiset{a[0]};
      multiset(b) - multiset{a[0]};
      { assert b == front + ([b[k]] + back); }
      multiset(front + back);
    }
  }

  /** The order `os.listdir` returns the entries in does not matter. */
  lemma {:induction false} CountDocxPermutation(a: seq<string>, b: seq<string>)
    requires multiset(a) == multiset(b)
    ensures CountDocx(a) == CountDocx(b)
    decreases |a|
  {
    if a != [] {
      var k := MultisetTake(a, b);
      CountDocxPermutation(a[1..], b[..k] + b[k + 1..]);
      CountDocxRemove(b, k);
      assert a == [a[0]] + a[1..];
      CountDocxAppend([a[0]], a[1..]);
    }
  }

  /** One more `.docx` entry raises the number by exactly one; any other
      entry leaves it as it is. */
  lemma InvoiceNumberAddEntry(entries: seq<string>, e: string)
    ensures InvoiceNumber(Some(entries + [e])) ==
            InvoiceNumber(Some(entries)) + (if EndsWith(e, DocxSuffix) then 1 else 0)
  {
    CountDocxAppend(entries, [e]);
    assert [e][1..] == [];
  }

  /** `f"{year}-{month:02d}"`: the month directory under the year directory. */
  function MonthDirName(year: nat, month: nat): string {
    NatToString(year) + "-" + ZeroPad(month, 2)
  }

  /** The shape of a month directory name: digits, a dash, two digits. */
  predicate IsMonthDir(name: string) {
    |name| >= 4 && name[|name| - 3] == '-' && AllDigits(name[..|name| - 3]) &&
    IsDigit(name[|name| - 2]) && IsDigit(name[|name| - 1])
  }

  lemma MonthDirNameShape(year: nat, month: nat)
    requires 1 <= month <= 12
    ensures IsMonthDir(MonthDirName(year, month))
    ensures MonthDirName(year, month)[..|MonthDirName(year, month)| - 3] == NatToString(year)
  {
    MonthDirLayout(year, month);
    MonthDirOfShape(MonthDirName(year, month), NatToString(year), month);
  }

  /** `md` is the year's digits `y`, a dash, and the month in exactly two
      digits. */
  predicate MonthDirOf(md: string, y: string, month: int) {
    |md| == |y| + 3 && md[..|y|] == y && md[|y|] == '-' && Denotes(md[|y| + 1..], month)
  }

  lemma DashJoin(y: string, mm: string, month: int)
    requires |mm| == 2 && Denotes(mm, month)
    ensures MonthDirOf(y + "-" + mm, y, month)
  {
    var md := y + "-" + mm;
    assert md[..|y|] == y && md[|y| + 1..] == mm;
  }

  /** `YYYY-MM` read back gives the year and the month. */
  lemma MonthDirLayout(year: nat, month: nat)
    requires 1 <= month <= 12
    ensures MonthDirOf(MonthDirName(year, month), NatToString(year), month)
  {
    Pow10Values();
    PadFits(month, 2);
    DashJoin(NatToString(year), ZeroPad(month, 2), month);
  }

  lemma MonthDirOfShape(md: string, y: string, month: int)
    requires MonthDirOf(md, y, month) && AllDigits(y) && |y| >= 1
    ensures IsMonthDir(md) && md[..|md| - 3] == y
  {
    var tail := md[|y| + 1..];
    assert tail[0] == md[|md| - 2] && tail[1] == md[|md| - 1];
    assert md[..|md| - 3] == md[..|y|];
  }

  /** A month directory never ends in `.docx`: its last character is a digit. */
  lemma MonthDirNotDocx(name: string)
    requires IsMonthDir(name)
    ensures !EndsWith(name, DocxSuffix)
  {
    assert IsDigit(name[|name| - 1]) && DocxSuffix[4] == 'x';
    if |DocxSuffix| <= |name| {
      assert name[|name| - 5..][4] == name[|name| - 1];
    }
  }

  /** A year directory that holds only month directories, as the generator
      lays it out, always yields invoice number 1. */
  lemma {:induction false} OnlyMonthDirsGiveOne(entries: seq<string>)
    requires forall i :: 0 <= i < |entries| ==> IsMonthDir(entries[i])
    ensures CountDocx(entries) == 0
    ensures InvoiceNumber(Some(entries)) == 1
    decreases |entries|
  {
    if entries != [] {
      MonthDirNotDocx(entries[0]);
      OnlyMonthDirsGiveOne(entries[1..]);
    }
  }

  /** The year directory's listing after `os.makedirs` has created the
      month directory in it (nothing happens when it is already there). */
  function AfterMakeDirs(yearDir: Option<seq<string>>, monthDir: string): (entries: seq<string>)
    ensures monthDir in entries
  {
    match yearDir
    case None => [monthDir]
    case Some(es) => if monthDir in es then es else es + [monthDir]
  }

  /** Creating the month directory first does not change the number: a
      missing year directory and an empty one both give 1. */
  lemma NumberAfterMakeDirs(yearDir: Option<seq<string>>, monthDir: string)
    requires IsMonthDir(monthDir)
    ensures InvoiceNumber(Some(AfterMakeDirs(yearDir, monthDir))) == InvoiceNumber(yearDir)
  {
    MonthDirNotDocx(monthDir);
    match yearDir
    case None =>
      assert [monthDir][1..] == [];
    case Some(es) =>
      if monthDir !in es {
        InvoiceNumberAddEntry(es, monthDir);
      }
  }
}
