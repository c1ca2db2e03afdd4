/** The placeholder engine: a document is a list of paragraph texts and a
    list of tables of rows of cell texts; every `{{key}}` token of a mapped
    key is replaced by the key's value, node by node, key by key, in the
    mapping's insertion order. */
module Placeholders {
  import opened Wrappers
  import opened Strings
  import opened Dict

  /** A value of the placeholder dictionary.  Most are strings; the order
      day and month arrive as integers, and `str.replace` raises `TypeError`
      when handed one. */
  datatype Value = Text(text: string) | Number(number: int)

  /** The placeholder dictionary, as its entries in insertion order. */
  type Mapping = seq<(string, Value)>

  /** The text `{{key}}` that stands for `key` in a template. */
  function Token(key: string): (t: string)
    ensures |t| == |key| + 4 && t[..2] == "{{" && t[|t| - 2..] == "}}"
  {
    "{{" + key + "}}"
  }

  /** One turn of the inner loop: the node is rewritten only when the token
      is in it; `None` is the `TypeError` an integer value raises. */
  function Step(text: string, key: string, value: Value): (r: Option<string>)
    ensures !Contains(text, Token(key)) ==> r == Some(text)
    ensures Contains(text, Token(key)) && value.Number? ==> r == None
  {
    if !Contains(text, Token(key)) then Some(text)
    else match value
      case Text(s) => Some(ReplaceAll(text, Token(key), s))
      case Number(_) => None
  }

  /** A node's new text: the keys are applied in the mapping's order, each
      to the text the earlier ones left. */
  function Fill(text: string, m: Mapping): Option<string>
    decreases |m|
  {
    if m == [] then Some(text)
    else match Step(text, m[0].0, m[0].1)
      case None => None
      case Some(t) => Fill(t, m[1..])
  }

  /** A node holding no token of any mapped key is left exactly as it was. */
  lemma {:induction false} FillUntouched(text: string, m: Mapping)
    requires forall k :: 0 <= k < |m| ==> !Contains(text, Token(m[k].0))
    ensures Fill(text, m) == Some(text)
    decreases |m|
  {
    if m != [] {
      assert !Contains(text, Token(m[0].0));
      FillUntouched(text, m[1..]);
    }
  }

  /** Mapping order: filling with `m1 + m2` fills with `m1` first and hands
      the result to `m2`, so later keys see earlier replacements. */
  lemma {:induction false} FillSequential(text: string, m1: Mapping, m2: Mapping)
    ensures Fill(text, m1 + m2) ==
            match Fill(text, m1)
            case None => None
            case Some(t) => Fill(t, m2)
    decreases |m1|
  {
    if m1 != [] {
      assert (m1 + m2)[0] == m1[0];
      assert (m1 + m2)[1..] == m1[1..] + m2;
      match Step(text, m1[0].0, m1[0].1)
      case None =>
      case Some(t) => FillSequential(t, m1[1..], m2);
    } else {
      assert m1 + m2 == m2;
    }
  }

  /** With string values only nothing raises. */
  lemma {:induction false} FillTextValues(text: string, m: Mapping)
    requires forall k :: 0 <= k < |m| ==> m[k].1.Text?
    ensures Fill(text, m).Some?
    decreases |m|
  {
    if m != [] {
      FillTextValues(Step(text, m[0].0, m[0].1).value, m[1..]);
    }
  }

  /** Once a fill has raised, later entries change nothing. */
  lemma FillRaisedStays(text: string, m1: Mapping, m2: Mapping)
    requires Fill(text, m1) == None
    ensures Fill(text, m1 + m2) == None
  {
    FillSequential(text, m1, m2);
  }

  /** A token of an integer-valued key that is still in the text when its
      turn comes makes the whole fill raise. */
  lemma {:induction false} FillRaises(text: string, m: Mapping, i: int)
    requires 0 <= i < |m| && m[i].1.Number? && Contains(text, Token(m[i].0))
    requires forall k :: 0 <= k < i ==> !Contains(text, Token(m[k].0))
    ensures Fill(text, m) == None
    decreases i
  {
    if i > 0 {
      assert !Contains(text, Token(m[0].0));
      assert m[1..][i - 1] == m[i];
      FillRaises(text, m[1..], i - 1);
    }
  }

  /** A key without braces, as every key of the dictionary is. */
  predicate BraceFree(key: string) {
    forall i :: 0 <= i < |key| ==> key[i] != '{' && key[i] != '}'
  }

  lemma TokenChars(key: string)
    ensures Token(key)[0] == '{' && Token(key)[1] == '{'
    ensures forall d :: 0 <= d < |key| ==> Token(key)[d + 2] == key[d]
    ensures Token(key)[|key| + 2] == '}' && Token(key)[|key| + 3] == '}'
  {
  }

  /** Past its opening `{{` a token holds no `{`. */
  lemma TokenOpensOnce(key: string)
    requires BraceFree(key)
    ensures forall d :: 2 <= d < |Token(key)| ==> Token(key)[d] != '{'
  {
    TokenChars(key);
    forall d | 2 <= d < |Token(key)|
      ensures Token(key)[d] != '{'
    {
      if d < |key| + 2 {
        assert Token(key)[(d - 2) + 2] == key[d - 2];
      }
    }
  }

  /** The characters of an occurrence of `t` in `s`. */
  lemma OccursChars(s: string, t: string, i: int)
    requires OccursAt(s, t, i)
    ensures forall k :: i <= k < i + |t| ==> s[k] == t[k - i]
  {
    forall k | i <= k < i + |t|
      ensures s[k] == t[k - i]
    {
      assert s[i..i + |t|][k - i] == s[k];
    }
  }

  /** A token that starts inside another token is impossible: the second
      `{{` would have to fall on the first token's key or closing braces. */
  lemma LaterTokenStartsAfter(s: string, a: string, b: string, i: int, j: int)
    requires BraceFree(a)
    ensures OccursAt(s, Token(a), i) && OccursAt(s, Token(b), j) && i < j ==> i + |Token(a)| <= j
  {
    if OccursAt(s, Token(a), i) && OccursAt(s, Token(b), j) && i < j {
      TokenChars(b);
      TokenOpensOnce(a);
      OccursChars(s, Token(a), i);
      OccursChars(s, Token(b), j);
      var c0, c1 := s[j], s[j + 1];
    }
  }

  /** Two tokens starting at the same place are the same token. */
  lemma SameStartSameKey(s: string, a: string, b: string, i: int)
    requires BraceFree(a) && BraceFree(b)
    ensures OccursAt(s, Token(a), i) && OccursAt(s, Token(b), i) ==> a == b
  {
    if OccursAt(s, Token(a), i) && OccursAt(s, Token(b), i) {
      TokenChars(a);
      TokenChars(b);
      OccursChars(s, Token(a), i);
      OccursChars(s, Token(b), i);
      var ca, cb := s[i + |a| + 2], s[i + |b| + 2];
      assert |a| == |b|;
      assert Token(a) == s[i..i + |a| + 4] == Token(b);
      assert a == Token(a)[2..|a| + 2] && b == Token(b)[2..|b| + 2];
    }
  }

  /** No token of another brace-free key overlaps an occurrence of
      `Token(b)`. */
  lemma TokensApart(s: string, a: string, b: string, j: int, p: int)
    requires BraceFree(a) && BraceFree(b) && a != b && OccursAt(s, Token(b), j)
    requires 0 <= p < j + |Token(b)| && j < p + |Token(a)|
    ensures !OccursAt(s, Token(a), p)
  {
    LaterTokenStartsAfter(s, a, b, p, j);
    LaterTokenStartsAfter(s, b, a, j, p);
    SameStartSameKey(s, a, b, p);
  }

  /** Replacing one key's token keeps every token of another key. */
  lemma StepKeepsToken(text: string, key: string, value: Value, other: string)
    requires BraceFree(key) && BraceFree(other) && key != other
    requires Contains(text, Token(other))
    ensures Step(text, key, value).Some? ==> Contains(Step(text, key, value).value, Token(other))
  {
    if Contains(text, Token(key)) && value.Text? {
      ContainsIffOccurs(text, Token(other));
      var j :| OccursAt(text, Token(other), j);
      forall p | 0 <= p < j + |Token(other)| && j < p + |Token(key)|
        ensures !OccursAt(text, Token(key), p)
      {
        TokensApart(text, key, other, j, p);
      }
      ReplaceAllKeepsOccurrence(text, Token(key), value.text, Token(other), j);
    }
  }

  /** Tokens of keys the mapping does not hold are never targeted: they
      survive the whole fill. */
  lemma {:induction false} FillKeepsToken(text: string, m: Mapping, other: string)
    requires BraceFree(other) && Contains(text, Token(other))
    requires forall k :: 0 <= k < |m| ==> BraceFree(m[k].0) && m[k].0 != other
    ensures Fill(text, m).Some? ==> Contains(Fill(text, m).value, Token(other))
    decreases |m|
  {
    if m != [] {
      StepKeepsToken(text, m[0].0, m[0].1, other);
      match Step(text, m[0].0, m[0].1)
      case None =>
      case Some(t) =>
        assert forall k :: 0 <= k < |m[1..]| ==> m[1..][k] == m[k + 1];
        FillKeepsToken(t, m[1..], other);
    }
  }

  /** An integer-valued key whose token is in the node raises, whatever
      the keys before it replace: they cannot remove its token. */
  lemma FillRaisesAtTurn(text: string, m: Mapping, i: int)
    requires 0 <= i < |m| && m[i].1.Number? && BraceFree(m[i].0) && Contains(text, Token(m[i].0))
    requires forall k :: 0 <= k < i ==> BraceFree(m[k].0) && m[k].0 != m[i].0
    ensures Fill(text, m) == None
  {
    var front, back := m[..i], m[i..];
    assert m == front + back;
    FillSequential(text, front, back);
    FillKeepsToken(text, front, m[i].0);
    assert back[0] == m[i];
  }

  /** A text in which some character of `pat` never stands at the place
      an occurrence would put it does not contain `pat`. */
  lemma NotContainsByChar(s: string, pat: string, k: int)
    requires 0 <= k < |pat|
    requires forall j :: k <= j <= |s| - |pat| + k ==> s[j] != pat[k]
    ensures !Contains(s, pat)
  {
    forall i | 0 <= i <= |s| - |pat|
      ensures !OccursAt(s, pat, i)
    {
      assert s[i + k] != pat[k];
      assert s[i..i + |pat|][k] == s[i + k];
    }
    ContainsIffOccurs(s, pat);
  }

  lemma ReplaceLeadingToken(pat: string, rest: string, v: string)
    requires |pat| > 0 && !Contains(rest, pat)
    ensures Contains(pat + rest, pat)
    ensures ReplaceAll(pat + rest, pat, v) == v + rest
  {
    var s := pat + rest;
    assert s[..|pat|] == pat && s[|pat|..] == rest;
  }

  lemma ReplaceExample()
    ensures Contains("{{a}} and {{b}}", Token("a"))
    ensures ReplaceAll("{{a}} and {{b}}", Token("a"), "X") == "X and {{b}}"
  {
    var tok, rest := Token("a"), " and {{b}}";
    assert tok + rest == "{{a}} and {{b}}" by {
      assert tok == "{{a}}";
    }
    assert "X" + rest == "X and {{b}}";
    NotContainsByChar(rest, tok, 2);
    ReplaceLeadingToken(tok, rest, "X");
  }

  /** A token of a key the mapping lacks is left in place. */
  lemma FillExample()
    ensures Fill("{{a}} and {{b}}", [("a", Text("X"))]) == Some("X and {{b}}")
  {
    ReplaceExample();
    var m := [("a", Text("X"))];
    assert Step("{{a}} and {{b}}", "a", Text("X")) == Some("X and {{b}}");
    assert m[1..] == [];
  }

  /** Keys are applied in order: a value that introduces the token of a
      later key is itself replaced, but not the token of an earlier key. */
  lemma FillOrderExample()
    ensures Fill("{{a}}", [("a", Text("{{b}}")), ("b", Text("Y"))]) == Some("Y")
    ensures Fill("{{a}}", [("b", Text("Y")), ("a", Text("{{b}}"))]) == Some("{{b}}")
  {
    assert Token("a") == "{{a}}" && Token("b") == "{{b}}";
    assert OccursAt("{{a}}", Token("a"), 0) && OccursAt("{{b}}", Token("b"), 0);
    ContainsIffOccurs("{{a}}", Token("a"));
    ContainsIffOccurs("{{b}}", Token("b"));
    ReplaceAllAtFirstOccurrence("{{a}}", Token("a"), "{{b}}", 0);
    ReplaceAllAtFirstOccurrence("{{b}}", Token("b"), "Y", 0);
    assert "{{a}}"[..0] == [] && "{{a}}"[5..] == [] && "{{b}}"[..0] == [] && "{{b}}"[5..] == [];
    assert ReplaceAll([], Token("a"), "{{b}}") == [] && ReplaceAll([], Token("b"), "Y") == [];
    NotContainsByChar("{{a}}", Token("b"), 2);
    assert Contains("{{a}}", Token("a"));
    assert ReplaceAll("{{a}}", Token("a"), "{{b}}") == "{{b}}";
    assert Step("{{a}}", "a", Text("{{b}}")) == Some("{{b}}");
    assert Contains("{{b}}", Token("b"));
    assert ReplaceAll("{{b}}", Token("b"), "Y") == "Y";
    assert Step("{{b}}", "b", Text("Y")) == Some("Y");
    assert Step("{{a}}", "b", Text("Y")) == Some("{{a}}");
    var m1 := [("a", Text("{{b}}")), ("b", Text("Y"))];
    var m2 := [("b", Text("Y")), ("a", Text("{{b}}"))];
    assert m1[1..] == [("b", Text("Y"))] && m1[1..][1..] == [];
    assert m2[1..] == [("a", Text("{{b}}"))] && m2[1..][1..] == [];
  }

  type Row = seq<string>
  type Table = seq<Row>

  ghost predicate AllFill(texts: seq<string>, m: Mapping) {
    forall i :: 0 <= i < |texts| ==> Fill(texts[i], m).Some?
  }

  ghost function FillEach(texts: seq<string>, m: Mapping): (r: seq<string>)
    requires AllFill(texts, m)
    ensures |r| == |texts| && forall i :: 0 <= i < |texts| ==> Some(r[i]) == Fill(texts[i], m)
  {
    seq(|texts|, i requires 0 <= i < |texts| => Fill(texts[i], m).value)
  }

  ghost predicate TableFills(t: Table, m: Mapping) {
    forall r :: 0 <= r < |t| ==> AllFill(t[r], m)
  }

  ghost function FillTable(t: Table, m: Mapping): (r: Table)
    requires TableFills(t, m)
    ensures |r| == |t| && forall q :: 0 <= q < |t| ==> r[q] == FillEach(t[q], m)
  {
    seq(|t|, q requires 0 <= q < |t| => FillEach(t[q], m))
  }

  ghost predicate TablesFill(ts: seq<Table>, m: Mapping) {
    forall t :: 0 <= t < |ts| ==> TableFills(ts[t], m)
  }

  ghost function FillTables(ts: seq<Table>, m: Mapping): (r: seq<Table>)
    requires TablesFill(ts, m)
    ensures |r| == |ts| && forall t :: 0 <= t < |ts| ==> r[t] == FillTable(ts[t], m)
  {
    seq(|ts|, t requires 0 <= t < |ts| => FillTable(ts[t], m))
  }

  /** The inner loop over the mapping for one node. */
  method FillText(text: string, m: Mapping) returns (r: Option<string>)
    ensures r == Fill(text, m)
  {
    var cur := text;
    var j := 0;
    while j < |m|
      invariant 0 <= j <= |m|
      invariant Fill(cur, m[j..]) == Fill(text, m)
    {
      assert m[j..][0] == m[j] && m[j..][1..] == m[j + 1..];
      var (key, value) := m[j];
      if Contains(cur, Token(key)) {
        match value
        case Text(s) =>
          cur := ReplaceAll(cur, Token(key), s);
        case Number(_) =>
          return None;
      }
      j := j + 1;
    }
    return Some(cur);
  }

  /** A loaded template: the paragraph texts, updated in place, and the
      tables' cell texts. */
  class Document {
    var paragraphs: array<string>
    var tables: seq<Table>

    constructor (paragraphs: array<string>, tables: seq<Table>)
      ensures this.paragraphs == paragraphs && this.tables == tables
    {
      this.paragraphs := paragraphs;
      this.tables := tables;
    }

    /** Fills every cell of row `r` of table `t`. */
    method FillRowAt(t: int, r: int, m: Mapping) returns (ok: bool)
      requires 0 <= t < |tables| && 0 <= r < |tables[t]|
      modifies this`tables
      ensures ok <==> AllFill(old(tables)[t][r], m)
      ensures ok ==> tables == old(tables)[t := old(tables)[t][r := FillEach(old(tables)[t][r], m)]]
    {
      ghost var before := tables;
      var c := 0;
      while c < |tables[t][r]|
        invariant |tables| == |before| && |tables[t]| == |before[t]|
        invariant |tables[t][r]| == |before[t][r]| && 0 <= c <= |before[t][r]|
        invariant forall k :: 0 <= k < |before| && k != t ==> tables[k] == before[k]
        invariant forall q :: 0 <= q < |before[t]| && q != r ==> tables[t][q] == before[t][q]
        invariant forall k :: 0 <= k < c ==> Fill(before[t][r][k], m) == Some(tables[t][r][k])
        invariant forall k :: c <= k < |before[t][r]| ==> tables[t][r][k] == before[t][r][k]
      {
        var filled := FillText(tables[t][r][c], m);
        if filled.None? {
          return false;
        }
        tables := tables[t := tables[t][r := tables[t][r][c := filled.value]]];
        c := c + 1;
      }
      assert tables[t][r] == FillEach(before[t][r], m);
      assert tables[t] == before[t][r := tables[t][r]];
      assert tables == before[t := tables[t]];
      return true;
    }

    /** Fills every row of table `t`. */
    method FillTableAt(t: int, m: Mapping) returns (ok: bool)
      requires 0 <= t < |tables|
      modifies this`tables
      ensures ok <==> TableFills(old(tables)[t], m)
      ensures ok ==> tables == old(tables)[t := FillTable(old(tables)[t], m)]
    {
      ghost var before := tables;
      var r := 0;
      while r < |tables[t]|
        invariant |tables| == |before| && |tables[t]| == |before[t]| && 0 <= r <= |before[t]|
        invariant forall k :: 0 <= k < |before| && k != t ==> tables[k] == before[k]
        invariant forall q :: 0 <= q < r ==> AllFill(before[t][q], m) && tables[t][q] == FillEach(before[t][q], m)
        invariant forall q :: r <= q < |before[t]| ==> tables[t][q] == before[t][q]
      {
        ok := FillRowAt(t, r, m);
        if !ok {
          return;
        }
        r := r + 1;
      }
      assert tables[t] == FillTable(before[t], m);
      assert tables == before[t := tables[t]];
      return true;
    }

    /** Fills every paragraph, then every cell of every table; `false` when
        a node raises, in which case the nodes before it have already been
        rewritten. */
    method ReplacePlaceholders(m: Mapping) returns (ok: bool)
      modifies this, paragraphs
      ensures paragraphs == old(paragraphs)
      ensures ok <==> AllFill(old(paragraphs[..]), m) && TablesFill(old(tables), m)
      ensures ok ==> paragraphs[..] == FillEach(old(paragraphs[..]), m)
      ensures ok ==> tables == FillTables(old(tables), m)
    {
      ghost var texts := paragraphs[..];
      ghost var before := tables;
      var i := 0;
      while i < paragraphs.Length
        invariant paragraphs == old(paragraphs) && |texts| == paragraphs.Length
        invariant 0 <= i <= paragraphs.Length && tables == before
        invariant forall k :: 0 <= k < i ==> Fill(texts[k], m) == Some(paragraphs[k])
        invariant forall k :: i <= k < paragraphs.Length ==> paragraphs[k] == texts[k]
      {
        var filled := FillText(paragraphs[i], m);
        if filled.None? {
          return false;
        }
        paragraphs[i] := filled.value;
        i := i + 1;
      }
      assert AllFill(texts, m);
      assert paragraphs[..] == FillEach(texts, m);
      var t := 0;
      while t < |tables|
        invariant paragraphs == old(paragraphs)
        invariant 0 <= t <= |tables| == |before|
        invariant paragraphs[..] == FillEach(texts, m)
        invariant forall k :: 0 <= k < t ==> TableFills(before[k], m) && tables[k] == FillTable(before[k], m)
        invariant forall k :: t <= k < |before| ==> tables[k] == before[k]
      {
        ok := FillTableAt(t, m);
        if !ok {
          return;
        }
        t := t + 1;
      }
      assert tables == FillTables(before, m);
      return true;
    }
  }
}
