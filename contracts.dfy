/**
 * Contract search and row helpers: the compiler from a free-text query to a
 * Postgres tsquery with prefix matching, the business-size and education-code
 * lookups, the rate clean-up, and the filtering of multi_phrase_search.
 *
 * contracts/models.py is not part of this model; each definition here is the
 * smallest rule that agrees with the behaviour contracts/tests/test_contract.py
 * asserts, and the asserted examples are proved as lemmas.
 */
module ContractSearch {
  import opened Wrappers
  import opened Text

  // ---------------------------------------------------------------------
  // convert_to_tsquery

  predicate IsAlnum(c: char) {
    ('a' <= c <= 'z') || ('A' <= c <= 'Z') || ('0' <= c <= '9')
  }

  /** A character the query clean-up keeps. */
  predicate Kept(c: char) {
    IsAlnum(c) || IsSpace(c)
  }

  /** The query with every character other than letters, digits and whitespace removed. */
  function StripPunctuation(s: string): (r: string)
    ensures forall i :: 0 <= i < |r| ==> Kept(r[i])
    ensures (forall i :: 0 <= i < |s| ==> Kept(s[i])) ==> r == s
    ensures (forall i :: 0 <= i < |s| ==> !IsAlnum(s[i])) ==> forall i :: 0 <= i < |r| ==> IsSpace(r[i])
  {
    var r := Filter(s, Kept);
    assert (forall i :: 0 <= i < |s| ==> !IsAlnum(s[i])) ==> forall i :: 0 <= i < |r| ==> !IsAlnum(r[i]) by {
      if forall i :: 0 <= i < |s| ==> !IsAlnum(s[i]) {
        FilterKeepsNoAlnum(s);
      }
    }
    r
  }

  lemma {:induction false} FilterKeepsNoAlnum(s: string)
    requires forall i :: 0 <= i < |s| ==> !IsAlnum(s[i])
    ensures forall i :: 0 <= i < |Filter(s, Kept)| ==> !IsAlnum(Filter(s, Kept)[i])
  {
    if |s| > 0 {
      FilterKeepsNoAlnum(s[1..]);
    }
  }

  predicate NoSpace(w: string) {
    forall i :: 0 <= i < |w| ==> !IsSpace(w[i])
  }

  /** The longest prefix of s without whitespace. */
  function WordPrefix(s: string): (r: string)
    ensures |r| <= |s| && r == s[..|r|]
    ensures NoSpace(r)
    ensures |r| == |s| || IsSpace(s[|r|])
  {
    if |s| == 0 || IsSpace(s[0]) then "" else [s[0]] + WordPrefix(s[1..])
  }

  /** str.split() without arguments: the maximal runs of non-whitespace. */
  function Words(s: string): (r: seq<string>)
    ensures forall i :: 0 <= i < |r| ==> r[i] != "" && NoSpace(r[i])
    decreases |s|
  {
    if |s| == 0 then []
    else if IsSpace(s[0]) then Words(s[1..])
    else
      var w := WordPrefix(s);
      [w] + Words(s[|w|..])
  }

  /** The search terms of a query. */
  function Tokens(query: string): (r: seq<string>)
    ensures forall i :: 0 <= i < |r| ==> r[i] != "" && forall k :: 0 <= k < |r[i]| ==> IsAlnum(r[i][k])
  {
    var r := Words(StripPunctuation(query));
    assert forall i :: 0 <= i < |r| ==> forall k :: 0 <= k < |r[i]| ==> IsAlnum(r[i][k]) by {
      WordsKeepKept(StripPunctuation(query));
    }
    r
  }

  /** Each term with the prefix-match marker ":*". */
  function PrefixTerms(tokens: seq<string>): (r: seq<string>)
    ensures |r| == |tokens|
    ensures forall i :: 0 <= i < |r| ==> r[i] == tokens[i] + ":*"
  {
    seq(|tokens|, i requires 0 <= i < |tokens| => tokens[i] + ":*")
  }

  /** convert_to_tsquery: the prefix terms joined by the AND operator. */
  function ConvertToTsquery(query: string): string
  {
    Join(PrefixTerms(Tokens(query)), " & ")
  }

  /** The words of a string whose characters are all kept are made of kept non-space characters. */
  lemma {:induction false} WordsKeepKept(s: string)
    requires forall i :: 0 <= i < |s| ==> Kept(s[i])
    ensures forall i :: 0 <= i < |Words(s)| ==> forall k :: 0 <= k < |Words(s)[i]| ==> IsAlnum(Words(s)[i][k])
    decreases |s|
  {
    if |s| > 0 {
      if IsSpace(s[0]) {
        WordsKeepKept(s[1..]);
      } else {
        var w := WordPrefix(s);
        assert forall k :: 0 <= k < |w| ==> w[k] == s[k];
        WordsKeepKept(s[|w|..]);
      }
    }
  }

  /** A string of whitespace has no words. */
  lemma {:induction false} WordsOfSpaces(s: string)
    requires forall i :: 0 <= i < |s| ==> IsSpace(s[i])
    ensures Words(s) == []
  {
    if |s| > 0 {
      WordsOfSpaces(s[1..]);
    }
  }

  /** A word followed by nothing or by whitespace is its own word prefix. */
  lemma {:induction false} WordPrefixOfWord(w: string, rest: string)
    requires NoSpace(w)
    requires rest == [] || IsSpace(rest[0])
    ensures WordPrefix(w + rest) == w
  {
    if |w| > 0 {
      assert (w + rest)[1..] == w[1..] + rest;
      WordPrefixOfWord(w[1..], rest);
      assert w == [w[0]] + w[1..];
    } else {
      assert w + rest == rest;
    }
  }

  /** Splitting words joined by single spaces gives back the words. */
  lemma {:induction false} WordsOfJoin(ws: seq<string>)
    requires forall i :: 0 <= i < |ws| ==> ws[i] != "" && NoSpace(ws[i])
    ensures Words(Join(ws, " ")) == ws
  {
    if |ws| == 1 {
      WordPrefixOfWord(ws[0], "");
      assert ws[0] + "" == ws[0];
      assert ws[0][|ws[0]|..] == "";
    } else if |ws| > 1 {
      var rest := Join(ws[1..], " ");
      var s := ws[0] + " " + rest;
      assert Join(ws, " ") == s;
      assert s == ws[0] + (" " + rest);
      WordPrefixOfWord(ws[0], " " + rest);
      assert s[|ws[0]|..] == " " + rest;
      assert (" " + rest)[1..] == rest;
      WordsOfJoin(ws[1..]);
      assert ws == [ws[0]] + ws[1..];
    }
  }

  lemma {:induction false} JoinKept(ws: seq<string>)
    requires forall i :: 0 <= i < |ws| ==> forall k :: 0 <= k < |ws[i]| ==> IsAlnum(ws[i][k])
    ensures forall k :: 0 <= k < |Join(ws, " ")| ==> Kept(Join(ws, " ")[k])
  {
    if |ws| > 1 {
      JoinKept(ws[1..]);
      var rest := Join(ws[1..], " ");
      assert Join(ws, " ") == ws[0] + " " + rest;
      forall k | 0 <= k < |Join(ws, " ")| ensures Kept(Join(ws, " ")[k]) {
        if k < |ws[0]| {
          assert Join(ws, " ")[k] == ws[0][k];
        } else if k == |ws[0]| {
        } else {
          assert Join(ws, " ")[k] == rest[k - |ws[0]| - 1];
        }
      }
    }
  }

  /**
   * A query of alphanumeric terms separated by single spaces compiles to
   * those terms, in order, each with ":*", joined by " & ".
   */
  lemma TsqueryOfTerms(terms: seq<string>)
    requires forall i :: 0 <= i < |terms| ==> terms[i] != "" && forall k :: 0 <= k < |terms[i]| ==> IsAlnum(terms[i][k])
    ensures Tokens(Join(terms, " ")) == terms
    ensures ConvertToTsquery(Join(terms, " ")) == Join(PrefixTerms(terms), " & ")
  {
    JoinKept(terms);
    assert StripPunctuation(Join(terms, " ")) == Join(terms, " ");
    forall i | 0 <= i < |terms| ensures NoSpace(terms[i]) {
      assert forall k :: 0 <= k < |terms[i]| ==> IsAlnum(terms[i][k]);
    }
    WordsOfJoin(terms);
  }

  /** A query without letters or digits compiles to the empty string. */
  lemma NoTermsGiveEmptyQuery(query: string)
    requires forall i :: 0 <= i < |query| ==> !IsAlnum(query[i])
    ensures ConvertToTsquery(query) == ""
  {
    WordsOfSpaces(StripPunctuation(query));
  }

  /** The compiled query is empty exactly when the query has no terms. */
  lemma EmptyQueryIffNoTerms(query: string)
    ensures ConvertToTsquery(query) == "" <==> Tokens(query) == []
  {
    var terms := PrefixTerms(Tokens(query));
    if |terms| > 0 {
      JoinStartsWithFirst(terms, " & ");
    }
  }

  lemma JoinStartsWithFirst(parts: seq<string>, sep: string)
    requires |parts| > 0
    ensures StartsWith(Join(parts, sep), parts[0])
  {
  }

  /** A leading word is split off whole. */
  lemma WordsCons(w: string, rest: string)
    requires w != "" && NoSpace(w)
    requires rest == [] || IsSpace(rest[0])
    ensures Words(w + rest) == [w] + Words(rest)
  {
    WordPrefixOfWord(w, rest);
    assert (w + rest)[|w|..] == rest;
  }

  /** Leading whitespace is skipped. */
  lemma {:induction false} WordsSkipSpaces(sp: string, rest: string)
    requires forall i :: 0 <= i < |sp| ==> IsSpace(sp[i])
    ensures Words(sp + rest) == Words(rest)
  {
    if |sp| == 0 {
      assert sp + rest == rest;
    } else {
      assert (sp + rest)[1..] == sp[1..] + rest;
      WordsSkipSpaces(sp[1..], rest);
    }
  }

  predicate AlnumWord(w: string) {
    w != "" && forall k :: 0 <= k < |w| ==> IsAlnum(w[k])
  }

  /** Two words with a run of whitespace between them are the query's two terms. */
  lemma TermsOfSpacedWords(w1: string, sp: string, w2: string)
    requires AlnumWord(w1) && AlnumWord(w2)
    requires sp != "" && forall k :: 0 <= k < |sp| ==> IsSpace(sp[k])
    ensures Tokens(w1 + sp + w2) == [w1, w2]
  {
    var q := w1 + sp + w2;
    forall k | 0 <= k < |q| ensures Kept(q[k]) {
      if k < |w1| {
        assert q[k] == w1[k];
      } else if k < |w1| + |sp| {
        assert q[k] == sp[k - |w1|];
      } else {
        assert q[k] == w2[k - |w1| - |sp|];
      }
    }
    assert q == w1 + (sp + w2);
    assert NoSpace(w1) && NoSpace(w2);
    WordsCons(w1, sp + w2);
    WordsSkipSpaces(sp, w2);
    TsqueryOfTerms([w2]);
  }

  /** A character the clean-up drops can be left out before compiling. */
  lemma StripDropped(x: string, c: char, y: string)
    requires !Kept(c)
    ensures StripPunctuation(x + [c] + y) == StripPunctuation(x + y)
  {
    assert x + [c] + y == x + ([c] + y);
    FilterAppend(x, [c] + y, Kept);
    FilterAppend([c], y, Kept);
    FilterAppend(x, y, Kept);
  }

  lemma JoinTwo(a: string, b: string, sep: string)
    ensures Join([a, b], sep) == a + sep + b
  {
    assert [a, b][1..] == [b];
  }

  lemma JoinThree(a: string, b: string, c: string, sep: string)
    ensures Join([a, b, c], sep) == a + sep + b + sep + c
  {
    assert [a, b, c][1..] == [b, c];
    JoinTwo(b, c, sep);
  }

  /** The compiled form of a query with two terms. */
  lemma TsqueryOfTwo(q: string, a: string, b: string)
    requires Tokens(q) == [a, b]
    ensures ConvertToTsquery(q) == a + ":*" + " & " + b + ":*"
  {
    assert PrefixTerms([a, b]) == [a + ":*", b + ":*"];
    JoinTwo(a + ":*", b + ":*", " & ");
    assert a + ":*" + " & " + (b + ":*") == a + ":*" + " & " + b + ":*";
  }

  /** The compiled form of a query with three terms. */
  lemma TsqueryOfThree(q: string, a: string, b: string, c: string)
    requires Tokens(q) == [a, b, c]
    ensures ConvertToTsquery(q) == a + ":*" + " & " + b + ":*" + " & " + c + ":*"
  {
    assert PrefixTerms([a, b, c]) == [a + ":*", b + ":*", c + ":*"];
    JoinThree(a + ":*", b + ":*", c + ":*", " & ");
    assert a + ":*" + " & " + (b + ":*") + " & " + (c + ":*") == a + ":*" + " & " + b + ":*" + " & " + c + ":*";
  }

  lemma DoubleSpaceText()
    ensures "staff" + "  " + "consultant" == "staff  consultant"
    ensures "staff" + ":*" + " & " + "consultant" + ":*" == "staff:* & consultant:*"
  {
  }

  /** Repeated whitespace separates terms without making empty ones. */
  lemma ExampleDoubleSpace()
    ensures ConvertToTsquery("staff  consultant") == "staff:* & consultant:*"
  {
    TermsOfSpacedWords("staff", "  ", "consultant");
    TsqueryOfTwo("staff" + "  " + "consultant", "staff", "consultant");
    DoubleSpaceText();
  }

  /** A character the clean-up drops does not change the terms. */
  lemma TermsWithoutDropped(x: string, c: char, y: string)
    requires !Kept(c)
    ensures Tokens(x + [c] + y) == Tokens(x + y)
  {
    StripDropped(x, c, y);
  }

  /** Three words with single spaces between them are the query's three terms. */
  lemma TermsOfThreeWords(w1: string, w2: string, w3: string)
    requires AlnumWord(w1) && AlnumWord(w2) && AlnumWord(w3)
    ensures Tokens(w1 + " " + w2 + " " + w3) == [w1, w2, w3]
  {
    JoinThree(w1, w2, w3, " ");
    TsqueryOfTerms([w1, w2, w3]);
  }

  lemma PunctuationText()
    ensures "senior typist " + "st)" == "senior typist st" + [')'] + ""
    ensures "senior typist st" + "" == "senior" + " " + "typist" + " " + "st"
  {
  }

  lemma PunctuationResultText()
    ensures "senior typist (st)" == "senior typist " + ['('] + "st)"
    ensures "senior" + ":*" + " & " + "typist" + ":*" + " & " + "st" + ":*" == "senior:* & typist:* & st:*"
  {
  }

  lemma PunctuationTerms()
    ensures Tokens("senior typist " + ['('] + "st)") == ["senior", "typist", "st"]
  {
    calc {
      Tokens("senior typist " + ['('] + "st)");
      == { TermsWithoutDropped("senior typist ", '(', "st)"); }
      Tokens("senior typist " + "st)");
      == { PunctuationText(); }
      Tokens("senior typist st" + [')'] + "");
      == { TermsWithoutDropped("senior typist st", ')', ""); }
      Tokens("senior typist st" + "");
      == { PunctuationText(); }
      Tokens("senior" + " " + "typist" + " " + "st");
      == { TermsOfThreeWords("senior", "typist", "st"); }
      ["senior", "typist", "st"];
    }
  }

  /** Punctuation is dropped and the terms keep their order. */
  lemma ExamplePunctuation()
    ensures ConvertToTsquery("senior typist (st)") == "senior:* & typist:* & st:*"
  {
    PunctuationTerms();
    TsqueryOfThree("senior typist " + ['('] + "st)", "senior", "typist", "st");
    PunctuationResultText();
  }

  /** A query made only of punctuation compiles to the empty string. */
  lemma ExampleOnlyPunctuation()
    ensures ConvertToTsquery("@$(#)%&**#") == ""
  {
    assert forall i :: 0 <= i < |"@$(#)%&**#"| ==> !IsAlnum("@$(#)%&**#"[i]);
    NoTermsGiveEmptyQuery("@$(#)%&**#");
  }

  // ---------------------------------------------------------------------
  // get_readable_business_size and get_education_code

  /** A code table: pairs of a stored code and its human-readable caption. */
  type CodeTable = seq<(string, string)>

  predicate DistinctCodes(table: CodeTable) {
    forall i, j :: 0 <= i < j < |table| ==> table[i].0 != table[j].0
  }

  predicate DistinctLabels(table: CodeTable) {
    forall i, j :: 0 <= i < j < |table| ==> table[i].1 != table[j].1
  }

  /** The caption of a code, None for a code the table lacks. */
  function LabelOf(table: CodeTable, code: string): (r: Option<string>)
    ensures r.Some? <==> exists i :: 0 <= i < |table| && table[i].0 == code
    ensures r.Some? ==> exists i :: 0 <= i < |table| && table[i] == (code, r.value)
  {
    if |table| == 0 then None
    else if table[0].0 == code then Some(table[0].1)
    else
      var r := LabelOf(table[1..], code);
      assert forall i :: 1 <= i < |table| ==> table[i] == table[1..][i - 1];
      r
  }

  /** The code of a caption, None for a caption the table lacks. */
  function CodeOf(table: CodeTable, caption: string): (r: Option<string>)
    ensures r.Some? <==> exists i :: 0 <= i < |table| && table[i].1 == caption
    ensures r.Some? ==> exists i :: 0 <= i < |table| && table[i] == (r.value, caption)
  {
    if |table| == 0 then None
    else if table[0].1 == caption then Some(table[0].0)
    else
      var r := CodeOf(table[1..], caption);
      assert forall i :: 1 <= i < |table| ==> table[i] == table[1..][i - 1];
      r
  }

  /** In a table without repeated codes or labels, the two lookups are inverse. */
  lemma LookupsInverse(table: CodeTable, code: string)
    requires DistinctCodes(table) && DistinctLabels(table)
    requires LabelOf(table, code).Some?
    ensures CodeOf(table, LabelOf(table, code).value) == Some(code)
  {
    var caption := LabelOf(table, code).value;
    var i :| 0 <= i < |table| && table[i] == (code, caption);
    var c := CodeOf(table, caption).value;
    var j :| 0 <= j < |table| && table[j] == (c, caption);
    assert i == j;
  }

  /** The business sizes of the contract rows. */
  const BusinessSizes: CodeTable := [("O", "other than small business"), ("S", "small business")]

  /** The education levels; only the Bachelors row is attested. */
  const EducationLevels: CodeTable := [("BA", "Bachelors")]

  function ReadableBusinessSize(code: string): Option<string>
  {
    LabelOf(BusinessSizes, code)
  }

  function EducationCode(caption: string): Option<string>
  {
    CodeOf(EducationLevels, caption)
  }

  lemma BusinessSizeExamples()
    ensures ReadableBusinessSize("O") == Some("other than small business")
    ensures ReadableBusinessSize("S") == Some("small business")
  {
  }

  lemma EducationCodeExamples()
    ensures EducationCode("Bachelors") == Some("BA")
    ensures EducationCode("Nursing") == None
  {
  }

  // ---------------------------------------------------------------------
  // normalize_rate

  predicate NotCurrencyMark(c: char) {
    c != '$' && c != ','
  }

  /** The rate with its currency signs and thousands separators removed. */
  function StripCurrency(s: string): (r: string)
    ensures '$' !in r && ',' !in r
    ensures ('$' !in s && ',' !in s) ==> r == s
  {
    var r := Filter(s, NotCurrencyMark);
    assert forall i :: 0 <= i < |r| ==> NotCurrencyMark(r[i]);
    r
  }

  predicate AllDigits(s: string) {
    forall i :: 0 <= i < |s| ==> '0' <= s[i] <= '9'
  }

  /** The value of a string of decimal digits. */
  function DigitsValue(s: string): (n: nat)
    requires AllDigits(s)
  {
    if |s| == 0 then 0 else DigitsValue(s[..|s| - 1]) * 10 + (s[|s| - 1] as int - '0' as int)
  }

  function Pow10(k: nat): (p: nat)
    ensures p >= 1
  {
    if k == 0 then 1 else 10 * Pow10(k - 1)
  }

  /** The value of k decimal places holding the digits of n. */
  function Scaled(n: nat, k: nat): (r: real)
    ensures r >= 0.0
    ensures n == 0 ==> r == 0.0
  {
    n as real / Pow10(k) as real
  }

  /** The number a numeral with the given whole and fractional digits denotes. */
  function DecimalValue(whole: string, fraction: string): (r: real)
    requires AllDigits(whole) && AllDigits(fraction)
    ensures r >= 0.0
  {
    DigitsValue(whole) as real + Scaled(DigitsValue(fraction), |fraction|)
  }

  /**
   * A decimal numeral, digits with at most one point and at least one digit,
   * as an exact number; anything else is None, where float() raises ValueError.
   */
  function ParseDecimal(s: string): (r: Option<real>)
    ensures r.Some? ==> r.value >= 0.0
  {
    var parts := Split(s, '.');
    if |parts| == 1 && AllDigits(parts[0]) && |s| > 0 then Some(DigitsValue(parts[0]) as real)
    else if |parts| == 2 && AllDigits(parts[0]) && AllDigits(parts[1]) && |s| > 1 then
      Some(DecimalValue(parts[0], parts[1]))
    else None
  }

  /** normalize_rate: the clean-up, then the decimal parse. */
  function NormalizeRate(rate: string): Option<real>
  {
    ParseDecimal(StripCurrency(rate))
  }

  /** The digits str(n) renders read back as n. */
  lemma {:induction false} DigitsValueOfNatToString(n: nat)
    ensures AllDigits(NatToString(n)) && DigitsValue(NatToString(n)) == n
  {
    var s := NatToString(n);
    if n >= 10 {
      DigitsValueOfNatToString(n / 10);
      assert s[..|s| - 1] == NatToString(n / 10);
    }
  }

  /** A whole number rendered in decimal normalizes to itself. */
  lemma NormalizeWholeRate(n: nat)
    ensures NormalizeRate(NatToString(n)) == Some(n as real)
  {
    var s := NatToString(n);
    DigitsValueOfNatToString(n);
    assert '.' !in s by {
      forall i | 0 <= i < |s| ensures s[i] != '.' {
        assert '0' <= s[i] <= '9';
      }
    }
    assert '$' !in s && ',' !in s by {
      forall i | 0 <= i < |s| ensures s[i] != '$' && s[i] != ',' {
        assert '0' <= s[i] <= '9';
      }
    }
    SplitWithoutSeparator(s, '.');
  }

  /** A currency sign or separator can be left out before the parse. */
  lemma CurrencyDropped(x: string, c: char, y: string)
    requires !NotCurrencyMark(c)
    ensures StripCurrency(x + [c] + y) == StripCurrency(x + y)
  {
    assert x + [c] + y == x + ([c] + y);
    FilterAppend(x, [c] + y, NotCurrencyMark);
    FilterAppend([c], y, NotCurrencyMark);
    FilterAppend(x, y, NotCurrencyMark);
  }

  lemma NoPointInDigits(s: string)
    requires AllDigits(s)
    ensures '.' !in s
  {
    forall i | 0 <= i < |s| ensures s[i] != '.' {
      assert '0' <= s[i] <= '9';
    }
  }

  /** A numeral with one point splits into its whole part and its fraction. */
  lemma SplitAtPoint(whole: string, fraction: string)
    requires AllDigits(whole) && AllDigits(fraction)
    ensures Split(whole + ['.'] + fraction, '.') == [whole, fraction]
  {
    NoPointInDigits(whole);
    NoPointInDigits(fraction);
    SplitAround(whole, '.', fraction);
    SplitWithoutSeparator(whole, '.');
    SplitWithoutSeparator(fraction, '.');
  }

  /** A numeral with a point is its whole part plus its scaled fraction. */
  lemma DecimalOfParts(whole: string, fraction: string)
    requires AllDigits(whole) && AllDigits(fraction) && |whole| + |fraction| >= 1
    ensures ParseDecimal(whole + ['.'] + fraction) == Some(DecimalValue(whole, fraction))
  {
    SplitAtPoint(whole, fraction);
  }

  lemma RateText()
    ensures "$1,000.00," == "" + ['$'] + "1,000.00,"
    ensures "" + "1,000.00," == "1" + [','] + "000.00,"
    ensures "1" + "000.00," == "1000.00" + [','] + ""
    ensures "1000.00" + "" == "1000" + ['.'] + "00"
  {
  }

  lemma RateDigits()
    ensures AllDigits("1000") && DigitsValue("1000") == 1000
    ensures AllDigits("00") && DigitsValue("00") == 0
  {
    assert "1000"[..3] == "100";
    assert "100"[..2] == "10";
    assert "10"[..1] == "1";
    assert "00"[..1] == "0";
  }

  lemma RateCleaned()
    ensures StripCurrency("$1,000.00,") == "1000" + ['.'] + "00"
  {
    calc {
      StripCurrency("$1,000.00,");
      == { RateText(); }
      StripCurrency("" + ['$'] + "1,000.00,");
      == { CurrencyDropped("", '$', "1,000.00,"); }
      StripCurrency("" + "1,000.00,");
      == { RateText(); }
      StripCurrency("1" + [','] + "000.00,");
      == { CurrencyDropped("1", ',', "000.00,"); }
      StripCurrency("1" + "000.00,");
      == { RateText(); }
      StripCurrency("1000.00" + [','] + "");
      == { CurrencyDropped("1000.00", ',', ""); }
      StripCurrency("1000.00" + "");
      == { RateText(); }
      StripCurrency("1000" + ['.'] + "00");
      == { RateDigits(); WholeDigitsUnchanged("1000" + ['.'] + "00"); }
      "1000" + ['.'] + "00";
    }
  }

  /** The currency sign and the commas go before the parse. */
  lemma NormalizeRateExample()
    ensures NormalizeRate("$1,000.00,") == Some(1000.0)
  {
    RateCleaned();
    RateParsed();
  }

  lemma RateParsed()
    ensures ParseDecimal("1000" + ['.'] + "00") == Some(1000.0)
  {
    RateDigits();
    DecimalOfParts("1000", "00");
    assert Pow10(|"00"|) == 100;
  }

  lemma WholeDigitsUnchanged(s: string)
    requires forall i :: 0 <= i < |s| ==> ('0' <= s[i] <= '9' || s[i] == '.')
    ensures StripCurrency(s) == s
  {
    assert '$' !in s && ',' !in s by {
      forall i | 0 <= i < |s| ensures s[i] != '$' && s[i] != ',' {
        assert '0' <= s[i] <= '9' || s[i] == '.';
      }
    }
  }

  // ---------------------------------------------------------------------
  // multi_phrase_search

  datatype Contract = Contract(id: nat, laborCategory: string)

  /**
   * The full-text match of one search term against a labor category. English
   * stemming decides it in Postgres, so it is a parameter here.
   */
  type Matcher = (string, string) -> bool

  /** A phrase matches when it has terms and every term matches (AND). */
  predicate PhraseMatches(m: Matcher, phrase: string, category: string) {
    var terms := Tokens(phrase);
    |terms| > 0 && forall i :: 0 <= i < |terms| ==> m(terms[i], category)
  }

  /** A contract matches the search when some phrase matches it (OR). */
  predicate SearchMatches(m: Matcher, phrases: seq<string>, category: string) {
    exists i :: 0 <= i < |phrases| && PhraseMatches(m, phrases[i], category)
  }

  predicate IdsIncreasing(cs: seq<Contract>) {
    forall i, j :: 0 <= i < j < |cs| ==> cs[i].id < cs[j].id
  }

  /** The contracts, in their stored order, whose labor category satisfies keep. */
  function Select(keep: string -> bool, contracts: seq<Contract>): (r: seq<Contract>)
    ensures |r| <= |contracts|
  {
    if |contracts| == 0 then []
    else
      var rest := Select(keep, contracts[1..]);
      if keep(contracts[0].laborCategory) then [contracts[0]] + rest else rest
  }

  /** Selection keeps exactly the contracts that satisfy keep. */
  lemma {:induction false} SelectMembers(keep: string -> bool, contracts: seq<Contract>)
    ensures forall c :: c in Select(keep, contracts) <==> c in contracts && keep(c.laborCategory)
  {
    if |contracts| > 0 {
      SelectMembers(keep, contracts[1..]);
      assert contracts == [contracts[0]] + contracts[1..];
    }
  }

  /** Selection keeps the stored order: ids that increase still increase. */
  lemma {:induction false} SelectKeepsOrder(keep: string -> bool, contracts: seq<Contract>)
    ensures IdsIncreasing(contracts) ==> IdsIncreasing(Select(keep, contracts))
  {
    if |contracts| > 0 && IdsIncreasing(contracts) {
      SelectKeepsOrder(keep, contracts[1..]);
      SelectMembers(keep, contracts[1..]);
      var rest := Select(keep, contracts[1..]);
      forall c | c in rest ensures contracts[0].id < c.id {
        var k :| 0 <= k < |contracts[1..]| && contracts[1..][k] == c;
        assert contracts[k + 1] == c;
      }
    }
  }

  /** The search's verdict on a labor category. */
  function Matches(m: Matcher, phrases: seq<string>): (keep: string -> bool)
    ensures forall category :: keep(category) == SearchMatches(m, phrases, category)
  {
    category => SearchMatches(m, phrases, category)
  }

  /**
   * multi_phrase_search: the matching contracts in id order, each at most
   * once, however many phrases match it.
   */
  function MultiPhraseSearch(m: Matcher, phrases: seq<string>, contracts: seq<Contract>): (r: seq<Contract>)
    ensures forall c :: c in r <==> c in contracts && SearchMatches(m, phrases, c.laborCategory)
    ensures IdsIncreasing(contracts) ==> IdsIncreasing(r)
  {
    SelectMembers(Matches(m, phrases), contracts);
    SelectKeepsOrder(Matches(m, phrases), contracts);
    Select(Matches(m, phrases), contracts)
  }

  /** Selecting from a concatenation selects from each part. */
  lemma {:induction false} SelectAppend(keep: string -> bool, a: seq<Contract>, b: seq<Contract>)
    ensures Select(keep, a + b) == Select(keep, a) + Select(keep, b)
  {
    if |a| == 0 {
      assert a + b == b;
    } else {
      assert (a + b)[0] == a[0];
      assert (a + b)[1..] == a[1..] + b;
      SelectAppend(keep, a[1..], b);
    }
  }

  /** When no contract is kept, nothing is selected. */
  lemma {:induction false} SelectNone(keep: string -> bool, contracts: seq<Contract>)
    requires forall i :: 0 <= i < |contracts| ==> !keep(contracts[i].laborCategory)
    ensures Select(keep, contracts) == []
  {
    if |contracts| > 0 {
      SelectNone(keep, contracts[1..]);
    }
  }

  /** When every contract is kept, all of them are selected, in order. */
  lemma {:induction false} SelectAll(keep: string -> bool, contracts: seq<Contract>)
    requires forall i :: 0 <= i < |contracts| ==> keep(contracts[i].laborCategory)
    ensures Select(keep, contracts) == contracts
  {
    if |contracts| > 0 {
      SelectAll(keep, contracts[1..]);
      assert contracts == [contracts[0]] + contracts[1..];
    }
  }

  /** Searching with no phrases finds nothing. */
  lemma NoPhrasesFindNothing(m: Matcher, contracts: seq<Contract>)
    ensures MultiPhraseSearch(m, [], contracts) == []
  {
    SelectNone(Matches(m, []), contracts);
  }

  /** A search over several phrases finds what any one of them finds. */
  lemma SearchIsUnion(m: Matcher, p: seq<string>, q: seq<string>, contracts: seq<Contract>)
    ensures forall c :: c in MultiPhraseSearch(m, p + q, contracts) <==>
      c in MultiPhraseSearch(m, p, contracts) || c in MultiPhraseSearch(m, q, contracts)
  {
    forall c | c in contracts
      ensures SearchMatches(m, p + q, c.laborCategory) <==>
        SearchMatches(m, p, c.laborCategory) || SearchMatches(m, q, c.laborCategory)
    {
      var cat := c.laborCategory;
      if SearchMatches(m, p + q, cat) {
        var i :| 0 <= i < |p + q| && PhraseMatches(m, (p + q)[i], cat);
        if i < |p| {
          assert p[i] == (p + q)[i];
        } else {
          assert q[i - |p|] == (p + q)[i];
        }
      }
      if SearchMatches(m, p, cat) {
        var i :| 0 <= i < |p| && PhraseMatches(m, p[i], cat);
        assert (p + q)[i] == p[i];
      }
      if SearchMatches(m, q, cat) {
        var i :| 0 <= i < |q| && PhraseMatches(m, q[i], cat);
        assert (p + q)[|p| + i] == q[i];
      }
    }
  }

  /** The labor categories the search tests store, with ids 1 to 8. */
  const Categories: seq<string> := [
    "Sign Language Interpreter",
    "Foreign Language Staff Interpreter (Spanish sign language)",
    "Aircraft Servicer",
    "Service Order Dispatcher",
    "Disposal Services",
    "Interpretation Services Class 4: Afrikan,Akan,Albanian",
    "Interpretation Services Class 1: Spanish",
    "Interpretation Services Class 2: French, German, Italian"
  ]

  /** Contracts stored in order with the given labor categories, ids from 1. */
  function RowsOf(cats: seq<string>): (r: seq<Contract>)
    ensures |r| == |cats|
    ensures forall i :: 0 <= i < |r| ==> r[i] == Contract(i + 1, cats[i])
    ensures IdsIncreasing(r)
  {
    seq(|cats|, i requires 0 <= i < |cats| => Contract(i + 1, cats[i]))
  }

  /**
   * The verdicts of the English stemmer on eight stored categories, by
   * position, as it gives them on Categories: "interpretation" matches rows
   * 1, 2, 6, 7 and 8, "services" rows 3 to 8, and "disposal" row 5.
   */
  predicate StemmerVerdicts(m: Matcher, cats: seq<string>) {
    |cats| == 8 &&
    (forall i :: 0 <= i < |cats| ==> (m("interpretation", cats[i]) <==> (i <= 1 || 5 <= i))) &&
    (forall i :: 0 <= i < |cats| ==> (m("services", cats[i]) <==> 2 <= i)) &&
    (forall i :: 0 <= i < |cats| ==> (m("disposal", cats[i]) <==> i == 4))
  }

  lemma TermsOfWord(w: string)
    requires w != "" && forall k :: 0 <= k < |w| ==> IsAlnum(w[k])
    ensures Tokens(w) == [w]
  {
    TsqueryOfTerms([w]);
  }

  lemma TermsOfDisposal()
    ensures Tokens("disposal") == ["disposal"]
  {
    TermsOfWord("disposal");
  }

  lemma TermsOfInterpretationServices()
    ensures Tokens("interpretation services") == ["interpretation", "services"]
  {
    assert Join(["interpretation", "services"], " ") == "interpretation services";
    TsqueryOfTerms(["interpretation", "services"]);
  }

  /** Selecting from kept, dropped and kept runs keeps the two kept runs. */
  lemma SelectAroundDropped(keep: string -> bool, a: seq<Contract>, b: seq<Contract>, c: seq<Contract>)
    requires Select(keep, a) == a && Select(keep, b) == [] && Select(keep, c) == c
    ensures Select(keep, a + b + c) == a + c
  {
    calc {
      Select(keep, a + b + c);
      { SelectAppend(keep, a + b, c); }
      Select(keep, a + b) + c;
      { SelectAppend(keep, a, b); }
      a + [] + c;
      { assert a + [] == a; }
      a + c;
    }
  }

  lemma SplitInThree(rows: seq<Contract>, i: nat, j: nat)
    requires i <= j <= |rows|
    ensures rows == rows[0..i] + rows[i..j] + rows[j..|rows|]
  {
  }

  /** A run of kept rows is selected whole. */
  lemma KeptRun(keep: string -> bool, rows: seq<Contract>, lo: nat, hi: nat)
    requires lo <= hi <= |rows|
    requires forall k :: lo <= k < hi ==> keep(rows[k].laborCategory)
    ensures Select(keep, rows[lo..hi]) == rows[lo..hi]
  {
    var run := rows[lo..hi];
    forall k | 0 <= k < |run| ensures keep(run[k].laborCategory) {
      assert run[k] == rows[lo + k];
    }
    SelectAll(keep, run);
  }

  /** A run of dropped rows selects nothing. */
  lemma DroppedRun(keep: string -> bool, rows: seq<Contract>, lo: nat, hi: nat)
    requires lo <= hi <= |rows|
    requires forall k :: lo <= k < hi ==> !keep(rows[k].laborCategory)
    ensures Select(keep, rows[lo..hi]) == []
  {
    var run := rows[lo..hi];
    forall k | 0 <= k < |run| ensures !keep(run[k].laborCategory) {
      assert run[k] == rows[lo + k];
    }
    SelectNone(keep, run);
  }

  /** Rows kept before i, dropped from i to j and kept from j on. */
  lemma SelectRuns(keep: string -> bool, rows: seq<Contract>, i: nat, j: nat)
    requires i <= j <= |rows|
    requires forall k :: 0 <= k < |rows| ==> (keep(rows[k].laborCategory) <==> (k < i || j <= k))
    ensures Select(keep, rows) == rows[..i] + rows[j..]
  {
    KeptRun(keep, rows, 0, i);
    DroppedRun(keep, rows, i, j);
    KeptRun(keep, rows, j, |rows|);
    SplitInThree(rows, i, j);
    SelectAroundDropped(keep, rows[0..i], rows[i..j], rows[j..|rows|]);
  }

  /** A search for one phrase of one term keeps what the term matches. */
  lemma OneTermSearch(m: Matcher, phrase: string, t: string, category: string)
    requires Tokens(phrase) == [t]
    ensures Matches(m, [phrase])(category) <==> m(t, category)
  {
    assert [phrase][0] == phrase;
    assert SearchMatches(m, [phrase], category) <==> PhraseMatches(m, phrase, category);
    assert PhraseMatches(m, phrase, category) <==> m(Tokens(phrase)[0], category);
  }

  /** A search for one phrase of two terms keeps what both terms match. */
  lemma TwoTermSearch(m: Matcher, phrase: string, t: string, u: string, category: string)
    requires Tokens(phrase) == [t, u]
    ensures Matches(m, [phrase])(category) <==> m(t, category) && m(u, category)
  {
    assert [phrase][0] == phrase;
    assert SearchMatches(m, [phrase], category) <==> PhraseMatches(m, phrase, category);
    assert PhraseMatches(m, phrase, category) <==>
      m(Tokens(phrase)[0], category) && m(Tokens(phrase)[1], category);
  }

  /** A search for two phrases keeps what either phrase keeps on its own. */
  lemma TwoPhraseSearch(m: Matcher, p: string, q: string, category: string)
    ensures Matches(m, [p, q])(category) <==> Matches(m, [p])(category) || Matches(m, [q])(category)
  {
    assert [p, q][0] == [p][0] && [p, q][1] == [q][0];
  }

  /** The rows 1, 2, 6, 7 and 8 of eight. */
  lemma KeptFirstTwoAndLastThree(rows: seq<Contract>)
    requires |rows| == 8
    ensures rows[..2] + rows[5..] == [rows[0], rows[1], rows[5], rows[6], rows[7]]
  {
  }

  /** The rows 6, 7 and 8 of eight. */
  lemma KeptLastThree(rows: seq<Contract>)
    requires |rows| == 8
    ensures rows[..0] + rows[5..] == [rows[5], rows[6], rows[7]]
  {
  }

  /** The rows 5 to 8 of eight. */
  lemma KeptLastFour(rows: seq<Contract>)
    requires |rows| == 8
    ensures rows[..0] + rows[4..] == [rows[4], rows[5], rows[6], rows[7]]
  {
  }

  /** Searching for "interpretation" finds rows 1, 2, 6, 7 and 8. */
  lemma SingleWordPhraseExample(m: Matcher, cats: seq<string>)
    requires StemmerVerdicts(m, cats)
    ensures var rows := RowsOf(cats);
      MultiPhraseSearch(m, ["interpretation"], rows) == [rows[0], rows[1], rows[5], rows[6], rows[7]]
  {
    var rows := RowsOf(cats);
    TermsOfWord("interpretation");
    forall k | 0 <= k < |rows|
      ensures Matches(m, ["interpretation"])(rows[k].laborCategory) <==> (k < 2 || 5 <= k)
    {
      OneTermSearch(m, "interpretation", "interpretation", cats[k]);
    }
    SelectRuns(Matches(m, ["interpretation"]), rows, 2, 5);
    KeptFirstTwoAndLastThree(rows);
  }

  /** Searching for "interpretation services" finds rows 6, 7 and 8. */
  lemma MultiWordPhraseExample(m: Matcher, cats: seq<string>)
    requires StemmerVerdicts(m, cats)
    ensures var rows := RowsOf(cats);
      MultiPhraseSearch(m, ["interpretation services"], rows) == [rows[5], rows[6], rows[7]]
  {
    var rows := RowsOf(cats);
    TermsOfInterpretationServices();
    forall k | 0 <= k < |rows|
      ensures Matches(m, ["interpretation services"])(rows[k].laborCategory) <==> 5 <= k
    {
      TwoTermSearch(m, "interpretation services", "interpretation", "services", cats[k]);
    }
    SelectRuns(Matches(m, ["interpretation services"]), rows, 0, 5);
    KeptLastThree(rows);
  }

  /** Searching for "interpretation services" or "disposal" finds rows 5 to 8. */
  lemma MultiplePhrasesExample(m: Matcher, cats: seq<string>)
    requires StemmerVerdicts(m, cats)
    ensures var rows := RowsOf(cats);
      MultiPhraseSearch(m, ["interpretation services", "disposal"], rows) == [rows[4], rows[5], rows[6], rows[7]]
  {
    var rows := RowsOf(cats);
    TermsOfDisposal();
    TermsOfInterpretationServices();
    forall k | 0 <= k < |rows|
      ensures Matches(m, ["interpretation services", "disposal"])(rows[k].laborCategory) <==> 4 <= k
    {
      TwoPhraseSearch(m, "interpretation services", "disposal", cats[k]);
      TwoTermSearch(m, "interpretation services", "interpretation", "services", cats[k]);
      OneTermSearch(m, "disposal", "disposal", cats[k]);
    }
    SelectRuns(Matches(m, ["interpretation services", "disposal"]), rows, 0, 4);
    KeptLastFour(rows);
  }
}
