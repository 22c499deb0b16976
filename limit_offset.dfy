/** The pagination rewrite that TraversalBasedExecutor applies to DSL query text before it is
    translated (getStringWithLimitOffset): a textual, case-sensitive check for the keywords
    "limit" and "offset", followed by a conditional append. */
module LimitOffset {

  const KeywordLimit: string := "limit"
  const KeywordOffset: string := "offset"
  /** The literal " offset 0" appended when only a limit is present. */
  const ClauseOffsetZero: string := " offset 0"

  /** t occurs in s starting at index i. */
  predicate OccursAt(s: string, t: string, i: int)
  {
    0 <= i && i + |t| <= |s| && s[i..i + |t|] == t
  }

  /** Java's String.contains: a case-sensitive substring test; the empty string is contained
      in every string. */
  predicate Contains(s: string, t: string)
    decreases |s|
  {
    (|t| <= |s| && s[..|t|] == t) || (|s| > 0 && Contains(s[1..], t))
  }

  /** Contains agrees with the positional definition of a substring. */
  lemma {:induction false} ContainsIffOccurs(s: string, t: string)
    ensures Contains(s, t) <==> exists i :: OccursAt(s, t, i)
    decreases |s|
  {
    if |t| <= |s| && s[..|t|] == t {
      assert OccursAt(s, t, 0);
    }
    if |s| > 0 {
      ContainsIffOccurs(s[1..], t);
      if Contains(s[1..], t) {
        var i :| OccursAt(s[1..], t, i);
        assert s[i + 1..i + 1 + |t|] == s[1..][i..i + |t|];
        assert OccursAt(s, t, i + 1);
      }
      if exists i :: OccursAt(s, t, i) {
        var i :| OccursAt(s, t, i);
        if i > 0 {
          assert s[1..][i - 1..i - 1 + |t|] == s[i..i + |t|];
          assert OccursAt(s[1..], t, i - 1);
        }
      }
    }
  }

  /** Appending text keeps every substring that was already there. */
  lemma ContainsAppendRight(s: string, u: string, t: string)
    requires Contains(s, t)
    ensures Contains(s + u, t)
  {
    ContainsIffOccurs(s, t);
    var i :| OccursAt(s, t, i);
    assert (s + u)[i..i + |t|] == s[i..i + |t|];
    assert OccursAt(s + u, t, i);
    ContainsIffOccurs(s + u, t);
  }

  /** Prepending text keeps every substring of the suffix. */
  lemma ContainsAppendLeft(s: string, u: string, t: string)
    requires Contains(u, t)
    ensures Contains(s + u, t)
  {
    ContainsIffOccurs(u, t);
    var i :| OccursAt(u, t, i);
    assert (s + u)[|s| + i..|s| + i + |t|] == u[i..i + |t|];
    assert OccursAt(s + u, t, |s| + i);
    ContainsIffOccurs(s + u, t);
  }

  /** A string shorter than t cannot contain it. */
  lemma {:induction false} ShorterNotContains(s: string, t: string)
    requires |s| < |t|
    ensures !Contains(s, t)
    decreases |s|
  {
    if |s| > 0 {
      ShorterNotContains(s[1..], t);
    }
  }

  /** A string without t's first character cannot contain t. */
  lemma {:induction false} MissingFirstCharNotContains(s: string, t: string)
    requires |t| > 0 && t[0] !in s
    ensures !Contains(s, t)
    decreases |s|
  {
    if |t| <= |s| {
      assert s[..|t|][0] == s[0];
    }
    if |s| > 0 {
      MissingFirstCharNotContains(s[1..], t);
    }
  }

  /** The character of decimal digit d. */
  function DigitChar(d: nat): char
    requires d < 10
  {
    "0123456789"[d]
  }

  /** The value of a decimal digit character. */
  function DigitValue(c: char): nat
    requires '0' <= c <= '9'
  {
    (c - '0') as nat
  }

  predicate IsDigits(s: string)
  {
    forall i :: 0 <= i < |s| ==> '0' <= s[i] <= '9'
  }

  /** The text Java's %d prints for a non-negative int: its decimal digits, most significant
      first, without leading zeros. */
  function DecimalString(n: nat): (s: string)
    ensures |s| > 0 && IsDigits(s)
    ensures s[0] == '0' ==> n == 0
  {
    if n < 10 then [DigitChar(n)] else DecimalString(n / 10) + [DigitChar(n % 10)]
  }

  /** Reads a string of decimal digits back as a number. */
  function ParseDecimal(s: string): nat
    requires IsDigits(s)
  {
    if s == [] then 0 else 10 * ParseDecimal(s[..|s| - 1]) + DigitValue(s[|s| - 1])
  }

  /** DecimalString loses no information: reading its digits back gives n. */
  lemma {:induction false} ParseDecimalString(n: nat)
    ensures ParseDecimal(DecimalString(n)) == n
  {
    var s := DecimalString(n);
    if n < 10 {
      assert s[..0] == [];
    } else {
      ParseDecimalString(n / 10);
      assert s[..|s| - 1] == DecimalString(n / 10);
    }
  }

  /** The default pagination clause, String.format(" limit %d offset %d", limit, offset). */
  function LimitOffsetClause(limit: nat, offset: nat): string
  {
    " limit " + DecimalString(limit) + " offset " + DecimalString(offset)
  }

  /** getStringWithLimitOffset: two tests in sequence on the (reassigned) query text. The
      limit and offset are the normalised query parameters, never negative. */
  function WithLimitOffset(query: string, limit: nat, offset: nat): string
  {
    var q := if !Contains(query, KeywordLimit) && !Contains(query, KeywordOffset)
             then query + LimitOffsetClause(limit, offset)
             else query;
    if Contains(q, KeywordLimit) && !Contains(q, KeywordOffset) then q + ClauseOffsetZero else q
  }

  /** Both keywords occur in the default clause. */
  lemma ClauseHasKeywords(limit: nat, offset: nat)
    ensures Contains(LimitOffsetClause(limit, offset), KeywordLimit)
    ensures Contains(LimitOffsetClause(limit, offset), KeywordOffset)
  {
    var a, b := DecimalString(limit), DecimalString(offset);
    assert OccursAt(" limit ", KeywordLimit, 1);
    ContainsIffOccurs(" limit ", KeywordLimit);
    assert OccursAt(" offset ", KeywordOffset, 1);
    ContainsIffOccurs(" offset ", KeywordOffset);
    ContainsAppendRight(" limit ", a + " offset " + b, KeywordLimit);
    assert " limit " + (a + " offset " + b) == LimitOffsetClause(limit, offset);
    ContainsAppendLeft(" limit " + a, " offset ", KeywordOffset);
    ContainsAppendRight(" limit " + a + " offset ", b, KeywordOffset);
  }

  /** The keyword "offset" occurs in the zero-offset clause. */
  lemma OffsetZeroHasKeyword()
    ensures Contains(ClauseOffsetZero, KeywordOffset)
  {
    assert OccursAt(ClauseOffsetZero, KeywordOffset, 1);
    ContainsIffOccurs(ClauseOffsetZero, KeywordOffset);
  }

  /** The exact output in each of the three cases: neither keyword, only "limit", or "offset". */
  lemma WithLimitOffsetCases(query: string, limit: nat, offset: nat)
    ensures !Contains(query, KeywordLimit) && !Contains(query, KeywordOffset) ==>
              WithLimitOffset(query, limit, offset) == query + LimitOffsetClause(limit, offset)
    ensures Contains(query, KeywordLimit) && !Contains(query, KeywordOffset) ==>
              WithLimitOffset(query, limit, offset) == query + ClauseOffsetZero
    ensures Contains(query, KeywordOffset) ==>
              WithLimitOffset(query, limit, offset) == query
  {
    ClauseHasKeywords(limit, offset);
    ContainsAppendLeft(query, LimitOffsetClause(limit, offset), KeywordOffset);
  }

  /** The original query is a prefix of the rewritten text, which always holds "offset". */
  lemma WithLimitOffsetExtends(query: string, limit: nat, offset: nat)
    ensures query <= WithLimitOffset(query, limit, offset)
    ensures Contains(WithLimitOffset(query, limit, offset), KeywordOffset)
  {
    WithLimitOffsetCases(query, limit, offset);
    ClauseHasKeywords(limit, offset);
    ContainsAppendLeft(query, LimitOffsetClause(limit, offset), KeywordOffset);
    OffsetZeroHasKeyword();
    ContainsAppendLeft(query, ClauseOffsetZero, KeywordOffset);
  }

  /** Rewriting is idempotent, whatever parameters the second rewrite is given. */
  lemma WithLimitOffsetIdempotent(query: string, limit: nat, offset: nat, limit2: nat, offset2: nat)
    ensures WithLimitOffset(WithLimitOffset(query, limit, offset), limit2, offset2)
            == WithLimitOffset(query, limit, offset)
  {
    WithLimitOffsetExtends(query, limit, offset);
    WithLimitOffsetCases(WithLimitOffset(query, limit, offset), limit2, offset2);
  }

  /** The text changes exactly when the query lacks "offset". */
  lemma WithLimitOffsetChanges(query: string, limit: nat, offset: nat)
    ensures WithLimitOffset(query, limit, offset) == query <==> Contains(query, KeywordOffset)
  {
    WithLimitOffsetExtends(query, limit, offset);
    WithLimitOffsetCases(query, limit, offset);
  }

  /** With default parameters, a bare type name gains the default pagination clause. */
  lemma BareQueryExample(q: string)
    requires q == "Table"
    ensures WithLimitOffset(q, 25, 0) == "Table limit 25 offset 0"
  {
    ShorterNotContains(q[1..], KeywordLimit);
    assert q[..5] != KeywordLimit by { assert q[..5][0] != KeywordLimit[0]; }
    assert !Contains(q, KeywordLimit);
    ShorterNotContains(q, KeywordOffset);
    WithLimitOffsetCases(q, 25, 0);
    assert DecimalString(25) == "25" && DecimalString(0) == "0";
    assert LimitOffsetClause(25, 0) == " limit 25 offset 0";
  }

  /** The keyword test is case-sensitive: an upper-case LIMIT does not count. */
  lemma UpperCaseLimitExample(q: string)
    requires q == "DataSet LIMIT 10"
    ensures WithLimitOffset(q, 25, 0) == q + " limit 25 offset 0"
  {
    assert forall i :: 0 <= i < |q| ==> q[i] != 'l' && q[i] != 'o';
    MissingFirstCharNotContains(q, KeywordLimit);
    MissingFirstCharNotContains(q, KeywordOffset);
    WithLimitOffsetCases(q, 25, 0);
    assert DecimalString(25) == "25" && DecimalString(0) == "0";
    assert LimitOffsetClause(25, 0) == " limit 25 offset 0";
  }

  /** A query that already limits its results gains only an explicit zero offset, whatever the
      parameters. */
  lemma LimitOnlyExample(q: string, limit: nat, offset: nat)
    requires q == "Table limit 10"
    ensures WithLimitOffset(q, limit, offset) == "Table limit 10 offset 0"
  {
    assert q[6..11] == KeywordLimit;
    assert OccursAt(q, KeywordLimit, 6);
    ContainsIffOccurs(q, KeywordLimit);
    assert forall i :: 0 <= i < |q| ==> q[i] != 'o';
    MissingFirstCharNotContains(q, KeywordOffset);
    WithLimitOffsetCases(q, limit, offset);
  }

  /** The keyword test is a substring test, not a token test: "limit" inside a quoted value
      counts, so no default limit is added, only the zero offset. */
  lemma SubstringMatchExample(q: string)
    requires q == "DataSet where name = 'unlimited'"
    ensures WithLimitOffset(q, 25, 0) == q + " offset 0"
  {
    assert q[24..29] == KeywordLimit;
    assert OccursAt(q, KeywordLimit, 24);
    ContainsIffOccurs(q, KeywordLimit);
    assert forall i :: 0 <= i < |q| ==> q[i] != 'o';
    MissingFirstCharNotContains(q, KeywordOffset);
    WithLimitOffsetCases(q, 25, 0);
  }
}
