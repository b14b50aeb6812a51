/**
 * The query validator: decides whether untrusted SQL text may run in the
 * sandbox and, if so, produces the text that is run.
 *
 * Checks run in a fixed order and the first one that fails decides the
 * error: not a non-empty string, blank, destructive keyword, dangerous
 * PostgreSQL function, misplaced statement terminator. Accepted text loses
 * its surrounding whitespace and its one trailing `;`, and a SELECT without
 * a LIMIT gets ` LIMIT <row limit>` appended.
 */
module QueryValidator {
  import opened Wrappers
  import opened JsText
  import opened WordMatch

  const DefaultRowLimit: int := 500

  /** `QUERY_ROW_LIMIT`: the parsed environment value, or 500 when it is unset, unparsable or 0. */
  function RowLimit(env: Option<int>): (n: int)
    ensures n != 0
    ensures env.Some? && env.value != 0 ==> n == env.value
    ensures env.None? || env.value == 0 ==> n == DefaultRowLimit
  {
    IntOrDefault(env, DefaultRowLimit)
  }

  const DestructiveKeywords: seq<string> :=
    ["DROP", "ALTER", "CREATE", "INSERT", "UPDATE", "DELETE", "TRUNCATE", "GRANT", "REVOKE", "COPY", "VACUUM"]

  const DangerousFunctions: seq<string> :=
    ["pg_sleep", "pg_terminate_backend", "pg_cancel_backend", "pg_read_file", "pg_write_file"]

  /** Length and upper-cased initial of each destructive keyword and dangerous function. */
  const DestructiveShapes: set<(int, char)> :=
    {(4, 'D'), (5, 'A'), (6, 'C'), (6, 'I'), (6, 'U'), (6, 'D'), (8, 'T'), (5, 'G'), (6, 'R'), (4, 'C'), (6, 'V')}
  const DangerousShapes: set<(int, char)> := {(8, 'P'), (20, 'P'), (17, 'P'), (12, 'P'), (13, 'P')}

  const NotAStringError := "Query must be a non-empty string"
  const EmptyError := "Query cannot be empty"
  const DestructiveError := "Destructive operations (DROP, ALTER, CREATE, INSERT, UPDATE, DELETE, etc.) are not allowed"
  const DangerousError := "Dangerous PostgreSQL functions are not allowed"
  const MultipleStatementsError := "Multiple statements are not allowed. Please submit one query at a time."

  /** A JavaScript value handed to the validator: a string, or anything else, of which only its truthiness matters. */
  datatype JsValue = JsString(s: string) | JsOther(truthy: bool)

  predicate Truthy(v: JsValue) {
    match v
    case JsString(s) => s != []
    case JsOther(t) => t
  }

  /** `{ valid, error, sanitizedSql }`, `null` being `None`. */
  datatype Verdict = Verdict(valid: bool, error: Option<string>, sanitizedSql: Option<string>)

  function Reject(error: string): Verdict {
    Verdict(false, Some(error), None)
  }

  function Accept(sanitizedSql: string): Verdict {
    Verdict(true, None, Some(sanitizedSql))
  }

  /** The text starts, after optional whitespace, with the whole word SELECT in any case. */
  ghost predicate BeginsWithSelectWord(s: string) {
    exists k: nat :: k <= |s| && AllWhitespace(s[..k]) && MatchesAt(s, k, "SELECT") && IsBoundary(s, k + 6)
  }

  /** `/^\s*SELECT\b/i.test(s)`: `\s*` takes the leading whitespace, then SELECT must follow. */
  function SelectPrefixTest(s: string): (r: bool)
    ensures r <==> BeginsWithSelectWord(s)
  {
    var k := |s| - |TrimStart(s)|;
    var r := MatchesAt(s, k, "SELECT") && IsBoundary(s, k + 6);
    assert BeginsWithSelectWord(s) ==> r by {
      if BeginsWithSelectWord(s) {
        var k': nat :| k' <= |s| && AllWhitespace(s[..k']) && MatchesAt(s, k', "SELECT") && IsBoundary(s, k' + 6);
        SelectStartsAfterWhitespace(s, k');
      }
    }
    r
  }

  /** SELECT can only start where the leading whitespace ends. */
  lemma SelectStartsAfterWhitespace(s: string, k: nat)
    requires k <= |s| && AllWhitespace(s[..k]) && MatchesAt(s, k, "SELECT")
    ensures k == |s| - |TrimStart(s)|
  {
    var m := |s| - |TrimStart(s)|;
    assert forall i :: 0 <= i < m ==> s[..m][i] == s[i];
    assert forall i :: 0 <= i < k ==> s[..k][i] == s[i];
    assert m < |s| ==> TrimStart(s)[0] == s[m];
    assert AsciiUpper(s[k + 0]) == AsciiUpper("SELECT"[0]);
  }

  /** ` LIMIT ${QUERY_ROW_LIMIT}`: the keyword, then the limit in digits that read back as the limit. */
  function LimitClause(n: int): (r: string)
    ensures |r| > 7 && r[..7] == " LIMIT "
    ensures forall i :: 7 <= i < |r| ==> IsDigit(r[i]) || r[i] == '-'
    ensures SignedDecimalValue(r[7..]) == n
  {
    var d := IntToDecimal(n);
    IntToDecimalRoundTrip(n);
    assert (" LIMIT " + d)[7..] == d;
    " LIMIT " + d
  }

  predicate EndsWithTerminator(t: string) {
    t != [] && t[|t| - 1] == ';'
  }

  /**
   * `endsWithSemicolon ? t.slice(0, -1).trim() : t`. A text without a final
   * `;` is kept; otherwise the `;` and the whitespace before it go, and of a
   * trimmed text what is left is a trimmed prefix.
   */
  function StripTerminator(t: string): (r: string)
    ensures !EndsWithTerminator(t) ==> r == t
    ensures EndsWithTerminator(t) ==> |r| < |t| && IsTrimmed(r)
    ensures IsTrimmed(t) ==> IsTrimmed(r) && |r| <= |t| && r == t[..|r|]
    ensures IsTrimmed(t) && EndsWithTerminator(t) ==> AllWhitespace(t[|r|..|t| - 1])
  {
    if EndsWithTerminator(t) then
      var x := t[..|t| - 1];
      var r := Trim(x);
      assert IsTrimmed(t) ==> r == t[..|r|] && AllWhitespace(t[|r|..|t| - 1]) by {
        if IsTrimmed(t) {
          assert |x| > 0 ==> x[0] == t[0];
          var tx := TrimUnpaddedStart(x);
          assert t[..|r|] == x[..|r|];
          assert t[|r|..|t| - 1] == tx;
        }
      }
      r
    else t
  }

  /** `/^\s*SELECT\b/i.test(s) && !/\bLIMIT\b/i.test(s)`: a SELECT that has no whole-word LIMIT. */
  function NeedsRowCap(s: string): (b: bool)
    ensures b <==> BeginsWithSelectWord(s) && !ContainsWholeWord(s, "LIMIT")
  {
    ContainsAnySingleton(s, "LIMIT");
    SelectPrefixTest(s) && !Test(s, ["LIMIT"])
  }

  /** `valid` ⇔ `error == null` ⇔ `sanitizedSql != null`. */
  predicate WellFormed(v: Verdict) {
    (v.valid <==> v.error.None?) && (v.valid <==> v.sanitizedSql.Some?)
  }

  /** `validateQuery(sql)` with `QUERY_ROW_LIMIT` = `rowLimit`. */
  function ValidateQuery(sql: JsValue, rowLimit: int): (v: Verdict)
    ensures WellFormed(v)
    ensures !Truthy(sql) || sql.JsOther? ==> v == Reject(NotAStringError)
    ensures sql.JsString? && sql.s != [] && AllWhitespace(sql.s) ==> v == Reject(EmptyError)
  {
    if !Truthy(sql) || !sql.JsString? then Reject(NotAStringError)
    else ValidateTrimmed(Trim(sql.s), rowLimit)
  }

  /** The checks `validateQuery` makes once the input is trimmed to `t`, in their order. */
  function ValidateTrimmed(t: string, rowLimit: int): (v: Verdict)
    ensures WellFormed(v)
    ensures t == [] <==> v == Reject(EmptyError)
  {
    if |t| == 0 then Reject(EmptyError)
    else if Test(t, DestructiveKeywords) then Reject(DestructiveError)
    else if Test(t, DangerousFunctions) then Reject(DangerousError)
    else if TerminatorMisplaced(t) then Reject(MultipleStatementsError)
    else Accept(Sanitize(t, rowLimit))
  }

  /**
   * More than one `;`, or exactly one that does not end the trimmed text:
   * that is, a `;` somewhere before the last character.
   */
  function TerminatorMisplaced(t: string): (b: bool)
    requires t != []
    ensures b <==> ';' in t[..|t| - 1]
  {
    var semicolons := CountChar(t, ';');
    var endsWithSemicolon := t[|t| - 1] == ';';
    DropLast(t);
    CountConcat(t[..|t| - 1], [t[|t| - 1]], ';');
    semicolons > 1 || (semicolons == 1 && !endsWithSemicolon)
  }

  /**
   * The accepted text: the trailing `;` removed, then the row cap appended
   * exactly when the statement begins with the word SELECT and has no
   * whole-word LIMIT.
   */
  function Sanitize(t: string, rowLimit: int): (r: string)
    ensures var stmt := StripTerminator(t);
      r == if BeginsWithSelectWord(stmt) && !ContainsWholeWord(stmt, "LIMIT") then stmt + LimitClause(rowLimit) else stmt
  {
    var s := StripTerminator(t);
    if NeedsRowCap(s) then s + LimitClause(rowLimit) else s
  }

  /** `isSelectQuery(sql)`: the trimmed text begins with the whole word SELECT, in any case. */
  function IsSelectQuery(sql: string): (r: bool)
    ensures var t := Trim(sql);
      r <==> MatchesAt(t, 0, "SELECT") && (|t| == 6 || !IsWordChar(t[6]))
  {
    var t := Trim(sql);
    SelectTestOnTrimmed(t);
    SelectPrefixTest(t)
  }

  /** On a trimmed text the SELECT test looks at the very start. */
  lemma SelectTestOnTrimmed(t: string)
    requires IsTrimmed(t)
    ensures SelectPrefixTest(t) <==> MatchesAt(t, 0, "SELECT") && (|t| == 6 || !IsWordChar(t[6]))
  {
    assert TrimStart(t) == t;
    if MatchesAt(t, 0, "SELECT") {
      assert AsciiUpper(t[0 + 5]) == AsciiUpper("SELECT"[5]);
    }
  }

  /** The destructive and dangerous patterns, and LIMIT, are keywords in the sense of `WordMatch`. */
  lemma PatternsAreKeywords()
    ensures AllKeywords(DestructiveKeywords) && AllKeywords(DangerousFunctions) && IsKeyword("LIMIT")
  {
    DestructiveAreKeywords();
    DangerousAreKeywords();
  }

  lemma DestructiveAreKeywords()
    ensures AllKeywords(DestructiveKeywords)
  {
    assert IsKeyword("DROP") && IsKeyword("ALTER") && IsKeyword("CREATE") && IsKeyword("INSERT");
    assert IsKeyword("UPDATE") && IsKeyword("DELETE") && IsKeyword("TRUNCATE") && IsKeyword("GRANT");
    assert IsKeyword("REVOKE") && IsKeyword("COPY") && IsKeyword("VACUUM");
  }

  lemma DangerousAreKeywords()
    ensures AllKeywords(DangerousFunctions)
  {
    assert IsKeyword("pg_sleep") && IsKeyword("pg_terminate_backend") && IsKeyword("pg_cancel_backend");
    assert IsKeyword("pg_read_file") && IsKeyword("pg_write_file");
  }

  lemma BlacklistShapes()
    ensures ShapesCover(DestructiveKeywords, DestructiveShapes)
    ensures ShapesCover(DangerousFunctions, DangerousShapes)
  {
  }

  /** Trimming changes neither what the blacklists find nor the number of terminators. */
  lemma TrimKeepsChecks(s: string)
    ensures ContainsAnyWholeWord(Trim(s), DestructiveKeywords) <==> ContainsAnyWholeWord(s, DestructiveKeywords)
    ensures ContainsAnyWholeWord(Trim(s), DangerousFunctions) <==> ContainsAnyWholeWord(s, DangerousFunctions)
    ensures multiset(Trim(s))[';'] == multiset(s)[';']
  {
    var lead, tail := TrimSplit(s);
    PatternsAreKeywords();
    WhitespaceIsNonWord(lead);
    WhitespaceIsNonWord(tail);
    ContainsAnyPadded(lead, Trim(s), tail, DestructiveKeywords);
    ContainsAnyPadded(lead, Trim(s), tail, DangerousFunctions);
    assert forall i :: 0 <= i < |lead| ==> lead[i] != ';';
    assert forall i :: 0 <= i < |tail| ==> tail[i] != ';';
    assert multiset(s) == multiset(lead) + multiset(Trim(s)) + multiset(tail);
  }

  /** A string whose trimmed form is not empty. */
  predicate NonBlank(sql: JsValue) {
    sql.JsString? && !AllWhitespace(sql.s)
  }

  /**
   * The checks run in a fixed order and the first that fails decides the
   * error; stated on the raw input, whitespace around it included.
   */
  lemma VerdictOrder(sql: JsValue, rowLimit: int)
    ensures var v := ValidateQuery(sql, rowLimit);
      var destructive := NonBlank(sql) && ContainsAnyWholeWord(sql.s, DestructiveKeywords);
      var dangerous := NonBlank(sql) && ContainsAnyWholeWord(sql.s, DangerousFunctions);
      && (v.error == Some(NotAStringError) <==> !(sql.JsString? && sql.s != []))
      && (v.error == Some(EmptyError) <==> sql.JsString? && sql.s != [] && AllWhitespace(sql.s))
      && (v.error == Some(DestructiveError) <==> destructive)
      && (v.error == Some(DangerousError) <==> !destructive && dangerous)
      && (v.error == Some(MultipleStatementsError) <==>
            NonBlank(sql) && !destructive && !dangerous && TerminatorMisplaced(Trim(sql.s)))
      && (v.valid <==> NonBlank(sql) && !destructive && !dangerous && !TerminatorMisplaced(Trim(sql.s)))
  {
    if NonBlank(sql) {
      TrimKeepsChecks(sql.s);
      TrimmedVerdict(Trim(sql.s), rowLimit);
    }
  }

  /** The order of the checks on an already trimmed text. */
  lemma TrimmedVerdict(t: string, rowLimit: int)
    ensures var v := ValidateTrimmed(t, rowLimit);
      var destructive := t != [] && ContainsAnyWholeWord(t, DestructiveKeywords);
      var dangerous := t != [] && ContainsAnyWholeWord(t, DangerousFunctions);
      var n := multiset(t)[';'];
      var misplaced := n > 1 || (n == 1 && !EndsWithTerminator(t));
      && v.error != Some(NotAStringError)
      && (v.error == Some(DestructiveError) <==> destructive)
      && (v.error == Some(DangerousError) <==> !destructive && dangerous)
      && (v.error == Some(MultipleStatementsError) <==> t != [] && !destructive && !dangerous && misplaced)
      && (v.valid <==> t != [] && !destructive && !dangerous && !misplaced)
      && (v.valid ==> v.sanitizedSql == Some(Sanitize(t, rowLimit)))
  {
  }

  /** Removing the terminator leaves a trimmed text followed by whitespace and at most that one `;`. */
  lemma WhitespaceThenTerminator(tx: string)
    requires AllWhitespace(tx)
    ensures forall i :: 0 <= i < |tx + [';']| ==> IsJsWhitespace((tx + [';'])[i]) || (tx + [';'])[i] == ';'
    ensures multiset(tx + [';'])[';'] == 1
  {
    assert forall i :: 0 <= i < |tx| ==> tx[i] != ';';
    assert multiset(tx + [';']) == multiset(tx) + multiset{';'};
  }

  lemma StripTerminatorSplit(t: string) returns (rest: string)
    requires IsTrimmed(t)
    ensures t == StripTerminator(t) + rest
    ensures IsTrimmed(StripTerminator(t))
    ensures forall i :: 0 <= i < |rest| ==> IsJsWhitespace(rest[i]) || rest[i] == ';'
    ensures multiset(rest)[';'] == if EndsWithTerminator(t) then 1 else 0
  {
    if EndsWithTerminator(t) {
      var x := t[..|t| - 1];
      DropLast(t);
      assert |x| > 0 ==> x[0] == t[0];
      var tx := TrimUnpaddedStart(x);
      rest := tx + [';'];
      Regroup(Trim(x), tx, [';']);
      WhitespaceThenTerminator(tx);
    } else {
      rest := [];
      assert t + [] == t;
    }
  }

  /** An accepted input is a string, and its verdict is that of its trimmed text. */
  lemma AcceptedTrimmed(sql: JsValue, rowLimit: int)
    requires ValidateQuery(sql, rowLimit).valid
    ensures sql.JsString? && ValidateQuery(sql, rowLimit) == ValidateTrimmed(Trim(sql.s), rowLimit)
  {
  }

  /** What acceptance says about a trimmed text: not empty, at most one `;` and only at the end. */
  lemma AcceptedTrimmedText(t: string, rowLimit: int)
    requires ValidateTrimmed(t, rowLimit).valid
    ensures t != []
    ensures multiset(t)[';'] <= 1
    ensures multiset(t)[';'] == 1 <==> EndsWithTerminator(t)
    ensures ValidateTrimmed(t, rowLimit).sanitizedSql == Some(Sanitize(t, rowLimit))
  {
    TrimmedVerdict(t, rowLimit);
  }

  /** A trimmed text with at most one `;`, at its end, is a terminator-free statement followed by whitespace and that `;`. */
  lemma StatementOfTrimmed(t: string) returns (rest: string)
    requires IsTrimmed(t)
    requires multiset(t)[';'] <= 1 && (multiset(t)[';'] == 1 <==> EndsWithTerminator(t))
    ensures var stmt := StripTerminator(t);
      && t == stmt + rest && IsTrimmed(stmt) && ';' !in stmt
      && (forall i :: 0 <= i < |rest| ==> IsJsWhitespace(rest[i]) || rest[i] == ';')
      && multiset(rest)[';'] <= 1
  {
    rest := StripTerminatorSplit(t);
    CountConcat(StripTerminator(t), rest, ';');
    assert multiset(StripTerminator(t))[';'] == 0;
  }

  /**
   * An accepted text is the input without its surrounding whitespace and its
   * one trailing `;`, with ` LIMIT <n>` appended exactly when it is a SELECT
   * without a whole-word LIMIT.
   */
  lemma AcceptedText(sql: JsValue, rowLimit: int) returns (lead: string, tail: string)
    requires ValidateQuery(sql, rowLimit).valid
    ensures sql.JsString?
    ensures var stmt := StripTerminator(Trim(sql.s));
      && sql.s == lead + stmt + tail
      && AllWhitespace(lead) && IsTrimmed(stmt) && ';' !in stmt
      && (forall i :: 0 <= i < |tail| ==> IsJsWhitespace(tail[i]) || tail[i] == ';')
      && multiset(tail)[';'] <= 1
      && ValidateQuery(sql, rowLimit).sanitizedSql ==
           Some(if BeginsWithSelectWord(stmt) && !ContainsWholeWord(stmt, "LIMIT")
                then stmt + LimitClause(rowLimit) else stmt)
  {
    AcceptedTrimmed(sql, rowLimit);
    var s := sql.s;
    var t := Trim(s);
    AcceptedTrimmedText(t, rowLimit);
    var stmt := StripTerminator(t);
    var tail0;
    lead, tail0 := TrimSplit(s);
    var rest := StatementOfTrimmed(t);
    tail := rest + tail0;
    Regroup4(lead, stmt, rest, tail0);
    TerminatorThenWhitespace(rest, tail0);
  }

  lemma TerminatorThenWhitespace(rest: string, tail0: string)
    requires forall i :: 0 <= i < |rest| ==> IsJsWhitespace(rest[i]) || rest[i] == ';'
    requires AllWhitespace(tail0)
    ensures forall i :: 0 <= i < |rest + tail0| ==> IsJsWhitespace((rest + tail0)[i]) || (rest + tail0)[i] == ';'
    ensures multiset(rest + tail0)[';'] == multiset(rest)[';']
  {
    CountConcat(rest, tail0, ';');
    assert forall i :: 0 <= i < |tail0| ==> tail0[i] != ';';
  }

  lemma TerminatorsAreNonWord(rest: string)
    requires forall i :: 0 <= i < |rest| ==> IsJsWhitespace(rest[i]) || rest[i] == ';'
    ensures AllNonWord(rest)
  {
  }

  lemma LimitClauseParts(stmt: string, n: int)
    ensures stmt + LimitClause(n) == stmt + [' '] + ("LIMIT" + [' '] + IntToDecimal(n))
  {
  }

  /** No blacklisted pattern spells LIMIT. */
  lemma LimitIsNotBlacklisted()
    ensures forall w :: w in DestructiveKeywords ==> !(|w| == 5 && MatchesAt("LIMIT", 0, w))
    ensures forall w :: w in DangerousFunctions ==> !(|w| == 5 && MatchesAt("LIMIT", 0, w))
  {
    BlacklistShapes();
    forall w | w in DestructiveKeywords + DangerousFunctions
      ensures !(|w| == 5 && MatchesAt("LIMIT", 0, w))
    {
      assert MatchesAt("LIMIT", 0, w) ==> AsciiUpper("LIMIT"[0 + 0]) == AsciiUpper(w[0]);
    }
  }

  /** Appending the row cap adds no word from a list that does not spell LIMIT. */
  lemma RowCapAddsNoListedWord(stmt: string, n: int, ws: seq<string>)
    requires AllKeywords(ws)
    requires forall w :: w in ws ==> !(|w| == 5 && MatchesAt("LIMIT", 0, w))
    ensures ContainsAnyWholeWord(stmt + LimitClause(n), ws) <==> ContainsAnyWholeWord(stmt, ws)
  {
    LimitClauseParts(stmt, n);
    var d := IntToDecimal(n);
    ContainsAnySplit(stmt, ' ', "LIMIT" + [' '] + d, ws);
    ContainsAnySplit("LIMIT", ' ', d, ws);
    NoLettersNoKeyword(d, ws);
    forall w | w in ws
      ensures !ContainsWholeWord("LIMIT", w)
    {
      SingleWordContains("LIMIT", w);
    }
  }

  /** After the row cap is appended, the whole word LIMIT occurs exactly once: in the cap. */
  lemma RowCapPosition(stmt: string, n: int)
    requires !ContainsWholeWord(stmt, "LIMIT")
    ensures forall i: nat :: WholeWordAt(stmt + LimitClause(n), i, "LIMIT") <==> i == |stmt| + 1
  {
    LimitClauseParts(stmt, n);
    PatternsAreKeywords();
    var d := IntToDecimal(n);
    var rest := "LIMIT" + [' '] + d;
    assert WholeWordAt("LIMIT", 0, "LIMIT");
    NoLettersNoKeyword(d, ["LIMIT"]);
    ContainsAnySingleton(d, "LIMIT");
    forall i: nat
      ensures WholeWordAt(stmt + LimitClause(n), i, "LIMIT") <==> i == |stmt| + 1
    {
      WholeWordAtSplit(stmt, ' ', rest, i, "LIMIT");
      if i > |stmt| {
        var k: nat := i - |stmt| - 1;
        WholeWordAtSplit("LIMIT", ' ', d, k, "LIMIT");
        if k > 5 {
          assert !WholeWordAt(d, k - 5 - 1, "LIMIT");
        }
      } else if i + 5 <= |stmt| {
        assert !WholeWordAt(stmt, i, "LIMIT");
      }
    }
  }

  /** A text free of terminators, outer whitespace and blacklisted words. */
  ghost predicate SafeText(s: string) {
    && ';' !in s && IsTrimmed(s)
    && !ContainsAnyWholeWord(s, DestructiveKeywords)
    && !ContainsAnyWholeWord(s, DangerousFunctions)
  }

  /** Appending the row cap to a safe, non-empty statement keeps it safe. */
  lemma RowCapKeepsSafe(stmt: string, n: int)
    requires stmt != [] && SafeText(stmt)
    ensures SafeText(stmt + LimitClause(n))
  {
    PatternsAreKeywords();
    LimitIsNotBlacklisted();
    RowCapAddsNoListedWord(stmt, n, DestructiveKeywords);
    RowCapAddsNoListedWord(stmt, n, DangerousFunctions);
    RowCapShape(stmt, n);
  }

  /** The row cap is made of letters, digits, a sign and spaces, and ends in a digit. */
  lemma RowCapShape(stmt: string, n: int)
    requires stmt != [] && ';' !in stmt && IsTrimmed(stmt)
    ensures var out := stmt + LimitClause(n);
      ';' !in out && IsTrimmed(out)
  {
    var d := IntToDecimal(n);
    var c := LimitClause(n);
    assert c == " LIMIT " + d;
    assert forall i :: 0 <= i < |d| ==> d[i] != ';';
    assert ';' !in d;
    assert ';' !in " LIMIT ";
    assert c[|c| - 1] == d[|d| - 1];
    assert IsDigit(c[|c| - 1]);
  }

  /** The statement left once the terminator is gone from an accepted trimmed text is safe. */
  lemma TrimmedStatementIsSafe(t: string, rowLimit: int)
    requires IsTrimmed(t) && ValidateTrimmed(t, rowLimit).valid
    ensures SafeText(StripTerminator(t))
  {
    AcceptedTrimmedText(t, rowLimit);
    assert !ContainsAnyWholeWord(t, DestructiveKeywords) && !ContainsAnyWholeWord(t, DangerousFunctions) by {
      TrimmedVerdict(t, rowLimit);
    }
    var rest := StatementOfTrimmed(t);
    StatementIsClean(StripTerminator(t), rest);
  }

  /** Dropping trailing whitespace and terminators keeps a text free of blacklisted words. */
  lemma StatementIsClean(stmt: string, rest: string)
    requires forall i :: 0 <= i < |rest| ==> IsJsWhitespace(rest[i]) || rest[i] == ';'
    requires !ContainsAnyWholeWord(stmt + rest, DestructiveKeywords)
    requires !ContainsAnyWholeWord(stmt + rest, DangerousFunctions)
    ensures !ContainsAnyWholeWord(stmt, DestructiveKeywords) && !ContainsAnyWholeWord(stmt, DangerousFunctions)
  {
    PatternsAreKeywords();
    TerminatorsAreNonWord(rest);
    assert [] + stmt + rest == stmt + rest;
    ContainsAnyPadded([], stmt, rest, DestructiveKeywords);
    ContainsAnyPadded([], stmt, rest, DangerousFunctions);
  }

  /** The text an accepted trimmed text becomes is safe: the row cap adds no blacklisted word. */
  lemma TrimmedSanitizedIsSafe(t: string, rowLimit: int)
    requires IsTrimmed(t) && ValidateTrimmed(t, rowLimit).valid
    ensures SafeText(Sanitize(t, rowLimit))
  {
    TrimmedStatementIsSafe(t, rowLimit);
    var stmt := StripTerminator(t);
    if Sanitize(t, rowLimit) != stmt {
      RowCapKeepsSafe(stmt, rowLimit);
    }
  }

  /**
   * The text an accepted query becomes holds no `;`, no whitespace at either
   * end, and none of the blacklisted words: the row cap adds none.
   */
  lemma SanitizedIsSafe(sql: JsValue, rowLimit: int)
    requires ValidateQuery(sql, rowLimit).valid
    ensures var out := ValidateQuery(sql, rowLimit).sanitizedSql.value;
      && ';' !in out && IsTrimmed(out)
      && !ContainsAnyWholeWord(out, DestructiveKeywords)
      && !ContainsAnyWholeWord(out, DangerousFunctions)
  {
    AcceptedTrimmed(sql, rowLimit);
    AcceptedTrimmedText(Trim(sql.s), rowLimit);
    TrimmedSanitizedIsSafe(Trim(sql.s), rowLimit);
  }

  /** Sanitizing an accepted text is idempotent: nothing left to strip and no second row cap. */
  lemma SanitizeIsFixed(t: string, rowLimit: int)
    requires IsTrimmed(t) && ValidateTrimmed(t, rowLimit).valid
    ensures Sanitize(Sanitize(t, rowLimit), rowLimit) == Sanitize(t, rowLimit)
  {
    TrimmedSanitizedIsSafe(t, rowLimit);
    var stmt := StripTerminator(t);
    var out := Sanitize(t, rowLimit);
    assert !EndsWithTerminator(out) by {
      if out != [] {
        assert out[|out| - 1] in out;
      }
    }
    if out != stmt {
      ContainsAnySingleton(stmt, "LIMIT");
      RowCapPosition(stmt, rowLimit);
      assert WholeWordAt(out, |stmt| + 1, "LIMIT");
      ContainsAnySingleton(out, "LIMIT");
      assert !NeedsRowCap(out);
    }
  }

  /** An accepted, non-empty trimmed text's result is accepted again, unchanged. */
  lemma TrimmedRevalidation(t: string, rowLimit: int)
    requires IsTrimmed(t) && ValidateTrimmed(t, rowLimit).valid && Sanitize(t, rowLimit) != []
    ensures ValidateTrimmed(Sanitize(t, rowLimit), rowLimit) == Accept(Sanitize(t, rowLimit))
  {
    var out := Sanitize(t, rowLimit);
    TrimmedSanitizedIsSafe(t, rowLimit);
    SanitizeIsFixed(t, rowLimit);
    assert multiset(out)[';'] == 0;
    TrimmedVerdict(out, rowLimit);
  }

  /**
   * Validating an accepted, non-empty result again accepts it unchanged: no
   * second LIMIT, nothing further stripped.
   */
  lemma RevalidationIsStable(sql: JsValue, rowLimit: int)
    requires ValidateQuery(sql, rowLimit).valid
    requires ValidateQuery(sql, rowLimit).sanitizedSql.value != []
    ensures var out := ValidateQuery(sql, rowLimit).sanitizedSql.value;
      ValidateQuery(JsString(out), rowLimit) == ValidateQuery(sql, rowLimit)
  {
    AcceptedTrimmed(sql, rowLimit);
    var t := Trim(sql.s);
    AcceptedTrimmedText(t, rowLimit);
    var out := Sanitize(t, rowLimit);
    TrimmedRevalidation(t, rowLimit);
    TrimmedSanitizedIsSafe(t, rowLimit);
    TrimmedInput(out, rowLimit);
  }

  /** A non-empty text with no whitespace at either end is judged as it stands. */
  lemma TrimmedInput(s: string, rowLimit: int)
    requires s != [] && IsTrimmed(s)
    ensures ValidateQuery(JsString(s), rowLimit) == ValidateTrimmed(s, rowLimit)
  {
    TrimOfTrimmed(s);
  }
}
