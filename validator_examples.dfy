/**
 * The validator's unit tests, stated as lemmas about `ValidateQuery` and
 * `IsSelectQuery` at the row limit `QUERY_ROW_LIMIT` takes when the
 * environment leaves it unset (`RowLimit(None)`, 500). Each lemma names its
 * input `s` and pins it to the test's text.
 */
module ValidatorExamples {
  import opened Wrappers
  import opened JsText
  import opened WordMatch
  import opened QueryValidator

  /** A text with a destructive keyword is refused for it, whatever else it holds. */
  lemma RefusedAsDestructive(s: string, rowLimit: int)
    requires !AllWhitespace(s) && ContainsAnyWholeWord(s, DestructiveKeywords)
    ensures ValidateQuery(JsString(s), rowLimit) == Reject(DestructiveError)
  {
    VerdictOrder(JsString(s), rowLimit);
  }

  /** A text with a dangerous function and no destructive keyword is refused for the function. */
  lemma RefusedAsDangerous(s: string, rowLimit: int)
    requires !AllWhitespace(s) && !ContainsAnyWholeWord(s, DestructiveKeywords)
    requires ContainsAnyWholeWord(s, DangerousFunctions)
    ensures ValidateQuery(JsString(s), rowLimit) == Reject(DangerousError)
  {
    VerdictOrder(JsString(s), rowLimit);
  }

  /** A trimmed, terminator-free text with no blacklisted word is accepted, capped when it is an uncapped SELECT. */
  lemma AcceptedAsIs(s: string, rowLimit: int)
    requires s != [] && IsTrimmed(s) && ';' !in s
    requires !ContainsAnyWholeWord(s, DestructiveKeywords) && !ContainsAnyWholeWord(s, DangerousFunctions)
    ensures ValidateQuery(JsString(s), rowLimit)
      == Accept(if BeginsWithSelectWord(s) && !ContainsWholeWord(s, "LIMIT") then s + LimitClause(rowLimit) else s)
  {
    VerdictOrder(JsString(s), rowLimit);
    TrimOfTrimmed(s);
    assert multiset(s)[';'] == 0;
    var lead, tail := AcceptedText(JsString(s), rowLimit);
  }

  /** `DROP TABLE users` is refused as destructive. */
  lemma DropIsDestructive(s: string)
    requires s == "DROP TABLE users"
    ensures ValidateQuery(JsString(s), RowLimit(None)) == Reject(DestructiveError)
  {
    assert !IsJsWhitespace(s[0]);
    assert WholeWordAt(s, 0, "DROP");
    assert "DROP" in DestructiveKeywords;
    RefusedAsDestructive(s, DefaultRowLimit);
  }

  /**
   * `SELECT * FROM users; DELETE FROM users` is refused for its DELETE: the
   * keyword check runs before the statement-count check, so it never gets
   * the multiple-statements error.
   */
  lemma SecondStatementIsDestructive(s: string)
    requires s == "SELECT * FROM users; DELETE FROM users"
    ensures ValidateQuery(JsString(s), RowLimit(None)) == Reject(DestructiveError)
    ensures ValidateQuery(JsString(s), RowLimit(None)).error != Some(MultipleStatementsError)
  {
    assert !IsJsWhitespace(s[0]);
    assert WholeWordAt(s, 21, "DELETE");
    assert "DELETE" in DestructiveKeywords;
    RefusedAsDestructive(s, DefaultRowLimit);
  }

  /** `SELECT pg_sleep(10)` is refused as calling a dangerous function. */
  lemma SleepIsDangerous(s: string)
    requires s == "SELECT pg_sleep(10)"
    ensures ValidateQuery(JsString(s), RowLimit(None)) == Reject(DangerousError)
  {
    assert !IsJsWhitespace(s[0]);
    SleepIsNotDestructive(s);
    assert WholeWordAt(s, 7, "pg_sleep");
    assert "pg_sleep" in DangerousFunctions;
    RefusedAsDangerous(s, DefaultRowLimit);
  }

  lemma SleepIsNotDestructive(s: string)
    requires s == "SELECT pg_sleep(10)"
    ensures !ContainsAnyWholeWord(s, DestructiveKeywords)
  {
    var call := "pg_sleep(10)";
    SleepCallIsNotDestructive(call);
    PatternsAreKeywords();
    BlacklistShapes();
    assert s == "SELECT" + [' '] + call;
    AfterSelect(s, call, DestructiveKeywords, DestructiveShapes);
  }

  /** The word SELECT and a blank in front of a text add none of the listed words when no listed word has SELECT's shape. */
  lemma AfterSelect(s: string, rest: string, ws: seq<string>, shapes: set<(int, char)>)
    requires s == "SELECT" + [' '] + rest
    requires AllKeywords(ws) && ShapesCover(ws, shapes) && (6, 'S') !in shapes
    requires !ContainsAnyWholeWord(rest, ws)
    ensures !ContainsAnyWholeWord(s, ws)
  {
    ShapeRulesOut("SELECT", ws, shapes);
    ContainsAnySplit("SELECT", ' ', rest, ws);
  }

  lemma SleepCallIsNotDestructive(call: string)
    requires call == "pg_sleep(10)"
    ensures !ContainsAnyWholeWord(call, DestructiveKeywords)
  {
    PatternsAreKeywords();
    BlacklistShapes();
    ShapeRulesOut("pg_sleep", DestructiveKeywords, DestructiveShapes);
    NoLettersNoKeyword("10)", DestructiveKeywords);
    assert call == "pg_sleep" + ['('] + "10)";
    ContainsAnySplit("pg_sleep", '(', "10)", DestructiveKeywords);
  }

  /** A trimmed, terminator-free SELECT with no LIMIT and no blacklisted word gets the row cap. */
  lemma AcceptedWithRowCap(s: string, rowLimit: int)
    requires IsTrimmed(s) && ';' !in s && MatchesAt(s, 0, "SELECT") && IsBoundary(s, 6)
    requires !ContainsAnyWholeWord(s, DestructiveKeywords) && !ContainsAnyWholeWord(s, DangerousFunctions)
    requires !ContainsAnyWholeWord(s, ["LIMIT"])
    ensures ValidateQuery(JsString(s), rowLimit) == Accept(s + LimitClause(rowLimit))
  {
    ContainsAnySingleton(s, "LIMIT");
    assert s[..0] == [];
    AcceptedAsIs(s, rowLimit);
  }

  /** The default cap reads ` LIMIT 500`. */
  lemma DefaultLimitClause()
    ensures LimitClause(DefaultRowLimit) == " LIMIT 500"
  {
    assert NatToDecimal(5) == "5";
    assert NatToDecimal(50) == "50";
  }

  /** Words of shapes no blacklisted pattern has, joined by non-word characters, hold no blacklisted word. */
  lemma CleanJoin(s: string, parts: seq<string>, seps: seq<char>)
    requires |seps| + 1 == |parts| && s == Join(parts, seps) && AllNonWord(seps)
    requires forall i :: 0 <= i < |parts| ==> AllWordChars(parts[i])
    requires forall i :: 0 <= i < |parts| ==>
      parts[i] == [] || (Shape(parts[i]) !in DestructiveShapes && Shape(parts[i]) !in DangerousShapes)
    ensures !ContainsAnyWholeWord(s, DestructiveKeywords) && !ContainsAnyWholeWord(s, DangerousFunctions)
  {
    PatternsAreKeywords();
    BlacklistShapes();
    NoListedWordInJoin(parts, seps, DestructiveKeywords, DestructiveShapes);
    NoListedWordInJoin(parts, seps, DangerousFunctions, DangerousShapes);
  }

  const LimitShapes: set<(int, char)> := {(5, 'L')}

  lemma LimitShapesCover()
    ensures ShapesCover(["LIMIT"], LimitShapes)
  {
  }

  /** Words of shapes other than LIMIT's, joined by non-word characters, hold no whole-word LIMIT. */
  lemma NoLimitInJoin(s: string, parts: seq<string>, seps: seq<char>)
    requires |seps| + 1 == |parts| && s == Join(parts, seps) && AllNonWord(seps)
    requires forall i :: 0 <= i < |parts| ==> AllWordChars(parts[i]) && (parts[i] == [] || Shape(parts[i]) !in LimitShapes)
    ensures !ContainsAnyWholeWord(s, ["LIMIT"])
  {
    PatternsAreKeywords();
    LimitShapesCover();
    NoListedWordInJoin(parts, seps, ["LIMIT"], LimitShapes);
  }

  /** `SELECT * FROM users` holds no blacklisted word and no LIMIT. */
  lemma SelectStarIsClean(s: string)
    requires s == "SELECT * FROM users"
    ensures !ContainsAnyWholeWord(s, DestructiveKeywords) && !ContainsAnyWholeWord(s, DangerousFunctions)
    ensures !ContainsAnyWholeWord(s, ["LIMIT"])
  {
    SelectStarHasNoListedWord(s);
    SelectStarHasNoLimit(s);
  }

  lemma SelectStarHasNoListedWord(s: string)
    requires s == "SELECT * FROM users"
    ensures !ContainsAnyWholeWord(s, DestructiveKeywords) && !ContainsAnyWholeWord(s, DangerousFunctions)
  {
    var parts, seps := ["SELECT", "", "", "FROM", "users"], [' ', '*', ' ', ' '];
    assert s == Join(parts, seps);
    CleanJoin(s, parts, seps);
  }

  lemma SelectStarHasNoLimit(s: string)
    requires s == "SELECT * FROM users"
    ensures !ContainsAnyWholeWord(s, ["LIMIT"])
  {
    var parts, seps := ["SELECT", "", "", "FROM", "users"], [' ', '*', ' ', ' '];
    assert s == Join(parts, seps);
    NoLimitInJoin(s, parts, seps);
  }

  /** `SELECT * FROM users` is trimmed, has no `;`, and opens with the word SELECT. */
  lemma SelectStarShape(s: string)
    requires s == "SELECT * FROM users"
    ensures IsTrimmed(s) && ';' !in s && MatchesAt(s, 0, "SELECT") && IsBoundary(s, 6)
  {
  }

  lemma RowCapText(s: string)
    requires s == "SELECT * FROM users"
    ensures s + LimitClause(DefaultRowLimit) == "SELECT * FROM users LIMIT 500"
  {
    DefaultLimitClause();
  }

  /** `SELECT * FROM users` is accepted with the row cap appended. */
  lemma SelectGetsRowCap(s: string)
    requires s == "SELECT * FROM users"
    ensures ValidateQuery(JsString(s), RowLimit(None)) == Accept("SELECT * FROM users LIMIT 500")
  {
    SelectStarIsClean(s);
    SelectStarShape(s);
    AcceptedWithRowCap(s, DefaultRowLimit);
    RowCapText(s);
  }

  /** Two clean texts joined by a non-word character make a clean text. */
  lemma CleanConcat(a: string, c: char, b: string)
    requires !IsWordChar(c)
    requires !ContainsAnyWholeWord(a, DestructiveKeywords) && !ContainsAnyWholeWord(a, DangerousFunctions)
    requires !ContainsAnyWholeWord(b, DestructiveKeywords) && !ContainsAnyWholeWord(b, DangerousFunctions)
    ensures !ContainsAnyWholeWord(a + [c] + b, DestructiveKeywords)
    ensures !ContainsAnyWholeWord(a + [c] + b, DangerousFunctions)
  {
    PatternsAreKeywords();
    ContainsAnySplit(a, c, b, DestructiveKeywords);
    ContainsAnySplit(a, c, b, DangerousFunctions);
  }

  /** `SELECT * FROM users WHERE id = 1` holds no blacklisted word. */
  lemma SelectWhereIsClean(s: string)
    requires s == "SELECT * FROM users WHERE id = 1"
    ensures !ContainsAnyWholeWord(s, DestructiveKeywords) && !ContainsAnyWholeWord(s, DangerousFunctions)
  {
    var b := "WHERE id = 1";
    var parts, seps := ["WHERE", "id", "", "", "1"], [' ', ' ', '=', ' '];
    assert b == Join(parts, seps);
    CleanJoin(b, parts, seps);
    SelectStarIsClean("SELECT * FROM users");
    CleanConcat("SELECT * FROM users", ' ', b);
    assert s == "SELECT * FROM users" + [' '] + b;
  }

  /** `SELECT * FROM users WHERE id = 1` holds no whole-word LIMIT. */
  lemma SelectWhereHasNoLimit(s: string)
    requires s == "SELECT * FROM users WHERE id = 1"
    ensures !ContainsAnyWholeWord(s, ["LIMIT"])
  {
    var b := "WHERE id = 1";
    var parts, seps := ["WHERE", "id", "", "", "1"], [' ', ' ', '=', ' '];
    assert b == Join(parts, seps);
    NoLimitInJoin(b, parts, seps);
    SelectStarIsClean("SELECT * FROM users");
    PatternsAreKeywords();
    ContainsAnySplit("SELECT * FROM users", ' ', b, ["LIMIT"]);
    assert s == "SELECT * FROM users" + [' '] + b;
  }

  /** `SELECT * FROM users WHERE id = 1` opens with the word SELECT and holds no `;`. */
  lemma SelectWhereShape(s: string)
    requires s == "SELECT * FROM users WHERE id = 1"
    ensures IsTrimmed(s) && ';' !in s && MatchesAt(s, 0, "SELECT") && IsBoundary(s, 6)
  {
  }

  lemma SelectWhereCapText(s: string)
    requires s == "SELECT * FROM users WHERE id = 1"
    ensures s + LimitClause(DefaultRowLimit) == "SELECT * FROM users WHERE id = 1 LIMIT 500"
  {
    DefaultLimitClause();
  }

  /** `SELECT * FROM users WHERE id = 1` is accepted, and what runs is that text with the row cap. */
  lemma SelectWhereIsAccepted(s: string)
    requires s == "SELECT * FROM users WHERE id = 1"
    ensures ValidateQuery(JsString(s), RowLimit(None)) == Accept("SELECT * FROM users WHERE id = 1 LIMIT 500")
  {
    SelectWhereIsClean(s);
    SelectWhereHasNoLimit(s);
    SelectWhereShape(s);
    AcceptedWithRowCap(s, DefaultRowLimit);
    SelectWhereCapText(s);
  }

  /** `SELECT * FROM users LIMIT 10` holds no blacklisted word, and LIMIT as a whole word. */
  lemma SelectLimitIsClean(s: string)
    requires s == "SELECT * FROM users LIMIT 10"
    ensures !ContainsAnyWholeWord(s, DestructiveKeywords) && !ContainsAnyWholeWord(s, DangerousFunctions)
    ensures ContainsWholeWord(s, "LIMIT")
  {
    var b := "LIMIT 10";
    assert b == Join(["LIMIT", "10"], [' ']);
    CleanJoin(b, ["LIMIT", "10"], [' ']);
    SelectStarIsClean("SELECT * FROM users");
    CleanConcat("SELECT * FROM users", ' ', b);
    assert s == "SELECT * FROM users" + [' '] + b;
    assert WholeWordAt(s, 20, "LIMIT");
  }

  /** `SELECT * FROM users LIMIT 10` keeps its own LIMIT and gets no second one. */
  lemma ExistingLimitIsKept(s: string)
    requires s == "SELECT * FROM users LIMIT 10"
    ensures ValidateQuery(JsString(s), RowLimit(None)) == Accept(s)
  {
    SelectLimitIsClean(s);
    assert s != [] && IsTrimmed(s) && ';' !in s;
    AcceptedAsIs(s, DefaultRowLimit);
  }

  /** `last_update` and `dropped` hold UPDATE and DROP only inside longer words, so `\b` does not match them. */
  lemma EmbeddedKeywordsAreClean(s: string)
    requires s == "SELECT last_update FROM dropped"
    ensures !ContainsAnyWholeWord(s, DestructiveKeywords) && !ContainsAnyWholeWord(s, DangerousFunctions)
  {
    var a, b := "SELECT last_update", "FROM dropped";
    SelectLastUpdateIsClean(a);
    FromDroppedIsClean(b);
    CleanConcat(a, ' ', b);
    assert s == a + [' '] + b;
  }

  lemma SelectLastUpdateIsClean(s: string)
    requires s == "SELECT last_update"
    ensures !ContainsAnyWholeWord(s, DestructiveKeywords) && !ContainsAnyWholeWord(s, DangerousFunctions)
  {
    TwoWordsAreClean(s, "SELECT", "last_update");
  }

  lemma FromDroppedIsClean(s: string)
    requires s == "FROM dropped"
    ensures !ContainsAnyWholeWord(s, DestructiveKeywords) && !ContainsAnyWholeWord(s, DangerousFunctions)
  {
    TwoWordsAreClean(s, "FROM", "dropped");
  }

  /** Two words of foreign shape, separated by a blank, make a clean text. */
  lemma TwoWordsAreClean(s: string, x: string, y: string)
    requires s == x + " " + y && x != [] && y != []
    requires AllWordChars(x) && Shape(x) !in DestructiveShapes && Shape(x) !in DangerousShapes
    requires AllWordChars(y) && Shape(y) !in DestructiveShapes && Shape(y) !in DangerousShapes
    ensures !ContainsAnyWholeWord(s, DestructiveKeywords) && !ContainsAnyWholeWord(s, DangerousFunctions)
  {
    PatternsAreKeywords();
    BlacklistShapes();
    ShapeRulesOut(x, DestructiveKeywords, DestructiveShapes);
    ShapeRulesOut(x, DangerousFunctions, DangerousShapes);
    ShapeRulesOut(y, DestructiveKeywords, DestructiveShapes);
    ShapeRulesOut(y, DangerousFunctions, DangerousShapes);
    assert s == x + [' '] + y;
    CleanConcat(x, ' ', y);
  }

  /** `SELECT last_update FROM dropped` is accepted. */
  lemma EmbeddedKeywordsAreAccepted(s: string)
    requires s == "SELECT last_update FROM dropped"
    ensures ValidateQuery(JsString(s), RowLimit(None)).valid
  {
    EmbeddedKeywordsAreClean(s);
    assert s != [] && IsTrimmed(s) && ';' !in s;
    AcceptedAsIs(s, DefaultRowLimit);
  }

  /** A lone `;` is accepted, and what it leaves to run is the empty text. */
  lemma LoneTerminatorIsAccepted(s: string)
    requires s == ";"
    ensures ValidateQuery(JsString(s), RowLimit(None)) == Accept("")
  {
    assert IsTrimmed(s);
    LoneTerminatorIsClean(s);
    assert CountChar(s, ';') == 1;
    CleanTrimmedIsAccepted(s, DefaultRowLimit);
    assert Sanitize(s, DefaultRowLimit) == "" by {
      assert s[..0] == [];
      assert Trim([]) == [];
    }
  }

  /** A trimmed, clean text whose `;`, if any, is its last character, is accepted. */
  lemma CleanTrimmedIsAccepted(s: string, rowLimit: int)
    requires s != [] && IsTrimmed(s)
    requires !ContainsAnyWholeWord(s, DestructiveKeywords) && !ContainsAnyWholeWord(s, DangerousFunctions)
    requires !TerminatorMisplaced(s)
    ensures ValidateQuery(JsString(s), rowLimit) == Accept(Sanitize(s, rowLimit))
  {
    TrimmedInput(s, rowLimit);
  }

  lemma LoneTerminatorIsClean(s: string)
    requires s == ";"
    ensures !ContainsAnyWholeWord(s, DestructiveKeywords) && !ContainsAnyWholeWord(s, DangerousFunctions)
  {
    assert s == Join(["", ""], [';']);
    CleanJoin(s, ["", ""], [';']);
  }

  /** A trimmed text that starts with the word SELECT is a SELECT query. */
  lemma SelectRecognised(s: string)
    requires IsTrimmed(s) && MatchesAt(s, 0, "SELECT") && (|s| == 6 || !IsWordChar(s[6]))
    ensures IsSelectQuery(s)
  {
    TrimOfTrimmed(s);
  }

  /** `isSelectQuery('SELECT * FROM users')` */
  lemma SelectIsDetected(s: string)
    requires s == "SELECT * FROM users"
    ensures IsSelectQuery(s)
  {
    assert IsTrimmed(s);
    assert MatchesAt(s, 0, "SELECT");
    SelectRecognised(s);
  }

  /** `isSelectQuery('  select id from orders')`: leading blanks and lower case. */
  lemma IndentedLowerCaseSelectIsDetected(s: string)
    requires s == "  select id from orders"
    ensures IsSelectQuery(s)
  {
    var t := "select id from orders";
    assert s == "  " + t;
    LowerCaseSelect(t);
    IndentIsIgnored(s, t);
  }

  lemma LowerCaseSelect(t: string)
    requires t == "select id from orders"
    ensures IsTrimmed(t) && MatchesAt(t, 0, "SELECT") && !IsWordChar(t[6])
  {
  }

  lemma IndentIsIgnored(s: string, t: string)
    requires s == "  " + t && IsTrimmed(t) && t != []
    ensures Trim(s) == t
  {
    TrimOfTrimmed(t);
    assert TrimStart(s) == t by {
      assert s[1..] == " " + t;
      assert s[2..] == t;
    }
  }

  /** `isSelectQuery('UPDATE users SET name = "test"')` is false. */
  lemma UpdateIsNotSelect(s: string)
    requires s == "UPDATE users SET name = \"test\""
    ensures !IsSelectQuery(s)
  {
    assert IsTrimmed(s);
    TrimOfTrimmed(s);
    assert AsciiUpper(s[0 + 0]) != AsciiUpper("SELECT"[0]);
  }
}
