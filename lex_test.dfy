/** `lex_test` (lexer.c:224-251): the four-line program it scans and the
    token sequence it asserts. */
module LexTest {
  import opened Common
  import opened Interner
  import opened Lexer

  const LINE1: string := "let x = 15;\n"
  const LINE2: string := "while x >= 0 {\n"
  const LINE3: string := "    let x = x - 1;\n"
  const LINE4: string := "};"
  const SOURCE: string := LINE1 + LINE2 + LINE3 + LINE4

  lemma SourceChars()
    ensures |SOURCE| == 48
    ensures forall k :: 0 <= k < |SOURCE| ==> SOURCE[k] != NUL && SOURCE[k] as int < 128
  {
  }

  lemma SourceDigits()
    ensures |SOURCE| == 48
    ensures forall k :: 0 <= k < |SOURCE| && IsDigit(SOURCE[k]) ==> k == 8 || k == 9 || k == 23 || k == 43
  {
  }

  /** The test source is one the scanner reads without undefined
      behaviour: its longest digit run has two digits. */
  lemma SourceReadable()
    ensures SourceOk(SOURCE)
  {
    SourceChars();
    SourceDigits();
    forall i, j | 0 <= i <= j <= |SOURCE| && Digits(SOURCE, i, j)
      ensures DigitsValue(SOURCE, i, j) <= INT_MAX
    {
      if i < j {
        var c0, c1, c2 := At(SOURCE, i), At(SOURCE, i + 1), At(SOURCE, i + 2);
        assert j - i <= 2;
        assert Pow10(j - i) <= 100;
      }
      DigitsValueBound(SOURCE, i, j);
    }
  }

  /** The characters of line 1. */
  lemma Line1Chars()
    ensures SOURCE[0] == 'l' && SOURCE[1] == 'e' && SOURCE[2] == 't' && SOURCE[3] == ' ' && SOURCE[4] == 'x'
    ensures SOURCE[5] == ' ' && SOURCE[6] == '=' && SOURCE[7] == ' ' && SOURCE[8] == '1' && SOURCE[9] == '5'
    ensures SOURCE[10] == ';' && SOURCE[11] == '\n'
  {
    assert forall k :: 0 <= k < 12 ==> SOURCE[0 + k] == LINE1[k];
  }

  /** The characters of line 2. */
  lemma Line2Chars()
    ensures SOURCE[12] == 'w' && SOURCE[13] == 'h' && SOURCE[14] == 'i' && SOURCE[15] == 'l' && SOURCE[16] == 'e'
    ensures SOURCE[17] == ' ' && SOURCE[18] == 'x' && SOURCE[19] == ' ' && SOURCE[20] == '>' && SOURCE[21] == '='
    ensures SOURCE[22] == ' ' && SOURCE[23] == '0' && SOURCE[24] == ' ' && SOURCE[25] == '{' && SOURCE[26] == '\n'
  {
    assert forall k :: 0 <= k < 15 ==> SOURCE[12 + k] == LINE2[k];
  }

  /** The characters of line 3. */
  lemma Line3Chars()
    ensures SOURCE[27] == ' ' && SOURCE[28] == ' ' && SOURCE[29] == ' ' && SOURCE[30] == ' ' && SOURCE[31] == 'l'
    ensures SOURCE[32] == 'e' && SOURCE[33] == 't' && SOURCE[34] == ' ' && SOURCE[35] == 'x' && SOURCE[36] == ' '
    ensures SOURCE[37] == '=' && SOURCE[38] == ' ' && SOURCE[39] == 'x' && SOURCE[40] == ' ' && SOURCE[41] == '-'
    ensures SOURCE[42] == ' ' && SOURCE[43] == '1' && SOURCE[44] == ';' && SOURCE[45] == '\n'
  {
    assert forall k :: 0 <= k < 19 ==> SOURCE[27 + k] == LINE3[k];
  }

  /** The characters of line 4. */
  lemma Line4Chars()
    ensures SOURCE[46] == '}' && SOURCE[47] == ';'
  {
    assert forall k :: 0 <= k < 2 ==> SOURCE[46 + k] == LINE4[k];
  }

  // One lemma per call of `next_token`: the token scanned from each position.

  lemma Step0(t: seq<Entry>, kws: Keywords, prev: nat)
    requires SourceOk(SOURCE) && TableOk(t, kws)
    ensures Lex(SOURCE, 0, t, kws, prev) == Lexed(Token(TOKEN_LET, 0, 3, kws.letKw), 3, t)
  {
    Line1Chars();
    assert SOURCE[0] == 'l';
    assert SOURCE[0..3] == "let";
    assert At(SOURCE, 3) == ' ';
    ScanWordAt(SOURCE, 0, 3, t, kws, prev);
    InternFound(t, "let", kws.letKw);
  }

  lemma Step1(t: seq<Entry>, kws: Keywords, prev: nat)
    requires SourceOk(SOURCE) && TableOk(t, kws)
    ensures Lex(SOURCE, 3, t, kws, prev) == Lexed(Token(TOKEN_NAME, 4, 5, InternF(t, "x").1), 5, InternF(t, "x").0)
  {
    Line1Chars();
    assert SOURCE[3..4] == " ";
    assert SOURCE[4] == 'x';
    LexAt(SOURCE, 3, 4, t, kws, prev);
    assert SOURCE[4..5] == "x";
    assert At(SOURCE, 5) == ' ';
    ScanWordAt(SOURCE, 4, 5, t, kws, prev);
    ScanWord(SOURCE, 4, t, kws, prev);
  }

  lemma Step2(t: seq<Entry>, kws: Keywords, prev: nat)
    requires SourceOk(SOURCE) && TableOk(t, kws)
    ensures Lex(SOURCE, 5, t, kws, prev) == Lexed(Token('=' as int, 6, 7, prev), 7, t)
  {
    Line1Chars();
    assert SOURCE[5..6] == " ";
    assert SOURCE[6] == '=';
    LexAt(SOURCE, 5, 6, t, kws, prev);
    assert At(SOURCE, 7) == ' ';
  }

  lemma Step3(t: seq<Entry>, kws: Keywords, prev: nat)
    requires SourceOk(SOURCE) && TableOk(t, kws)
    ensures Lex(SOURCE, 7, t, kws, prev) == Lexed(Token(TOKEN_LITERAL, 8, 10, 15), 10, t)
  {
    Line1Chars();
    assert SOURCE[7..8] == " ";
    assert SOURCE[8] == '1';
    LexAt(SOURCE, 7, 8, t, kws, prev);
    assert SOURCE[9] == '5';
    assert At(SOURCE, 10) == ';';
    ScanNumberAt(SOURCE, 8, 10, t, kws, prev);
    assert DigitsValue(SOURCE, 8, 9) == 1;
  }

  lemma Step4(t: seq<Entry>, kws: Keywords, prev: nat)
    requires SourceOk(SOURCE) && TableOk(t, kws)
    ensures Lex(SOURCE, 10, t, kws, prev) == Lexed(Token(';' as int, 10, 11, prev), 11, t)
  {
    Line1Chars();
    assert SOURCE[10] == ';';
    assert At(SOURCE, 11) == '\n';
  }

  lemma Step5(t: seq<Entry>, kws: Keywords, prev: nat)
    requires SourceOk(SOURCE) && TableOk(t, kws)
    ensures Lex(SOURCE, 11, t, kws, prev) == Lexed(Token(TOKEN_WHILE, 12, 17, kws.whileKw), 17, t)
  {
    Line1Chars();
    Line2Chars();
    LexAt(SOURCE, 11, 12, t, kws, prev);
    LexAt(SOURCE, 12, 12, t, kws, prev);
    Line2While(t, kws, prev);
  }

  /** The `while` keyword that opens line 2. */
  lemma Line2While(t: seq<Entry>, kws: Keywords, prev: nat)
    requires SourceOk(SOURCE) && TableOk(t, kws)
    ensures Lex(SOURCE, 12, t, kws, prev) == Lexed(Token(TOKEN_WHILE, 12, 17, kws.whileKw), 17, t)
  {
    Line2Chars();
    LexAt(SOURCE, 12, 12, t, kws, prev);
    assert SOURCE[12..17] == "while";
    assert At(SOURCE, 17) == ' ';
    ScanWordAt(SOURCE, 12, 17, t, kws, prev);
    InternFound(t, "while", kws.whileKw);
  }

  lemma Step6(t: seq<Entry>, kws: Keywords, prev: nat)
    requires SourceOk(SOURCE) && TableOk(t, kws)
    ensures Lex(SOURCE, 17, t, kws, prev) == Lexed(Token(TOKEN_NAME, 18, 19, InternF(t, "x").1), 19, InternF(t, "x").0)
  {
    Line2Chars();
    assert SOURCE[17..18] == " ";
    assert SOURCE[18] == 'x';
    LexAt(SOURCE, 17, 18, t, kws, prev);
    assert SOURCE[18..19] == "x";
    assert At(SOURCE, 19) == ' ';
    ScanWordAt(SOURCE, 18, 19, t, kws, prev);
    ScanWord(SOURCE, 18, t, kws, prev);
  }

  lemma Step7(t: seq<Entry>, kws: Keywords, prev: nat)
    requires SourceOk(SOURCE) && TableOk(t, kws)
    ensures Lex(SOURCE, 19, t, kws, prev) == Lexed(Token(TOKEN_GTE, 20, 22, prev), 22, t)
  {
    Line2Chars();
    assert SOURCE[19..20] == " ";
    assert SOURCE[20] == '>';
    LexAt(SOURCE, 19, 20, t, kws, prev);
    assert At(SOURCE, 21) == '=';
  }

  lemma Step8(t: seq<Entry>, kws: Keywords, prev: nat)
    requires SourceOk(SOURCE) && TableOk(t, kws)
    ensures Lex(SOURCE, 22, t, kws, prev) == Lexed(Token(TOKEN_LITERAL, 23, 24, 0), 24, t)
  {
    Line2Chars();
    assert SOURCE[22..23] == " ";
    assert SOURCE[23] == '0';
    LexAt(SOURCE, 22, 23, t, kws, prev);
    assert At(SOURCE, 24) == ' ';
    ScanNumberAt(SOURCE, 23, 24, t, kws, prev);
  }

  lemma Step9(t: seq<Entry>, kws: Keywords, prev: nat)
    requires SourceOk(SOURCE) && TableOk(t, kws)
    ensures Lex(SOURCE, 24, t, kws, prev) == Lexed(Token('{' as int, 25, 26, prev), 26, t)
  {
    Line2Chars();
    assert SOURCE[24..25] == " ";
    assert SOURCE[25] == '{';
    LexAt(SOURCE, 24, 25, t, kws, prev);
    assert At(SOURCE, 26) == '\n';
  }

  lemma Step10(t: seq<Entry>, kws: Keywords, prev: nat)
    requires SourceOk(SOURCE) && TableOk(t, kws)
    ensures Lex(SOURCE, 26, t, kws, prev) == Lexed(Token(TOKEN_LET, 31, 34, kws.letKw), 34, t)
  {
    Indent(t, kws, prev);
    Line3Let(t, kws, prev);
  }

  /** The line break and indentation before the second `let`. */
  lemma Indent(t: seq<Entry>, kws: Keywords, prev: nat)
    requires SourceOk(SOURCE) && TableOk(t, kws)
    ensures Lex(SOURCE, 26, t, kws, prev) == Lex(SOURCE, 31, t, kws, prev)
  {
    Line2Chars();
    Line3Chars();
    assert Lex(SOURCE, 26, t, kws, prev) == Lex(SOURCE, 27, t, kws, prev)
      == Lex(SOURCE, 28, t, kws, prev) == Lex(SOURCE, 29, t, kws, prev)
      == Lex(SOURCE, 30, t, kws, prev);
  }

  /** The `let` of the loop body. */
  lemma Line3Let(t: seq<Entry>, kws: Keywords, prev: nat)
    requires SourceOk(SOURCE) && TableOk(t, kws)
    ensures Lex(SOURCE, 31, t, kws, prev) == Lexed(Token(TOKEN_LET, 31, 34, kws.letKw), 34, t)
  {
    Line3Chars();
    LexAt(SOURCE, 31, 31, t, kws, prev);
    assert SOURCE[31..34] == "let";
    assert At(SOURCE, 34) == ' ';
    ScanWordAt(SOURCE, 31, 34, t, kws, prev);
    InternFound(t, "let", kws.letKw);
  }

  lemma Step11(t: seq<Entry>, kws: Keywords, prev: nat)
    requires SourceOk(SOURCE) && TableOk(t, kws)
    ensures Lex(SOURCE, 34, t, kws, prev) == Lexed(Token(TOKEN_NAME, 35, 36, InternF(t, "x").1), 36, InternF(t, "x").0)
  {
    Line3Chars();
    assert SOURCE[34..35] == " ";
    assert SOURCE[35] == 'x';
    LexAt(SOURCE, 34, 35, t, kws, prev);
    assert SOURCE[35..36] == "x";
    assert At(SOURCE, 36) == ' ';
    ScanWordAt(SOURCE, 35, 36, t, kws, prev);
    ScanWord(SOURCE, 35, t, kws, prev);
  }

  lemma Step12(t: seq<Entry>, kws: Keywords, prev: nat)
    requires SourceOk(SOURCE) && TableOk(t, kws)
    ensures Lex(SOURCE, 36, t, kws, prev) == Lexed(Token('=' as int, 37, 38, prev), 38, t)
  {
    Line3Chars();
    assert SOURCE[36..37] == " ";
    assert SOURCE[37] == '=';
    LexAt(SOURCE, 36, 37, t, kws, prev);
    assert At(SOURCE, 38) == ' ';
  }

  lemma Step13(t: seq<Entry>, kws: Keywords, prev: nat)
    requires SourceOk(SOURCE) && TableOk(t, kws)
    ensures Lex(SOURCE, 38, t, kws, prev) == Lexed(Token(TOKEN_NAME, 39, 40, InternF(t, "x").1), 40, InternF(t, "x").0)
  {
    Line3Chars();
    assert SOURCE[38..39] == " ";
    assert SOURCE[39] == 'x';
    LexAt(SOURCE, 38, 39, t, kws, prev);
    assert SOURCE[39..40] == "x";
    assert At(SOURCE, 40) == ' ';
    ScanWordAt(SOURCE, 39, 40, t, kws, prev);
    ScanWord(SOURCE, 39, t, kws, prev);
  }

  lemma Step14(t: seq<Entry>, kws: Keywords, prev: nat)
    requires SourceOk(SOURCE) && TableOk(t, kws)
    ensures Lex(SOURCE, 40, t, kws, prev) == Lexed(Token('-' as int, 41, 42, prev), 42, t)
  {
    Line3Chars();
    assert SOURCE[40..41] == " ";
    assert SOURCE[41] == '-';
    LexAt(SOURCE, 40, 41, t, kws, prev);
    assert At(SOURCE, 42) == ' ';
  }

  lemma Step15(t: seq<Entry>, kws: Keywords, prev: nat)
    requires SourceOk(SOURCE) && TableOk(t, kws)
    ensures Lex(SOURCE, 42, t, kws, prev) == Lexed(Token(TOKEN_LITERAL, 43, 44, 1), 44, t)
  {
    Line3Chars();
    assert SOURCE[42..43] == " ";
    assert SOURCE[43] == '1';
    LexAt(SOURCE, 42, 43, t, kws, prev);
    assert At(SOURCE, 44) == ';';
    ScanNumberAt(SOURCE, 43, 44, t, kws, prev);
  }

  lemma Step16(t: seq<Entry>, kws: Keywords, prev: nat)
    requires SourceOk(SOURCE) && TableOk(t, kws)
    ensures Lex(SOURCE, 44, t, kws, prev) == Lexed(Token(';' as int, 44, 45, prev), 45, t)
  {
    Line3Chars();
    assert SOURCE[44] == ';';
    assert At(SOURCE, 45) == '\n';
  }

  lemma Step17(t: seq<Entry>, kws: Keywords, prev: nat)
    requires SourceOk(SOURCE) && TableOk(t, kws)
    ensures Lex(SOURCE, 45, t, kws, prev) == Lexed(Token('}' as int, 46, 47, prev), 47, t)
  {
    Line3Chars();
    Line4Chars();
    assert SOURCE[45..46] == "\n";
    assert SOURCE[46] == '}';
    LexAt(SOURCE, 45, 46, t, kws, prev);
    assert At(SOURCE, 47) == ';';
  }

  lemma Step18(t: seq<Entry>, kws: Keywords, prev: nat)
    requires SourceOk(SOURCE) && TableOk(t, kws)
    ensures Lex(SOURCE, 47, t, kws, prev) == Lexed(Token(';' as int, 47, 48, prev), 48, t)
  {
    Line4Chars();
    assert SOURCE[47] == ';';
  }

  lemma Step19(t: seq<Entry>, kws: Keywords, prev: nat)
    requires SourceOk(SOURCE) && TableOk(t, kws)
    ensures Lex(SOURCE, 48, t, kws, prev) == Lexed(Token(END_TOKEN, 48, 49, prev), 49, t)
  {
  }

  // ---------------------------------------------------------------------
  // The test itself. Each C `assert` becomes a Dafny `assert`: the
  // verifier shows that none of them can fail.

  /** `assert_token(k)`: the head of the stream is a `k`, which is
      consumed. */
  method AssertToken(lx: Lexer, k: int)
    requires lx.Valid() && lx.token.kind == k && k != END_TOKEN
    modifies lx`pos, lx`token, lx.table
    ensures lx.Valid() && lx.table == old(lx.table) && lx.kws == old(lx.kws)
    ensures lx.State() == Next(old(lx.State()))
  {
    var b := lx.MatchToken(k);
    assert b;
  }

  /** `assert_token_name(name)`: interning `name` yields the identifier
      at the head of the stream, which is consumed. The name is already in
      the table, so interning it changes nothing. */
  method AssertTokenName(lx: Lexer, name: string)
    requires lx.Valid() && NoNul(name) && lx.token.kind == TOKEN_NAME
    requires lx.token.payload < |lx.table.entries| && Text(lx.table.entries[lx.token.payload]) == name
    modifies lx`pos, lx`token, lx.table
    ensures lx.Valid() && lx.table == old(lx.table) && lx.kws == old(lx.kws)
    ensures lx.State() == Next(old(lx.State()))
  {
    StrLenOfText(name);
    InternFound(lx.table.entries, name, lx.token.payload);
    var id := lx.table.Intern(name + [NUL]);
    assert id == lx.token.payload;
    var b := lx.MatchToken(TOKEN_NAME);
    assert b;
  }

  /** `assert_token_literal(v)`: the head of the stream is the literal
      `v`, which is consumed. */
  method AssertTokenLiteral(lx: Lexer, v: nat)
    requires lx.Valid() && lx.token.kind == TOKEN_LITERAL && lx.token.payload == v
    modifies lx`pos, lx`token, lx.table
    ensures lx.Valid() && lx.table == old(lx.table) && lx.kws == old(lx.kws)
    ensures lx.State() == Next(old(lx.State()))
  {
    var b := lx.MatchToken(TOKEN_LITERAL);
    assert b;
  }

  /** `lex_test`: scan the test program and check its nineteen tokens in
      order. The only change to the intern table is the identifier `x`. */
  method LexTest(lx: Lexer)
    requires lx.Valid()
    modifies lx`src, lx`pos, lx`token, lx.table
    ensures lx.Valid() && lx.src == SOURCE && lx.table == old(lx.table) && lx.kws == old(lx.kws)
    ensures lx.token.kind == END_TOKEN
    ensures lx.table.entries == InternF(old(lx.table.entries), "x").0
  {
    SourceReadable();
    ghost var t0 := lx.table.entries;
    InternPreserves(t0, "x");
    ghost var t1 := InternF(t0, "x").0;
    ghost var x := InternF(t0, "x").1;
    InternFound(t1, "x", x);
    lx.InitStream(SOURCE);
    Step0(t0, lx.kws, old(lx.token.payload));
    Line1(lx, t1, x);
    Line2(lx, t1, x);
    Line3(lx, t1, x);
    Line4(lx, t1);
  }

  /** `let x = 15;` */
  method Line1(lx: Lexer, ghost t1: seq<Entry>, ghost x: nat)
    requires lx.Valid() && lx.src == SOURCE && lx.pos == 3
    requires lx.token == Token(TOKEN_LET, 0, 3, lx.kws.letKw)
    requires InternF(lx.table.entries, "x") == (t1, x) && x < |t1| && Text(t1[x]) == "x"
    modifies lx`pos, lx`token, lx.table
    ensures lx.Valid() && lx.src == SOURCE && lx.table == old(lx.table) && lx.kws == old(lx.kws)
    ensures lx.table.entries == t1 && lx.pos == 17 && lx.token.kind == TOKEN_WHILE
  {
    Step1(lx.table.entries, lx.kws, lx.token.payload);
    AssertToken(lx, TOKEN_LET);
    Step2(lx.table.entries, lx.kws, lx.token.payload);
    AssertTokenName(lx, "x");
    Step3(lx.table.entries, lx.kws, lx.token.payload);
    AssertToken(lx, '=' as int);
    Step4(lx.table.entries, lx.kws, lx.token.payload);
    AssertTokenLiteral(lx, 15);
    Step5(lx.table.entries, lx.kws, lx.token.payload);
    AssertToken(lx, ';' as int);
  }

  /** `while x >= 0 {` */
  method Line2(lx: Lexer, ghost t1: seq<Entry>, ghost x: nat)
    requires lx.Valid() && lx.src == SOURCE && lx.pos == 17 && lx.token.kind == TOKEN_WHILE
    requires lx.table.entries == t1 && x < |t1| && Text(t1[x]) == "x" && InternF(t1, "x") == (t1, x)
    modifies lx`pos, lx`token, lx.table
    ensures lx.Valid() && lx.src == SOURCE && lx.table == old(lx.table) && lx.kws == old(lx.kws)
    ensures lx.table.entries == t1 && lx.pos == 34 && lx.token.kind == TOKEN_LET
  {
    Step6(lx.table.entries, lx.kws, lx.token.payload);
    AssertToken(lx, TOKEN_WHILE);
    Step7(lx.table.entries, lx.kws, lx.token.payload);
    AssertTokenName(lx, "x");
    Step8(lx.table.entries, lx.kws, lx.token.payload);
    AssertToken(lx, TOKEN_GTE);
    Step9(lx.table.entries, lx.kws, lx.token.payload);
    AssertTokenLiteral(lx, 0);
    Step10(lx.table.entries, lx.kws, lx.token.payload);
    AssertToken(lx, '{' as int);
  }

  /** `    let x = x - 1;` */
  method Line3(lx: Lexer, ghost t1: seq<Entry>, ghost x: nat)
    requires lx.Valid() && lx.src == SOURCE && lx.pos == 34 && lx.token.kind == TOKEN_LET
    requires lx.table.entries == t1 && x < |t1| && Text(t1[x]) == "x" && InternF(t1, "x") == (t1, x)
    modifies lx`pos, lx`token, lx.table
    ensures lx.Valid() && lx.src == SOURCE && lx.table == old(lx.table) && lx.kws == old(lx.kws)
    ensures lx.table.entries == t1 && lx.pos == 47 && lx.token.kind == '}' as int
  {
    Step11(lx.table.entries, lx.kws, lx.token.payload);
    AssertToken(lx, TOKEN_LET);
    Step12(lx.table.entries, lx.kws, lx.token.payload);
    AssertTokenName(lx, "x");
    Step13(lx.table.entries, lx.kws, lx.token.payload);
    AssertToken(lx, '=' as int);
    Step14(lx.table.entries, lx.kws, lx.token.payload);
    AssertTokenName(lx, "x");
    Step15(lx.table.entries, lx.kws, lx.token.payload);
    AssertToken(lx, '-' as int);
    Step16(lx.table.entries, lx.kws, lx.token.payload);
    AssertTokenLiteral(lx, 1);
    Step17(lx.table.entries, lx.kws, lx.token.payload);
    AssertToken(lx, ';' as int);
  }

  /** `};` */
  method Line4(lx: Lexer, ghost t1: seq<Entry>)
    requires lx.Valid() && lx.src == SOURCE && lx.pos == 47 && lx.token.kind == '}' as int
    requires lx.table.entries == t1
    modifies lx`pos, lx`token, lx.table
    ensures lx.Valid() && lx.src == SOURCE && lx.table == old(lx.table) && lx.kws == old(lx.kws)
    ensures lx.table.entries == t1 && lx.token.kind == END_TOKEN
  {
    Step18(lx.table.entries, lx.kws, lx.token.payload);
    AssertToken(lx, '}' as int);
    Step19(lx.table.entries, lx.kws, lx.token.payload);
    AssertToken(lx, ';' as int);
  }
}
