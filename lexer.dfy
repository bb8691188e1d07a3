/** The scanner of lexer.c. The C code keeps the current token and the read
    position (`stream`) in globals and interns every identifier; here they
    are the fields of a `Lexer`, which shares the intern table. The source
    is the characters before the C string's terminator: reading at its end
    yields NUL, as `*stream` does there. */
module Lexer {
  import opened Common
  import opened Interner

  // ---------------------------------------------------------------------
  // Token types (`Token_Type`): the first 128 values are ASCII characters

  /** The end-of-input token: type 0, the NUL that ends the source. It is
      not stdio's `EOF` (-1). */
  const END_TOKEN: int := 0
  const TOKEN_LITERAL: int := 128
  const TOKEN_NAME: int := 129
  const TOKEN_LET: int := 130
  const TOKEN_WHILE: int := 131
  const TOKEN_IF: int := 132
  const TOKEN_PRINT: int := 133
  const TOKEN_EQ: int := 134
  const TOKEN_GTE: int := 135
  const TOKEN_LTE: int := 136

  /** `Token`. The union shared by `literal` and `name` is `payload`: the
      literal's value or the intern index of the name. A token that sets
      neither keeps the previous token's payload, as the C union does. */
  datatype Token = Token(kind: int, start: nat, end: nat, payload: nat)

  /** The intern indices of the keyword strings `lex_init` interns. */
  datatype Keywords = Keywords(letKw: nat, whileKw: nat, ifKw: nat)

  /** What one call of `next_token` produces: the token, the new position
      and the intern table after it. */
  datatype Lexed = Lexed(token: Token, pos: nat, table: seq<Entry>)

  const SPACE: char := ' '
  const TAB: char := '\t'
  const NEWLINE: char := '\n'

  /** `*stream`: the character at `p`, NUL at the end. */
  function At(src: seq<char>, p: nat): char {
    if p < |src| then src[p] else NUL
  }

  predicate IsDigit(c: char) { '0' <= c <= '9' }
  predicate IsAlpha(c: char) { 'a' <= c <= 'z' || 'A' <= c <= 'Z' }
  predicate IsWordStart(c: char) { IsAlpha(c) || c == '_' }
  predicate IsWordChar(c: char) { IsAlpha(c) || IsDigit(c) || c == '_' }
  predicate IsSpace(c: char) { c == SPACE || c == TAB || c == NEWLINE }

  /** The characters `src[i..j]` are all digits. */
  predicate Digits(src: seq<char>, i: nat, j: nat)
    requires i <= j <= |src|
  {
    forall k :: i <= k < j ==> IsDigit(src[k])
  }

  /** The decimal number the digits `src[i..j]` spell, read left to
      right. */
  function DigitsValue(src: seq<char>, i: nat, j: nat): nat
    requires i <= j <= |src| && Digits(src, i, j)
    decreases j - i
  {
    if j == i then 0
    else DigitsValue(src, i, j - 1) * 10 + (src[j - 1] as int - '0' as int)
  }

  /** A source the scanner can read without undefined behaviour: ASCII, no
      NUL before the terminator, and no digit run too large for `int val`. */
  predicate SourceOk(src: seq<char>) {
    (forall k :: 0 <= k < |src| ==> src[k] != NUL && src[k] as int < 128) &&
    (forall i, j :: 0 <= i <= j <= |src| && Digits(src, i, j) ==> DigitsValue(src, i, j) <= INT_MAX)
  }

  /** The table is valid and holds the keywords at the recorded indices. */
  predicate TableOk(t: seq<Entry>, kws: Keywords) {
    ValidTable(t) &&
    kws.letKw < |t| && Text(t[kws.letKw]) == "let" &&
    kws.whileKw < |t| && Text(t[kws.whileKw]) == "while" &&
    kws.ifKw < |t| && Text(t[kws.ifKw]) == "if"
  }

  // ---------------------------------------------------------------------
  // The reference scanner

  /** The end of the digit run starting at `p`. */
  function DigitEnd(src: seq<char>, p: nat): (e: nat)
    requires p <= |src|
    ensures p <= e <= |src| && Digits(src, p, e) && !IsDigit(At(src, e))
    decreases |src| - p
  {
    if IsDigit(At(src, p)) then DigitEnd(src, p + 1) else p
  }

  /** The end of the identifier characters starting at `p`. */
  function WordEnd(src: seq<char>, p: nat): (e: nat)
    requires p <= |src|
    ensures p <= e <= |src| && !IsWordChar(At(src, e))
    ensures forall k :: p <= k < e ==> IsWordChar(src[k])
    decreases |src| - p
  {
    if IsWordChar(At(src, p)) then WordEnd(src, p + 1) else p
  }

  /** The token kind of an interned identifier: a keyword's kind when it is
      one of the three keyword entries, `TOKEN_NAME` otherwise. */
  function WordKind(id: nat, kws: Keywords): int {
    if id == kws.letKw then TOKEN_LET
    else if id == kws.whileKw then TOKEN_WHILE
    else if id == kws.ifKw then TOKEN_IF
    else TOKEN_NAME
  }

  /** `_next_token` at a position that is not white space; `prev` is the
      payload the token had before. */
  function Scan(src: seq<char>, p: nat, t: seq<Entry>, kws: Keywords, prev: nat): (r: Lexed)
    requires SourceOk(src) && TableOk(t, kws) && p <= |src| && !IsSpace(At(src, p))
    ensures r.token.start == p < r.token.end == r.pos <= |src| + 1
    ensures r.pos == |src| + 1 <==> p == |src|
    ensures r.token.kind == END_TOKEN <==> p == |src|
    ensures TableOk(r.table, kws) && t <= r.table
  {
    var c := At(src, p);
    if IsDigit(c) then
      var e := DigitEnd(src, p);
      Lexed(Token(TOKEN_LITERAL, p, e, DigitsValue(src, p, e)), e, t)
    else if IsWordStart(c) then
      var e := WordEnd(src, p);
      assert NoNul(src[p..e]);
      InternPreserves(t, src[p..e]);
      var (t', id) := InternF(t, src[p..e]);
      assert t'[kws.letKw] == t[kws.letKw] && t'[kws.whileKw] == t[kws.whileKw] && t'[kws.ifKw] == t[kws.ifKw];
      Lexed(Token(WordKind(id, kws), p, e, id), e, t')
    else if c == '>' then
      if At(src, p + 1) == '=' then Lexed(Token(TOKEN_GTE, p, p + 2, prev), p + 2, t)
      else Lexed(Token('>' as int, p, p + 1, prev), p + 1, t)
    else if c == '<' then
      if At(src, p + 1) == '=' then Lexed(Token(TOKEN_GTE, p, p + 2, prev), p + 2, t)
      else Lexed(Token('<' as int, p, p + 1, prev), p + 1, t)
    else if c == '=' then
      if At(src, p + 1) == '=' then Lexed(Token(TOKEN_EQ, p, p + 2, prev), p + 2, t)
      else Lexed(Token('=' as int, p, p + 1, prev), p + 1, t)
    else
      Lexed(Token(c as int, p, p + 1, prev), p + 1, t)
  }

  /** `_next_token` from `p`: white space is skipped, then one token is
      scanned. The token starts at the first other character and the
      position moves strictly forward, to the token's end. */
  function Lex(src: seq<char>, p: nat, t: seq<Entry>, kws: Keywords, prev: nat): (r: Lexed)
    requires SourceOk(src) && TableOk(t, kws) && p <= |src|
    ensures p <= r.token.start < r.token.end == r.pos <= |src| + 1
    ensures forall k :: p <= k < r.token.start ==> IsSpace(src[k])
    ensures !IsSpace(At(src, r.token.start))
    ensures r == Scan(src, r.token.start, t, kws, prev)
    decreases |src| - p
  {
    if IsSpace(At(src, p)) then Lex(src, p + 1, t, kws, prev)
    else Scan(src, p, t, kws, prev)
  }

  // ---------------------------------------------------------------------
  // What a scanned token is

  /** A digit run becomes one literal token: the whole run, its decimal
      value, within `int`. */
  lemma ScanLiteral(src: seq<char>, p: nat, t: seq<Entry>, kws: Keywords, prev: nat)
    requires SourceOk(src) && TableOk(t, kws) && p <= |src| && IsDigit(At(src, p))
    ensures var r := Scan(src, p, t, kws, prev);
      r.token.kind == TOKEN_LITERAL && Digits(src, p, r.pos) && !IsDigit(At(src, r.pos)) &&
      r.token.payload == DigitsValue(src, p, r.pos) <= INT_MAX && r.table == t
  {
    var e := DigitEnd(src, p);
    assert Scan(src, p, t, kws, prev).pos == e;
  }

  /** A letter or `_` starts a word token spanning every following letter,
      digit and `_`; its payload is the intern index of its text, and it is
      a keyword exactly when the text is "let", "while" or "if". */
  lemma ScanWord(src: seq<char>, p: nat, t: seq<Entry>, kws: Keywords, prev: nat)
    requires SourceOk(src) && TableOk(t, kws) && p <= |src| && IsWordStart(At(src, p))
    ensures var r := Scan(src, p, t, kws, prev);
      var text := src[p..r.pos];
      (forall k :: p <= k < r.pos ==> IsWordChar(src[k])) && !IsWordChar(At(src, r.pos)) &&
      (r.table, r.token.payload) == InternF(t, text) &&
      Text(r.table[r.token.payload]) == text &&
      (r.token.kind == TOKEN_LET <==> text == "let") &&
      (r.token.kind == TOKEN_WHILE <==> text == "while") &&
      (r.token.kind == TOKEN_IF <==> text == "if") &&
      (r.token.kind == TOKEN_NAME <==> text != "let" && text != "while" && text != "if")
  {
    var e := WordEnd(src, p);
    var text := src[p..e];
    assert NoNul(text);
    InternPreserves(t, text);
    var (t', id) := InternF(t, text);
    assert t'[kws.letKw] == t[kws.letKw] && t'[kws.whileKw] == t[kws.whileKw] && t'[kws.ifKw] == t[kws.ifKw];
    assert ValidTable(t');
    assert id == kws.letKw <==> text == "let";
    assert id == kws.whileKw <==> text == "while";
    assert id == kws.ifKw <==> text == "if";
  }

  /** `>=` and `==` are two-character tokens, and so is `<=`, which as
      written also yields `TOKEN_GTE`; a lone `>`, `<` or `=` is the
      character itself. The payload is left as it was. */
  lemma ScanOperator(src: seq<char>, p: nat, t: seq<Entry>, kws: Keywords, prev: nat)
    requires SourceOk(src) && TableOk(t, kws) && p <= |src|
    requires At(src, p) == '>' || At(src, p) == '<' || At(src, p) == '='
    ensures var r := Scan(src, p, t, kws, prev);
      var c := At(src, p);
      r.table == t && r.token.payload == prev &&
      (At(src, p + 1) == '=' ==>
        r.pos == p + 2 && r.token.kind == (if c == '=' then TOKEN_EQ else TOKEN_GTE)) &&
      (At(src, p + 1) != '=' ==> r.pos == p + 1 && r.token.kind == c as int)
  {
  }

  /** Any other character is a token of its own code, one character long;
      at the end of the source that is the end marker 0. */
  lemma ScanOther(src: seq<char>, p: nat, t: seq<Entry>, kws: Keywords, prev: nat)
    requires SourceOk(src) && TableOk(t, kws) && p <= |src|
    requires var c := At(src, p);
      !IsSpace(c) && !IsDigit(c) && !IsWordStart(c) && c != '>' && c != '<' && c != '='
    ensures var r := Scan(src, p, t, kws, prev);
      r == Lexed(Token(At(src, p) as int, p, p + 1, prev), p + 1, t) &&
      0 <= r.token.kind < 128 && (r.token.kind == END_TOKEN <==> p == |src|)
  {
  }

  /** As written, `<=` is scanned as `TOKEN_GTE`, the token of `>=`, so no
      input ever yields `TOKEN_LTE`. */
  lemma LessEqualIsGte(src: seq<char>, p: nat, t: seq<Entry>, kws: Keywords, prev: nat)
    requires SourceOk(src) && TableOk(t, kws) && p <= |src|
    ensures Lex(src, p, t, kws, prev).token.kind != TOKEN_LTE
    ensures At(src, p) == '<' && At(src, p + 1) == '=' ==> Lex(src, p, t, kws, prev).token.kind == TOKEN_GTE
  {
    var r := Lex(src, p, t, kws, prev);
    var q := r.token.start;
    var c := At(src, q);
    if IsDigit(c) {
      ScanLiteral(src, q, t, kws, prev);
    } else if IsWordStart(c) {
      ScanWord(src, q, t, kws, prev);
    } else if c == '>' || c == '<' || c == '=' {
      ScanOperator(src, q, t, kws, prev);
    } else {
      ScanOther(src, q, t, kws, prev);
    }
  }

  /** `Lex` from `p` when `q` is the first character at or after `p` that
      is not white space. */
  lemma LexAt(src: seq<char>, p: nat, q: nat, t: seq<Entry>, kws: Keywords, prev: nat)
    requires SourceOk(src) && TableOk(t, kws) && p <= q <= |src|
    requires AllSpaces(src[p..q]) && !IsSpace(At(src, q))
    ensures Lex(src, p, t, kws, prev) == Scan(src, q, t, kws, prev)
  {
    assert forall k :: p <= k < q ==> src[k] == src[p..q][k - p];
    var s := Lex(src, p, t, kws, prev).token.start;
  }

  predicate AllSpaces(s: seq<char>) { forall k :: 0 <= k < |s| ==> IsSpace(s[k]) }
  predicate AllWordChars(s: seq<char>) { forall k :: 0 <= k < |s| ==> IsWordChar(s[k]) }

  /** The word token spanning exactly `src[q..e]`. */
  lemma ScanWordAt(src: seq<char>, q: nat, e: nat, t: seq<Entry>, kws: Keywords, prev: nat)
    requires SourceOk(src) && TableOk(t, kws) && q < e <= |src| && IsWordStart(src[q])
    requires AllWordChars(src[q..e]) && !IsWordChar(At(src, e))
    ensures NoNul(src[q..e]) && ValidTable(t)
    ensures Scan(src, q, t, kws, prev) ==
      Lexed(Token(WordKind(InternF(t, src[q..e]).1, kws), q, e, InternF(t, src[q..e]).1), e, InternF(t, src[q..e]).0)
  {
    assert forall k :: q <= k < e ==> src[k] == src[q..e][k - q];
    var w := WordEnd(src, q);
  }

  /** The literal token spanning exactly the digits `src[q..e]`. */
  lemma ScanNumberAt(src: seq<char>, q: nat, e: nat, t: seq<Entry>, kws: Keywords, prev: nat)
    requires SourceOk(src) && TableOk(t, kws) && q < e <= |src|
    requires Digits(src, q, e) && !IsDigit(At(src, e))
    ensures Scan(src, q, t, kws, prev) == Lexed(Token(TOKEN_LITERAL, q, e, DigitsValue(src, q, e)), e, t)
  {
    var d := DigitEnd(src, q);
  }

  /** Ten to the `n`. */
  function Pow10(n: nat): (r: nat)
    ensures r >= 1
  {
    if n == 0 then 1 else 10 * Pow10(n - 1)
  }

  /** `n` digits spell a number below 10 to the `n`; so a source whose
      digit runs are at most nine long never overflows `int val`. */
  lemma {:induction false} DigitsValueBound(src: seq<char>, i: nat, j: nat)
    requires i <= j <= |src| && Digits(src, i, j)
    ensures DigitsValue(src, i, j) < Pow10(j - i)
    decreases j - i
  {
    if j > i {
      DigitsValueBound(src, i, j - 1);
      assert Pow10(j - i) == 10 * Pow10(j - 1 - i);
    }
  }

  // ---------------------------------------------------------------------
  // The token stream

  /** The state of the scanner: the source, `stream`, `token`, the intern
      table and the keyword indices. */
  datatype LState = LState(src: seq<char>, pos: nat, token: Token, table: seq<Entry>, kws: Keywords)

  /** The source and table are readable, and the position is past the
      terminator exactly when the current token is the end marker. */
  predicate Good(st: LState) {
    SourceOk(st.src) && TableOk(st.table, st.kws) && st.pos <= |st.src| + 1 &&
    (st.pos == |st.src| + 1 <==> st.token.kind == END_TOKEN)
  }

  /** A state `next_token` may be called in: the position is not past the
      terminator. */
  predicate Readable(st: LState) {
    SourceOk(st.src) && TableOk(st.table, st.kws) && st.pos <= |st.src|
  }

  /** The state after `next_token`. */
  function Next(st: LState): (st': LState)
    requires Readable(st)
    ensures Good(st') && st'.pos > st.pos && st'.src == st.src && st'.kws == st.kws
  {
    var r := Lex(st.src, st.pos, st.table, st.kws, st.token.payload);
    LState(st.src, r.pos, r.token, r.table, st.kws)
  }

  /** Scanning from a white-space character is scanning from the one
      after it; only the payload of the current token matters. */
  lemma NextSkip(st: LState, st': LState)
    requires Readable(st) && IsSpace(At(st.src, st.pos))
    requires st' == LState(st.src, st.pos + 1, st'.token, st.table, st.kws) && st'.token.payload == st.token.payload
    ensures Readable(st') && Next(st') == Next(st)
  {
  }

  /** From any other character, `next_token` scans one token. */
  lemma NextScan(st: LState)
    requires Readable(st) && !IsSpace(At(st.src, st.pos))
    ensures var r := Scan(st.src, st.pos, st.table, st.kws, st.token.payload);
      Next(st) == LState(st.src, r.pos, r.token, r.table, st.kws)
  {
  }

  /** The current token and every token after it, up to and including the
      end marker. */
  function Tokens(st: LState): (ts: seq<Token>)
    requires Good(st)
    ensures |ts| >= 1 && ts[0] == st.token
    decreases |st.src| + 1 - st.pos
  {
    if st.token.kind == END_TOKEN then [st.token] else [st.token] + Tokens(Next(st))
  }

  /** Scanning past a token that is not the end marker drops exactly that
      token from the stream. */
  lemma TokensAdvance(st: LState)
    requires Good(st) && st.token.kind != END_TOKEN
    ensures Readable(st) && Tokens(Next(st)) == Tokens(st)[1..]
  {
    assert Tokens(st) == [st.token] + Tokens(Next(st));
  }

  /** A token list ending in the end marker and holding no other. */
  predicate Terminated(ts: seq<Token>) {
    |ts| >= 1 && ts[|ts| - 1].kind == END_TOKEN && forall k :: 0 <= k < |ts| - 1 ==> ts[k].kind != END_TOKEN
  }

  /** The stream of every state ends at the end marker, which it meets
      once; so the scanner, called until that token, terminates. */
  lemma {:induction false} TokensTerminated(st: LState)
    requires Good(st)
    ensures Terminated(Tokens(st))
    decreases |st.src| + 1 - st.pos
  {
    if st.token.kind != END_TOKEN {
      var st' := Next(st);
      TokensTerminated(st');
      assert Tokens(st) == [st.token] + Tokens(st');
      TerminatedCons(st.token, Tokens(st'));
    }
  }

  /** A token other than the end marker in front of a terminated list. */
  lemma TerminatedCons(t: Token, ts: seq<Token>)
    requires t.kind != END_TOKEN && Terminated(ts)
    ensures Terminated([t] + ts)
  {
    assert forall k :: 1 <= k < |ts| + 1 ==> ([t] + ts)[k] == ts[k - 1];
  }

  /** What `lex_init` leaves: "let", "while" and "if" interned in turn,
      and the indices returned for them. The table then holds each keyword
      at its index. */
  function LexInitF(t0: seq<Entry>): (r: (seq<Entry>, Keywords))
    requires ValidTable(t0)
    ensures TableOk(r.0, r.1) && t0 <= r.0
  {
    InternPreserves(t0, "let");
    var (t1, l) := InternF(t0, "let");
    InternPreserves(t1, "while");
    var (t2, w) := InternF(t1, "while");
    InternPreserves(t2, "if");
    var (t3, i) := InternF(t2, "if");
    assert t3[l] == t2[l] == t1[l] && t3[w] == t2[w];
    (t3, Keywords(l, w, i))
  }

  // ---------------------------------------------------------------------
  // The scanner's globals

  /** Error message of `fatal_expected`; the token names it formats are
      not modelled. */
  const MSG_EXPECTED: string := "Expected token"

  /** `lex_init`: intern "let", "while" and "if", in that order, and
      keep the entries returned. */
  method LexInit(t: InternTable) returns (kws: Keywords)
    requires t.Valid()
    modifies t
    ensures t.Valid() && (t.entries, kws) == LexInitF(old(t.entries))
  {
    StrLenOfText("let");
    StrLenOfText("while");
    StrLenOfText("if");
    ghost var t0 := t.entries;
    var l := t.Intern("let" + [NUL]);
    var w := t.Intern("while" + [NUL]);
    var i := t.Intern("if" + [NUL]);
    kws := Keywords(l, w, i);
    assert (t.entries, kws) == LexInitF(t0);
  }

  class Lexer {
    /** `str_interns`, shared with every other user of the interner. */
    var table: InternTable
    var kws: Keywords
    var src: seq<char>
    /** `stream`, as an index into `src`. */
    var pos: nat
    var token: Token

    ghost predicate Valid()
      reads this, table
    {
      Good(State())
    }

    ghost function State(): LState
      reads this, table
    {
      LState(src, pos, token, table.entries, kws)
    }

    /** The zero-initialised globals and `lex_init`: "let", "while" and
        "if" are interned, in that order, into the shared table. No stream
        is set yet: the position is past the end of an empty source. */
    constructor (t: InternTable)
      requires t.Valid()
      modifies t
      ensures Valid() && table == t && src == [] && pos == 1 && token == Token(END_TOKEN, 0, 0, 0)
      ensures (t.entries, kws) == LexInitF(old(t.entries))
    {
      var k := LexInit(t);
      kws := k;
      table := t;
      src := [];
      pos := 1;
      token := Token(END_TOKEN, 0, 0, 0);
    }

    /** `init_stream(source)`: read from the start of `source` and scan the
        first token. */
    method InitStream(source: seq<char>)
      requires Valid() && SourceOk(source)
      modifies this`src, this`pos, this`token, table
      ensures Valid() && table == old(table) && kws == old(kws)
      ensures State() == Next(old(State()).(src := source, pos := 0))
    {
      src := source;
      pos := 0;
      NextToken();
    }

    /** `next_token` / `_next_token`: skip white space, recursing once per
        white-space character as the C does, then scan one token. */
    method NextToken()
      requires Readable(State())
      modifies this`pos, this`token, table
      ensures Valid() && table == old(table) && kws == old(kws) && src == old(src)
      ensures State() == Next(old(State()))
      decreases |src| - pos
    {
      var c := At(src, pos);
      if c == SPACE || c == TAB || c == NEWLINE {
        ghost var st := State();
        token := token.(start := pos);
        NextSkip(st, LState(src, pos + 1, token, table.entries, kws));
        pos := pos + 1;
        NextToken();
      } else {
        LexToken();
      }
    }

    /** `_next_token` at a character that is not white space: mark the
        start, scan the token, mark the end. */
    method LexToken()
      requires Readable(State()) && !IsSpace(At(src, pos))
      modifies this`pos, this`token, table
      ensures Valid() && table == old(table) && kws == old(kws) && src == old(src)
      ensures State() == Next(old(State()))
    {
      ghost var st := State();
      ghost var r := Scan(src, pos, table.entries, kws, token.payload);
      NextScan(st);
      token := token.(start := pos);
      ScanToken();
      token := token.(end := pos);
      assert token == r.token;
    }

    /** The body of `_next_token` at a character that is not white space. */
    method ScanToken()
      requires Readable(State()) && !IsSpace(At(src, pos))
      modifies this`pos, this`token, table
      ensures table == old(table) && kws == old(kws) && src == old(src)
      ensures var r := Scan(src, old(pos), old(table.entries), kws, old(token.payload));
        table.entries == r.table && pos == r.pos && token == r.token.(start := old(token.start), end := old(token.end))
    {
      var c := At(src, pos);
      if IsDigit(c) {
        ScanNumber();
      } else if IsWordStart(c) {
        ScanName();
      } else if c == '>' || c == '<' || c == '=' {
        ScanOperatorToken();
      } else {
        token := token.(kind := c as int);
        pos := pos + 1;
      }
    }

    /** The literal branch of `_next_token`: accumulate the digits into
        `val`, which never exceeds `INT_MAX`. */
    method ScanNumber()
      requires Readable(State()) && IsDigit(At(src, pos))
      modifies this`pos, this`token
      ensures pos == DigitEnd(src, old(pos))
      ensures token == old(token).(kind := TOKEN_LITERAL, payload := DigitsValue(src, old(pos), pos))
    {
      token := token.(kind := TOKEN_LITERAL);
      var start := pos;
      var val := 0;
      while IsDigit(At(src, pos))
        modifies this`pos
        invariant start <= pos <= |src| && Digits(src, start, pos)
        invariant DigitEnd(src, pos) == DigitEnd(src, start)
        invariant val == DigitsValue(src, start, pos) <= INT_MAX
        decreases |src| - pos
      {
        assert DigitsValue(src, start, pos + 1) <= INT_MAX;
        val := val * 10;
        val := val + (src[pos] as int - '0' as int);
        pos := pos + 1;
      }
      token := token.(payload := val);
    }

    /** The identifier branch of `_next_token`: scan the word, intern it
        and turn the three keyword entries into their token types. */
    method ScanName()
      requires Readable(State()) && IsWordStart(At(src, pos))
      modifies this`pos, this`token, table
      ensures pos == WordEnd(src, old(pos))
      ensures (table.entries, token.payload) == InternF(old(table.entries), src[old(pos)..pos])
      ensures token == old(token).(kind := WordKind(token.payload, kws), payload := token.payload)
    {
      token := token.(kind := TOKEN_NAME);
      var start := pos;
      while IsWordChar(At(src, pos))
        modifies this`pos
        invariant start <= pos <= |src| && WordEnd(src, pos) == WordEnd(src, start)
        decreases |src| - pos
      {
        pos := pos + 1;
      }
      assert NoNul(src[start..pos]);
      var id := table.InternRange(src, start, pos);
      token := token.(payload := id);
      if id == kws.letKw {
        token := token.(kind := TOKEN_LET);
      } else if id == kws.whileKw {
        token := token.(kind := TOKEN_WHILE);
      } else if id == kws.ifKw {
        token := token.(kind := TOKEN_IF);
      }
    }

    /** The `>`, `<` and `=` branches of `_next_token`: a following `=`
        makes a two-character token. */
    method ScanOperatorToken()
      requires pos <= |src| && (At(src, pos) == '>' || At(src, pos) == '<' || At(src, pos) == '=')
      modifies this`pos, this`token
      ensures var two := At(src, old(pos) + 1) == '=';
        var c := At(src, old(pos));
        pos == old(pos) + (if two then 2 else 1) &&
        token == old(token).(kind := if !two then c as int else if c == '=' then TOKEN_EQ else TOKEN_GTE)
    {
      var c := At(src, pos);
      pos := pos + 1;
      if c == '>' {
        if At(src, pos) == '=' {
          pos := pos + 1;
          token := token.(kind := TOKEN_GTE);
        } else {
          token := token.(kind := '>' as int);
        }
      } else if c == '<' {
        if At(src, pos) == '=' {
          pos := pos + 1;
          token := token.(kind := TOKEN_GTE);
        } else {
          token := token.(kind := '<' as int);
        }
      } else {
        if At(src, pos) == '=' {
          pos := pos + 1;
          token := token.(kind := TOKEN_EQ);
        } else {
          token := token.(kind := '=' as int);
        }
      }
    }

    /** `is_token(type)`: whether the current token, the head of the
        stream, has that type. */
    predicate IsToken(k: int)
      reads this, table
      requires Valid()
      ensures IsToken(k) <==> Tokens(State())[0].kind == k
    {
      token.kind == k
    }

    /** `is_token_name(name)`: the head of the stream is the identifier
        interned at `id`. */
    predicate IsTokenName(id: nat)
      reads this, table
      requires Valid()
      ensures IsTokenName(id) <==> Tokens(State())[0].kind == TOKEN_NAME && Tokens(State())[0].payload == id
    {
      token.kind == TOKEN_NAME && token.payload == id
    }

    /** `match_token(type)`: on a match, advance past the head of the
        stream and report true; otherwise change nothing and report false. */
    method MatchToken(k: int) returns (b: bool)
      requires Valid() && (token.kind == k ==> k != END_TOKEN)
      modifies this`pos, this`token, table
      ensures Valid() && table == old(table) && kws == old(kws)
      ensures b <==> old(token.kind) == k
      ensures b ==> State() == Next(old(State())) && Tokens(State()) == old(Tokens(State()))[1..]
      ensures !b ==> State() == old(State())
    {
      if IsToken(k) {
        NextToken();
        return true;
      }
      return false;
    }

    /** `expect_token(type)`: like a match, but a mismatch is fatal. */
    method ExpectToken(k: int) returns (r: Result<bool>)
      requires Valid() && (token.kind == k ==> k != END_TOKEN)
      modifies this`pos, this`token, table
      ensures Valid() && table == old(table) && kws == old(kws)
      ensures r.Ok? <==> old(token.kind) == k
      ensures r.Ok? ==> r.value && State() == Next(old(State())) && Tokens(State()) == old(Tokens(State()))[1..]
      ensures r.Err? ==> r.msg == MSG_EXPECTED && State() == old(State())
    {
      if IsToken(k) {
        NextToken();
        return Ok(true);
      }
      return Err(MSG_EXPECTED);
    }

    /** `check_token(type)`: fatal unless the head of the stream has that
        type; it never advances. */
    method CheckToken(k: int) returns (r: Result<bool>)
      requires Valid()
      ensures r.Ok? <==> Tokens(State())[0].kind == k
      ensures r == Ok(true) || r == Err(MSG_EXPECTED)
    {
      if IsToken(k) {
        return Ok(true);
      }
      return Err(MSG_EXPECTED);
    }
  }
}
