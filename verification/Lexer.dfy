/** The shell's lexical analyzer (shell/lexan.c). */
module Lexer {
  import opened Common

  const SHELL_BUFLEN := 160
  const SHELL_MAXTOK := 32

  // ---------- characters (include/shell.h) ----------

  predicate IsEndOfLine(c: char) { c == '\0' || c == '\r' || c == '\n' }
  predicate IsQuote(c: char) { c == '\"' || c == '\'' }
  predicate IsOtherSpecial(c: char) { c == '<' || c == '>' || c == '&' }
  predicate IsWhitespace(c: char) { c == ' ' || c == '\t' }
  predicate IsPlain(c: char) { !IsEndOfLine(c) && !IsQuote(c) && !IsOtherSpecial(c) && !IsWhitespace(c) }

  // ---------- what lexan does, as functions ----------

  // `line` is the caller's buffer and n the number of characters read into it;
  // lexan also looks at line[n], whatever was left there, so the buffer is
  // longer than n.

  function SkipWhite(line: string, n: nat, i: nat): (j: nat)
    requires i <= n < |line|
    ensures i <= j <= n && AllWhite(line, i, j) && (j < n ==> !IsWhitespace(line[j]))
    decreases n - i
  {
    if i < n && IsWhitespace(line[i]) then SkipWhite(line, n, i + 1) else i
  }

  function QuoteEnd(line: string, n: nat, quote: char, i: nat): (e: nat)
    requires i <= n < |line|
    ensures i <= e <= n && NoneOf(line, quote, i, e)
    ensures e == n || line[e] == quote || IsEndOfLine(line[e])
    decreases n - i
  {
    if line[i] != quote && !IsEndOfLine(line[i]) && i < n then QuoteEnd(line, n, quote, i + 1) else i
  }

  function WordEnd(line: string, n: nat, i: nat): (e: nat)
    requires i <= n < |line|
    ensures i <= e <= n && AllPlain(line, i, e)
    ensures e == n || !IsPlain(line[e])
    decreases n - i
  {
    if IsPlain(line[i]) && i < n then WordEnd(line, n, i + 1) else i
  }

  /** A token and where it ends; or no more tokens; or a syntax error. */
  datatype Lexeme = Token(text: string, after: nat) | Done | Bad

  /** The token that begins at j. */
  function Scan(line: string, n: nat, j: nat): (r: Lexeme)
    requires j < n < |line|
    ensures !r.Done?
    ensures r.Token? ==> j < r.after <= n + 1 && r.text == line[j..r.after]
  {
    if IsQuote(line[j]) then
      var e := QuoteEnd(line, n, line[j], j + 1);
      if line[e] == line[j] then Token(line[j..e + 1], e + 1) else Bad
    else if IsOtherSpecial(line[j]) then Token([line[j]], j + 1)
    else
      var e := WordEnd(line, n, j + 1);
      if e >= n then Bad else Token(line[j..e], e)
  }

  function NextToken(line: string, n: nat, i: nat): (r: Lexeme)
    requires i < n < |line|
    ensures r.Token? ==> i < r.after <= n + 1
  {
    var j := SkipWhite(line, n, i);
    if IsEndOfLine(line[j]) || j >= n then Done else Scan(line, n, j)
  }

  /** The tokens from position i on, when k were found before it; None for a syntax error. */
  function Lex(line: string, n: nat, i: nat, k: nat): Option<seq<string>>
    requires n < |line|
    decreases n + 1 - i
  {
    if i >= n || k >= SHELL_MAXTOK then Some([])
    else
      match NextToken(line, n, i)
      case Done => Some([])
      case Bad => None
      case Token(text, after) => Prepend([text], Lex(line, n, after, k + 1))
  }

  function Prepend(ts: seq<string>, rest: Option<seq<string>>): Option<seq<string>> {
    if rest.None? then None else Some(ts + rest.value)
  }

  // ---------- the language, without an algorithm ----------

  ghost predicate AllWhite(line: string, i: int, j: int)
    requires 0 <= i <= j <= |line|
  {
    forall x :: i <= x < j ==> IsWhitespace(line[x])
  }

  ghost predicate AllPlain(line: string, i: int, j: int)
    requires 0 <= i <= j <= |line|
  {
    forall x :: i <= x < j ==> IsPlain(line[x])
  }

  ghost predicate NoneOf(line: string, quote: char, i: int, j: int)
    requires 0 <= i <= j <= |line|
  {
    forall x :: i <= x < j ==> line[x] != quote && !IsEndOfLine(line[x])
  }

  ghost predicate IsWord(t: string) { t != [] && AllPlain(t, 0, |t|) }

  ghost predicate IsSpecial(t: string) { |t| == 1 && IsOtherSpecial(t[0]) }

  ghost predicate IsQuoted(t: string) {
    |t| >= 2 && IsQuote(t[0]) && t[|t| - 1] == t[0] && NoneOf(t, t[0], 1, |t| - 1)
  }

  ghost predicate IsToken(t: string) { IsWord(t) || IsSpecial(t) || IsQuoted(t) }

  /**
   Token t stands at j.  A word is as long as can be and ends before position n;
   a closing quote may be the left-over character at n.
   */
  ghost predicate TokenAt(line: string, n: nat, j: nat, t: string)
    requires n < |line|
  {
    && IsToken(t) && j < n && j + |t| <= n + 1 && line[j..j + |t|] == t
    && (IsWord(t) ==> j + |t| < n && !IsPlain(line[j + |t|]))
  }

  /** From position i on, the line is exactly the tokens ts with white space between them. */
  ghost predicate Splits(line: string, n: nat, i: nat, k: nat, ts: seq<string>)
    requires n < |line|
    decreases |ts|
  {
    if i >= n || k >= SHELL_MAXTOK then ts == []
    else if ts == [] then
      exists j :: i <= j <= n && AllWhite(line, i, j) && (j == n || IsEndOfLine(line[j]))
    else
      exists j :: i <= j < n && AllWhite(line, i, j) && TokenAt(line, n, j, ts[0]) && Splits(line, n, j + |ts[0]|, k + 1, ts[1..])
  }

  // ---------- lexan accepts exactly that language ----------

  lemma SkipWhiteUnique(line: string, n: nat, i: nat, j: nat)
    requires i <= j <= n < |line| && AllWhite(line, i, j) && (j < n ==> !IsWhitespace(line[j]))
    ensures SkipWhite(line, n, i) == j
  {
    var j' := SkipWhite(line, n, i);
    assert !(j' < j) && !(j < j');
  }

  /** What NextToken finds does stand there. */
  lemma NextTokenStands(line: string, n: nat, i: nat)
    requires i < n < |line| && NextToken(line, n, i).Token?
    ensures TokenAt(line, n, SkipWhite(line, n, i), NextToken(line, n, i).text)
    ensures NextToken(line, n, i).after == SkipWhite(line, n, i) + |NextToken(line, n, i).text|
  {
    var j := SkipWhite(line, n, i);
    var t := NextToken(line, n, i).text;
    assert t == line[j..j + |t|];
    assert forall x :: 0 <= x < |t| ==> t[x] == line[j + x];
  }

  lemma QuotedFound(line: string, n: nat, j: nat, t: string)
    requires n < |line| && TokenAt(line, n, j, t) && IsQuoted(t)
    ensures QuoteEnd(line, n, t[0], j + 1) == j + |t| - 1 && line[j + |t| - 1] == t[0]
  {
    var e := QuoteEnd(line, n, t[0], j + 1);
    assert forall x :: 0 <= x < |t| ==> t[x] == line[j + x];
    assert line[j + |t| - 1] == t[|t| - 1];
  }

  lemma WordFound(line: string, n: nat, j: nat, t: string)
    requires n < |line| && TokenAt(line, n, j, t) && IsWord(t)
    ensures WordEnd(line, n, j + 1) == j + |t|
  {
    assert forall x :: 0 <= x < |t| ==> t[x] == line[j + x];
  }

  /** A token that stands behind white space is the one NextToken finds. */
  lemma StandingIsNext(line: string, n: nat, i: nat, j: nat, t: string)
    requires i <= j < n < |line| && AllWhite(line, i, j) && TokenAt(line, n, j, t)
    ensures NextToken(line, n, i) == Token(t, j + |t|)
  {
    assert t[0] == line[j];
    SkipWhiteUnique(line, n, i, j);
    if IsQuoted(t) {
      QuotedFound(line, n, j, t);
    } else if IsWord(t) {
      WordFound(line, n, j, t);
    }
  }

  lemma {:induction false} LexSplits(line: string, n: nat, i: nat, k: nat)
    requires n < |line|
    ensures var r := Lex(line, n, i, k); r.Some? ==> Splits(line, n, i, k, r.value)
    decreases n + 1 - i
  {
    hide TokenAt, SkipWhite, Scan, IsEndOfLine;
    if i < n && k < SHELL_MAXTOK {
      var j := SkipWhite(line, n, i);
      match NextToken(line, n, i)
      case Token(text, after) =>
        NextTokenStands(line, n, i);
        LexSplits(line, n, after, k + 1);
        var rest := Lex(line, n, after, k + 1);
        if rest.Some? { assert ([text] + rest.value)[1..] == rest.value; }
      case _ =>
    }
  }

  lemma {:induction false} SplitsLex(line: string, n: nat, i: nat, k: nat, ts: seq<string>)
    requires n < |line| && Splits(line, n, i, k, ts)
    ensures Lex(line, n, i, k) == Some(ts)
    decreases |ts|
  {
    hide TokenAt, AllWhite;
    if i < n && k < SHELL_MAXTOK {
      if ts == [] {
        var j :| i <= j <= n && AllWhite(line, i, j) && (j == n || IsEndOfLine(line[j]));
        SkipWhiteUnique(line, n, i, j);
      } else {
        var j :| i <= j < n && AllWhite(line, i, j) && TokenAt(line, n, j, ts[0]) &&
          Splits(line, n, j + |ts[0]|, k + 1, ts[1..]);
        StandingIsNext(line, n, i, j, ts[0]);
        SplitsLex(line, n, j + |ts[0]|, k + 1, ts[1..]);
        assert [ts[0]] + ts[1..] == ts;
      }
    }
  }

  /** lexan returns tokens ts exactly for the lines that split into ts; so it reports an error exactly when no split exists. */
  lemma LexExact(line: string, n: nat, ts: seq<string>)
    requires n < |line|
    ensures Lex(line, n, 0, 0) == Some(ts) <==> Splits(line, n, 0, 0, ts)
  {
    LexSplits(line, n, 0, 0);
    if Splits(line, n, 0, 0, ts) { SplitsLex(line, n, 0, 0, ts); }
  }

  lemma {:induction false} SplitsTokens(line: string, n: nat, i: nat, k: nat, ts: seq<string>)
    requires n < |line| && Splits(line, n, i, k, ts) && k <= SHELL_MAXTOK
    ensures k + |ts| <= SHELL_MAXTOK && forall x :: 0 <= x < |ts| ==> IsToken(ts[x])
    decreases |ts|
  {
    if ts != [] {
      var j :| i <= j < n && AllWhite(line, i, j) && TokenAt(line, n, j, ts[0]) && Splits(line, n, j + |ts[0]|, k + 1, ts[1..]);
      SplitsTokens(line, n, j + |ts[0]|, k + 1, ts[1..]);
      assert forall x :: 1 <= x < |ts| ==> ts[x] == ts[1..][x - 1];
    }
  }

  // ---------- the round trip ----------

  /** The tokens with single spaces between them and a newline behind. */
  function Joined(ts: seq<string>): string
    decreases |ts|, 0
  {
    if ts == [] then "\n" else ts[0] + Behind(ts[1..])
  }

  function Behind(ts: seq<string>): string
    decreases |ts|, 1
  {
    if ts == [] then "\n" else " " + Joined(ts)
  }

  /** The first token of a joined line, and what is behind it. */
  lemma JoinedParts(line: string, n: nat, j: nat, ts: seq<string>)
    requires j <= n < |line| && line[j..n] == Joined(ts) && ts != []
    ensures var j' := j + |ts[0]|;
      && j' < n && line[j..j'] == ts[0] && line[j'] == (if |ts| == 1 then '\n' else ' ')
      && (|ts| > 1 ==> line[j' + 1..n] == Joined(ts[1..]))
  {
    hide Joined;
    var j', b := j + |ts[0]|, Behind(ts[1..]);
    assert Joined(ts) == ts[0] + b by { JoinedIs(ts); }
    assert line[j..n][|ts[0]|..] == b;
    assert line[j..n][..|ts[0]|] == ts[0];
    assert line[j'] == b[0];
    assert line[j' + 1..n] == b[1..];
  }

  lemma JoinedIs(ts: seq<string>)
    requires ts != []
    ensures Joined(ts) == ts[0] + Behind(ts[1..])
  {
  }

  lemma {:induction false} JoinedSplits(line: string, n: nat, i: nat, w: nat, k: nat, ts: seq<string>)
    requires i <= i + w <= n < |line| && AllWhite(line, i, i + w) && line[i + w..n] == Joined(ts)
    requires k + |ts| <= SHELL_MAXTOK && forall x :: 0 <= x < |ts| ==> IsToken(ts[x])
    ensures Splits(line, n, i, k, ts)
    decreases |ts|
  {
    hide IsToken, IsWord;
    var j := i + w;
    if ts == [] {
      assert line[j] == line[j..n][0];
    } else {
      JoinedParts(line, n, j, ts);
      var j' := j + |ts[0]|;
      assert IsToken(ts[0]) && TokenAt(line, n, j, ts[0]);
      if |ts| == 1 {
        assert AllWhite(line, j', j');
      } else {
        JoinedSplits(line, n, j', 1, k + 1, ts[1..]);
      }
      assert Splits(line, n, j', k + 1, ts[1..]);
    }
  }

  /**
   Round trip: joining the tokens of any accepted line with single spaces and a
   newline gives a line that lexan splits into the same tokens, whatever
   character is left behind it in the buffer.
   */
  lemma RoundTrip(line: string, n: nat, ts: seq<string>, stale: char)
    requires n < |line| && Lex(line, n, 0, 0) == Some(ts)
    ensures Lex(Joined(ts) + [stale], |Joined(ts)|, 0, 0) == Some(ts)
  {
    LexSplits(line, n, 0, 0);
    SplitsTokens(line, n, 0, 0, ts);
    var line' := Joined(ts) + [stale];
    assert line'[0..|Joined(ts)|] == Joined(ts);
    JoinedSplits(line', |Joined(ts)|, 0, 0, 0, ts);
    SplitsLex(line', |Joined(ts)|, 0, 0, ts);
  }

  // ---------- the token buffer ----------

  /** The tokens, each with its terminating NUL. */
  function Packed(ts: seq<string>): string {
    if ts == [] then [] else Packed(ts[..|ts| - 1]) + ts[|ts| - 1] + ['\0']
  }

  /** A C string: the characters from p up to the first NUL are exactly t. */
  ghost predicate CString(buf: string, p: int, t: string) {
    && 0 <= p && p + |t| < |buf| && buf[p..p + |t|] == t && buf[p + |t|] == '\0'
    && '\0' !in t
  }

  lemma {:induction false} PackedPrefix(ts: seq<string>, k: nat)
    requires k <= |ts|
    ensures Packed(ts[..k]) <= Packed(ts)
  {
    if k == |ts| {
      assert ts[..k] == ts;
    } else {
      var init := ts[..|ts| - 1];
      PackedPrefix(init, k);
      assert init[..k] == ts[..k];
    }
  }

  /** Every token can be read back as a C string where its pointer points. */
  lemma PackedStrings(ts: seq<string>, buf: string, k: nat)
    requires k < |ts| && Packed(ts) <= buf && IsToken(ts[k])
    ensures CString(buf, |Packed(ts[..k])|, ts[k])
  {
    PackedPrefix(ts, k + 1);
    var upto := ts[..k + 1];
    assert upto[..k] == ts[..k];
    var p := |Packed(ts[..k])|;
    assert Packed(upto) == Packed(ts[..k]) + ts[k] + ['\0'];
    assert buf[p..p + |ts[k]|] == Packed(upto)[p..p + |ts[k]|] == ts[k];
    assert buf[p + |ts[k]|] == Packed(upto)[p + |ts[k]|];
    TokenHasNoNul(ts[k]);
  }

  lemma TokenHasNoNul(t: string)
    requires IsToken(t)
    ensures '\0' !in t
  {
    if '\0' in t {
      var x :| 0 <= x < |t| && t[x] == '\0';
      assert IsEndOfLine(t[x]);
    }
  }

  lemma PrependPrepend(a: seq<string>, t: string, rest: Option<seq<string>>)
    ensures Prepend(a, Prepend([t], rest)) == Prepend(a + [t], rest)
  {
    if rest.Some? { assert a + ([t] + rest.value) == a + [t] + rest.value; }
  }

  /** One turn of each of the copying loops. */
  lemma ScanStep(line: string, n: nat, quote: char, i: nat)
    requires i <= n < |line|
    ensures QuoteEnd(line, n, quote, i) ==
            if line[i] != quote && !IsEndOfLine(line[i]) && i < n then QuoteEnd(line, n, quote, i + 1) else i
    ensures WordEnd(line, n, i) == if IsPlain(line[i]) && i < n then WordEnd(line, n, i + 1) else i
  {
  }

  /** `was` with the characters from j to i of the line written over it at p. */
  ghost function Overwritten(was: string, p: int, line: string, j: int, i: int): string
    requires 0 <= j <= i <= |line| && 0 <= p && p + (i - j) <= |was|
  {
    was[..p] + line[j..i] + was[p + (i - j)..]
  }

  lemma OverwrittenStep(was: string, p: int, line: string, j: int, i: int)
    requires 0 <= j <= i < |line| && 0 <= p && p + (i - j) < |was|
    ensures Overwritten(was, p, line, j, i)[p + (i - j) := line[i]] == Overwritten(was, p, line, j, i + 1)
    ensures Overwritten(was, p, line, j, j) == was
  {
    assert line[j..i + 1] == line[j..i] + [line[i]];
  }

  method SkipBlanks(line: string, linelen: nat, start: nat) returns (i: nat)
    requires start <= linelen < |line|
    ensures i == SkipWhite(line, linelen, start)
  {
    hide IsWhitespace;
    i := start;
    while IsWhitespace(line[i]) && i < linelen
      invariant start <= i <= linelen && SkipWhite(line, linelen, start) == SkipWhite(line, linelen, i)
    {
      i := i + 1;
    }
  }

  /** The part of lexan that copies the token beginning at j; on an error, too, only what was scanned is written. */
  method CopyToken(line: string, linelen: nat, j: nat, tokbuf: array<char>, p: nat) returns (ok: bool, i: nat)
    requires j < linelen < |line| && p + (linelen + 1 - j) <= tokbuf.Length
    modifies tokbuf
    ensures j <= i <= linelen + 1 && tokbuf[..] == Overwritten(old(tokbuf[..]), p, line, j, i)
    ensures ok == Scan(line, linelen, j).Token?
    ensures ok ==> i == Scan(line, linelen, j).after
  {
    hide SkipWhite, QuoteEnd, WordEnd, IsEndOfLine, IsQuote, IsOtherSpecial, IsWhitespace, Overwritten;
    ghost var was := tokbuf[..];
    var quote := line[j];
    OverwrittenStep(was, p, line, j, j);
    tokbuf[p] := line[j];
    i := j + 1;
    if IsQuote(quote) {
      while quote != line[i] && !IsEndOfLine(line[i]) && i < linelen
        invariant j < i <= linelen && tokbuf[..] == Overwritten(was, p, line, j, i)
        invariant QuoteEnd(line, linelen, quote, j + 1) == QuoteEnd(line, linelen, quote, i)
        decreases linelen - i
      {
        ScanStep(line, linelen, quote, i);
        OverwrittenStep(was, p, line, j, i);
        tokbuf[p + (i - j)] := line[i];
        i := i + 1;
      }
      ScanStep(line, linelen, quote, i);
      if quote != line[i] { return false, i; }
      OverwrittenStep(was, p, line, j, i);
      tokbuf[p + (i - j)] := line[i];
      i := i + 1;
    } else if !IsOtherSpecial(quote) {
      while !IsEndOfLine(line[i]) && !IsQuote(line[i]) && !IsOtherSpecial(line[i]) && !IsWhitespace(line[i]) && i < linelen
        invariant j < i <= linelen && tokbuf[..] == Overwritten(was, p, line, j, i)
        invariant WordEnd(line, linelen, j + 1) == WordEnd(line, linelen, i)
      {
        ScanStep(line, linelen, quote, i);
        OverwrittenStep(was, p, line, j, i);
        tokbuf[p + (i - j)] := line[i];
        i := i + 1;
      }
      ScanStep(line, linelen, quote, i);
      if i >= linelen { return false, i; }
    }
    ok := true;
  }

  /** The buffer starts with `content`; what is behind it is as it was. */
  ghost predicate Holds(buf: string, was: string, content: string) {
    |buf| == |was| && content <= buf && buf[|content|..] == was[|content|..]
  }

  lemma HoldsGives(buf: string, was: string, content: string)
    requires Holds(buf, was, content)
    ensures |buf| == |was| && content <= buf && buf[|content|..] == was[|content|..]
  {
  }

  /** Writing one more token and its NUL. */
  lemma HoldsToken(buf: string, was: string, ts: seq<string>, line: string, j: int, i: int)
    requires Holds(buf, was, Packed(ts)) && 0 <= j <= i <= |line| && |Packed(ts)| + (i - j) < |was|
    ensures var p := |Packed(ts)|; var buf' := Overwritten(buf, p, line, j, i);
      && |buf'| == |buf| && Holds(buf', was, Packed(ts) + line[j..i])
      && Holds(buf'[p + (i - j) := '\0'], was, Packed(ts + [line[j..i]]))
      && |Packed(ts + [line[j..i]])| == p + (i - j) + 1
  {
    var ts' := ts + [line[j..i]];
    assert ts'[..|ts'| - 1] == ts;
    assert Packed(ts') == Packed(ts) + line[j..i] + ['\0'];
  }

  /**
   lexan itself.  Its token buffer needs linelen + 1 + SHELL_MAXTOK bytes;
   `used` is how many it wrote, and the rest of the buffer is untouched.
   */
  method Lexan(line: string, linelen: nat, tokbuf: array<char>, tok: array<int>) returns (ntok: int, ghost used: nat)
    requires linelen < |line|
    requires tokbuf.Length >= linelen + 1 + SHELL_MAXTOK && tok.Length >= SHELL_MAXTOK
    modifies tokbuf, tok
    ensures ntok == SYSERR <==> Lex(line, linelen, 0, 0).None?
    ensures ntok != SYSERR ==>
              && Lex(line, linelen, 0, 0).Some?
              && var ts := Lex(line, linelen, 0, 0).value;
              && ntok == |ts| <= SHELL_MAXTOK && used <= linelen + 1 + ntok
              && tokbuf[..used] == Packed(ts)
              && forall k :: 0 <= k < ntok ==> CString(tokbuf[..], tok[k], ts[k])
    ensures used <= linelen + 1 + SHELL_MAXTOK && tokbuf[used..] == old(tokbuf[used..])
  {
    hide Lex, Scan, SkipWhite, Packed, IsEndOfLine, IsWhitespace, CString, Overwritten, Holds, Prepend;
    ntok := 0;
    var i: nat, p: nat := 0, 0;
    ghost var ts: seq<string> := [];
    ghost var was := tokbuf[..];
    LexStart(line, linelen);
    while i < linelen && ntok < SHELL_MAXTOK
      invariant 0 <= i <= linelen + 1 && 0 <= ntok == |ts| <= SHELL_MAXTOK && p <= i + ntok
      invariant Lex(line, linelen, 0, 0) == Prepend(ts, Lex(line, linelen, i, ntok))
      invariant Holds(tokbuf[..], was, Packed(ts)) && |Packed(ts)| == p
      invariant forall k :: 0 <= k < ntok ==> tok[k] == |Packed(ts[..k])|
      decreases linelen + 1 - i
    {
      ghost var before := tokbuf[..];
      LexStep(line, linelen, i, ntok);
      i := SkipBlanks(line, linelen, i);
      if IsEndOfLine(line[i]) || i >= linelen {
        PrependNothing(ts);
        HoldsGives(tokbuf[..], was, Packed(ts));
        LexedStrings(line, linelen, ts, tokbuf[..]);
        return ntok, p;
      }
      tok[ntok] := p;
      var j := i;
      var ok;
      assert tokbuf[..] == before;
      ok, i := CopyToken(line, linelen, j, tokbuf, p);
      HoldsToken(before, was, ts, line, j, i);
      if !ok {
        PrependNothing(ts);
        HoldsGives(tokbuf[..], was, Packed(ts) + line[j..i]);
        return SYSERR, p + (i - j);
      }
      ghost var text := line[j..i];
      PrependPrepend(ts, text, Lex(line, linelen, i, ntok + 1));
      assert forall k :: 0 <= k <= ntok ==> (ts + [text])[..k] == ts[..k];
      ts := ts + [text];
      p := p + (i - j);
      tokbuf[p] := '\0';
      p := p + 1;
      ntok := ntok + 1;
    }
    LexFinish(line, linelen, i, ntok);
    PrependNothing(ts);
    HoldsGives(tokbuf[..], was, Packed(ts));
    LexedStrings(line, linelen, ts, tokbuf[..]);
    return ntok, p;
  }

  lemma LexStart(line: string, n: nat)
    requires n < |line|
    ensures Lex(line, n, 0, 0) == Prepend([], Lex(line, n, 0, 0)) && Packed([]) == "" && forall buf :: Holds(buf, buf, "")
  {
    var r := Lex(line, n, 0, 0);
    if r.Some? { assert [] + r.value == r.value; }
  }

  lemma LexStep(line: string, n: nat, i: nat, k: nat)
    requires i < n < |line| && k < SHELL_MAXTOK
    ensures var j := SkipWhite(line, n, i);
      if IsEndOfLine(line[j]) || j >= n then Lex(line, n, i, k) == Some([])
      else if Scan(line, n, j).Bad? then Lex(line, n, i, k) == None
      else Lex(line, n, i, k) == Prepend([Scan(line, n, j).text], Lex(line, n, Scan(line, n, j).after, k + 1))
  {
  }

  lemma PrependNothing(ts: seq<string>)
    ensures Prepend(ts, Some([])) == Some(ts) && Prepend(ts, None) == None
  {
    assert ts + [] == ts;
  }

  lemma LexFinish(line: string, n: nat, i: nat, k: nat)
    requires n < |line| && (i >= n || k >= SHELL_MAXTOK)
    ensures Lex(line, n, i, k) == Some([])
  {
  }

  lemma LexedStrings(line: string, n: nat, ts: seq<string>, buf: string)
    requires n < |line| && Lex(line, n, 0, 0) == Some(ts) && Packed(ts) <= buf
    ensures forall k :: 0 <= k < |ts| ==> CString(buf, |Packed(ts[..k])|, ts[k])
  {
    hide Lex, Packed, CString;
    LexSplits(line, n, 0, 0);
    SplitsTokens(line, n, 0, 0, ts);
    forall k | 0 <= k < |ts| ensures CString(buf, |Packed(ts[..k])|, ts[k]) { PackedStrings(ts, buf, k); }
  }

  /** The shell's call: a token buffer of SHELL_BUFLEN + SHELL_MAXTOK bytes is enough for every line it reads. */
  method ParseLine(buf: string, buflen: nat) returns (ntok: int)
    requires |buf| == SHELL_BUFLEN && buflen <= SHELL_BUFLEN - 1
    ensures ntok == match Lex(buf, buflen, 0, 0) case None => SYSERR case Some(ts) => |ts|
  {
    hide Lex;
    var tokbuf := new char[SHELL_BUFLEN + SHELL_MAXTOK];
    var tok := new int[SHELL_MAXTOK];
    ghost var used;
    ntok, used := Lexan(buf, buflen, tokbuf, tok);
  }

  // ---------- the character behind the line ----------

  /** The same n characters, with anything behind them. */
  ghost predicate SamePrefix(line: string, line': string, n: nat) {
    n < |line| && n < |line'| && forall x :: 0 <= x < n ==> line[x] == line'[x]
  }

  /** The quote that opens the next token, if neither it nor an end of line comes again before position n. */
  function OpensLast(line: string, n: nat, i: nat): Option<char>
    requires i < n < |line|
  {
    var j := SkipWhite(line, n, i);
    if j < n && IsQuote(line[j]) && QuoteEnd(line, n, line[j], j + 1) == n then Some(line[j]) else None
  }

  /** The quote that is still open when the scan reaches the end of the line. */
  function OpenQuote(line: string, n: nat, i: nat, k: nat): Option<char>
    requires n < |line|
    decreases n + 1 - i
  {
    if i >= n || k >= SHELL_MAXTOK then None
    else if OpensLast(line, n, i).Some? then OpensLast(line, n, i)
    else
      match NextToken(line, n, i)
      case Token(_, after) => OpenQuote(line, n, after, k + 1)
      case _ => None
  }

  /** The scanning loops do not depend on the character at n. */
  lemma {:induction false} SameScans(line: string, line': string, n: nat, quote: char, i: nat)
    requires SamePrefix(line, line', n) && i <= n
    ensures SkipWhite(line, n, i) == SkipWhite(line', n, i)
    ensures QuoteEnd(line, n, quote, i) == QuoteEnd(line', n, quote, i)
    ensures WordEnd(line, n, i) == WordEnd(line', n, i)
    decreases n - i
  {
    hide IsEndOfLine, IsWhitespace, IsPlain;
    if i < n { SameScans(line, line', n, quote, i + 1); }
  }

  /** Only the token that an open quote begins does. */
  lemma SameScan(line: string, line': string, n: nat, j: nat)
    requires SamePrefix(line, line', n) && j < n && (IsQuote(line[j]) ==> QuoteEnd(line, n, line[j], j + 1) < n)
    ensures Scan(line, n, j) == Scan(line', n, j)
  {
    hide QuoteEnd, WordEnd, IsEndOfLine, IsQuote, IsOtherSpecial, AllWhite, AllPlain, NoneOf;
    SameScans(line, line', n, line[j], j + 1);
    var r := Scan(line, n, j);
    if r.Token? { assert line[j..r.after] == line'[j..r.after]; }
  }

  lemma SameNextToken(line: string, line': string, n: nat, i: nat)
    requires SamePrefix(line, line', n) && i < n
    ensures OpensLast(line, n, i) == OpensLast(line', n, i)
    ensures OpensLast(line, n, i).None? ==> NextToken(line, n, i) == NextToken(line', n, i)
  {
    hide SkipWhite, Scan, IsEndOfLine, IsQuote;
    SameScans(line, line', n, ' ', i);
    var j := SkipWhite(line, n, i);
    if j < n {
      SameScans(line, line', n, line[j], j + 1);
      if OpensLast(line, n, i).None? { SameScan(line, line', n, j); }
    }
  }

  /** The string that an open quote begins is accepted exactly when the left-over character closes it. */
  lemma OpenToken(line: string, n: nat, i: nat)
    requires i < n < |line| && OpensLast(line, n, i).Some?
    ensures NextToken(line, n, i) ==
            if line[n] == OpensLast(line, n, i).value then Token(line[SkipWhite(line, n, i)..n + 1], n + 1) else Bad
  {
    hide SkipWhite, QuoteEnd;
  }

  lemma PrependInjective(t: string, a: Option<seq<string>>, b: Option<seq<string>>)
    ensures Prepend([t], a) == Prepend([t], b) <==> a == b
  {
    if a.Some? && b.Some? {
      assert ([t] + a.value)[1..] == a.value && ([t] + b.value)[1..] == b.value;
    }
  }

  /**
   Two buffers that hold the same line and differ behind it give different
   results if and only if a quote is still open at the end of the line and
   exactly one of the two left-over characters closes it.
   */
  lemma {:induction false} StaleExact(line: string, line': string, n: nat, i: nat, k: nat)
    requires SamePrefix(line, line', n)
    ensures OpenQuote(line, n, i, k) == OpenQuote(line', n, i, k)
    ensures Lex(line, n, i, k) != Lex(line', n, i, k) <==>
            var q := OpenQuote(line, n, i, k); q.Some? && (line[n] == q.value <==> line'[n] != q.value)
    decreases n + 1 - i
  {
    hide NextToken, OpensLast, Prepend;
    if i < n && k < SHELL_MAXTOK {
      SameNextToken(line, line', n, i);
      if OpensLast(line, n, i).Some? {
        OpenToken(line, n, i);
        OpenToken(line', n, i);
        LexFinish(line, n, n + 1, k + 1);
        LexFinish(line', n, n + 1, k + 1);
        PrependNothing([line[SkipWhite(line, n, i)..n + 1]]);
        PrependNothing([line'[SkipWhite(line', n, i)..n + 1]]);
        if line[n] == line'[n] { SameTail(line, line', n, SkipWhite(line, n, i)); }
        SameScans(line, line', n, ' ', i);
      } else {
        var r := NextToken(line, n, i);
        if r.Token? {
          StaleExact(line, line', n, r.after, k + 1);
          PrependInjective(r.text, Lex(line, n, r.after, k + 1), Lex(line', n, r.after, k + 1));
        }
      }
    }
  }

  lemma SameTail(line: string, line': string, n: nat, j: nat)
    requires SamePrefix(line, line', n) && j <= n && line[n] == line'[n]
    ensures line[j..n + 1] == line'[j..n + 1]
  {
  }

  /** A line that ends with an end-of-line character leaves no quote open. */
  lemma {:induction false} EndOfLineCloses(line: string, n: nat, i: nat, k: nat)
    requires 0 < n < |line| && IsEndOfLine(line[n - 1])
    ensures OpenQuote(line, n, i, k).None?
    decreases n + 1 - i
  {
    hide Scan;
    if i < n && k < SHELL_MAXTOK && OpensLast(line, n, i).None? && NextToken(line, n, i).Token? {
      EndOfLineCloses(line, n, NextToken(line, n, i).after, k + 1);
    }
  }

  /** So what is left behind such a line does not matter. */
  lemma StaleIrrelevant(line: string, line': string, n: nat)
    requires SamePrefix(line, line', n) && n > 0 && IsEndOfLine(line[n - 1])
    ensures Lex(line, n, 0, 0) == Lex(line', n, 0, 0)
  {
    EndOfLineCloses(line, n, 0, 0);
    StaleExact(line, line', n, 0, 0);
  }

  /** A line where it does: a quote left behind an open string closes it. */
  lemma StaleMatters()
    ensures Lex("'a'", 2, 0, 0) == Some(["'a'"]) && Lex("'ab", 2, 0, 0) == None
  {
    hide Lex;
    var closed, open := "'a'", "'ab";
    assert QuoteEnd(closed, 2, '\'', 1) == QuoteEnd(closed, 2, '\'', 2) == 2;
    assert QuoteEnd(open, 2, '\'', 1) == QuoteEnd(open, 2, '\'', 2) == 2;
    assert NextToken(closed, 2, 0) == Token(closed[0..3], 3);
    assert NextToken(open, 2, 0) == Bad;
    assert closed[0..3] == closed;
    LexStep(closed, 2, 0, 0);
    LexFinish(closed, 2, 3, 1);
    PrependNothing([closed]);
    LexStep(open, 2, 0, 0);
  }
}
