// The shell's parser: a lexer and a recursive descent with a cursor into the line, checked against the grammar
// on token sequences, and the NULs that it puts behind the words of the line.
module Shell {
  import opened Wrappers
  import opened Grammar

  // ---------------------------------------------------------------- the parser

  // a token as pointers to its beginning and its end
  datatype Span = Span(q: nat, eq: nat)

  datatype RedirAt = RedirAt(file: Span, mode: nat, fd: nat)

  datatype Cmd =
    | ExecCmd(argv: seq<Span>)
    | RedirCmd(cmd: Cmd, r: RedirAt)
    | PipeCmd(left: Cmd, right: Cmd)
    | ListCmd(left: Cmd, right: Cmd)
    | BackCmd(cmd: Cmd)

  /** A word of the line, from its first character to the one that ends it. */
  predicate Placed(s: string, w: Span) {
    && w.q < w.eq <= |s| && (forall i :: w.q <= i < w.eq ==> WordChar(s[i])) && (w.eq < |s| ==> !WordChar(s[w.eq]))
  }

  function Slice(s: string, w: Span): string {
    if w.q <= w.eq <= |s| then s[w.q..w.eq] else ""
  }

  function Slices(s: string, argv: seq<Span>): seq<string> {
    seq(|argv|, i requires 0 <= i < |argv| => Slice(s, argv[i]))
  }

  function RedirText(s: string, r: RedirAt): Redirection {
    Redirection(Slice(s, r.file), r.mode, r.fd)
  }

  function RedirTexts(s: string, rs: seq<RedirAt>): seq<Redirection> {
    seq(|rs|, i requires 0 <= i < |rs| => RedirText(s, rs[i]))
  }

  /** The command with its words read from the line. */
  function TreeOf(s: string, c: Cmd): Tree {
    match c
    case ExecCmd(argv) => Exec(Slices(s, argv))
    case RedirCmd(cmd, r) => Redir(TreeOf(s, cmd), RedirText(s, r))
    case PipeCmd(l, r) => Pipe(TreeOf(s, l), TreeOf(s, r))
    case ListCmd(l, r) => List(TreeOf(s, l), TreeOf(s, r))
    case BackCmd(cmd) => Back(TreeOf(s, cmd))
  }

  // all words of a command
  function Spans(c: Cmd): seq<Span> {
    match c
    case ExecCmd(argv) => argv
    case RedirCmd(cmd, r) => Spans(cmd) + [r.file]
    case PipeCmd(l, r) => Spans(l) + Spans(r)
    case ListCmd(l, r) => Spans(l) + Spans(r)
    case BackCmd(cmd) => Spans(cmd)
  }

  predicate AllPlaced(s: string, ws: seq<Span>) {
    forall i {:trigger ws[i]} :: 0 <= i < |ws| ==> Placed(s, ws[i])
  }

  // skip the spaces from pos on
  method Skip(s: string, pos: nat) returns (p: nat)
    requires pos <= |s|
    ensures pos <= p <= |s| && SkipSpace(s[pos..]) == s[p..] && (p < |s| ==> !IsSpace(s[p]))
  {
    p := pos;
    while p < |s| && IsSpace(s[p])
      invariant pos <= p <= |s| && forall i :: pos <= i < p ==> IsSpace(s[i])
    {
      p := p + 1;
    }
    ghost var t, k := s[pos..], p - pos;
    assert t[k..] == s[p..];
    LexSkip(t, k);
  }

  // spaces in front do not matter
  lemma {:induction false} LexSpace(s: string)
    ensures Lex(SkipSpace(s)) == Lex(s)
  {
    if s != "" && IsSpace(s[0]) {
      LexSkip(s, 1);
      LexSpace(s[1..]);
    }
  }

  lemma FirstCharIs(s: string)
    requires s != "" && !IsSpace(s[0])
    ensures FirstChar(First(s).0) == s[0]
  {
  }

  /** peek: is the next token one of toks? */
  method Peek(s: string, pos: nat, toks: string) returns (p: nat, b: bool)
    requires pos <= |s|
    ensures pos <= p <= |s| && Lex(s[p..]) == Lex(s[pos..]) && b == Starts(Lex(s[pos..]), toks)
    ensures p == |s| <==> Lex(s[pos..]) == []
  {
    p := Skip(s, pos);
    b := p < |s| && s[p] in toks;
    PeekIs(s[pos..], s[p..], toks);
  }

  lemma PeekIs(s: string, r: string, toks: string)
    requires r == SkipSpace(s)
    ensures Lex(r) == Lex(s) && Starts(Lex(s), toks) == (r != "" && r[0] in toks) && (r == "" <==> Lex(s) == [])
  {
    LexSpace(s);
    if r == "" {
      LexEmpty();
    } else {
      FirstCharIs(r);
      LexStep(r);
    }
  }

  function TokenAt(s: string, tok: char, w: Span): Token {
    if tok == 'a' then Word(Slice(s, w)) else Sym(tok)
  }

  lemma FirstSymbol(t: string)
    requires t != "" && IsSymbol(t[0]) && (t[0] == '>' && |t| >= 2 ==> t[1] != '>')
    ensures First(t) == (Sym(t[0]), 1)
  {
  }

  lemma FirstAppend(t: string)
    requires |t| >= 2 && t[0] == '>' && t[1] == '>'
    ensures First(t) == (Sym('+'), 2)
  {
  }

  lemma FirstWord(t: string, w: string, rest: string)
    requires t == w + rest && Plain(w) && (rest != "" ==> !WordChar(rest[0]))
    ensures First(t) == (Word(w), |w|)
  {
    WordLenIs(w, rest);
    assert t[0] == w[0] && t[..|w|] == w;
  }

  // the word at p
  method ScanWord(s: string, p: nat) returns (e: nat)
    requires p < |s| && WordChar(s[p]) && '\0' !in s
    ensures p < e <= |s| && Placed(s, Span(p, e))
  {
    e := p;
    while e < |s| && !IsSpace(s[e]) && !IsSymbol(s[e])
      invariant p <= e <= |s| && forall i :: p <= i < e ==> WordChar(s[i])
    {
      e := e + 1;
    }
  }

  // the token at p, which is no space: its kind and its end
  method Scan(s: string, p: nat) returns (tok: char, e: nat)
    requires p < |s| && !IsSpace(s[p]) && '\0' !in s
    ensures p < e <= |s| && First(s[p..]) == (TokenAt(s, tok, Span(p, e)), e - p)
    ensures (tok == 'a' ==> Placed(s, Span(p, e))) && tok != '\0'
  {
    ghost var t := s[p..];
    if s[p] == '|' || s[p] == '(' || s[p] == ')' || s[p] == ';' || s[p] == '&' || s[p] == '<' {
      FirstSymbol(t);
      return s[p], p + 1;
    }
    if s[p] == '>' {
      if p + 1 < |s| && s[p + 1] == '>' {
        FirstAppend(t);
        return '+', p + 2;
      }
      FirstSymbol(t);
      return '>', p + 1;
    }
    tok := 'a';
    e := ScanWord(s, p);
    ghost var w := s[p..e];
    assert forall i :: 0 <= i < |w| ==> w[i] == s[p + i];
    FirstWord(t, w, s[e..]);
  }

  // spaces, a token, spaces
  lemma TokenStep(s: string, r: string, t: Token, n: nat, rest: string)
    requires r == SkipSpace(s) && r != "" && First(r) == (t, n) && rest == SkipSpace(r[n..])
    ensures Lex(s) == [t] + Lex(rest)
  {
    LexSpace(s);
    LexStep(r);
    LexSpace(r[n..]);
  }

  // the token tok at w is the next one from pos, and p is where the one after it begins
  predicate NextToken(s: string, pos: nat, tok: char, w: Span, p: nat) {
    && pos <= p <= |s|
    && var r := SkipSpace(s[pos..]);
       if r == "" then tok == '\0' && p == |s|
       else
         && tok != '\0' && pos < p && (tok == 'a' ==> Placed(s, w))
         && First(r).0 == TokenAt(s, tok, w) && s[p..] == SkipSpace(r[First(r).1..])
  }

  /** gettoken: the next token, where it is, and what follows; NUL at the end of the line. */
  method GetToken(s: string, pos: nat) returns (tok: char, w: Span, p: nat)
    requires pos <= |s| && '\0' !in s
    ensures NextToken(s, pos, tok, w, p)
  {
    var q := Skip(s, pos);
    if q == |s| {
      return '\0', Span(q, q), q;
    }
    var e;
    tok, e := Scan(s, q);
    assert s[q..][e - q..] == s[e..];
    p := Skip(s, e);
    w := Span(q, e);
  }

  lemma TokenLex(s: string, pos: nat, tok: char, w: Span, p: nat)
    requires NextToken(s, pos, tok, w, p)
    ensures Lex(s[pos..]) == [] <==> tok == '\0'
    ensures tok != '\0' ==> Lex(s[pos..]) == [TokenAt(s, tok, w)] + Lex(s[p..])
  {
    var r := SkipSpace(s[pos..]);
    if r == "" {
      LexSpace(s[pos..]);
      LexEmpty();
    } else {
      TokenStep(s[pos..], r, TokenAt(s, tok, w), First(r).1, s[p..]);
    }
  }

  // what is left of the line at each position: at[pos]
  predicate LexedAt(s: string, at: seq<seq<Token>>, pos: nat) {
    pos <= |s| ==> |at| == |s| + 1 && at[pos] == Lex(s[pos..])
  }

  predicate Left(at: seq<seq<Token>>, pos: nat, ts: seq<Token>) {
    pos < |at| && at[pos] == ts
  }

  ghost predicate Lexed(s: string, at: seq<seq<Token>>) {
    |at| == |s| + 1 && '\0' !in s && forall pos: nat {:trigger LexedAt(s, at, pos)} :: LexedAt(s, at, pos)
  }

  // peek and gettoken on what is left
  method PeekLeft(s: string, pos: nat, toks: string, ghost at: seq<seq<Token>>, ghost ts: seq<Token>)
    returns (p: nat, b: bool)
    requires Lexed(s, at) && Left(at, pos, ts)
    ensures pos <= p && Left(at, p, ts) && b == Starts(ts, toks)
  {
    p, b := Peek(s, pos, toks);
    assert LexedAt(s, at, pos) && LexedAt(s, at, p);
  }

  method TakeToken(s: string, pos: nat, ghost at: seq<seq<Token>>, ghost ts: seq<Token>)
    returns (tok: char, w: Span, p: nat)
    requires Lexed(s, at) && Left(at, pos, ts)
    ensures ts == [] ==> tok == '\0' && pos <= p && Left(at, p, [])
    ensures ts != [] ==> tok != '\0' && pos < p && Left(at, p, ts[1..]) && ts[0] == TokenAt(s, tok, w)
                         && (tok == 'a' ==> Placed(s, w))
  {
    tok, w, p := GetToken(s, pos);
    assert LexedAt(s, at, pos) && LexedAt(s, at, p);
    TokenLex(s, pos, tok, w, p);
    if ts == [] {
      assert s[p..] == "";
      LexEmpty();
    }
  }

  // a parse that did what the grammar says
  predicate Agrees(s: string, at: seq<seq<Token>>, pos: nat, res: Result, r: Option<(Cmd, nat)>) {
    match res
    case Syntax => r.None?
    case Ok(t, rest) =>
      && r.Some? && pos <= r.value.1 && Left(at, r.value.1, rest)
      && AllPlaced(s, Spans(r.value.0)) && TreeOf(s, r.value.0) == t
  }

  function Wrapped(c: Cmd, rs: seq<RedirAt>): Cmd {
    if rs == [] then c else RedirCmd(Wrapped(c, rs[..|rs| - 1]), rs[|rs| - 1])
  }

  predicate RedirsPlaced(s: string, rs: seq<RedirAt>) {
    forall i {:trigger rs[i]} :: 0 <= i < |rs| ==> Placed(s, rs[i].file)
  }

  lemma {:induction false} WrappedTree(s: string, c: Cmd, rs: seq<RedirAt>)
    requires AllPlaced(s, Spans(c)) && RedirsPlaced(s, rs)
    ensures TreeOf(s, Wrapped(c, rs)) == Wrap(TreeOf(s, c), RedirTexts(s, rs)) && AllPlaced(s, Spans(Wrapped(c, rs)))
  {
    if rs != [] {
      var front := rs[..|rs| - 1];
      WrappedTree(s, c, front);
      assert RedirTexts(s, rs)[..|rs| - 1] == RedirTexts(s, front);
    }
  }

  // parseredirs did what the grammar says
  predicate RedirsAgree(s: string, at: seq<seq<Token>>, pos: nat, res: Redirs, r: Option<(seq<RedirAt>, nat)>) {
    match res
    case NoFile => r.None?
    case Redirs(rs, rest) =>
      && r.Some? && pos <= r.value.1 && Left(at, r.value.1, rest) && RedirsPlaced(s, r.value.0)
      && RedirTexts(s, r.value.0) == rs
  }

  function Prepend(rs: seq<Redirection>, r: Redirs): Redirs {
    if r.NoFile? then NoFile else Redirs(rs + r.rs, r.rest)
  }

  // one more redirection
  lemma PrependOne(s: string, ts: seq<Token>, rs: seq<RedirAt>, left: seq<Token>, redir: RedirAt)
    requires RedirsOf(ts) == Prepend(RedirTexts(s, rs), RedirsOf(left))
    requires Starts(left, "<>") && |left| >= 2 && left[0].Sym? && left[1].Word?
    requires RedirText(s, redir) == RedirOf(left[0].c, left[1].text)
    ensures RedirsOf(ts) == Prepend(RedirTexts(s, rs + [redir]), RedirsOf(left[2..]))
  {
    assert RedirTexts(s, rs + [redir]) == RedirTexts(s, rs) + [RedirText(s, redir)];
  }

  /** parseredirs: any number of redirections. */
  method ParseRedirs(s: string, pos: nat, ghost at: seq<seq<Token>>, ghost ts: seq<Token>)
    returns (r: Option<(seq<RedirAt>, nat)>)
    requires Lexed(s, at) && Left(at, pos, ts)
    ensures RedirsAgree(s, at, pos, RedirsOf(ts), r)
  {
    var p, rs: seq<RedirAt> := pos, [];
    ghost var left := ts;
    while true
      invariant pos <= p && Left(at, p, left) && RedirsPlaced(s, rs)
      invariant RedirsOf(ts) == Prepend(RedirTexts(s, rs), RedirsOf(left))
      decreases |left|
    {
      var b, tok, w, word;
      p, b := PeekLeft(s, p, "<>", at, left);
      if !b {
        return Some((rs, p));
      }
      tok, w, p := TakeToken(s, p, at, left);
      word, w, p := TakeToken(s, p, at, left[1..]);
      if word != 'a' {
        return None;
      }
      var redir := if tok == '<' then RedirAt(w, O_RDONLY, 0) else RedirAt(w, O_WRONLY_CREATE, 1);
      PrependOne(s, ts, rs, left, redir);
      rs, left := rs + [redir], left[2..];
    }
  }

  // one more argument and its redirections
  lemma ArgsStep(s: string, argv: seq<Span>, rs: seq<RedirAt>, ts: seq<Token>, w: Span, more: seq<RedirAt>,
                 rest: seq<Token>)
    requires ts != [] && !Starts(ts, "|)&;") && ts[0] == Word(Slice(s, w)) && |argv| + 1 < MAXARGS
    requires RedirsOf(ts[1..]) == Redirs(RedirTexts(s, more), rest)
    ensures ArgsOf(Slices(s, argv), RedirTexts(s, rs), ts)
              == ArgsOf(Slices(s, argv + [w]), RedirTexts(s, rs + more), rest)
  {
    assert Slices(s, argv + [w]) == Slices(s, argv) + [Slice(s, w)];
    assert RedirTexts(s, rs + more) == RedirTexts(s, rs) + RedirTexts(s, more);
  }

  // parseexec's loop, from the first argument on
  method ParseArgs(s: string, pos: nat, first: seq<RedirAt>, ghost at: seq<seq<Token>>, ghost ts: seq<Token>)
    returns (r: Option<(Cmd, nat)>)
    requires Lexed(s, at) && Left(at, pos, ts) && RedirsPlaced(s, first)
    ensures Agrees(s, at, pos, ArgsOf([], RedirTexts(s, first), ts), r)
  {
    var p, argv: seq<Span>, rs := pos, [], first;
    ghost var left := ts;
    assert Slices(s, argv) == [];
    while true
      invariant pos <= p && Left(at, p, left) && AllPlaced(s, argv) && RedirsPlaced(s, rs) && |argv| < MAXARGS
      invariant ArgsOf([], RedirTexts(s, first), ts) == ArgsOf(Slices(s, argv), RedirTexts(s, rs), left)
      decreases |left|
    {
      var b;
      p, b := PeekLeft(s, p, "|)&;", at, left);
      if b {
        break;
      }
      var tok, w, q := TakeToken(s, p, at, left);
      if tok == '\0' {
        break;
      }
      if tok != 'a' || |argv| + 1 >= MAXARGS {
        return None;
      }
      var more := ParseRedirs(s, q, at, left[1..]);
      if more.None? {
        return None;
      }
      ArgsStep(s, argv, rs, left, w, more.value.0, RedirsOf(left[1..]).rest);
      left := RedirsOf(left[1..]).rest;
      argv, rs, p := argv + [w], rs + more.value.0, more.value.1;
    }
    WrappedTree(s, ExecCmd(argv), rs);
    return Some((Wrapped(ExecCmd(argv), rs), p));
  }

  /** parseblock: a line in parentheses, and redirections of it. */
  method ParseBlock(s: string, pos: nat, ghost at: seq<seq<Token>>, ghost ts: seq<Token>)
    returns (r: Option<(Cmd, nat)>)
    requires Lexed(s, at) && Left(at, pos, ts) && Starts(ts, "(")
    ensures Agrees(s, at, pos, BlockOf(ts), r)
    decreases |s| + 1 - pos, 0
  {
    var tok, w, p := TakeToken(s, pos, at, ts);
    var line := ParseLine(s, p, at, ts[1..]);
    if line.None? {
      return None;
    }
    ghost var rest := LineOf(ts[1..]).rest;
    var b;
    p, b := PeekLeft(s, line.value.1, ")", at, rest);
    if !b {
      return None;
    }
    tok, w, p := TakeToken(s, p, at, rest);
    var rs := ParseRedirs(s, p, at, rest[1..]);
    if rs.None? {
      return None;
    }
    WrappedTree(s, line.value.0, rs.value.0);
    return Some((Wrapped(line.value.0, rs.value.0), rs.value.1));
  }

  /** parseexec: a block, or words and redirections. */
  method ParseExec(s: string, pos: nat, ghost at: seq<seq<Token>>, ghost ts: seq<Token>) returns (r: Option<(Cmd, nat)>)
    requires Lexed(s, at) && Left(at, pos, ts)
    ensures Agrees(s, at, pos, ExecOf(ts), r)
    decreases |s| + 1 - pos, 1
  {
    var p, b := PeekLeft(s, pos, "(", at, ts);
    if b {
      r := ParseBlock(s, p, at, ts);
      return;
    }
    var rs := ParseRedirs(s, p, at, ts);
    if rs.None? {
      return None;
    }
    r := ParseArgs(s, rs.value.1, rs.value.0, at, RedirsOf(ts).rest);
  }

  /** parsepipe */
  method ParsePipe(s: string, pos: nat, ghost at: seq<seq<Token>>, ghost ts: seq<Token>) returns (r: Option<(Cmd, nat)>)
    requires Lexed(s, at) && Left(at, pos, ts)
    ensures Agrees(s, at, pos, PipeOf(ts), r)
    decreases |s| + 1 - pos, 2
  {
    var left := ParseExec(s, pos, at, ts);
    if left.None? {
      return None;
    }
    ghost var rest := ExecOf(ts).rest;
    var p, b := PeekLeft(s, left.value.1, "|", at, rest);
    if !b {
      return Some((left.value.0, p));
    }
    var tok, w;
    tok, w, p := TakeToken(s, p, at, rest);
    var right := ParsePipe(s, p, at, rest[1..]);
    if right.None? {
      return None;
    }
    return Some((PipeCmd(left.value.0, right.value.0), right.value.1));
  }

  // the & after a pipeline
  method ParseBacks(s: string, pos: nat, cmd: Cmd, ghost at: seq<seq<Token>>, ghost ts: seq<Token>)
    returns (c: Cmd, p: nat)
    requires Lexed(s, at) && Left(at, pos, ts) && AllPlaced(s, Spans(cmd))
    ensures var (t, rest) := BacksOf(TreeOf(s, cmd), ts);
            pos <= p && Left(at, p, rest) && AllPlaced(s, Spans(c)) && TreeOf(s, c) == t
  {
    c, p := cmd, pos;
    ghost var left := ts;
    while true
      invariant pos <= p && Left(at, p, left) && AllPlaced(s, Spans(c))
      invariant BacksOf(TreeOf(s, cmd), ts) == BacksOf(TreeOf(s, c), left)
      decreases |left|
    {
      var b;
      p, b := PeekLeft(s, p, "&", at, left);
      if !b {
        break;
      }
      var tok, w;
      tok, w, p := TakeToken(s, p, at, left);
      c, left := BackCmd(c), left[1..];
    }
  }

  /** parseline */
  method ParseLine(s: string, pos: nat, ghost at: seq<seq<Token>>, ghost ts: seq<Token>) returns (r: Option<(Cmd, nat)>)
    requires Lexed(s, at) && Left(at, pos, ts)
    ensures Agrees(s, at, pos, LineOf(ts), r)
    decreases |s| + 1 - pos, 3
  {
    var pipe := ParsePipe(s, pos, at, ts);
    if pipe.None? {
      return None;
    }
    ghost var rest := PipeOf(ts).rest;
    var left, p := ParseBacks(s, pipe.value.1, pipe.value.0, at, rest);
    ghost var rest1 := BacksOf(PipeOf(ts).t, rest).1;
    var b;
    p, b := PeekLeft(s, p, ";", at, rest1);
    if !b {
      return Some((left, p));
    }
    var tok, w;
    tok, w, p := TakeToken(s, p, at, rest1);
    var right := ParseLine(s, p, at, rest1[1..]);
    if right.None? {
      return None;
    }
    return Some((ListCmd(left, right.value.0), right.value.1));
  }

  // ---------------------------------------------------------------- NUL termination

  // a word ends at k
  predicate EndsAt(ws: seq<Span>, k: nat) {
    exists i :: 0 <= i < |ws| && ws[i].eq == k
  }

  // b with a NUL at the end of each word
  predicate Terminated(b: seq<char>, b': seq<char>, ws: seq<Span>) {
    |b'| == |b| && forall k {:trigger b'[k]} :: 0 <= k < |b| ==> b'[k] == if EndsAt(ws, k) then '\0' else b[k]
  }

  lemma TerminatedThen(a: seq<char>, b: seq<char>, c: seq<char>, ws: seq<Span>, vs: seq<Span>)
    requires Terminated(a, b, ws) && Terminated(b, c, vs)
    ensures Terminated(a, c, ws + vs)
  {
    forall k: nat | k < |a| ensures EndsAt(ws + vs, k) <==> EndsAt(ws, k) || EndsAt(vs, k) {
      if EndsAt(ws, k) {
        var i :| 0 <= i < |ws| && ws[i].eq == k;
        assert (ws + vs)[i].eq == k;
      }
      if EndsAt(vs, k) {
        var i :| 0 <= i < |vs| && vs[i].eq == k;
        assert (ws + vs)[|ws| + i].eq == k;
      }
    }
  }

  lemma TerminatedOne(a: seq<char>, w: Span)
    requires w.eq < |a|
    ensures Terminated(a, a[w.eq := '\0'], [w])
  {
    assert [w][0].eq == w.eq;
  }

  // the words of a command lie in the buffer
  predicate InBuffer(ws: seq<Span>, n: nat) {
    forall i {:trigger ws[i]} :: 0 <= i < |ws| ==> ws[i].eq < n
  }

  method TerminateArgs(buf: array<char>, argv: seq<Span>)
    requires InBuffer(argv, buf.Length)
    modifies buf
    ensures Terminated(old(buf[..]), buf[..], argv)
  {
    var i := 0;
    while i < |argv|
      invariant 0 <= i <= |argv| && Terminated(old(buf[..]), buf[..], argv[..i])
    {
      ghost var b := buf[..];
      buf[argv[i].eq] := '\0';
      TerminatedOne(b, argv[i]);
      assert buf[..] == b[argv[i].eq := '\0'] && argv[..i] + [argv[i]] == argv[..i + 1];
      TerminatedThen(old(buf[..]), b, buf[..], argv[..i], [argv[i]]);
      i := i + 1;
    }
    assert argv[..i] == argv;
  }

  /** nulterminate: a NUL at the end of every word, and nowhere else. */
  method NulTerminate(buf: array<char>, c: Cmd)
    requires InBuffer(Spans(c), buf.Length)
    modifies buf
    ensures Terminated(old(buf[..]), buf[..], Spans(c))
    decreases c
  {
    match c
    case ExecCmd(argv) =>
      TerminateArgs(buf, argv);
    case RedirCmd(cmd, r) =>
      assert Spans(c)[|Spans(cmd)|] == r.file && forall i :: 0 <= i < |Spans(cmd)| ==> Spans(c)[i] == Spans(cmd)[i];
      NulTerminate(buf, cmd);
      ghost var b := buf[..];
      buf[r.file.eq] := '\0';
      TerminatedOne(b, r.file);
      assert buf[..] == b[r.file.eq := '\0'];
      TerminatedThen(old(buf[..]), b, buf[..], Spans(cmd), [r.file]);
    case PipeCmd(l, r) =>
      BothInBuffer(Spans(l), Spans(r), buf.Length);
      NulTerminate(buf, l);
      ghost var b := buf[..];
      NulTerminate(buf, r);
      TerminatedThen(old(buf[..]), b, buf[..], Spans(l), Spans(r));
    case ListCmd(l, r) =>
      BothInBuffer(Spans(l), Spans(r), buf.Length);
      NulTerminate(buf, l);
      ghost var b := buf[..];
      NulTerminate(buf, r);
      TerminatedThen(old(buf[..]), b, buf[..], Spans(l), Spans(r));
    case BackCmd(cmd) =>
      NulTerminate(buf, cmd);
  }

  lemma BothInBuffer(ws: seq<Span>, vs: seq<Span>, n: nat)
    requires InBuffer(ws + vs, n)
    ensures InBuffer(ws, n) && InBuffer(vs, n)
  {
    assert forall i :: 0 <= i < |ws| ==> (ws + vs)[i] == ws[i];
    assert forall i :: 0 <= i < |vs| ==> (ws + vs)[|ws| + i] == vs[i];
  }

  // the C string at the start of b
  function CString(b: seq<char>): string {
    if b == [] || b[0] == '\0' then "" else [b[0]] + CString(b[1..])
  }

  lemma {:induction false} CStringIs(b: seq<char>, n: nat)
    requires n < |b| && b[n] == '\0' && '\0' !in b[..n]
    ensures CString(b) == b[..n]
  {
    if n > 0 {
      assert b[0] == b[..n][0] && b[1..][..n - 1] == b[..n][1..];
      CStringIs(b[1..], n - 1);
    }
  }

  /** After nulterminate, the string at the beginning of each word is the word. */
  lemma WordIsString(s: string, b: seq<char>, ws: seq<Span>, i: nat)
    requires AllPlaced(s, ws) && Terminated(s + ['\0'], b, ws) && i < |ws|
    ensures ws[i].q < |b| && CString(b[ws[i].q..]) == Slice(s, ws[i])
  {
    var w := ws[i];
    assert Placed(s, w);
    forall k | w.q <= k < w.eq ensures b[k] == s[k] && b[k] != '\0' {
      assert forall j :: 0 <= j < |ws| ==> Placed(s, ws[j]);
    }
    assert EndsAt(ws, w.eq);
    var t, n := b[w.q..], w.eq - w.q;
    assert t[..n] == s[w.q..w.eq];
    CStringIs(t, n);
  }

  /**
   parsecmd on a line of n characters: the command that the line denotes, or an error; and in the
   buffer every word of the command has become a string of its own.
   */
  method ParseCmd(buf: array<char>, n: nat) returns (r: Option<Cmd>)
    requires buf.Length == n + 1 && buf[n] == '\0' && '\0' !in buf[..n]
    modifies buf
    ensures r.None? <==> Parse(old(buf[..n])) == None
    ensures r.None? ==> buf[..] == old(buf[..])
    ensures r.Some? ==> Parse(old(buf[..n])) == Some(TreeOf(old(buf[..n]), r.value))
                        && AllPlaced(old(buf[..n]), Spans(r.value))
    ensures r.Some? ==> forall i: nat :: i < |Spans(r.value)| ==>
              Spans(r.value)[i].q < buf.Length
              && CString(buf[Spans(r.value)[i].q..]) == Slice(old(buf[..n]), Spans(r.value)[i])
  {
    var s := buf[..n];
    ghost var b := buf[..];
    assert b == s + ['\0'];
    ghost var at := seq(n + 1, i requires 0 <= i <= n => Lex(s[i..]));
    assert s[0..] == s;
    forall pos: nat ensures LexedAt(s, at, pos) {
    }
    var line := ParseLine(s, 0, at, Lex(s));
    if line.None? {
      return None;
    }
    var p, _ := Peek(s, line.value.1, "");
    assert LexedAt(s, at, line.value.1);
    if p != n {
      return None;
    }
    var cmd := line.value.0;
    PlacedInBuffer(s, Spans(cmd));
    NulTerminate(buf, cmd);
    forall i: nat | i < |Spans(cmd)|
      ensures Spans(cmd)[i].q < buf.Length && CString(buf[Spans(cmd)[i].q..]) == Slice(s, Spans(cmd)[i])
    {
      WordIsString(s, buf[..], Spans(cmd), i);
      assert buf[..][Spans(cmd)[i].q..] == buf[Spans(cmd)[i].q..];
    }
    return Some(cmd);
  }

  lemma PlacedInBuffer(s: string, ws: seq<Span>)
    requires AllPlaced(s, ws)
    ensures InBuffer(ws, |s| + 1)
  {
    forall i | 0 <= i < |ws| ensures ws[i].eq < |s| + 1 {
      assert Placed(s, ws[i]);
    }
  }
}
