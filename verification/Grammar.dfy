// The shell's command language: tokens, a grammar on token sequences, and the printing of a command, which
// parses back to it.
module Grammar {
  import opened Wrappers

  const MAXARGS: nat := 20
  const O_RDONLY: nat := 0
  const O_WRONLY_CREATE: nat := 0x201

  predicate IsSpace(c: char) {
    c == ' ' || c == '\t' || c == '\r' || c == '\n' || c == '\U{0B}'
  }

  predicate IsSymbol(c: char) {
    c == '<' || c == '|' || c == '>' || c == '&' || c == ';' || c == '(' || c == ')'
  }

  predicate WordChar(c: char) {
    !IsSpace(c) && !IsSymbol(c) && c != '\0'
  }

  // Sym('+') is >>
  datatype Token = Word(text: string) | Sym(c: char)

  datatype Redirection = Redirection(file: string, mode: nat, fd: nat)

  datatype Tree =
    | Exec(argv: seq<string>)
    | Redir(cmd: Tree, r: Redirection)
    | Pipe(left: Tree, right: Tree)
    | List(left: Tree, right: Tree)
    | Back(cmd: Tree)

  // ---------------------------------------------------------------- tokens

  function SkipSpace(s: string): (r: string)
    ensures |r| <= |s| && (r != "" ==> !IsSpace(r[0]))
  {
    if s != "" && IsSpace(s[0]) then SkipSpace(s[1..]) else s
  }

  // how many characters of a word s begins with
  function WordLen(s: string): (n: nat)
    ensures n <= |s| && (forall i :: 0 <= i < n ==> WordChar(s[i])) && (n < |s| ==> !WordChar(s[n]))
  {
    if s != "" && WordChar(s[0]) then 1 + WordLen(s[1..]) else 0
  }

  // the first token of a line that does not begin with a space, and its length
  function First(s: string): (r: (Token, nat))
    requires s != "" && !IsSpace(s[0])
    ensures 0 < r.1 <= |s|
  {
    if WordChar(s[0]) then (Word(s[..WordLen(s)]), WordLen(s))
    else if s[0] == '>' && |s| >= 2 && s[1] == '>' then (Sym('+'), 2)
    else (Sym(s[0]), 1)
  }

  function Lex(s: string): seq<Token>
    decreases |s|
  {
    var r := SkipSpace(s);
    if r == "" then [] else [First(r).0] + Lex(r[First(r).1..])
  }

  lemma {:induction false} LexSkip(s: string, k: nat)
    requires k <= |s| && forall i :: 0 <= i < k ==> IsSpace(s[i])
    ensures Lex(s[k..]) == Lex(s) && SkipSpace(s[k..]) == SkipSpace(s)
  {
    if k == 0 {
      assert s[0..] == s;
    } else {
      LexSkip(s[1..], k - 1);
      assert s[1..][k - 1..] == s[k..];
    }
  }

  // ---------------------------------------------------------------- the grammar on tokens

  datatype Result = Ok(t: Tree, rest: seq<Token>) | Syntax

  datatype Redirs = Redirs(rs: seq<Redirection>, rest: seq<Token>) | NoFile

  function FirstChar(t: Token): char {
    match t
    case Word(w) => if w == "" then ' ' else w[0]
    case Sym(c) => if c == '+' then '>' else c
  }

  // peek on tokens
  predicate Starts(ts: seq<Token>, toks: string) {
    ts != [] && FirstChar(ts[0]) in toks
  }

  function RedirOf(c: char, file: string): Redirection {
    if c == '<' then Redirection(file, O_RDONLY, 0) else Redirection(file, O_WRONLY_CREATE, 1)
  }

  function RedirsOf(ts: seq<Token>): (r: Redirs)
    ensures r.Redirs? ==> |r.rest| <= |ts|
  {
    if !Starts(ts, "<>") then Redirs([], ts)
    else if |ts| < 2 || !ts[0].Sym? || !ts[1].Word? then NoFile
    else
      match RedirsOf(ts[2..])
      case NoFile => NoFile
      case Redirs(rs, rest) => Redirs([RedirOf(ts[0].c, ts[1].text)] + rs, rest)
  }

  // the last redirection is outermost
  function Wrap(t: Tree, rs: seq<Redirection>): Tree {
    if rs == [] then t else Redir(Wrap(t, rs[..|rs| - 1]), rs[|rs| - 1])
  }

  function WrapRest(t: Tree, r: Redirs): Result {
    if r.NoFile? then Syntax else Ok(Wrap(t, r.rs), r.rest)
  }

  function ArgsOf(argv: seq<string>, rs: seq<Redirection>, ts: seq<Token>): (r: Result)
    ensures r.Ok? ==> |r.rest| <= |ts|
    decreases |ts|
  {
    if ts == [] || Starts(ts, "|)&;") then Ok(Wrap(Exec(argv), rs), ts)
    else if !ts[0].Word? || |argv| + 1 >= MAXARGS then Syntax
    else
      match RedirsOf(ts[1..])
      case NoFile => Syntax
      case Redirs(more, rest) => ArgsOf(argv + [ts[0].text], rs + more, rest)
  }

  function BlockOf(ts: seq<Token>): (r: Result)
    requires Starts(ts, "(")
    ensures r.Ok? ==> |r.rest| < |ts|
    decreases |ts|, 0
  {
    match LineOf(ts[1..])
    case Syntax => Syntax
    case Ok(t, rest) => if !Starts(rest, ")") then Syntax else WrapRest(t, RedirsOf(rest[1..]))
  }

  function ExecOf(ts: seq<Token>): (r: Result)
    ensures r.Ok? ==> |r.rest| <= |ts|
    decreases |ts|, 1
  {
    if Starts(ts, "(") then BlockOf(ts)
    else
      match RedirsOf(ts)
      case NoFile => Syntax
      case Redirs(rs, rest) => ArgsOf([], rs, rest)
  }

  function PipeOf(ts: seq<Token>): (r: Result)
    ensures r.Ok? ==> |r.rest| <= |ts|
    decreases |ts|, 2
  {
    match ExecOf(ts)
    case Syntax => Syntax
    case Ok(l, rest) =>
      if !Starts(rest, "|") then Ok(l, rest)
      else
        match PipeOf(rest[1..])
        case Syntax => Syntax
        case Ok(r, rest') => Ok(Pipe(l, r), rest')
  }

  function BacksOf(t: Tree, ts: seq<Token>): (r: (Tree, seq<Token>))
    ensures |r.1| <= |ts|
    decreases |ts|
  {
    if Starts(ts, "&") then BacksOf(Back(t), ts[1..]) else (t, ts)
  }

  function LineOf(ts: seq<Token>): (r: Result)
    ensures r.Ok? ==> |r.rest| <= |ts|
    decreases |ts|, 3
  {
    match PipeOf(ts)
    case Syntax => Syntax
    case Ok(t, rest) =>
      var (l, rest1) := BacksOf(t, rest);
      if !Starts(rest1, ";") then Ok(l, rest1)
      else
        match LineOf(rest1[1..])
        case Syntax => Syntax
        case Ok(r, rest2) => Ok(List(l, r), rest2)
  }

  /** The command that a line denotes. */
  function Parse(s: string): Option<Tree> {
    match LineOf(Lex(s))
    case Syntax => None
    case Ok(t, rest) => if rest == [] then Some(t) else None
  }

  // ---------------------------------------------------------------- printing

  function RedirSym(r: Redirection): Token {
    Sym(if r.fd == 0 then '<' else '>')
  }

  function Words(argv: seq<string>): seq<Token> {
    seq(|argv|, i requires 0 <= i < |argv| => Word(argv[i]))
  }

  function Paren(ts: seq<Token>): seq<Token> {
    [Sym('(')] + ts + [Sym(')')]
  }

  /** A command with parentheses around every part. */
  function Tokens(t: Tree): seq<Token> {
    match t
    case Exec(argv) => Words(argv)
    case Redir(cmd, r) => Paren(Tokens(cmd)) + [RedirSym(r), Word(r.file)]
    case Pipe(l, r) => Paren(Tokens(l)) + [Sym('|')] + Paren(Tokens(r))
    case List(l, r) => Paren(Tokens(l)) + [Sym(';')] + Paren(Tokens(r))
    case Back(cmd) => Paren(Tokens(cmd)) + [Sym('&')]
  }

  function Text(t: Token): string {
    match t
    case Word(w) => w
    case Sym(c) => if c == '+' then ">>" else [c]
  }

  // every token with a space after it
  function Show(ts: seq<Token>): string {
    if ts == [] then "" else Text(ts[0]) + " " + Show(ts[1..])
  }

  function Print(t: Tree): string {
    Show(Tokens(t))
  }

  predicate Plain(w: string) {
    w != "" && forall i :: 0 <= i < |w| ==> WordChar(w[i])
  }

  // what the parser can build
  predicate Printable(t: Tree) {
    match t
    case Exec(argv) => |argv| < MAXARGS && forall i :: 0 <= i < |argv| ==> Plain(argv[i])
    case Redir(cmd, r) =>
      Printable(cmd) && Plain(r.file) && (r == RedirOf('<', r.file) || r == RedirOf('>', r.file))
    case Pipe(l, r) => Printable(l) && Printable(r)
    case List(l, r) => Printable(l) && Printable(r)
    case Back(cmd) => Printable(cmd)
  }

  predicate PlainToken(t: Token) {
    match t
    case Word(w) => Plain(w)
    case Sym(c) => IsSymbol(c)
  }

  // ---------------------------------------------------------------- the printing parses back

  lemma {:induction false} WordLenIs(w: string, rest: string)
    requires (forall i :: 0 <= i < |w| ==> WordChar(w[i])) && (rest != "" ==> !WordChar(rest[0]))
    ensures WordLen(w + rest) == |w|
  {
    if w == "" {
      assert w + rest == rest;
    } else {
      assert (w + rest)[0] == w[0] && (w + rest)[1..] == w[1..] + rest;
      WordLenIs(w[1..], rest);
    }
  }

  lemma FirstIs(t: Token, rest: string)
    requires PlainToken(t)
    ensures var s := Text(t) + (" " + rest); s != "" && !IsSpace(s[0]) && First(s) == (t, |Text(t)|)
  {
    var s := Text(t) + (" " + rest);
    assert s[0] == Text(t)[0] && s[..|Text(t)|] == Text(t);
    if t.Word? {
      WordLenIs(t.text, " " + rest);
    } else {
      assert s[1] == ' ';
    }
  }

  lemma LexStep(s: string)
    requires s != "" && !IsSpace(s[0])
    ensures Lex(s) == [First(s).0] + Lex(s[First(s).1..])
  {
  }

  // a token and the space after it
  lemma LexFirst(t: Token, rest: string)
    requires PlainToken(t)
    ensures Lex(Text(t) + " " + rest) == [t] + Lex(rest)
  {
    var tail := " " + rest;
    var s, n := Text(t) + tail, |Text(t)|;
    assert s == Text(t) + " " + rest;
    FirstIs(t, rest);
    LexStep(s);
    assert s[n..] == tail && tail[1..] == rest;
    LexSkip(tail, 1);
  }

  predicate AllPlain(ts: seq<Token>) {
    forall i {:trigger ts[i]} :: 0 <= i < |ts| ==> PlainToken(ts[i])
  }

  lemma LexEmpty()
    ensures Lex("") == []
  {
  }

  lemma {:induction false} LexShow(ts: seq<Token>, s: string)
    requires AllPlain(ts) && s == Show(ts)
    ensures Lex(s) == ts
  {
    if ts == [] {
      LexEmpty();
    } else {
      var rest := Show(ts[1..]);
      assert PlainToken(ts[0]) && AllPlain(ts[1..]);
      LexShow(ts[1..], rest);
      LexFirst(ts[0], rest);
      assert s == Text(ts[0]) + " " + rest;
      assert [ts[0]] + ts[1..] == ts;
    }
  }

  lemma {:induction false} TokensPlain(t: Tree)
    requires Printable(t)
    ensures AllPlain(Tokens(t))
  {
    match t
    case Exec(argv) =>
    case Redir(cmd, r) => TokensPlain(cmd);
    case Pipe(l, r) => TokensPlain(l); TokensPlain(r);
    case List(l, r) => TokensPlain(l); TokensPlain(r);
    case Back(cmd) => TokensPlain(cmd);
  }

  // the tokens before the end of a line or of a block
  predicate Ends(rest: seq<Token>) {
    rest == [] || rest[0] == Sym(')')
  }

  lemma OneArg(argv: seq<string>, w: string, tail: seq<Token>)
    requires Plain(w) && |argv| + 1 < MAXARGS && RedirsOf(tail) == Redirs([], tail)
    ensures ArgsOf(argv, [], [Word(w)] + tail) == ArgsOf(argv + [w], [], tail)
  {
    var ts, none: seq<Redirection> := [Word(w)] + tail, [];
    assert ts[1..] == tail && none + none == none && WordChar(w[0]);
  }

  lemma ArgsEnd(argv: seq<string>, rest: seq<Token>)
    requires Ends(rest)
    ensures ArgsOf(argv, [], rest) == Ok(Exec(argv), rest)
  {
  }

  lemma NextWord(argv: seq<string>, k: nat, rest: seq<Token>)
    requires k < |argv|
    ensures Words(argv)[k..] + rest == [Word(argv[k])] + (Words(argv)[k + 1..] + rest)
  {
  }

  lemma {:induction false} ArgsRound(argv: seq<string>, k: nat, rest: seq<Token>)
    requires Printable(Exec(argv)) && k <= |argv| && Ends(rest)
    ensures ArgsOf(argv[..k], [], Words(argv)[k..] + rest) == Ok(Exec(argv), rest)
    decreases |argv| - k
  {
    if k == |argv| {
      ArgsEnd(argv, rest);
      assert Words(argv)[k..] + rest == rest && argv[..k] == argv;
    } else {
      var tail := Words(argv)[k + 1..] + rest;
      NoRedirs(argv, k + 1, rest);
      OneArg(argv[..k], argv[k], tail);
      ArgsRound(argv, k + 1, rest);
      NextWord(argv, k, rest);
      assert argv[..k] + [argv[k]] == argv[..k + 1];
    }
  }

  lemma NoRedirs(argv: seq<string>, k: nat, rest: seq<Token>)
    requires Printable(Exec(argv)) && k <= |argv| && Ends(rest)
    ensures var ts := Words(argv)[k..] + rest; !Starts(ts, "<>") && !Starts(ts, "(") && RedirsOf(ts) == Redirs([], ts)
  {
    var ts := Words(argv)[k..] + rest;
    if k < |argv| {
      assert Plain(argv[k]) && ts[0] == Word(argv[k]) && WordChar(argv[k][0]);
    } else {
      assert ts == rest;
    }
  }

  lemma Reassociate(a: seq<Token>, b: seq<Token>, c: seq<Token>, d: seq<Token>)
    ensures a + b + c + d == a + (b + (c + d)) && a + b + d == a + (b + d)
  {
  }

  // a command in parentheses that parses inside them
  lemma ParenExec(t: Tree, rest: seq<Token>)
    requires Reads(t, [Sym(')')] + rest)
    ensures ExecOf(Paren(Tokens(t)) + rest) == WrapRest(t, RedirsOf(rest))
  {
    var ts := Paren(Tokens(t)) + rest;
    assert ts[1..] == Tokens(t) + ([Sym(')')] + rest);
    assert ([Sym(')')] + rest)[1..] == rest;
  }

  lemma ParenPipe(t: Tree, rest: seq<Token>)
    requires Reads(t, [Sym(')')] + rest) && !Starts(rest, "<>") && !Starts(rest, "|")
    ensures PipeOf(Paren(Tokens(t)) + rest) == Ok(t, rest)
  {
    ParenExec(t, rest);
  }

  // in front of rest, the tokens of t parse to t
  ghost predicate Reads(t: Tree, rest: seq<Token>) {
    LineOf(Tokens(t) + rest) == Ok(t, rest)
  }

  // a pipeline that the end follows is a line
  lemma LineEnds(t: Tree, ts: seq<Token>, rest: seq<Token>)
    requires PipeOf(ts) == Ok(t, rest) && Ends(rest)
    ensures LineOf(ts) == Ok(t, rest)
  {
  }

  lemma ExecEnds(t: Tree, ts: seq<Token>, rest: seq<Token>)
    requires ExecOf(ts) == Ok(t, rest) && Ends(rest)
    ensures LineOf(ts) == Ok(t, rest)
  {
    assert PipeOf(ts) == Ok(t, rest);
    LineEnds(t, ts, rest);
  }

  lemma ExecRound(argv: seq<string>, rest: seq<Token>)
    requires Printable(Exec(argv)) && Ends(rest)
    ensures Reads(Exec(argv), rest)
  {
    var ts := Words(argv) + rest;
    NoRedirs(argv, 0, rest);
    ArgsRound(argv, 0, rest);
    assert Words(argv)[0..] == Words(argv) && argv[..0] == [];
    assert ExecOf(ts) == Ok(Exec(argv), rest);
    ExecEnds(Exec(argv), ts, rest);
  }

  lemma OneRedir(cmd: Tree, r: Redirection, rest: seq<Token>)
    requires (r == RedirOf('<', r.file) || r == RedirOf('>', r.file)) && Ends(rest)
    ensures WrapRest(cmd, RedirsOf([RedirSym(r), Word(r.file)] + rest)) == Ok(Redir(cmd, r), rest)
  {
    var more := [RedirSym(r), Word(r.file)] + rest;
    assert more[2..] == rest && RedirsOf(rest) == Redirs([], rest);
    assert [r] + [] == [r] && [r][..0] == [];
    assert RedirsOf(more) == Redirs([r], rest);
    assert Wrap(cmd, [r]) == Redir(cmd, r);
  }

  lemma RedirRound(cmd: Tree, r: Redirection, rest: seq<Token>)
    requires Printable(Redir(cmd, r)) && Ends(rest) && Reads(cmd, [Sym(')')] + ([RedirSym(r), Word(r.file)] + rest))
    ensures Reads(Redir(cmd, r), rest)
  {
    var more := [RedirSym(r), Word(r.file)] + rest;
    var ts := Paren(Tokens(cmd)) + more;
    ParenExec(cmd, more);
    OneRedir(cmd, r, rest);
    ExecEnds(Redir(cmd, r), ts, rest);
    Reassociate(Paren(Tokens(cmd)), [RedirSym(r), Word(r.file)], [], rest);
  }

  lemma PipeJoins(l: Tree, r: Tree, ts: seq<Token>, more: seq<Token>, rest: seq<Token>)
    requires ExecOf(ts) == Ok(l, [Sym('|')] + more) && PipeOf(more) == Ok(r, rest)
    ensures PipeOf(ts) == Ok(Pipe(l, r), rest)
  {
    assert ([Sym('|')] + more)[1..] == more;
  }

  lemma PipeRound(l: Tree, r: Tree, rest: seq<Token>)
    requires Ends(rest) && Reads(r, [Sym(')')] + rest)
    requires Reads(l, [Sym(')')] + ([Sym('|')] + (Paren(Tokens(r)) + rest)))
    ensures Reads(Pipe(l, r), rest)
  {
    var more := Paren(Tokens(r)) + rest;
    var bar := [Sym('|')] + more;
    var ts := Paren(Tokens(l)) + bar;
    ParenExec(l, bar);
    ParenPipe(r, rest);
    assert RedirsOf(bar) == Redirs([], bar);
    PipeJoins(l, r, ts, more, rest);
    LineEnds(Pipe(l, r), ts, rest);
    Reassociate(Paren(Tokens(l)), [Sym('|')], Paren(Tokens(r)), rest);
  }

  lemma ListJoins(l: Tree, r: Tree, ts: seq<Token>, more: seq<Token>, rest: seq<Token>)
    requires PipeOf(ts) == Ok(l, [Sym(';')] + more) && LineOf(more) == Ok(r, rest)
    ensures LineOf(ts) == Ok(List(l, r), rest)
  {
    assert ([Sym(';')] + more)[1..] == more;
  }

  lemma ListRound(l: Tree, r: Tree, rest: seq<Token>)
    requires Ends(rest) && Reads(r, [Sym(')')] + rest)
    requires Reads(l, [Sym(')')] + ([Sym(';')] + (Paren(Tokens(r)) + rest)))
    ensures Reads(List(l, r), rest)
  {
    var more := Paren(Tokens(r)) + rest;
    var semi := [Sym(';')] + more;
    var ts := Paren(Tokens(l)) + semi;
    ParenPipe(l, semi);
    ParenPipe(r, rest);
    LineEnds(r, more, rest);
    ListJoins(l, r, ts, more, rest);
    Reassociate(Paren(Tokens(l)), [Sym(';')], Paren(Tokens(r)), rest);
  }

  lemma BackRound(cmd: Tree, rest: seq<Token>)
    requires Ends(rest) && Reads(cmd, [Sym(')')] + ([Sym('&')] + rest))
    ensures Reads(Back(cmd), rest)
  {
    var more := [Sym('&')] + rest;
    var ts := Paren(Tokens(cmd)) + more;
    ParenPipe(cmd, more);
    assert more[1..] == rest && BacksOf(Back(cmd), rest) == (Back(cmd), rest);
    assert BacksOf(cmd, more) == (Back(cmd), rest);
    assert LineOf(ts) == Ok(Back(cmd), rest);
    Reassociate(Paren(Tokens(cmd)), [Sym('&')], [], rest);
  }

  /** In front of the end of a line or of a block, the tokens of a command parse to the command. */
  lemma {:induction false} LineRound(t: Tree, rest: seq<Token>)
    requires Printable(t) && Ends(rest)
    ensures Reads(t, rest)
    decreases t
  {
    match t
    case Exec(argv) =>
      ExecRound(argv, rest);
    case Redir(cmd, r) =>
      LineRound(cmd, [Sym(')')] + ([RedirSym(r), Word(r.file)] + rest));
      RedirRound(cmd, r, rest);
    case Pipe(l, r) =>
      LineRound(l, [Sym(')')] + ([Sym('|')] + (Paren(Tokens(r)) + rest)));
      LineRound(r, [Sym(')')] + rest);
      PipeRound(l, r, rest);
    case List(l, r) =>
      LineRound(l, [Sym(')')] + ([Sym(';')] + (Paren(Tokens(r)) + rest)));
      LineRound(r, [Sym(')')] + rest);
      ListRound(l, r, rest);
    case Back(cmd) =>
      LineRound(cmd, [Sym(')')] + ([Sym('&')] + rest));
      BackRound(cmd, rest);
  }

  /** Printing a command and parsing the line gives the command. */
  lemma RoundTrip(t: Tree)
    requires Printable(t)
    ensures Parse(Print(t)) == Some(t)
  {
    TokensPlain(t);
    LexShow(Tokens(t), Print(t));
    LineRound(t, []);
    assert Tokens(t) + [] == Tokens(t);
  }

  // ---------------------------------------------------------------- what the parser builds can be printed

  predicate PlainWords(ts: seq<Token>) {
    forall i {:trigger ts[i]} :: 0 <= i < |ts| && ts[i].Word? ==> Plain(ts[i].text)
  }

  predicate PlainRedirs(rs: seq<Redirection>) {
    forall i {:trigger rs[i]} :: 0 <= i < |rs| ==>
      Plain(rs[i].file) && (rs[i] == RedirOf('<', rs[i].file) || rs[i] == RedirOf('>', rs[i].file))
  }

  lemma {:induction false} LexPlain(s: string)
    ensures PlainWords(Lex(s))
    decreases |s|
  {
    var r := SkipSpace(s);
    if r != "" { LexPlain(r[First(r).1..]); }
  }

  lemma {:induction false} RedirsPlain(ts: seq<Token>)
    requires PlainWords(ts) && RedirsOf(ts).Redirs?
    ensures PlainRedirs(RedirsOf(ts).rs) && PlainWords(RedirsOf(ts).rest)
  {
    if Starts(ts, "<>") { RedirsPlain(ts[2..]); }
  }

  lemma {:induction false} WrapPrintable(t: Tree, rs: seq<Redirection>)
    requires Printable(t) && PlainRedirs(rs)
    ensures Printable(Wrap(t, rs))
  {
    if rs != [] { WrapPrintable(t, rs[..|rs| - 1]); }
  }

  // a result that can be printed, with plain words behind it
  predicate Good(r: Result) {
    r.Ok? ==> Printable(r.t) && PlainWords(r.rest)
  }

  lemma WrapRestGood(t: Tree, ts: seq<Token>)
    requires Printable(t) && PlainWords(ts)
    ensures Good(WrapRest(t, RedirsOf(ts)))
  {
    if RedirsOf(ts).Redirs? {
      RedirsPlain(ts);
      WrapPrintable(t, RedirsOf(ts).rs);
    }
  }

  lemma {:induction false} ArgsGood(argv: seq<string>, rs: seq<Redirection>, ts: seq<Token>)
    requires Printable(Exec(argv)) && PlainRedirs(rs) && PlainWords(ts)
    ensures Good(ArgsOf(argv, rs, ts))
    decreases |ts|
  {
    if ts == [] || Starts(ts, "|)&;") {
      WrapPrintable(Exec(argv), rs);
    } else if ts[0].Word? && |argv| + 1 < MAXARGS && RedirsOf(ts[1..]).Redirs? {
      RedirsPlain(ts[1..]);
      ArgsGood(argv + [ts[0].text], rs + RedirsOf(ts[1..]).rs, RedirsOf(ts[1..]).rest);
    }
  }

  lemma {:induction false} BlockGood(ts: seq<Token>)
    requires PlainWords(ts) && Starts(ts, "(")
    ensures Good(BlockOf(ts))
    decreases |ts|, 0
  {
    LineGood(ts[1..]);
    var r := LineOf(ts[1..]);
    if r.Ok? && Starts(r.rest, ")") { WrapRestGood(r.t, r.rest[1..]); }
  }

  lemma {:induction false} ExecGood(ts: seq<Token>)
    requires PlainWords(ts)
    ensures Good(ExecOf(ts))
    decreases |ts|, 1
  {
    if Starts(ts, "(") {
      BlockGood(ts);
    } else if RedirsOf(ts).Redirs? {
      RedirsPlain(ts);
      ArgsGood([], RedirsOf(ts).rs, RedirsOf(ts).rest);
    }
  }

  lemma {:induction false} PipeGood(ts: seq<Token>)
    requires PlainWords(ts)
    ensures Good(PipeOf(ts))
    decreases |ts|, 2
  {
    ExecGood(ts);
    var l := ExecOf(ts);
    if l.Ok? && Starts(l.rest, "|") { PipeGood(l.rest[1..]); }
  }

  lemma {:induction false} BacksGood(t: Tree, ts: seq<Token>)
    requires Printable(t) && PlainWords(ts)
    ensures Printable(BacksOf(t, ts).0) && PlainWords(BacksOf(t, ts).1)
    decreases |ts|
  {
    if Starts(ts, "&") { BacksGood(Back(t), ts[1..]); }
  }

  lemma {:induction false} LineGood(ts: seq<Token>)
    requires PlainWords(ts)
    ensures Good(LineOf(ts))
    decreases |ts|, 3
  {
    PipeGood(ts);
    var l := PipeOf(ts);
    if l.Ok? {
      BacksGood(l.t, l.rest);
      var rest := BacksOf(l.t, l.rest).1;
      if Starts(rest, ";") { LineGood(rest[1..]); }
    }
  }

  /** Every command that the shell accepts prints as a line that the shell reads as that command. */
  lemma AcceptedRoundTrip(s: string)
    requires Parse(s).Some?
    ensures Printable(Parse(s).value) && Parse(Print(Parse(s).value)) == Parse(s)
  {
    LexPlain(s);
    LineGood(Lex(s));
    RoundTrip(Parse(s).value);
  }

  /** Printable describes what the shell's parser can build. */
  lemma AcceptedExactly(t: Tree)
    ensures (exists s :: Parse(s) == Some(t)) <==> Printable(t)
  {
    if Printable(t) { RoundTrip(t); }
    if s :| Parse(s) == Some(t) { AcceptedRoundTrip(s); }
  }
}
