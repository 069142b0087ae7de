/**
 Printing a command with every part in parentheses and parsing the text gives the
 command back (user/sh.c:328-450).
 */
module ShellRoundTrip {
  import opened Shell

  /** A command with its words as text. */
  datatype Tree =
    | TExec(argv: seq<string>)
    | TRedir(cmd: Tree, file: string, kind: Kind)
    | TPipe(left: Tree, right: Tree)
    | TList(left: Tree, right: Tree)
    | TBack(cmd: Tree)

  predicate ValidWord(w: string) { w != "" && forall i :: 0 <= i < |w| ==> IsWord(w[i]) }

  /** What a line can express: words of word characters, and fewer than MAXARGS arguments. */
  predicate ValidTree(t: Tree) {
    match t
    case TExec(argv) => |argv| < MAXARGS && forall i :: 0 <= i < |argv| ==> ValidWord(argv[i])
    case TRedir(cmd, file, _) => ValidTree(cmd) && ValidWord(file)
    case TPipe(left, right) => ValidTree(left) && ValidTree(right)
    case TList(left, right) => ValidTree(left) && ValidTree(right)
    case TBack(cmd) => ValidTree(cmd)
  }

  predicate IsArrowOf(k: Kind, s: string) {
    |s| == (if k == Append then 2 else 1) && s[0] == (if k == In then '<' else '>') && s[|s| - 1] == s[0]
  }

  function Arrow(k: Kind): (s: string)
    ensures IsArrowOf(k, s)
  {
    match k
    case In => "<"
    case Out => ">"
    case Append => ">>"
  }

  function PrintArgs(ws: seq<string>): string {
    if ws == [] then "" else if |ws| == 1 then ws[0] else ws[0] + (" " + PrintArgs(ws[1..]))
  }

  function Parens(s: string): string { "(" + (s + ")") }

  function Print(t: Tree): string {
    match t
    case TExec(argv) => PrintArgs(argv)
    case TRedir(cmd, file, kind) => Parens(Print(cmd)) + (Arrow(kind) + file)
    case TPipe(left, right) => Parens(Print(left)) + ("|" + Parens(Print(right)))
    case TList(left, right) => Parens(Print(left)) + (";" + Parens(Print(right)))
    case TBack(cmd) => Parens(Print(cmd)) + "&"
  }

  /** The command that a parsed command stands for. */
  function Meaning(line: Line, c: Cmd): Tree
    requires InLine(line, c)
  {
    match c
    case Exec(args) => TExec(seq(|args|, i requires 0 <= i < |args| => line[args[i].q..args[i].eq]))
    case Redir(cmd, file, kind) => TRedir(Meaning(line, cmd), line[file.q..file.eq], kind)
    case Pipe(left, right) => TPipe(Meaning(line, left), Meaning(line, right))
    case List(left, right) => TList(Meaning(line, left), Meaning(line, right))
    case Back(cmd) => TBack(Meaning(line, cmd))
  }

  /** The words of c are ranges of the line. */
  predicate InLine(line: Line, c: Cmd) {
    match c
    case Exec(args) => forall i :: 0 <= i < |args| ==> args[i].q <= args[i].eq <= |line|
    case Redir(cmd, file, _) => InLine(line, cmd) && file.q <= file.eq <= |line|
    case Pipe(left, right) => InLine(line, left) && InLine(line, right)
    case List(left, right) => InLine(line, left) && InLine(line, right)
    case Back(cmd) => InLine(line, cmd)
  }

  // ---- text in a line ----

  predicate CharHere(line: Line, p: nat, s: string, i: nat)
    requires p + |s| <= |line| && i < |s|
  {
    line[p + i] == s[i]
  }

  /** The text s is at p. */
  predicate Here(line: Line, p: nat, s: string) {
    p + |s| <= |line| && forall i :: 0 <= i < |s| ==> CharHere(line, p, s, i)
  }

  lemma HereSplit(line: Line, p: nat, s: string, t: string)
    requires Here(line, p, s + t)
    ensures Here(line, p, s) && Here(line, p + |s|, t)
  {
    forall i | 0 <= i < |s| ensures CharHere(line, p, s, i) { assert CharHere(line, p, s + t, i); }
    var q := p + |s|;
    forall i | 0 <= i < |t| ensures CharHere(line, q, t, i) { assert CharHere(line, p, s + t, |s| + i); }
  }

  /** Where a command can end: at the end of the line or before a parenthesis. */
  predicate Ends(line: Line, e: nat) { At(line, e) == '\0' || At(line, e) == ')' }

  lemma HereParens(line: Line, p: nat, s: string)
    requires Here(line, p, Parens(s))
    ensures At(line, p) == '(' && Here(line, p + 1, s) && At(line, p + 1 + |s|) == ')' && p + 2 + |s| <= |line|
  {
    HereSplit(line, p, "(", s + ")");
    HereSplit(line, p + 1, s, ")");
    assert CharHere(line, p, "(", 0) && CharHere(line, p + 1 + |s|, ")", 0);
  }

  lemma WordHere(line: Line, p: nat, w: string)
    requires Here(line, p, w) && ValidWord(w) && !IsWord(At(line, p + |w|))
    ensures TokenAt(line, p) == Token('a', p, p + |w|, Skip(line, p + |w|))
  {
    forall k | p <= k < p + |w| ensures IsWord(line[k]) { assert CharHere(line, p, w, k - p); }
  }

  // ---- the parts of a command, where the printer puts them ----

  function ArgSpans(p: nat, ws: seq<string>): (r: seq<Span>)
    ensures |r| == |ws|
    decreases |ws|
  {
    if ws == [] then [] else [Span(p, p + |ws[0]|)] + ArgSpans(p + |ws[0]| + 1, ws[1..])
  }

  /** The command that the parser makes of the text of t at p. */
  function Placed(p: nat, t: Tree): Cmd
    decreases t
  {
    match t
    case TExec(argv) => Exec(ArgSpans(p, argv))
    case TRedir(cmd, file, kind) =>
      var q := p + |Parens(Print(cmd))| + |Arrow(kind)|;
      Redir(Placed(p + 1, cmd), Span(q, q + |file|), kind)
    case TPipe(left, right) => Pipe(Placed(p + 1, left), Placed(p + |Parens(Print(left))| + 2, right))
    case TList(left, right) => List(Placed(p + 1, left), Placed(p + |Parens(Print(left))| + 2, right))
    case TBack(cmd) => Back(Placed(p + 1, cmd))
  }

  lemma FirstChar(line: Line, p: nat, w: string)
    requires Here(line, p, w) && ValidWord(w)
    ensures p < |line| && IsWord(line[p])
  {
    assert CharHere(line, p, w, 0);
  }

  lemma ArgsEnd(line: Line, p: nat, args: seq<Span>)
    requires p <= |line| && Ends(line, p)
    ensures ArgsAt(line, p, args, args, p)
  {
    assert Skip(line, p) == p;
  }

  lemma NoRedirs(line: Line, p: nat, rs: seq<Redirect>)
    requires p <= |line| && !IsArrow(At(line, Skip(line, p)))
    ensures RedirsOf(line, p, rs) == Parsed(rs, Skip(line, p))
  {
  }

  /** A turn of parseexec's loop that finds a word. */
  lemma ArgTurn(line: Line, p: nat, args: seq<Span>)
    requires p < |line| && IsWord(line[p]) && |args| + 1 < MAXARGS
    ensures
      var t := TokenAt(line, p);
      var more := RedirsOf(line, t.next, []);
      ArgsOf(line, p, args, []) ==
        if more.Panic? then Panic else ArgsOf(line, more.pos, args + [Span(t.q, t.eq)], more.value)
  {
    assert Skip(line, p) == p;
  }

  /** parseexec takes one word. */
  lemma ArgStep(line: Line, p: nat, w: string, q: nat, args: seq<Span>)
    requires Here(line, p, w) && ValidWord(w) && !IsWord(At(line, p + |w|)) && |args| + 1 < MAXARGS
    requires q == Skip(line, p + |w|) && !IsArrow(At(line, q))
    ensures ArgsOf(line, p, args, []) == ArgsOf(line, q, args + [Span(p, p + |w|)], [])
  {
    FirstChar(line, p, w);
    ArgTurn(line, p, args);
    WordHere(line, p, w);
    assert Skip(line, q) == q;
    NoRedirs(line, q, []);
  }

  /** The text of the arguments behind the first. */
  lemma NextArg(line: Line, p: nat, ws: seq<string>)
    requires |ws| > 1 && Here(line, p, PrintArgs(ws)) && ValidWord(ws[0]) && ValidWord(ws[1])
    ensures
      var e := p + |ws[0]|;
      && Here(line, p, ws[0]) && At(line, e) == ' ' && Here(line, e + 1, PrintArgs(ws[1..]))
      && Skip(line, e) == e + 1 && IsWord(At(line, e + 1)) && e + 1 + |PrintArgs(ws[1..])| == p + |PrintArgs(ws)|
  {
    var e, rest := p + |ws[0]|, PrintArgs(ws[1..]);
    HereSplit(line, p, ws[0], " " + rest);
    HereSplit(line, e, " ", rest);
    assert rest == ws[1] + rest[|ws[1]|..];
    HereSplit(line, e + 1, ws[1], rest[|ws[1]|..]);
    FirstChar(line, e + 1, ws[1]);
    assert CharHere(line, e, " ", 0);
    assert Skip(line, e + 1) == e + 1;
  }

  ghost predicate ArgsFrom(line: Line, p: nat, args: seq<Span>, all: seq<Span>, e: nat) {
    p <= |line| && ArgsOf(line, p, args, []) == Parsed((all, []), e)
  }

  /** parseexec, at p after args, ends at e with all. The quantifier has one instance; it keeps ArgsOf folded. */
  ghost predicate ArgsAt(line: Line, p: nat, args: seq<Span>, all: seq<Span>, e: nat) {
    forall q: nat :: q == p ==> ArgsFrom(line, q, args, all, e)
  }

  lemma ArgThen(line: Line, p: nat, w: string, q: nat, args: seq<Span>, all: seq<Span>, e: nat)
    requires Here(line, p, w) && ValidWord(w) && !IsWord(At(line, p + |w|)) && |args| + 1 < MAXARGS
    requires q == Skip(line, p + |w|) && !IsArrow(At(line, q))
    requires ArgsAt(line, q, args + [Span(p, p + |w|)], all, e)
    ensures ArgsAt(line, p, args, all, e)
  {
    assert ArgsFrom(line, q, args + [Span(p, p + |w|)], all, e);
    ArgStep(line, p, w, q, args);
  }

  lemma LastArg(line: Line, p: nat, w: string, args: seq<Span>)
    requires Here(line, p, w) && ValidWord(w) && Ends(line, p + |w|) && |args| + 1 < MAXARGS
    ensures ArgsAt(line, p, args, args + [Span(p, p + |w|)], p + |w|)
  {
    assert Skip(line, p + |w|) == p + |w|;
    ArgsEnd(line, p + |w|, args + [Span(p, p + |w|)]);
    ArgThen(line, p, w, p + |w|, args, args + [Span(p, p + |w|)], p + |w|);
  }

  lemma MoreArgs(line: Line, p: nat, ws: seq<string>, args: seq<Span>, all: seq<Span>, end: nat)
    requires |ws| > 1 && Here(line, p, PrintArgs(ws)) && ValidWord(ws[0]) && ValidWord(ws[1]) && |args| + 1 < MAXARGS
    requires ArgsAt(line, p + |ws[0]| + 1, args + [Span(p, p + |ws[0]|)], all, end)
    ensures ArgsAt(line, p, args, all, end)
  {
    NextArg(line, p, ws);
    ArgThen(line, p, ws[0], p + |ws[0]| + 1, args, all, end);
  }

  lemma {:induction false} ArgsParse(line: Line, p: nat, ws: seq<string>, args: seq<Span>, all: seq<Span>, end: nat)
    requires Here(line, p, PrintArgs(ws)) && Ends(line, end) && |args| + |ws| < MAXARGS
    requires forall i :: 0 <= i < |ws| ==> ValidWord(ws[i])
    requires all == args + ArgSpans(p, ws) && end == p + |PrintArgs(ws)|
    ensures ArgsAt(line, p, args, all, end)
    decreases |ws|
  {
    if ws == [] {
      assert all == args;
      ArgsEnd(line, p, args);
    } else {
      var e := p + |ws[0]|;
      var args' := args + [Span(p, e)];
      assert all == args' + ArgSpans(e + 1, ws[1..]);
      if |ws| == 1 {
        assert end == e && all == args';
        LastArg(line, p, ws[0], args);
      } else {
        NextArg(line, p, ws);
        ArgsParse(line, e + 1, ws[1..], args', all, end);
        MoreArgs(line, p, ws, args, all, end);
      }
    }
  }

  // ---- what the parse functions return ----

  ghost predicate RedirsFrom(line: Line, p: nat, rs: seq<Redirect>, e: nat) {
    p <= |line| && RedirsOf(line, p, []) == Parsed(rs, e)
  }

  ghost predicate ExecFrom(line: Line, p: nat, c: Cmd, e: nat) { p <= |line| && ExecOf(line, p) == Parsed(c, e) }

  ghost predicate PipeFrom(line: Line, p: nat, c: Cmd, e: nat) { p <= |line| && PipeOf(line, p) == Parsed(c, e) }

  ghost predicate LineFrom(line: Line, p: nat, c: Cmd, e: nat) { p <= |line| && LineOf(line, p) == Parsed(c, e) }

  // The quantifiers have one instance; they keep the parse functions folded.

  ghost predicate RedirsAt(line: Line, p: nat, rs: seq<Redirect>, e: nat) {
    forall q: nat :: q == p ==> RedirsFrom(line, q, rs, e)
  }

  ghost predicate ExecAt(line: Line, p: nat, c: Cmd, e: nat) { forall q: nat :: q == p ==> ExecFrom(line, q, c, e) }

  ghost predicate PipeAt(line: Line, p: nat, c: Cmd, e: nat) { forall q: nat :: q == p ==> PipeFrom(line, q, c, e) }

  ghost predicate LineAt(line: Line, p: nat, c: Cmd, e: nat) { forall q: nat :: q == p ==> LineFrom(line, q, c, e) }

  lemma ExecWords(line: Line, p: nat, ws: seq<string>, end: nat)
    requires Here(line, p, PrintArgs(ws)) && Ends(line, end) && |ws| < MAXARGS && end == p + |PrintArgs(ws)|
    requires forall i :: 0 <= i < |ws| ==> ValidWord(ws[i])
    ensures ExecAt(line, p, Exec(ArgSpans(p, ws)), end)
  {
    ArgsParse(line, p, ws, [], ArgSpans(p, ws), end);
    assert ArgsFrom(line, p, [], ArgSpans(p, ws), end);
    StartsWord(line, p, ws);
    assert Skip(line, p) == p;
    NoRedirs(line, p, []);
  }

  lemma StartsWord(line: Line, p: nat, ws: seq<string>)
    requires Here(line, p, PrintArgs(ws)) && Ends(line, p + |PrintArgs(ws)|)
    requires forall i :: 0 <= i < |ws| ==> ValidWord(ws[i])
    ensures IsWord(At(line, p)) || Ends(line, p)
  {
    if |ws| > 0 {
      assert PrintArgs(ws) == ws[0] + PrintArgs(ws)[|ws[0]|..];
      HereSplit(line, p, ws[0], PrintArgs(ws)[|ws[0]|..]);
      FirstChar(line, p, ws[0]);
    }
  }

  /** A one-character symbol, with no space behind it. */
  lemma SymbolHere(line: Line, p: nat)
    requires p < |line| && IsSymbol(line[p]) && !IsSpace(At(line, p + 1)) && (line[p] == '>' ==> At(line, p + 1) != '>')
    ensures Skip(line, p) == p && TokenAt(line, p) == Token(line[p], p, p + 1, p + 1)
  {
    assert Skip(line, p + 1) == p + 1;
  }

  /** The text of a block, and what follows its parenthesis. */
  ghost predicate Block(line: Line, p: nat, c: Cmd, k: nat) {
    && p < k < |line| && line[p] == '(' && !IsSpace(line[p + 1]) && LineAt(line, p + 1, c, k)
    && line[k] == ')' && !IsSpace(At(line, k + 1))
  }

  lemma BlockIs(line: Line, p: nat, c: Cmd, k: nat)
    requires Block(line, p, c, k)
    ensures ExecOf(line, p) == BlockOf(line, p) == BlockEnd(line, k, c)
  {
    SymbolHere(line, p);
    assert LineFrom(line, p + 1, c, k);
  }

  lemma BlockEndIs(line: Line, c: Cmd, k: nat, rs: seq<Redirect>, e: nat)
    requires k < |line| && line[k] == ')' && !IsSpace(At(line, k + 1)) && RedirsAt(line, k + 1, rs, e)
    ensures BlockEnd(line, k, c) == Parsed(Wrap(c, rs), e)
  {
    assert RedirsFrom(line, k + 1, rs, e);
    SymbolHere(line, k);
  }

  lemma ExecBlock(line: Line, p: nat, c: Cmd, k: nat)
    requires Block(line, p, c, k) && !IsArrow(At(line, k + 1))
    ensures ExecAt(line, p, c, k + 1)
  {
    assert Skip(line, k + 1) == k + 1;
    NoRedirs(line, k + 1, []);
    BlockEndIs(line, c, k, [], k + 1);
    BlockIs(line, p, c, k);
  }

  lemma ArrowChars(line: Line, p: nat, kind: Kind, s: string)
    requires IsArrowOf(kind, s) && Here(line, p, s)
    ensures line[p] == (if kind == In then '<' else '>') && line[p + |s| - 1] == line[p]
  {
    assert CharHere(line, p, s, 0) && CharHere(line, p, s, |s| - 1);
  }

  lemma ArrowToken(line: Line, p: nat, kind: Kind, n: nat)
    requires n == (if kind == Append then 2 else 1) && p + n <= |line| && IsWord(At(line, p + n))
    requires line[p] == (if kind == In then '<' else '>') && line[p + n - 1] == line[p]
    ensures Skip(line, p) == p && KindOf(TokenAt(line, p).kind) == kind && TokenAt(line, p).next == p + n
  {
    if kind == Append {
      assert Skip(line, p + 2) == p + 2;
    } else {
      SymbolHere(line, p);
    }
  }

  lemma ArrowHere(line: Line, p: nat, kind: Kind, s: string)
    requires IsArrowOf(kind, s) && Here(line, p, s) && IsWord(At(line, p + |s|))
    ensures IsArrow(line[p]) && Skip(line, p) == p
    ensures KindOf(TokenAt(line, p).kind) == kind && TokenAt(line, p).next == p + |s|
  {
    ArrowChars(line, p, kind, s);
    ArrowToken(line, p, kind, |s|);
  }

  lemma RedirHere(line: Line, p: nat, kind: Kind, s: string, file: string)
    requires IsArrowOf(kind, s) && Here(line, p, s) && Here(line, p + |s|, file) && ValidWord(file)
    requires Ends(line, p + |s| + |file|)
    ensures IsArrow(At(line, p))
    ensures
      var q := p + |s|;
      RedirsAt(line, p, [Redirect(Span(q, q + |file|), kind)], q + |file|)
  {
    var q := p + |s|;
    FirstChar(line, q, file);
    WordHere(line, q, file);
    ArrowHere(line, p, kind, s);
    assert Skip(line, q + |file|) == q + |file|;
    var r := Redirect(Span(q, q + |file|), kind);
    assert [] + [r] == [r];
    NoRedirs(line, q + |file|, [r]);
  }

  lemma WrapOne(c: Cmd, r: Redirect)
    ensures Wrap(c, [r]) == Redir(c, r.file, r.kind)
  {
    assert [r][..0] == [];
  }

  lemma RedirEnd(line: Line, c: Cmd, k: nat, kind: Kind, s: string, file: string)
    requires k < |line| && line[k] == ')'
    requires IsArrowOf(kind, s) && Here(line, k + 1, s) && Here(line, k + 1 + |s|, file) && ValidWord(file)
    requires Ends(line, k + 1 + |s| + |file|)
    ensures
      var q := k + 1 + |s|;
      BlockEnd(line, k, c) == Parsed(Redir(c, Span(q, q + |file|), kind), q + |file|)
  {
    var q := k + 1 + |s|;
    var r := Redirect(Span(q, q + |file|), kind);
    WrapOne(c, r);
    RedirHere(line, k + 1, kind, s, file);
    BlockEndIs(line, c, k, [r], q + |file|);
  }

  /** A block with one redirection. */
  lemma ExecRedir(line: Line, p: nat, c: Cmd, k: nat, kind: Kind, s: string, file: string)
    requires Block(line, p, c, k)
    requires IsArrowOf(kind, s) && Here(line, k + 1, s) && Here(line, k + 1 + |s|, file) && ValidWord(file)
    requires Ends(line, k + 1 + |s| + |file|)
    ensures
      var q := k + 1 + |s|;
      ExecAt(line, p, Redir(c, Span(q, q + |file|), kind), q + |file|)
  {
    RedirEnd(line, c, k, kind, s, file);
    BlockIs(line, p, c, k);
  }

  lemma PipeOne(line: Line, p: nat, c: Cmd, e: nat)
    requires ExecAt(line, p, c, e) && !IsSpace(At(line, e)) && At(line, e) != '|'
    ensures PipeAt(line, p, c, e)
  {
    assert ExecFrom(line, p, c, e);
    assert Skip(line, e) == e;
  }

  lemma PipeTwo(line: Line, p: nat, l: Cmd, k: nat, r: Cmd, e: nat)
    requires ExecAt(line, p, l, k) && At(line, k) == '|' && !IsSpace(At(line, k + 1)) && PipeAt(line, k + 1, r, e)
    ensures PipeAt(line, p, Pipe(l, r), e)
  {
    assert ExecFrom(line, p, l, k) && PipeFrom(line, k + 1, r, e);
    SymbolHere(line, k);
  }

  lemma LineOne(line: Line, p: nat, c: Cmd, e: nat)
    requires PipeAt(line, p, c, e) && Ends(line, e)
    ensures LineAt(line, p, c, e)
  {
    assert PipeFrom(line, p, c, e);
    assert Skip(line, e) == e;
  }

  lemma LineBack(line: Line, p: nat, c: Cmd, k: nat)
    requires PipeAt(line, p, c, k) && At(line, k) == '&' && Ends(line, k + 1)
    ensures LineAt(line, p, Back(c), k + 1)
  {
    assert PipeFrom(line, p, c, k);
    SymbolHere(line, k);
    assert Skip(line, k + 1) == k + 1;
    assert BacksOf(line, k + 1, Back(c)) == (Back(c), k + 1);
  }

  lemma LineList(line: Line, p: nat, c: Cmd, k: nat, d: Cmd, e: nat)
    requires PipeAt(line, p, c, k) && At(line, k) == ';' && !IsSpace(At(line, k + 1)) && LineAt(line, k + 1, d, e)
    ensures LineAt(line, p, List(c, d), e)
  {
    assert PipeFrom(line, p, c, k) && LineFrom(line, k + 1, d, e);
    SymbolHere(line, k);
    assert BacksOf(line, k, c) == (c, k);
  }

  // ---- the round trip ----

  lemma FirstNotSpace(line: Line, p: nat, t: Tree)
    requires ValidTree(t) && Here(line, p, Print(t)) && Ends(line, p + |Print(t)|)
    ensures !IsSpace(At(line, p))
  {
    if t.TExec? {
      StartsWord(line, p, t.argv);
    } else {
      assert CharHere(line, p, Print(t), 0);
    }
  }

  /** A command in parentheses, once its inside is known to parse. */
  lemma BlockParse(line: Line, p: nat, t: Tree)
    requires ValidTree(t) && Here(line, p, Parens(Print(t)))
      && LineAt(line, p + 1, Placed(p + 1, t), p + 1 + |Print(t)|)
    requires !IsArrow(At(line, p + |Parens(Print(t))|)) && !IsSpace(At(line, p + |Parens(Print(t))|))
    ensures ExecAt(line, p, Placed(p + 1, t), p + |Parens(Print(t))|)
  {
    HereParens(line, p, Print(t));
    FirstNotSpace(line, p + 1, t);
    ExecBlock(line, p, Placed(p + 1, t), p + 1 + |Print(t)|);
  }

  /** Two parts in parentheses, with a symbol between them. */
  lemma TwoParts(line: Line, p: nat, a: string, sep: string, b: string)
    requires |sep| == 1 && Here(line, p, Parens(a) + (sep + Parens(b)))
    ensures
      var k := p + |Parens(a)|;
      && Here(line, p, Parens(a)) && At(line, k) == sep[0] && Here(line, k + 1, Parens(b)) && At(line, k + 1) == '('
      && k < |line| && Ends(line, k - 1) && Ends(line, k + |Parens(b)|)
      && Here(line, p + 1, a) && Here(line, k + 2, b) && k + 1 + |Parens(b)| == p + |Parens(a) + (sep + Parens(b))|
  {
    var k := p + |Parens(a)|;
    HereSplit(line, p, Parens(a), sep + Parens(b));
    HereSplit(line, k, sep, Parens(b));
    assert CharHere(line, k, sep, 0);
    HereParens(line, p, a);
    HereParens(line, k + 1, b);
  }

  /** The left part of a pipe or list, as parsepipe and parseline see it. */
  lemma LeftParse(line: Line, p: nat, l: Tree, sep: string, b: string)
    requires ValidTree(l) && |sep| == 1 && Here(line, p, Parens(Print(l)) + (sep + Parens(b)))
    requires (sep[0] == '|' || sep[0] == ';') && LineAt(line, p + 1, Placed(p + 1, l), p + 1 + |Print(l)|)
    ensures ExecAt(line, p, Placed(p + 1, l), p + |Parens(Print(l))|)
    ensures sep[0] == ';' ==> PipeAt(line, p, Placed(p + 1, l), p + |Parens(Print(l))|)
  {
    TwoParts(line, p, Print(l), sep, b);
    BlockParse(line, p, l);
    if sep[0] == ';' { PipeOne(line, p, Placed(p + 1, l), p + |Parens(Print(l))|); }
  }

  /** A part in parentheses where a command ends. */
  lemma RightParse(line: Line, q: nat, r: Tree)
    requires ValidTree(r) && Here(line, q, Parens(Print(r))) && Ends(line, q + |Parens(Print(r))|)
    requires LineAt(line, q + 1, Placed(q + 1, r), q + 1 + |Print(r)|)
    ensures PipeAt(line, q, Placed(q + 1, r), q + |Parens(Print(r))|)
    ensures LineAt(line, q, Placed(q + 1, r), q + |Parens(Print(r))|)
  {
    BlockParse(line, q, r);
    PipeOne(line, q, Placed(q + 1, r), q + |Parens(Print(r))|);
    LineOne(line, q, Placed(q + 1, r), q + |Parens(Print(r))|);
  }

  lemma PipeParse(line: Line, p: nat, l: Tree, r: Tree, k: nat, e: nat)
    requires ValidTree(l) && ValidTree(r) && Here(line, p, Parens(Print(l)) + ("|" + Parens(Print(r)))) && Ends(line, e)
    requires k == p + |Parens(Print(l))| && e == k + 1 + |Parens(Print(r))|
    requires LineAt(line, p + 1, Placed(p + 1, l), p + 1 + |Print(l)|)
    requires LineAt(line, k + 2, Placed(k + 2, r), k + 2 + |Print(r)|)
    ensures LineAt(line, p, Pipe(Placed(p + 1, l), Placed(k + 2, r)), e)
  {
    TwoParts(line, p, Print(l), "|", Print(r));
    LeftParse(line, p, l, "|", Print(r));
    RightParse(line, k + 1, r);
    PipeTwo(line, p, Placed(p + 1, l), k, Placed(k + 2, r), e);
    LineOne(line, p, Pipe(Placed(p + 1, l), Placed(k + 2, r)), e);
  }

  lemma ListParse(line: Line, p: nat, l: Tree, r: Tree, k: nat, e: nat)
    requires ValidTree(l) && ValidTree(r) && Here(line, p, Parens(Print(l)) + (";" + Parens(Print(r)))) && Ends(line, e)
    requires k == p + |Parens(Print(l))| && e == k + 1 + |Parens(Print(r))|
    requires LineAt(line, p + 1, Placed(p + 1, l), p + 1 + |Print(l)|)
    requires LineAt(line, k + 2, Placed(k + 2, r), k + 2 + |Print(r)|)
    ensures LineAt(line, p, List(Placed(p + 1, l), Placed(k + 2, r)), e)
  {
    TwoParts(line, p, Print(l), ";", Print(r));
    LeftParse(line, p, l, ";", Print(r));
    RightParse(line, k + 1, r);
    LineList(line, p, Placed(p + 1, l), k, Placed(k + 2, r), e);
  }

  lemma BackParse(line: Line, p: nat, t: Tree, k: nat)
    requires ValidTree(t) && Here(line, p, Parens(Print(t)) + "&") && Ends(line, k + 1) && k == p + |Parens(Print(t))|
    requires LineAt(line, p + 1, Placed(p + 1, t), p + 1 + |Print(t)|)
    ensures LineAt(line, p, Back(Placed(p + 1, t)), k + 1)
  {
    HereSplit(line, p, Parens(Print(t)), "&");
    assert CharHere(line, k, "&", 0);
    BlockParse(line, p, t);
    PipeOne(line, p, Placed(p + 1, t), k);
    LineBack(line, p, Placed(p + 1, t), k);
  }

  lemma RedirParse(line: Line, p: nat, t: Tree, kind: Kind, s: string, file: string, k: nat, q: nat, e: nat)
    requires ValidTree(t) && ValidWord(file) && IsArrowOf(kind, s) && Here(line, p, Parens(Print(t)) + (s + file))
    requires k == p + |Parens(Print(t))| && q == k + |s| && e == q + |file| && Ends(line, e)
    requires LineAt(line, p + 1, Placed(p + 1, t), p + 1 + |Print(t)|)
    ensures LineAt(line, p, Redir(Placed(p + 1, t), Span(q, e), kind), e)
  {
    var c := Redir(Placed(p + 1, t), Span(q, e), kind);
    HereSplit(line, p, Parens(Print(t)), s + file);
    HereSplit(line, k, s, file);
    HereParens(line, p, Print(t));
    FirstNotSpace(line, p + 1, t);
    ArrowChars(line, k, kind, s);
    ExecRedir(line, p, Placed(p + 1, t), k - 1, kind, s, file);
    PipeOne(line, p, c, e);
    LineOne(line, p, c, e);
  }

  /** The text of a command, where it may end, parses to the command. */
  lemma {:induction false} LineParse(line: Line, p: nat, t: Tree, e: nat)
    requires ValidTree(t) && Here(line, p, Print(t)) && e == p + |Print(t)| && Ends(line, e)
    ensures LineAt(line, p, Placed(p, t), e)
    decreases t, 1
  {
    if t.TExec? {
      ExecWords(line, p, t.argv, e);
      PipeOne(line, p, Exec(ArgSpans(p, t.argv)), e);
      LineOne(line, p, Exec(ArgSpans(p, t.argv)), e);
    } else if t.TPipe? || t.TList? {
      PairParse(line, p, t, e);
    } else {
      OneParse(line, p, t, e);
    }
  }

  lemma {:induction false} PairParse(line: Line, p: nat, t: Tree, e: nat)
    requires ValidTree(t) && (t.TPipe? || t.TList?) && Here(line, p, Print(t)) && e == p + |Print(t)| && Ends(line, e)
    ensures LineAt(line, p, Placed(p, t), e)
    decreases t, 0
  {
    var k := p + |Parens(Print(t.left))|;
    TwoParts(line, p, Print(t.left), if t.TPipe? then "|" else ";", Print(t.right));
    LineParse(line, p + 1, t.left, k - 1);
    LineParse(line, k + 2, t.right, e - 1);
    if t.TPipe? {
      PipeParse(line, p, t.left, t.right, k, e);
    } else {
      ListParse(line, p, t.left, t.right, k, e);
    }
  }

  lemma {:induction false} OneParse(line: Line, p: nat, t: Tree, e: nat)
    requires ValidTree(t) && (t.TRedir? || t.TBack?) && Here(line, p, Print(t)) && e == p + |Print(t)| && Ends(line, e)
    ensures LineAt(line, p, Placed(p, t), e)
    decreases t, 0
  {
    var k := p + |Parens(Print(t.cmd))|;
    HereSplit(line, p, Parens(Print(t.cmd)), if t.TRedir? then Arrow(t.kind) + t.file else "&");
    HereParens(line, p, Print(t.cmd));
    LineParse(line, p + 1, t.cmd, k - 1);
    if t.TRedir? {
      RedirParse(line, p, t.cmd, t.kind, Arrow(t.kind), t.file, k, k + |Arrow(t.kind)|, e);
    } else {
      BackParse(line, p, t.cmd, k);
    }
  }

  // ---- what the placed command means ----

  lemma WordIs(line: Line, p: nat, w: string)
    requires Here(line, p, w)
    ensures p + |w| <= |line| && line[p..p + |w|] == w
  {
    forall i | 0 <= i < |w| ensures line[p..p + |w|][i] == w[i] { assert CharHere(line, p, w, i); }
  }

  lemma {:induction false} ArgsMean(line: Line, p: nat, ws: seq<string>, i: nat)
    requires Here(line, p, PrintArgs(ws)) && i < |ws|
    ensures
      var a := ArgSpans(p, ws)[i];
      a.q <= a.eq <= |line| && line[a.q..a.eq] == ws[i]
    decreases |ws|
  {
    if |ws| == 1 {
      WordIs(line, p, ws[0]);
    } else {
      HereSplit(line, p, ws[0], " " + PrintArgs(ws[1..]));
      HereSplit(line, p + |ws[0]|, " ", PrintArgs(ws[1..]));
      WordIs(line, p, ws[0]);
      if i > 0 { ArgsMean(line, p + |ws[0]| + 1, ws[1..], i - 1); }
    }
  }

  ghost predicate Means(line: Line, c: Cmd, t: Tree) { InLine(line, c) && Meaning(line, c) == t }

  lemma ExecMeans(line: Line, p: nat, argv: seq<string>)
    requires Here(line, p, PrintArgs(argv))
    ensures Means(line, Exec(ArgSpans(p, argv)), TExec(argv))
  {
    var args := ArgSpans(p, argv);
    forall i | 0 <= i < |argv| ensures args[i].q <= args[i].eq <= |line| && line[args[i].q..args[i].eq] == argv[i] {
      ArgsMean(line, p, argv, i);
    }
    assert Meaning(line, Exec(args)).argv == argv;
  }

  lemma {:induction false} PlacedMeans(line: Line, p: nat, t: Tree)
    requires Here(line, p, Print(t))
    ensures Means(line, Placed(p, t), t)
    decreases t, 1
  {
    match t {
      case TExec(argv) => ExecMeans(line, p, argv);
      case TRedir(cmd, file, kind) => RedirMeans(line, p, cmd, file, kind);
      case TPipe(_, _) => PairMeans(line, p, t, "|");
      case TList(_, _) => PairMeans(line, p, t, ";");
      case TBack(cmd) =>
        HereSplit(line, p, Parens(Print(cmd)), "&");
        HereParens(line, p, Print(cmd));
        PlacedMeans(line, p + 1, cmd);
    }
  }

  lemma {:induction false} RedirMeans(line: Line, p: nat, cmd: Tree, file: string, kind: Kind)
    requires Here(line, p, Parens(Print(cmd)) + (Arrow(kind) + file))
    ensures Means(line, Placed(p, TRedir(cmd, file, kind)), TRedir(cmd, file, kind))
    decreases cmd, 2
  {
    var k := p + |Parens(Print(cmd))|;
    HereSplit(line, p, Parens(Print(cmd)), Arrow(kind) + file);
    HereSplit(line, k, Arrow(kind), file);
    HereParens(line, p, Print(cmd));
    WordIs(line, k + |Arrow(kind)|, file);
    PlacedMeans(line, p + 1, cmd);
  }

  lemma {:induction false} PairMeans(line: Line, p: nat, t: Tree, sep: string)
    requires (t.TPipe? || t.TList?) && |sep| == 1
      && Here(line, p, Parens(Print(t.left)) + (sep + Parens(Print(t.right))))
    ensures Means(line, Placed(p + 1, t.left), t.left)
    ensures Means(line, Placed(p + |Parens(Print(t.left))| + 2, t.right), t.right)
    decreases t, 0
  {
    TwoParts(line, p, Print(t.left), sep, Print(t.right));
    PlacedMeans(line, p + 1, t.left);
    PlacedMeans(line, p + |Parens(Print(t.left))| + 2, t.right);
  }

  /** parsecmd of the printed form of a command gives that command. */
  lemma RoundTrip(t: Tree)
    requires ValidTree(t)
    ensures
      var r := CmdOf(Print(t));
      r.Parsed? && r.pos == |Print(t)| && InLine(Print(t), r.value) && Meaning(Print(t), r.value) == t
  {
    var line := Print(t);
    forall i | 0 <= i < |line| ensures CharHere(line, 0, line, i) { }
    PlacedMeans(line, 0, t);
    LineParse(line, 0, t, |line|);
    assert LineFrom(line, 0, Placed(0, t), |line|);
  }
}
