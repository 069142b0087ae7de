/**
 The grammar of command lines (user/sh.c:328-446). A line is its sequence of tokens; the
 parser accepts exactly the token sequences of the grammar below, and what it returns
 means the command that the grammar says, for every line and every spacing.
 */
module ShellGrammar {
  import opened Shell
  import opened ShellRoundTrip

  // ---- tokens ----

  /** A word, or one of < > | & ; ( ) and + for >>. */
  datatype Tok = Word(w: string) | Sym(c: char)

  function TokOf(line: Line, t: Token): Tok
    requires t.q <= t.eq <= |line|
  {
    if t.kind == 'a' then Word(line[t.q..t.eq]) else Sym(t.kind)
  }

  /** A token takes up text. */
  lemma TokenMoves(line: Line, i: nat)
    requires i <= |line| && TokenAt(line, i).kind != '\0'
    ensures i < TokenAt(line, i).next
  {
  }

  /** The tokens of the line from i on. */
  function Toks(line: Line, i: nat): seq<Tok>
    requires i <= |line|
    decreases |line| - i
  {
    var t := TokenAt(line, i);
    if t.kind == '\0' then []
    else
      TokenMoves(line, i);
      [TokOf(line, t)] + Toks(line, t.next)
  }

  ghost predicate NoNul(line: Line) { forall i :: 0 <= i < |line| ==> line[i] != '\0' }

  // ---- the grammar ----

  datatype Item = Arg(w: string) | File(kind: Kind, w: string)

  /** A simple command is any sequence of words and redirections; redirections may follow a parenthesis. */
  datatype Part = Simple(items: seq<Item>) | Group(body: Sentence, files: seq<Item>)

  datatype Pipeline = One(part: Part) | More(part: Part, rest: Pipeline)

  /** A pipeline with any number of & behind it, and what follows a semicolon. */
  datatype Sentence = Last(pipe: Pipeline, backs: nat) | Then(pipe: Pipeline, backs: nat, next: Sentence)

  function ArrowSym(k: Kind): char {
    match k
    case In => '<'
    case Out => '>'
    case Append => '+'
  }

  function FlatItem(x: Item): seq<Tok> {
    match x
    case Arg(w) => [Word(w)]
    case File(k, w) => [Sym(ArrowSym(k)), Word(w)]
  }

  function FlatItems(xs: seq<Item>): seq<Tok> {
    if xs == [] then [] else FlatItem(xs[0]) + FlatItems(xs[1..])
  }

  function Amps(n: nat): seq<Tok> { if n == 0 then [] else [Sym('&')] + Amps(n - 1) }

  function FlatPart(p: Part): seq<Tok> {
    match p
    case Simple(xs) => FlatItems(xs)
    case Group(b, fs) => [Sym('(')] + (Flat(b) + ([Sym(')')] + FlatItems(fs)))
  }

  function FlatPipe(p: Pipeline): seq<Tok> {
    match p
    case One(x) => FlatPart(x)
    case More(x, r) => FlatPart(x) + ([Sym('|')] + FlatPipe(r))
  }

  function Flat(s: Sentence): seq<Tok> {
    match s
    case Last(p, n) => FlatPipe(p) + Amps(n)
    case Then(p, n, r) => FlatPipe(p) + (Amps(n) + ([Sym(';')] + Flat(r)))
  }

  // ---- what a sentence means ----

  function Words(xs: seq<Item>): seq<string> {
    if xs == [] then [] else (if xs[0].Arg? then [xs[0].w] else []) + Words(xs[1..])
  }

  /** The redirections among xs around t, the first one innermost. */
  function Around(t: Tree, xs: seq<Item>): Tree
    decreases |xs|
  {
    if xs == [] then t
    else Around(if xs[0].File? then TRedir(t, xs[0].w, xs[0].kind) else t, xs[1..])
  }

  function Backs(t: Tree, n: nat): Tree
    decreases n
  {
    if n == 0 then t else Backs(TBack(t), n - 1)
  }

  function PartTree(p: Part): Tree {
    match p
    case Simple(xs) => Around(TExec(Words(xs)), xs)
    case Group(b, fs) => Around(TreeOf(b), fs)
  }

  function PipeTree(p: Pipeline): Tree {
    match p
    case One(x) => PartTree(x)
    case More(x, r) => TPipe(PartTree(x), PipeTree(r))
  }

  function TreeOf(s: Sentence): Tree {
    match s
    case Last(p, n) => Backs(PipeTree(p), n)
    case Then(p, n, r) => TList(Backs(PipeTree(p), n), TreeOf(r))
  }

  predicate AllFiles(xs: seq<Item>) { forall i :: 0 <= i < |xs| ==> xs[i].File? }

  /** Fewer than MAXARGS words in each simple command. */
  predicate PartOk(p: Part) {
    match p
    case Simple(xs) => |Words(xs)| < MAXARGS
    case Group(b, fs) => SentenceOk(b) && AllFiles(fs)
  }

  predicate PipeOk(p: Pipeline) {
    match p
    case One(x) => PartOk(x)
    case More(x, r) => PartOk(x) && PipeOk(r)
  }

  predicate SentenceOk(s: Sentence) {
    match s
    case Last(p, _) => PipeOk(p)
    case Then(p, _, r) => PipeOk(p) && SentenceOk(r)
  }

  // ---- the first token ----

  lemma SkipTwice(line: Line, i: nat)
    requires i <= |line|
    ensures Skip(line, Skip(line, i)) == Skip(line, i) && TokenAt(line, Skip(line, i)) == TokenAt(line, i)
    ensures Toks(line, Skip(line, i)) == Toks(line, i)
  {
  }

  /** What peek sees is the first token. */
  lemma FirstTok(line: Line, i: nat)
    requires i <= |line|
    ensures
      var c, ts := At(line, Skip(line, i)), Toks(line, i);
      && (ts == [] <==> c == '\0')
      && (ts != [] ==> ts == [TokOf(line, TokenAt(line, i))] + Toks(line, TokenAt(line, i).next))
      && (ts != [] && IsSymbol(c) ==> ts[0] == Sym(if c == '>' then TokenAt(line, i).kind else c))
      && (ts != [] && !IsSymbol(c) ==> ts[0].Word? && TokenAt(line, i).kind == 'a')
      && (c == '>' ==> TokenAt(line, i).kind == '>' || TokenAt(line, i).kind == '+')
  {
  }

  predicate IsArrowTok(t: Tok) { t == Sym('<') || t == Sym('>') || t == Sym('+') }

  predicate IsEndTok(t: Tok) { t == Sym('|') || t == Sym(')') || t == Sym('&') || t == Sym(';') }

  /** peek for an arrow, or for the end of a simple command, on the tokens. */
  lemma PeekTok(line: Line, i: nat)
    requires i <= |line|
    ensures
      var c, ts := At(line, Skip(line, i)), Toks(line, i);
      && (IsArrow(c) <==> ts != [] && IsArrowTok(ts[0]))
      && (EndsExec(c) <==> ts != [] && IsEndTok(ts[0]))
      && (c == '(' <==> ts != [] && ts[0] == Sym('(')) && (c == ')' <==> ts != [] && ts[0] == Sym(')'))
      && (c == '|' <==> ts != [] && ts[0] == Sym('|')) && (c == '&' <==> ts != [] && ts[0] == Sym('&'))
      && (c == ';' <==> ts != [] && ts[0] == Sym(';'))
  {
    FirstTok(line, i);
  }

  // ---- redirections and tokens ----

  predicate FilesIn(line: Line, rs: seq<Redirect>) {
    forall k :: 0 <= k < |rs| ==> rs[k].file.q <= rs[k].file.eq <= |line|
  }

  /** The redirections that rs stands for. */
  function FilesOf(line: Line, rs: seq<Redirect>): (fs: seq<Item>)
    requires FilesIn(line, rs)
    ensures |fs| == |rs| && AllFiles(fs)
  {
    seq(|rs|, k requires 0 <= k < |rs| => File(rs[k].kind, line[rs[k].file.q..rs[k].file.eq]))
  }

  /** rs with what has been parsed since. */
  ghost predicate Added(line: Line, rs: seq<Redirect>, rs': seq<Redirect>, fs: seq<Item>) {
    FilesIn(line, rs) && FilesIn(line, rs') && FilesOf(line, rs') == FilesOf(line, rs) + fs
  }

  lemma AddOne(line: Line, rs: seq<Redirect>, x: Redirect)
    requires FilesIn(line, rs) && x.file.q <= x.file.eq <= |line|
    ensures Added(line, rs, rs + [x], [File(x.kind, line[x.file.q..x.file.eq])])
  {
  }

  lemma AddThen(line: Line, rs: seq<Redirect>, rs': seq<Redirect>, rs'': seq<Redirect>, a: seq<Item>, b: seq<Item>)
    requires Added(line, rs, rs', a) && Added(line, rs', rs'', b)
    ensures Added(line, rs, rs'', a + b)
  {
  }

  lemma {:induction false} FlatJoin(xs: seq<Item>, ys: seq<Item>)
    ensures FlatItems(xs + ys) == FlatItems(xs) + FlatItems(ys)
    decreases |xs|
  {
    if xs == [] {
      assert xs + ys == ys;
    } else {
      assert (xs + ys)[1..] == xs[1..] + ys;
      FlatJoin(xs[1..], ys);
      Joined(FlatItem(xs[0]), FlatItems(xs[1..]), FlatItems(ys));
    }
  }

  lemma {:induction false} WordsJoin(xs: seq<Item>, ys: seq<Item>)
    ensures Words(xs + ys) == Words(xs) + Words(ys)
    decreases |xs|
  {
    if xs == [] {
      assert xs + ys == ys;
    } else {
      assert (xs + ys)[1..] == xs[1..] + ys;
      WordsJoin(xs[1..], ys);
      Joined(if xs[0].Arg? then [xs[0].w] else [], Words(xs[1..]), Words(ys));
    }
  }

  lemma Joined<T>(a: seq<T>, b: seq<T>, c: seq<T>)
    ensures a + b + c == a + (b + c)
  {
  }

  ghost predicate ReadsFrom(line: Line, i: nat, ts: seq<Tok>, j: nat) {
    i <= |line| && j <= |line| && Toks(line, i) == ts + Toks(line, j)
  }

  /** The text from i to j has the tokens ts. The quantifier has one instance; it keeps Toks folded. */
  ghost predicate Reads(line: Line, i: nat, ts: seq<Tok>, j: nat) {
    forall k: nat :: k == i ==> ReadsFrom(line, k, ts, j)
  }

  lemma ReadsNone(line: Line, i: nat)
    requires i <= |line|
    ensures Reads(line, i, [], Skip(line, i)) && Reads(line, i, [], i)
  {
    SkipTwice(line, i);
  }

  lemma ReadsThen(line: Line, i: nat, a: seq<Tok>, j: nat, b: seq<Tok>, k: nat)
    requires Reads(line, i, a, j) && Reads(line, j, b, k)
    ensures Reads(line, i, a + b, k)
  {
    assert ReadsFrom(line, i, a, j) && ReadsFrom(line, j, b, k);
  }

  /** A symbol of one character. */
  lemma ReadsSym(line: Line, i: nat)
    requires i <= |line| && IsSymbol(At(line, Skip(line, i))) && At(line, Skip(line, i)) != '>'
    ensures i < TokenAt(line, Skip(line, i)).next <= |line|
    ensures Reads(line, i, [Sym(At(line, Skip(line, i)))], TokenAt(line, Skip(line, i)).next)
  {
    SkipTwice(line, i);
    FirstTok(line, i);
    TokenMoves(line, i);
  }

  lemma ReadsWord(line: Line, i: nat)
    requires i <= |line| && TokenAt(line, i).kind == 'a'
    ensures
      var t := TokenAt(line, i);
      i < t.next <= |line| && t.q <= t.eq <= |line| && Reads(line, i, [Word(line[t.q..t.eq])], t.next)
  {
    TokenMoves(line, i);
  }

  lemma ReadsArrow(line: Line, i: nat)
    requires i <= |line| && IsArrow(At(line, Skip(line, i)))
    ensures
      var t := TokenAt(line, Skip(line, i));
      i < t.next <= |line| && Reads(line, i, [Sym(ArrowSym(KindOf(t.kind)))], t.next)
  {
    SkipTwice(line, i);
    FirstTok(line, i);
    TokenMoves(line, i);
  }

  // ---- every accepted line is a sentence ----

  /** What parseredirs returns; the quantifiers here have one instance, as above. */
  ghost predicate RedirsTo(line: Line, i: nat, rs: seq<Redirect>, rs': seq<Redirect>, j: nat) {
    forall k: nat :: k == i ==> k <= |line| && RedirsOf(line, k, rs) == Parsed(rs', j)
  }

  /** One turn of parseredirs: an arrow and a word. */
  lemma RedirTurn(line: Line, i: nat, rs: seq<Redirect>, rs': seq<Redirect>, j: nat) returns (x: Redirect, k: nat)
    requires i <= |line| && IsArrow(At(line, Skip(line, i))) && RedirsTo(line, i, rs, rs', j)
    ensures x.file.q <= x.file.eq <= |line| && i < k <= |line| && RedirsTo(line, k, rs + [x], rs', j)
    ensures Reads(line, i, FlatItem(File(x.kind, line[x.file.q..x.file.eq])), k)
  {
    assert RedirsOf(line, i, rs) == Parsed(rs', j);
    var t := TokenAt(line, Skip(line, i));
    var f := TokenAt(line, t.next);
    x, k := Redirect(Span(f.q, f.eq), KindOf(t.kind)), f.next;
    ReadsArrow(line, i);
    ReadsWord(line, t.next);
    ReadsThen(line, i, [Sym(ArrowSym(x.kind))], t.next, [Word(line[f.q..f.eq])], k);
    assert FlatItem(File(x.kind, line[f.q..f.eq])) == [Sym(ArrowSym(x.kind))] + [Word(line[f.q..f.eq])];
  }

  lemma {:induction false} RedirsSound(line: Line, i: nat, rs: seq<Redirect>, rs': seq<Redirect>, j: nat)
    returns (fs: seq<Item>)
    requires i <= |line| && FilesIn(line, rs) && RedirsTo(line, i, rs, rs', j)
    ensures AllFiles(fs) && Reads(line, i, FlatItems(fs), j) && Added(line, rs, rs', fs)
    decreases |line| - i
  {
    if IsArrow(At(line, Skip(line, i))) {
      var x, k := RedirTurn(line, i, rs, rs', j);
      var more := RedirsSound(line, k, rs + [x], rs', j);
      var one := File(x.kind, line[x.file.q..x.file.eq]);
      fs := [one] + more;
      AddOne(line, rs, x);
      AddThen(line, rs, rs + [x], rs', [one], more);
      ReadsThen(line, i, FlatItem(one), k, FlatItems(more), j);
      assert fs[1..] == more;
    } else {
      fs := [];
      assert RedirsOf(line, i, rs) == Parsed(rs', j);
      ReadsNone(line, i);
    }
  }

  ghost predicate ArgsTo(line: Line, i: nat, args: seq<Span>, rs: seq<Redirect>, args': seq<Span>, rs': seq<Redirect>,
                         j: nat)
  {
    forall k: nat :: k == i ==> k <= |line| && ArgsOf(line, k, args, rs) == Parsed((args', rs'), j)
  }

  predicate SpansIn(line: Line, args: seq<Span>) {
    forall k :: 0 <= k < |args| ==> args[k].q <= args[k].eq <= |line|
  }

  function TextOf(line: Line, args: seq<Span>): (ws: seq<string>)
    requires SpansIn(line, args)
    ensures |ws| == |args|
  {
    seq(|args|, k requires 0 <= k < |args| => line[args[k].q..args[k].eq])
  }

  ghost predicate Worded(line: Line, args: seq<Span>, args': seq<Span>, ws: seq<string>) {
    SpansIn(line, args) && SpansIn(line, args') && TextOf(line, args') == TextOf(line, args) + ws
  }

  lemma WordThen(line: Line, args: seq<Span>, x: Span, args': seq<Span>, ws: seq<string>)
    requires SpansIn(line, args) && x.q <= x.eq <= |line| && Worded(line, args + [x], args', ws)
    ensures Worded(line, args, args', [line[x.q..x.eq]] + ws)
  {
    assert TextOf(line, args + [x]) == TextOf(line, args) + [line[x.q..x.eq]];
  }

  /** One turn of parseexec's loop: a word and the redirections behind it. */
  lemma ArgsTurn(line: Line, i: nat, args: seq<Span>, rs: seq<Redirect>, args': seq<Span>, rs': seq<Redirect>, j: nat)
    returns (x: Span, k: nat, rs1: seq<Redirect>, h: nat)
    requires i <= |line| && ArgsTo(line, i, args, rs, args', rs', j)
    requires !EndsExec(At(line, Skip(line, i))) && TokenAt(line, Skip(line, i)).kind != '\0'
    ensures x.q <= x.eq <= |line| && i < k <= h <= |line| && |args| + 1 < MAXARGS
    ensures Reads(line, i, [Word(line[x.q..x.eq])], k)
    ensures RedirsTo(line, k, rs, rs1, h) && ArgsTo(line, h, args + [x], rs1, args', rs', j)
  {
    assert ArgsOf(line, i, args, rs) == Parsed((args', rs'), j);
    SkipTwice(line, i);
    var t := TokenAt(line, Skip(line, i));
    x, k := Span(t.q, t.eq), t.next;
    ReadsWord(line, i);
    var more := RedirsOf(line, t.next, rs);
    rs1, h := more.value, more.pos;
  }

  /** The end of parseexec's loop. */
  lemma ArgsStop(line: Line, i: nat, args: seq<Span>, rs: seq<Redirect>, args': seq<Span>, rs': seq<Redirect>, j: nat)
    requires i <= |line| && ArgsTo(line, i, args, rs, args', rs', j)
    requires EndsExec(At(line, Skip(line, i))) || TokenAt(line, Skip(line, i)).kind == '\0'
    ensures args' == args && rs' == rs && Reads(line, i, [], j)
  {
    assert ArgsOf(line, i, args, rs) == Parsed((args', rs'), j);
    SkipTwice(line, i);
    ReadsNone(line, i);
    FirstTok(line, i);
    if !EndsExec(At(line, Skip(line, i))) { EndTok(line, i); }
  }

  /** Behind the last token there is none. */
  lemma EndTok(line: Line, i: nat)
    requires i <= |line| && TokenAt(line, i).kind == '\0'
    ensures Reads(line, i, [], TokenAt(line, i).next)
  {
    var q := Skip(line, i);
    assert TextEnd(line, q) == q;
    SkipTwice(line, i);
    ReadsNone(line, i);
  }

  lemma {:induction false} ArgsSound(line: Line, i: nat, args: seq<Span>, rs: seq<Redirect>, args': seq<Span>,
                                     rs': seq<Redirect>, j: nat) returns (xs: seq<Item>)
    requires i <= |line| && SpansIn(line, args) && FilesIn(line, rs) && ArgsTo(line, i, args, rs, args', rs', j)
    requires |args| < MAXARGS
    ensures Reads(line, i, FlatItems(xs), j) && Worded(line, args, args', Words(xs)) && |args'| < MAXARGS
    ensures Added(line, rs, rs', Files(xs))
    decreases |line| - i
  {
    if EndsExec(At(line, Skip(line, i))) || TokenAt(line, Skip(line, i)).kind == '\0' {
      ArgsStop(line, i, args, rs, args', rs', j);
      xs := [];
    } else {
      var x, k, rs1, h := ArgsTurn(line, i, args, rs, args', rs', j);
      var fs := RedirsSound(line, k, rs, rs1, h);
      var more := ArgsSound(line, h, args + [x], rs1, args', rs', j);
      var w := line[x.q..x.eq];
      xs := [Arg(w)] + (fs + more);
      ItemsJoin(w, fs, more);
      WordThen(line, args, x, args', Words(more));
      AddThen(line, rs, rs1, rs', fs, Files(more));
      ReadsThen(line, i, [Word(w)], k, FlatItems(fs), h);
      ReadsThen(line, i, [Word(w)] + FlatItems(fs), h, FlatItems(more), j);
    }
  }

  lemma ItemsJoin(w: string, fs: seq<Item>, more: seq<Item>)
    requires AllFiles(fs)
    ensures
      var xs := [Arg(w)] + (fs + more);
      && FlatItems(xs) == [Word(w)] + FlatItems(fs) + FlatItems(more)
      && Words(xs) == [w] + Words(more) && Files(xs) == fs + Files(more)
  {
    FlatJoin(fs, more);
    LeadingFiles(fs, more);
    Headed(w, fs + more);
    Joined([Word(w)], FlatItems(fs), FlatItems(more));
  }

  lemma Headed(w: string, xs: seq<Item>)
    ensures
      var ys := [Arg(w)] + xs;
      FlatItems(ys) == [Word(w)] + FlatItems(xs) && Words(ys) == [w] + Words(xs) && Files(ys) == Files(xs)
  {
    assert ([Arg(w)] + xs)[1..] == xs;
    assert [] + Files(xs) == Files(xs);
  }

  /** The redirections among xs. */
  function Files(xs: seq<Item>): seq<Item> {
    if xs == [] then [] else (if xs[0].File? then [xs[0]] else []) + Files(xs[1..])
  }

  lemma {:induction false} FilesJoin(xs: seq<Item>, ys: seq<Item>)
    ensures Files(xs + ys) == Files(xs) + Files(ys)
    decreases |xs|
  {
    if xs == [] {
      assert xs + ys == ys;
    } else {
      assert (xs + ys)[1..] == xs[1..] + ys;
      FilesJoin(xs[1..], ys);
      Joined(if xs[0].File? then [xs[0]] else [], Files(xs[1..]), Files(ys));
    }
  }

  lemma {:induction false} FilesOnly(fs: seq<Item>)
    requires AllFiles(fs)
    ensures Files(fs) == fs && Words(fs) == []
    decreases |fs|
  {
    if fs != [] { FilesOnly(fs[1..]); }
  }

  lemma {:induction false} AroundFiles(t: Tree, xs: seq<Item>)
    ensures Around(t, Files(xs)) == Around(t, xs)
    decreases |xs|
  {
    if xs != [] {
      if xs[0].File? {
        assert Files(xs)[1..] == Files(xs[1..]);
        AroundFiles(TRedir(t, xs[0].w, xs[0].kind), xs[1..]);
      } else {
        assert Files(xs) == Files(xs[1..]);
        AroundFiles(t, xs[1..]);
      }
    }
  }

  lemma {:induction false} AroundLast(t: Tree, fs: seq<Item>, x: Item)
    requires x.File?
    ensures Around(t, fs + [x]) == TRedir(Around(t, fs), x.w, x.kind)
    decreases |fs|
  {
    if fs == [] {
      assert fs + [x] == [x] && [x][1..] == [];
    } else {
      assert (fs + [x])[1..] == fs[1..] + [x];
      AroundLast(if fs[0].File? then TRedir(t, fs[0].w, fs[0].kind) else t, fs[1..], x);
    }
  }

  lemma {:induction false} WrapMeans(line: Line, c: Cmd, rs: seq<Redirect>, t: Tree)
    requires Means(line, c, t) && FilesIn(line, rs)
    ensures Means(line, Wrap(c, rs), Around(t, FilesOf(line, rs)))
    decreases |rs|
  {
    if rs != [] {
      var n := |rs| - 1;
      WrapMeans(line, c, rs[..n], t);
      var x := File(rs[n].kind, line[rs[n].file.q..rs[n].file.eq]);
      assert FilesOf(line, rs) == FilesOf(line, rs[..n]) + [x];
      AroundLast(t, FilesOf(line, rs[..n]), x);
    }
  }

  /** A simple command, once its words and redirections are known. */
  lemma SimpleMeans(line: Line, args: seq<Span>, rs: seq<Redirect>, xs: seq<Item>)
    requires Worded(line, [], args, Words(xs)) && Added(line, [], rs, Files(xs))
    ensures Means(line, Wrap(Exec(args), rs), PartTree(Simple(xs)))
  {
    assert TextOf(line, []) == [] && FilesOf(line, []) == [];
    assert TextOf(line, args) == Words(xs) && FilesOf(line, rs) == Files(xs);
    assert Meaning(line, Exec(args)).argv == TextOf(line, args);
    WrapMeans(line, Exec(args), rs, TExec(Words(xs)));
    AroundFiles(TExec(Words(xs)), xs);
  }

  /** parseexec of a simple command: redirections, and then words and redirections. */
  lemma ExecParts(line: Line, i: nat, c: Cmd, j: nat) returns (rs0: seq<Redirect>, h: nat, args: seq<Span>,
                                                               rs: seq<Redirect>)
    requires i <= |line| && ExecAt(line, i, c, j) && At(line, Skip(line, i)) != '('
    ensures i <= h <= |line| && c == Wrap(Exec(args), rs)
    ensures RedirsTo(line, Skip(line, i), [], rs0, h) && ArgsTo(line, h, [], rs0, args, rs, j)
  {
    assert ExecFrom(line, i, c, j);
    var r := RedirsOf(line, Skip(line, i), []);
    rs0, h := r.value, r.pos;
    var parts := ArgsOf(line, h, [], rs0);
    args, rs := parts.value.0, parts.value.1;
  }

  lemma SimpleSound(line: Line, i: nat, c: Cmd, j: nat) returns (xs: seq<Item>)
    requires i <= |line| && ExecAt(line, i, c, j) && At(line, Skip(line, i)) != '('
    ensures |Words(xs)| < MAXARGS && Reads(line, i, FlatItems(xs), j) && Means(line, c, PartTree(Simple(xs)))
  {
    var rs0, h, args, rs := ExecParts(line, i, c, j);
    var fs := RedirsSound(line, Skip(line, i), [], rs0, h);
    var more := ArgsSound(line, h, [], rs0, args, rs, j);
    xs := fs + more;
    LeadingFiles(fs, more);
    AddThen(line, [], rs0, rs, fs, Files(more));
    SimpleReads(line, i, fs, h, more, j);
    WordCount(line, args, Words(xs));
    SimpleMeans(line, args, rs, xs);
  }

  lemma LeadingFiles(fs: seq<Item>, more: seq<Item>)
    requires AllFiles(fs)
    ensures Words(fs + more) == Words(more) && Files(fs + more) == fs + Files(more)
  {
    WordsJoin(fs, more);
    FilesJoin(fs, more);
    FilesOnly(fs);
    assert [] + Words(more) == Words(more);
  }

  lemma SimpleReads(line: Line, i: nat, fs: seq<Item>, h: nat, more: seq<Item>, j: nat)
    requires i <= |line| && Reads(line, Skip(line, i), FlatItems(fs), h) && Reads(line, h, FlatItems(more), j)
    ensures Reads(line, i, FlatItems(fs + more), j)
  {
    ReadsNone(line, i);
    FlatJoin(fs, more);
    ReadsThen(line, Skip(line, i), FlatItems(fs), h, FlatItems(more), j);
    ReadsThen(line, i, [], Skip(line, i), FlatItems(fs + more), j);
    assert [] + FlatItems(fs + more) == FlatItems(fs + more);
  }

  lemma WordCount(line: Line, args: seq<Span>, ws: seq<string>)
    requires Worded(line, [], args, ws)
    ensures |ws| == |args|
  {
    assert TextOf(line, []) == [];
  }

  /** parseexec of a command in parentheses. */
  lemma BlockParts(line: Line, i: nat, c: Cmd, j: nat) returns (k: nat, body: Cmd, e: nat, h: nat, rs: seq<Redirect>)
    requires i <= |line| && ExecAt(line, i, c, j) && At(line, Skip(line, i)) == '('
    ensures i < k <= |line| && Reads(line, i, [Sym('(')], k) && LineAt(line, k, body, e) && c == Wrap(body, rs)
    ensures k <= e <= |line| && h <= |line| && Reads(line, e, [Sym(')')], h) && RedirsTo(line, h, [], rs, j)
  {
    assert ExecFrom(line, i, c, j);
    SkipTwice(line, i);
    ReadsSym(line, i);
    assert BlockOf(line, Skip(line, i)) == Parsed(c, j);
    k := TokenAt(line, Skip(line, i)).next;
    var inner := LineOf(line, k);
    body, e := inner.value, inner.pos;
    ReadsSym(line, e);
    h := TokenAt(line, Skip(line, e)).next;
    rs := RedirsOf(line, h, []).value;
  }

  lemma GroupFlat(b: Sentence, fs: seq<Item>)
    ensures [Sym('(')] + Flat(b) + [Sym(')')] + FlatItems(fs) == FlatPart(Group(b, fs))
  {
  }

  /** The reads of a group. */
  lemma GroupReads(line: Line, i: nat, k: nat, b: Sentence, e: nat, h: nat, fs: seq<Item>, j: nat)
    requires Reads(line, i, [Sym('(')], k) && Reads(line, k, Flat(b), e) && Reads(line, e, [Sym(')')], h)
    requires Reads(line, h, FlatItems(fs), j)
    ensures Reads(line, i, FlatPart(Group(b, fs)), j)
  {
    ReadsThen(line, i, [Sym('(')], k, Flat(b), e);
    ReadsThen(line, i, [Sym('(')] + Flat(b), e, [Sym(')')], h);
    ReadsThen(line, i, [Sym('(')] + Flat(b) + [Sym(')')], h, FlatItems(fs), j);
    GroupFlat(b, fs);
  }

  lemma {:induction false} ExecSound(line: Line, i: nat, c: Cmd, j: nat) returns (p: Part)
    requires i <= |line| && ExecAt(line, i, c, j)
    ensures PartOk(p) && Reads(line, i, FlatPart(p), j) && Means(line, c, PartTree(p))
    decreases |line| - i, 0
  {
    if At(line, Skip(line, i)) == '(' {
      var k, body, e, h, rs := BlockParts(line, i, c, j);
      var b := LineSound(line, k, body, e);
      var fs := RedirsSound(line, h, [], rs, j);
      p := Group(b, fs);
      GroupReads(line, i, k, b, e, h, fs, j);
      assert FilesOf(line, []) == [] && FilesOf(line, rs) == fs;
      WrapMeans(line, body, rs, TreeOf(b));
    } else {
      var xs := SimpleSound(line, i, c, j);
      p := Simple(xs);
    }
  }

  /** parsepipe: one command, or one and what follows the bar. */
  lemma PipeParts(line: Line, i: nat, c: Cmd, j: nat) returns (l: Cmd, k: nat, h: nat, r: Cmd)
    requires i <= |line| && PipeAt(line, i, c, j)
    ensures i <= k <= |line| && ExecAt(line, i, l, k)
    ensures if At(line, Skip(line, k)) == '|'
      then i < h <= |line| && Reads(line, k, [Sym('|')], h) && PipeAt(line, h, r, j) && c == Pipe(l, r)
      else c == l && Reads(line, k, [], j)
  {
    assert PipeFrom(line, i, c, j);
    var left := ExecOf(line, i);
    l, k := left.value, left.pos;
    h, r := k, l;
    if At(line, Skip(line, k)) == '|' {
      ReadsSym(line, k);
      h := TokenAt(line, Skip(line, k)).next;
      r := PipeOf(line, h).value;
    } else {
      ReadsNone(line, k);
    }
  }

  lemma {:induction false} PipeSound(line: Line, i: nat, c: Cmd, j: nat) returns (p: Pipeline)
    requires i <= |line| && PipeAt(line, i, c, j)
    ensures PipeOk(p) && Reads(line, i, FlatPipe(p), j) && Means(line, c, PipeTree(p))
    decreases |line| - i, 1
  {
    var l, k, h, r := PipeParts(line, i, c, j);
    var x := ExecSound(line, i, l, k);
    if At(line, Skip(line, k)) == '|' {
      var rest := PipeSound(line, h, r, j);
      p := More(x, rest);
      ReadsThen(line, k, [Sym('|')], h, FlatPipe(rest), j);
      ReadsThen(line, i, FlatPart(x), k, [Sym('|')] + FlatPipe(rest), j);
    } else {
      p := One(x);
      ReadsThen(line, i, FlatPart(x), k, [], j);
      assert FlatPart(x) + [] == FlatPart(x);
    }
  }

  ghost predicate BacksTo(line: Line, i: nat, c: Cmd, c': Cmd, j: nat) {
    forall k: nat :: k == i ==> k <= |line| && BacksOf(line, k, c) == (c', j)
  }

  lemma BacksTurn(line: Line, i: nat, c: Cmd, c': Cmd, j: nat) returns (h: nat)
    requires i <= |line| && BacksTo(line, i, c, c', j) && At(line, Skip(line, i)) == '&'
    ensures i < h <= |line| && Reads(line, i, [Sym('&')], h) && BacksTo(line, h, Back(c), c', j)
  {
    assert BacksOf(line, i, c) == (c', j);
    ReadsSym(line, i);
    h := TokenAt(line, Skip(line, i)).next;
  }

  lemma {:induction false} BacksSound(line: Line, i: nat, c: Cmd, c': Cmd, j: nat, t: Tree) returns (n: nat)
    requires i <= |line| && BacksTo(line, i, c, c', j) && Means(line, c, t)
    ensures Reads(line, i, Amps(n), j) && Means(line, c', Backs(t, n))
    decreases |line| - i
  {
    if At(line, Skip(line, i)) == '&' {
      var h := BacksTurn(line, i, c, c', j);
      var m := BacksSound(line, h, Back(c), c', j, TBack(t));
      n := m + 1;
      ReadsThen(line, i, [Sym('&')], h, Amps(m), j);
    } else {
      n := 0;
      assert BacksOf(line, i, c) == (c', j);
      ReadsNone(line, i);
    }
  }

  /** parseline: a pipeline, the & behind it, and what follows the semicolon. */
  lemma LineParts(line: Line, i: nat, c: Cmd, j: nat) returns (p: Cmd, k: nat, b: Cmd, e: nat, h: nat, r: Cmd)
    requires i <= |line| && LineAt(line, i, c, j)
    ensures i <= k <= e <= |line| && PipeAt(line, i, p, k) && BacksTo(line, k, p, b, e)
    ensures if At(line, Skip(line, e)) == ';'
      then i < h <= |line| && Reads(line, e, [Sym(';')], h) && LineAt(line, h, r, j) && c == List(b, r)
      else c == b && Reads(line, e, [], j)
  {
    assert LineFrom(line, i, c, j);
    var first := PipeOf(line, i);
    p, k := first.value, first.pos;
    b, e := BacksOf(line, k, p).0, BacksOf(line, k, p).1;
    h, r := k, p;
    if At(line, Skip(line, e)) == ';' {
      ReadsSym(line, e);
      h := TokenAt(line, Skip(line, e)).next;
      r := LineOf(line, h).value;
    } else {
      ReadsNone(line, e);
    }
  }

  lemma {:induction false} LineSound(line: Line, i: nat, c: Cmd, j: nat) returns (s: Sentence)
    requires i <= |line| && LineAt(line, i, c, j)
    ensures SentenceOk(s) && Reads(line, i, Flat(s), j) && Means(line, c, TreeOf(s))
    decreases |line| - i, 2
  {
    var p, k, b, e, h, r := LineParts(line, i, c, j);
    var pipe := PipeSound(line, i, p, k);
    var n := BacksSound(line, k, p, b, e, PipeTree(pipe));
    if At(line, Skip(line, e)) == ';' {
      var rest := LineSound(line, h, r, j);
      s := Then(pipe, n, rest);
      ReadsThen(line, e, [Sym(';')], h, Flat(rest), j);
      ReadsThen(line, k, Amps(n), e, [Sym(';')] + Flat(rest), j);
      ReadsThen(line, i, FlatPipe(pipe), k, Amps(n) + ([Sym(';')] + Flat(rest)), j);
    } else {
      s := Last(pipe, n);
      ReadsThen(line, i, FlatPipe(pipe), k, Amps(n), e);
      ReadsThen(line, i, FlatPipe(pipe) + Amps(n), e, [], j);
      assert FlatPipe(pipe) + Amps(n) + [] == Flat(s);
    }
  }

  /** No token is left exactly at the end of the line. */
  lemma NoneLeft(line: Line, i: nat)
    requires i <= |line| && NoNul(line)
    ensures Toks(line, i) == [] <==> Skip(line, i) == |line|
  {
    FirstTok(line, i);
  }

  /** Every line that parsecmd accepts is a sentence, and is parsed as what the sentence means. */
  lemma Accepted(line: Line) returns (s: Sentence)
    requires NoNul(line) && CmdOf(line).Parsed?
    ensures SentenceOk(s) && Toks(line, 0) == Flat(s) && Means(line, CmdOf(line).value, TreeOf(s))
  {
    var r := LineOf(line, 0);
    assert LineFrom(line, 0, r.value, r.pos);
    s := LineSound(line, 0, r.value, r.pos);
    assert ReadsFrom(line, 0, Flat(s), r.pos);
    NoneLeft(line, r.pos);
  }

  // ---- every sentence is accepted ----

  /** From i on the line has exactly the tokens ts; the quantifier has one instance, as above. */
  ghost predicate HasToks(line: Line, i: nat, ts: seq<Tok>) {
    forall k: nat :: k == i ==> k <= |line| && Toks(line, k) == ts
  }

  lemma TakeTok(line: Line, i: nat, x: Tok, ts: seq<Tok>)
    requires i <= |line| && HasToks(line, i, [x] + ts)
    ensures
      var t := TokenAt(line, i);
      && TokenAt(line, Skip(line, i)) == t && t.kind != '\0' && i < t.next <= |line| && t.q <= t.eq <= |line|
      && TokOf(line, t) == x && HasToks(line, t.next, ts)
  {
    assert Toks(line, i) == [x] + ts;
    SkipTwice(line, i);
    FirstTok(line, i);
    TokenMoves(line, i);
    assert ([x] + ts)[1..] == ts;
  }

  /** What peek says about the first of these tokens. */
  lemma PeekHas(line: Line, i: nat, ts: seq<Tok>)
    requires i <= |line| && HasToks(line, i, ts)
    ensures
      var c := At(line, Skip(line, i));
      && (IsArrow(c) <==> ts != [] && IsArrowTok(ts[0]))
      && (EndsExec(c) <==> ts != [] && IsEndTok(ts[0]))
      && (c == '(' <==> ts != [] && ts[0] == Sym('(')) && (c == ')' <==> ts != [] && ts[0] == Sym(')'))
      && (c == '|' <==> ts != [] && ts[0] == Sym('|')) && (c == '&' <==> ts != [] && ts[0] == Sym('&'))
      && (c == ';' <==> ts != [] && ts[0] == Sym(';'))
  {
    assert Toks(line, i) == ts;
    PeekTok(line, i);
  }

  lemma SkipHas(line: Line, i: nat, ts: seq<Tok>)
    requires i <= |line| && HasToks(line, i, ts)
    ensures HasToks(line, Skip(line, i), ts) && (ts == [] ==> HasToks(line, TokenAt(line, i).next, ts))
  {
    assert Toks(line, i) == ts;
    SkipTwice(line, i);
    if ts == [] {
      FirstTok(line, i);
      EndTok(line, i);
      assert ReadsFrom(line, i, [], TokenAt(line, i).next);
    }
  }

  lemma FlatFirst(xs: seq<Item>, rest: seq<Tok>)
    requires xs != []
    ensures FlatItems(xs) + rest == FlatItem(xs[0]) + (FlatItems(xs[1..]) + rest)
  {
  }

  /** One turn of parseredirs, for a redirection that is there. */
  lemma RedirTaken(line: Line, i: nat, rs: seq<Redirect>, x: Item, ts: seq<Tok>) returns (y: Redirect, k: nat)
    requires i <= |line| && x.File? && HasToks(line, i, FlatItem(x) + ts)
    ensures i < k <= |line| && HasToks(line, k, ts) && y.file.q <= y.file.eq <= |line|
    ensures x == File(y.kind, line[y.file.q..y.file.eq])
    ensures forall rs', j :: RedirsTo(line, k, rs + [y], rs', j) ==> RedirsTo(line, i, rs, rs', j)
  {
    assert FlatItem(x) + ts == [Sym(ArrowSym(x.kind))] + ([Word(x.w)] + ts);
    TakeTok(line, i, Sym(ArrowSym(x.kind)), [Word(x.w)] + ts);
    var t := TokenAt(line, i);
    TakeTok(line, t.next, Word(x.w), ts);
    var f := TokenAt(line, t.next);
    PeekHas(line, i, FlatItem(x) + ts);
    y, k := Redirect(Span(f.q, f.eq), KindOf(t.kind)), f.next;
    forall rs', j | RedirsTo(line, k, rs + [y], rs', j) ensures RedirsTo(line, i, rs, rs', j) {
      assert RedirsOf(line, k, rs + [y]) == Parsed(rs', j);
    }
  }

  lemma {:induction false} RedirsComplete(line: Line, i: nat, rs: seq<Redirect>, fs: seq<Item>, rest: seq<Tok>)
    returns (rs': seq<Redirect>, j: nat)
    requires i <= |line| && FilesIn(line, rs) && AllFiles(fs) && HasToks(line, i, FlatItems(fs) + rest)
    requires rest == [] || !IsArrowTok(rest[0])
    ensures i <= j <= |line| && RedirsTo(line, i, rs, rs', j) && HasToks(line, j, rest) && Added(line, rs, rs', fs)
    decreases |fs|
  {
    if fs == [] {
      assert FlatItems(fs) + rest == rest;
      PeekHas(line, i, rest);
      SkipHas(line, i, rest);
      rs', j := rs, Skip(line, i);
    } else {
      FlatFirst(fs, rest);
      var y, k := RedirTaken(line, i, rs, fs[0], FlatItems(fs[1..]) + rest);
      rs', j := RedirsComplete(line, k, rs + [y], fs[1..], rest);
      AddOne(line, rs, y);
      AddThen(line, rs, rs + [y], rs', [fs[0]], fs[1..]);
      assert [fs[0]] + fs[1..] == fs;
    }
  }

  /** What may follow a simple command. */
  predicate EndsSimple(ts: seq<Tok>) {
    ts == [] || ts[0] == Sym('|') || ts[0] == Sym(')') || ts[0] == Sym('&') || ts[0] == Sym(';')
  }

  /** xs as leading redirections and what follows: nothing, or a word. */
  lemma {:induction false} Leading(xs: seq<Item>) returns (fs: seq<Item>, more: seq<Item>)
    ensures xs == fs + more && AllFiles(fs) && (more == [] || more[0].Arg?) && |more| <= |xs|
  {
    if xs == [] || xs[0].Arg? {
      fs, more := [], xs;
    } else {
      fs, more := Leading(xs[1..]);
      fs := [xs[0]] + fs;
    }
  }

  lemma NotArrow(more: seq<Item>, rest: seq<Tok>)
    requires (more == [] || more[0].Arg?) && EndsSimple(rest)
    ensures
      var ts := FlatItems(more) + rest;
      (ts == [] || !IsArrowTok(ts[0])) && (ts == [] || ts[0] != Sym('('))
  {
  }

  lemma ArgTaken(line: Line, i: nat, args: seq<Span>, rs: seq<Redirect>, w: string, ts: seq<Tok>)
    returns (x: Span, k: nat)
    requires i <= |line| && HasToks(line, i, [Word(w)] + ts) && |args| + 1 < MAXARGS
    ensures x.q <= x.eq <= |line| && line[x.q..x.eq] == w && i < k <= |line| && HasToks(line, k, ts)
    ensures forall rs1, h, args', rs', j ::
      RedirsTo(line, k, rs, rs1, h) && ArgsTo(line, h, args + [x], rs1, args', rs', j) ==>
        ArgsTo(line, i, args, rs, args', rs', j)
  {
    TakeTok(line, i, Word(w), ts);
    PeekHas(line, i, [Word(w)] + ts);
    var t := TokenAt(line, i);
    x, k := Span(t.q, t.eq), t.next;
    forall rs1, h, args', rs', j
      | RedirsTo(line, k, rs, rs1, h) && ArgsTo(line, h, args + [x], rs1, args', rs', j)
      ensures ArgsTo(line, i, args, rs, args', rs', j)
    {
      assert RedirsOf(line, k, rs) == Parsed(rs1, h);
      assert ArgsOf(line, h, args + [x], rs1) == Parsed((args', rs'), j);
    }
  }

  lemma ArgsDone(line: Line, i: nat, args: seq<Span>, rs: seq<Redirect>, rest: seq<Tok>) returns (j: nat)
    requires i <= |line| && EndsSimple(rest) && HasToks(line, i, rest)
    ensures i <= j <= |line| && ArgsTo(line, i, args, rs, args, rs, j) && HasToks(line, j, rest)
  {
    PeekHas(line, i, rest);
    SkipHas(line, i, rest);
    SkipTwice(line, i);
    assert Toks(line, i) == rest;
    FirstTok(line, i);
    j := if EndsExec(At(line, Skip(line, i))) then Skip(line, i) else TokenAt(line, i).next;
  }

  lemma {:induction false} ArgsComplete(line: Line, i: nat, args: seq<Span>, rs: seq<Redirect>, xs: seq<Item>,
                                        rest: seq<Tok>) returns (args': seq<Span>, rs': seq<Redirect>, j: nat)
    requires i <= |line| && SpansIn(line, args) && FilesIn(line, rs) && |args| + |Words(xs)| < MAXARGS
    requires (xs == [] || xs[0].Arg?) && EndsSimple(rest) && HasToks(line, i, FlatItems(xs) + rest)
    ensures i <= j <= |line| && ArgsTo(line, i, args, rs, args', rs', j) && HasToks(line, j, rest)
    ensures Worded(line, args, args', Words(xs)) && Added(line, rs, rs', Files(xs))
    decreases |xs|
  {
    if xs == [] {
      assert FlatItems(xs) + rest == rest;
      j := ArgsDone(line, i, args, rs, rest);
      args', rs' := args, rs;
    } else {
      var w, fs, more := FirstArg(xs, rest);
      var x, k, rs1, h := WordTaken(line, i, args, rs, w, fs, FlatItems(more) + rest);
      args', rs', j := ArgsComplete(line, h, args + [x], rs1, more, rest);
      WordThen(line, args, x, args', Words(more));
      AddThen(line, rs, rs1, rs', fs, Files(more));
    }
  }

  /** The first word of a simple command, the redirections behind it, and the rest. */
  lemma FirstArg(xs: seq<Item>, rest: seq<Tok>) returns (w: string, fs: seq<Item>, more: seq<Item>)
    requires xs != [] && xs[0].Arg? && EndsSimple(rest)
    ensures AllFiles(fs) && (more == [] || more[0].Arg?) && |more| < |xs|
    ensures FlatItems(xs) + rest == [Word(w)] + (FlatItems(fs) + (FlatItems(more) + rest))
    ensures Words(xs) == [w] + Words(more) && Files(xs) == fs + Files(more)
    ensures
      var ts := FlatItems(more) + rest;
      ts == [] || !IsArrowTok(ts[0])
  {
    w := xs[0].w;
    fs, more := Leading(xs[1..]);
    assert xs == [Arg(w)] + (fs + more);
    ItemsJoin(w, fs, more);
    NotArrow(more, rest);
    Regroup([Word(w)], FlatItems(fs), FlatItems(more), rest);
  }

  lemma Regroup<T>(a: seq<T>, b: seq<T>, c: seq<T>, d: seq<T>)
    ensures a + b + c + d == a + (b + (c + d))
  {
  }

  /** One turn of parseexec's loop, for a word and redirections that are there. */
  lemma WordTaken(line: Line, i: nat, args: seq<Span>, rs: seq<Redirect>, w: string, fs: seq<Item>, ts: seq<Tok>)
    returns (x: Span, k: nat, rs1: seq<Redirect>, h: nat)
    requires i <= |line| && FilesIn(line, rs) && AllFiles(fs) && |args| + 1 < MAXARGS
    requires HasToks(line, i, [Word(w)] + (FlatItems(fs) + ts)) && (ts == [] || !IsArrowTok(ts[0]))
    ensures x.q <= x.eq <= |line| && line[x.q..x.eq] == w && i <= h <= |line| && HasToks(line, h, ts)
    ensures Added(line, rs, rs1, fs)
    ensures forall args', rs', j :: ArgsTo(line, h, args + [x], rs1, args', rs', j) ==>
      ArgsTo(line, i, args, rs, args', rs', j)
  {
    x, k := ArgTaken(line, i, args, rs, w, FlatItems(fs) + ts);
    rs1, h := RedirsComplete(line, k, rs, fs, ts);
  }

  /** parseexec of a simple command, put together. */
  lemma ExecFromParts(line: Line, i: nat, rs0: seq<Redirect>, h: nat, args: seq<Span>, rs: seq<Redirect>, j: nat)
    requires i <= |line| && h <= |line| && At(line, Skip(line, i)) != '('
    requires RedirsTo(line, Skip(line, i), [], rs0, h) && ArgsTo(line, h, [], rs0, args, rs, j)
    ensures ExecAt(line, i, Wrap(Exec(args), rs), j)
  {
    assert RedirsOf(line, Skip(line, i), []) == Parsed(rs0, h);
    assert ArgsOf(line, h, [], rs0) == Parsed((args, rs), j);
  }

  lemma SimpleComplete(line: Line, i: nat, xs: seq<Item>, rest: seq<Tok>) returns (c: Cmd, j: nat)
    requires i <= |line| && |Words(xs)| < MAXARGS && EndsSimple(rest) && HasToks(line, i, FlatItems(xs) + rest)
    ensures i <= j <= |line| && ExecAt(line, i, c, j) && HasToks(line, j, rest) && Means(line, c, PartTree(Simple(xs)))
  {
    var fs, more := LeadingOf(xs, rest);
    SkipHas(line, i, FlatItems(xs) + rest);
    PeekHas(line, i, FlatItems(xs) + rest);
    var rs0, h := RedirsComplete(line, Skip(line, i), [], fs, FlatItems(more) + rest);
    var args, rs;
    args, rs, j := ArgsComplete(line, h, [], rs0, more, rest);
    c := Wrap(Exec(args), rs);
    ExecFromParts(line, i, rs0, h, args, rs, j);
    AddThen(line, [], rs0, rs, fs, Files(more));
    SimpleMeans(line, args, rs, xs);
  }

  /** The leading redirections of a simple command, and the rest. */
  lemma LeadingOf(xs: seq<Item>, rest: seq<Tok>) returns (fs: seq<Item>, more: seq<Item>)
    requires EndsSimple(rest)
    ensures AllFiles(fs) && (more == [] || more[0].Arg?)
    ensures FlatItems(xs) + rest == FlatItems(fs) + (FlatItems(more) + rest)
    ensures Words(xs) == Words(more) && Files(xs) == fs + Files(more)
    ensures
      var ts := FlatItems(more) + rest;
      ts == [] || !IsArrowTok(ts[0])
    ensures
      var ts := FlatItems(xs) + rest;
      ts == [] || ts[0] != Sym('(')
  {
    fs, more := Leading(xs);
    LeadingFiles(fs, more);
    FlatJoin(fs, more);
    Joined(FlatItems(fs), FlatItems(more), rest);
    NotArrow(more, rest);
    NotParen(xs, rest);
  }

  lemma NotParen(xs: seq<Item>, rest: seq<Tok>)
    requires EndsSimple(rest)
    ensures
      var ts := FlatItems(xs) + rest;
      ts == [] || ts[0] != Sym('(')
  {
  }

  /** parseexec of a command in parentheses, put together. */
  lemma ExecFromBlock(line: Line, i: nat, k: nat, body: Cmd, e: nat, h: nat, rs: seq<Redirect>, j: nat)
    requires i <= |line| && At(line, Skip(line, i)) == '(' && k == TokenAt(line, i).next <= |line|
    requires LineAt(line, k, body, e) && e <= |line| && At(line, Skip(line, e)) == ')'
    requires h == TokenAt(line, e).next <= |line| && RedirsTo(line, h, [], rs, j)
    ensures ExecAt(line, i, Wrap(body, rs), j)
  {
    SkipTwice(line, i);
    SkipTwice(line, e);
    assert LineFrom(line, k, body, e);
    assert RedirsOf(line, h, []) == Parsed(rs, j);
    assert BlockEnd(line, e, body) == Parsed(Wrap(body, rs), j);
    assert BlockOf(line, Skip(line, i)) == BlockEnd(line, e, body);
  }

  /** What may follow a pipeline, and a sentence. */
  predicate EndsPipe(ts: seq<Tok>) { ts == [] || ts[0] == Sym(')') || ts[0] == Sym('&') || ts[0] == Sym(';') }

  predicate EndsLine(ts: seq<Tok>) { ts == [] || ts[0] == Sym(')') }

  lemma GroupToks(b: Sentence, fs: seq<Item>, rest: seq<Tok>)
    ensures FlatPart(Group(b, fs)) + rest == [Sym('(')] + (Flat(b) + ([Sym(')')] + (FlatItems(fs) + rest)))
  {
    Regroup([Sym('(')] + Flat(b), [Sym(')')], FlatItems(fs), rest);
    GroupFlat(b, fs);
    Regroup([Sym('(')], Flat(b), [], [Sym(')')] + (FlatItems(fs) + rest));
  }

  lemma {:induction false} ExecComplete(line: Line, i: nat, p: Part, rest: seq<Tok>) returns (c: Cmd, j: nat)
    requires i <= |line| && PartOk(p) && EndsSimple(rest) && HasToks(line, i, FlatPart(p) + rest)
    ensures i <= j <= |line| && ExecAt(line, i, c, j) && HasToks(line, j, rest) && Means(line, c, PartTree(p))
    decreases p
  {
    match p
    case Simple(xs) => c, j := SimpleComplete(line, i, xs, rest);
    case Group(b, fs) =>
      var inner := [Sym(')')] + (FlatItems(fs) + rest);
      GroupToks(b, fs, rest);
      PeekHas(line, i, FlatPart(p) + rest);
      TakeTok(line, i, Sym('('), Flat(b) + inner);
      var k := TokenAt(line, i).next;
      var body, e := LineComplete(line, k, b, inner);
      c, j := BlockComplete(line, i, k, body, e, b, fs, rest);
  }

  /** The end of a command in parentheses. */
  lemma BlockComplete(line: Line, i: nat, k: nat, body: Cmd, e: nat, b: Sentence, fs: seq<Item>, rest: seq<Tok>)
    returns (c: Cmd, j: nat)
    requires i <= |line| && At(line, Skip(line, i)) == '(' && i < k == TokenAt(line, i).next <= e <= |line|
    requires LineAt(line, k, body, e) && Means(line, body, TreeOf(b)) && AllFiles(fs) && EndsSimple(rest)
    requires HasToks(line, e, [Sym(')')] + (FlatItems(fs) + rest))
    ensures i <= j <= |line| && ExecAt(line, i, c, j) && HasToks(line, j, rest)
    ensures Means(line, c, Around(TreeOf(b), fs))
  {
    PeekHas(line, e, [Sym(')')] + (FlatItems(fs) + rest));
    TakeTok(line, e, Sym(')'), FlatItems(fs) + rest);
    var h, rs := TokenAt(line, e).next, [];
    rs, j := RedirsComplete(line, h, [], fs, rest);
    c := Wrap(body, rs);
    ExecFromBlock(line, i, k, body, e, h, rs, j);
    assert FilesOf(line, []) == [] && FilesOf(line, rs) == fs;
    WrapMeans(line, body, rs, TreeOf(b));
  }

  lemma PipeFromParts(line: Line, i: nat, l: Cmd, k: nat, r: Cmd, j: nat)
    requires i <= |line| && k <= |line| && ExecAt(line, i, l, k)
    ensures At(line, Skip(line, k)) != '|' ==> PipeAt(line, i, l, Skip(line, k))
    ensures At(line, Skip(line, k)) == '|' && TokenAt(line, k).next <= |line|
      && PipeAt(line, TokenAt(line, k).next, r, j)
      ==> PipeAt(line, i, Pipe(l, r), j)
  {
    assert ExecFrom(line, i, l, k);
    SkipTwice(line, k);
    if At(line, Skip(line, k)) == '|' && TokenAt(line, k).next <= |line| && PipeAt(line, TokenAt(line, k).next, r, j) {
      assert PipeFrom(line, TokenAt(line, k).next, r, j);
    }
  }

  lemma {:induction false} PipeComplete(line: Line, i: nat, p: Pipeline, rest: seq<Tok>) returns (c: Cmd, j: nat)
    requires i <= |line| && PipeOk(p) && EndsPipe(rest) && HasToks(line, i, FlatPipe(p) + rest)
    ensures i <= j <= |line| && PipeAt(line, i, c, j) && HasToks(line, j, rest) && Means(line, c, PipeTree(p))
    decreases p, 0
  {
    match p
    case One(x) =>
      var l, k := ExecComplete(line, i, x, rest);
      PeekHas(line, k, rest);
      SkipHas(line, k, rest);
      PipeFromParts(line, i, l, k, l, k);
      c, j := l, Skip(line, k);
    case More(x, r) =>
      var ts := [Sym('|')] + (FlatPipe(r) + rest);
      assert FlatPipe(p) + rest == FlatPart(x) + ts;
      var l, k := ExecComplete(line, i, x, ts);
      PeekHas(line, k, ts);
      TakeTok(line, k, Sym('|'), FlatPipe(r) + rest);
      var more, e := PipeComplete(line, TokenAt(line, k).next, r, rest);
      PipeFromParts(line, i, l, k, more, e);
      c, j := Pipe(l, more), e;
  }

  lemma BacksOn(line: Line, i: nat, c: Cmd, c': Cmd, j: nat)
    requires i <= |line| && At(line, Skip(line, i)) == '&' && TokenAt(line, i).next <= |line|
    requires BacksTo(line, TokenAt(line, i).next, Back(c), c', j)
    ensures BacksTo(line, i, c, c', j)
  {
    SkipTwice(line, i);
    assert BacksOf(line, TokenAt(line, i).next, Back(c)) == (c', j);
  }

  lemma {:induction false} BacksComplete(line: Line, i: nat, c: Cmd, n: nat, rest: seq<Tok>, t: Tree)
    returns (c': Cmd, j: nat)
    requires i <= |line| && HasToks(line, i, Amps(n) + rest) && (rest == [] || rest[0] != Sym('&')) && Means(line, c, t)
    ensures i <= j <= |line| && BacksTo(line, i, c, c', j) && HasToks(line, j, rest) && Means(line, c', Backs(t, n))
    decreases n
  {
    PeekHas(line, i, Amps(n) + rest);
    if n == 0 {
      assert Amps(n) + rest == rest;
      SkipHas(line, i, rest);
      c', j := c, Skip(line, i);
    } else {
      Joined([Sym('&')], Amps(n - 1), rest);
      TakeTok(line, i, Sym('&'), Amps(n - 1) + rest);
      c', j := BacksComplete(line, TokenAt(line, i).next, Back(c), n - 1, rest, TBack(t));
      BacksOn(line, i, c, c', j);
    }
  }

  lemma LineFromParts(line: Line, i: nat, p: Cmd, k: nat, b: Cmd, e: nat, r: Cmd, j: nat)
    requires i <= |line| && k <= |line| && e <= |line| && PipeAt(line, i, p, k) && BacksTo(line, k, p, b, e)
    ensures At(line, Skip(line, e)) != ';' ==> LineAt(line, i, b, Skip(line, e))
    ensures At(line, Skip(line, e)) == ';' && TokenAt(line, e).next <= |line|
      && LineAt(line, TokenAt(line, e).next, r, j)
      ==> LineAt(line, i, List(b, r), j)
  {
    assert PipeFrom(line, i, p, k);
    assert BacksOf(line, k, p) == (b, e);
    SkipTwice(line, e);
    if At(line, Skip(line, e)) == ';' && TokenAt(line, e).next <= |line| && LineAt(line, TokenAt(line, e).next, r, j) {
      assert LineFrom(line, TokenAt(line, e).next, r, j);
    }
  }

  /** A pipeline and the & behind it. */
  lemma {:induction false} StartComplete(line: Line, i: nat, p: Pipeline, n: nat, rest: seq<Tok>)
    returns (c: Cmd, k: nat, b: Cmd, e: nat)
    requires i <= |line| && PipeOk(p) && HasToks(line, i, FlatPipe(p) + (Amps(n) + rest))
    requires rest == [] || rest[0] == Sym(')') || rest[0] == Sym(';')
    ensures i <= k <= e <= |line| && PipeAt(line, i, c, k) && BacksTo(line, k, c, b, e) && HasToks(line, e, rest)
    ensures Means(line, b, Backs(PipeTree(p), n))
    decreases p, 1
  {
    c, k := PipeComplete(line, i, p, Amps(n) + rest);
    b, e := BacksComplete(line, k, c, n, rest, PipeTree(p));
  }

  lemma {:induction false} LineComplete(line: Line, i: nat, s: Sentence, rest: seq<Tok>) returns (c: Cmd, j: nat)
    requires i <= |line| && SentenceOk(s) && EndsLine(rest) && HasToks(line, i, Flat(s) + rest)
    ensures i <= j <= |line| && LineAt(line, i, c, j) && HasToks(line, j, rest) && Means(line, c, TreeOf(s))
    decreases s
  {
    match s
    case Last(p, n) =>
      assert Flat(s) + rest == FlatPipe(p) + (Amps(n) + rest);
      var x, k, b, e := StartComplete(line, i, p, n, rest);
      PeekHas(line, e, rest);
      SkipHas(line, e, rest);
      LineFromParts(line, i, x, k, b, e, b, e);
      c, j := b, Skip(line, e);
    case Then(p, n, r) =>
      var ts := [Sym(';')] + (Flat(r) + rest);
      assert Flat(s) + rest == FlatPipe(p) + (Amps(n) + ts);
      var x, k, b, e := StartComplete(line, i, p, n, ts);
      PeekHas(line, e, ts);
      TakeTok(line, e, Sym(';'), Flat(r) + rest);
      var more, h := LineComplete(line, TokenAt(line, e).next, r, rest);
      LineFromParts(line, i, x, k, b, e, more, h);
      c, j := List(b, more), h;
  }

  /** Every line whose tokens are those of a sentence is accepted, and parsed as what the sentence means. */
  lemma Accepts(line: Line, s: Sentence)
    requires NoNul(line) && SentenceOk(s) && Toks(line, 0) == Flat(s)
    ensures CmdOf(line).Parsed? && Means(line, CmdOf(line).value, TreeOf(s))
  {
    assert Flat(s) + [] == Flat(s);
    var c, j := LineComplete(line, 0, s, []);
    assert LineFrom(line, 0, c, j);
    assert Toks(line, j) == [];
    NoneLeft(line, j);
  }

  // ---- every spelling has its tokens ----

  function Text(t: Tok): string {
    match t
    case Word(w) => w
    case Sym(c) => if c == '+' then ">>" else [c]
  }

  /** The two lists of characters, written out (user/sh.c:262-263). */
  predicate Space(c: char) { c in {' ', '\t', '\r', '\n', '\U{0B}'} }

  predicate Symbol(c: char) { c in {'<', '|', '>', '&', ';', '(', ')'} }

  predicate TokOk(t: Tok) {
    match t
    case Word(w) => w != "" && forall i :: 0 <= i < |w| ==> w[i] != '\0' && !Space(w[i]) && !Symbol(w[i])
    case Sym(c) => Symbol(c) || c == '+'
  }

  predicate Blank(g: string) { forall i :: 0 <= i < |g| ==> Space(g[i]) }

  /** Two tokens that need a blank between them: words, and arrows that would be read as one. */
  predicate Clings(a: Tok, b: Tok) { (a.Word? && b.Word?) || (a == Sym('>') && (b == Sym('>') || b == Sym('+'))) }

  /** The tokens with a gap before each, and one at the end. */
  function Spell(ts: seq<Tok>, gaps: seq<string>): string
    requires |gaps| == |ts| + 1
  {
    if ts == [] then gaps[0] else gaps[0] + (Text(ts[0]) + Spell(ts[1..], gaps[1..]))
  }

  predicate Apart(ts: seq<Tok>, gaps: seq<string>, k: nat)
    requires 0 < k < |ts| && k < |gaps|
  {
    gaps[k] == "" ==> !Clings(ts[k - 1], ts[k])
  }

  predicate Spelled(ts: seq<Tok>, gaps: seq<string>) {
    && |gaps| == |ts| + 1 && (forall k :: 0 <= k < |gaps| ==> Blank(gaps[k]))
      && (forall k :: 0 <= k < |ts| ==> TokOk(ts[k]))
    && forall k :: 0 < k < |ts| ==> Apart(ts, gaps, k)
  }

  lemma {:induction false} SkipBlank(line: Line, p: nat, g: string)
    requires Here(line, p, g) && Blank(g) && !IsSpace(At(line, p + |g|))
    ensures p <= |line| && Skip(line, p) == p + |g|
    decreases |g|
  {
    if g != "" {
      assert CharHere(line, p, g, 0);
      assert g == g[..1] + g[1..];
      HereSplit(line, p, g[..1], g[1..]);
      SkipBlank(line, p + 1, g[1..]);
    }
  }

  lemma SpelledRest(ts: seq<Tok>, gaps: seq<string>)
    requires Spelled(ts, gaps) && ts != []
    ensures Spelled(ts[1..], gaps[1..]) && TokOk(ts[0]) && Blank(gaps[0])
    ensures |ts| > 1 && gaps[1] == "" ==> !Clings(ts[0], ts[1])
  {
    forall k | 0 < k < |ts[1..]| ensures Apart(ts[1..], gaps[1..], k) { assert Apart(ts, gaps, k + 1); }
    if |ts| > 1 { assert Apart(ts, gaps, 1); }
  }

  /** The text of the line from q on is a spelling of ts. */
  ghost predicate Tail(line: Line, q: nat, ts: seq<Tok>, gaps: seq<string>) {
    Spelled(ts, gaps) && Here(line, q, Spell(ts, gaps)) && q + |Spell(ts, gaps)| == |line|
  }

  lemma TextFirst(t: Tok)
    requires TokOk(t)
    ensures Text(t) != "" && !IsSpace(Text(t)[0]) && Text(t)[0] != '\0'
    ensures t.Word? ==> IsWord(Text(t)[0])
    ensures t.Sym? ==> Text(t)[0] == if t.c == '+' then '>' else t.c
  {
  }

  /** The first character of a spelling. */
  lemma TailFirst(line: Line, q: nat, ts: seq<Tok>, gaps: seq<string>)
    requires Tail(line, q, ts, gaps)
    ensures q <= |line| && At(line, q) ==
      if gaps[0] != "" then gaps[0][0] else if ts == [] then '\0' else Text(ts[0])[0]
  {
    var sp := Spell(ts, gaps);
    if ts != [] {
      SpelledRest(ts, gaps);
      TextFirst(ts[0]);
    }
    if sp != "" { assert CharHere(line, q, sp, 0); }
  }

  /** Behind a blank comes the first token, or the end. */
  lemma TailSkip(line: Line, q: nat, ts: seq<Tok>, gaps: seq<string>)
    requires Tail(line, q, ts, gaps)
    ensures q <= |line| && Skip(line, q) == q + |gaps[0]| <= |line|
    ensures ts == [] ==> At(line, q + |gaps[0]|) == '\0'
    ensures ts != [] ==> Here(line, q + |gaps[0]|, Text(ts[0])) && At(line, q + |gaps[0]|) == Text(ts[0])[0]
    ensures ts != [] ==> Tail(line, q + |gaps[0]| + |Text(ts[0])|, ts[1..], gaps[1..])
  {
    var g := gaps[0];
    if ts == [] {
      SkipBlank(line, q, g);
    } else {
      SpelledRest(ts, gaps);
      TextFirst(ts[0]);
      HereSplit(line, q, g, Text(ts[0]) + Spell(ts[1..], gaps[1..]));
      HereSplit(line, q + |g|, Text(ts[0]), Spell(ts[1..], gaps[1..]));
      assert CharHere(line, q + |g|, Text(ts[0]), 0);
      SkipBlank(line, q, g);
    }
  }

  /** What is behind the first token does not belong to it. */
  lemma Behind(line: Line, e: nat, ts: seq<Tok>, gaps: seq<string>)
    requires ts != [] && Spelled(ts, gaps) && Tail(line, e, ts[1..], gaps[1..])
    ensures e <= |line| && (ts[0].Word? ==> !IsWord(At(line, e))) && (ts[0] == Sym('>') ==> At(line, e) != '>')
  {
    SpelledRest(ts, gaps);
    TailFirst(line, e, ts[1..], gaps[1..]);
    if gaps[1] != "" {
      assert IsSpace(gaps[1][0]);
    } else if |ts| > 1 {
      SpelledRest(ts[1..], gaps[1..]);
      TextFirst(ts[1]);
    }
  }

  /** A symbol at q. */
  lemma SymHere(line: Line, q: nat, c: char)
    requires q < |line| && line[q] == c && IsSymbol(c) && (c == '>' ==> At(line, q + 1) != '>')
    ensures TokenAt(line, q) == Token(c, q, q + 1, Skip(line, q + 1))
  {
    assert Skip(line, q) == q;
  }

  lemma AppendHere(line: Line, q: nat)
    requires q + 1 < |line| && line[q] == '>' && line[q + 1] == '>'
    ensures TokenAt(line, q) == Token('+', q, q + 2, Skip(line, q + 2))
  {
    assert Skip(line, q) == q;
  }

  /** The token at its text. */
  lemma TextHere(line: Line, q: nat, t: Tok)
    requires TokOk(t) && Here(line, q, Text(t))
    requires (t.Word? ==> !IsWord(At(line, q + |Text(t)|))) && (t == Sym('>') ==> At(line, q + 1) != '>')
    ensures
      var e := q + |Text(t)|;
      && e <= |line| && TokenAt(line, q).kind != '\0' && TokenAt(line, q).q == q && TokenAt(line, q).eq == e
      && TokenAt(line, q).next == Skip(line, e) && TokOf(line, TokenAt(line, q)) == t
  {
    TextFirst(t);
    assert CharHere(line, q, Text(t), 0);
    if t.Word? {
      WordHere(line, q, t.w);
      WordIs(line, q, t.w);
    } else if t.c == '+' {
      assert CharHere(line, q, Text(t), 1);
      AppendHere(line, q);
    } else {
      SymHere(line, q, t.c);
    }
  }

  /** The token at p, seen from the blanks before it. */
  lemma TokenHere(line: Line, q: nat, p: nat, t: Tok)
    requires q <= |line| && Skip(line, q) == p && TokOk(t) && Here(line, p, Text(t))
    requires (t.Word? ==> !IsWord(At(line, p + |Text(t)|))) && (t == Sym('>') ==> At(line, p + 1) != '>')
    ensures
      var x := TokenAt(line, q);
      && x.kind != '\0' && x.q <= x.eq <= |line| && TokOf(line, x) == t
      && x.eq == p + |Text(t)| && x.next == Skip(line, x.eq)
  {
    TextHere(line, p, t);
    SkipTwice(line, q);
  }

  lemma HeadHere(line: Line, q: nat, ts: seq<Tok>, gaps: seq<string>)
    requires ts != [] && Tail(line, q, ts, gaps)
    ensures q <= |line| && |gaps| > 0 && Skip(line, q) == q + |gaps[0]| && TokOk(ts[0])
    ensures
      var p, x := q + |gaps[0]|, Text(ts[0]);
      && Here(line, p, x) && (ts[0].Word? ==> !IsWord(At(line, p + |x|)))
      && (ts[0] == Sym('>') ==> At(line, p + 1) != '>')
  {
    TailSkip(line, q, ts, gaps);
    SpelledRest(ts, gaps);
    Behind(line, q + |gaps[0]| + |Text(ts[0])|, ts, gaps);
  }

  /** Whatever blanks stand between them, tokens that do not cling are read back from their text. */
  lemma {:induction false} SpellToks(line: Line, q: nat, ts: seq<Tok>, gaps: seq<string>)
    requires Tail(line, q, ts, gaps)
    ensures q <= |line| && Toks(line, q) == ts
    decreases |ts|
  {
    TailSkip(line, q, ts, gaps);
    if ts == [] {
      FirstTok(line, q);
    } else {
      HeadHere(line, q, ts, gaps);
      TokenHere(line, q, q + |gaps[0]|, ts[0]);
      var e := TokenAt(line, q).eq;
      SpellToks(line, e, ts[1..], gaps[1..]);
      SkipTwice(line, e);
      assert [ts[0]] + ts[1..] == ts;
    }
  }

  /** A sentence, spelled in any way, is parsed as what it means. */
  lemma AnySpelling(s: Sentence, gaps: seq<string>)
    requires SentenceOk(s) && Spelled(Flat(s), gaps)
    ensures
      var line := Spell(Flat(s), gaps);
      CmdOf(line).Parsed? && Means(line, CmdOf(line).value, TreeOf(s))
  {
    var line := Spell(Flat(s), gaps);
    forall i | 0 <= i < |line| ensures CharHere(line, 0, line, i) { }
    SpellToks(line, 0, Flat(s), gaps);
    SpellNoNul(Flat(s), gaps);
    Accepts(line, s);
  }

  lemma {:induction false} SpellNoNul(ts: seq<Tok>, gaps: seq<string>)
    requires Spelled(ts, gaps)
    ensures NoNul(Spell(ts, gaps))
    decreases |ts|
  {
    if ts != [] {
      SpelledRest(ts, gaps);
      SpellNoNul(ts[1..], gaps[1..]);
      TextNoNul(ts[0]);
    }
  }

  lemma TextNoNul(t: Tok)
    requires TokOk(t)
    ensures NoNul(Text(t))
  {
  }
}
