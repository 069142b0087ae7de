/**
 The shell's command parser (user/sh.c:256-493): recursive descent over one line of
 text, with words as ranges of the line, and nulterminate, which ends the words in place.
 */
module Shell {
  const MAXARGS := 10

  /** The characters before the terminating NUL. */
  type Line = string

  predicate IsSpace(c: char) { c == ' ' || c == '\t' || c == '\r' || c == '\n' || c == '\U{0B}' }

  predicate IsSymbol(c: char) {
    c == '<' || c == '|' || c == '>' || c == '&' || c == ';' || c == '(' || c == ')'
  }

  predicate IsWord(c: char) { c != '\0' && !IsSpace(c) && !IsSymbol(c) }

  /** The character at i; behind the line is the NUL. */
  function At(line: Line, i: nat): char { if i < |line| then line[i] else '\0' }

  // ---- tokens ----

  function Skip(line: Line, i: nat): (j: nat)
    requires i <= |line|
    ensures i <= j <= |line| && !IsSpace(At(line, j))
    decreases |line| - i
  {
    if i < |line| && IsSpace(line[i]) then Skip(line, i + 1) else i
  }

  function WordEnd(line: Line, i: nat): (j: nat)
    requires i <= |line|
    ensures i <= j <= |line| && !IsWord(At(line, j)) && forall k :: i <= k < j ==> IsWord(line[k])
    decreases |line| - i
  {
    if i < |line| && IsWord(line[i]) then WordEnd(line, i + 1) else i
  }

  /** kind is a symbol, '+' for >>, 'a' for a word or NUL at the end; the text is from q to eq. */
  datatype Token = Token(kind: char, q: nat, eq: nat, next: nat)

  function KindAt(line: Line, q: nat): char {
    var c := At(line, q);
    if c == '>' && At(line, q + 1) == '>' then '+' else if c == '\0' || IsSymbol(c) then c else 'a'
  }

  function TextEnd(line: Line, q: nat): (e: nat)
    requires q <= |line|
    ensures q <= e <= |line|
  {
    var k := KindAt(line, q);
    if k == '\0' then q else if k == '+' then q + 2 else if k == 'a' then WordEnd(line, q) else q + 1
  }

  function TokenAt(line: Line, i: nat): (t: Token)
    requires i <= |line|
    ensures i <= t.q <= t.eq <= t.next <= |line|
    ensures t.kind != '\0' && !IsSpace(At(line, i)) ==> i < t.next
  {
    var q := Skip(line, i);
    Token(KindAt(line, q), q, TextEnd(line, q), Skip(line, TextEnd(line, q)))
  }

  // The arguments of peek; a single character is compared directly.

  predicate IsArrow(c: char) { c == '<' || c == '>' }

  predicate EndsExec(c: char) { c == '|' || c == ')' || c == '&' || c == ';' }

  // ---- commands ----

  /** A word of the line. */
  datatype Span = Span(q: nat, eq: nat)

  datatype Kind = In | Out | Append

  datatype Cmd =
    | Exec(args: seq<Span>)
    | Redir(cmd: Cmd, file: Span, kind: Kind)
    | Pipe(left: Cmd, right: Cmd)
    | List(left: Cmd, right: Cmd)
    | Back(cmd: Cmd)

  datatype Redirect = Redirect(file: Span, kind: Kind)

  datatype Result<+T> = Panic | Parsed(value: T, pos: nat)

  function KindOf(tok: char): Kind { if tok == '<' then In else if tok == '>' then Out else Append }

  /** The redirections around a command, the first one innermost. */
  function Wrap(cmd: Cmd, rs: seq<Redirect>): Cmd {
    if rs == [] then cmd else Redir(Wrap(cmd, rs[..|rs| - 1]), rs[|rs| - 1].file, rs[|rs| - 1].kind)
  }

  function RedirsOf(line: Line, i: nat, rs: seq<Redirect>): (r: Result<seq<Redirect>>)
    requires i <= |line|
    ensures r.Parsed? ==> i <= r.pos <= |line|
    decreases |line| - i
  {
    var j := Skip(line, i);
    if IsArrow(At(line, j)) then
      var t := TokenAt(line, j);
      var f := TokenAt(line, t.next);
      if f.kind != 'a' then Panic
      else RedirsOf(line, f.next, rs + [Redirect(Span(f.q, f.eq), KindOf(t.kind))])
    else Parsed(rs, j)
  }

  /** The loop of parseexec over the words and redirections of a simple command. */
  function ArgsOf(line: Line, i: nat, args: seq<Span>, rs: seq<Redirect>): (r: Result<(seq<Span>, seq<Redirect>)>)
    requires i <= |line|
    ensures r.Parsed? ==> i <= r.pos <= |line|
    decreases |line| - i
  {
    var j := Skip(line, i);
    if EndsExec(At(line, j)) then Parsed((args, rs), j)
    else
      var t := TokenAt(line, j);
      if t.kind == '\0' then Parsed((args, rs), t.next)
      else if t.kind != 'a' || |args| + 1 >= MAXARGS then Panic
      else
        var more := RedirsOf(line, t.next, rs);
        if more.Panic? then Panic else ArgsOf(line, more.pos, args + [Span(t.q, t.eq)], more.value)
  }

  function ExecOf(line: Line, i: nat): (r: Result<Cmd>)
    requires i <= |line|
    ensures r.Parsed? ==> i <= r.pos <= |line|
    decreases |line| - i, 1
  {
    var j := Skip(line, i);
    if At(line, j) == '(' then BlockOf(line, j)
    else
      var rs := RedirsOf(line, j, []);
      if rs.Panic? then Panic
      else
        var parts := ArgsOf(line, rs.pos, [], rs.value);
        if parts.Panic? then Panic else Parsed(Wrap(Exec(parts.value.0), parts.value.1), parts.pos)
  }

  function BlockOf(line: Line, i: nat): (r: Result<Cmd>)
    requires i <= |line|
    ensures r.Parsed? ==> i <= r.pos <= |line|
    decreases |line| - i, 0
  {
    var j := Skip(line, i);
    if At(line, j) != '(' then Panic
    else
      var inner := LineOf(line, TokenAt(line, j).next);
      if inner.Panic? then Panic else BlockEnd(line, inner.pos, inner.value)
  }

  /** The end of parseblock: the closing parenthesis, and redirections. */
  function BlockEnd(line: Line, i: nat, cmd: Cmd): (r: Result<Cmd>)
    requires i <= |line|
    ensures r.Parsed? ==> i <= r.pos <= |line|
  {
    var k := Skip(line, i);
    if At(line, k) != ')' then Panic
    else
      var rs := RedirsOf(line, TokenAt(line, k).next, []);
      if rs.Panic? then Panic else Parsed(Wrap(cmd, rs.value), rs.pos)
  }

  function PipeOf(line: Line, i: nat): (r: Result<Cmd>)
    requires i <= |line|
    ensures r.Parsed? ==> i <= r.pos <= |line|
    decreases |line| - i, 2
  {
    var left := ExecOf(line, i);
    if left.Panic? then Panic
    else
      var j := Skip(line, left.pos);
      if At(line, j) != '|' then Parsed(left.value, j)
      else
        var right := PipeOf(line, TokenAt(line, j).next);
        if right.Panic? then Panic else Parsed(Pipe(left.value, right.value), right.pos)
  }

  /** The loop of parseline over the & behind a command. */
  function BacksOf(line: Line, i: nat, cmd: Cmd): (r: (Cmd, nat))
    requires i <= |line|
    ensures i <= r.1 <= |line|
    decreases |line| - i
  {
    var j := Skip(line, i);
    if At(line, j) == '&' then BacksOf(line, TokenAt(line, j).next, Back(cmd)) else (cmd, j)
  }

  function LineOf(line: Line, i: nat): (r: Result<Cmd>)
    requires i <= |line|
    ensures r.Parsed? ==> i <= r.pos <= |line|
    decreases |line| - i, 3
  {
    var first := PipeOf(line, i);
    if first.Panic? then Panic
    else
      var (cmd, k) := BacksOf(line, first.pos, first.value);
      var j := Skip(line, k);
      if At(line, j) != ';' then Parsed(cmd, j)
      else
        var rest := LineOf(line, TokenAt(line, j).next);
        if rest.Panic? then Panic else Parsed(List(cmd, rest.value), rest.pos)
  }

  /** parsecmd up to nulterminate; Panic is a syntax error. */
  function CmdOf(line: Line): Result<Cmd> {
    var r := LineOf(line, 0);
    if r.Panic? || Skip(line, r.pos) != |line| then Panic else r
  }
}
