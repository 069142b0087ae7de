/**
 The shell's parser as it runs (user/sh.c:262-493): the loops of gettoken, peek,
 parseredirs, parseexec and parseline over a cursor, and nulterminate, which writes a
 NUL behind every word in place. The words are then C strings of the line.
 */
module ShellText {
  import opened Shell

  // ---- the cursor loops ----

  method SkipSpaces(line: Line, i: nat) returns (j: nat)
    requires i <= |line|
    ensures j == Skip(line, i)
  {
    j := i;
    while j < |line| && IsSpace(line[j])
      invariant i <= j <= |line| && Skip(line, j) == Skip(line, i)
    {
      j := j + 1;
    }
  }

  method Peek(line: Line, i: nat, toks: string) returns (j: nat, found: bool)
    requires i <= |line|
    ensures j == Skip(line, i) && (found <==> At(line, j) != '\0' && At(line, j) in toks)
  {
    j := SkipSpaces(line, i);
    found := At(line, j) != '\0' && At(line, j) in toks;
  }

  /** strlen ends the line at its first NUL. */
  predicate Clean(line: Line) { forall k :: 0 <= k < |line| ==> line[k] != '\0' }

  method Gettoken(line: Line, i: nat) returns (t: Token)
    requires i <= |line| && Clean(line)
    ensures t == TokenAt(line, i)
  {
    var q := SkipSpaces(line, i);
    var s, kind := q, At(line, q);
    if kind == '>' {
      s := s + 1;
      if At(line, s) == '>' {
        kind := '+';
        s := s + 1;
      }
    } else if IsSymbol(kind) {
      s := s + 1;
    } else if kind != '\0' {
      kind := 'a';
      while s < |line| && !IsSpace(line[s]) && !IsSymbol(line[s])
        invariant q <= s <= |line| && WordEnd(line, s) == WordEnd(line, q)
      {
        s := s + 1;
      }
    }
    var next := SkipSpaces(line, s);
    t := Token(kind, q, s, next);
  }

  method Parseredirs(line: Line, i: nat, rs0: seq<Redirect>) returns (r: Result<seq<Redirect>>)
    requires i <= |line| && Clean(line)
    ensures r == RedirsOf(line, i, rs0)
  {
    var rs := rs0;
    var pos, more := Peek(line, i, "<>");
    while more
      invariant i <= pos <= |line| && pos == Skip(line, pos) && more == IsArrow(At(line, pos))
      invariant RedirsOf(line, pos, rs) == RedirsOf(line, i, rs0)
      decreases |line| - pos
    {
      var t := Gettoken(line, pos);
      var f := Gettoken(line, t.next);
      if f.kind != 'a' {
        return Panic;
      }
      rs := rs + [Redirect(Span(f.q, f.eq), KindOf(t.kind))];
      pos, more := Peek(line, f.next, "<>");
    }
    r := Parsed(rs, pos);
  }

  method Parseargs(line: Line, i: nat, rs0: seq<Redirect>) returns (r: Result<(seq<Span>, seq<Redirect>)>)
    requires i <= |line| && Clean(line)
    ensures r == ArgsOf(line, i, [], rs0)
  {
    var args, rs := [], rs0;
    var pos, done := Peek(line, i, "|)&;");
    while !done
      invariant i <= pos <= |line| && pos == Skip(line, pos) && done == EndsExec(At(line, pos))
      invariant ArgsOf(line, pos, args, rs) == ArgsOf(line, i, [], rs0)
      decreases |line| - pos
    {
      var t := Gettoken(line, pos);
      if t.kind == '\0' {
        return Parsed((args, rs), t.next);
      }
      if t.kind != 'a' || |args| + 1 >= MAXARGS {
        return Panic;
      }
      args := args + [Span(t.q, t.eq)];
      var more := Parseredirs(line, t.next, rs);
      if more.Panic? {
        return Panic;
      }
      rs := more.value;
      pos, done := Peek(line, more.pos, "|)&;");
    }
    r := Parsed((args, rs), pos);
  }

  method Parseexec(line: Line, i: nat) returns (r: Result<Cmd>)
    requires i <= |line| && Clean(line)
    ensures r == ExecOf(line, i)
    decreases |line| - i, 1
  {
    var j, block := Peek(line, i, "(");
    if block {
      r := Parseblock(line, j);
      return;
    }
    var rs := Parseredirs(line, j, []);
    if rs.Panic? {
      return Panic;
    }
    var parts := Parseargs(line, rs.pos, rs.value);
    if parts.Panic? {
      return Panic;
    }
    r := Parsed(Wrap(Exec(parts.value.0), parts.value.1), parts.pos);
  }

  method Parseblock(line: Line, i: nat) returns (r: Result<Cmd>)
    requires i <= |line| && Clean(line)
    ensures r == BlockOf(line, i)
    decreases |line| - i, 0
  {
    var j, open := Peek(line, i, "(");
    if !open {
      return Panic;
    }
    var t := Gettoken(line, j);
    var inner := Parseline(line, t.next);
    if inner.Panic? {
      return Panic;
    }
    r := Closeblock(line, inner.pos, inner.value);
  }

  method Closeblock(line: Line, i: nat, cmd: Cmd) returns (r: Result<Cmd>)
    requires i <= |line| && Clean(line)
    ensures r == BlockEnd(line, i, cmd)
  {
    var j, close := Peek(line, i, ")");
    if !close {
      return Panic;
    }
    var t := Gettoken(line, j);
    var rs := Parseredirs(line, t.next, []);
    if rs.Panic? {
      return Panic;
    }
    r := Parsed(Wrap(cmd, rs.value), rs.pos);
  }

  method Parsepipe(line: Line, i: nat) returns (r: Result<Cmd>)
    requires i <= |line| && Clean(line)
    ensures r == PipeOf(line, i)
    decreases |line| - i, 2
  {
    r := Parseexec(line, i);
    if r.Panic? {
      return;
    }
    var j, bar := Peek(line, r.pos, "|");
    if !bar {
      return Parsed(r.value, j);
    }
    var t := Gettoken(line, j);
    var right := Parsepipe(line, t.next);
    if right.Panic? {
      return Panic;
    }
    r := Parsed(Pipe(r.value, right.value), right.pos);
  }

  method Parsebacks(line: Line, i: nat, cmd0: Cmd) returns (cmd: Cmd, pos: nat)
    requires i <= |line| && Clean(line)
    ensures (cmd, pos) == BacksOf(line, i, cmd0)
  {
    cmd := cmd0;
    var back;
    pos, back := Peek(line, i, "&");
    while back
      invariant i <= pos <= |line| && pos == Skip(line, pos) && back == (At(line, pos) == '&')
      invariant BacksOf(line, pos, cmd) == BacksOf(line, i, cmd0)
      decreases |line| - pos
    {
      var t := Gettoken(line, pos);
      cmd := Back(cmd);
      pos, back := Peek(line, t.next, "&");
    }
  }

  method Parseline(line: Line, i: nat) returns (r: Result<Cmd>)
    requires i <= |line| && Clean(line)
    ensures r == LineOf(line, i)
    decreases |line| - i, 3
  {
    r := Parsepipe(line, i);
    if r.Panic? {
      return;
    }
    var cmd, k := Parsebacks(line, r.pos, r.value);
    var j, semi := Peek(line, k, ";");
    if !semi {
      return Parsed(cmd, j);
    }
    var t := Gettoken(line, j);
    var rest := Parseline(line, t.next);
    if rest.Panic? {
      return Panic;
    }
    r := Parsed(List(cmd, rest.value), rest.pos);
  }

  /** parsecmd up to nulterminate. */
  method Parsecmd(line: Line) returns (r: Result<Cmd>)
    requires Clean(line)
    ensures r == CmdOf(line)
  {
    r := Parseline(line, 0);
    if r.Parsed? {
      var s := SkipSpaces(line, r.pos);
      if s != |line| {
        return Panic;
      }
    }
  }

  // ---- the words of a parsed command ----

  /** A whole word of the line, from its first character to the one behind its last. */
  ghost predicate IsWordSpan(line: Line, a: Span) {
    && a.q < a.eq <= |line| && !IsWord(At(line, a.eq))
    && forall k :: a.q <= k < a.eq ==> IsWord(line[k])
  }

  ghost predicate Words(line: Line, c: Cmd) {
    match c
    case Exec(args) => forall i :: 0 <= i < |args| ==> IsWordSpan(line, args[i])
    case Redir(cmd, file, _) => Words(line, cmd) && IsWordSpan(line, file)
    case Pipe(left, right) => Words(line, left) && Words(line, right)
    case List(left, right) => Words(line, left) && Words(line, right)
    case Back(cmd) => Words(line, cmd)
  }

  ghost predicate Files(line: Line, rs: seq<Redirect>) {
    forall i :: 0 <= i < |rs| ==> IsWordSpan(line, rs[i].file)
  }

  lemma TokenWord(line: Line, i: nat)
    requires i <= |line| && TokenAt(line, i).kind == 'a'
    ensures IsWordSpan(line, Span(TokenAt(line, i).q, TokenAt(line, i).eq))
  {
  }

  lemma {:induction false} RedirsWords(line: Line, i: nat, rs: seq<Redirect>)
    requires i <= |line| && Files(line, rs) && RedirsOf(line, i, rs).Parsed?
    ensures Files(line, RedirsOf(line, i, rs).value)
    decreases |line| - i
  {
    var j := Skip(line, i);
    if IsArrow(At(line, j)) {
      var t := TokenAt(line, j);
      var f := TokenAt(line, t.next);
      TokenWord(line, t.next);
      RedirsWords(line, f.next, rs + [Redirect(Span(f.q, f.eq), KindOf(t.kind))]);
    }
  }

  lemma {:induction false} ArgsWords(line: Line, i: nat, args: seq<Span>, rs: seq<Redirect>)
    requires i <= |line| && Words(line, Exec(args)) && Files(line, rs) && ArgsOf(line, i, args, rs).Parsed?
    ensures Words(line, Exec(ArgsOf(line, i, args, rs).value.0)) && Files(line, ArgsOf(line, i, args, rs).value.1)
    decreases |line| - i
  {
    var j := Skip(line, i);
    var t := TokenAt(line, j);
    if !EndsExec(At(line, j)) && t.kind != '\0' {
      TokenWord(line, j);
      RedirsWords(line, t.next, rs);
      var more := RedirsOf(line, t.next, rs);
      ArgsWords(line, more.pos, args + [Span(t.q, t.eq)], more.value);
    }
  }

  lemma {:induction false} WrapWords(line: Line, cmd: Cmd, rs: seq<Redirect>)
    requires Words(line, cmd) && Files(line, rs)
    ensures Words(line, Wrap(cmd, rs))
  {
    if rs != [] { WrapWords(line, cmd, rs[..|rs| - 1]); }
  }

  lemma {:induction false} BacksWords(line: Line, i: nat, cmd: Cmd)
    requires i <= |line| && Words(line, cmd)
    ensures Words(line, BacksOf(line, i, cmd).0)
    decreases |line| - i
  {
    var j := Skip(line, i);
    if At(line, j) == '&' { BacksWords(line, TokenAt(line, j).next, Back(cmd)); }
  }

  lemma BlockEndWords(line: Line, i: nat, cmd: Cmd)
    requires i <= |line| && Words(line, cmd) && BlockEnd(line, i, cmd).Parsed?
    ensures Words(line, BlockEnd(line, i, cmd).value)
  {
    var t := TokenAt(line, Skip(line, i));
    RedirsWords(line, t.next, []);
    WrapWords(line, cmd, RedirsOf(line, t.next, []).value);
  }

  lemma {:induction false} ExecWords(line: Line, i: nat)
    requires i <= |line| && ExecOf(line, i).Parsed?
    ensures Words(line, ExecOf(line, i).value)
    decreases |line| - i, 1
  {
    var j := Skip(line, i);
    if At(line, j) == '(' {
      BlockWords(line, j);
    } else {
      var rs := RedirsOf(line, j, []);
      RedirsWords(line, j, []);
      ArgsWords(line, rs.pos, [], rs.value);
      var parts := ArgsOf(line, rs.pos, [], rs.value).value;
      WrapWords(line, Exec(parts.0), parts.1);
    }
  }

  lemma {:induction false} BlockWords(line: Line, i: nat)
    requires i <= |line| && BlockOf(line, i).Parsed?
    ensures Words(line, BlockOf(line, i).value)
    decreases |line| - i, 0
  {
    var t := TokenAt(line, Skip(line, i));
    LineWords(line, t.next);
    var inner := LineOf(line, t.next);
    BlockEndWords(line, inner.pos, inner.value);
  }

  lemma {:induction false} PipeWords(line: Line, i: nat)
    requires i <= |line| && PipeOf(line, i).Parsed?
    ensures Words(line, PipeOf(line, i).value)
    decreases |line| - i, 2
  {
    ExecWords(line, i);
    var j := Skip(line, ExecOf(line, i).pos);
    if At(line, j) == '|' { PipeWords(line, TokenAt(line, j).next); }
  }

  /** Every word of a parsed command is a whole word of the line. */
  lemma {:induction false} LineWords(line: Line, i: nat)
    requires i <= |line| && LineOf(line, i).Parsed?
    ensures Words(line, LineOf(line, i).value)
    decreases |line| - i, 3
  {
    PipeWords(line, i);
    var first := PipeOf(line, i);
    BacksWords(line, first.pos, first.value);
    var j := Skip(line, BacksOf(line, first.pos, first.value).1);
    if At(line, j) == ';' { LineWords(line, TokenAt(line, j).next); }
  }

  // ---- nulterminate ----

  /** The places behind the words of c. */
  ghost function Stops(c: Cmd): set<nat> {
    match c
    case Exec(args) => set i | 0 <= i < |args| :: args[i].eq
    case Redir(cmd, file, _) => Stops(cmd) + {file.eq}
    case Pipe(left, right) => Stops(left) + Stops(right)
    case List(left, right) => Stops(left) + Stops(right)
    case Back(cmd) => Stops(cmd)
  }

  /** s with NULs at the places in stops. */
  ghost predicate Cleared(s: seq<char>, s': seq<char>, stops: set<nat>) {
    |s'| == |s| && forall k: nat :: k < |s| ==> s'[k] == if k in stops then '\0' else s[k]
  }

  method Nulterminate(buf: array<char>, c: Cmd)
    requires forall k :: k in Stops(c) ==> k < buf.Length
    modifies buf
    ensures Cleared(old(buf[..]), buf[..], Stops(c))
    decreases c
  {
    match c {
      case Exec(args) =>
        for i := 0 to |args|
          invariant Cleared(old(buf[..]), buf[..], set j | 0 <= j < i :: args[j].eq)
        {
          assert args[i].eq in Stops(c);
          buf[args[i].eq] := '\0';
        }
      case Redir(cmd, file, _) =>
        assert Stops(cmd) <= Stops(c) && file.eq in Stops(c);
        Nulterminate(buf, cmd);
        buf[file.eq] := '\0';
      case Pipe(left, right) =>
        assert Stops(left) <= Stops(c) && Stops(right) <= Stops(c);
        Nulterminate(buf, left);
        Nulterminate(buf, right);
      case List(left, right) =>
        assert Stops(left) <= Stops(c) && Stops(right) <= Stops(c);
        Nulterminate(buf, left);
        Nulterminate(buf, right);
      case Back(cmd) =>
        assert Stops(cmd) <= Stops(c);
        Nulterminate(buf, cmd);
    }
  }

  /** The C string at q. */
  function CString(s: seq<char>, q: nat): string
    decreases |s| - q
  {
    if q >= |s| || s[q] == '\0' then "" else [s[q]] + CString(s, q + 1)
  }

  /** The words of c, as places in the line. */
  ghost function Spans(c: Cmd): set<Span> {
    match c
    case Exec(args) => set i | 0 <= i < |args| :: args[i]
    case Redir(cmd, file, _) => Spans(cmd) + {file}
    case Pipe(left, right) => Spans(left) + Spans(right)
    case List(left, right) => Spans(left) + Spans(right)
    case Back(cmd) => Spans(cmd)
  }

  lemma {:induction false} SpanWord(line: Line, c: Cmd, a: Span)
    requires Words(line, c) && a in Spans(c)
    ensures IsWordSpan(line, a) && a.eq in Stops(c)
  {
    match c {
      case Exec(args) =>
        var i :| 0 <= i < |args| && a == args[i];
      case Redir(cmd, file, _) => if a in Spans(cmd) { SpanWord(line, cmd, a); }
      case Pipe(left, right) => if a in Spans(left) { SpanWord(line, left, a); } else { SpanWord(line, right, a); }
      case List(left, right) => if a in Spans(left) { SpanWord(line, left, a); } else { SpanWord(line, right, a); }
      case Back(cmd) => SpanWord(line, cmd, a);
    }
  }

  lemma {:induction false} StopOutside(line: Line, c: Cmd, k: nat)
    requires Words(line, c) && k in Stops(c)
    ensures k <= |line| && !IsWord(At(line, k))
  {
    match c {
      case Exec(args) =>
        var i :| 0 <= i < |args| && k == args[i].eq;
        assert IsWordSpan(line, args[i]);
      case Redir(cmd, file, _) => if k in Stops(cmd) { StopOutside(line, cmd, k); }
      case Pipe(left, right) => if k in Stops(left) { StopOutside(line, left, k); }
        else { StopOutside(line, right, k); }
      case List(left, right) => if k in Stops(left) { StopOutside(line, left, k); }
        else { StopOutside(line, right, k); }
      case Back(cmd) => StopOutside(line, cmd, k);
    }
  }

  lemma {:induction false} StringIs(line: Line, s: seq<char>, q: nat, eq: nat)
    requires q <= eq < |s| && eq <= |line| && s[eq] == '\0'
    requires forall k :: q <= k < eq ==> s[k] == line[k] && s[k] != '\0'
    ensures CString(s, q) == line[q..eq]
    decreases eq - q
  {
    if q < eq {
      StringIs(line, s, q + 1, eq);
      assert line[q..eq] == [line[q]] + line[q + 1..eq];
    }
  }

  /** After nulterminate every word of the parsed command is a C string: exactly the word of the line. */
  lemma WordsTerminated(line: Line, s: seq<char>, a: Span)
    requires CmdOf(line).Parsed? && Cleared(line + ['\0'], s, Stops(CmdOf(line).value)) && a in Spans(CmdOf(line).value)
    ensures a.q < a.eq <= |line| && CString(s, a.q) == line[a.q..a.eq]
  {
    var c := CmdOf(line).value;
    LineWords(line, 0);
    SpanWord(line, c, a);
    forall k | a.q <= k < a.eq ensures s[k] == line[k] && s[k] != '\0' {
      assert IsWord(line[k]);
      if k in Stops(c) { StopOutside(line, c, k); }
    }
    StringIs(line, s, a.q, a.eq);
  }

  /** parsecmd, on a buffer that holds the line and its NUL. */
  method ParseInPlace(buf: array<char>) returns (r: Result<Cmd>)
    requires buf.Length > 0 && Clean(buf[..buf.Length - 1]) && buf[buf.Length - 1] == '\0'
    modifies buf
    ensures
      var line := old(buf[..buf.Length - 1]);
      r == CmdOf(line) && if r.Panic? then buf[..] == old(buf[..])
      else forall a :: a in Spans(r.value) ==> a.q < a.eq <= |line| && CString(buf[..], a.q) == line[a.q..a.eq]
  {
    var line := buf[..buf.Length - 1];
    assert buf[..] == line + ['\0'];
    r := Parsecmd(line);
    if r.Parsed? {
      LineWords(line, 0);
      forall k | k in Stops(r.value) ensures k < buf.Length { StopOutside(line, r.value, k); }
      Nulterminate(buf, r.value);
      forall a | a in Spans(r.value) ensures a.q < a.eq <= |line| && CString(buf[..], a.q) == line[a.q..a.eq] {
        WordsTerminated(line, buf[..], a);
      }
    }
  }
}
