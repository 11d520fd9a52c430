/** The shell's parser: user/sh.c. The text still to be read is a string; `*ps` is where it
    starts in the line, and `es` is where it ends. */
module Sh {
  const MAXARGS: nat := 10

  predicate White(c: char) { c == ' ' || c == '\t' || c == '\r' || c == '\n' || c == '\U{000B}' }
  predicate Symbol(c: char) { c == '<' || c == '|' || c == '>' || c == '&' || c == ';' || c == '(' || c == ')' }
  predicate Plain(c: char) { !White(c) && !Symbol(c) }

  // ---------- commands ----------

  /** A word and how much of the line is left after it: `argv[i]`, `eargv[i]`. */
  datatype Word = Word(text: string, left: nat)

  datatype Mode = Read | Create | Append

  datatype Cmd =
    | Exec(argv: seq<Word>)
    | Redir(cmd: Cmd, file: Word, mode: Mode)
    | Pipe(left: Cmd, right: Cmd)
    | List(left: Cmd, right: Cmd)
    | Back(cmd: Cmd)

  datatype Result<T> = Ok(value: T, rest: string) | Err

  // ---------- tokens ----------

  function Skip(t: string): (r: string)
    ensures |r| <= |t| && (r != "" ==> !White(r[0]))
  {
    if t != "" && White(t[0]) then Skip(t[1..]) else t
  }

  /** Length of the word at the start. */
  function WordLen(t: string): (n: nat)
    ensures n <= |t| && (forall i :: 0 <= i < n ==> Plain(t[i])) && (n < |t| ==> !Plain(t[n]))
  {
    if t != "" && Plain(t[0]) then 1 + WordLen(t[1..]) else 0
  }

  predicate Peek(t: string, toks: string) {
    var u := Skip(t);
    u != "" && u[0] in toks
  }

  /** Kind of the next token, its word, and the text after it. */
  datatype Token = Token(kind: char, word: Word, rest: string)

  function GetToken(t: string): (k: Token)
    ensures |k.rest| <= |t| && (Skip(t) != "" ==> |k.rest| < |t|)
  {
    TokenAt(Skip(t))
  }

  function TokenAt(u: string): (k: Token)
    requires u == "" || !White(u[0])
    ensures |k.rest| <= |u| && (u != "" ==> |k.rest| < |u|)
  {
    if u == "" then Token('\0', Word("", 0), u)
    else if u[0] == '>' && |u| > 1 && u[1] == '>' then Token('+', Word(u[..2], |u| - 2), Skip(u[2..]))
    else if Symbol(u[0]) then Token(u[0], Word(u[..1], |u| - 1), Skip(u[1..]))
    else var n := WordLen(u); Token('a', Word(u[..n], |u| - n), Skip(u[n..]))
  }

  // ---------- the grammar ----------

  function ModeOf(kind: char): Mode {
    if kind == '<' then Read else if kind == '>' then Create else Append
  }

  function ParseRedirs(cmd: Cmd, t: string): (r: Result<Cmd>)
    ensures r.Ok? ==> |r.rest| <= |t|
    decreases |t|
  {
    if Peek(t, "<>") then
      var op := GetToken(t);
      var file := GetToken(op.rest);
      if file.kind != 'a' then Err else ParseRedirs(Redir(cmd, file.word, ModeOf(op.kind)), file.rest)
    else Ok(cmd, Skip(t))
  }

  /** Arguments are added to the exec command inside the redirections around it. */
  function AddArg(cmd: Cmd, w: Word): Cmd {
    match cmd
    case Exec(argv) => Exec(argv + [w])
    case Redir(c, f, m) => Redir(AddArg(c, w), f, m)
    case _ => cmd
  }

  function ParseArgs(cmd: Cmd, argc: nat, t: string): (r: Result<Cmd>)
    ensures r.Ok? ==> |r.rest| <= |t|
    decreases |t|
  {
    if Peek(t, "|)&;") then Ok(cmd, Skip(t))
    else
      var k := GetToken(t);
      if k.kind == '\0' then Ok(cmd, k.rest)
      else if k.kind != 'a' || argc + 1 >= MAXARGS then Err
      else
        var r := ParseRedirs(AddArg(cmd, k.word), k.rest);
        if r.Err? then Err else ParseArgs(r.value, argc + 1, r.rest)
  }

  function ParseExec(t: string): (r: Result<Cmd>)
    ensures r.Ok? ==> |r.rest| <= |t|
    decreases |t|, 1
  {
    if Peek(t, "(") then ParseBlock(t)
    else
      var r := ParseRedirs(Exec([]), t);
      if r.Err? then Err else ParseArgs(r.value, 0, r.rest)
  }

  function ParseBlock(t: string): (r: Result<Cmd>)
    requires Peek(t, "(")
    ensures r.Ok? ==> |r.rest| <= |t|
    decreases |t|, 0
  {
    var r := ParseLine(GetToken(t).rest);
    if r.Err? || !Peek(r.rest, ")") then Err
    else ParseRedirs(r.value, GetToken(r.rest).rest)
  }

  function ParsePipe(t: string): (r: Result<Cmd>)
    ensures r.Ok? ==> |r.rest| <= |t|
    decreases |t|, 2
  {
    var l := ParseExec(t);
    if l.Err? then Err
    else if Peek(l.rest, "|") then
      var r := ParsePipe(GetToken(l.rest).rest);
      if r.Err? then Err else Ok(Pipe(l.value, r.value), r.rest)
    else Ok(l.value, Skip(l.rest))
  }

  function Backs(cmd: Cmd, t: string): (r: Result<Cmd>)
    ensures r.Ok? && |r.rest| <= |t|
    decreases |t|
  {
    if Peek(t, "&") then Backs(Back(cmd), GetToken(t).rest) else Ok(cmd, Skip(t))
  }

  function ParseAmp(t: string): (r: Result<Cmd>)
    ensures r.Ok? ==> |r.rest| <= |t|
    decreases |t|, 3
  {
    var p := ParsePipe(t);
    if p.Err? then Err else Backs(p.value, p.rest)
  }

  function ParseLine(t: string): (r: Result<Cmd>)
    ensures r.Ok? ==> |r.rest| <= |t|
    decreases |t|, 4
  {
    var b := ParseAmp(t);
    if b.Err? then Err
    else if Peek(b.rest, ";") then
      var r := ParseLine(GetToken(b.rest).rest);
      if r.Err? then Err else Ok(List(b.value, r.value), r.rest)
    else Ok(b.value, Skip(b.rest))
  }

  function ParseCmd(t: string): Result<Cmd> {
    var r := ParseLine(t);
    if r.Err? || Skip(r.rest) != "" then Err else Ok(r.value, "")
  }

  // ---------- rendering ----------

  /** Commands up to where their words end in the line. */
  function Bare(c: Cmd): Cmd {
    match c
    case Exec(argv) => Exec(seq(|argv|, i requires 0 <= i < |argv| => Word(argv[i].text, 0)))
    case Redir(x, f, m) => Redir(Bare(x), Word(f.text, 0), m)
    case Pipe(l, r) => Pipe(Bare(l), Bare(r))
    case List(l, r) => List(Bare(l), Bare(r))
    case Back(x) => Back(Bare(x))
  }

  predicate Spoken(w: string) {
    w != "" && forall i :: 0 <= i < |w| ==> Plain(w[i])
  }

  /** A word that can stand in a C string. */
  predicate Sayable(w: string) {
    Spoken(w) && '\0' !in w
  }

  /** At most nine arguments to a command, and words that are words. */
  predicate Proper(c: Cmd) {
    match c
    case Exec(argv) => |argv| < MAXARGS && forall i :: 0 <= i < |argv| ==> Sayable(argv[i].text)
    case Redir(x, f, _) => Proper(x) && Sayable(f.text)
    case Pipe(l, r) => Proper(l) && Proper(r)
    case List(l, r) => Proper(l) && Proper(r)
    case Back(x) => Proper(x)
  }

  /** The grammar's four levels, from the loosest: 0 for `;`, 1 for `&`, 2 for `|`, 3 for a
      command with redirections. */
  function Level(c: Cmd): nat {
    if c.List? then 0 else if c.Back? then 1 else if c.Pipe? then 2 else 3
  }

  function Op(m: Mode): string {
    match m case Read => "<" case Create => ">" case Append => ">>"
  }

  function RenderArgs(argv: seq<Word>): string {
    if argv == [] then "" else argv[0].text + " " + RenderArgs(argv[1..])
  }

  /** `c` where the grammar wants level `lv`, with parentheses if it is looser than that. */
  function Render(lv: nat, c: Cmd): string
    requires lv <= 3
    decreases c, (Level(c) + 4 - lv) % 4
  {
    if lv != Level(c) then (if lv == 3 then "(" + Render(0, c) + ")" else Render(lv + 1, c))
    else
      match c
      case List(l, r) => Render(1, l) + ";" + Render(0, r)
      case Back(x) => Render(1, x) + "&"
      case Pipe(l, r) => Render(3, l) + "|" + Render(2, r)
      case Exec(argv) => RenderArgs(argv)
      case Redir(x, f, m) => Render(3, x) + Op(m) + f.text + " "
  }

  // ---------- reading back single tokens ----------

  lemma SkipNone(t: string)
    requires t == "" || !White(t[0])
    ensures Skip(t) == t
  {
  }

  lemma {:induction false} WordLenOf(w: string, more: string)
    requires (forall i :: 0 <= i < |w| ==> Plain(w[i])) && (more == "" || !Plain(more[0]))
    ensures WordLen(w + more) == |w|
  {
    if w != "" {
      assert (w + more)[1..] == w[1..] + more;
      WordLenOf(w[1..], more);
    } else {
      assert w + more == more;
    }
  }

  lemma WordToken(w: string, more: string)
    requires Sayable(w) && (more == "" || !Plain(more[0]))
    ensures GetToken(w + more) == Token('a', Word(w, |more|), Skip(more))
  {
    var t := w + more;
    assert Plain(w[0]) && t[0] == w[0];
    SkipNone(t);
    WordLenOf(w, more);
    assert t[..|w|] == w && t[|w|..] == more;
    hide Skip, Sayable, WordLen;
  }

  lemma SymbolToken(c: char, more: string)
    requires Symbol(c) && !(c == '>' && more != "" && more[0] == '>')
    ensures GetToken([c] + more) == Token(c, Word([c], |more|), Skip(more))
  {
    var t := [c] + more;
    SkipNone(t);
    assert t[..1] == [c] && t[1..] == more;
    hide Skip, WordLen;
  }

  lemma PeekAt(c: char, more: string, toks: string)
    requires !White(c)
    ensures Peek([c] + more, toks) <==> c in toks
  {
    SkipNone([c] + more);
    hide Skip;
  }

  lemma AppendToken(more: string)
    ensures GetToken(">>" + more).kind == '+' && GetToken(">>" + more).rest == Skip(more) && Peek(">>" + more, "<>")
  {
    var t := ">>" + more;
    SkipNone(t);
    assert t[2..] == more;
  }

  // ---------- reading back redirections and arguments ----------

  predicate Ready(t: string) {
    t == "" || !White(t[0])
  }

  predicate Follow(lv: nat, rest: string) {
    rest == "" || rest[0] == ')' || (lv >= 1 && rest[0] == ';') || (lv >= 2 && rest[0] == '&') || (lv >= 3 && rest[0] == '|')
  }

  lemma SkipSpace(more: string)
    requires Ready(more)
    ensures Skip(" " + more) == more
  {
    assert (" " + more)[1..] == more;
    SkipNone(more);
  }

  /** What does not start with one of the characters is not peeked. */
  lemma PeekNot(t: string, toks: string)
    requires Ready(t) && (t == "" || t[0] !in toks)
    ensures !Peek(t, toks)
  {
    SkipNone(t);
  }

  lemma OpToken(m: Mode, u: string)
    requires u != "" && Plain(u[0])
    ensures Peek(Op(m) + u, "<>") && GetToken(Op(m) + u).rest == u && ModeOf(GetToken(Op(m) + u).kind) == m
  {
    SkipNone(u);
    if m == Append {
      AppendToken(u);
    } else {
      var c := if m == Read then '<' else '>';
      assert Op(m) == [c];
      SymbolToken(c, u);
      PeekAt(c, u, "<>");
    }
    hide Skip, GetToken, Peek;
  }

  lemma RedirStep(x: Cmd, w: string, m: Mode, more: string)
    requires Sayable(w) && Ready(more)
    ensures ParseRedirs(x, Op(m) + w + " " + more) == ParseRedirs(Redir(x, Word(w, |more| + 1), m), more)
  {
    var u := w + (" " + more);
    assert u[0] == w[0] && Plain(w[0]) && Op(m) + w + " " + more == Op(m) + u;
    hide Skip, GetToken, Peek, Op, Plain, Sayable;
    OpToken(m, u);
    WordToken(w, " " + more);
    SkipSpace(more);
  }

  function Base(c: Cmd): Cmd {
    if c.Redir? then Base(c.cmd) else c
  }

  function RenderRedirs(c: Cmd): string {
    if c.Redir? then RenderRedirs(c.cmd) + Op(c.mode) + c.file.text + " " else ""
  }

  /** The redirections of `c` around `x`. */
  function Wrap(c: Cmd, x: Cmd): Cmd {
    if c.Redir? then Redir(Wrap(c.cmd, x), c.file, c.mode) else x
  }

  lemma {:induction false} RenderBase(c: Cmd)
    ensures Render(3, c) == Render(3, Base(c)) + RenderRedirs(c) && c == Wrap(c, Base(c)) && !Base(c).Redir?
    ensures Proper(c) ==> Proper(Base(c))
  {
    if c.Redir? {
      RenderBase(c.cmd);
      assert Render(3, c) == Render(3, c.cmd) + Op(c.mode) + c.file.text + " ";
    }
  }

  lemma {:induction false} RedirTrip(c: Cmd, x: Cmd, rest: string) returns (y: Cmd)
    requires Proper(c) && Ready(rest)
    ensures ParseRedirs(x, RenderRedirs(c) + rest) == ParseRedirs(y, rest) && Bare(y) == Bare(Wrap(c, x))
    ensures Ready(RenderRedirs(c) + rest)
  {
    if c.Redir? {
      var tail := Op(c.mode) + c.file.text + " " + rest;
      assert RenderRedirs(c) + rest == RenderRedirs(c.cmd) + tail;
      assert tail[0] == Op(c.mode)[0];
      var y1 := RedirTrip(c.cmd, x, tail);
      RedirStep(y1, c.file.text, c.mode, rest);
      y := Redir(y1, Word(c.file.text, |rest| + 1), c.mode);
    } else {
      assert RenderRedirs(c) + rest == rest;
      y := x;
    }
  }

  lemma RedirsEnd(y: Cmd, rest: string)
    requires Ready(rest) && (rest == "" || (rest[0] != '<' && rest[0] != '>'))
    ensures ParseRedirs(y, rest) == Ok(y, rest)
  {
    PeekNot(rest, "<>");
    SkipNone(rest);
  }

  /** After the last argument and the redirections. */
  lemma ArgsEnd(y: Cmd, argc: nat, rest: string)
    requires Follow(3, rest)
    ensures ParseArgs(y, argc, rest) == Ok(y, rest)
  {
    SkipNone(rest);
    if rest != "" {
      assert rest == [rest[0]] + rest[1..];
      PeekAt(rest[0], rest[1..], "|)&;");
    }
  }

  lemma ArgStep(done: seq<Word>, w: string, tail: string)
    requires Sayable(w) && Ready(tail) && |done| + 1 < MAXARGS
    ensures var r := ParseRedirs(Exec(done + [Word(w, |tail| + 1)]), tail);
            ParseArgs(Exec(done), |done|, w + " " + tail) == if r.Err? then Err else ParseArgs(r.value, |done| + 1, r.rest)
  {
    hide ParseArgs, ParseRedirs, Skip, WordLen, Peek, GetToken;
    var t := w + (" " + tail);
    assert w + " " + tail == t && t[0] == w[0] && Plain(w[0]);
    PeekNot(t, "|)&;");
    WordToken(w, " " + tail);
    SkipSpace(tail);
    ArgStepAt(done, t);
  }

  lemma ArgStepAt(done: seq<Word>, t: string)
    requires !Peek(t, "|)&;") && GetToken(t).kind == 'a' && |done| + 1 < MAXARGS
    ensures var r := ParseRedirs(Exec(done + [GetToken(t).word]), GetToken(t).rest);
            ParseArgs(Exec(done), |done|, t) == if r.Err? then Err else ParseArgs(r.value, |done| + 1, r.rest)
  {
    hide Peek, GetToken, ParseRedirs;
  }

  lemma {:induction false} ArgsTrip(done: seq<Word>, argv: seq<Word>, c: Cmd, rest: string) returns (y: Cmd)
    requires argv != [] && (forall i :: 0 <= i < |argv| ==> Sayable(argv[i].text)) && |done| + |argv| < MAXARGS && Proper(c) && Follow(3, rest)
    ensures ParseArgs(Exec(done), |done|, RenderArgs(argv) + (RenderRedirs(c) + rest)) == Ok(y, rest)
    ensures Bare(y) == Bare(Wrap(c, Exec(done + argv)))
    decreases |argv|, 1
  {
    hide ParseArgs, ParseRedirs, RenderRedirs, Bare, Wrap, Proper, Sayable, Follow;
    var more := RenderRedirs(c) + rest;
    var tail := RenderArgs(argv[1..]) + more;
    var w := Word(argv[0].text, |tail| + 1);
    assert RenderArgs(argv) + more == argv[0].text + " " + tail;
    if argv[1..] != [] {
      y := ArgsMore(done, argv, c, rest);
      SameWords(c, done + [w] + argv[1..], done + argv);
    } else {
      assert tail == more;
      y := ArgsLast(done, argv[0].text, c, rest);
      SameWords(c, done + [w], done + argv);
    }
  }

  lemma {:induction false} ArgsLast(done: seq<Word>, text: string, c: Cmd, rest: string) returns (y: Cmd)
    requires Sayable(text) && |done| + 1 < MAXARGS && Proper(c) && Follow(3, rest)
    ensures var tail := RenderRedirs(c) + rest;
            && ParseArgs(Exec(done), |done|, text + " " + tail) == Ok(y, rest)
            && Bare(y) == Bare(Wrap(c, Exec(done + [Word(text, |tail| + 1)])))
  {
    hide ParseArgs, ParseRedirs, RenderRedirs, Bare, Wrap, Proper, Sayable;
    var tail := RenderRedirs(c) + rest;
    y := RedirTrip(c, Exec(done + [Word(text, |tail| + 1)]), rest);
    ArgStep(done, text, tail);
    RedirsEnd(y, rest);
    ArgsEnd(y, |done| + 1, rest);
  }

  lemma {:induction false} ArgsMore(done: seq<Word>, argv: seq<Word>, c: Cmd, rest: string) returns (y: Cmd)
    requires |argv| > 1 && (forall i :: 0 <= i < |argv| ==> Sayable(argv[i].text)) && |done| + |argv| < MAXARGS && Proper(c) && Follow(3, rest)
    ensures var tail := RenderArgs(argv[1..]) + (RenderRedirs(c) + rest);
            && ParseArgs(Exec(done), |done|, argv[0].text + " " + tail) == Ok(y, rest)
            && Bare(y) == Bare(Wrap(c, Exec(done + [Word(argv[0].text, |tail| + 1)] + argv[1..])))
    decreases |argv|, 0
  {
    hide ParseArgs, ParseRedirs, RenderRedirs, Bare, Wrap, Proper;
    var tail := RenderArgs(argv[1..]) + (RenderRedirs(c) + rest);
    var w := Word(argv[0].text, |tail| + 1);
    assert tail[0] == argv[1].text[0] && Plain(argv[1].text[0]);
    ArgStep(done, argv[0].text, tail);
    RedirsEnd(Exec(done + [w]), tail);
    y := ArgsTrip(done + [w], argv[1..], c, rest);
  }

  lemma {:induction false} SameWords(c: Cmd, a: seq<Word>, b: seq<Word>)
    requires |a| == |b| && forall i :: 0 <= i < |a| ==> a[i].text == b[i].text
    ensures Bare(Wrap(c, Exec(a))) == Bare(Wrap(c, Exec(b)))
  {
    if c.Redir? {
      SameWords(c.cmd, a, b);
    } else {
      assert Bare(Exec(a)).argv == Bare(Exec(b)).argv;
    }
  }

  // ---------- reading back whole commands ----------

  lemma Led(a: string, b: string, c: string)
    requires Ready(a) && b != "" && !White(b[0])
    ensures Ready(a + b + c)
  {
    if a != "" { assert (a + b + c)[0] == a[0]; } else { assert (a + b + c)[0] == b[0]; }
  }

  /** A rendering does not start with white space. */
  lemma {:induction false} Opens(lv: nat, c: Cmd)
    requires lv <= 3 && Proper(c)
    ensures Ready(Render(lv, c))
    decreases c, (Level(c) + 4 - lv) % 4 + 1
  {
    hide Ready, Proper;
    if lv != Level(c) {
      if lv < 3 {
        Opens(lv + 1, c);
      } else {
        OpensBlock(Render(0, c));
      }
    } else {
      OpensAt(c);
    }
  }

  lemma OpensBlock(t: string)
    ensures Ready("(" + t + ")")
  {
    assert ("(" + t + ")")[0] == '(';
  }

  lemma {:induction false} OpensAt(c: Cmd)
    requires Proper(c)
    ensures Ready(Render(Level(c), c))
    decreases c, 0
  {
    match c
    case List(l, r) =>
      Opens(1, l);
      Led(Render(1, l), ";", Render(0, r));
    case Back(x) =>
      Opens(1, x);
      Led(Render(1, x), "&", "");
    case Pipe(l, r) =>
      Opens(3, l);
      Led(Render(3, l), "|", Render(2, r));
    case Exec(argv) =>
      if argv != [] { assert RenderArgs(argv)[0] == argv[0].text[0] && Plain(argv[0].text[0]); }
    case Redir(x, f, m) =>
      Opens(3, x);
      Led(Render(3, x), Op(m), f.text + " ");
      assert Render(3, c) == Render(3, x) + Op(m) + (f.text + " ");
  }

  lemma RenderReady(lv: nat, c: Cmd, more: string)
    requires lv <= 3 && Proper(c) && Ready(more)
    ensures Ready(Render(lv, c) + more)
  {
    hide Render, Proper;
    Opens(lv, c);
    var t := Render(lv, c);
    if t == "" { assert t + more == more; } else { assert (t + more)[0] == t[0]; }
  }

  function Size(c: Cmd): nat {
    match c
    case Exec(_) => 1
    case Redir(x, _, _) => 1 + Size(x)
    case Pipe(l, r) => 1 + Size(l) + Size(r)
    case List(l, r) => 1 + Size(l) + Size(r)
    case Back(x) => 1 + Size(x)
  }

  /** A simple command with its redirections. */
  lemma SimpleTrip(c: Cmd, rest: string) returns (y: Cmd)
    requires Proper(c) && Base(c).Exec? && Follow(3, rest)
    ensures ParseExec(Render(3, c) + rest) == Ok(y, rest) && Bare(y) == Bare(c)
  {
    hide ParseArgs, ParseRedirs, RenderRedirs, Bare, Wrap, Proper, Peek;
    RenderBase(c);
    var argv := Base(c).argv;
    var more := RenderRedirs(c) + rest;
    var t := RenderArgs(argv) + more;
    assert Render(3, c) + rest == t;
    ProperArgs(Base(c));
    NoBlock(argv, c, rest);
    if argv == [] {
      assert t == more;
      y := RedirTrip(c, Exec([]), rest);
      RedirsEnd(y, rest);
      ArgsEnd(y, 0, rest);
      assert Base(c) == Exec([]);
    } else {
      assert t[0] == argv[0].text[0] && Plain(argv[0].text[0]);
      RedirsEnd(Exec([]), t);
      y := ArgsTrip([], argv, c, rest);
      assert [] + argv == argv;
    }
  }

  lemma ProperArgs(c: Cmd)
    requires Proper(c) && c.Exec?
    ensures |c.argv| < MAXARGS && forall i :: 0 <= i < |c.argv| ==> Sayable(c.argv[i].text)
  {
  }

  lemma NoBlock(argv: seq<Word>, c: Cmd, rest: string)
    requires (forall i :: 0 <= i < |argv| ==> Sayable(argv[i].text)) && Proper(c) && Follow(3, rest)
    ensures !Peek(RenderArgs(argv) + (RenderRedirs(c) + rest), "(")
  {
    var t := RenderArgs(argv) + (RenderRedirs(c) + rest);
    if argv != [] {
      assert t[0] == argv[0].text[0] && Plain(argv[0].text[0]);
    } else {
      RedirsFirst(c, rest);
      assert t == RenderRedirs(c) + rest;
    }
    PeekNot(t, "(");
  }

  lemma {:induction false} RedirsFirst(c: Cmd, rest: string)
    requires rest == "" || (rest[0] != '(' && !White(rest[0]))
    ensures var t := RenderRedirs(c) + rest; t == "" || (t[0] != '(' && !White(t[0]))
  {
    if c.Redir? {
      var tail := Op(c.mode) + c.file.text + " " + rest;
      assert tail[0] == Op(c.mode)[0] && RenderRedirs(c) + rest == RenderRedirs(c.cmd) + tail;
      RedirsFirst(c.cmd, tail);
    } else {
      assert RenderRedirs(c) + rest == rest;
    }
  }

  /** A separator is read and what follows it is next. */
  lemma Separator(c: char, more: string)
    requires (c == ';' || c == '&' || c == '|' || c == '(' || c == ')') && Ready(more)
    ensures GetToken([c] + more).rest == more && Peek([c] + more, [c])
    ensures Skip([c] + more) == [c] + more
  {
    SymbolToken(c, more);
    SkipNone(more);
    SkipNone([c] + more);
    PeekAt(c, more, [c]);
  }

  lemma {:induction false} BaseSize(c: Cmd)
    ensures Size(Base(c)) <= Size(c) && (c.Redir? ==> Size(Base(c)) < Size(c))
  {
    if c.Redir? { BaseSize(c.cmd); }
  }

  lemma {:induction false} ExecTrip(c: Cmd, rest: string) returns (y: Cmd)
    requires Proper(c) && Follow(3, rest)
    ensures ParseExec(Render(3, c) + rest) == Ok(y, rest) && Bare(y) == Bare(c)
    decreases Size(c), (Level(c) + 4 - 3) % 4
  {
    hide ParseArgs, ParseRedirs, ParseLine, RenderRedirs, Bare, Wrap, Proper, Peek, GetToken, Skip;
    if Base(c).Exec? {
      y := SimpleTrip(c, rest);
    } else {
      RenderBase(c);
      BaseSize(c);
      var b, more := Base(c), RenderRedirs(c) + rest;
      var inner := Render(0, b) + (")" + more);
      assert Render(3, c) + rest == "(" + inner;
      var x := LineTrip(b, ")" + more);
      y := RedirTrip(c, x, rest);
      RenderReady(0, b, ")" + more);
      Separator('(', inner);
      Separator(')', more);
      RedirsEnd(y, rest);
      WrapBare(c, x, b);
    }
  }

  lemma {:induction false} WrapBare(c: Cmd, x: Cmd, b: Cmd)
    requires Bare(x) == Bare(b)
    ensures Bare(Wrap(c, x)) == Bare(Wrap(c, b))
  {
    if c.Redir? { WrapBare(c.cmd, x, b); }
  }

  lemma {:induction false} PipeTrip(c: Cmd, rest: string) returns (y: Cmd)
    requires Proper(c) && Follow(2, rest)
    ensures ParsePipe(Render(2, c) + rest) == Ok(y, rest) && Bare(y) == Bare(c)
    decreases Size(c), (Level(c) + 4 - 2) % 4
  {
    hide ParseExec, Peek, GetToken, Skip;
    if c.Pipe? {
      var right := Render(2, c.right) + rest;
      assert Render(2, c) + rest == Render(3, c.left) + ("|" + right);
      RenderReady(2, c.right, rest);
      Separator('|', right);
      var l := ExecTrip(c.left, "|" + right);
      var r := PipeTrip(c.right, rest);
      y := Pipe(l, r);
    } else {
      y := ExecTrip(c, rest);
      SkipNone(rest);
      PeekNot(rest, "|");
    }
  }

  /** Up to the `&`s that may still follow. */
  lemma {:induction false} AmpTrip(c: Cmd, rest: string) returns (y: Cmd)
    requires Proper(c) && Follow(2, rest)
    ensures ParseAmp(Render(1, c) + rest) == Backs(y, rest) && Bare(y) == Bare(c)
    decreases Size(c), (Level(c) + 4 - 1) % 4
  {
    hide ParsePipe, Peek, GetToken, Skip;
    if c.Back? {
      assert Render(1, c) + rest == Render(1, c.cmd) + ("&" + rest);
      var x := AmpTrip(c.cmd, "&" + rest);
      Separator('&', rest);
      y := Back(x);
    } else {
      y := PipeTrip(c, rest);
    }
  }

  lemma {:induction false} LineTrip(c: Cmd, rest: string) returns (y: Cmd)
    requires Proper(c) && Follow(0, rest)
    ensures ParseLine(Render(0, c) + rest) == Ok(y, rest) && Bare(y) == Bare(c)
    decreases Size(c), (Level(c) + 4 - 0) % 4
  {
    hide ParseAmp, Peek, GetToken, Skip;
    if c.List? {
      var right := Render(0, c.right) + rest;
      assert Render(0, c) + rest == Render(1, c.left) + (";" + right);
      RenderReady(0, c.right, rest);
      Separator(';', right);
      var l := AmpTrip(c.left, ";" + right);
      PeekNot(";" + right, "&");
      var r := LineTrip(c.right, rest);
      y := List(l, r);
    } else {
      y := AmpTrip(c, rest);
      SkipNone(rest);
      PeekNot(rest, "&");
      PeekNot(rest, ";");
    }
  }

  /** Round trip: every command with proper words is read back from its rendering. */
  lemma RoundTrip(c: Cmd) returns (y: Cmd)
    requires Proper(c)
    ensures ParseCmd(Render(0, c)) == Ok(y, "") && Bare(y) == Bare(c)
  {
    assert Render(0, c) + "" == Render(0, c);
    y := LineTrip(c, "");
  }

  lemma {:induction false} ArgsOverflow(done: seq<Word>, argv: seq<Word>)
    requires argv != [] && (forall i :: 0 <= i < |argv| ==> Sayable(argv[i].text)) && |done| < MAXARGS <= |done| + |argv|
    ensures ParseArgs(Exec(done), |done|, RenderArgs(argv)) == Err
    decreases |argv|
  {
    hide ParseRedirs, Peek, GetToken, Skip;
    var w, tail := argv[0].text, RenderArgs(argv[1..]);
    var t := w + (" " + tail);
    assert RenderArgs(argv) == t && t[0] == w[0] && Plain(w[0]);
    PeekNot(t, "|)&;");
    WordToken(w, " " + tail);
    if |done| + 1 < MAXARGS {
      assert tail[0] == argv[1].text[0] && Plain(argv[1].text[0]);
      ArgStep(done, w, tail);
      RedirsEnd(Exec(done + [Word(w, |tail| + 1)]), tail);
      ArgsOverflow(done + [Word(w, |tail| + 1)], argv[1..]);
    }
  }

  /** ... and a command with ten arguments or more is not. */
  lemma TooManyArgs(argv: seq<Word>)
    requires |argv| >= MAXARGS && forall i :: 0 <= i < |argv| ==> Sayable(argv[i].text)
    ensures ParseCmd(Render(0, Exec(argv))) == Err
  {
    hide ParseArgs, ParseRedirs, Peek, GetToken, Skip;
    var t := RenderArgs(argv);
    var c := Exec(argv);
    assert Render(0, c) == Render(1, c) == Render(2, c) == Render(3, c) == t;
    assert t[0] == argv[0].text[0] && Plain(argv[0].text[0]);
    PeekNot(t, "(");
    RedirsEnd(Exec([]), t);
    ArgsOverflow([], argv);
    assert ParseExec(t).Err? && ParsePipe(t).Err? && ParseAmp(t).Err? && ParseLine(t).Err?;
  }

  // ---------- where the words are in the line ----------

  predicate Suffix(t: string, line: string) {
    |t| <= |line| && t == line[|line| - |t|..]
  }

  /** The word is in the line where it says, and ends there. */
  predicate InLine(w: Word, line: string) {
    && Spoken(w.text) && w.left + |w.text| <= |line|
    && line[|line| - w.left - |w.text|..|line| - w.left] == w.text
    && (w.left == 0 || !Plain(line[|line| - w.left]))
  }

  predicate WordsIn(c: Cmd, line: string) {
    match c
    case Exec(argv) => forall i :: 0 <= i < |argv| ==> InLine(argv[i], line)
    case Redir(x, f, _) => WordsIn(x, line) && InLine(f, line)
    case Pipe(l, r) => WordsIn(l, line) && WordsIn(r, line)
    case List(l, r) => WordsIn(l, line) && WordsIn(r, line)
    case Back(x) => WordsIn(x, line)
  }

  lemma {:induction false} SkipSuffix(t: string, line: string)
    requires Suffix(t, line)
    ensures Suffix(Skip(t), line)
  {
    if t != "" && White(t[0]) {
      assert t[1..] == line[|line| - |t| + 1..];
      SkipSuffix(t[1..], line);
    }
  }

  lemma DropSuffix(u: string, line: string, n: nat)
    requires Suffix(u, line) && n <= |u|
    ensures Suffix(u[n..], line)
  {
  }

  /** The first `n` characters of what is left, as a word. */
  lemma SpanIs(u: string, line: string, n: nat)
    requires Suffix(u, line) && n <= |u|
    ensures var left := |u| - n; |u[..n]| == n && left + n <= |line| && line[|line| - left - n..|line| - left] == u[..n]
    ensures n < |u| ==> line[|line| - (|u| - n)] == u[n]
  {
    var lo := |line| - |u|;
    assert line[lo..lo + n] == u[..n];
  }

  lemma TokenSuffix(t: string, line: string)
    requires Suffix(t, line)
    ensures Suffix(GetToken(t).rest, line) && (GetToken(t).kind == 'a' ==> InLine(GetToken(t).word, line))
  {
    hide Suffix;
    SkipSuffix(t, line);
    TokenAtSuffix(Skip(t), line);
  }

  lemma TokenAtSuffix(u: string, line: string)
    requires Suffix(u, line) && Ready(u)
    ensures Suffix(TokenAt(u).rest, line) && (TokenAt(u).kind == 'a' ==> InLine(TokenAt(u).word, line))
  {
    hide Suffix, Skip;
    if u != "" {
      var n := if u[0] == '>' && |u| > 1 && u[1] == '>' then 2 else if Symbol(u[0]) then 1 else WordLen(u);
      DropSuffix(u, line, n);
      SkipSuffix(u[n..], line);
      if n == WordLen(u) && Plain(u[0]) { WordInLine(u, line); }
    }
  }

  lemma WordInLine(u: string, line: string)
    requires Suffix(u, line) && u != "" && Plain(u[0])
    ensures var n := WordLen(u); InLine(Word(u[..n], |u| - n), line)
  {
    hide Suffix, Plain;
    var n := WordLen(u);
    SpanIs(u, line, n);
    WordSaid(u);
  }

  lemma WordSaid(u: string)
    requires u != "" && Plain(u[0])
    ensures Spoken(u[..WordLen(u)])
  {
    hide Plain;
  }

  lemma {:induction false} RedirsIn(c: Cmd, t: string, line: string)
    requires WordsIn(c, line) && Suffix(t, line)
    ensures var r := ParseRedirs(c, t); r.Ok? ==> WordsIn(r.value, line) && Suffix(r.rest, line)
    decreases |t|
  {
    hide Peek, GetToken, Skip, InLine, Suffix;
    SkipSuffix(t, line);
    if Peek(t, "<>") {
      var op := GetToken(t);
      TokenSuffix(t, line);
      TokenSuffix(op.rest, line);
      var file := GetToken(op.rest);
      PeekShorter(t, "<>");
      if file.kind == 'a' {
        RedirsIn(Redir(c, file.word, ModeOf(op.kind)), file.rest, line);
      }
    }
  }

  lemma PeekShorter(t: string, toks: string)
    requires Peek(t, toks)
    ensures |GetToken(t).rest| < |t|
  {
  }

  lemma {:induction false} AddArgIn(c: Cmd, w: Word, line: string)
    requires WordsIn(c, line) && InLine(w, line)
    ensures WordsIn(AddArg(c, w), line)
  {
    if c.Redir? { AddArgIn(c.cmd, w, line); }
  }

  lemma {:induction false} ArgsIn(c: Cmd, argc: nat, t: string, line: string)
    requires WordsIn(c, line) && Suffix(t, line)
    ensures var r := ParseArgs(c, argc, t); r.Ok? ==> WordsIn(r.value, line) && Suffix(r.rest, line)
    decreases |t|
  {
    hide Peek, Skip, InLine, Suffix, ParseRedirs, AddArg, WordsIn, TokenAt;
    SkipSuffix(t, line);
    TokenSuffix(t, line);
    var k := GetToken(t);
    if !Peek(t, "|)&;") && k.kind == 'a' && argc + 1 < MAXARGS {
      AddArgIn(c, k.word, line);
      RedirsIn(AddArg(c, k.word), k.rest, line);
      var r := ParseRedirs(AddArg(c, k.word), k.rest);
      TokenShorter(t);
      if r.Ok? { ArgsIn(r.value, argc + 1, r.rest, line); }
    }
  }

  lemma TokenShorter(t: string)
    requires GetToken(t).kind == 'a'
    ensures |GetToken(t).rest| < |t|
  {
  }

  lemma {:induction false} ExecIn(t: string, line: string)
    requires Suffix(t, line)
    ensures var r := ParseExec(t); r.Ok? ==> WordsIn(r.value, line) && Suffix(r.rest, line)
    decreases |t|, 0
  {
    hide Peek, GetToken, Skip, Suffix, ParseRedirs, ParseArgs, ParseLine;
    if Peek(t, "(") {
      TokenSuffix(t, line);
      PeekShorter(t, "(");
      LineIn(GetToken(t).rest, line);
      var r := ParseLine(GetToken(t).rest);
      if r.Ok? && Peek(r.rest, ")") {
        TokenSuffix(r.rest, line);
        RedirsIn(r.value, GetToken(r.rest).rest, line);
      }
    } else {
      RedirsIn(Exec([]), t, line);
      var r := ParseRedirs(Exec([]), t);
      if r.Ok? { ArgsIn(r.value, 0, r.rest, line); }
    }
  }

  lemma {:induction false} PipeIn(t: string, line: string)
    requires Suffix(t, line)
    ensures var r := ParsePipe(t); r.Ok? ==> WordsIn(r.value, line) && Suffix(r.rest, line)
    decreases |t|, 1
  {
    hide Peek, GetToken, Skip, Suffix, ParseExec;
    ExecIn(t, line);
    var l := ParseExec(t);
    if l.Ok? {
      SkipSuffix(l.rest, line);
      if Peek(l.rest, "|") {
        TokenSuffix(l.rest, line);
        PeekShorter(l.rest, "|");
        PipeIn(GetToken(l.rest).rest, line);
      }
    }
  }

  lemma {:induction false} BacksIn(c: Cmd, t: string, line: string)
    requires WordsIn(c, line) && Suffix(t, line)
    ensures var r := Backs(c, t); WordsIn(r.value, line) && Suffix(r.rest, line)
    decreases |t|
  {
    hide Peek, GetToken, Skip, Suffix;
    SkipSuffix(t, line);
    if Peek(t, "&") {
      TokenSuffix(t, line);
      PeekShorter(t, "&");
      BacksIn(Back(c), GetToken(t).rest, line);
    }
  }

  lemma {:induction false} LineIn(t: string, line: string)
    requires Suffix(t, line)
    ensures var r := ParseLine(t); r.Ok? ==> WordsIn(r.value, line) && Suffix(r.rest, line)
    decreases |t|, 2
  {
    hide Peek, GetToken, Skip, Suffix, ParsePipe, Backs;
    PipeIn(t, line);
    var p := ParsePipe(t);
    if p.Ok? {
      BacksIn(p.value, p.rest, line);
      var b := Backs(p.value, p.rest);
      SkipSuffix(b.rest, line);
      if Peek(b.rest, ";") {
        TokenSuffix(b.rest, line);
        PeekShorter(b.rest, ";");
        LineIn(GetToken(b.rest).rest, line);
      }
    }
  }

  // ---------- scanning the line in place ----------

  method SkipWhite(line: string, ps: nat) returns (s: nat)
    requires ps <= |line|
    ensures ps <= s <= |line| && line[s..] == Skip(line[ps..])
  {
    s := ps;
    while s < |line| && White(line[s])
      invariant ps <= s <= |line| && Skip(line[s..]) == Skip(line[ps..])
    {
      assert line[s..][1..] == line[s + 1..];
      s := s + 1;
    }
  }

  method PeekToken(line: string, ps: nat, toks: string) returns (found: bool, s: nat)
    requires ps <= |line|
    ensures ps <= s <= |line| && line[s..] == Skip(line[ps..]) && (found <==> Peek(line[ps..], toks))
  {
    s := SkipWhite(line, ps);
    found := s < |line| && line[s] in toks;
  }

  /** The token that ends at `eq`. */
  lemma TokenIs(line: string, s: nat, eq: nat, kind: char)
    requires s <= eq <= |line| && Ready(line[s..])
    requires if s == |line| then kind == '\0' && eq == s
             else if line[s] == '>' && s + 1 < |line| && line[s + 1] == '>' then kind == '+' && eq == s + 2
             else if Symbol(line[s]) then kind == line[s] && eq == s + 1
             else kind == 'a' && eq == s + WordLen(line[s..])
    ensures TokenAt(line[s..]) == Token(kind, Word(line[s..eq], |line| - eq), Skip(line[eq..]))
  {
    hide Skip, WordLen;
    var u := line[s..];
    SkipNone(u);
    assert u[..eq - s] == line[s..eq] && u[eq - s..] == line[eq..];
    assert u != "" ==> u[0] == line[s];
    assert |u| > 1 ==> u[1] == line[s + 1];
  }

  method WordEnd(line: string, s: nat) returns (eq: nat)
    requires s <= |line|
    ensures s <= eq <= |line| && eq == s + WordLen(line[s..])
  {
    eq := s;
    while eq < |line| && Plain(line[eq])
      invariant s <= eq <= |line| && WordLen(line[s..]) == eq - s + WordLen(line[eq..])
    {
      assert line[eq..][1..] == line[eq + 1..];
      eq := eq + 1;
    }
  }

  /** `gettoken`: the kind of token, where its text is, and where the next one starts. */
  method NextToken(line: string, ps: nat) returns (kind: char, q: nat, eq: nat, s: nat)
    requires ps <= |line|
    ensures ps <= q <= eq <= s <= |line|
    ensures GetToken(line[ps..]) == Token(kind, Word(line[q..eq], |line| - eq), line[s..])
  {
    hide Skip, WordLen, TokenAt;
    s := SkipWhite(line, ps);
    q := s;
    if s == |line| {
      kind, eq := '\0', s;
    } else if line[s] == '>' && s + 1 < |line| && line[s + 1] == '>' {
      kind, eq := '+', s + 2;
    } else if Symbol(line[s]) {
      kind, eq := line[s], s + 1;
    } else {
      kind := 'a';
      eq := WordEnd(line, s);
    }
    TokenIs(line, q, eq, kind);
    s := SkipWhite(line, eq);
  }

  // ---------- ending each word with a NUL ----------

  /** How much of the line is left at the ends of the words. */
  function Ends(c: Cmd): set<nat> {
    match c
    case Exec(argv) => set i | 0 <= i < |argv| :: argv[i].left
    case Redir(x, f, _) => Ends(x) + {f.left}
    case Pipe(l, r) => Ends(l) + Ends(r)
    case List(l, r) => Ends(l) + Ends(r)
    case Back(x) => Ends(x)
  }

  ghost predicate EndsFit(c: Cmd, n: nat) {
    forall e :: e in Ends(c) ==> e <= n
  }

  /** `nulterminate`: a NUL after every word and nothing else. The buffer holds a line of `n`
      characters and its NUL. */
  method NulTerminate(buf: array<char>, n: nat, c: Cmd)
    requires buf.Length == n + 1 && EndsFit(c, n)
    modifies buf
    ensures forall i: nat :: i <= n ==> buf[i] == if n - i in Ends(c) then '\0' else old(buf[i])
    decreases c
  {
    match c {
      case Exec(argv) =>
        for k := 0 to |argv|
          invariant forall i: nat :: i <= n ==> buf[i] == if exists j :: 0 <= j < k && argv[j].left == n - i then '\0' else old(buf[i])
        {
          assert argv[k].left in Ends(c);
          buf[n - argv[k].left] := '\0';
        }
      case Redir(x, f, _) =>
        assert Ends(c) == Ends(x) + {f.left};
        NulTerminate(buf, n, x);
        buf[n - f.left] := '\0';
      case Pipe(l, r) =>
        assert Ends(c) == Ends(l) + Ends(r);
        NulTerminate(buf, n, l);
        NulTerminate(buf, n, r);
      case List(l, r) =>
        assert Ends(c) == Ends(l) + Ends(r);
        NulTerminate(buf, n, l);
        NulTerminate(buf, n, r);
      case Back(x) =>
        assert Ends(c) == Ends(x);
        NulTerminate(buf, n, x);
    }
  }

  /** The C string at place `i`. */
  function CString(b: string, i: nat): string
    requires i <= |b|
    decreases |b| - i
  {
    if i == |b| || b[i] == '\0' then "" else [b[i]] + CString(b, i + 1)
  }

  lemma {:induction false} EndsIn(c: Cmd, line: string, e: nat)
    requires WordsIn(c, line) && e in Ends(c)
    ensures e <= |line| && (e == 0 || !Plain(line[|line| - e]))
  {
    match c
    case Exec(argv) =>
    case Redir(x, f, _) => if e in Ends(x) { EndsIn(x, line, e); }
    case Pipe(l, r) => if e in Ends(l) { EndsIn(l, line, e); } else { EndsIn(r, line, e); }
    case List(l, r) => if e in Ends(l) { EndsIn(l, line, e); } else { EndsIn(r, line, e); }
    case Back(x) => EndsIn(x, line, e);
  }

  lemma {:induction false} CStringIs(b: string, i: nat, w: string)
    requires i + |w| < |b| && (forall k :: 0 <= k < |w| ==> b[i + k] == w[k] && w[k] != '\0') && b[i + |w|] == '\0'
    ensures CString(b, i) == w
    decreases |w|
  {
    if w != "" {
      assert b[i] == b[i + 0] == w[0];
      forall k | 0 <= k < |w[1..]| ensures b[i + 1 + k] == w[1..][k] {
        assert b[i + (k + 1)] == w[k + 1];
      }
      CStringIs(b, i + 1, w[1..]);
    }
  }

  lemma ParsedIn(line: string, c: Cmd)
    requires ParseCmd(line) == Ok(c, "")
    ensures WordsIn(c, line)
  {
    LineIn(line, line);
  }

  /** `w` is an argument or a file name in `c`. */
  predicate HasWord(c: Cmd, w: Word) {
    match c
    case Exec(argv) => w in argv
    case Redir(x, f, _) => w == f || HasWord(x, w)
    case Pipe(l, r) => HasWord(l, w) || HasWord(r, w)
    case List(l, r) => HasWord(l, w) || HasWord(r, w)
    case Back(x) => HasWord(x, w)
  }

  lemma {:induction false} WordAt(c: Cmd, line: string, w: Word)
    requires WordsIn(c, line) && HasWord(c, w)
    ensures InLine(w, line) && w.left in Ends(c)
  {
    hide InLine;
    match c
    case Exec(argv) =>
    case Redir(x, f, _) => if w != f { WordAt(x, line, w); }
    case Pipe(l, r) => if HasWord(l, w) { WordAt(l, line, w); } else { WordAt(r, line, w); }
    case List(l, r) => if HasWord(l, w) { WordAt(l, line, w); } else { WordAt(r, line, w); }
    case Back(x) => WordAt(x, line, w);
  }

  /** No word ends inside another one. */
  lemma Kept(line: string, c: Cmd, w: Word, i: nat)
    requires WordsIn(c, line) && InLine(w, line) && i < |w.text|
    ensures var k := |line| - w.left - |w.text| + i; k < |line| && line[k] == w.text[i] && |line| - k !in Ends(c)
  {
    var q := |line| - w.left - |w.text|;
    assert line[q..q + |w.text|][i] == line[q + i] && Plain(w.text[i]);
    var e: nat := |line| - (q + i);
    if e in Ends(c) {
      EndsIn(c, line, e);
    }
  }

  /** After `nulterminate` the string at the start of each word of a parsed line is the word. */
  lemma WordsTerminated(line: string, c: Cmd, b: string, w: Word)
    requires '\0' !in line && ParseCmd(line) == Ok(c, "") && HasWord(c, w)
    requires |b| == |line| + 1 && b[|line|] == '\0'
    requires forall i: nat :: i < |line| ==> b[i] == if |line| - i in Ends(c) then '\0' else line[i]
    ensures w.left + |w.text| <= |line| && CString(b, |line| - w.left - |w.text|) == w.text
  {
    hide ParseCmd, CString, WordsIn, Ends, HasWord;
    ParsedIn(line, c);
    WordAt(c, line, w);
    var q := |line| - w.left - |w.text|;
    assert q + |w.text| <= |line| && b[q + |w.text|] == '\0';
    hide InLine;
    forall i: nat | i < |w.text| ensures b[q + i] == w.text[i] && w.text[i] != '\0' {
      Kept(line, c, w, i);
    }
    CStringIs(b, q, w.text);
  }
}
