// Splitting a .sql script into statements, and the scripts for which the split
// gives back exactly the statements they were written from.
module SqlScript {

  /* ----- the splitter ----- */

  // What JavaScript's trim() strips.
  predicate IsSpace(c: char) {
    || c == ' ' || '\t' <= c <= '\r' || c == '\U{A0}' || c == '\U{1680}' || '\U{2000}' <= c <= '\U{200A}'
    || c == '\U{2028}' || c == '\U{2029}' || c == '\U{202F}' || c == '\U{205F}' || c == '\U{3000}' || c == '\U{FEFF}'
  }

  function TrimStart(s: string): string {
    if |s| > 0 && IsSpace(s[0]) then TrimStart(s[1..]) else s
  }

  function TrimEnd(s: string): string {
    if |s| > 0 && IsSpace(s[|s| - 1]) then TrimEnd(s[..|s| - 1]) else s
  }

  function Trim(s: string): string {
    TrimEnd(TrimStart(s))
  }

  datatype Scanner = Scanner(out: seq<string>, cur: string, inSingle: bool)

  const START := Scanner([], "", false)

  // An empty statement is dropped.
  function Pushed(out: seq<string>, text: string): seq<string> {
    if |text| > 0 then out + [text] else out
  }

  function Push(s: Scanner): Scanner {
    Scanner(Pushed(s.out, Trim(s.cur)), "", s.inSingle)
  }

  // Behind the newline that ends a `--` comment; the newline goes with it.
  function AfterLine(sql: string): (rest: string)
    ensures |rest| <= |sql| && (|sql| > 0 ==> |rest| < |sql|)
  {
    if |sql| == 0 then "" else if sql[0] == '\n' then sql[1..] else AfterLine(sql[1..])
  }

  // Behind the closing mark of a block comment.
  function AfterBlock(sql: string): (rest: string)
    ensures |rest| <= |sql|
  {
    if |sql| == 0 then ""
    else if sql[0] == '*' && |sql| > 1 && sql[1] == '/' then sql[2..]
    else AfterBlock(sql[1..])
  }

  predicate Starts(sql: string, mark: string) {
    |mark| <= |sql| && sql[..|mark|] == mark
  }

  predicate Two(sql: string, a: char, b: char) {
    |sql| > 1 && sql[0] == a && sql[1] == b
  }

  // One turn of the loop, and the text it leaves.
  datatype Turn = Turn(rest: string, state: Scanner)

  function Next(sql: string, s: Scanner): (t: Turn)
    requires |sql| > 0
    ensures |t.rest| < |sql|
  {
    if s.inSingle then
      if Two(sql, '\'', '\'') then Turn(sql[2..], s.(cur := s.cur + sql[..2]))
      else Turn(sql[1..], s.(cur := s.cur + sql[..1], inSingle := sql[0] != '\''))
    else if sql[0] == '\'' then Turn(sql[1..], s.(cur := s.cur + sql[..1], inSingle := true))
    else if Two(sql, '-', '-') then Turn(AfterLine(sql), s)
    else if Two(sql, '/', '*') then Turn(AfterBlock(sql[2..]), s)
    else if sql[0] == ';' then Turn(sql[1..], Push(s))
    else Turn(sql[1..], s.(cur := s.cur + sql[..1]))
  }

  function Scan(sql: string, s: Scanner): Scanner
    decreases |sql|
  {
    if |sql| == 0 then s else Scan(Next(sql, s).rest, Next(sql, s).state)
  }

  function Split(sql: string): seq<string> {
    Push(Scan(sql, START)).out
  }

  function From(sql: string, i: nat): string {
    if i < |sql| then sql[i..] else ""
  }

  method SplitSqlStatements(sql: string) returns (out: seq<string>)
    ensures out == Split(sql)
  {
    out := [];
    var cur, inSingle, i: nat := "", false, 0;
    while i < |sql|
      invariant Scan(From(sql, i), Scanner(out, cur, inSingle)) == Scan(sql, START)
      decreases |sql| - i
    {
      out, cur, inSingle, i := TakeTurn(sql, out, cur, inSingle, i);
    }
    out := PushTrimmed(out, cur);
  }

  // The turn at i leaves the text from j on.
  predicate Takes(sql: string, i: nat, s: Scanner, j: nat, s': Scanner)
    requires i < |sql|
  {
    Next(From(sql, i), s) == Turn(From(sql, j), s')
  }

  // The body of the loop, with its `i++`.
  method TakeTurn(sql: string, out: seq<string>, cur: string, inSingle: bool, i: nat)
    returns (out': seq<string>, cur': string, inSingle': bool, i': nat)
    requires i < |sql|
    ensures i' > i && Takes(sql, i, Scanner(out, cur, inSingle), i', Scanner(out', cur', inSingle'))
  {
    if inSingle {
      out' := out;
      cur', inSingle', i' := TakeQuoted(sql, out, cur, i);
    } else {
      out', cur', inSingle', i' := TakePlain(sql, out, cur, i);
    }
    i' := i' + 1;
  }

  // Outside quotes: a literal opens, a comment is passed over, a statement ends.
  method TakePlain(sql: string, out: seq<string>, cur: string, i: nat)
    returns (out': seq<string>, cur': string, inSingle': bool, i': nat)
    requires i < |sql|
    ensures i' >= i && Takes(sql, i, Scanner(out, cur, false), i' + 1, Scanner(out', cur', inSingle'))
  {
    out', cur', inSingle', i' := out, cur, false, i;
    var ch, next := sql[i], After(sql, i);
    TurnPlain(sql, i, Scanner(out, cur, false));
    if ch == '\'' {
      inSingle' := true;
      cur' := cur + [ch];
    } else if ch == '-' && next == "-" {
      i' := SkipLine(sql, i);
      LineEnds(sql, i, i');
    } else if ch == '/' && next == "*" {
      i' := SkipBlock(sql, i + 2);
    } else if ch == ';' {
      out' := PushTrimmed(out, cur);
      cur' := "";
    } else {
      cur' := cur + [ch];
    }
  }

  method PushTrimmed(out: seq<string>, cur: string) returns (out': seq<string>)
    ensures out' == Pushed(out, Trim(cur))
  {
    var trimmed := Trim(cur);
    out' := out;
    if |trimmed| > 0 { out' := out + [trimmed]; }
  }

  // Inside quotes, a doubled quote stands for one and does not close the literal.
  method TakeQuoted(sql: string, ghost out: seq<string>, cur: string, i: nat) returns (cur': string, inSingle': bool, i': nat)
    requires i < |sql|
    ensures i' >= i && Takes(sql, i, Scanner(out, cur, true), i' + 1, Scanner(out, cur', inSingle'))
  {
    var ch, next := sql[i], After(sql, i);
    TurnQuoted(sql, i, Scanner(out, cur, true));
    cur', inSingle', i' := cur + [ch], true, i;
    if ch == '\'' {
      if next == "'" {
        cur' := cur' + next;
        i' := i + 1;
      } else {
        inSingle' := false;
      }
    }
  }

  function After(sql: string, i: nat): string {
    if i + 1 < |sql| then [sql[i + 1]] else ""
  }

  lemma TurnQuoted(sql: string, i: nat, s: Scanner)
    requires i < |sql| && s.inSingle
    ensures var ch, next := sql[i], After(sql, i);
            Next(From(sql, i), s) ==
              if ch == '\'' && next == "'" then Turn(From(sql, i + 2), s.(cur := s.cur + [ch] + next))
              else Turn(From(sql, i + 1), s.(cur := s.cur + [ch], inSingle := ch != '\''))
  {
    var ch, next := sql[i], After(sql, i);
    assert sql[i..][1..] == From(sql, i + 1) && sql[i..][..1] == [ch];
    if next != "" {
      assert sql[i..][2..] == From(sql, i + 2) && sql[i..][..2] == [ch] + next;
      Assoc(s.cur, [ch], next);
    }
  }

  lemma TurnPlain(sql: string, i: nat, s: Scanner)
    requires i < |sql| && !s.inSingle
    ensures var ch, next := sql[i], After(sql, i);
            Next(From(sql, i), s) ==
              if ch == '\'' then Turn(From(sql, i + 1), s.(cur := s.cur + [ch], inSingle := true))
              else if ch == '-' && next == "-" then Turn(AfterLine(From(sql, i)), s)
              else if ch == '/' && next == "*" then Turn(AfterBlock(From(sql, i + 2)), s)
              else if ch == ';' then Turn(From(sql, i + 1), Push(s))
              else Turn(From(sql, i + 1), s.(cur := s.cur + [ch]))
  {
    var ch, next := sql[i], After(sql, i);
    assert sql[i..][1..] == From(sql, i + 1) && sql[i..][..1] == [ch];
    if next != "" {
      assert sql[i..][2..] == From(sql, i + 2);
    }
  }

  method SkipLine(sql: string, start: nat) returns (i: nat)
    requires start < |sql|
    ensures start <= i <= |sql| && (forall k :: start <= k < i ==> sql[k] != '\n') && (i < |sql| ==> sql[i] == '\n')
  {
    i := start;
    while i < |sql| && sql[i] != '\n'
      invariant start <= i <= |sql|
      invariant forall k :: start <= k < i ==> sql[k] != '\n'
    {
      i := i + 1;
    }
  }

  lemma {:induction false} LineEnds(sql: string, start: nat, i: nat)
    requires start <= i <= |sql| && forall k :: start <= k < i ==> sql[k] != '\n'
    requires i < |sql| ==> sql[i] == '\n'
    ensures AfterLine(From(sql, start)) == From(sql, i + 1)
    decreases i - start
  {
    if start < |sql| {
      assert sql[start..][0] == sql[start] && sql[start..][1..] == From(sql, start + 1);
      if start < i {
        LineEnds(sql, start + 1, i);
      }
    }
  }

  method SkipBlock(sql: string, start: nat) returns (i: nat)
    requires start <= |sql|
    ensures i >= start && From(sql, i + 1) == AfterBlock(From(sql, start))
  {
    i := start;
    while i < |sql| && !(sql[i] == '*' && i + 1 < |sql| && sql[i + 1] == '/')
      invariant start <= i <= |sql|
      invariant AfterBlock(From(sql, i)) == AfterBlock(From(sql, start))
    {
      assert sql[i..][1..] == From(sql, i + 1);
      i := i + 1;
    }
    assert i < |sql| ==> sql[i..][2..] == From(sql, i + 2);
    i := i + 1;
  }

  /* ----- statements made of plain text and quoted literals ----- */

  // Quote holds the body of a literal as it stands in the script.
  datatype Token = Plain(text: string) | Quote(body: string)

  // No quote, semicolon or comment opener.
  predicate CleanText(t: string) {
    && (forall i :: 0 <= i < |t| ==> t[i] != '\'' && t[i] != ';')
    && (forall i :: 0 <= i < |t| - 1 ==> Apart(t[i], t[i + 1]))
  }

  // The two characters do not open a comment.
  predicate Apart(a: char, b: char) {
    !(a == '-' && b == '-') && !(a == '/' && b == '*')
  }

  // Every quote inside is one of a pair.
  predicate Paired(body: string) {
    |body| > 0 ==>
      if body[0] == '\'' then |body| > 1 && body[1] == '\'' && Paired(body[2..]) else Paired(body[1..])
  }

  predicate CleanToken(t: Token) {
    match t
    case Plain(text) => text != "" && CleanText(text)
    case Quote(body) => Paired(body)
  }

  function Quoted(body: string): string {
    "'" + body + "'"
  }

  function TokenText(t: Token): string {
    match t
    case Plain(text) => text
    case Quote(body) => Quoted(body)
  }

  // The tokens may stand side by side.
  predicate Fits(a: Token, b: Token) {
    match (a, b)
    case (Plain(s), Plain(t)) => s != "" && t != "" ==> Apart(s[|s| - 1], t[0])
    case (Quote(_), Quote(_)) => false
    case _ => true
  }

  predicate Clean(tokens: seq<Token>) {
    && (forall i :: 0 <= i < |tokens| ==> CleanToken(tokens[i]))
    && (forall i :: 0 <= i < |tokens| - 1 ==> Fits(tokens[i], tokens[i + 1]))
  }

  function Text(tokens: seq<Token>): string {
    if |tokens| == 0 then "" else TokenText(tokens[0]) + Text(tokens[1..])
  }

  lemma CleanConcat(a: seq<Token>, b: seq<Token>)
    requires Clean(a) && Clean(b) && (|a| > 0 && |b| > 0 ==> Fits(a[|a| - 1], b[0]))
    ensures Clean(a + b)
  {
  }

  lemma Assoc<T>(a: seq<T>, b: seq<T>, c: seq<T>)
    ensures a + b + c == a + (b + c)
  {
  }

  lemma {:induction false} TextOf(a: seq<Token>, b: seq<Token>, whole: seq<Token>)
    requires whole == a + b
    ensures Text(whole) == Text(a) + Text(b)
    decreases |a|
  {
    if |a| == 0 {
      assert whole == b;
    } else {
      assert whole[0] == a[0] && whole[1..] == a[1..] + b;
      TextOf(a[1..], b, whole[1..]);
      Assoc(TokenText(a[0]), Text(a[1..]), Text(b));
    }
  }

  lemma TextConcat(a: seq<Token>, b: seq<Token>)
    ensures Text(a + b) == Text(a) + Text(b)
  {
    TextOf(a, b, a + b);
  }

  /* ----- scanning them ----- */

  lemma StartsConcat(sql: string, a: string, b: string)
    requires Starts(sql, a + b)
    ensures Starts(sql, a) && Starts(sql[|a|..], b) && sql[|a|..][|b|..] == sql[|a + b|..]
  {
    assert sql[..|a|] == (a + b)[..|a|] == a;
    assert sql[|a|..][..|b|] == (a + b)[|a|..] == b;
  }

  lemma StartsTail(sql: string, t: string, k: nat)
    requires Starts(sql, t) && k <= |t|
    ensures sql[..k] == t[..k] && Starts(sql[k..], t[k..]) && sql[k..][|t| - k..] == sql[|t|..]
  {
    assert t == t[..k] + t[k..];
    StartsConcat(sql, t[..k], t[k..]);
  }

  lemma Grow(cur: string, t: string, k: nat)
    requires k <= |t|
    ensures cur + t[..k] + t[k..] == cur + t
  {
    Assoc(cur, t[..k], t[k..]);
    assert t[..k] + t[k..] == t;
  }

  lemma NextPlain(sql: string, s: Scanner)
    requires !s.inSingle && |sql| > 0 && sql[0] != '\'' && sql[0] != ';'
    requires |sql| > 1 ==> Apart(sql[0], sql[1])
    ensures Next(sql, s) == Turn(sql[1..], s.(cur := s.cur + sql[..1]))
  {
  }

  lemma {:induction false} ScanPlain(t: string, sql: string, s: Scanner)
    requires !s.inSingle && CleanText(t) && Starts(sql, t)
    requires |t| > 0 && |sql| > |t| ==> Apart(t[|t| - 1], sql[|t|])
    ensures Scan(sql, s) == Scan(sql[|t|..], s.(cur := s.cur + t))
    decreases |t|
  {
    if |t| == 0 {
      assert sql[0..] == sql && s.cur + t == s.cur;
    } else {
      StartsTail(sql, t, 1);
      assert sql[0] == t[0] && (|t| > 1 ==> sql[1] == t[1]);
      NextPlain(sql, s);
      ScanPlain(t[1..], sql[1..], s.(cur := s.cur + t[..1]));
      Grow(s.cur, t, 1);
    }
  }

  // The literal ends at the first character behind `body`.
  predicate Closes(sql: string, n: nat) {
    n < |sql| && sql[n] == '\'' && (n + 1 < |sql| ==> sql[n + 1] != '\'')
  }

  lemma NextInside(sql: string, s: Scanner, k: nat)
    requires s.inSingle && k <= |sql|
    requires if k == 1 then sql[0] != '\'' else k == 2 && Two(sql, '\'', '\'')
    ensures Next(sql, s) == Turn(sql[k..], s.(cur := s.cur + sql[..k]))
  {
  }

  lemma NextClosing(sql: string, s: Scanner)
    requires s.inSingle && Closes(sql, 0)
    ensures Next(sql, s) == Turn(sql[1..], s.(cur := s.cur + sql[..1], inSingle := false))
  {
  }

  lemma {:induction false} ScanBody(body: string, sql: string, s: Scanner)
    requires s.inSingle && Paired(body) && Starts(sql, body) && Closes(sql, |body|)
    ensures Scan(sql, s) == Scan(sql[|body| + 1..], s.(cur := s.cur + body + [sql[|body|]], inSingle := false))
    decreases |body|
  {
    if |body| == 0 {
      NextClosing(sql, s);
      assert s.cur + body == s.cur && sql[..1] == [sql[0]];
    } else {
      var k := if body[0] == '\'' then 2 else 1;
      StartsTail(sql, body, k);
      assert sql[0] == body[0] && (k == 2 ==> sql[1] == body[1]);
      NextInside(sql, s, k);
      ScanBody(body[k..], sql[k..], s.(cur := s.cur + body[..k]));
      assert sql[k..][|body[k..]| + 1..] == sql[|body| + 1..];
      Grow(s.cur, body, k);
    }
  }

  lemma NextOpening(sql: string, s: Scanner)
    requires !s.inSingle && |sql| > 0 && sql[0] == '\''
    ensures Next(sql, s) == Turn(sql[1..], s.(cur := s.cur + sql[..1], inSingle := true))
  {
  }

  lemma InQuotes(body: string, sql: string)
    requires Starts(sql, Quoted(body))
    ensures |sql| >= |body| + 2 && sql[0] == '\'' && Starts(sql[1..], body) && sql[1..][|body|] == '\''
    ensures Quoted(body) == sql[..1] + body + sql[|body| + 1..|body| + 2]
  {
    var q := Quoted(body);
    assert q[1..|body| + 1] == body && q[|body| + 1] == '\'';
    assert sql[1..][..|body|] == sql[..|q|][1..|body| + 1];
    assert sql[0] == q[0] && sql[|body| + 1] == q[|body| + 1];
  }

  lemma ScanQuote(body: string, sql: string, s: Scanner)
    requires !s.inSingle && Paired(body) && Starts(sql, Quoted(body))
    requires |sql| > |body| + 2 ==> sql[|body| + 2] != '\''
    ensures Scan(sql, s) == Scan(sql[|body| + 2..], s.(cur := s.cur + Quoted(body)))
  {
    InQuotes(body, sql);
    NextOpening(sql, s);
    ScanBody(body, sql[1..], s.(cur := s.cur + sql[..1], inSingle := true));
    assert sql[1..][|body| + 1..] == sql[|body| + 2..];
    assert [sql[1..][|body|]] == sql[|body| + 1..|body| + 2];
    Assoc(s.cur, sql[..1], body);
    Assoc(s.cur, sql[..1] + body, sql[|body| + 1..|body| + 2]);
  }

  lemma {:induction false} ScanTokens(tokens: seq<Token>, sql: string, s: Scanner)
    requires !s.inSingle && Clean(tokens) && Starts(sql, Text(tokens))
    requires |sql| > |Text(tokens)| && sql[|Text(tokens)|] == ';'
    ensures Scan(sql, s) == Scan(sql[|Text(tokens)|..], s.(cur := s.cur + Text(tokens)))
    decreases |tokens|
  {
    if |tokens| == 0 {
      assert sql[0..] == sql && s.cur + "" == s.cur;
    } else {
      var first, more := TokenText(tokens[0]), Text(tokens[1..]);
      StartsConcat(sql, first, more);
      assert sql[|first|..][|more|] == ';';
      NextChar(tokens, sql[|first|..]);
      ScanToken(tokens[0], sql, s);
      ScanTokens(tokens[1..], sql[|first|..], s.(cur := s.cur + first));
      Assoc(s.cur, first, more);
    }
  }

  lemma ScanToken(t: Token, sql: string, s: Scanner)
    requires !s.inSingle && CleanToken(t) && Starts(sql, TokenText(t)) && |sql| > |TokenText(t)|
    requires t.Plain? ==> Apart(t.text[|t.text| - 1], sql[|t.text|])
    requires t.Quote? ==> sql[|TokenText(t)|] != '\''
    ensures Scan(sql, s) == Scan(sql[|TokenText(t)|..], s.(cur := s.cur + TokenText(t)))
  {
    match t {
      case Plain(text) => ScanPlain(text, sql, s);
      case Quote(body) =>
        assert |TokenText(t)| == |body| + 2;
        ScanQuote(body, sql, s);
    }
  }

  // What follows the first token does not run into it.
  lemma NextChar(tokens: seq<Token>, rest: string)
    requires Clean(tokens) && |tokens| > 0 && Starts(rest, Text(tokens[1..]))
    requires |rest| > |Text(tokens[1..])| && rest[|Text(tokens[1..])|] == ';'
    ensures var t := tokens[0];
            && CleanToken(t)
            && (t.Plain? ==> Apart(t.text[|t.text| - 1], rest[0]))
            && (t.Quote? ==> rest[0] != '\'')
  {
    if |tokens| > 1 {
      assert Fits(tokens[0], tokens[1]) && CleanToken(tokens[1]);
      var second := TokenText(tokens[1]);
      assert tokens[1..][0] == tokens[1];
      StartsConcat(rest, second, Text(tokens[1..][1..]));
      assert rest[0] == rest[..|second|][0] == second[0];
    }
  }

  /* ----- whole scripts ----- */

  // Remark is a block comment, of one line or many.
  datatype Line = Comment(note: string) | Remark(body: string) | Empty | Statement(tokens: seq<Token>)

  function LineText(line: Line): string {
    match line
    case Comment(note) => "--" + note
    case Remark(body) => "/*" + (body + "*/")
    case Empty => ""
    case Statement(tokens) => Text(tokens) + ";"
  }

  // lines.join('\n')
  function Join(lines: seq<Line>): string {
    if |lines| == 0 then ""
    else if |lines| == 1 then LineText(lines[0])
    else LineText(lines[0]) + "\n" + Join(lines[1..])
  }

  // Trimming leaves the statement alone.
  predicate Tight(text: string) {
    |text| > 0 && !IsSpace(text[0]) && !IsSpace(text[|text| - 1])
  }

  // Nothing in it closes the block comment.
  predicate Unclosed(body: string) {
    forall i :: 0 <= i < |body| - 1 ==> !(body[i] == '*' && body[i + 1] == '/')
  }

  predicate CleanLine(line: Line) {
    match line
    case Comment(note) => '\n' !in note
    case Remark(body) => Unclosed(body)
    case Empty => true
    case Statement(tokens) => Clean(tokens) && Tight(Text(tokens))
  }

  function StatementOf(line: Line): seq<string> {
    if line.Statement? then [Text(line.tokens)] else []
  }

  function Statements(lines: seq<Line>): seq<string> {
    if |lines| == 0 then [] else StatementOf(lines[0]) + Statements(lines[1..])
  }

  predicate CleanLines(lines: seq<Line>) {
    forall i :: 0 <= i < |lines| ==> CleanLine(lines[i])
  }

  predicate Blank(t: string) {
    forall c :: c in t ==> c == '\n'
  }

  lemma {:induction false} TrimBlank(before: string, text: string)
    requires Blank(before) && (text == "" || Tight(text))
    ensures Trim(before + text) == text
  {
    if |before| == 0 {
      assert before + text == text;
    } else {
      assert before[0] in before && forall c :: c in before[1..] ==> c in before;
      TrimBlank(before[1..], text);
      assert (before + text)[1..] == before[1..] + text;
    }
  }

  lemma {:induction false} AfterComment(note: string, sql: string)
    requires '\n' !in note && Starts(sql, note) && (|sql| > |note| ==> sql[|note|] == '\n')
    ensures AfterLine(sql) == if |sql| > |note| then sql[|note| + 1..] else ""
  {
    if |note| > 0 {
      StartsTail(sql, note, 1);
      assert sql[0] == sql[..1][0] == note[0];
      AfterComment(note[1..], sql[1..]);
    }
  }

  lemma NextComment(note: string, sql: string, s: Scanner)
    requires !s.inSingle && '\n' !in note && Starts(sql, "--" + note)
    requires |sql| > |note| + 2 ==> sql[|note| + 2] == '\n'
    ensures |sql| > 0 && Next(sql, s) == Turn(if |sql| > |note| + 2 then sql[|note| + 3..] else "", s)
  {
    var text := "--" + note;
    AfterComment(text, sql);
    assert sql[..|text|][0] == text[0] == '-' && sql[..|text|][1] == text[1] == '-';
  }

  lemma ScanComment(note: string, sql: string, s: Scanner)
    requires !s.inSingle && '\n' !in note && Starts(sql, "--" + note)
    requires |sql| > |note| + 2 ==> sql[|note| + 2] == '\n'
    ensures Scan(sql, s) == if |sql| > |note| + 2 then Scan(sql[|note| + 3..], s) else s
  {
    NextComment(note, sql, s);
  }

  lemma ScanNewline(sql: string, s: Scanner)
    requires !s.inSingle && Starts(sql, "\n")
    ensures Scan(sql, s) == Scan(sql[1..], s.(cur := s.cur + "\n"))
  {
    ScanPlain("\n", sql, s);
  }

  lemma ScanStatement(tokens: seq<Token>, sql: string, s: Scanner)
    requires !s.inSingle && Blank(s.cur) && Clean(tokens) && Tight(Text(tokens)) && Starts(sql, Text(tokens) + ";")
    ensures Scan(sql, s) == Scan(sql[|Text(tokens)| + 1..], Scanner(s.out + [Text(tokens)], "", false))
  {
    var text := Text(tokens);
    StartsConcat(sql, text, ";");
    assert sql[|text|..][0] == ';';
    ScanTokens(tokens, sql, s);
    TrimBlank(s.cur, text);
    StepPush(sql[|text|..], s.(cur := s.cur + text));
    assert sql[|text|..][1..] == sql[|text| + 1..];
  }

  lemma StepPush(sql: string, s: Scanner)
    requires !s.inSingle && |sql| > 0 && sql[0] == ';'
    ensures Scan(sql, s) == Scan(sql[1..], Push(s))
  {
  }

  lemma ScanNothing(s: Scanner)
    requires Blank(s.cur)
    ensures Push(Scan("", s)).out == s.out
  {
    TrimBlank(s.cur, "");
    assert s.cur + "" == s.cur;
  }

  // The lines, each with the newline behind it.
  function Ended(lines: seq<Line>): string {
    if |lines| == 0 then "" else LineText(lines[0]) + "\n" + Ended(lines[1..])
  }

  lemma NothingAhead<T>(s: seq<T>)
    ensures [] + s == s
  {
  }

  lemma HeadTail<T>(a: seq<T>, b: seq<T>)
    requires |a| > 0
    ensures a + b == [a[0]] + (a[1..] + b) && a == [a[0]] + a[1..]
  {
  }

  lemma JoinAhead(line: Line, a: seq<Line>, b: seq<Line>)
    requires |b| > 0 && Join(a + b) == Ended(a) + Join(b)
    ensures Join([line] + (a + b)) == Ended([line] + a) + Join(b)
  {
    var text := LineText(line) + "\n";
    assert ([line] + (a + b))[1..] == a + b && ([line] + a)[1..] == a;
    assert Ended([line] + a) == text + Ended(a);
    Assoc(text, Ended(a), Join(b));
  }

  lemma {:induction false} JoinConcat(a: seq<Line>, b: seq<Line>)
    requires |b| > 0
    ensures Join(a + b) == Ended(a) + Join(b)
  {
    if |a| == 0 {
      NothingAhead(b);
      NothingAhead(Join(b));
    } else {
      JoinConcat(a[1..], b);
      JoinAhead(a[0], a[1..], b);
      HeadTail(a, b);
    }
  }

  // Where a line stands in the script.
  lemma JoinStarts(lines: seq<Line>, line: Line, rest: seq<Line>)
    ensures Starts(Join(lines + ([line] + rest)), Ended(lines) + LineText(line))
  {
    var more := [line] + rest;
    JoinConcat(lines, more);
    assert more[0] == line && Starts(Join(more), LineText(line));
    assert (Ended(lines) + Join(more))[..|Ended(lines) + LineText(line)|] == Ended(lines) + Join(more)[..|LineText(line)|];
  }

  lemma {:induction false} StatementsConcat(a: seq<Line>, b: seq<Line>)
    ensures Statements(a + b) == Statements(a) + Statements(b)
  {
    if |a| == 0 {
      NothingAhead(b);
    } else {
      StatementsConcat(a[1..], b);
      assert (a + b)[1..] == a[1..] + b;
      Assoc(StatementOf(a[0]), Statements(a[1..]), Statements(b));
    }
  }

  lemma OneStatement(line: Line)
    ensures Statements([line]) == StatementOf(line)
  {
    assert Statements([line]) == StatementOf(line) + Statements([line][1..]);
  }

  lemma StatementsSnoc(lines: seq<Line>, last: Line)
    ensures Statements(lines + [last]) == Statements(lines) + StatementOf(last)
  {
    StatementsConcat(lines, [last]);
    OneStatement(last);
  }

  // Between two lines: outside quotes, with nothing but newlines pending.
  predicate Between(s: Scanner) {
    !s.inSingle && Blank(s.cur)
  }

  lemma ScanEmptyLine(sql: string, s: Scanner) returns (s': Scanner)
    requires Between(s) && Starts(sql, "\n")
    ensures Between(s') && s'.out == s.out && Scan(sql, s) == Scan(sql[1..], s')
  {
    ScanNewline(sql, s);
    s' := s.(cur := s.cur + "\n");
  }

  lemma ScanStatementLine(tokens: seq<Token>, sql: string, s: Scanner) returns (s': Scanner)
    requires Between(s) && Clean(tokens) && Tight(Text(tokens)) && Starts(sql, Text(tokens) + ";" + "\n")
    ensures Between(s') && s'.out == s.out + [Text(tokens)]
    ensures Scan(sql, s) == Scan(sql[|Text(tokens)| + 2..], s')
  {
    var n := |Text(tokens)| + 1;
    StartsConcat(sql, Text(tokens) + ";", "\n");
    ScanStatement(tokens, sql, s);
    s' := ScanEmptyLine(sql[n..], Scanner(s.out + [Text(tokens)], "", false));
    assert sql[n..][1..] == sql[n + 1..];
  }

  lemma ScanCommentLine(note: string, sql: string, s: Scanner)
    requires Between(s) && '\n' !in note && Starts(sql, "--" + note + "\n")
    ensures Scan(sql, s) == Scan(sql[|note| + 3..], s)
  {
    StartsConcat(sql, "--" + note, "\n");
    assert sql[|note| + 2..][0] == '\n';
    ScanComment(note, sql, s);
  }

  lemma {:induction false} AfterRemark(body: string, sql: string)
    requires Unclosed(body) && Starts(sql, body + "*/")
    ensures AfterBlock(sql) == sql[|body| + 2..]
    decreases |body|
  {
    var text := body + "*/";
    assert forall i :: 0 <= i < |text| ==> sql[i] == sql[..|text|][i] == text[i];
    if |body| > 0 {
      StartsTail(sql, text, 1);
      assert text[1..] == body[1..] + "*/";
      AfterRemark(body[1..], sql[1..]);
    }
  }

  lemma ScanRemark(body: string, sql: string, s: Scanner)
    requires !s.inSingle && Unclosed(body) && Starts(sql, "/*" + (body + "*/"))
    ensures Scan(sql, s) == Scan(sql[|body| + 4..], s)
  {
    StartsConcat(sql, "/*", body + "*/");
    AfterRemark(body, sql[2..]);
    assert sql[0] == sql[..2][0] && sql[1] == sql[..2][1];
    assert sql[2..][|body| + 2..] == sql[|body| + 4..];
    NextRemark(sql, s);
  }

  lemma NextRemark(sql: string, s: Scanner)
    requires !s.inSingle && Two(sql, '/', '*')
    ensures Next(sql, s) == Turn(AfterBlock(sql[2..]), s)
  {
  }

  lemma ScanRemarkLine(body: string, sql: string, s: Scanner) returns (s': Scanner)
    requires Between(s) && Unclosed(body) && Starts(sql, "/*" + (body + "*/") + "\n")
    ensures Between(s') && s'.out == s.out && Scan(sql, s) == Scan(sql[|body| + 5..], s')
  {
    var n := |body| + 4;
    StartsConcat(sql, "/*" + (body + "*/"), "\n");
    ScanRemark(body, sql, s);
    s' := ScanEmptyLine(sql[n..], s);
    assert sql[n..][1..] == sql[n + 1..];
  }

  lemma ScanLine(line: Line, sql: string, s: Scanner) returns (s': Scanner)
    requires Between(s) && CleanLine(line) && Starts(sql, LineText(line) + "\n")
    ensures Between(s') && s'.out == s.out + StatementOf(line)
    ensures Scan(sql, s) == Scan(sql[|LineText(line)| + 1..], s')
  {
    match line {
      case Comment(note) =>
        ScanCommentLine(note, sql, s);
        s' := s;
      case Remark(body) =>
        s' := ScanRemarkLine(body, sql, s);
      case Empty =>
        assert "" + "\n" == "\n";
        s' := ScanEmptyLine(sql, s);
      case Statement(tokens) =>
        s' := ScanStatementLine(tokens, sql, s);
    }
  }

  lemma {:induction false} ScanEnded(lines: seq<Line>, sql: string, s: Scanner) returns (s': Scanner)
    requires Between(s) && CleanLines(lines) && Starts(sql, Ended(lines))
    ensures Between(s') && s'.out == s.out + Statements(lines)
    ensures Scan(sql, s) == Scan(sql[|Ended(lines)|..], s')
  {
    if |lines| == 0 {
      s' := s;
      assert sql[0..] == sql && s.out + [] == s.out;
    } else {
      assert CleanLine(lines[0]);
      StartsConcat(sql, LineText(lines[0]) + "\n", Ended(lines[1..]));
      var next := ScanLine(lines[0], sql, s);
      s' := ScanEnded(lines[1..], sql[|LineText(lines[0])| + 1..], next);
      Assoc(s.out, StatementOf(lines[0]), Statements(lines[1..]));
    }
  }

  // The last line has no newline behind it.
  lemma ScanLast(line: Line, s: Scanner)
    requires Between(s) && CleanLine(line)
    ensures Push(Scan(LineText(line), s)).out == s.out + StatementOf(line)
  {
    var sql := LineText(line);
    match line
    case Comment(note) =>
      ScanComment(note, sql, s);
      ScanNothing(s);
    case Remark(body) =>
      ScanRemark(body, sql, s);
      ScanNothing(s);
    case Empty =>
      ScanNothing(s);
    case Statement(tokens) =>
      ScanStatement(tokens, sql, s);
      assert sql[|Text(tokens)| + 1..] == "";
      ScanNothing(Scanner(s.out + [Text(tokens)], "", false));
  }

  lemma CleanParts(init: seq<Line>, last: Line)
    requires CleanLines(init + [last])
    ensures CleanLines(init) && CleanLine(last)
  {
    assert (init + [last])[|init|] == last;
    assert forall i :: 0 <= i < |init| ==> (init + [last])[i] == init[i];
  }

  lemma ScanAll(init: seq<Line>, last: Line)
    requires CleanLines(init + [last])
    ensures Split(Join(init + [last])) == Statements(init + [last])
  {
    var sql, head := Join(init + [last]), Ended(init);
    JoinConcat(init, [last]);
    CleanParts(init, last);
    assert sql[..|head|] == head && sql[|head|..] == LineText(last);
    var s := ScanEnded(init, sql, START);
    ScanLast(last, s);
    assert [] + Statements(init) == Statements(init);
    StatementsSnoc(init, last);
  }

  /** The splitter inverts the script writer: for any line comments, block comments,
      blank lines and clean statements, whatever text their literals hold, it returns
      exactly the statements, in order. */
  lemma SplitInvertsJoin(lines: seq<Line>)
    requires CleanLines(lines)
    ensures Split(Join(lines)) == Statements(lines)
  {
    if |lines| == 0 {
      ScanNothing(START);
    } else {
      assert lines[..|lines| - 1] + [lines[|lines| - 1]] == lines;
      ScanAll(lines[..|lines| - 1], lines[|lines| - 1]);
    }
  }

  /* ----- which statements survive ----- */

  // Read from the given state, the text meets no semicolon and no comment outside
  // quotes, and ends outside quotes.
  predicate Smooth(t: string, quoted: bool)
    decreases |t|
  {
    if |t| == 0 then !quoted
    else if quoted then
      if Two(t, '\'', '\'') then Smooth(t[2..], true) else Smooth(t[1..], t[0] != '\'')
    else if t[0] == '\'' then Smooth(t[1..], true)
    else t[0] != ';' && !Two(t, '-', '-') && !Two(t, '/', '*') && Smooth(t[1..], false)
  }

  // The literal that starts the text, up to its closing quote.
  lemma {:induction false} SmoothBody(t: string) returns (n: nat)
    requires Smooth(t, true)
    ensures Closes(t, n) && Paired(t[..n]) && Smooth(t[n + 1..], false)
    decreases |t|
  {
    if Two(t, '\'', '\'') {
      var m := SmoothBody(t[2..]);
      n := m + 2;
      assert t[..n][2..] == t[2..][..m] && t[n + 1..] == t[2..][m + 1..];
    } else if t[0] == '\'' {
      n := 0;
    } else {
      var m := SmoothBody(t[1..]);
      n := m + 1;
      assert t[..n][1..] == t[1..][..m] && t[n + 1..] == t[1..][m + 1..];
    }
  }

  lemma QuoteSplits(t: string, n: nat)
    requires |t| > 0 && t[0] == '\'' && Closes(t[1..], n)
    ensures t == Quoted(t[1..n + 1]) + t[n + 2..] && (|t| > n + 2 ==> t[n + 2] != '\'')
    ensures t[1..][..n] == t[1..n + 1] && t[1..][n + 1..] == t[n + 2..]
  {
    assert t[1..][n] == t[n + 1] == '\'';
  }

  // The tokens of a text, as far as the first one and the text are concerned.
  ghost predicate Tokens(t: string, tokens: seq<Token>) {
    && Clean(tokens) && Text(tokens) == t
    && (|t| > 0 ==> |tokens| > 0 && if t[0] == '\'' then tokens[0].Quote? else tokens[0] == Plain(t[..1]))
  }

  lemma {:induction false} Tokenize(t: string) returns (tokens: seq<Token>)
    requires Smooth(t, false)
    ensures Tokens(t, tokens)
    decreases |t|
  {
    if |t| == 0 {
      tokens := [];
    } else if t[0] == '\'' {
      var n := SmoothBody(t[1..]);
      QuoteSplits(t, n);
      var more := Tokenize(t[n + 2..]);
      QuoteAhead(t[1..n + 1], t[n + 2..], more);
      tokens := [Quote(t[1..n + 1])] + more;
    } else {
      var more := Tokenize(t[1..]);
      CharAhead(t, more);
      tokens := [Plain(t[..1])] + more;
      assert t == t[..1] + t[1..];
    }
  }

  lemma QuoteAhead(body: string, rest: string, more: seq<Token>)
    requires Paired(body) && Tokens(rest, more) && (|rest| > 0 ==> rest[0] != '\'')
    ensures Clean([Quote(body)] + more) && Text([Quote(body)] + more) == Quoted(body) + rest
  {
    NothingLeft(more);
    CleanConcat([Quote(body)], more);
    assert ([Quote(body)] + more)[1..] == more;
  }

  // Tokens of no text are no tokens.
  lemma NothingLeft(tokens: seq<Token>)
    requires Clean(tokens)
    ensures Text(tokens) == "" ==> tokens == []
  {
    if |tokens| > 0 {
      assert CleanToken(tokens[0]) && |TokenText(tokens[0])| > 0;
    }
  }

  lemma CharAhead(t: string, more: seq<Token>)
    requires |t| > 0 && t[0] != '\'' && t[0] != ';' && !Two(t, '-', '-') && !Two(t, '/', '*')
    requires Tokens(t[1..], more)
    ensures Clean([Plain(t[..1])] + more) && Text([Plain(t[..1])] + more) == t[..1] + t[1..]
  {
    NothingLeft(more);
    assert CleanText(t[..1]);
    assert |t| > 1 ==> t[1..][0] == t[1] && t[1..][..1] == [t[1]];
    CleanConcat([Plain(t[..1])], more);
    assert ([Plain(t[..1])] + more)[1..] == more;
  }

  /* ----- what the splitter loses ----- */

  function Total(out: seq<string>): nat {
    if |out| == 0 then 0 else Total(out[..|out| - 1]) + |out[|out| - 1]|
  }

  function Size(s: Scanner): nat {
    Total(s.out) + |s.cur|
  }

  lemma {:induction false} TrimStartShorter(s: string)
    ensures |TrimStart(s)| <= |s|
  {
    if |s| > 0 { TrimStartShorter(s[1..]); }
  }

  lemma {:induction false} TrimEndShorter(s: string)
    ensures |TrimEnd(s)| <= |s|
  {
    if |s| > 0 { TrimEndShorter(s[..|s| - 1]); }
  }

  lemma TrimShorter(s: string)
    ensures |Trim(s)| <= |s|
  {
    TrimStartShorter(s);
    TrimEndShorter(TrimStart(s));
  }

  lemma PushSize(s: Scanner)
    ensures Size(Push(s)) <= Size(s)
  {
    TrimShorter(s.cur);
    assert (s.out + [Trim(s.cur)])[..|s.out|] == s.out;
  }

  lemma CommentLoses(sql: string)
    ensures Two(sql, '-', '-') ==> |AfterLine(sql)| + 2 <= |sql|
    ensures Two(sql, '/', '*') ==> |AfterBlock(sql[2..])| + 2 <= |sql|
  {
    if Two(sql, '-', '-') {
      assert AfterLine(sql) == AfterLine(sql[1..]) && |AfterLine(sql[1..])| < |sql[1..]|;
    }
  }

  // A turn that pushes nothing adds to the statement at most what it takes.
  lemma NextTakes(sql: string, s: Scanner)
    requires |sql| > 0
    ensures var t := Next(sql, s);
            || (t.state == Push(s) && |t.rest| < |sql|)
            || (t.state.out == s.out && |t.state.cur| + |t.rest| <= |s.cur| + |sql|)
  {
  }

  // Characters are only lost; two of them by a comment.
  lemma NextSize(sql: string, s: Scanner)
    requires |sql| > 0
    ensures Size(Next(sql, s).state) + |Next(sql, s).rest| <= Size(s) + |sql|
    ensures s.out <= Next(sql, s).state.out
  {
    NextTakes(sql, s);
    PushSize(s);
  }

  lemma NextLoses(sql: string, s: Scanner)
    requires !s.inSingle && (Two(sql, '-', '-') || Two(sql, '/', '*'))
    ensures Next(sql, s).state == s && |Next(sql, s).rest| + 2 <= |sql|
  {
    CommentLoses(sql);
  }

  lemma {:induction false} ScanSize(sql: string, s: Scanner)
    ensures Size(Scan(sql, s)) <= Size(s) + |sql| && s.out <= Scan(sql, s).out
    decreases |sql|
  {
    if |sql| > 0 {
      NextSize(sql, s);
      ScanSize(Next(sql, s).rest, Next(sql, s).state);
    }
  }

  lemma ResultSize(sql: string, s: Scanner)
    ensures Total(Push(Scan(sql, s)).out) <= Size(s) + |sql|
    ensures s.out <= Push(Scan(sql, s)).out
  {
    ScanSize(sql, s);
    PushSize(Scan(sql, s));
  }

  /* ----- what the splitter returns never starts with a semicolon ----- */

  lemma {:induction false} TrimStartAppend(a: string, b: string)
    ensures TrimStart(a + b) == if TrimStart(a) == "" then TrimStart(b) else TrimStart(a) + b
  {
    if |a| == 0 {
      assert a + b == b;
    } else {
      assert (a + b)[1..] == a[1..] + b;
      TrimStartAppend(a[1..], b);
    }
  }

  lemma {:induction false} TrimStartHead(s: string)
    ensures TrimStart(s) != "" ==> !IsSpace(TrimStart(s)[0])
  {
    if |s| > 0 { TrimStartHead(s[1..]); }
  }

  // Trimming the end keeps what ends in solid text.
  lemma {:induction false} TrimEndKeeps(s: string, y: string)
    requires Starts(s, y) && |y| > 0 && !IsSpace(y[|y| - 1])
    ensures Starts(TrimEnd(s), y)
  {
    if |s| > |y| {
      assert s[..|s| - 1][..|y|] == y;
      TrimEndKeeps(s[..|s| - 1], y);
    } else {
      assert s == y;
    }
  }

  predicate NoSemicolonAhead(s: string) {
    |s| > 0 ==> s[0] != ';'
  }

  // The pending statement does not start with a semicolon, and none before did.
  predicate Headed(s: Scanner) {
    && (TrimStart(s.cur) == "" ==> !s.inSingle) && NoSemicolonAhead(TrimStart(s.cur))
    && (forall i :: 0 <= i < |s.out| ==> NoSemicolonAhead(s.out[i]))
  }

  lemma TrimHead(s: string)
    requires NoSemicolonAhead(TrimStart(s))
    ensures NoSemicolonAhead(Trim(s))
  {
    var x := TrimStart(s);
    TrimStartHead(s);
    if |x| > 0 {
      TrimEndKeeps(x, x[..1]);
      assert TrimEnd(x)[0] == TrimEnd(x)[..1][0];
    }
  }

  lemma AppendHeaded(cur: string, part: string)
    requires NoSemicolonAhead(TrimStart(cur)) && |part| > 0
    requires TrimStart(cur) == "" ==> |part| == 1 && part[0] != ';'
    ensures NoSemicolonAhead(TrimStart(cur + part))
    ensures TrimStart(cur) != "" || !IsSpace(part[0]) ==> TrimStart(cur + part) != ""
  {
    TrimStartAppend(cur, part);
    if TrimStart(cur) == "" {
      assert part[1..] == "";
    }
  }

  lemma NextHeaded(sql: string, s: Scanner)
    requires |sql| > 0 && Headed(s)
    ensures Headed(Next(sql, s).state)
  {
    if s.inSingle && Two(sql, '\'', '\'') {
      AppendHeaded(s.cur, sql[..2]);
    } else if s.inSingle || sql[0] == '\'' || (!Two(sql, '-', '-') && !Two(sql, '/', '*') && sql[0] != ';') {
      AppendHeaded(s.cur, sql[..1]);
    } else if !Two(sql, '-', '-') && !Two(sql, '/', '*') {
      PushHeaded(s);
    }
  }

  lemma PushHeaded(s: Scanner)
    requires Headed(s)
    ensures forall i :: 0 <= i < |Push(s).out| ==> NoSemicolonAhead(Push(s).out[i])
    ensures !s.inSingle ==> Headed(Push(s))
  {
    TrimHead(s.cur);
  }

  lemma {:induction false} ScanHeaded(sql: string, s: Scanner)
    requires Headed(s)
    ensures Headed(Scan(sql, s))
    decreases |sql|
  {
    if |sql| > 0 {
      NextHeaded(sql, s);
      ScanHeaded(Next(sql, s).rest, Next(sql, s).state);
    }
  }

  lemma SplitHeaded(sql: string)
    ensures forall i :: 0 <= i < |Split(sql)| ==> NoSemicolonAhead(Split(sql)[i])
  {
    ScanHeaded(sql, START);
    PushHeaded(Scan(sql, START));
  }

  /* ----- the exact condition on one statement ----- */

  // Having read the first i characters without a loss, the splitter still returns
  // the whole text.
  ghost predicate OnTrack(t: string, i: nat, quoted: bool)
    requires i <= |t|
  {
    Push(Scan((t + ";")[i..], Scanner([], t[..i], quoted))).out == [t]
  }

  lemma OneTotal(t: string)
    ensures Total([t]) == |t| && Total([]) == 0
  {
    assert [t][..0] == [];
  }

  lemma CommentLeavesTrack(t: string, i: nat)
    requires i <= |t| && (Two((t + ";")[i..], '-', '-') || Two((t + ";")[i..], '/', '*'))
    ensures !OnTrack(t, i, false)
  {
    var sql, s := (t + ";")[i..], Scanner([], t[..i], false);
    OneTotal(t);
    NextLoses(sql, s);
    ResultSize(Next(sql, s).rest, s);
  }

  // Solid text is returned trimmed at its end, so it is not longer.
  lemma PushSolid(text: string)
    requires |text| > 0 && !IsSpace(text[0])
    ensures var s := Push(Scanner([], text, false)); |s.out| == 1 && |s.out[0]| <= |text|
  {
    TrimShorter(text);
    TrimEndKeeps(text, text[..1]);
    assert |Trim(text)| > 0;
  }

  lemma SemicolonLeavesTrack(t: string, i: nat)
    requires Tight(t) && 0 < i < |t| && t[i] == ';'
    ensures !OnTrack(t, i, false)
  {
    var sql, s := (t + ";")[i..], Scanner([], t[..i], false);
    assert sql[0] == ';';
    PushSolid(t[..i]);
    StepPush(sql, s);
    ResultSize(sql[1..], Push(s));
    assert Push(s).out[0] == Push(Scan(sql[1..], Push(s))).out[0];
  }

  lemma WholeStays(t: string)
    requires |t| > 0 && !IsSpace(t[0])
    ensures Trim(t + ";") == t + ";"
  {
    var x := t + ";";
    assert TrimStart(x) == x && x[|x| - 1] == ';';
  }

  lemma OpenQuoteLeavesTrack(t: string)
    requires Tight(t)
    ensures !OnTrack(t, |t|, true)
  {
    var s, kept := Scanner([], t, true), Scanner([], t + ";", true);
    assert (t + ";")[|t|..] == ";" && t[..|t|] == t;
    assert Next(";", s) == Turn("", kept);
    assert Scan(";", s) == Scan("", kept) == kept;
    WholeStays(t);
    assert Push(kept).out == [t + ";"];
    assert Push(kept).out[0] != t;
  }

  lemma SameNext(t: string, i: nat, a: char, b: char)
    requires i < |t| && b != ';'
    ensures Two((t + ";")[i..], a, b) <==> Two(t[i..], a, b)
    ensures (t + ";")[i..][0] == t[i..][0] == t[i]
  {
  }

  // The step from one character, or one doubled quote, to the next.
  predicate Step(u: string, quoted: bool, k: nat, quoted': bool) {
    if quoted && Two(u, '\'', '\'') then k == 2 && quoted'
    else k == 1 && |u| > 0 && quoted' == (if quoted then u[0] != '\'' else u[0] == '\'')
         && (quoted || (u[0] != ';' && !Two(u, '-', '-') && !Two(u, '/', '*')))
  }

  lemma SmoothStep(u: string, quoted: bool, k: nat, quoted': bool)
    requires Step(u, quoted, k, quoted') && k <= |u| && Smooth(u[k..], quoted')
    ensures Smooth(u, quoted)
  {
  }

  lemma NextStep(sql: string, s: Scanner, k: nat, quoted': bool)
    requires Step(sql, s.inSingle, k, quoted')
    ensures |sql| > 0 && Next(sql, s) == Turn(sql[k..], s.(cur := s.cur + sql[..k], inSingle := quoted'))
  {
  }

  lemma TrackStep(t: string, i: nat, quoted: bool, k: nat, quoted': bool)
    requires i + k <= |t| && OnTrack(t, i, quoted) && Step((t + ";")[i..], quoted, k, quoted')
    ensures OnTrack(t, i + k, quoted')
  {
    var sql := (t + ";")[i..];
    NextStep(sql, Scanner([], t[..i], quoted), k, quoted');
    assert sql[k..] == (t + ";")[i + k..];
    assert t[..i] + sql[..k] == t[..i + k];
  }

  // One turn on track: how far it goes, and in which state.
  lemma TrackTurn(t: string, i: nat, quoted: bool) returns (k: nat, quoted': bool)
    requires Tight(t) && t[0] != ';' && i < |t| && OnTrack(t, i, quoted)
    ensures i + k <= |t| && Step(t[i..], quoted, k, quoted') && Step((t + ";")[i..], quoted, k, quoted')
  {
    SameNext(t, i, '\'', '\'');
    if quoted && Two(t[i..], '\'', '\'') {
      k, quoted' := 2, true;
    } else {
      k, quoted' := 1, if quoted then t[i] != '\'' else t[i] == '\'';
      if !quoted { PlainTurn(t, i); }
    }
  }

  lemma PlainTurn(t: string, i: nat)
    requires Tight(t) && t[0] != ';' && i < |t| && OnTrack(t, i, false)
    ensures var sql := (t + ";")[i..]; !Two(sql, '-', '-') && !Two(sql, '/', '*')
    ensures t[i] != ';' && !Two(t[i..], '-', '-') && !Two(t[i..], '/', '*')
  {
    var sql := (t + ";")[i..];
    SameNext(t, i, '-', '-');
    SameNext(t, i, '/', '*');
    if Two(sql, '-', '-') || Two(sql, '/', '*') { CommentLeavesTrack(t, i); }
    if t[i] == ';' { SemicolonLeavesTrack(t, i); }
  }

  lemma StepBack(t: string, i: nat, quoted: bool, k: nat, quoted': bool)
    requires i + k <= |t| && Step(t[i..], quoted, k, quoted') && Smooth(t[i + k..], quoted')
    ensures Smooth(t[i..], quoted)
  {
    assert t[i..][k..] == t[i + k..];
    SmoothStep(t[i..], quoted, k, quoted');
  }

  lemma {:induction false} OnTrackIsSmooth(t: string, i: nat, quoted: bool)
    requires Tight(t) && t[0] != ';' && i <= |t| && OnTrack(t, i, quoted)
    ensures Smooth(t[i..], quoted)
    decreases |t| - i
  {
    if i == |t| {
      if quoted { OpenQuoteLeavesTrack(t); }
    } else {
      var k, quoted' := TrackTurn(t, i, quoted);
      TrackStep(t, i, quoted, k, quoted');
      OnTrackIsSmooth(t, i + k, quoted');
      StepBack(t, i, quoted, k, quoted');
    }
  }

  lemma CleanSplits(tokens: seq<Token>)
    requires Clean(tokens) && Tight(Text(tokens))
    ensures Split(Text(tokens) + ";") == [Text(tokens)]
  {
    ScanLast(Statement(tokens), START);
    assert [] + [Text(tokens)] == [Text(tokens)];
  }

  /** Exactly which statements survive. A statement ended by its semicolon comes
      back whole and alone if and only if it is made of plain text and closed
      literals: no semicolon and no comment opener outside quotes, and no quote
      left open. */
  lemma SplitKeepsExactly(t: string)
    requires Tight(t)
    ensures Split(t + ";") == [t] <==> exists tokens :: Clean(tokens) && Text(tokens) == t
  {
    if Split(t + ";") == [t] {
      SplitHeaded(t + ";");
      assert NoSemicolonAhead(Split(t + ";")[0]);
      assert (t + ";")[0..] == t + ";" && t[..0] == "" && t[0..] == t;
      OnTrackIsSmooth(t, 0, false);
      var tokens := Tokenize(t);
    }
    if tokens :| Clean(tokens) && Text(tokens) == t {
      CleanSplits(tokens);
    }
  }

  /* ----- a stray quote ----- */

  predicate QuoteFree(s: string) {
    forall i :: 0 <= i < |s| ==> s[i] != '\''
  }

  lemma {:induction false} ScanUnclosed(text: string, sql: string, s: Scanner)
    requires s.inSingle && QuoteFree(text) && Starts(sql, text)
    ensures Scan(sql, s) == Scan(sql[|text|..], s.(cur := s.cur + text))
    decreases |text|
  {
    if |text| == 0 {
      assert s.cur + text == s.cur && sql[0..] == sql;
    } else {
      StartsTail(sql, text, 1);
      assert sql[0] == text[0];
      NextInside(sql, s, 1);
      ScanUnclosed(text[1..], sql[1..], s.(cur := s.cur + text[..1]));
      Grow(s.cur, text, 1);
    }
  }

  // The n-th statement starts with y, whether it is still pending or not.
  predicate Pinned(s: Scanner, n: nat, y: string) {
    || (|s.out| == n && Starts(TrimStart(s.cur), y))
    || (|s.out| > n && Starts(s.out[n], y))
  }

  lemma PinnedAppend(cur: string, part: string, y: string)
    requires Starts(TrimStart(cur), y) && |y| > 0
    ensures Starts(TrimStart(cur + part), y)
  {
    TrimStartAppend(cur, part);
    assert (TrimStart(cur) + part)[..|y|] == TrimStart(cur)[..|y|];
  }

  lemma PinnedPush(s: Scanner, n: nat, y: string)
    requires Pinned(s, n, y) && |y| > 0 && !IsSpace(y[|y| - 1])
    ensures |Push(s).out| > n && Starts(Push(s).out[n], y)
  {
    if |s.out| == n {
      TrimEndKeeps(TrimStart(s.cur), y);
      assert |Trim(s.cur)| > 0;
    }
  }

  lemma PinnedNext(sql: string, s: Scanner, n: nat, y: string)
    requires |sql| > 0 && Pinned(s, n, y) && |y| > 0 && !IsSpace(y[|y| - 1])
    ensures Pinned(Next(sql, s).state, n, y)
  {
    PinnedPush(s, n, y);
    if |s.out| == n {
      PinnedAppend(s.cur, sql[..1], y);
      if Two(sql, '\'', '\'') { PinnedAppend(s.cur, sql[..2], y); }
    }
  }

  lemma {:induction false} PinnedScan(sql: string, s: Scanner, n: nat, y: string)
    requires Pinned(s, n, y) && |y| > 0 && !IsSpace(y[|y| - 1])
    ensures var out := Push(Scan(sql, s)).out; |out| > n && Starts(out[n], y)
    decreases |sql|
  {
    if |sql| == 0 {
      PinnedPush(s, n, y);
    } else {
      PinnedNext(sql, s, n, y);
      PinnedScan(Next(sql, s).rest, Next(sql, s).state, n, y);
    }
  }

  // A statement whose only quote has no partner.
  predicate OneStray(t: string, before: string, after: string) {
    t == before + "'" + after && CleanText(before) && QuoteFree(after)
  }

  lemma BlankGoes(before: string, text: string)
    requires Blank(before) && |text| > 0 && !IsSpace(text[0])
    ensures TrimStart(before + text) == text
  {
    TrimStartAppend(before, text);
    BlankIsNothing(before);
  }

  lemma {:induction false} BlankIsNothing(before: string)
    requires Blank(before)
    ensures TrimStart(before) == ""
  {
    if |before| > 0 {
      assert before[0] in before && forall c :: c in before[1..] ==> c in before;
      BlankIsNothing(before[1..]);
    }
  }

  // The quote opens at `n` and takes in everything up to the semicolon and it.
  lemma ScanOpened(sql: string, after: string, s: Scanner)
    requires !s.inSingle && |sql| > 0 && sql[0] == '\'' && QuoteFree(after) && Starts(sql[1..], after + ";")
    ensures Scan(sql, s) == Scan(sql[|after| + 2..], Scanner(s.out, s.cur + sql[..1] + (after + ";"), true))
  {
    var text := after + ";";
    NextOpening(sql, s);
    ScanUnclosed(text, sql[1..], s.(cur := s.cur + sql[..1], inSingle := true));
    assert sql[1..][|text|..] == sql[|after| + 2..];
  }

  lemma StrayPlaces(t: string, before: string, after: string, sql: string)
    requires OneStray(t, before, after) && Starts(sql, t + ";")
    ensures var n := |before|;
            && Starts(sql, before) && n < |sql| && sql[n] == '\'' && Starts(sql[n..][1..], after + ";")
            && sql[n..][|after| + 2..] == sql[|t| + 1..]
  {
    var n := |before|;
    var whole := t + ";";
    assert whole[..n] == before && whole[n] == '\'' && whole[n + 1..] == after + ";";
    assert sql[..|whole|][n..][1..] == whole[n + 1..];
    assert sql[n..][1..][..|after| + 1] == sql[..|whole|][n + 1..];
  }

  // From between two lines, the statement is pending with its semicolon inside.
  lemma ScanStray(t: string, before: string, after: string, sql: string, s: Scanner)
    requires Between(s) && OneStray(t, before, after) && Starts(sql, t + ";")
    ensures Scan(sql, s) == Scan(sql[|t| + 1..], Scanner(s.out, s.cur + (t + ";"), true))
  {
    var n := |before|;
    StrayPlaces(t, before, after, sql);
    ScanPlain(before, sql, s);
    ScanOpened(sql[n..], after, s.(cur := s.cur + before));
    StrayText(s.cur, t, before, after);
    assert sql[n..][..1] == "'";
  }

  lemma StrayText(cur: string, t: string, before: string, after: string)
    requires t == before + "'" + after
    ensures cur + before + "'" + (after + ";") == cur + (t + ";")
  {
    Assoc(cur + before, "'", after + ";");
    Assoc(cur, before, "'" + (after + ";"));
    Assoc("'", after, ";");
    assert t + ";" == before + ("'" + (after + ";"));
  }

  /** A stray quote swallows what follows. In any script, after any clean lines, a
      statement whose only quote has no partner does not come back: what stands in
      its place goes on behind its semicolon, whatever the rest of the script is. */
  lemma StrayQuoteSwallows(lines: seq<Line>, t: string, before: string, after: string, sql: string)
    requires CleanLines(lines) && OneStray(t, before, after) && Tight(t) && Starts(sql, Ended(lines) + (t + ";"))
    ensures var n := |Statements(lines)|; |Split(sql)| > n && Starts(Split(sql)[n], t + ";")
  {
    StartsConcat(sql, Ended(lines), t + ";");
    var s := ScanEnded(lines, sql, START);
    var tail := sql[|Ended(lines)|..];
    ScanStray(t, before, after, tail, s);
    BlankGoes(s.cur, t + ";");
    PinnedScan(tail[|t| + 1..], Scanner(s.out, s.cur + (t + ";"), true), |Statements(lines)|, t + ";");
  }
}
