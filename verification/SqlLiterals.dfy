// The literals of a SQL backup, and the engine reading them back.
module SqlLiterals {
  import opened Wrappers
  import opened SqlScript

  datatype Engine = Postgres | Mysql | Sqlite

  newtype Byte = b: int | 0 <= b < 256

  // A driver value. Number holds what String(n) prints; Str is a string or the
  // JSON text of an object.
  datatype Value =
    | Null
    | Number(text: string)
    | Boolean(b: bool)
    | Date(iso: string)
    | Bytes(bytes: seq<Byte>)
    | Str(text: string)

  /* ----- literals ----- */

  // replace(/c/g, 'cc')
  function Double(c: char, s: string): string {
    if |s| == 0 then ""
    else (if s[0] == c then [c, c] else [s[0]]) + Double(c, s[1..])
  }

  function Escape(e: Engine, text: string): string {
    var escaped := Double('\'', text);
    if e.Mysql? then Double('\\', escaped) else escaped
  }

  function HexDigit(n: int): (c: char)
    requires 0 <= n < 16
    ensures c != '\'' && c != '\\'
  {
    "0123456789abcdef"[n]
  }

  function Hex(bytes: seq<Byte>): string {
    if |bytes| == 0 then ""
    else [HexDigit(bytes[0] as int / 16), HexDigit(bytes[0] as int % 16)] + Hex(bytes[1..])
  }

  function LiteralTokens(e: Engine, v: Value): seq<Token> {
    match v
    case Null => [Plain("NULL")]
    case Number(text) => [Plain(text)]
    case Boolean(b) => [Plain(if e.Postgres? then (if b then "TRUE" else "FALSE") else if b then "1" else "0")]
    case Date(iso) => [Quote(iso)]
    case Bytes(bytes) => if e.Postgres? then [Quote("\\x" + Hex(bytes))] else [Plain("X"), Quote(Hex(bytes))]
    case Str(text) => [Quote(Escape(e, text))]
  }

  function SqlLiteral(e: Engine, v: Value): string {
    Text(LiteralTokens(e, v))
  }

  /* ----- reading a literal back as the engine does ----- */

  // MySQL reference manual, section "String Literals": the escape sequences.
  function Unescape(c: char): string {
    match c
    case '0' => "\0"
    case 'b' => "\U{08}"
    case 'n' => "\n"
    case 'r' => "\r"
    case 't' => "\t"
    case 'Z' => "\U{1A}"
    case '%' => "\\%"
    case '_' => "\\_"
    case _ => [c]
  }

  datatype Read = Read(value: string, rest: string) | Unterminated

  function Prepend(part: string, r: Read): Read {
    if r.Read? then r.(value := part + r.value) else r
  }

  // Behind the opening quote: doubled quotes as in section 5.3 of ISO/IEC 9075-2,
  // and backslash escapes under MySQL.
  function ReadString(e: Engine, s: string): Read
    decreases |s|
  {
    if |s| == 0 then Unterminated
    else if e.Mysql? && s[0] == '\\' && |s| > 1 then Prepend(Unescape(s[1]), ReadString(e, s[2..]))
    else if s[0] != '\'' then Prepend(s[..1], ReadString(e, s[1..]))
    else if |s| > 1 && s[1] == '\'' then Prepend(s[..1], ReadString(e, s[2..]))
    else Read("", s[1..])
  }

  function EscapeChar(e: Engine, c: char): string {
    if c == '\'' || (e.Mysql? && c == '\\') then [c, c] else [c]
  }

  lemma {:induction false} DoubleConcat(c: char, a: string, b: string)
    ensures Double(c, a + b) == Double(c, a) + Double(c, b)
  {
    if |a| == 0 {
      assert a + b == b;
    } else {
      DoubleConcat(c, a[1..], b);
      assert (a + b)[1..] == a[1..] + b;
      Assoc(if a[0] == c then [c, c] else [a[0]], Double(c, a[1..]), Double(c, b));
    }
  }

  lemma EscapeByChar(e: Engine, text: string)
    requires |text| > 0
    ensures Escape(e, text) == EscapeChar(e, text[0]) + Escape(e, text[1..])
  {
    if e.Mysql? {
      var head := if text[0] == '\'' then ['\'', '\''] else [text[0]];
      DoubleConcat('\\', head, Double('\'', text[1..]));
      assert head[1..] == if text[0] == '\'' then ['\''] else [];
      assert Double('\\', head) == EscapeChar(e, text[0]);
    }
  }

  lemma ReadChar(e: Engine, c: char, s: string)
    requires Starts(s, EscapeChar(e, c)) && |s| > |EscapeChar(e, c)|
    ensures ReadString(e, s) == Prepend([c], ReadString(e, s[|EscapeChar(e, c)|..]))
  {
    var escaped := EscapeChar(e, c);
    assert s[0] == s[..|escaped|][0] == c && (|escaped| == 2 ==> s[1] == s[..|escaped|][1] == c);
    assert s[..1] == [c];
    if c == '\\' && e.Mysql? { assert Unescape(c) == [c]; }
  }

  // `body` spells `text`, character by character.
  predicate Spells(e: Engine, text: string, body: string)
    decreases |text|
  {
    if |text| == 0 then body == ""
    else Starts(body, EscapeChar(e, text[0])) && Spells(e, text[1..], body[|EscapeChar(e, text[0])|..])
  }

  lemma {:induction false} EscapeSpells(e: Engine, text: string)
    ensures Spells(e, text, Escape(e, text))
  {
    if |text| > 0 {
      EscapeByChar(e, text);
      EscapeSpells(e, text[1..]);
      var head, more := EscapeChar(e, text[0]), Escape(e, text[1..]);
      assert (head + more)[..|head|] == head && (head + more)[|head|..] == more;
    }
  }

  lemma {:induction false} SpellingReadsBack(e: Engine, text: string, body: string, s: string)
    requires Spells(e, text, body) && Starts(s, body) && Closes(s, |body|)
    ensures ReadString(e, s) == Read(text, s[|body| + 1..])
    decreases |text|
  {
    if |text| > 0 {
      var k := |EscapeChar(e, text[0])|;
      StartsTail(s, body, k);
      assert s[..k] == EscapeChar(e, text[0]);
      ReadChar(e, text[0], s);
      SpellingReadsBack(e, text[1..], body[k..], s[k..]);
      assert s[k..][|body[k..]| + 1..] == s[|body| + 1..];
      assert [text[0]] + text[1..] == text;
    }
  }

  /** A string literal reads back as its text and ends at its own closing quote,
      whatever the text holds: quotes, semicolons, comment marks, backslashes. */
  lemma LiteralReadsBack(e: Engine, text: string, s: string)
    requires Starts(s, Escape(e, text)) && Closes(s, |Escape(e, text)|)
    ensures ReadString(e, s) == Read(text, s[|Escape(e, text)| + 1..])
  {
    EscapeSpells(e, text);
    SpellingReadsBack(e, text, Escape(e, text), s);
  }

  lemma {:induction false} EscapePaired(e: Engine, text: string)
    ensures Paired(Escape(e, text))
  {
    if |text| > 0 {
      EscapePaired(e, text[1..]);
      EscapeByChar(e, text);
      var head, more := EscapeChar(e, text[0]), Escape(e, text[1..]);
      if |head| == 2 {
        assert (head + more)[2..] == more && (head + more)[1..] == [text[0]] + more;
        assert ([text[0]] + more)[1..] == more;
      } else {
        assert (head + more)[1..] == more;
      }
    }
  }

  // No quote and no backslash: the same under every rule.
  predicate Bare(s: string) {
    forall i :: 0 <= i < |s| ==> s[i] != '\'' && s[i] != '\\'
  }

  lemma {:induction false} BareIsItself(e: Engine, s: string)
    requires Bare(s)
    ensures Escape(e, s) == s
  {
    if |s| > 0 {
      EscapeByChar(e, s);
      BareIsItself(e, s[1..]);
    }
  }

  lemma {:induction false} HexIsBare(bytes: seq<Byte>)
    ensures Bare(Hex(bytes))
  {
    if |bytes| > 0 { HexIsBare(bytes[1..]); }
  }

  function HexValue(c: char): int {
    if '0' <= c <= '9' then c as int - '0' as int else c as int - 'a' as int + 10
  }

  function Unhex(s: string): seq<int> {
    if |s| < 2 then [] else [16 * HexValue(s[0]) + HexValue(s[1])] + Unhex(s[2..])
  }

  /** The hex digits of a binary literal give back its bytes. */
  lemma {:induction false} HexReadsBack(bytes: seq<Byte>)
    ensures |Unhex(Hex(bytes))| == |bytes|
    ensures forall i :: 0 <= i < |bytes| ==> Unhex(Hex(bytes))[i] == bytes[i] as int
  {
    if |bytes| > 0 {
      HexReadsBack(bytes[1..]);
      assert Hex(bytes)[2..] == Hex(bytes[1..]);
      DigitReadsBack(bytes[0] as int / 16);
      DigitReadsBack(bytes[0] as int % 16);
    }
  }

  lemma DigitReadsBack(n: int)
    requires 0 <= n < 16
    ensures HexValue(HexDigit(n)) == n
  {
  }

  /* ----- reading a row of values ----- */

  // A value in the statement: the bare word, and the string behind it if any.
  datatype Cell = Cell(word: string, text: Option<string>)

  datatype CellRead = CellRead(cell: Cell, rest: string) | Malformed

  predicate EndsWord(c: char) {
    c == ',' || c == ')' || c == '\''
  }

  function WordLength(s: string): (n: nat)
    ensures n <= |s|
  {
    if |s| == 0 || EndsWord(s[0]) then 0 else 1 + WordLength(s[1..])
  }

  function ReadCell(e: Engine, s: string): CellRead {
    var n := WordLength(s);
    if n < |s| && s[n] == '\'' then
      match ReadString(e, s[n + 1..])
      case Read(value, rest) => CellRead(Cell(s[..n], Some(value)), rest)
      case Unterminated => Malformed
    else CellRead(Cell(s[..n], None), s[n..])
  }

  // What the engine stores for a value.
  function CellOf(e: Engine, v: Value): Cell {
    match v
    case Null => Cell("NULL", None)
    case Number(text) => Cell(text, None)
    case Boolean(b) => Cell(if e.Postgres? then (if b then "TRUE" else "FALSE") else if b then "1" else "0", None)
    case Date(iso) => Cell("", Some(iso))
    case Bytes(bytes) => if e.Postgres? then Cell("", Some("\\x" + Hex(bytes))) else Cell("X", Some(Hex(bytes)))
    case Str(text) => Cell("", Some(text))
  }

  // Numbers and dates print without anything the reader or splitter acts on.
  predicate CleanValue(v: Value) {
    match v
    case Number(text) => text != "" && CleanText(text) && forall i :: 0 <= i < |text| ==> !EndsWord(text[i])
    case Date(iso) => Bare(iso)
    case _ => true
  }

  lemma {:induction false} WordLengthIs(s: string, n: nat)
    requires n <= |s| && (forall i :: 0 <= i < n ==> !EndsWord(s[i])) && (n < |s| ==> EndsWord(s[n]))
    ensures WordLength(s) == n
  {
    if n > 0 { WordLengthIs(s[1..], n - 1); }
  }

  lemma WordIs(word: string, s: string)
    requires Starts(s, word) && (forall i :: 0 <= i < |word| ==> !EndsWord(word[i]))
    requires |s| > |word| && EndsWord(s[|word|])
    ensures WordLength(s) == |word|
  {
    assert forall i :: 0 <= i < |word| ==> s[i] == s[..|word|][i];
    WordLengthIs(s, |word|);
  }

  // A word on its own.
  lemma ReadWord(e: Engine, word: string, s: string)
    requires Starts(s, word) && (forall i :: 0 <= i < |word| ==> !EndsWord(word[i]))
    requires |s| > |word| && EndsWord(s[|word|]) && s[|word|] != '\''
    ensures ReadCell(e, s) == CellRead(Cell(word, None), s[|word|..])
  {
    WordIs(word, s);
  }

  lemma QuotedReadsBack(e: Engine, body: string, text: string, s: string)
    requires Starts(s, Quoted(body)) && (|s| > |body| + 2 ==> s[|body| + 2] != '\'')
    requires body == Escape(e, text)
    ensures s[0] == '\'' && ReadString(e, s[1..]) == Read(text, s[|body| + 2..])
  {
    InQuotes(body, s);
    LiteralReadsBack(e, text, s[1..]);
    assert s[1..][|body| + 1..] == s[|body| + 2..];
  }

  lemma TextCell(e: Engine, n: nat, text: string, s: string, rest: string)
    requires n < |s| && WordLength(s) == n && s[n] == '\'' && ReadString(e, s[n + 1..]) == Read(text, rest)
    ensures ReadCell(e, s) == CellRead(Cell(s[..n], Some(text)), rest)
  {
  }

  // A word, possibly empty, with a string literal behind it.
  lemma ReadLiteral(e: Engine, word: string, body: string, text: string, s: string)
    requires Starts(s, word + Quoted(body)) && (forall i :: 0 <= i < |word| ==> !EndsWord(word[i]))
    requires |s| > |word + Quoted(body)| && s[|word + Quoted(body)|] != '\''
    requires body == Escape(e, text)
    ensures ReadCell(e, s) == CellRead(Cell(word, Some(text)), s[|word + Quoted(body)|..])
  {
    StartsConcat(s, word, Quoted(body));
    var tail := s[|word|..];
    assert |Quoted(body)| == |body| + 2;
    assert tail[|body| + 2..] == s[|word + Quoted(body)|..];
    QuotedReadsBack(e, body, text, tail);
    assert tail[1..] == s[|word| + 1..];
    WordIs(word, s);
    TextCell(e, |word|, text, s, tail[|body| + 2..]);
  }

  lemma LiteralText(e: Engine, v: Value)
    ensures v.Null? || v.Number? || v.Boolean? ==> SqlLiteral(e, v) == CellOf(e, v).word
    ensures v.Date? ==> SqlLiteral(e, v) == "" + Quoted(v.iso)
    ensures v.Str? ==> SqlLiteral(e, v) == "" + Quoted(Escape(e, v.text))
    ensures v.Bytes? ==> SqlLiteral(e, v) == if e.Postgres? then "" + Quoted("\\x" + Hex(v.bytes)) else "X" + Quoted(Hex(v.bytes))
  {
    var tokens := LiteralTokens(e, v);
    assert tokens[1..] == if |tokens| == 2 then [tokens[1]] else [];
    assert |tokens| == 2 ==> Text([tokens[1]]) == TokenText(tokens[1]);
  }

  /** Every printed value reads back as what it stands for, up to its own end. */
  lemma ValueReadsBack(e: Engine, v: Value, s: string)
    requires CleanValue(v) && Starts(s, SqlLiteral(e, v))
    requires |s| > |SqlLiteral(e, v)| && s[|SqlLiteral(e, v)|] in ",)"
    ensures ReadCell(e, s) == CellRead(CellOf(e, v), s[|SqlLiteral(e, v)|..])
  {
    LiteralText(e, v);
    match v
    case Date(iso) =>
      BareIsItself(e, iso);
      ReadLiteral(e, "", iso, iso, s);
    case Bytes(bytes) =>
      HexIsBare(bytes);
      if e.Postgres? {
        PostgresBackslash(e, bytes);
        ReadLiteral(e, "", "\\x" + Hex(bytes), "\\x" + Hex(bytes), s);
      } else {
        BareIsItself(e, Hex(bytes));
        ReadLiteral(e, "X", Hex(bytes), Hex(bytes), s);
      }
    case Str(text) =>
      ReadLiteral(e, "", Escape(e, text), text, s);
    case _ =>
      ReadWord(e, SqlLiteral(e, v), s);
  }

  // PostgreSQL takes a backslash in a string literal as it is.
  lemma PostgresBackslash(e: Engine, bytes: seq<Byte>)
    requires e.Postgres?
    ensures Escape(e, "\\x" + Hex(bytes)) == "\\x" + Hex(bytes)
  {
    var s := "\\x" + Hex(bytes);
    HexIsBare(bytes);
    assert s[1..] == "x" + Hex(bytes) && Bare(s[1..]);
    EscapeByChar(e, s);
    BareIsItself(e, s[1..]);
  }

  // The literals, each but the last with a comma behind it, and the closing
  // parenthesis that ends the statement.
  function RowText(literals: seq<string>): string
    decreases |literals|, 0
  {
    if |literals| == 0 then ")" else literals[0] + Separated(literals[1..])
  }

  function Separated(literals: seq<string>): string
    decreases |literals|, 1
  {
    if |literals| == 0 then ")" else ", " + RowText(literals)
  }

  function LiteralsOf(e: Engine, row: seq<Value>): (r: seq<string>)
    ensures |r| == |row| && forall i :: 0 <= i < |r| ==> r[i] == SqlLiteral(e, row[i])
  {
    if |row| == 0 then [] else [SqlLiteral(e, row[0])] + LiteralsOf(e, row[1..])
  }

  // The text reads as these cells, up to its end.
  predicate ReadsRow(e: Engine, s: string, cells: seq<Cell>)
    decreases |cells|, 0
  {
    if |cells| == 0 then s == ")"
    else var r := ReadCell(e, s); r.CellRead? && r.cell == cells[0] && ReadsRest(e, r.rest, cells[1..])
  }

  predicate ReadsRest(e: Engine, s: string, cells: seq<Cell>)
    decreases |cells|, 1
  {
    if |cells| == 0 then s == ")" else Starts(s, ", ") && ReadsRow(e, s[2..], cells)
  }

  function CellsOf(e: Engine, row: seq<Value>): (r: seq<Cell>)
    ensures |r| == |row| && forall i :: 0 <= i < |r| ==> r[i] == CellOf(e, row[i])
  {
    if |row| == 0 then [] else [CellOf(e, row[0])] + CellsOf(e, row[1..])
  }

  ghost predicate ReadsAs(e: Engine, literal: string, cell: Cell) {
    forall s :: Starts(s, literal) && |s| > |literal| && s[|literal|] in ",)" ==>
                  ReadCell(e, s) == CellRead(cell, s[|literal|..])
  }

  lemma SeparatedIs(literals: seq<string>)
    ensures var s := Separated(literals);
            && |s| > 0 && s[0] in ",)"
            && (|literals| > 0 ==> Starts(s, ", ") && s[2..] == RowText(literals))
  {
  }

  lemma FirstCell(e: Engine, literal: string, cell: Cell, rest: string)
    requires ReadsAs(e, literal, cell) && |rest| > 0 && rest[0] in ",)"
    ensures ReadCell(e, literal + rest) == CellRead(cell, rest)
  {
    assert (literal + rest)[..|literal|] == literal && (literal + rest)[|literal|..] == rest;
    assert Starts(literal + rest, literal);
  }

  ghost predicate AllRead(e: Engine, literals: seq<string>, cells: seq<Cell>) {
    && |literals| == |cells|
    && (|cells| > 0 ==> ReadsAs(e, literals[0], cells[0]) && AllRead(e, literals[1..], cells[1..]))
  }

  lemma {:induction false} CellsReadBack(e: Engine, literals: seq<string>, cells: seq<Cell>)
    requires AllRead(e, literals, cells)
    ensures ReadsRow(e, RowText(literals), cells)
  {
    if |cells| > 0 {
      SeparatedIs(literals[1..]);
      FirstCell(e, literals[0], cells[0], Separated(literals[1..]));
      CellsReadBack(e, literals[1..], cells[1..]);
    }
  }

  lemma {:induction false} RowIsRead(e: Engine, row: seq<Value>)
    requires forall i :: 0 <= i < |row| ==> CleanValue(row[i])
    ensures AllRead(e, LiteralsOf(e, row), CellsOf(e, row))
  {
    if |row| > 0 {
      ValueReadsAs(e, row[0]);
      RowIsRead(e, row[1..]);
    }
  }

  /** A row of printed values reads back value by value. */
  lemma RowReadsBack(e: Engine, row: seq<Value>)
    requires forall i :: 0 <= i < |row| ==> CleanValue(row[i])
    ensures ReadsRow(e, RowText(LiteralsOf(e, row)), CellsOf(e, row))
  {
    RowIsRead(e, row);
    CellsReadBack(e, LiteralsOf(e, row), CellsOf(e, row));
  }

  lemma ValueReadsAs(e: Engine, v: Value)
    requires CleanValue(v)
    ensures ReadsAs(e, SqlLiteral(e, v), CellOf(e, v))
  {
    var literal := SqlLiteral(e, v);
    forall s | Starts(s, literal) && |s| > |literal| && s[|literal|] in ",)"
      ensures ReadCell(e, s) == CellRead(CellOf(e, v), s[|literal|..])
    {
      ValueReadsBack(e, v, s);
    }
  }
}
