// The SQL backup script: comments, CREATE TABLE and INSERT statements. Restoring
// runs what the splitter makes of the script.
module SqlDump {
  import opened SqlScript
  import opened SqlLiterals

  // The default is empty where the column has none; one that is backed by a
  // sequence is not dumped.
  datatype Column = Column(name: string, dataType: string, nullable: bool, defaultValue: seq<Token>, fromSequence: bool)

  type Record = map<string, Value>

  // No schema is the empty string.
  datatype Table = Table(
    name: string,
    schema: string,
    columns: seq<Column>,
    primaryKey: seq<string>,
    rows: seq<Record>)

  function QuoteIdent(e: Engine, name: string): string {
    var q := if e.Mysql? then '`' else '"';
    [q] + Double(q, name) + [q]
  }

  function Ident(e: Engine, name: string): seq<Token> {
    [Plain(QuoteIdent(e, name))]
  }

  function Qualify(e: Engine, t: Table): seq<Token> {
    if t.schema != "" then Flat([Ident(e, t.schema), [Plain(".")], Ident(e, t.name)]) else Ident(e, t.name)
  }

  // parts.join(separator)
  function Joined(parts: seq<seq<Token>>, separator: string): seq<Token> {
    if |parts| == 0 then []
    else if |parts| == 1 then parts[0]
    else parts[0] + [Plain(separator)] + Joined(parts[1..], separator)
  }

  function Flat(parts: seq<seq<Token>>): seq<Token> {
    if |parts| == 0 then [] else parts[0] + Flat(parts[1..])
  }

  function Idents(e: Engine, names: seq<string>): (r: seq<seq<Token>>)
    ensures |r| == |names| && forall i :: 0 <= i < |r| ==> r[i] == Ident(e, names[i])
  {
    if |names| == 0 then [] else [Ident(e, names[0])] + Idents(e, names[1..])
  }

  function Names(columns: seq<Column>): (r: seq<string>)
    ensures |r| == |columns| && forall i :: 0 <= i < |r| ==> r[i] == columns[i].name
  {
    if |columns| == 0 then [] else [columns[0].name] + Names(columns[1..])
  }

  function Definition(e: Engine, c: Column): seq<Token> {
    Flat([[Plain("  ")], Ident(e, c.name), [Plain(" ")], [Plain(c.dataType)]]
         + (if c.nullable then [] else [[Plain(" NOT NULL")]])
         + (if c.defaultValue == [] || c.fromSequence then [] else [[Plain(" DEFAULT ")], c.defaultValue]))
  }

  function Definitions(e: Engine, columns: seq<Column>): (r: seq<seq<Token>>)
    ensures |r| == |columns| && forall i :: 0 <= i < |r| ==> r[i] == Definition(e, columns[i])
  {
    if |columns| == 0 then [] else [Definition(e, columns[0])] + Definitions(e, columns[1..])
  }

  function PrimaryKey(e: Engine, t: Table): seq<seq<Token>> {
    if t.primaryKey == [] then []
    else [Flat([[Plain("  PRIMARY KEY (")], Joined(Idents(e, t.primaryKey), ", "), [Plain(")")]])]
  }

  function CreateTable(e: Engine, t: Table): seq<Token> {
    Flat([[Plain("CREATE TABLE IF NOT EXISTS ")], Qualify(e, t), [Plain(" (\n")],
          Joined(Definitions(e, t.columns) + PrimaryKey(e, t), ",\n"), [Plain("\n)")]])
  }

  // A column the row does not have prints as NULL.
  function RowValues(t: Table, row: Record): (r: seq<Value>)
    ensures |r| == |t.columns|
    ensures forall i :: 0 <= i < |r| ==> r[i] == if t.columns[i].name in row then row[t.columns[i].name] else Null
  {
    seq(|t.columns|, i requires 0 <= i < |t.columns| => if t.columns[i].name in row then row[t.columns[i].name] else Null)
  }

  function Literals(e: Engine, values: seq<Value>): (r: seq<seq<Token>>)
    ensures |r| == |values| && forall i :: 0 <= i < |r| ==> r[i] == LiteralTokens(e, values[i])
  {
    if |values| == 0 then [] else [LiteralTokens(e, values[0])] + Literals(e, values[1..])
  }

  // INSERT INTO <table> (<columns>) VALUES (
  function InsertHead(e: Engine, t: Table): seq<seq<Token>> {
    [[Plain("INSERT INTO ")], Qualify(e, t), [Plain(" (")], Joined(Idents(e, Names(t.columns)), ", "), [Plain(") VALUES (")]]
  }

  function Insert(e: Engine, t: Table, row: Record): seq<Token> {
    Flat(InsertHead(e, t) + [Joined(Literals(e, RowValues(t, row)), ", "), [Plain(")")]])
  }

  /* ----- the script ----- */

  function EngineName(e: Engine): string {
    match e
    case Postgres => "postgres"
    case Mysql => "mysql"
    case Sqlite => "sqlite"
  }

  function Header(e: Engine, database: string): seq<Line> {
    [Comment(" Syncle SQL backup"), Comment(" engine: " + EngineName(e)), Comment(" database: " + database), Empty]
  }

  function InsertLines(insert: Record -> Line, rows: seq<Record>): seq<Line> {
    if |rows| == 0 then [] else InsertLines(insert, rows[..|rows| - 1]) + [insert(rows[|rows| - 1])]
  }

  function Block(create: Line, insert: Record -> Line, rows: seq<Record>): seq<Line> {
    [create, Empty] + InsertLines(insert, rows) + (if rows == [] then [] else [Empty])
  }

  function Inserter(e: Engine, t: Table): Record -> Line {
    row => Statement(Insert(e, t, row))
  }

  function TableLines(e: Engine, t: Table): seq<Line> {
    Block(Statement(CreateTable(e, t)), Inserter(e, t), t.rows)
  }

  function TablesLines(e: Engine, tables: seq<Table>): seq<Line> {
    if |tables| == 0 then [] else TablesLines(e, tables[..|tables| - 1]) + TableLines(e, tables[|tables| - 1])
  }

  method Backup(e: Engine, database: string, tables: seq<Table>) returns (script: string)
    ensures script == Join(Header(e, database) + TablesLines(e, tables))
  {
    var out := PushTables(e, tables, Header(e, database));
    script := Join(out);
  }

  method PushTables(e: Engine, tables: seq<Table>, before: seq<Line>) returns (out: seq<Line>)
    ensures out == before + TablesLines(e, tables)
  {
    out := before;
    for i := 0 to |tables|
      invariant out == before + TablesLines(e, tables[..i])
    {
      assert tables[..i + 1][..i] == tables[..i];
      out := PushTable(Statement(CreateTable(e, tables[i])), Inserter(e, tables[i]), tables[i].rows, out);
      Assoc(before, TablesLines(e, tables[..i]), TableLines(e, tables[i]));
    }
    assert tables[..|tables|] == tables;
  }

  method PushTable(create: Line, insert: Record -> Line, rows: seq<Record>, before: seq<Line>) returns (out: seq<Line>)
    ensures out == before + Block(create, insert, rows)
  {
    out := before + [create, Empty];
    var wrote := false;
    ghost var start := out;
    for j := 0 to |rows|
      invariant wrote <==> j > 0
      invariant out == start + InsertLines(insert, rows[..j])
    {
      assert rows[..j + 1][..j] == rows[..j];
      out := out + [insert(rows[j])];
      wrote := true;
    }
    assert rows[..|rows|] == rows;
    if wrote { out := out + [Empty]; }
  }

  /* ----- the statements are clean ----- */

  // Names, types and defaults without a stray quote, `;` or comment opener.
  predicate CleanColumn(c: Column) {
    CleanText(c.name) && c.dataType != "" && CleanText(c.dataType) && Clean(c.defaultValue)
  }

  predicate CleanTable(t: Table) {
    && CleanText(t.name) && CleanText(t.schema)
    && (forall i :: 0 <= i < |t.columns| ==> CleanColumn(t.columns[i]))
    && (forall i :: 0 <= i < |t.primaryKey| ==> CleanText(t.primaryKey[i]))
    && (forall r, c :: r in t.rows && c in r ==> CleanValue(r[c]))
  }

  // Stands beside anything.
  predicate Neutral(t: Token) {
    && t.Plain? && CleanToken(t)
    && t.text[0] != '-' && t.text[0] != '*' && t.text[|t.text| - 1] != '-' && t.text[|t.text| - 1] != '/'
  }

  predicate NeutralPart(part: seq<Token>) {
    |part| == 1 && Neutral(part[0])
  }

  // A character that plays no part in quotes, ends or comments.
  predicate Bland(c: char) {
    c != '\'' && c != ';' && c != '-' && c != '/' && c != '*'
  }

  lemma BlandIsNeutral(word: string)
    requires word != "" && forall c :: c in word ==> Bland(c)
    ensures NeutralPart([Plain(word)])
  {
    assert word[0] in word && word[|word| - 1] in word;
    forall i | 0 <= i < |word| ensures Bland(word[i]) {
      assert word[i] in word;
    }
  }

  // Of any two neighbours one stands beside anything.
  predicate Woven(parts: seq<seq<Token>>) {
    && (forall i :: 0 <= i < |parts| ==> Clean(parts[i]))
    && (forall i :: 0 <= i < |parts| - 1 ==> NeutralPart(parts[i]) || NeutralPart(parts[i + 1]))
  }

  lemma {:induction false} FlatClean(parts: seq<seq<Token>>)
    requires Woven(parts)
    ensures Clean(Flat(parts))
  {
    if |parts| > 0 {
      var first, rest := parts[0], parts[1..];
      FlatClean(rest);
      assert Clean(first);
      if |rest| > 0 {
        assert NeutralPart(parts[0]) || NeutralPart(parts[1]);
        assert Flat(rest) == rest[0] + Flat(rest[1..]);
        NeutralFits(first, Flat(rest));
      }
      CleanConcat(first, Flat(rest));
    }
  }

  lemma NeutralFits(a: seq<Token>, b: seq<Token>)
    requires Clean(a) && Clean(b)
    requires NeutralPart(a) || (|b| > 0 && Neutral(b[0]))
    ensures |a| > 0 && |b| > 0 ==> Fits(a[|a| - 1], b[0])
  {
    if |a| > 0 && |b| > 0 {
      assert CleanToken(a[|a| - 1]) && CleanToken(b[0]);
    }
  }

  lemma {:induction false} JoinedClean(parts: seq<seq<Token>>, separator: string)
    requires Neutral(Plain(separator)) && forall i :: 0 <= i < |parts| ==> Clean(parts[i])
    ensures Clean(Joined(parts, separator))
  {
    if |parts| > 1 {
      JoinedClean(parts[1..], separator);
      assert Clean([Plain(separator)]);
      NeutralFits(parts[0], [Plain(separator)]);
      CleanConcat(parts[0], [Plain(separator)]);
      NeutralAhead(parts[0], Plain(separator), Joined(parts[1..], separator));
    }
  }

  lemma {:induction false} DoubleClean(q: char, s: string)
    requires CleanText(s) && (q == '"' || q == '`')
    ensures CleanText(Double(q, s)) && (|s| > 0 ==> |Double(q, s)| > 0 && Double(q, s)[0] == s[0])
  {
    if |s| > 0 {
      DoubleClean(q, s[1..]);
      var head, rest := if s[0] == q then [q, q] else [s[0]], Double(q, s[1..]);
      assert |s| > 1 ==> Apart(s[0], s[1]);
      CleanAppend(head, rest);
    }
  }

  lemma CleanAppend(a: string, b: string)
    requires CleanText(a) && CleanText(b) && (|a| > 0 && |b| > 0 ==> Apart(a[|a| - 1], b[0]))
    ensures CleanText(a + b)
  {
  }

  lemma IdentClean(e: Engine, name: string)
    requires CleanText(name)
    ensures Neutral(Ident(e, name)[0]) && Clean(Ident(e, name))
  {
    var q := if e.Mysql? then '`' else '"';
    DoubleClean(q, name);
    CleanAppend([q], Double(q, name));
    CleanAppend([q] + Double(q, name), [q]);
  }

  lemma IdentsClean(e: Engine, names: seq<string>)
    requires forall i :: 0 <= i < |names| ==> CleanText(names[i])
    ensures Clean(Joined(Idents(e, names), ", "))
  {
    forall i | 0 <= i < |names| ensures Clean(Idents(e, names)[i]) {
      IdentClean(e, names[i]);
    }
    JoinedClean(Idents(e, names), ", ");
  }

  lemma NeutralAhead(a: seq<Token>, t: Token, b: seq<Token>)
    requires Clean(a + [t]) && Neutral(t) && Clean(b)
    ensures Clean(a + [t] + b)
  {
    if |b| > 0 { assert CleanToken(b[0]); }
    CleanConcat(a + [t], b);
  }

  lemma WovenConcat(a: seq<seq<Token>>, b: seq<seq<Token>>)
    requires Woven(a) && Woven(b) && (|a| > 0 && |b| > 0 ==> NeutralPart(a[|a| - 1]) || NeutralPart(b[0]))
    ensures Woven(a + b)
  {
  }

  lemma TwoWoven(a: seq<Token>, b: seq<Token>)
    requires Clean(a) && Clean(b) && (NeutralPart(a) || NeutralPart(b))
    ensures Woven([a, b])
  {
  }

  lemma ThreeWoven(a: seq<Token>, b: seq<Token>, c: seq<Token>)
    requires Clean(a) && NeutralPart(b) && Clean(c)
    ensures Woven([a, b, c])
  {
  }

  // <keyword> <target> ( <list> )
  lemma FiveWoven(a: seq<Token>, b: seq<Token>, c: seq<Token>, d: seq<Token>, f: seq<Token>)
    requires NeutralPart(a) && Clean(b) && NeutralPart(c) && Clean(d) && NeutralPart(f)
    ensures Woven([a, b, c, d, f])
  {
  }

  lemma QualifyClean(e: Engine, t: Table)
    requires CleanText(t.name) && CleanText(t.schema)
    ensures Clean(Qualify(e, t))
  {
    IdentClean(e, t.name);
    IdentClean(e, t.schema);
    ThreeWoven(Ident(e, t.schema), [Plain(".")], Ident(e, t.name));
    FlatClean([Ident(e, t.schema), [Plain(".")], Ident(e, t.name)]);
  }

  lemma DefinitionClean(e: Engine, c: Column)
    requires CleanColumn(c)
    ensures Clean(Definition(e, c))
  {
    IdentClean(e, c.name);
    var head := [[Plain("  ")], Ident(e, c.name), [Plain(" ")], [Plain(c.dataType)]];
    var required := if c.nullable then [] else [[Plain(" NOT NULL")]];
    var default := if c.defaultValue == [] || c.fromSequence then [] else [[Plain(" DEFAULT ")], c.defaultValue];
    BlandIsNeutral("  ");
    BlandIsNeutral(" ");
    ColumnWoven([Plain("  ")], Ident(e, c.name), [Plain(" ")], [Plain(c.dataType)]);
    OptionsWoven(c.nullable, c.defaultValue == [] || c.fromSequence, c.defaultValue);
    ColumnShape(head, required, default);
  }

  lemma ColumnWoven(a: seq<Token>, b: seq<Token>, c: seq<Token>, d: seq<Token>)
    requires NeutralPart(a) && NeutralPart(b) && NeutralPart(c) && Clean(d)
    ensures Woven([a, b, c, d])
  {
  }

  lemma OptionsWoven(nullable: bool, plain: bool, value: seq<Token>)
    requires Clean(value)
    ensures var required := if nullable then [] else [[Plain(" NOT NULL")]];
            Woven(required) && (|required| > 0 ==> NeutralPart(required[0]))
    ensures var default := if plain then [] else [[Plain(" DEFAULT ")], value];
            Woven(default) && (|default| > 0 ==> NeutralPart(default[0]))
  {
    BlandIsNeutral(" NOT NULL");
    BlandIsNeutral(" DEFAULT ");
    TwoWoven([Plain(" DEFAULT ")], value);
  }

  lemma ColumnShape(head: seq<seq<Token>>, required: seq<seq<Token>>, default: seq<seq<Token>>)
    requires Woven(head) && Woven(required) && Woven(default)
    requires (|required| > 0 ==> NeutralPart(required[0])) && (|default| > 0 ==> NeutralPart(default[0]))
    ensures Clean(Flat(head + required + default))
  {
    WovenConcat(head, required);
    WovenConcat(head + required, default);
    FlatClean(head + required + default);
  }

  lemma CreateTableClean(e: Engine, t: Table)
    requires CleanTable(t)
    ensures Clean(CreateTable(e, t))
  {
    QualifyClean(e, t);
    ListClean(e, t);
    CreateShape(Qualify(e, t), Joined(Definitions(e, t.columns) + PrimaryKey(e, t), ",\n"));
  }

  lemma ListClean(e: Engine, t: Table)
    requires forall i :: 0 <= i < |t.columns| ==> CleanColumn(t.columns[i])
    requires forall i :: 0 <= i < |t.primaryKey| ==> CleanText(t.primaryKey[i])
    ensures Clean(Joined(Definitions(e, t.columns) + PrimaryKey(e, t), ",\n"))
  {
    PrimaryKeyClean(e, t);
    var parts := Definitions(e, t.columns) + PrimaryKey(e, t);
    forall i | 0 <= i < |parts| ensures Clean(parts[i]) {
      if i < |t.columns| { DefinitionClean(e, t.columns[i]); }
    }
    BlandIsNeutral(",\n");
    JoinedClean(parts, ",\n");
  }

  lemma CreateWord()
    ensures NeutralPart([Plain("CREATE TABLE IF NOT EXISTS ")])
  {
    BlandIsNeutral("CREATE TABLE IF NOT EXISTS ");
  }

  lemma CreateShape(target: seq<Token>, list: seq<Token>)
    requires Clean(target) && Clean(list)
    ensures Clean(Flat([[Plain("CREATE TABLE IF NOT EXISTS ")], target, [Plain(" (\n")], list, [Plain("\n)")]]))
  {
    CreateWord();
    BlandIsNeutral(" (\n");
    BlandIsNeutral("\n)");
    FiveWoven([Plain("CREATE TABLE IF NOT EXISTS ")], target, [Plain(" (\n")], list, [Plain("\n)")]);
    FlatClean([[Plain("CREATE TABLE IF NOT EXISTS ")], target, [Plain(" (\n")], list, [Plain("\n)")]]);
  }

  lemma PrimaryKeyClean(e: Engine, t: Table)
    requires forall i :: 0 <= i < |t.primaryKey| ==> CleanText(t.primaryKey[i])
    ensures forall i :: 0 <= i < |PrimaryKey(e, t)| ==> Clean(PrimaryKey(e, t)[i])
  {
    IdentsClean(e, t.primaryKey);
    PrimaryKeyShape(Joined(Idents(e, t.primaryKey), ", "));
  }

  lemma PrimaryKeyShape(list: seq<Token>)
    requires Clean(list)
    ensures Clean(Flat([[Plain("  PRIMARY KEY (")], list, [Plain(")")]]))
  {
    BlandIsNeutral("  PRIMARY KEY (");
    BlandIsNeutral(")");
    TwoWoven([Plain("  PRIMARY KEY (")], list);
    WovenConcat([[Plain("  PRIMARY KEY (")], list], [[Plain(")")]]);
    assert [[Plain("  PRIMARY KEY (")], list] + [[Plain(")")]] == [[Plain("  PRIMARY KEY (")], list, [Plain(")")]];
    FlatClean([[Plain("  PRIMARY KEY (")], list, [Plain(")")]]);
  }

  lemma LiteralClean(e: Engine, v: Value)
    requires CleanValue(v)
    ensures Clean(LiteralTokens(e, v))
  {
    match v
    case Str(text) => EscapePaired(e, text);
    case Date(iso) =>
      BareIsItself(e, iso);
      EscapePaired(e, iso);
    case Bytes(bytes) =>
      HexIsBare(bytes);
      BareIsItself(e, Hex(bytes));
      EscapePaired(e, Hex(bytes));
      if e.Postgres? {
        PostgresBackslash(e, bytes);
        EscapePaired(e, "\\x" + Hex(bytes));
      }
    case _ =>
  }

  lemma InsertClean(e: Engine, t: Table, row: Record)
    requires CleanTable(t) && row in t.rows
    ensures Clean(Insert(e, t, row))
  {
    QualifyClean(e, t);
    IdentsClean(e, Names(t.columns));
    ValuesClean(e, t, row);
    InsertShape(Qualify(e, t), Joined(Idents(e, Names(t.columns)), ", "), Joined(Literals(e, RowValues(t, row)), ", "));
  }

  lemma InsertShape(target: seq<Token>, names: seq<Token>, values: seq<Token>)
    requires Clean(target) && Clean(names) && Clean(values)
    ensures Clean(Flat([[Plain("INSERT INTO ")], target, [Plain(" (")], names, [Plain(") VALUES (")]] + [values, [Plain(")")]]))
  {
    BlandIsNeutral("INSERT INTO ");
    BlandIsNeutral(" (");
    BlandIsNeutral(") VALUES (");
    BlandIsNeutral(")");
    FiveWoven([Plain("INSERT INTO ")], target, [Plain(" (")], names, [Plain(") VALUES (")]);
    TwoWoven(values, [Plain(")")]);
    WovenConcat([[Plain("INSERT INTO ")], target, [Plain(" (")], names, [Plain(") VALUES (")]], [values, [Plain(")")]]);
    FlatClean([[Plain("INSERT INTO ")], target, [Plain(" (")], names, [Plain(") VALUES (")]] + [values, [Plain(")")]]);
  }

  lemma ValuesClean(e: Engine, t: Table, row: Record)
    requires CleanTable(t) && row in t.rows
    ensures Clean(Joined(Literals(e, RowValues(t, row)), ", "))
  {
    var parts := Literals(e, RowValues(t, row));
    forall i | 0 <= i < |parts| ensures Clean(parts[i]) {
      LiteralClean(e, RowValues(t, row)[i]);
    }
    JoinedClean(parts, ", ");
  }

  /* ----- trimming leaves them alone ----- */

  lemma {:induction false} FlatConcat(a: seq<seq<Token>>, b: seq<seq<Token>>)
    ensures Flat(a + b) == Flat(a) + Flat(b)
  {
    if |a| == 0 {
      assert a + b == b;
    } else {
      FlatConcat(a[1..], b);
      assert (a + b)[1..] == a[1..] + b;
      Assoc(a[0], Flat(a[1..]), Flat(b));
    }
  }

  lemma FlatEnds(parts: seq<seq<Token>>, last: Token)
    requires |parts| > 0 && |parts[0]| == 1
    ensures var tokens := Flat(parts + [[last]]); |tokens| > 0 && tokens[0] == parts[0][0] && tokens[|tokens| - 1] == last
  {
    FlatConcat(parts, [[last]]);
    assert Flat([[last]]) == [last] + Flat([[last]][1..]);
  }

  // Starts, and ends, with a character that trimming leaves.
  predicate SolidAhead(t: Token) {
    t.Plain? && |t.text| > 0 && !IsSpace(t.text[0])
  }

  predicate SolidBehind(t: Token) {
    t.Plain? && |t.text| > 0 && !IsSpace(t.text[|t.text| - 1])
  }

  lemma EndsTight(tokens: seq<Token>)
    requires |tokens| > 0 && SolidAhead(tokens[0]) && SolidBehind(tokens[|tokens| - 1])
    ensures Tight(Text(tokens))
  {
    var init, last := tokens[..|tokens| - 1], tokens[|tokens| - 1];
    assert tokens == init + [last];
    TextConcat(init, [last]);
    assert Text([last]) == last.text + Text([last][1..]) == last.text + "";
    assert Text(tokens) == tokens[0].text + Text(tokens[1..]);
  }

  lemma FlatTight(parts: seq<seq<Token>>, last: Token)
    requires |parts| > 0 && |parts[0]| == 1 && SolidAhead(parts[0][0]) && SolidBehind(last)
    ensures Tight(Text(Flat(parts + [[last]])))
  {
    FlatEnds(parts, last);
    EndsTight(Flat(parts + [[last]]));
  }

  lemma CreateTableTight(e: Engine, t: Table)
    ensures Tight(Text(CreateTable(e, t)))
  {
    CreateTight(Qualify(e, t), Joined(Definitions(e, t.columns) + PrimaryKey(e, t), ",\n"));
  }

  lemma CreateTight(target: seq<Token>, list: seq<Token>)
    ensures Tight(Text(Flat([[Plain("CREATE TABLE IF NOT EXISTS ")], target, [Plain(" (\n")], list, [Plain("\n)")]])))
  {
    var parts := [[Plain("CREATE TABLE IF NOT EXISTS ")], target, [Plain(" (\n")], list];
    assert parts + [[Plain("\n)")]] == [[Plain("CREATE TABLE IF NOT EXISTS ")], target, [Plain(" (\n")], list, [Plain("\n)")]];
    FlatTight(parts, Plain("\n)"));
  }

  lemma InsertTight(e: Engine, t: Table, row: Record)
    ensures Tight(Text(Insert(e, t, row)))
  {
    ClosedTight(InsertHead(e, t), Joined(Literals(e, RowValues(t, row)), ", "));
  }

  lemma ClosedTight(head: seq<seq<Token>>, values: seq<Token>)
    requires |head| > 0 && head[0] == [Plain("INSERT INTO ")]
    ensures Tight(Text(Flat(head + [values, [Plain(")")]])))
  {
    assert head + [values, [Plain(")")]] == head + [values] + [[Plain(")")]];
    FlatTight(head + [values], Plain(")"));
  }

  /* ----- the statements of the dump ----- */

  function InsertTexts(e: Engine, t: Table, rows: seq<Record>): seq<string> {
    if |rows| == 0 then [] else InsertTexts(e, t, rows[..|rows| - 1]) + [Text(Insert(e, t, rows[|rows| - 1]))]
  }

  function TableTexts(e: Engine, t: Table): seq<string> {
    [Text(CreateTable(e, t))] + InsertTexts(e, t, t.rows)
  }

  function DumpTexts(e: Engine, tables: seq<Table>): seq<string> {
    if |tables| == 0 then [] else DumpTexts(e, tables[..|tables| - 1]) + TableTexts(e, tables[|tables| - 1])
  }

  lemma {:induction false} InsertLinesAre(e: Engine, t: Table, rows: seq<Record>)
    requires CleanTable(t) && forall r :: r in rows ==> r in t.rows
    ensures CleanLines(InsertLines(Inserter(e, t), rows))
    ensures Statements(InsertLines(Inserter(e, t), rows)) == InsertTexts(e, t, rows)
  {
    if |rows| > 0 {
      var init, last := rows[..|rows| - 1], rows[|rows| - 1];
      assert last in rows && forall r :: r in init ==> r in rows;
      InsertLinesAre(e, t, init);
      InsertClean(e, t, last);
      InsertTight(e, t, last);
      Appended(InsertLines(Inserter(e, t), init), [Inserter(e, t)(last)]);
      OneStatement(Inserter(e, t)(last));
    }
  }

  lemma Appended(a: seq<Line>, b: seq<Line>)
    requires CleanLines(a) && CleanLines(b)
    ensures CleanLines(a + b) && Statements(a + b) == Statements(a) + Statements(b)
  {
    StatementsConcat(a, b);
  }

  lemma BlockIs(create: Line, insert: Record -> Line, rows: seq<Record>)
    requires CleanLine(create) && CleanLines(InsertLines(insert, rows))
    ensures CleanLines(Block(create, insert, rows))
    ensures Statements(Block(create, insert, rows)) == StatementOf(create) + Statements(InsertLines(insert, rows))
  {
    var inserts, end := InsertLines(insert, rows), if rows == [] then [] else [Empty];
    assert Statements([create, Empty]) == StatementOf(create) by {
      assert [create, Empty] == [create] + [Empty];
      StatementsConcat([create], [Empty]);
      OneStatement(create);
      OneStatement(Empty);
    }
    StatementsConcat([create, Empty], inserts);
    StatementsConcat([create, Empty] + inserts, end);
    OneStatement(Empty);
  }

  lemma TableLinesAre(e: Engine, t: Table)
    requires CleanTable(t)
    ensures CleanLines(TableLines(e, t)) && Statements(TableLines(e, t)) == TableTexts(e, t)
  {
    CreateTableClean(e, t);
    CreateTableTight(e, t);
    InsertLinesAre(e, t, t.rows);
    BlockIs(Statement(CreateTable(e, t)), Inserter(e, t), t.rows);
  }

  lemma {:induction false} TablesLinesAre(e: Engine, tables: seq<Table>)
    requires forall i :: 0 <= i < |tables| ==> CleanTable(tables[i])
    ensures CleanLines(TablesLines(e, tables)) && Statements(TablesLines(e, tables)) == DumpTexts(e, tables)
  {
    if |tables| > 0 {
      var init := tables[..|tables| - 1];
      TablesLinesAre(e, init);
      TableLinesAre(e, tables[|tables| - 1]);
      Appended(TablesLines(e, init), TableLines(e, tables[|tables| - 1]));
    }
  }

  lemma OneLine(a: string, b: string)
    requires '\n' !in a && '\n' !in b
    ensures '\n' !in a + b
  {
  }

  lemma HeaderIs(e: Engine, database: string)
    requires '\n' !in database
    ensures CleanLines(Header(e, database)) && Statements(Header(e, database)) == []
  {
    assert forall c :: c in " Syncle SQL backup" ==> c != '\n';
    OneLine(" engine: ", EngineName(e));
    OneLine(" database: ", database);
    FourComments(" Syncle SQL backup", " engine: " + EngineName(e), " database: " + database);
  }

  lemma FourComments(a: string, b: string, c: string)
    requires '\n' !in a && '\n' !in b && '\n' !in c
    ensures CleanLines([Comment(a), Comment(b), Comment(c), Empty])
    ensures Statements([Comment(a), Comment(b), Comment(c), Empty]) == []
  {
    CommentsOnly([Comment(a), Comment(b), Comment(c), Empty]);
  }

  lemma {:induction false} CommentsOnly(lines: seq<Line>)
    requires forall i :: 0 <= i < |lines| ==> !lines[i].Statement?
    ensures Statements(lines) == []
  {
    if |lines| > 0 { CommentsOnly(lines[1..]); }
  }

  /** The round trip of the dump: splitting a generated backup gives exactly the
      generated statements, in order, whatever text the row values hold. */
  lemma SplitInvertsDump(e: Engine, database: string, tables: seq<Table>)
    requires '\n' !in database && forall i :: 0 <= i < |tables| ==> CleanTable(tables[i])
    ensures Split(Join(Header(e, database) + TablesLines(e, tables))) == DumpTexts(e, tables)
  {
    HeaderIs(e, database);
    TablesLinesAre(e, tables);
    Appended(Header(e, database), TablesLines(e, tables));
    SplitInvertsJoin(Header(e, database) + TablesLines(e, tables));
  }

  method BackupThenSplit(e: Engine, database: string, tables: seq<Table>) returns (statements: seq<string>)
    requires '\n' !in database && forall i :: 0 <= i < |tables| ==> CleanTable(tables[i])
    ensures statements == DumpTexts(e, tables)
  {
    var script := Backup(e, database, tables);
    SplitInvertsDump(e, database, tables);
    statements := SplitSqlStatements(script);
  }

  /* ----- a quote in a table's name ----- */

  lemma {:induction false} DoubleConcat(q: char, a: string, b: string)
    ensures Double(q, a + b) == Double(q, a) + Double(q, b)
  {
    if |a| == 0 {
      assert a + b == b;
    } else {
      assert (a + b)[1..] == a[1..] + b;
      DoubleConcat(q, a[1..], b);
      Assoc(if a[0] == q then [q, q] else [a[0]], Double(q, a[1..]), Double(q, b));
    }
  }

  lemma {:induction false} DoubleQuoteFree(q: char, s: string)
    requires QuoteFree(s) && q != '\''
    ensures QuoteFree(Double(q, s))
  {
    if |s| > 0 {
      DoubleQuoteFree(q, s[1..]);
    }
  }

  lemma PlainText(text: string)
    ensures Text([Plain(text)]) == text
  {
    assert Text([Plain(text)]) == text + Text([Plain(text)][1..]) == text + "";
  }

  lemma IdentQuoteFree(e: Engine, name: string)
    requires QuoteFree(name)
    ensures QuoteFree(Text(Ident(e, name)))
  {
    DoubleQuoteFree(if e.Mysql? then '`' else '"', name);
    PlainText(QuoteIdent(e, name));
  }

  predicate QuoteFreeParts(parts: seq<seq<Token>>) {
    forall i :: 0 <= i < |parts| ==> QuoteFree(Text(parts[i]))
  }

  lemma {:induction false} FlatQuoteFree(parts: seq<seq<Token>>)
    requires QuoteFreeParts(parts)
    ensures QuoteFree(Text(Flat(parts)))
  {
    if |parts| > 0 {
      FlatQuoteFree(parts[1..]);
      TextConcat(parts[0], Flat(parts[1..]));
    }
  }

  lemma {:induction false} JoinedQuoteFree(parts: seq<seq<Token>>, separator: string)
    requires QuoteFreeParts(parts) && QuoteFree(separator)
    ensures QuoteFree(Text(Joined(parts, separator)))
  {
    if |parts| > 1 {
      JoinedQuoteFree(parts[1..], separator);
      PlainText(separator);
      TextConcat(parts[0], [Plain(separator)]);
      TextConcat(parts[0] + [Plain(separator)], Joined(parts[1..], separator));
    }
  }

  // No quote anywhere behind the name of the table.
  predicate QuoteFreeColumn(c: Column) {
    QuoteFree(c.name) && QuoteFree(c.dataType) && QuoteFree(Text(c.defaultValue))
  }

  predicate QuoteFreeList(t: Table) {
    && (forall i :: 0 <= i < |t.columns| ==> QuoteFreeColumn(t.columns[i]))
    && (forall i :: 0 <= i < |t.primaryKey| ==> QuoteFree(t.primaryKey[i]))
  }

  lemma WordQuoteFree(word: string)
    requires forall c :: c in word ==> c != '\''
    ensures QuoteFree(Text([Plain(word)]))
  {
    PlainText(word);
    forall i | 0 <= i < |word| ensures word[i] != '\'' {
      assert word[i] in word;
    }
  }

  lemma OptionsQuoteFree(nullable: bool, plain: bool, value: seq<Token>)
    requires QuoteFree(Text(value))
    ensures QuoteFreeParts(if nullable then [] else [[Plain(" NOT NULL")]])
    ensures QuoteFreeParts(if plain then [] else [[Plain(" DEFAULT ")], value])
  {
    WordQuoteFree(" NOT NULL");
    WordQuoteFree(" DEFAULT ");
  }

  lemma DefinitionQuoteFree(e: Engine, c: Column)
    requires QuoteFreeColumn(c)
    ensures QuoteFree(Text(Definition(e, c)))
  {
    var head := [[Plain("  ")], Ident(e, c.name), [Plain(" ")], [Plain(c.dataType)]];
    WordQuoteFree("  ");
    WordQuoteFree(" ");
    IdentQuoteFree(e, c.name);
    PlainText(c.dataType);
    OptionsQuoteFree(c.nullable, c.defaultValue == [] || c.fromSequence, c.defaultValue);
    QuoteFreeOptions(head, if c.nullable then [] else [[Plain(" NOT NULL")]],
      if c.defaultValue == [] || c.fromSequence then [] else [[Plain(" DEFAULT ")], c.defaultValue]);
  }

  lemma QuoteFreeOptions(head: seq<seq<Token>>, required: seq<seq<Token>>, default: seq<seq<Token>>)
    requires QuoteFreeParts(head) && QuoteFreeParts(required) && QuoteFreeParts(default)
    ensures QuoteFree(Text(Flat(head + required + default)))
  {
    FlatQuoteFree(head + required + default);
  }

  lemma PrimaryKeyQuoteFree(e: Engine, t: Table)
    requires forall i :: 0 <= i < |t.primaryKey| ==> QuoteFree(t.primaryKey[i])
    ensures QuoteFreeParts(PrimaryKey(e, t))
  {
    var names := Idents(e, t.primaryKey);
    forall i | 0 <= i < |names| ensures QuoteFree(Text(names[i])) {
      IdentQuoteFree(e, t.primaryKey[i]);
    }
    JoinedQuoteFree(names, ", ");
    WordQuoteFree("  PRIMARY KEY (");
    WordQuoteFree(")");
    FlatQuoteFree([[Plain("  PRIMARY KEY (")], Joined(names, ", "), [Plain(")")]]);
  }

  lemma ListQuoteFree(e: Engine, t: Table)
    requires QuoteFreeList(t)
    ensures QuoteFree(Text(Joined(Definitions(e, t.columns) + PrimaryKey(e, t), ",\n")))
  {
    PrimaryKeyQuoteFree(e, t);
    var parts := Definitions(e, t.columns) + PrimaryKey(e, t);
    forall i | 0 <= i < |parts| ensures QuoteFree(Text(parts[i])) {
      if i < |t.columns| { DefinitionQuoteFree(e, t.columns[i]); }
    }
    JoinedQuoteFree(parts, ",\n");
  }

  // The text holds one quote; what stands before it is clean and may follow a word.
  ghost predicate StrayIn(text: string, before: string, after: string) {
    OneStray(text, before, after) && |before| > 0 && before[0] != '-' && before[0] != '*'
  }

  lemma StrayAppend(head: string, text: string, before: string, after: string, tail: string)
    requires StrayIn(text, before, after) && QuoteFree(tail)
    requires CleanText(head) && |head| > 0 && head[0] != '-' && head[0] != '*'
    ensures StrayIn(head + (text + tail), head + before, after + tail)
  {
    CleanAppend(head, before);
    Assoc(before + "'", after, tail);
    Assoc(before, "'", after + tail);
    Assoc(head, before, "'" + (after + tail));
    Assoc(head + before, "'", after + tail);
  }

  lemma StrayIdent(e: Engine, name: string, a: string, b: string) returns (before: string, after: string)
    requires OneStray(name, a, b)
    ensures StrayIn(Text(Ident(e, name)), before, after)
  {
    var q := if e.Mysql? then '`' else '"';
    DoubleConcat(q, a + "'", b);
    DoubleConcat(q, a, "'");
    assert Double(q, "'") == "'" + Double(q, "'"[1..]) == "'";
    DoubleClean(q, a);
    DoubleQuoteFree(q, b);
    PlainText(QuoteIdent(e, name));
    CleanAppend([q], Double(q, a));
    before, after := [q] + Double(q, a), Double(q, b) + [q];
    Assoc([q], Double(q, a) + "'", Double(q, b));
    Assoc([q], Double(q, a), "'");
    Assoc(before + "'", Double(q, b), [q]);
  }

  lemma FlatThree(a: seq<Token>, b: seq<Token>, c: seq<Token>)
    ensures Flat([a, b, c]) == a + (b + c)
  {
    assert Flat([c]) == c + Flat([c][1..]) == c;
    assert [b, c][1..] == [c] && [a, b, c][1..] == [b, c];
    assert Flat([b, c]) == b + c;
  }

  lemma SchemaAhead(e: Engine, t: Table)
    requires t.schema != ""
    ensures Text(Qualify(e, t)) == QuoteIdent(e, t.schema) + "." + Text(Ident(e, t.name))
  {
    var s, d, n := Ident(e, t.schema), [Plain(".")], Ident(e, t.name);
    FlatThree(s, d, n);
    TextConcat(s, d + n);
    TextConcat(d, n);
    PlainText(QuoteIdent(e, t.schema));
    PlainText(".");
    Assoc(QuoteIdent(e, t.schema), ".", Text(n));
  }

  lemma StrayTarget(e: Engine, t: Table, a: string, b: string) returns (before: string, after: string)
    requires OneStray(t.name, a, b) && CleanText(t.schema)
    ensures StrayIn(Text(Qualify(e, t)), before, after)
  {
    before, after := StrayIdent(e, t.name, a, b);
    if t.schema != "" {
      var ident := QuoteIdent(e, t.schema);
      SchemaAhead(e, t);
      IdentClean(e, t.schema);
      CleanAppend(ident, ".");
      StrayAppend(ident + ".", Text(Ident(e, t.name)), before, after, "");
      assert Text(Ident(e, t.name)) + "" == Text(Ident(e, t.name));
      before, after := ident + "." + before, after + "";
    }
  }

  lemma StrayShape(word: string, target: seq<Token>, rest: seq<seq<Token>>, before: string, after: string)
    returns (before': string, after': string)
    requires StrayIn(Text(target), before, after) && NeutralPart([Plain(word)]) && QuoteFreeParts(rest)
    ensures StrayIn(Text(Flat([[Plain(word)], target] + rest)), before', after')
  {
    var parts := [[Plain(word)], target] + rest;
    assert parts[1..] == [target] + rest && parts[1..][1..] == rest;
    assert Flat(parts) == [Plain(word)] + (target + Flat(rest));
    TextConcat([Plain(word)], target + Flat(rest));
    TextConcat(target, Flat(rest));
    PlainText(word);
    FlatQuoteFree(rest);
    StrayAppend(word, Text(target), before, after, Text(Flat(rest)));
    before', after' := word + before, after + Text(Flat(rest));
  }

  lemma StrayCreate(e: Engine, t: Table, a: string, b: string) returns (before: string, after: string)
    requires OneStray(t.name, a, b) && CleanText(t.schema) && QuoteFreeList(t)
    ensures OneStray(Text(CreateTable(e, t)), before, after)
  {
    before, after := StrayTarget(e, t, a, b);
    ListQuoteFree(e, t);
    before, after := StrayWord(Qualify(e, t), Joined(Definitions(e, t.columns) + PrimaryKey(e, t), ",\n"), before, after);
  }

  lemma StrayWord(target: seq<Token>, list: seq<Token>, before: string, after: string) returns (before': string, after': string)
    requires StrayIn(Text(target), before, after) && QuoteFree(Text(list))
    ensures StrayIn(Text(Flat([[Plain("CREATE TABLE IF NOT EXISTS ")], target, [Plain(" (\n")], list, [Plain("\n)")]])), before', after')
  {
    WordQuoteFree(" (\n");
    WordQuoteFree("\n)");
    CreateWord();
    before', after' := StrayParts("CREATE TABLE IF NOT EXISTS ", target, [Plain(" (\n")], list, [Plain("\n)")], before, after);
  }

  lemma StrayParts(word: string, target: seq<Token>, a: seq<Token>, b: seq<Token>, c: seq<Token>, before: string, after: string)
    returns (before': string, after': string)
    requires StrayIn(Text(target), before, after) && NeutralPart([Plain(word)])
    requires QuoteFree(Text(a)) && QuoteFree(Text(b)) && QuoteFree(Text(c))
    ensures StrayIn(Text(Flat([[Plain(word)], target, a, b, c])), before', after')
  {
    before', after' := StrayShape(word, target, [a, b, c], before, after);
    assert [[Plain(word)], target] + [a, b, c] == [[Plain(word)], target, a, b, c];
  }

  lemma {:induction false} TablesLinesConcat(e: Engine, a: seq<Table>, b: seq<Table>)
    ensures TablesLines(e, a + b) == TablesLines(e, a) + TablesLines(e, b)
  {
    if |b| == 0 {
      assert a + b == a;
    } else {
      var init, last := b[..|b| - 1], b[|b| - 1];
      assert (a + b)[..|a + b| - 1] == a + init && (a + b)[|a + b| - 1] == last;
      TablesLinesConcat(e, a, init);
      Assoc(TablesLines(e, a), TablesLines(e, init), TableLines(e, last));
    }
  }

  lemma {:induction false} DumpTextsConcat(e: Engine, a: seq<Table>, b: seq<Table>)
    ensures DumpTexts(e, a + b) == DumpTexts(e, a) + DumpTexts(e, b)
  {
    if |b| == 0 {
      assert a + b == a;
    } else {
      var init, last := b[..|b| - 1], b[|b| - 1];
      assert (a + b)[..|a + b| - 1] == a + init && (a + b)[|a + b| - 1] == last;
      DumpTextsConcat(e, a, init);
      Assoc(DumpTexts(e, a), DumpTexts(e, init), TableTexts(e, last));
    }
  }

  // Where the CREATE of a table stands among the lines and the statements.
  lemma CreatePlace(e: Engine, good: seq<Table>, bad: Table, more: seq<Table>) returns (rest: seq<Line>)
    ensures TablesLines(e, good + [bad] + more) == TablesLines(e, good) + ([Statement(CreateTable(e, bad))] + rest)
    ensures DumpTexts(e, good) + [Text(CreateTable(e, bad))] <= DumpTexts(e, good + [bad] + more)
  {
    TablesLinesConcat(e, good + [bad], more);
    DumpTextsConcat(e, good + [bad], more);
    assert (good + [bad])[..|good|] == good;
    var create := Statement(CreateTable(e, bad));
    rest := TableLines(e, bad)[1..] + TablesLines(e, more);
    assert TableLines(e, bad)[0] == create && TableLines(e, bad) == [create] + TableLines(e, bad)[1..];
    Assoc([create], TableLines(e, bad)[1..], TablesLines(e, more));
    Assoc(TablesLines(e, good), TableLines(e, bad), TablesLines(e, more));
    Assoc(DumpTexts(e, good), [Text(CreateTable(e, bad))], InsertTexts(e, bad, bad.rows));
  }

  /** A quote in a table's name breaks the backup. Behind any clean tables, whatever
      its rows and the tables after it hold, what the splitter returns in the place
      of that CREATE TABLE runs on behind its semicolon. */
  lemma QuotedNameBreaksDump(e: Engine, database: string, good: seq<Table>, bad: Table, more: seq<Table>, a: string, b: string)
    requires '\n' !in database && forall i :: 0 <= i < |good| ==> CleanTable(good[i])
    requires OneStray(bad.name, a, b) && CleanText(bad.schema) && QuoteFreeList(bad)
    ensures var tables := good + [bad] + more;
            var out, texts, n := Split(Join(Header(e, database) + TablesLines(e, tables))), DumpTexts(e, tables), |DumpTexts(e, good)|;
            && out != texts
            && n < |out| && n < |texts| && texts[n] == Text(CreateTable(e, bad)) && Starts(out[n], texts[n] + ";")
  {
    var create := Text(CreateTable(e, bad));
    HeaderIs(e, database);
    TablesLinesAre(e, good);
    var rest := CreatePlace(e, good, bad, more);
    var before, after := StrayCreate(e, bad, a, b);
    CreateTableTight(e, bad);
    StrayLine(Header(e, database), TablesLines(e, good), Statement(CreateTable(e, bad)), rest, before, after);
  }

  lemma StrayLine(header: seq<Line>, lines: seq<Line>, line: Line, rest: seq<Line>, before: string, after: string)
    requires CleanLines(header) && Statements(header) == [] && CleanLines(lines)
    requires line.Statement? && OneStray(Text(line.tokens), before, after) && Tight(Text(line.tokens))
    ensures var out, n := Split(Join(header + (lines + ([line] + rest)))), |Statements(lines)|;
            n < |out| && Starts(out[n], Text(line.tokens) + ";")
  {
    Appended(header, lines);
    Assoc(header, lines, [line] + rest);
    JoinStarts(header + lines, line, rest);
    StrayQuoteSwallows(header + lines, Text(line.tokens), before, after, Join(header + lines + ([line] + rest)));
  }

  /* ----- an INSERT holds its row ----- */

  lemma {:induction false} JoinedText(e: Engine, values: seq<Value>)
    ensures Text(Joined(Literals(e, values), ", ")) + ")" == RowText(LiteralsOf(e, values))
  {
    if |values| == 1 {
      assert LiteralsOf(e, values)[1..] == [];
    } else if |values| > 1 {
      var first, rest := LiteralTokens(e, values[0]), Joined(Literals(e, values[1..]), ", ");
      assert Literals(e, values)[1..] == Literals(e, values[1..]);
      JoinedText(e, values[1..]);
      SeparatorText(first, rest);
      assert LiteralsOf(e, values)[1..] == LiteralsOf(e, values[1..]);
    } else {
      assert Text([]) + ")" == ")";
    }
  }

  lemma SeparatorText(first: seq<Token>, rest: seq<Token>)
    ensures Text(first + [Plain(", ")] + rest) + ")" == Text(first) + (", " + (Text(rest) + ")"))
  {
    TextConcat(first + [Plain(", ")], rest);
    TextConcat(first, [Plain(", ")]);
    assert Text([Plain(", ")]) == ", " + Text([Plain(", ")][1..]) == ", ";
    Assoc(Text(first), ", ", Text(rest));
    Assoc(", ", Text(rest), ")");
    Assoc(Text(first), ", " + Text(rest), ")");
  }

  /** An INSERT of the dump is its head and the values of the row, and the engine
      reads those back as the row: every text, byte string, date, number and NULL. */
  lemma InsertHoldsRow(e: Engine, t: Table, row: Record)
    requires CleanTable(t) && row in t.rows
    ensures var head := Text(Flat(InsertHead(e, t)));
            var values := RowText(LiteralsOf(e, RowValues(t, row)));
            && Text(Insert(e, t, row)) == head + values
            && ReadsRow(e, values, CellsOf(e, RowValues(t, row)))
  {
    var values := RowValues(t, row);
    forall i | 0 <= i < |values| ensures CleanValue(values[i]) {
    }
    RowReadsBack(e, values);
    JoinedText(e, values);
    InsertText(InsertHead(e, t), Joined(Literals(e, values), ", "));
  }

  lemma InsertText(head: seq<seq<Token>>, values: seq<Token>)
    ensures Text(Flat(head + [values, [Plain(")")]])) == Text(Flat(head)) + (Text(values) + ")")
  {
    FlatConcat(head, [values, [Plain(")")]]);
    assert [values, [Plain(")")]][1..] == [[Plain(")")]] && [[Plain(")")]][1..] == [];
    assert Flat([values, [Plain(")")]]) == values + [Plain(")")];
    TextConcat(Flat(head), values + [Plain(")")]);
    TextConcat(values, [Plain(")")]);
    assert Text([Plain(")")]) == ")" + Text([Plain(")")][1..]) == ")";
  }
}
