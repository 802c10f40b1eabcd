// Cursors of the MySQL change provider: the "file:pos:row" text, its parser and
// the order the orchestrator's watermark relies on.
//
// JavaScript's Number() is the parameter `num`: None stands for a text whose
// conversion is not finite. All that is assumed of it is that a printed
// decimal converts to the number it prints.
module MysqlCursor {
  import opened Wrappers

  type JsNumber = string -> Option<int>

  datatype Position = Position(file: string, pos: int, row: int)

  const DIGITS := "0123456789"

  function Decimal(n: nat): (s: string)
    ensures |s| > 0 && ':' !in s
  {
    if n < 10 then [DIGITS[n]] else Decimal(n / 10) + [DIGITS[n % 10]]
  }

  ghost predicate ReadsDecimals(num: JsNumber) {
    forall n: nat :: num(Decimal(n)) == Some(n)
  }

  /* ----- printing and parsing ----- */

  function Print(file: string, pos: nat, row: nat): string {
    file + ":" + Decimal(pos) + ":" + Decimal(row)
  }

  // The form persisted before cursors carried a row index.
  function PrintLegacy(file: string, pos: nat): string {
    file + ":" + Decimal(pos)
  }

  // String.split(":"), never empty.
  function SplitColons(s: string): (parts: seq<string>)
    ensures |parts| >= 1
  {
    if |s| == 0 then [""]
    else
      var init := SplitColons(s[..|s| - 1]);
      if s[|s| - 1] == ':' then init + [""]
      else init[..|init| - 1] + [init[|init| - 1] + [s[|s| - 1]]]
  }

  // Array.join(":")
  function JoinColons(parts: seq<string>): string {
    if |parts| == 0 then ""
    else if |parts| == 1 then parts[0]
    else JoinColons(parts[..|parts| - 1]) + ":" + parts[|parts| - 1]
  }

  // String.lastIndexOf(":")
  function LastColon(s: string): (i: int)
    ensures -1 <= i < |s|
    ensures i >= 0 ==> s[i] == ':' && ':' !in s[i + 1..]
    ensures i < 0 ==> ':' !in s
  {
    if |s| == 0 then -1
    else if s[|s| - 1] == ':' then |s| - 1
    else LastColon(s[..|s| - 1])
  }

  // "file:pos:row", when the last two parts are numbers
  function RowForm(num: JsNumber, parts: seq<string>): Option<Position> {
    var n := |parts|;
    if n >= 3 && num(parts[n - 1]).Some? && num(parts[n - 2]).Some? then
      Some(Position(JoinColons(parts[..n - 2]), num(parts[n - 2]).value, num(parts[n - 1]).value))
    else None
  }

  // "file:pos", a bad number counting as 0
  function LegacyForm(num: JsNumber, c: string): Position {
    var i := LastColon(c);
    if i < 0 then Position(c, 0, -1)
    else
      var pos := num(c[i + 1..]);
      Position(c[..i], if pos.Some? then pos.value else 0, -1)
  }

  function SplitCursor(num: JsNumber, c: string): Position {
    var r := RowForm(num, SplitColons(c));
    if r.Some? then r.value else LegacyForm(num, c)
  }

  lemma {:induction false} SplitTail(s: string, t: string)
    requires ':' !in t
    ensures SplitColons(s + ":" + t) == SplitColons(s) + [t]
  {
    var whole := s + ":" + t;
    if |t| == 0 {
      assert whole[..|whole| - 1] == s;
    } else {
      var t' := t[..|t| - 1];
      assert whole[..|whole| - 1] == s + ":" + t';
      SplitTail(s, t');
      assert t == t' + [t[|t| - 1]];
    }
  }

  lemma {:induction false} SplitPlain(s: string)
    requires ':' !in s
    ensures SplitColons(s) == [s]
  {
    if |s| > 0 {
      SplitPlain(s[..|s| - 1]);
      assert s == s[..|s| - 1] + [s[|s| - 1]];
    }
  }

  lemma {:induction false} JoinSplit(s: string)
    ensures JoinColons(SplitColons(s)) == s
    decreases |s|
  {
    var i := LastColon(s);
    if i < 0 {
      SplitPlain(s);
    } else {
      assert s == s[..i] + ":" + s[i + 1..];
      SplitTail(s[..i], s[i + 1..]);
      JoinSplit(s[..i]);
      var parts := SplitColons(s[..i]);
      assert (parts + [s[i + 1..]])[..|parts|] == parts;
    }
  }

  lemma {:induction false} LastColonAt(s: string, t: string)
    requires ':' !in t
    ensures LastColon(s + ":" + t) == |s|
  {
    if |t| > 0 {
      var whole := s + ":" + t;
      assert whole[..|whole| - 1] == s + ":" + t[..|t| - 1];
      LastColonAt(s, t[..|t| - 1]);
    }
  }

  lemma SplitPrinted(file: string, pos: nat, row: nat)
    ensures SplitColons(Print(file, pos, row)) == SplitColons(file) + [Decimal(pos)] + [Decimal(row)]
  {
    SplitTail(file, Decimal(pos));
    SplitTail(file + ":" + Decimal(pos), Decimal(row));
  }

  lemma RowFormOf(num: JsNumber, init: seq<string>, p: string, r: string)
    requires |init| > 0
    ensures RowForm(num, init + [p] + [r]) ==
            if num(p).Some? && num(r).Some? then Some(Position(JoinColons(init), num(p).value, num(r).value)) else None
  {
    assert (init + [p] + [r])[..|init|] == init;
  }

  // A printed cursor parses back to exactly its parts, for any file name.
  lemma SplitInvertsPrint(num: JsNumber, file: string, pos: nat, row: nat)
    requires ReadsDecimals(num)
    ensures SplitCursor(num, Print(file, pos, row)) == Position(file, pos, row)
  {
    SplitPrinted(file, pos, row);
    RowFormOf(num, SplitColons(file), Decimal(pos), Decimal(row));
    JoinSplit(file);
  }

  // The file name whose own last segment reads as a number.
  predicate EndsNumeric(num: JsNumber, file: string) {
    var parts := SplitColons(file);
    |parts| >= 2 && num(parts[|parts| - 1]).Some?
  }

  // A legacy cursor is read as one exactly when the file name cannot be
  // mistaken for a "file:pos" prefix.
  lemma LegacyReadsBack(num: JsNumber, file: string, pos: nat)
    requires ReadsDecimals(num)
    ensures SplitCursor(num, PrintLegacy(file, pos)) == Position(file, pos, -1) <==> !EndsNumeric(num, file)
  {
    LegacyParts(file, pos);
    var parts := SplitColons(file);
    if |parts| >= 2 {
      var init, last := parts[..|parts| - 1], parts[|parts| - 1];
      assert parts == init + [last];
      RowFormOf(num, init, last, Decimal(pos));
    }
  }

  lemma LegacyParts(file: string, pos: nat)
    ensures var c := PrintLegacy(file, pos);
            && SplitColons(c) == SplitColons(file) + [Decimal(pos)]
            && LastColon(c) == |file| && c[..|file|] == file && c[|file| + 1..] == Decimal(pos)
  {
    SplitTail(file, Decimal(pos));
    LastColonAt(file, Decimal(pos));
  }

  /* ----- order ----- */

  // JavaScript's `<` on strings.
  predicate StringLess(a: string, b: string) {
    if |b| == 0 then false
    else if |a| == 0 then true
    else if a[0] != b[0] then a[0] < b[0]
    else StringLess(a[1..], b[1..])
  }

  predicate After(a: Position, b: Position) {
    if a.file != b.file then StringLess(b.file, a.file)
    else if a.pos != b.pos then a.pos > b.pos
    else a.row > b.row
  }

  predicate CursorAfter(num: JsNumber, a: string, b: Option<string>) {
    b == None || b == Some("") || After(SplitCursor(num, a), SplitCursor(num, b.value))
  }

  lemma {:induction false} StringOrder(a: string, b: string, c: string)
    ensures !StringLess(a, a)
    ensures StringLess(a, b) && StringLess(b, c) ==> StringLess(a, c)
    ensures a != b ==> StringLess(a, b) || StringLess(b, a)
    decreases |a| + |b| + |c|
  {
    if |a| > 0 {
      StringOrder(a[1..], if |b| > 0 then b[1..] else b, if |c| > 0 then c[1..] else c);
      if |b| > 0 && a[0] == b[0] && a != b {
        assert a == [a[0]] + a[1..] && b == [b[0]] + b[1..];
      }
    }
  }

  // The order the watermark needs: irreflexive, transitive and total.
  lemma StrictTotalOrder(a: Position, b: Position, c: Position)
    ensures !After(a, a)
    ensures After(a, b) && After(b, c) ==> After(a, c)
    ensures a != b ==> After(a, b) || After(b, a)
    ensures !(After(a, b) && After(b, a))
  {
    StringOrder(c.file, b.file, a.file);
    StringOrder(a.file, b.file, a.file);
  }

  // On printed cursors: the parsed triples compare, and distinct triples are
  // always ordered one way and only one way.
  lemma PrintedOrder(num: JsNumber, f: string, p: nat, r: nat, g: string, q: nat, s: nat)
    requires ReadsDecimals(num)
    ensures CursorAfter(num, Print(f, p, r), Some(Print(g, q, s)))
            <==> After(Position(f, p, r), Position(g, q, s))
    ensures (f, p, r) != (g, q, s) ==>
      (CursorAfter(num, Print(f, p, r), Some(Print(g, q, s)))
       <==> !CursorAfter(num, Print(g, q, s), Some(Print(f, p, r))))
    ensures !CursorAfter(num, Print(f, p, r), Some(Print(f, p, r)))
  {
    SplitInvertsPrint(num, f, p, r);
    SplitInvertsPrint(num, g, q, s);
    var a, b := Position(f, p, r), Position(g, q, s);
    StrictTotalOrder(a, b, a);
  }

  // With no watermark yet every cursor is new; with one it is compared.
  lemma NoWatermark(num: JsNumber, f: string, p: nat, r: nat, b: Option<string>)
    requires ReadsDecimals(num)
    ensures b.None? || b.value == "" ==> CursorAfter(num, Print(f, p, r), b)
    ensures b.Some? && b.value != "" ==>
              (CursorAfter(num, Print(f, p, r), b) <==> After(Position(f, p, r), SplitCursor(num, b.value)))
  {
    SplitInvertsPrint(num, f, p, r);
  }

  // A watermark persisted in the legacy form lies before every row of its own
  // event and after every row of earlier events of the same file.
  lemma LegacyWatermark(num: JsNumber, file: string, pos: nat, other: nat, row: nat)
    requires ReadsDecimals(num) && !EndsNumeric(num, file)
    ensures CursorAfter(num, Print(file, other, row), Some(PrintLegacy(file, pos))) <==> other >= pos
  {
    SplitInvertsPrint(num, file, other, row);
    LegacyReadsBack(num, file, pos);
  }

  /* ----- binlog file names ----- */

  function Pad(width: nat, n: nat): (s: string)
    ensures |s| == width
  {
    if width == 0 then "" else Pad(width - 1, n / 10) + [DIGITS[n % 10]]
  }

  function Places(n: nat): (w: nat)
    ensures w >= 1
  {
    if n < 10 then 1 else 1 + Places(n / 10)
  }

  // The server numbers binlog files with at least six digits.
  function Width(n: nat): nat {
    if Places(n) < 6 then 6 else Places(n)
  }

  function BinlogName(base: string, n: nat): string {
    base + "." + Pad(Width(n), n)
  }

  // n with its lowest k digits dropped
  function Drop(n: nat, k: nat): nat {
    if k == 0 then n else Drop(n / 10, k - 1)
  }

  lemma {:induction false} PadPrefix(w: nat, k: nat, n: nat)
    ensures Pad(w + k, n)[..w] == Pad(w, Drop(n, k))
  {
    if k == 0 {
      assert Pad(w, n)[..w] == Pad(w, n);
    } else {
      PadPrefix(w, k - 1, n / 10);
      assert Pad(w + k, n)[..w] == Pad(w + k - 1, n / 10)[..w];
    }
  }

  predicate Fits(n: nat, w: nat) {
    Drop(n, w) == 0
  }

  lemma {:induction false} PlacesFit(n: nat, w: nat)
    requires w >= Places(n)
    ensures Fits(n, w)
  {
    if n >= 10 {
      PlacesFit(n / 10, w - 1);
    } else {
      ZeroFits(w - 1);
    }
  }

  lemma {:induction false} ZeroFits(w: nat)
    ensures Drop(0, w) == 0
  {
    if w > 0 { ZeroFits(w - 1); }
  }

  lemma {:induction false} LessAppend(a: string, b: string, x: char, y: char)
    requires |a| == |b|
    ensures StringLess(a + [x], b + [y]) <==> StringLess(a, b) || (a == b && x < y)
  {
    if |a| > 0 {
      LessAppend(a[1..], b[1..], x, y);
      assert (a + [x])[1..] == a[1..] + [x] && (b + [y])[1..] == b[1..] + [y];
      assert a == [a[0]] + a[1..] && b == [b[0]] + b[1..];
      if a[0] != b[0] {
        assert StringLess(a + [x], b + [y]) <==> a[0] < b[0];
      }
    } else {
      assert a + [x] == [x] && b + [y] == [y];
    }
  }

  // Zero-padded numbers of one width compare as numbers.
  lemma {:induction false} PadOrder(w: nat, m: nat, n: nat)
    requires Fits(m, w) && Fits(n, w)
    ensures StringLess(Pad(w, m), Pad(w, n)) <==> m < n
    ensures Pad(w, m) == Pad(w, n) <==> m == n
  {
    if w > 0 {
      PadOrder(w - 1, m / 10, n / 10);
      LessAppend(Pad(w - 1, m / 10), Pad(w - 1, n / 10), DIGITS[m % 10], DIGITS[n % 10]);
      DigitOrder(m % 10, n % 10);
      if Pad(w, m) == Pad(w, n) {
        assert Pad(w, m)[..w - 1] == Pad(w - 1, m / 10);
        assert Pad(w, n)[..w - 1] == Pad(w - 1, n / 10);
        assert Pad(w, m)[w - 1] == DIGITS[m % 10] && Pad(w, n)[w - 1] == DIGITS[n % 10];
      }
    }
  }

  lemma DigitOrder(a: nat, b: nat)
    requires a < 10 && b < 10
    ensures DIGITS[a] < DIGITS[b] <==> a < b
    ensures DIGITS[a] == DIGITS[b] <==> a == b
  {
  }

  lemma {:induction false} LessAfterPrefix(p: string, a: string, b: string)
    ensures StringLess(p + a, p + b) <==> StringLess(a, b)
  {
    if |p| == 0 {
      assert p + a == a && p + b == b;
    } else {
      assert (p + a)[1..] == p[1..] + a && (p + b)[1..] == p[1..] + b;
      LessAfterPrefix(p[1..], a, b);
    }
  }

  // Comparing a string with a longer one looks at their common length first.
  lemma {:induction false} LessByPrefix(a: string, b: string)
    requires |a| < |b|
    ensures StringLess(a, b) <==> a == b[..|a|] || StringLess(a, b[..|a|])
  {
    if |a| > 0 {
      LessByPrefix(a[1..], b[1..]);
      assert b[..|a|][1..] == b[1..][..|a| - 1];
      assert a == [a[0]] + a[1..] && b[..|a|] == [b[0]] + b[..|a|][1..];
    }
  }

  lemma {:induction false} PlacesGrow(n: nat, m: nat)
    requires n <= m
    ensures Places(n) <= Places(m)
  {
    if n >= 10 { PlacesGrow(n / 10, m / 10); }
  }

  lemma {:induction false} DropFits(m: nat, k: nat, w: nat)
    requires Fits(m, w + k)
    ensures Fits(Drop(m, k), w)
  {
    if k > 0 { DropFits(m / 10, k - 1, w); }
  }

  // Which later binlog files count as later. Zero padding makes the name order
  // the number order only while the width stays the same: once the numbering
  // outgrows six digits, a later file counts as later exactly when its leading
  // digits still reach the earlier number.
  lemma BinlogNameOrder(base: string, n: nat, m: nat)
    requires n < m
    ensures Width(n) <= Width(m)
    ensures StringLess(BinlogName(base, n), BinlogName(base, m)) <==> n <= Drop(m, Width(m) - Width(n))
  {
    PlacesGrow(n, m);
    var w, k := Width(n), Width(m) - Width(n);
    var a, b := Pad(w, n), Pad(w + k, m);
    LessAfterPrefix(base + ".", a, b);
    PlacesFit(n, w);
    PlacesFit(m, w + k);
    PadPrefix(w, k, m);
    DropFits(m, k, w);
    PadOrder(w, n, Drop(m, k));
    if k > 0 {
      LessByPrefix(a, b);
    }
  }

  // With equal widths the order is always the binlog order ...
  lemma EqualWidthOrder(base: string, n: nat, m: nat)
    requires n < m && Width(n) == Width(m)
    ensures forall p, q, r, s :: After(Position(BinlogName(base, m), p, r), Position(BinlogName(base, n), q, s))
  {
    BinlogNameOrder(base, n, m);
    StringOrder(BinlogName(base, n), BinlogName(base, m), "");
  }

  // ... and file 1000000 is taken to lie before file 999999, so every change in
  // it is dropped as a replay.
  lemma SeventhDigitIsDropped(base: string)
    ensures forall p, q, r, s :: !After(Position(BinlogName(base, 1_000_000), p, r), Position(BinlogName(base, 999_999), q, s))
  {
    var n, m := 999_999, 1_000_000;
    assert Places(n) == 6 by {
      assert Places(9) == 1 && Places(99) == 2 && Places(999) == 3;
      assert Places(9_999) == 4 && Places(99_999) == 5;
    }
    assert Places(m) == 7 by {
      assert Places(1) == 1 && Places(10) == 2 && Places(100) == 3 && Places(1_000) == 4;
      assert Places(10_000) == 5 && Places(100_000) == 6;
    }
    BinlogNameOrder(base, n, m);
    assert Drop(m, 1) == Drop(100_000, 0);
    assert |BinlogName(base, n)| != |BinlogName(base, m)|;
    StringOrder(BinlogName(base, n), BinlogName(base, m), "");
  }
}
