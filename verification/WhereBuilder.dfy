// Parameterised WHERE clauses and UPDATE/DELETE statements. The clause is text
// with placeholders; it is kept as conditions whose arguments are placeholder
// numbers, to be filled by number ($1) or by position (?).
module WhereBuilder {
  import opened Wrappers

  datatype Val = Null | Num(n: int) | Text(s: string) | List(items: seq<Val>)

  datatype Operator =
    | IsNull | NotNull | Eq | Neq | Lt | Lte | Gt | Gte
    | Contains | StartsWith | EndsWith | In | Other(name: string)

  datatype Filter = Filter(column: string, operator: Operator, value: Val)

  datatype Rel = EQ | NEQ | LT | LTE | GT | GTE

  // A condition over arguments: placeholder numbers, or values once bound.
  datatype Cond<T> =
    | Compare(column: string, rel: Rel, arg: T)
    | Missing(column: string)
    | Present(column: string)
    | Like(column: string, arg: T)
    | OneOf(column: string, args: seq<T>)
    | Never

  datatype Built = Built(parts: seq<Cond<int>>, params: seq<Val>)

  // One part, with the parameters it binds.
  datatype Part = Part(cond: Cond<int>, params: seq<Val>)

  function Push(b: Built, part: Part): Built {
    Built(b.parts + [part.cond], b.params + part.params)
  }

  /* ----- the builder ----- */

  function RelOf(op: Operator): Option<Rel> {
    match op
    case Eq => Some(EQ)
    case Neq => Some(NEQ)
    case Lt => Some(LT)
    case Lte => Some(LTE)
    case Gt => Some(GT)
    case Gte => Some(GTE)
    case _ => None
  }

  // String(v ?? ''), the conversion itself being JavaScript's.
  function Words(str: Val -> string, v: Val): string {
    if v.Null? then "" else str(v)
  }

  function Pattern(str: Val -> string, op: Operator, v: Val): Option<string> {
    match op
    case Contains => Some("%" + Words(str, v) + "%")
    case StartsWith => Some(Words(str, v) + "%")
    case EndsWith => Some("%" + Words(str, v))
    case _ => None
  }

  function Items(v: Val): seq<Val> {
    if v.List? then v.items else []
  }

  // first, first + 1, ...
  function Range(first: nat, count: nat): (r: seq<int>)
    ensures |r| == count && forall i :: 0 <= i < count ==> r[i] == first + i
  {
    seq(count, i => first + i)
  }

  // The condition of one filter, its placeholders numbered from `idx`.
  function BuildOne(str: Val -> string, f: Filter, idx: nat): Result<Part, string> {
    if f.operator.IsNull? then Ok(Part(Missing(f.column), []))
    else if f.operator.NotNull? then Ok(Part(Present(f.column), []))
    else if RelOf(f.operator).Some? then Ok(Part(Compare(f.column, RelOf(f.operator).value, idx), [f.value]))
    else if Pattern(str, f.operator, f.value).Some? then
      Ok(Part(Like(f.column, idx), [Text(Pattern(str, f.operator, f.value).value)]))
    else if f.operator.In? then
      if Items(f.value) == [] then Ok(Part(Never, []))
      else Ok(Part(OneOf(f.column, Range(idx, |Items(f.value)|)), Items(f.value)))
    else Err("Unsupported filter operator: " + f.operator.name)
  }

  function Extend(b: Result<Built, string>, part: Result<Part, string>): Result<Built, string> {
    if b.Err? then b else if part.Err? then Err(part.error) else Ok(Push(b.value, part.value))
  }

  type Builder = (Filter, nat) -> Result<Part, string>

  function OneBy(str: Val -> string): Builder {
    (f: Filter, idx: nat) => BuildOne(str, f, idx)
  }

  // The map over the filters, with the running placeholder index.
  function BuildAll(one: Builder, filters: seq<Filter>, start: nat): Result<Built, string> {
    if |filters| == 0 then Ok(Built([], []))
    else
      var before := BuildAll(one, filters[..|filters| - 1], start);
      if before.Err? then before
      else Extend(before, one(filters[|filters| - 1], start + |before.value.params|))
  }

  function Build(str: Val -> string, filters: seq<Filter>, start: nat): Result<Built, string> {
    BuildAll(OneBy(str), filters, start)
  }

  method BuildWhere(str: Val -> string, filters: seq<Filter>, startIndex: nat) returns (r: Result<Built, string>)
    ensures r == Build(str, filters, startIndex)
  {
    var parts: seq<Cond<int>>, params: seq<Val>, idx := [], [], startIndex;
    ghost var builder := OneBy(str);
    for k := 0 to |filters|
      invariant idx == startIndex + |params|
      invariant BuildAll(builder, filters[..k], startIndex) == Ok(Built(parts, params))
    {
      var one, next := BuildFilter(str, filters[k], idx);
      BuildMore(builder, filters, startIndex, k, Built(parts, params));
      if one.Err? {
        FailureStays(builder, filters, startIndex, k + 1);
        return Err(one.error);
      }
      parts, params, idx := parts + [one.value.cond], params + one.value.params, next;
    }
    assert filters[..|filters|] == filters;
    return Ok(Built(parts, params));
  }

  // One turn of the map: what it pushes, and the running placeholder index.
  method BuildFilter(str: Val -> string, f: Filter, start: nat) returns (r: Result<Part, string>, idx: nat)
    ensures r == OneBy(str)(f, start)
    ensures r.Ok? ==> idx == start + |r.value.params|
  {
    idx := start;
    var rel, pattern := RelOf(f.operator), Pattern(str, f.operator, f.value);
    if f.operator.IsNull? {
      r := Ok(Part(Missing(f.column), []));
    } else if f.operator.NotNull? {
      r := Ok(Part(Present(f.column), []));
    } else if rel.Some? {
      r, idx := Ok(Part(Compare(f.column, rel.value, idx), [f.value])), idx + 1;
    } else if pattern.Some? {
      r, idx := Ok(Part(Like(f.column, idx), [Text(pattern.value)])), idx + 1;
    } else if f.operator.In? {
      var values := Items(f.value);
      if |values| == 0 { return Ok(Part(Never, [])), idx; }
      var placeholders: seq<int>, params: seq<Val> := [], [];
      for i := 0 to |values|
        invariant idx == start + i && params == values[..i] && placeholders == Range(start, i)
      {
        params, placeholders, idx := params + [values[i]], placeholders + [idx], idx + 1;
      }
      assert values[..|values|] == values;
      r := Ok(Part(OneOf(f.column, placeholders), params));
    } else {
      r := Err("Unsupported filter operator: " + f.operator.name);
    }
  }

  lemma BuildMore(one: Builder, filters: seq<Filter>, start: nat, k: nat, b: Built)
    requires k < |filters| && BuildAll(one, filters[..k], start) == Ok(b)
    ensures BuildAll(one, filters[..k + 1], start) == Extend(Ok(b), one(filters[k], start + |b.params|))
  {
    assert filters[..k + 1][..k] == filters[..k];
  }

  // The first filter that fails decides.
  lemma {:induction false} FailureStays(one: Builder, filters: seq<Filter>, start: nat, k: nat)
    requires k <= |filters| && BuildAll(one, filters[..k], start).Err?
    ensures BuildAll(one, filters, start) == BuildAll(one, filters[..k], start)
  {
    if k < |filters| {
      assert filters[..|filters| - 1][..k] == filters[..k];
      FailureStays(one, filters[..|filters| - 1], start, k);
    } else {
      assert filters[..k] == filters;
    }
  }

  /** Building fails if and only if some filter has an unsupported operator. */
  lemma {:induction false} BuildFailsExactly(str: Val -> string, filters: seq<Filter>, start: nat)
    ensures Build(str, filters, start).Err? <==> exists f :: f in filters && f.operator.Other?
  {
    if |filters| > 0 {
      var init, last := filters[..|filters| - 1], filters[|filters| - 1];
      BuildFailsExactly(str, init, start);
      assert filters == init + [last];
      assert forall idx :: OneBy(str)(last, idx).Err? <==> last.operator.Other?;
    }
  }

  /* ----- placeholders ----- */

  function Args<T>(c: Cond<T>): seq<T> {
    match c
    case Compare(_, _, arg) => [arg]
    case Like(_, arg) => [arg]
    case OneOf(_, args) => args
    case _ => []
  }

  // The placeholders in the order they stand in the text.
  function Holes(parts: seq<Cond<int>>): seq<int> {
    if |parts| == 0 then [] else Holes(parts[..|parts| - 1]) + Args(parts[|parts| - 1])
  }

  lemma OneArgs(str: Val -> string, f: Filter, idx: nat)
    requires BuildOne(str, f, idx).Ok?
    ensures FromIndex(BuildOne(str, f, idx).value, idx)
  {
    assert [idx] == Range(idx, 1);
  }

  predicate OrderedFrom(b: Built, start: nat) {
    Holes(b.parts) == Range(start, |b.params|)
  }

  lemma PushHoles(b: Built, part: Part, start: nat)
    requires OrderedFrom(b, start) && FromIndex(part, start + |b.params|)
    ensures OrderedFrom(Push(b, part), start)
  {
    assert Push(b, part).parts[..|b.parts|] == b.parts;
  }

  predicate FromIndex(part: Part, idx: nat) {
    Args(part.cond) == Range(idx, |part.params|)
  }

  ghost predicate NumbersInOrder(one: Builder) {
    forall f, idx :: one(f, idx).Ok? ==> FromIndex(one(f, idx).value, idx)
  }

  lemma BuildStep(one: Builder, filters: seq<Filter>, start: nat)
    requires |filters| > 0 && BuildAll(one, filters, start).Ok?
    ensures var b := BuildAll(one, filters[..|filters| - 1], start);
            && b.Ok?
            && var part := one(filters[|filters| - 1], start + |b.value.params|);
            && part.Ok? && BuildAll(one, filters, start).value == Push(b.value, part.value)
  {
  }

  lemma {:induction false} AllInOrder(one: Builder, filters: seq<Filter>, start: nat)
    requires NumbersInOrder(one) && BuildAll(one, filters, start).Ok?
    ensures OrderedFrom(BuildAll(one, filters, start).value, start)
  {
    if |filters| > 0 {
      var init := filters[..|filters| - 1];
      BuildStep(one, filters, start);
      AllInOrder(one, init, start);
      var b := BuildAll(one, init, start).value;
      PushHoles(b, one(filters[|filters| - 1], start + |b.params|).value, start);
    }
  }

  /** Placeholders are numbered start, start + 1, ... in textual order, one for
      each parameter. */
  lemma HolesInOrder(str: Val -> string, filters: seq<Filter>, start: nat)
    requires Build(str, filters, start).Ok?
    ensures var b := Build(str, filters, start).value; Holes(b.parts) == Range(start, |b.params|)
  {
    forall f, idx | OneBy(str)(f, idx).Ok?
      ensures FromIndex(OneBy(str)(f, idx).value, idx)
    {
      OneArgs(str, f, idx);
    }
    AllInOrder(OneBy(str), filters, start);
  }

  // `args` stand for the arguments of the condition, in order.
  function Fill(c: Cond<int>, args: seq<Val>): Cond<Val>
    requires |args| == |Args(c)|
  {
    match c
    case Compare(column, rel, _) => Compare(column, rel, args[0])
    case Missing(column) => Missing(column)
    case Present(column) => Present(column)
    case Like(column, _) => Like(column, args[0])
    case OneOf(column, _) => OneOf(column, args)
    case Never => Never
  }

  function Lookup(all: seq<Val>, number: int): Val {
    if 1 <= number <= |all| then all[number - 1] else Null
  }

  function LookupAll(all: seq<Val>, numbers: seq<int>): (r: seq<Val>)
    ensures |r| == |numbers| && forall i :: 0 <= i < |r| ==> r[i] == Lookup(all, numbers[i])
  {
    seq(|numbers|, i requires 0 <= i < |numbers| => Lookup(all, numbers[i]))
  }

  // $n takes the n-th parameter of the statement.
  function ByNumber(parts: seq<Cond<int>>, all: seq<Val>): seq<Cond<Val>> {
    if |parts| == 0 then []
    else ByNumber(parts[..|parts| - 1], all) + [Fill(parts[|parts| - 1], LookupAll(all, Args(parts[|parts| - 1])))]
  }

  // The k-th ? takes the k-th parameter.
  function ByPosition(parts: seq<Cond<int>>, params: seq<Val>): seq<Cond<Val>>
    requires |Holes(parts)| == |params|
  {
    if |parts| == 0 then []
    else
      var init, last := parts[..|parts| - 1], parts[|parts| - 1];
      var cut := |params| - |Args(last)|;
      ByPosition(init, params[..cut]) + [Fill(last, params[cut..])]
  }

  lemma RangeSplit(a: seq<int>, b: seq<int>, first: nat, n: nat)
    requires a + b == Range(first, n)
    ensures a == Range(first, |a|) && b == Range(first + |a|, |b|)
  {
    assert |a + b| == n;
    forall i | 0 <= i < |a| ensures a[i] == first + i {
      assert a[i] == (a + b)[i];
    }
    forall i | 0 <= i < |b| ensures b[i] == first + |a| + i {
      assert b[i] == (a + b)[|a| + i];
    }
  }

  // The values numbered lo + 1 to lo + n.
  lemma LookupRange(all: seq<Val>, lo: nat, n: nat)
    requires lo + n <= |all|
    ensures LookupAll(all, Range(lo + 1, n)) == all[lo..lo + n]
  {
  }

  lemma SliceParts<T>(all: seq<T>, lo: nat, n: nat, cut: nat)
    requires cut <= n && lo + n <= |all|
    ensures all[lo..lo + n][..cut] == all[lo..lo + cut] && all[lo..lo + n][cut..] == all[lo + cut..lo + n]
  {
  }

  // The rest of the parameters, by their numbers.
  lemma LookupRest(all: seq<Val>, lo: nat, params: seq<Val>, cut: nat, numbers: seq<int>)
    requires cut <= |params| && lo + |params| <= |all| && params == all[lo..lo + |params|]
    requires numbers == Range(lo + cut + 1, |params| - cut)
    ensures LookupAll(all, numbers) == params[cut..]
  {
    SliceParts(all, lo, |params|, cut);
    LookupRange(all, lo + cut, |params| - cut);
  }

  lemma AgreeStep(parts: seq<Cond<int>>, all: seq<Val>, params: seq<Val>, cut: nat)
    requires |parts| > 0 && |Holes(parts)| == |params| && cut == |params| - |Args(parts[|parts| - 1])|
    requires ByNumber(parts[..|parts| - 1], all) == ByPosition(parts[..|parts| - 1], params[..cut])
    requires LookupAll(all, Args(parts[|parts| - 1])) == params[cut..]
    ensures ByNumber(parts, all) == ByPosition(parts, params)
  {
  }

  // The parameters stand among all of them from `lo` on.
  lemma {:induction false} BindingsAgreeAt(parts: seq<Cond<int>>, all: seq<Val>, lo: nat, params: seq<Val>)
    requires lo + |params| <= |all| && params == all[lo..lo + |params|]
    requires Holes(parts) == Range(lo + 1, |params|)
    ensures ByNumber(parts, all) == ByPosition(parts, params)
  {
    if |parts| > 0 {
      var init, last := parts[..|parts| - 1], parts[|parts| - 1];
      RangeSplit(Holes(init), Args(last), lo + 1, |params|);
      var cut := |Holes(init)|;
      SliceParts(all, lo, |params|, cut);
      BindingsAgreeAt(init, all, lo, params[..cut]);
      LookupRest(all, lo, params, cut, Args(last));
      AgreeStep(parts, all, params, cut);
    }
  }

  /** With placeholders numbered in order, numbered and positional engines bind
      the same values, whatever parameters come before and after. */
  lemma BindingsAgree(parts: seq<Cond<int>>, before: seq<Val>, params: seq<Val>, after: seq<Val>)
    requires Holes(parts) == Range(|before| + 1, |params|)
    ensures ByNumber(parts, before + params + after) == ByPosition(parts, params)
  {
    var all := before + params + after;
    assert all[|before|..|before| + |params|] == params;
    BindingsAgreeAt(parts, all, |before|, params);
  }

  /* ----- meaning ----- */

  datatype Truth = True | False | Unknown

  // The engine's comparison and LIKE, on values that are not NULL.
  datatype Semantics = Semantics(compare: (Rel, Val, Val) -> bool, like: (Val, string) -> bool)

  type Row = map<string, Val>

  function At(row: Row, column: string): Val {
    if column in row then row[column] else Null
  }

  function Bool(b: bool): Truth {
    if b then True else False
  }

  function TestValue(sem: Semantics, rel: Rel, a: Val, b: Val): Truth {
    if a.Null? || b.Null? then Unknown else Bool(sem.compare(rel, a, b))
  }

  function Or(a: Truth, b: Truth): Truth {
    if a.True? || b.True? then True else if a.False? && b.False? then False else Unknown
  }

  function And(a: Truth, b: Truth): Truth {
    if a.False? || b.False? then False else if a.True? && b.True? then True else Unknown
  }

  function Any(sem: Semantics, a: Val, items: seq<Val>): Truth {
    if |items| == 0 then False else Or(TestValue(sem, EQ, a, items[0]), Any(sem, a, items[1..]))
  }

  function Eval(sem: Semantics, row: Row, c: Cond<Val>): Truth {
    match c
    case Compare(column, rel, arg) => TestValue(sem, rel, At(row, column), arg)
    case Missing(column) => Bool(At(row, column).Null?)
    case Present(column) => Bool(!At(row, column).Null?)
    case Like(column, arg) =>
      if At(row, column).Null? || !arg.Text? then Unknown else Bool(sem.like(At(row, column), arg.s))
    case OneOf(column, args) => Any(sem, At(row, column), args)
    case Never => False
  }

  // parts joined with AND; no clause at all is true.
  function EvalAll(sem: Semantics, row: Row, parts: seq<Cond<Val>>): Truth {
    if |parts| == 0 then True else And(EvalAll(sem, row, parts[..|parts| - 1]), Eval(sem, row, parts[|parts| - 1]))
  }

  // What the filter asks of a row, without SQL and operator by operator.
  predicate Holds(sem: Semantics, str: Val -> string, row: Row, f: Filter) {
    var v, words := At(row, f.column), if f.value.Null? then "" else str(f.value);
    match f.operator
    case IsNull => v.Null?
    case NotNull => !v.Null?
    case Eq => !v.Null? && !f.value.Null? && sem.compare(EQ, v, f.value)
    case Neq => !v.Null? && !f.value.Null? && sem.compare(NEQ, v, f.value)
    case Lt => !v.Null? && !f.value.Null? && sem.compare(LT, v, f.value)
    case Lte => !v.Null? && !f.value.Null? && sem.compare(LTE, v, f.value)
    case Gt => !v.Null? && !f.value.Null? && sem.compare(GT, v, f.value)
    case Gte => !v.Null? && !f.value.Null? && sem.compare(GTE, v, f.value)
    case Contains => !v.Null? && sem.like(v, "%" + words + "%")
    case StartsWith => !v.Null? && sem.like(v, words + "%")
    case EndsWith => !v.Null? && sem.like(v, "%" + words)
    case In =>
      && !v.Null? && f.value.List?
      && exists i :: 0 <= i < |f.value.items| && !f.value.items[i].Null? && sem.compare(EQ, v, f.value.items[i])
    case Other(_) => false
  }

  lemma {:induction false} AnyIs(sem: Semantics, a: Val, items: seq<Val>)
    ensures Any(sem, a, items).True? <==>
            !a.Null? && exists i :: 0 <= i < |items| && !items[i].Null? && sem.compare(EQ, a, items[i])
  {
    if |items| > 0 {
      AnyIs(sem, a, items[1..]);
      if i :| 0 <= i < |items| - 1 && !items[1..][i].Null? && sem.compare(EQ, a, items[1..][i]) {
        assert items[i + 1] == items[1..][i];
      }
      if i :| 0 < i < |items| && !items[i].Null? && sem.compare(EQ, a, items[i]) {
        assert items[1..][i - 1] == items[i];
      }
    }
  }

  lemma OneKeepsMeaning(sem: Semantics, str: Val -> string, row: Row, f: Filter, idx: nat)
    requires BuildOne(str, f, idx).Ok?
    ensures var one := BuildOne(str, f, idx).value;
            && |Args(one.cond)| == |one.params|
            && (Eval(sem, row, Fill(one.cond, one.params)).True? <==> Holds(sem, str, row, f))
  {
    AnyIs(sem, At(row, f.column), Items(f.value));
  }

  lemma PushBinds(b: Built, part: Part)
    requires |Holes(b.parts)| == |b.params| && |Args(part.cond)| == |part.params|
    ensures var whole := Push(b, part);
            && |Holes(whole.parts)| == |whole.params|
            && ByPosition(whole.parts, whole.params) == ByPosition(b.parts, b.params) + [Fill(part.cond, part.params)]
  {
    var whole := Push(b, part);
    assert whole.parts[..|b.parts|] == b.parts && whole.params[..|b.params|] == b.params;
    assert whole.params[|b.params|..] == part.params;
  }

  lemma PushEval(sem: Semantics, row: Row, parts: seq<Cond<Val>>, c: Cond<Val>)
    ensures EvalAll(sem, row, parts + [c]).True? <==> EvalAll(sem, row, parts).True? && Eval(sem, row, c).True?
  {
    assert (parts + [c])[..|parts|] == parts;
  }

  // Each part is true of the row exactly when its filter holds.
  ghost predicate MeansWell(one: Builder, sem: Semantics, row: Row, holds: Filter -> bool) {
    forall f, idx :: one(f, idx).Ok? ==>
                       var part := one(f, idx).value;
                       && |Args(part.cond)| == |part.params|
                       && (Eval(sem, row, Fill(part.cond, part.params)).True? <==> holds(f))
  }

  lemma {:induction false} AllMeanWell(one: Builder, sem: Semantics, filters: seq<Filter>, start: nat, row: Row, holds: Filter -> bool)
    requires MeansWell(one, sem, row, holds) && BuildAll(one, filters, start).Ok?
    ensures KeepsExactly(sem, row, BuildAll(one, filters, start).value, filters, holds)
  {
    if |filters| > 0 {
      var init, last := filters[..|filters| - 1], filters[|filters| - 1];
      BuildStep(one, filters, start);
      AllMeanWell(one, sem, init, start, row, holds);
      var b := BuildAll(one, init, start).value;
      PartMeans(one, sem, row, holds, last, start + |b.params|);
      KeepsOneMore(sem, row, b, one(last, start + |b.params|).value, filters, holds);
    }
  }

  lemma PartMeans(one: Builder, sem: Semantics, row: Row, holds: Filter -> bool, f: Filter, idx: nat)
    requires MeansWell(one, sem, row, holds) && one(f, idx).Ok?
    ensures var part := one(f, idx).value;
            |Args(part.cond)| == |part.params| && (Eval(sem, row, Fill(part.cond, part.params)).True? <==> holds(f))
  {
  }

  predicate AllOf(filters: seq<Filter>, holds: Filter -> bool) {
    forall i :: 0 <= i < |filters| ==> holds(filters[i])
  }

  lemma AllOfLast(filters: seq<Filter>, holds: Filter -> bool)
    requires |filters| > 0
    ensures AllOf(filters, holds) <==> AllOf(filters[..|filters| - 1], holds) && holds(filters[|filters| - 1])
  {
    var init := filters[..|filters| - 1];
    assert forall i :: 0 <= i < |init| ==> init[i] == filters[i];
  }

  ghost predicate KeepsExactly(sem: Semantics, row: Row, b: Built, filters: seq<Filter>, holds: Filter -> bool) {
    && |Holes(b.parts)| == |b.params|
    && (EvalAll(sem, row, ByPosition(b.parts, b.params)).True? <==> AllOf(filters, holds))
  }

  lemma KeepsOneMore(sem: Semantics, row: Row, b: Built, part: Part, filters: seq<Filter>, holds: Filter -> bool)
    requires |filters| > 0 && KeepsExactly(sem, row, b, filters[..|filters| - 1], holds)
    requires |Args(part.cond)| == |part.params|
    requires Eval(sem, row, Fill(part.cond, part.params)).True? <==> holds(filters[|filters| - 1])
    ensures KeepsExactly(sem, row, Push(b, part), filters, holds)
  {
    OneMore(sem, row, b, part, holds(filters[|filters| - 1]));
    AllOfLast(filters, holds);
  }

  lemma OneMore(sem: Semantics, row: Row, b: Built, part: Part, holds: bool)
    requires |Holes(b.parts)| == |b.params| && |Args(part.cond)| == |part.params|
    requires Eval(sem, row, Fill(part.cond, part.params)).True? <==> holds
    ensures var whole := Push(b, part);
            && |Holes(whole.parts)| == |whole.params|
            && (EvalAll(sem, row, ByPosition(whole.parts, whole.params)).True?
                <==> EvalAll(sem, row, ByPosition(b.parts, b.params)).True? && holds)
  {
    PushBinds(b, part);
    PushEval(sem, row, ByPosition(b.parts, b.params), Fill(part.cond, part.params));
  }

  lemma PositionalKeepsMeaning(sem: Semantics, str: Val -> string, filters: seq<Filter>, start: nat, row: Row)
    requires Build(str, filters, start).Ok?
    ensures var b := Build(str, filters, start).value;
            && |Holes(b.parts)| == |b.params|
            && (EvalAll(sem, row, ByPosition(b.parts, b.params)).True? <==> AllHold(sem, str, row, filters))
  {
    var holds := (f: Filter) => Holds(sem, str, row, f);
    forall f, idx | OneBy(str)(f, idx).Ok?
      ensures var part := OneBy(str)(f, idx).value;
              && |Args(part.cond)| == |part.params|
              && (Eval(sem, row, Fill(part.cond, part.params)).True? <==> holds(f))
    {
      OneKeepsMeaning(sem, str, row, f, idx);
    }
    AllMeanWell(OneBy(str), sem, filters, start, row, holds);
  }

  predicate AllHold(sem: Semantics, str: Val -> string, row: Row, filters: seq<Filter>) {
    forall i :: 0 <= i < |filters| ==> Holds(sem, str, row, filters[i])
  }

  /** The clause means its filters. Under numbered and under positional engines it
      keeps a row exactly when every filter holds: comparisons and IN lists only
      on values that are there, an empty IN list never. */
  lemma WhereKeepsMeaning(sem: Semantics, str: Val -> string, filters: seq<Filter>, before: seq<Val>, after: seq<Val>, row: Row)
    requires Build(str, filters, |before| + 1).Ok?
    ensures var b := Build(str, filters, |before| + 1).value;
            && |Holes(b.parts)| == |b.params|
            && ByNumber(b.parts, before + b.params + after) == ByPosition(b.parts, b.params)
            && (EvalAll(sem, row, ByPosition(b.parts, b.params)).True? <==> AllHold(sem, str, row, filters))
  {
    PositionalKeepsMeaning(sem, str, filters, |before| + 1, row);
    HolesInOrder(str, filters, |before| + 1);
    BindingsAgree(Build(str, filters, |before| + 1).value.parts, before, Build(str, filters, |before| + 1).value.params, after);
  }

  /* ----- UPDATE and DELETE by identity ----- */

  // A property of a record: a column with its value, or with its placeholder.
  datatype Entry<T> = Entry(column: string, value: T)

  datatype Statement = Statement(sets: seq<Entry<int>>, conditions: seq<Cond<int>>, params: seq<Val>)

  function Values(entries: seq<Entry<Val>>): (r: seq<Val>)
    ensures |r| == |entries| && forall i :: 0 <= i < |r| ==> r[i] == entries[i].value
  {
    seq(|entries|, i requires 0 <= i < |entries| => entries[i].value)
  }

  function Assignments(changes: seq<Entry<Val>>): (r: seq<Entry<int>>)
    ensures |r| == |changes| && forall i :: 0 <= i < |r| ==> r[i] == Entry(changes[i].column, i + 1)
  {
    seq(|changes|, i requires 0 <= i < |changes| => Entry(changes[i].column, i + 1))
  }

  function Identity(identity: seq<Entry<Val>>, first: int): (r: seq<Cond<int>>)
    ensures |r| == |identity| && forall i :: 0 <= i < |r| ==> r[i] == Compare(identity[i].column, EQ, first + i)
  {
    seq(|identity|, i requires 0 <= i < |identity| => Compare(identity[i].column, EQ, first + i))
  }

  function UpdateOf(changes: seq<Entry<Val>>, identity: seq<Entry<Val>>): Result<Statement, string> {
    if |changes| == 0 then Err("No changes provided")
    else if |identity| == 0 then Err("Cannot update a row without a primary key identity")
    else Ok(UpdateStatement(changes, identity))
  }

  function UpdateStatement(changes: seq<Entry<Val>>, identity: seq<Entry<Val>>): Statement {
    Statement(Assignments(changes), Identity(identity, |changes| + 1), Values(changes) + Values(identity))
  }

  method UpdateRow(changes: seq<Entry<Val>>, identity: seq<Entry<Val>>) returns (r: Result<Statement, string>)
    ensures r == UpdateOf(changes, identity)
  {
    if |changes| == 0 { return Err("No changes provided"); }
    if |identity| == 0 { return Err("Cannot update a row without a primary key identity"); }
    var params: seq<Val>, sets: seq<Entry<int>>, conditions: seq<Cond<int>>, idx := [], [], [], 1;
    for i := 0 to |changes|
      invariant idx == i + 1 && params == Values(changes)[..i] && sets == Assignments(changes)[..i]
    {
      params, sets, idx := params + [changes[i].value], sets + [Entry(changes[i].column, idx)], idx + 1;
    }
    for i := 0 to |identity|
      invariant sets == Assignments(changes)
      invariant idx == |changes| + 1 + i && params == Values(changes) + Values(identity)[..i]
      invariant conditions == Identity(identity, |changes| + 1)[..i]
    {
      params, conditions, idx := params + [identity[i].value], conditions + [Compare(identity[i].column, EQ, idx)], idx + 1;
    }
    assert Values(identity)[..|identity|] == Values(identity) && Assignments(changes)[..|changes|] == Assignments(changes);
    assert Identity(identity, |changes| + 1)[..|identity|] == Identity(identity, |changes| + 1);
    r := Ok(Statement(sets, conditions, params));
  }

  function DeleteOf(identity: seq<Entry<Val>>): Result<Statement, string> {
    if |identity| == 0 then Err("Cannot delete a row without a primary key identity")
    else Ok(DeleteStatement(identity))
  }

  function DeleteStatement(identity: seq<Entry<Val>>): Statement {
    Statement([], Identity(identity, 1), Values(identity))
  }

  method DeleteRow(identity: seq<Entry<Val>>) returns (r: Result<Statement, string>)
    ensures r == DeleteOf(identity)
  {
    if |identity| == 0 { return Err("Cannot delete a row without a primary key identity"); }
    var params: seq<Val>, conditions: seq<Cond<int>> := [], [];
    for i := 0 to |identity|
      invariant params == Values(identity)[..i] && conditions == Identity(identity, 1)[..i]
    {
      params, conditions := params + [identity[i].value], conditions + [Compare(identity[i].column, EQ, i + 1)];
    }
    assert Values(identity)[..|identity|] == Values(identity) && Identity(identity, 1)[..|identity|] == Identity(identity, 1);
    r := Ok(Statement([], conditions, params));
  }

  // A statement with its values in place.
  datatype Bound = Bound(sets: seq<Entry<Val>>, conditions: seq<Cond<Val>>)

  function SetByNumber(sets: seq<Entry<int>>, all: seq<Val>): seq<Entry<Val>> {
    seq(|sets|, i requires 0 <= i < |sets| => Entry(sets[i].column, Lookup(all, sets[i].value)))
  }

  function SetByPosition(sets: seq<Entry<int>>, params: seq<Val>): seq<Entry<Val>>
    requires |sets| <= |params|
  {
    seq(|sets|, i requires 0 <= i < |sets| => Entry(sets[i].column, params[i]))
  }

  function BoundByNumber(s: Statement): Bound {
    Bound(SetByNumber(s.sets, s.params), ByNumber(s.conditions, s.params))
  }

  // SET stands before WHERE, so its placeholders take the first parameters.
  function BoundByPosition(s: Statement): Bound
    requires |s.sets| + |Holes(s.conditions)| == |s.params|
  {
    Bound(SetByPosition(s.sets, s.params), ByPosition(s.conditions, s.params[|s.sets|..]))
  }

  function Assign(row: Row, sets: seq<Entry<Val>>): Row {
    if |sets| == 0 then row else Assign(row, sets[..|sets| - 1])[sets[|sets| - 1].column := sets[|sets| - 1].value]
  }

  function Updated(sem: Semantics, row: Row, b: Bound): Row {
    if EvalAll(sem, row, b.conditions).True? then Assign(row, b.sets) else row
  }

  // The row carries the identity; a NULL in either never matches.
  predicate Identifies(sem: Semantics, row: Row, identity: seq<Entry<Val>>) {
    forall i :: 0 <= i < |identity| ==>
                  var v := At(row, identity[i].column);
                  !v.Null? && !identity[i].value.Null? && sem.compare(EQ, v, identity[i].value)
  }

  // The identity as it is tested once bound.
  function Tests(identity: seq<Entry<Val>>): (r: seq<Cond<Val>>)
    ensures |r| == |identity| && forall i :: 0 <= i < |r| ==> r[i] == Compare(identity[i].column, EQ, identity[i].value)
  {
    seq(|identity|, i requires 0 <= i < |identity| => Compare(identity[i].column, EQ, identity[i].value))
  }

  lemma {:induction false} IdentityHoles(identity: seq<Entry<Val>>, first: nat)
    ensures Holes(Identity(identity, first)) == Range(first, |identity|)
  {
    if |identity| > 0 {
      var init := identity[..|identity| - 1];
      IdentityHoles(init, first);
      assert Identity(identity, first)[..|init|] == Identity(init, first);
    }
  }

  lemma IdentityLast(identity: seq<Entry<Val>>, first: nat)
    requires |identity| > 0
    ensures var init, last := identity[..|identity| - 1], identity[|identity| - 1];
            && Identity(identity, first) == Identity(init, first) + [Compare(last.column, EQ, first + |init|)]
            && Values(identity) == Values(init) + [last.value]
            && Tests(identity) == Tests(init) + [Compare(last.column, EQ, last.value)]
  {
  }

  lemma {:induction false} TestsByPosition(identity: seq<Entry<Val>>, first: nat)
    requires |Holes(Identity(identity, first))| == |identity|
    ensures ByPosition(Identity(identity, first), Values(identity)) == Tests(identity)
  {
    if |identity| > 0 {
      var init, last := identity[..|identity| - 1], identity[|identity| - 1];
      IdentityHoles(init, first);
      TestsByPosition(init, first);
      IdentityLast(identity, first);
      PushBinds(Built(Identity(init, first), Values(init)), Part(Compare(last.column, EQ, first + |init|), [last.value]));
    }
  }

  lemma IdentityBinds(identity: seq<Entry<Val>>, before: seq<Val>)
    ensures var parts := Identity(identity, |before| + 1);
            && |Holes(parts)| == |identity|
            && ByPosition(parts, Values(identity)) == Tests(identity)
            && ByNumber(parts, before + Values(identity)) == Tests(identity)
  {
    IdentityHoles(identity, |before| + 1);
    TestsByPosition(identity, |before| + 1);
    BindingsAgree(Identity(identity, |before| + 1), before, Values(identity), []);
    assert before + Values(identity) + [] == before + Values(identity);
  }

  lemma {:induction false} TestsMean(sem: Semantics, row: Row, identity: seq<Entry<Val>>)
    ensures EvalAll(sem, row, Tests(identity)).True? <==> Identifies(sem, row, identity)
  {
    if |identity| > 0 {
      var init, last := identity[..|identity| - 1], identity[|identity| - 1];
      TestsMean(sem, row, init);
      assert Tests(identity) == Tests(init) + [Compare(last.column, EQ, last.value)];
      PushEval(sem, row, Tests(init), Compare(last.column, EQ, last.value));
      EntryMeans(sem, row, last);
      IdentifiesLast(sem, row, identity);
    }
  }

  lemma EntryMeans(sem: Semantics, row: Row, entry: Entry<Val>)
    ensures Eval(sem, row, Compare(entry.column, EQ, entry.value)).True? <==> Identifies(sem, row, [entry])
  {
    assert [entry][0] == entry;
  }

  lemma IdentifiesLast(sem: Semantics, row: Row, identity: seq<Entry<Val>>)
    requires |identity| > 0
    ensures Identifies(sem, row, identity) <==>
            Identifies(sem, row, identity[..|identity| - 1]) && Identifies(sem, row, [identity[|identity| - 1]])
  {
    var init, last := identity[..|identity| - 1], [identity[|identity| - 1]];
    assert forall i :: 0 <= i < |init| ==> init[i] == identity[i];
    if Identifies(sem, row, init) && Identifies(sem, row, last) {
      forall i | 0 <= i < |identity|
        ensures var v := At(row, identity[i].column); !v.Null? && !identity[i].value.Null? && sem.compare(EQ, v, identity[i].value)
      {
        if i < |init| { assert identity[i] == init[i]; } else { assert identity[i] == last[0]; }
      }
    }
    if Identifies(sem, row, identity) {
      assert last[0] == identity[|identity| - 1];
    }
  }

  lemma SetsBind(changes: seq<Entry<Val>>, more: seq<Val>)
    ensures SetByNumber(Assignments(changes), Values(changes) + more) == changes
    ensures SetByPosition(Assignments(changes), Values(changes) + more) == changes
  {
  }

  // Numbered and positional engines both take the statement for `b`.
  ghost predicate BindsTo(s: Statement, b: Bound) {
    && |s.sets| + |Holes(s.conditions)| == |s.params|
    && BoundByNumber(s) == b
    && BoundByPosition(s) == b
  }

  lemma BoundTogether(sets: seq<Entry<int>>, bound: seq<Entry<Val>>, before: seq<Val>, all: seq<Val>, identity: seq<Entry<Val>>)
    requires |sets| == |before| && all == before + Values(identity)
    requires SetByNumber(sets, all) == bound && SetByPosition(sets, all) == bound
    ensures BindsTo(Statement(sets, Identity(identity, |before| + 1), all), Bound(bound, Tests(identity)))
  {
    IdentityBinds(identity, before);
    assert all[|before|..] == Values(identity);
  }

  lemma UpdateBinds(changes: seq<Entry<Val>>, identity: seq<Entry<Val>>)
    ensures BindsTo(UpdateStatement(changes, identity), Bound(changes, Tests(identity)))
  {
    SetsBind(changes, Values(identity));
    BoundTogether(Assignments(changes), changes, Values(changes), Values(changes) + Values(identity), identity);
  }

  lemma DeleteBinds(identity: seq<Entry<Val>>)
    ensures BindsTo(DeleteStatement(identity), Bound([], Tests(identity)))
  {
    NoSetsBind([], [], [], identity);
  }

  lemma NoSetsBind(sets: seq<Entry<int>>, bound: seq<Entry<Val>>, before: seq<Val>, identity: seq<Entry<Val>>)
    requires |sets| == |bound| == |before| == 0
    ensures BindsTo(Statement(sets, Identity(identity, 1), Values(identity)), Bound(bound, Tests(identity)))
  {
    assert before + Values(identity) == Values(identity);
    BoundTogether(sets, bound, before, Values(identity), identity);
  }

  lemma UpdatesOn(sem: Semantics, row: Row, b: Bound, condition: bool)
    requires EvalAll(sem, row, b.conditions).True? <==> condition
    ensures Updated(sem, row, b) == if condition then Assign(row, b.sets) else row
  {
  }

  /** An UPDATE means its arguments: numbered and positional engines bind the same
      statement, each change in its own column, and it changes a row exactly when
      the row carries the identity. */
  lemma UpdateKeepsMeaning(sem: Semantics, row: Row, changes: seq<Entry<Val>>, identity: seq<Entry<Val>>)
    ensures BindsTo(UpdateStatement(changes, identity), Bound(changes, Tests(identity)))
    ensures Updated(sem, row, Bound(changes, Tests(identity))) == if Identifies(sem, row, identity) then Assign(row, changes) else row
  {
    UpdateBinds(changes, identity);
    TestsMean(sem, row, identity);
    UpdatesOn(sem, row, Bound(changes, Tests(identity)), Identifies(sem, row, identity));
  }

  /** A DELETE removes exactly the rows that carry the identity. */
  lemma DeleteKeepsMeaning(sem: Semantics, row: Row, identity: seq<Entry<Val>>)
    ensures BindsTo(DeleteStatement(identity), Bound([], Tests(identity)))
    ensures EvalAll(sem, row, Tests(identity)).True? <==> Identifies(sem, row, identity)
  {
    DeleteBinds(identity);
    TestsMean(sem, row, identity);
  }
}
