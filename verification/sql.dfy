/** The part of a parameterised SELECT that the controllers build step by
    step: optional filter conditions `AND <column> <op> $k`, a fixed ORDER BY,
    and optionally `LIMIT $m OFFSET $n`, together with the params array that
    is sent beside the text. The SQL text itself is abstracted to this
    structure; what it means is given by Selects, which reads each
    placeholder's value out of params. */
module Sql {
  import opened Common

  /** A bound parameter value. */
  datatype Value = Text(s: string) | Int(n: int)

  /** The columns the builders filter on. */
  datatype Column = StatusCol | PriorityCol | ServiceCol | RatingCol | DeptCol

  datatype Op = Eq | AtLeast | AtMost

  /** ` AND <col> <op> $<slot>` (or ` WHERE ...` for the first condition). */
  datatype Cond = Cond(col: Column, op: Op, slot: nat)

  /** The placeholders of `LIMIT $limitSlot OFFSET $offsetSlot`. */
  datatype Paging = Paging(limitSlot: nat, offsetSlot: nat)

  /** The fixed ORDER BY clauses the builders append. */
  datatype Order =
    | Unordered
    | PriorityThenNewest   // CASE priority high, medium, low; then submitted_at DESC
    | Newest               // submitted_at DESC
    | DeptThenService      // dept_name, service_name

  datatype Select = Select(conds: seq<Cond>, order: Order, paging: Option<Paging>)

  /** The placeholder numbers in the order they appear in the text. */
  function Slots(q: Select): seq<nat> {
    seq(|q.conds|, i requires 0 <= i < |q.conds| => q.conds[i].slot)
      + (if q.paging.Some? then [q.paging.value.limitSlot, q.paging.value.offsetSlot] else [])
  }

  /** The text's placeholders are $1, $2, ... in order and params holds
      exactly one value per placeholder, which is what PostgreSQL needs to
      bind the statement. */
  predicate WellNumbered(q: Select, params: seq<Value>) {
    |Slots(q)| == |params| && forall i :: 0 <= i < |Slots(q)| ==> Slots(q)[i] == i + 1
  }

  // ---------------------------------------------------------------------
  // Meaning of a statement
  // ---------------------------------------------------------------------

  /** A row seen through its columns; None for a column the table lacks. */
  type Row = Column -> Option<Value>

  predicate Compare(v: Option<Value>, op: Op, p: Value) {
    match op
    case Eq => v == Some(p)
    case AtLeast => v.Some? && v.value.Int? && p.Int? && v.value.n >= p.n
    case AtMost => v.Some? && v.value.Int? && p.Int? && v.value.n <= p.n
  }

  /** A condition holds of a row when its placeholder names a parameter and
      the row's column compares as required with that parameter. */
  predicate CondHolds(c: Cond, params: seq<Value>, row: Row) {
    1 <= c.slot <= |params| && Compare(row(c.col), c.op, params[c.slot - 1])
  }

  /** The WHERE clause of q, with params bound, keeps the row. */
  predicate Selects(q: Select, params: seq<Value>, row: Row) {
    forall i :: 0 <= i < |q.conds| ==> CondHolds(q.conds[i], params, row)
  }

  // ---------------------------------------------------------------------
  // What a builder is meant to produce
  // ---------------------------------------------------------------------

  /** A filter the caller asked for: column, comparison and value. */
  datatype Filter = Filter(col: Column, op: Op, value: Value)

  /** The row passes every filter. */
  predicate Satisfies(fs: seq<Filter>, row: Row) {
    forall i :: 0 <= i < |fs| ==> Compare(row(fs[i].col), fs[i].op, fs[i].value)
  }

  /** The LIMIT and OFFSET values. */
  datatype Page = Page(limit: Value, offset: Value)

  /** One condition per filter, numbered from `first` on. */
  function CompileConds(fs: seq<Filter>, first: nat): seq<Cond> {
    if fs == [] then []
    else [Cond(fs[0].col, fs[0].op, first)] + CompileConds(fs[1..], first + 1)
  }

  function Values(fs: seq<Filter>): seq<Value> {
    if fs == [] then [] else [fs[0].value] + Values(fs[1..])
  }

  /** The statement and params a builder should produce for these filters:
      conditions numbered $1..$n in filter order, params the filter values in
      the same order, then LIMIT $(n+1) OFFSET $(n+2) and their values. */
  function Compile(fs: seq<Filter>, order: Order, page: Option<Page>): (Select, seq<Value>) {
    var n := |fs|;
    (Select(CompileConds(fs, 1), order, if page.Some? then Some(Paging(n + 1, n + 2)) else None),
     Values(fs) + (if page.Some? then [page.value.limit, page.value.offset] else []))
  }

  lemma {:induction false} CompiledCondAt(fs: seq<Filter>, first: nat, i: nat)
    requires i < |fs|
    ensures |CompileConds(fs, first)| == |fs|
    ensures CompileConds(fs, first)[i] == Cond(fs[i].col, fs[i].op, first + i)
  {
    if i > 0 {
      CompiledCondAt(fs[1..], first + 1, i - 1);
    } else {
      CompiledLength(fs[1..], first + 1);
    }
  }

  lemma {:induction false} CompiledLength(fs: seq<Filter>, first: nat)
    ensures |CompileConds(fs, first)| == |fs| && |Values(fs)| == |fs|
  {
    if fs != [] {
      CompiledLength(fs[1..], first + 1);
    }
  }

  lemma {:induction false} ValueAt(fs: seq<Filter>, i: nat)
    requires i < |fs|
    ensures |Values(fs)| == |fs| && Values(fs)[i] == fs[i].value
  {
    CompiledLength(fs, 1);
    if i > 0 {
      ValueAt(fs[1..], i - 1);
    }
  }

  /** Adding one more filter appends one condition numbered after the others
      and one parameter: the step `paramCount++; text += ...; params.push(v)`. */
  lemma {:induction false} CompileSnoc(fs: seq<Filter>, f: Filter, first: nat)
    ensures CompileConds(fs + [f], first) == CompileConds(fs, first) + [Cond(f.col, f.op, first + |fs|)]
    ensures Values(fs + [f]) == Values(fs) + [f.value]
  {
    if fs == [] {
      assert [] + [f] == [f];
    } else {
      assert (fs + [f])[1..] == fs[1..] + [f];
      CompileSnoc(fs[1..], f, first + 1);
    }
  }

  /** A compiled statement can be bound: its placeholders count up from $1
      and the params array is exactly as long as the highest placeholder. */
  lemma CompileWellNumbered(fs: seq<Filter>, order: Order, page: Option<Page>)
    ensures WellNumbered(Compile(fs, order, page).0, Compile(fs, order, page).1)
  {
    var (q, params) := Compile(fs, order, page);
    CompiledLength(fs, 1);
    forall i | 0 <= i < |fs|
      ensures Slots(q)[i] == i + 1
    {
      CompiledCondAt(fs, 1, i);
    }
  }

  /** The k-th placeholder refers to the k-th pushed parameter: with the
      params bound, a compiled statement keeps exactly the rows that pass
      every filter; its LIMIT and OFFSET slots hold the page values. */
  lemma CompileMeaning(fs: seq<Filter>, order: Order, page: Option<Page>, row: Row)
    ensures Selects(Compile(fs, order, page).0, Compile(fs, order, page).1, row) <==> Satisfies(fs, row)
    ensures page.Some? ==>
              var (q, params) := Compile(fs, order, page);
              q.paging.Some? &&
              1 <= q.paging.value.limitSlot <= |params| && params[q.paging.value.limitSlot - 1] == page.value.limit &&
              1 <= q.paging.value.offsetSlot <= |params| && params[q.paging.value.offsetSlot - 1] == page.value.offset
    ensures page.None? ==> Compile(fs, order, page).0.paging.None?
  {
    var (q, params) := Compile(fs, order, page);
    CompiledLength(fs, 1);
    forall i | 0 <= i < |fs|
      ensures q.conds[i] == Cond(fs[i].col, fs[i].op, i + 1)
      ensures params[i] == fs[i].value
    {
      CompiledCondAt(fs, 1, i);
      ValueAt(fs, i);
    }
  }

  /** Satisfying a concatenation of filter lists is satisfying both. */
  lemma SatisfiesConcat(a: seq<Filter>, b: seq<Filter>, row: Row)
    ensures Satisfies(a + b, row) <==> Satisfies(a, row) && Satisfies(b, row)
  {
    if Satisfies(a, row) && Satisfies(b, row) {
      forall i | 0 <= i < |a + b|
        ensures Compare(row((a + b)[i].col), (a + b)[i].op, (a + b)[i].value)
      {
        if i >= |a| {
          assert (a + b)[i] == b[i - |a|];
        }
      }
    }
    if Satisfies(a + b, row) {
      forall i | 0 <= i < |a|
        ensures Compare(row(a[i].col), a[i].op, a[i].value)
      {
        assert (a + b)[i] == a[i];
      }
      forall i | 0 <= i < |b|
        ensures Compare(row(b[i].col), b[i].op, b[i].value)
      {
        assert (a + b)[|a| + i] == b[i];
      }
    }
  }

  /** One step of a builder: `paramCount++`, append ` AND <col> <op>
      $${paramCount}` to the text, and push the value. The ghost list fs
      records the filters applied so far. */
  method PushFilter(conds: seq<Cond>, params: seq<Value>, paramCount: nat, ghost fs: seq<Filter>, f: Filter)
    returns (conds': seq<Cond>, params': seq<Value>, paramCount': nat)
    requires conds == CompileConds(fs, 1) && params == Values(fs) && paramCount == |fs|
    ensures conds' == CompileConds(fs + [f], 1) && params' == Values(fs + [f]) && paramCount' == |fs + [f]|
  {
    paramCount' := paramCount + 1;
    conds' := conds + [Cond(f.col, f.op, paramCount')];
    params' := params + [f.value];
    CompileSnoc(fs, f, 1);
  }
}
