/** The database adapter as an in-memory table: filter strings, conjunctive queries and upserts. */
module Table {
  import opened Common
  import opened State

  /** A stored value; the status column holds one of the enumeration's values. */
  datatype Cell = Text(s: string) | Number(n: int) | Enum(status: SignupStatus) | Null

  datatype Column =
    | Id | Status | ContactEmail | ContactName | ContactPhone | SessionId | RescueAttempts | CheckoutLink
    | LinkSentAt | CompletedAt | ExpiresAt | CreatedAt | Other(name: string)

  type Row = map<Column, Cell>

  predicate Holds(row: Row, col: Column, cell: Cell) {
    col in row && row[col] == cell
  }

  // ----- Filter strings -----

  datatype Filter =
    | Eq(v: string) | Neq(v: string) | Gte(v: string) | Lte(v: string) | In(vs: seq<string>)
    | NoFilter

  /** Index of the first `c` in `s`, or its length. */
  function Find(s: string, c: char): (i: nat)
    ensures i <= |s| && (i < |s| ==> s[i] == c) && forall j :: 0 <= j < i ==> s[j] != c
  {
    if s == "" || s[0] == c then 0 else 1 + Find(s[1..], c)
  }

  predicate IsParen(c: char) {
    c == '(' || c == ')'
  }

  /** `s.strip("()")`. */
  function Strip(s: string): string {
    if s != "" && IsParen(s[0]) then Strip(s[1..])
    else if s != "" && IsParen(s[|s| - 1]) then Strip(s[..|s| - 1])
    else s
  }

  /** `s.split(",")`: always at least one part. */
  function Split(s: string): seq<string> {
    var i := Find(s, ',');
    if i == |s| then [s] else [s[..i]] + Split(s[i + 1..])
  }

  /** A filter with a dot is an operator and a value, split at the first dot; an operator the adapter
      does not know adds no filter. A filter without a dot is an equality. */
  function ParseFilter(val: string): Filter {
    var i := Find(val, '.');
    if i == |val| then Eq(val)
    else
      var op, v := val[..i], val[i + 1..];
      if op == "eq" then Eq(v)
      else if op == "gte" then Gte(v)
      else if op == "lte" then Lte(v)
      else if op == "neq" then Neq(v)
      else if op == "in" then In(Split(Strip(v)))
      else NoFilter
  }

  lemma FindAfterPrefix(prefix: string, c: char, v: string)
    requires c !in prefix
    ensures Find(prefix + [c] + v, c) == |prefix|
  {
    var s := prefix + [c] + v;
    assert s[|prefix|] == c;
    assert forall j :: 0 <= j < |prefix| ==> s[j] == prefix[j];
  }

  /** An operator, a dot and a value are parsed back as that operator on exactly that value; an operator
      the adapter does not know adds no filter. */
  lemma OperatorRoundTrip(op: string, v: string)
    requires '.' !in op
    ensures
      var f := ParseFilter(op + "." + v);
      && (op == "eq" ==> f == Eq(v)) && (op == "neq" ==> f == Neq(v))
      && (op == "gte" ==> f == Gte(v)) && (op == "lte" ==> f == Lte(v))
      && (op == "in" ==> f == In(Split(Strip(v))))
      && (op !in {"eq", "neq", "gte", "lte", "in"} ==> f == NoFilter)
  {
    FindAfterPrefix(op, '.', v);
    var s := op + ['.'] + v;
    assert s == op + "." + v;
    assert s[..|op|] == op && s[|op| + 1..] == v;
  }

  /** Every value written behind "eq." is parsed back as equality with exactly that value. */
  lemma EqRoundTrip(v: string)
    ensures ParseFilter("eq." + v) == Eq(v)
  {
    OperatorRoundTrip("eq", v);
    assert "eq" + "." == "eq.";
  }

  /** The other comparisons likewise. */
  lemma ComparisonRoundTrip(v: string)
    ensures ParseFilter("gte." + v) == Gte(v) && ParseFilter("lte." + v) == Lte(v) && ParseFilter("neq." + v) == Neq(v)
  {
    OperatorRoundTrip("gte", v);
    OperatorRoundTrip("lte", v);
    OperatorRoundTrip("neq", v);
    assert "gte" + "." == "gte." && "lte" + "." == "lte." && "neq" + "." == "neq.";
  }

  /** A bare value works as an equality filter if and only if it contains no dot. */
  lemma BareValueIsEquality(v: string)
    ensures ParseFilter(v) == Eq(v) <==> '.' !in v
  {
    var i := Find(v, '.');
    if i < |v| {
      assert v[i] == '.';
      assert |v[i + 1..]| < |v|;
    }
  }

  function Join(vs: seq<string>): string
    requires vs != []
  {
    if |vs| == 1 then vs[0] else vs[0] + "," + Join(vs[1..])
  }

  /** No comma and no parenthesis. */
  predicate Plain(v: string) {
    forall i :: 0 <= i < |v| ==> v[i] != ',' && !IsParen(v[i])
  }

  lemma SplitOne(v: string, rest: string)
    requires ',' !in v
    ensures Split(v + "," + rest) == [v] + Split(rest)
  {
    var s := v + [','] + rest;
    FindAfterPrefix(v, ',', rest);
    assert s[..|v|] == v && s[|v| + 1..] == rest;
  }

  lemma NoParenJoin(v: string, rest: string)
    requires Plain(v) && forall i :: 0 <= i < |rest| ==> !IsParen(rest[i])
    ensures forall i :: 0 <= i < |v + "," + rest| ==> !IsParen((v + "," + rest)[i])
  {
  }

  lemma {:induction false} SplitJoin(vs: seq<string>)
    requires vs != [] && forall i :: 0 <= i < |vs| ==> Plain(vs[i])
    ensures Split(Join(vs)) == vs && forall i :: 0 <= i < |Join(vs)| ==> !IsParen(Join(vs)[i])
  {
    assert ',' !in vs[0];
    if |vs| > 1 {
      SplitJoin(vs[1..]);
      SplitOne(vs[0], Join(vs[1..]));
      NoParenJoin(vs[0], Join(vs[1..]));
    }
  }

  lemma ParseIn(v: string)
    ensures ParseFilter("in." + v) == In(Split(Strip(v)))
  {
    OperatorRoundTrip("in", v);
    assert "in" + "." == "in.";
  }

  /** A trailing parenthesis goes once no leading one is left. */
  lemma StripLast(t: string)
    requires t != "" && !IsParen(t[0]) && IsParen(t[|t| - 1])
    ensures Strip(t) == Strip(t[..|t| - 1])
  {
  }

  lemma StripNothing(j: string)
    requires j != "" ==> !IsParen(j[0]) && !IsParen(j[|j| - 1])
    ensures Strip(j) == j
  {
  }

  lemma StripLeft(c: char, t: string)
    requires IsParen(c)
    ensures Strip([c] + t) == Strip(t)
  {
    assert ([c] + t)[1..] == t;
  }

  lemma StripRight(j: string)
    requires forall i :: 0 <= i < |j| ==> !IsParen(j[i])
    ensures Strip(j + [')']) == j
  {
    var t := j + [')'];
    StripNothing(j);
    if j == "" {
      assert t == [')'] + "";
      StripLeft(')', "");
    } else {
      assert t[0] == j[0] && t[|t| - 1] == ')' && t[..|t| - 1] == j;
      StripLast(t);
    }
  }

  lemma StripPair(j: string)
    requires forall i :: 0 <= i < |j| ==> !IsParen(j[i])
    ensures Strip(['('] + j + [')']) == j
  {
    StripRight(j);
    StripLeft('(', j + [')']);
    assert ['('] + j + [')'] == ['('] + (j + [')']);
  }

  /** A nonempty list of plain values written as "in.(a,b,...)" is parsed back as that list. */
  lemma InRoundTrip(vs: seq<string>)
    requires vs != [] && forall i :: 0 <= i < |vs| ==> Plain(vs[i])
    ensures ParseFilter("in." + (['('] + Join(vs) + [')'])) == In(vs)
  {
    var j := Join(vs);
    SplitJoin(vs);
    ParseIn(['('] + j + [')']);
    StripPair(j);
  }

  // ----- Queries -----

  /** How the database compares stored text with a bound. */
  type Order = (string, string) -> bool

  /** A null or missing value satisfies no comparison. */
  predicate Matches(row: Row, col: Column, f: Filter, le: Order) {
    f.NoFilter?
    || (col in row && row[col].Text?
        && match f
           case Eq(v) => row[col].s == v
           case Neq(v) => row[col].s != v
           case Gte(v) => le(v, row[col].s)
           case Lte(v) => le(row[col].s, v)
           case In(vs) => row[col].s in vs
           case NoFilter => true)
  }

  datatype Condition = Condition(col: Column, val: string)

  predicate MatchesAll(row: Row, conds: seq<Condition>, le: Order) {
    forall i :: 0 <= i < |conds| ==> Matches(row, conds[i].col, ParseFilter(conds[i].val), le)
  }

  /** Which rows a filter string keeps: those whose column holds a text that compares as the operator says. */
  lemma FilterExactly(row: Row, col: Column, t: string, v: string, vs: seq<string>, le: Order)
    requires Holds(row, col, Text(t)) && vs != [] && forall i :: 0 <= i < |vs| ==> Plain(vs[i])
    ensures Matches(row, col, ParseFilter("eq." + v), le) <==> t == v
    ensures Matches(row, col, ParseFilter("neq." + v), le) <==> t != v
    ensures Matches(row, col, ParseFilter("gte." + v), le) <==> le(v, t)
    ensures Matches(row, col, ParseFilter("lte." + v), le) <==> le(t, v)
    ensures Matches(row, col, ParseFilter("in." + (['('] + Join(vs) + [')'])), le) <==> t in vs
  {
    hide ParseFilter, Join;
    EqRoundTrip(v);
    ComparisonRoundTrip(v);
    InRoundTrip(vs);
  }

  /** A row without a text in the column is kept by no filter, except one the adapter does not know. */
  lemma NoTextNoMatch(row: Row, col: Column, f: Filter, le: Order)
    requires forall t :: !Holds(row, col, Text(t))
    ensures Matches(row, col, f, le) <==> f == NoFilter
  {
    if col in row && row[col].Text? {
      assert Holds(row, col, Text(row[col].s));
    }
  }

  /** The rows that satisfy every condition, in table order. */
  function Select(rows: seq<Row>, conds: seq<Condition>, le: Order): seq<Row> {
    if rows == [] then []
    else (if MatchesAll(rows[0], conds, le) then [rows[0]] else []) + Select(rows[1..], conds, le)
  }

  function Keep(rows: seq<Row>, col: Column, f: Filter, le: Order): seq<Row> {
    if rows == [] then []
    else (if Matches(rows[0], col, f, le) then [rows[0]] else []) + Keep(rows[1..], col, f, le)
  }

  lemma {:induction false} SelectNone(rows: seq<Row>, le: Order)
    ensures Select(rows, [], le) == rows
  {
    if rows != [] {
      SelectNone(rows[1..], le);
    }
  }

  lemma MatchesOneMore(row: Row, conds: seq<Condition>, c: Condition, le: Order)
    ensures MatchesAll(row, conds + [c], le)
       <==> MatchesAll(row, conds, le) && Matches(row, c.col, ParseFilter(c.val), le)
  {
    assert (conds + [c])[|conds|] == c;
    assert forall i :: 0 <= i < |conds| ==> (conds + [c])[i] == conds[i];
  }

  /** Narrowing the query by one more filter is selecting by the conjunction. */
  lemma {:induction false} KeepIsConjunction(rows: seq<Row>, conds: seq<Condition>, c: Condition, le: Order)
    ensures Keep(Select(rows, conds, le), c.col, ParseFilter(c.val), le) == Select(rows, conds + [c], le)
  {
    if rows != [] {
      KeepIsConjunction(rows[1..], conds, c, le);
      MatchesOneMore(rows[0], conds, c, le);
      var rest := Select(rows[1..], conds, le);
      if MatchesAll(rows[0], conds, le) {
        assert ([rows[0]] + rest)[1..] == rest;
      } else {
        assert [] + rest == rest;
      }
    }
  }

  /** One more turn of the loop over the filters. */
  lemma QueryStep(rows: seq<Row>, conds: seq<Condition>, i: nat, le: Order)
    requires i < |conds|
    ensures Keep(Select(rows, conds[..i], le), conds[i].col, ParseFilter(conds[i].val), le)
         == Select(rows, conds[..i + 1], le)
  {
    hide Select, Keep, ParseFilter;
    KeepIsConjunction(rows, conds[..i], conds[i], le);
    assert conds[..i] + [conds[i]] == conds[..i + 1];
  }

  // ----- Upserts -----

  /** Index of the first row holding `cell` in `col`. */
  function First(rows: seq<Row>, col: Column, cell: Cell): (r: Option<nat>)
    ensures r.Some? ==> r.value < |rows| && Holds(rows[r.value], col, cell)
                        && forall j :: 0 <= j < r.value ==> !Holds(rows[j], col, cell)
    ensures r.None? ==> forall j :: 0 <= j < |rows| ==> !Holds(rows[j], col, cell)
  {
    if rows == [] then None
    else if Holds(rows[0], col, cell) then Some(0)
    else match First(rows[1..], col, cell) case Some(i) => Some(i + 1) case None => None
  }

  /** Merge into the row with the same id, or append; a row without an id gets a fresh one. */
  function Upserted(rows: seq<Row>, data: Row, newId: string): seq<Row> {
    if Id !in data then rows + [data[Id := Text(newId)]]
    else
      match First(rows, Id, data[Id])
      case Some(i) => rows[i := rows[i] + data]
      case None => rows + [data]
  }

  /** `after` is `row` with the columns of `data` written over it. */
  predicate Overwritten(row: Row, data: Row, after: Row) {
    && after.Keys == row.Keys + data.Keys
    && (forall col :: col in data ==> after[col] == data[col])
    && (forall col :: col in row && col !in data ==> after[col] == row[col])
  }

  /** An upsert without an id appends the data under the new one; with an id it overwrites the columns of
      the first row that has it, or appends the data when there is none. */
  lemma UpsertExactly(rows: seq<Row>, data: Row, newId: string, i: nat)
    ensures Id !in data ==>
      Upserted(rows, data, newId) == rows + [data + map[Id := Text(newId)]]
    ensures Id in data && (forall j :: 0 <= j < |rows| ==> !Holds(rows[j], Id, data[Id])) ==>
      Upserted(rows, data, newId) == rows + [data]
    ensures
      Id in data && i < |rows| && Holds(rows[i], Id, data[Id])
      && (forall j :: 0 <= j < i ==> !Holds(rows[j], Id, data[Id])) ==>
        var after := Upserted(rows, data, newId);
        && |after| == |rows| && (forall j :: 0 <= j < |rows| && j != i ==> after[j] == rows[j])
        && Overwritten(rows[i], data, after[i])
  {
    assert data[Id := Text(newId)] == data + map[Id := Text(newId)];
    if Id in data && i < |rows| && Holds(rows[i], Id, data[Id])
       && forall j :: 0 <= j < i ==> !Holds(rows[j], Id, data[Id]) {
      assert First(rows, Id, data[Id]) == Some(i);
    }
  }

  class DbTable {
    const stub: bool
    const le: Order
    var rows: seq<Row>

    constructor (stub: bool, le: Order, rows: seq<Row>)
      ensures this.stub == stub && this.le == le && this.rows == rows
    {
      this.stub, this.le, this.rows := stub, le, rows;
    }

    /** `query`: a stub and a failed read both look like an empty table. */
    method Query(conds: seq<Condition>, readOk: bool) returns (result: seq<Row>)
      ensures result == if stub || !readOk then [] else Select(rows, conds, le)
    {
      if stub || !readOk {
        return [];
      }
      var q := rows;
      SelectNone(rows, le);
      assert conds[..0] == [];
      for i := 0 to |conds|
        invariant q == Select(rows, conds[..i], le)
      {
        QueryStep(rows, conds, i, le);
        q := Keep(q, conds[i].col, ParseFilter(conds[i].val), le);
      }
      assert conds[..|conds|] == conds;
      return q;
    }

    /** `upsert`: a failed write raises and changes nothing. */
    method Upsert(data: Row, writeOk: bool, newId: string) returns (r: Result<Row, ()>)
      modifies this
      ensures stub ==> rows == old(rows) && r == Ok(data)
      ensures !stub && !writeOk ==> rows == old(rows) && r.Err?
      ensures !stub && writeOk ==> rows == Upserted(old(rows), data, newId) && r.Ok?
      ensures !stub && writeOk && Id !in data ==> r == Ok(data[Id := Text(newId)])
    {
      if stub {
        return Ok(data);
      }
      if !writeOk {
        return Err(());
      }
      if Id in data {
        var i := First(rows, Id, data[Id]);
        if i.Some? {
          rows := rows[i.value := rows[i.value] + data];
          return Ok(rows[i.value]);
        }
        rows := rows + [data];
        return Ok(data);
      }
      var stored := data[Id := Text(newId)];
      rows := rows + [stored];
      return Ok(stored);
    }
  }
}
