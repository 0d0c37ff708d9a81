/** Generating the database contract from the exports of the schema module. */
module DbContract {
  import opened JsValues
  import opened Sorting

  datatype Column = Column(name: string, dataType: string, notNull: bool)
  datatype Table = Table(name: string, columns: seq<Column>)

  /** What `Object.values(schema)` holds: tables, and values that are not tables. */
  datatype Export = NotTable | Defines(schema: Option<string>, name: string, columns: seq<Column>)

  datatype Failure = UnsupportedSchema(schema: string, name: string) | ConflictingDefinitions(name: string)
  datatype Outcome = Contract(tables: seq<Table>) | Threw(failure: Failure)

  /** `localeCompare(a, b) <= 0`. */
  type NameOrder = (string, string) -> bool

  ghost predicate TotalOrder(le: NameOrder) {
    TotalPreorder(le) && forall a, b :: le(a, b) && le(b, a) ==> a == b
  }

  function ByName(le: NameOrder): (Table, Table) -> bool {
    (a: Table, b: Table) => le(a.name, b.name)
  }

  function ByColumnName(le: NameOrder): (Column, Column) -> bool {
    (a: Column, b: Column) => le(a.name, b.name)
  }

  predicate Unsupported(e: Export) {
    e.Defines? && e.schema.Some? && e.schema.value != "" && e.schema.value != "public"
  }

  /** The table an export defines, columns in order. */
  function TableOf(e: Export, le: NameOrder): Table
    requires e.Defines?
  {
    Table(e.name, Sort(e.columns, ByColumnName(le)))
  }

  /** The insertion-ordered `Map` of tables, or the exception that ended the loop. */
  datatype Collected = Tables(order: seq<string>, byName: map<string, Table>) | Stopped(failure: Failure)

  function Collect1(c: Collected, e: Export, le: NameOrder): Collected {
    if c.Stopped? || e.NotTable? then c
    else if Unsupported(e) then Stopped(UnsupportedSchema(e.schema.value, e.name))
    else if e.name in c.byName then
      (if c.byName[e.name] != TableOf(e, le) then Stopped(ConflictingDefinitions(e.name)) else c)
    else Tables(c.order + [e.name], c.byName[e.name := TableOf(e, le)])
  }

  function Collect(exports: seq<Export>, le: NameOrder): Collected {
    if exports == [] then Tables([], map[])
    else Collect1(Collect(exports[..|exports| - 1], le), exports[|exports| - 1], le)
  }

  ghost predicate OrderMatches(c: Collected) {
    c.Tables? ==>
      && (forall i :: 0 <= i < |c.order| ==> c.order[i] in c.byName)
      && (forall name :: name in c.byName ==> name in c.order)
      && (forall i, j :: 0 <= i < j < |c.order| ==> c.order[i] != c.order[j])
      && (forall name :: name in c.byName ==> c.byName[name].name == name)
  }

  function Values(order: seq<string>, byName: map<string, Table>): seq<Table>
    requires forall i :: 0 <= i < |order| ==> order[i] in byName
  {
    seq(|order|, i requires 0 <= i < |order| => byName[order[i]])
  }

  // ---- Success and failure ----

  predicate SameNameDiffers(a: Export, b: Export, le: NameOrder) {
    a.Defines? && b.Defines? && a.name == b.name && TableOf(a, le) != TableOf(b, le)
  }

  /** Nothing unsupported, and no table name defined in two ways. */
  ghost predicate Consistent(exports: seq<Export>, le: NameOrder) {
    && (forall e :: e in exports ==> !Unsupported(e))
    && (forall a, b :: a in exports && b in exports ==> !SameNameDiffers(a, b, le))
  }

  /** The tables collected are those the exports define. */
  ghost predicate Holds(c: Collected, exports: seq<Export>, le: NameOrder)
    requires c.Tables?
  {
    && (forall e :: e in exports && e.Defines? ==> e.name in c.byName && c.byName[e.name] == TableOf(e, le))
    && (forall name :: name in c.byName ==> exists e :: e in exports && e.Defines? && e.name == name)
  }

  /** What the loop has collected says whether the exports so far are consistent, and what they define. */
  ghost predicate Collects(c: Collected, exports: seq<Export>, le: NameOrder) {
    && OrderMatches(c)
    && (c.Tables? <==> Consistent(exports, le))
    && (c.Tables? ==> Holds(c, exports, le))
  }

  lemma KeepsOrder(c: Collected, last: Export, le: NameOrder)
    requires OrderMatches(c)
    ensures OrderMatches(Collect1(c, last, le))
  {
  }

  lemma KeepsMembers(c: Collected, exports: seq<Export>, last: Export, le: NameOrder)
    requires c.Tables? && Holds(c, exports, le) && Collect1(c, last, le).Tables?
    ensures Holds(Collect1(c, last, le), exports + [last], le)
  {
    var all, after := exports + [last], Collect1(c, last, le);
    forall name | name in after.byName ensures exists e :: e in all && e.Defines? && e.name == name {
      if name in c.byName {
        var e :| e in exports && e.Defines? && e.name == name;
        assert e in all;
      } else {
        assert last in all;
      }
    }
  }

  /** Tables held for all exports leave no room for a second definition. */
  lemma HoldsAgrees(c: Collected, exports: seq<Export>, le: NameOrder)
    requires c.Tables? && Holds(c, exports, le) && (forall e :: e in exports ==> !Unsupported(e))
    ensures Consistent(exports, le)
  {
  }

  lemma CollectsNext(c: Collected, exports: seq<Export>, last: Export, le: NameOrder)
    requires Collects(c, exports, le)
    ensures Collects(Collect1(c, last, le), exports + [last], le)
  {
    var all, after := exports + [last], Collect1(c, last, le);
    KeepsOrder(c, last, le);
    if c.Stopped? {
      InconsistencyStays(exports, last, le);
    } else if after.Tables? {
      KeepsMembers(c, exports, last, le);
      HoldsAgrees(after, all, le);
    } else if Unsupported(last) {
      assert last in all;
    } else {
      var e :| e in exports && e.Defines? && e.name == last.name;
      assert SameNameDiffers(e, last, le) && e in all && last in all;
    }
  }

  lemma InconsistencyStays(exports: seq<Export>, last: Export, le: NameOrder)
    requires !Consistent(exports, le)
    ensures !Consistent(exports + [last], le)
  {
    assert forall e :: e in exports ==> e in exports + [last];
  }

  lemma {:induction false} CollectExact(exports: seq<Export>, le: NameOrder)
    ensures Collects(Collect(exports, le), exports, le)
  {
    if exports != [] {
      var init, last := exports[..|exports| - 1], exports[|exports| - 1];
      CollectExact(init, le);
      CollectsNext(Collect(init, le), init, last, le);
      assert exports == init + [last];
    }
  }

  function Generate(exports: seq<Export>, le: NameOrder): Outcome
  {
    CollectExact(exports, le);
    var c := Collect(exports, le);
    if c.Stopped? then Threw(c.failure) else Contract(Sort(Values(c.order, c.byName), ByName(le)))
  }

  /** Entry names are strictly increasing, hence distinct. */
  ghost predicate StrictlySorted(tables: seq<Table>, le: NameOrder) {
    forall i, j :: 0 <= i < j < |tables| ==> le(tables[i].name, tables[j].name) && tables[i].name != tables[j].name
  }

  lemma ValuesMembers(order: seq<string>, byName: map<string, Table>)
    requires OrderMatches(Tables(order, byName))
    ensures var vs := Values(order, byName);
      && (forall t: Table :: t in vs <==> t.name in byName && byName[t.name] == t)
      && (forall i, j :: 0 <= i < j < |vs| ==> vs[i].name != vs[j].name)
  {
    forall t: Table | t.name in byName && byName[t.name] == t ensures t in Values(order, byName) {
      var i :| 0 <= i < |order| && order[i] == t.name;
      assert Values(order, byName)[i] == t;
    }
  }

  /** A sequence with distinct members has each of them once. */
  lemma {:induction false} DistinctCounts(ts: seq<Table>, t: Table)
    requires forall i, j :: 0 <= i < j < |ts| ==> ts[i].name != ts[j].name
    ensures multiset(ts)[t] == if t in ts then 1 else 0
  {
    if ts != [] {
      assert ts == [ts[0]] + ts[1..];
      DistinctCounts(ts[1..], t);
    }
  }

  lemma OrdersArePreorders(le: NameOrder)
    requires TotalOrder(le)
    ensures TotalPreorder(ByName(le)) && TotalPreorder(ByColumnName(le))
  {
    var tables, columns := ByName(le), ByColumnName(le);
    forall a, b ensures tables(a, b) || tables(b, a) {
      assert le(a.name, b.name) || le(b.name, a.name);
    }
    forall a, b, c | tables(a, b) && tables(b, c) ensures tables(a, c) {
      assert le(a.name, b.name) && le(b.name, c.name);
    }
    forall a, b ensures columns(a, b) || columns(b, a) {
      assert le(a.name, b.name) || le(b.name, a.name);
    }
    forall a, b, c | columns(a, b) && columns(b, c) ensures columns(a, c) {
      assert le(a.name, b.name) && le(b.name, c.name);
    }
  }

  /** Generation succeeds exactly when the exports are consistent; then there is one entry per table name, sorted. */
  lemma GenerateExact(exports: seq<Export>, le: NameOrder)
    requires TotalOrder(le)
    ensures Generate(exports, le).Contract? <==> Consistent(exports, le)
    ensures var r := Generate(exports, le); r.Contract? ==>
      && StrictlySorted(r.tables, le)
      && (forall t :: t in r.tables <==> exists e :: e in exports && e.Defines? && TableOf(e, le) == t)
  {
    CollectExact(exports, le);
    var c := Collect(exports, le);
    if c.Tables? {
      var vs := Values(c.order, c.byName);
      var ts := Sort(vs, ByName(le));
      ValuesMembers(c.order, c.byName);
      OrdersArePreorders(le);
      SortPermutes(vs, ByName(le));
      SortSorts(vs, ByName(le));
      SortedTables(vs, ts, le);
      forall t ensures t in ts <==> exists e :: e in exports && e.Defines? && TableOf(e, le) == t {
        assert t in ts <==> t in multiset(ts);
        assert t in vs <==> t in multiset(vs);
        if t in vs {
          var e :| e in exports && e.Defines? && e.name == t.name;
          assert TableOf(e, le) == t;
        }
      }
    }
  }

  /** Sorting the columns of a table loses, adds and changes none. */
  lemma TableHasColumns(e: Export, le: NameOrder)
    requires TotalOrder(le) && e.Defines?
    ensures var t := TableOf(e, le);
      && t.name == e.name && multiset(t.columns) == multiset(e.columns)
      && forall i, j :: 0 <= i < j < |t.columns| ==> le(t.columns[i].name, t.columns[j].name)
  {
    OrdersArePreorders(le);
    SortPermutes(e.columns, ByColumnName(le));
    SortSorts(e.columns, ByColumnName(le));
    var columns := Sort(e.columns, ByColumnName(le));
    forall i, j | 0 <= i < j < |columns| ensures le(columns[i].name, columns[j].name) {
      assert ByColumnName(le)(columns[i], columns[j]);
    }
  }

  /** The contract entry of an exported table: its name, and all its columns by name. */
  predicate EntryOf(t: Table, e: Export, le: NameOrder) {
    && e.Defines? && t.name == e.name && multiset(t.columns) == multiset(e.columns)
    && forall i, j :: 0 <= i < j < |t.columns| ==> le(t.columns[i].name, t.columns[j].name)
  }

  lemma TableIsEntry(e: Export, le: NameOrder)
    requires TotalOrder(le) && e.Defines?
    ensures EntryOf(TableOf(e, le), e, le)
  {
    TableHasColumns(e, le);
  }

  /** Each exported table has an entry with all its columns, and there is no other entry. */
  ghost predicate Complete(tables: seq<Table>, exports: seq<Export>, le: NameOrder) {
    && (forall e :: e in exports && e.Defines? ==> exists t :: t in tables && EntryOf(t, e, le))
    && (forall t :: t in tables ==> exists e :: e in exports && EntryOf(t, e, le))
  }

  lemma EntriesMatch(exports: seq<Export>, tables: seq<Table>, le: NameOrder)
    requires TotalOrder(le)
    requires forall t :: t in tables <==> exists e :: e in exports && e.Defines? && TableOf(e, le) == t
    ensures Complete(tables, exports, le)
  {
    forall e | e in exports && e.Defines? ensures exists t :: t in tables && EntryOf(t, e, le) {
      TableIsEntry(e, le);
    }
    forall t | t in tables ensures exists e :: e in exports && EntryOf(t, e, le) {
      var e :| e in exports && e.Defines? && TableOf(e, le) == t;
      TableIsEntry(e, le);
    }
  }

  lemma ContractIsComplete(exports: seq<Export>, r: Outcome, le: NameOrder)
    requires TotalOrder(le) && r == Generate(exports, le) && r.Contract?
    ensures Complete(r.tables, exports, le)
  {
    GenerateExact(exports, le);
    EntriesMatch(exports, r.tables, le);
  }

  // ---- Which exception ----

  predicate DistinctColumns(e: Export) {
    e.Defines? ==> forall c, d :: c in e.columns && d in e.columns && c.name == d.name ==> c == d
  }

  /** Two exports of one name whose columns are not the same, in whatever order. */
  predicate Conflict(a: Export, b: Export) {
    a.Defines? && b.Defines? && a.name == b.name && multiset(a.columns) != multiset(b.columns)
  }

  /** Whether two definitions differ does not depend on the order in which they list their columns. */
  lemma ConflictExact(a: Export, b: Export, le: NameOrder)
    requires TotalOrder(le) && DistinctColumns(a)
    ensures SameNameDiffers(a, b, le) <==> Conflict(a, b)
  {
    if a.Defines? && b.Defines? && a.name == b.name {
      TableHasColumns(a, le);
      TableHasColumns(b, le);
      if multiset(a.columns) == multiset(b.columns) {
        OrdersArePreorders(le);
        SortIgnoresEnumeration(a.columns, b.columns, ByColumnName(le));
      }
    }
  }

  /** A table of a schema other than the default one. */
  predicate InOtherSchema(e: Export) {
    e.Defines? && e.schema.Some? && e.schema.value != "" && e.schema.value != "public"
  }

  /** The export at which generation stops, and what it throws there. */
  ghost predicate StopsAt(exports: seq<Export>, n: nat, failure: Failure) {
    && n < |exports|
    && (forall i :: 0 <= i < n ==> !InOtherSchema(exports[i]))
    && (forall i, j :: 0 <= i < j < n ==> !Conflict(exports[i], exports[j]))
    && (if InOtherSchema(exports[n]) then failure == UnsupportedSchema(exports[n].schema.value, exports[n].name)
        else (exists i :: 0 <= i < n && Conflict(exports[i], exports[n]))
             && failure == ConflictingDefinitions(exports[n].name))
  }

  predicate AllDistinctColumns(exports: seq<Export>) {
    forall e :: e in exports ==> DistinctColumns(e)
  }

  lemma ConsistentExact(exports: seq<Export>, le: NameOrder)
    requires TotalOrder(le) && AllDistinctColumns(exports)
    ensures Consistent(exports, le) <==>
      && (forall i :: 0 <= i < |exports| ==> !InOtherSchema(exports[i]))
      && (forall i, j :: 0 <= i < j < |exports| ==> !Conflict(exports[i], exports[j]))
  {
    forall a, b | a in exports && b in exports ensures SameNameDiffers(a, b, le) <==> Conflict(a, b) {
      ConflictExact(a, b, le);
    }
    if i :| 0 <= i < |exports| && InOtherSchema(exports[i]) {
      assert Unsupported(exports[i]);
    }
    if i, j :| 0 <= i < j < |exports| && Conflict(exports[i], exports[j]) {
      assert SameNameDiffers(exports[i], exports[j], le);
    }
  }

  lemma PrefixIsConsistent(exports: seq<Export>, n: nat, le: NameOrder)
    requires TotalOrder(le) && AllDistinctColumns(exports) && n < |exports|
    ensures Collect(exports[..n], le).Tables? <==>
      && (forall i :: 0 <= i < n ==> !InOtherSchema(exports[i]))
      && (forall i, j :: 0 <= i < j < n ==> !Conflict(exports[i], exports[j]))
  {
    var before := exports[..n];
    ConsistentExact(before, le);
    CollectExact(before, le);
    assert forall i :: 0 <= i < n ==> before[i] == exports[i];
  }

  lemma StopExact(exports: seq<Export>, n: nat, failure: Failure, le: NameOrder)
    requires TotalOrder(le) && AllDistinctColumns(exports) && n < |exports|
    ensures StopsAt(exports, n, failure) <==>
      Collect(exports[..n], le).Tables? && Collect(exports[..n + 1], le) == Stopped(failure)
  {
    var before, last := exports[..n], exports[n];
    var c := Collect(before, le);
    PrefixIsConsistent(exports, n, le);
    assert exports[..n + 1][..n] == before && exports[..n + 1][n] == last;
    assert Collect(exports[..n + 1], le) == Collect1(c, last, le);
    if c.Tables? && last.Defines? {
      CollectExact(before, le);
      LastConflictExact(c, before, last, le);
      assert forall i :: 0 <= i < n ==> before[i] == exports[i];
    }
  }

  lemma LastConflictExact(c: Collected, before: seq<Export>, last: Export, le: NameOrder)
    requires TotalOrder(le) && AllDistinctColumns(before) && last.Defines? && c.Tables? && Collects(c, before, le)
    ensures last.name in c.byName && c.byName[last.name] != TableOf(last, le) <==>
      exists i :: 0 <= i < |before| && Conflict(before[i], last)
  {
    forall i | 0 <= i < |before| ensures SameNameDiffers(before[i], last, le) <==> Conflict(before[i], last) {
      ConflictExact(before[i], last, le);
    }
    if last.name in c.byName {
      var e :| e in before && e.Defines? && e.name == last.name;
      var i :| 0 <= i < |before| && before[i] == e;
      assert c.byName[last.name] == TableOf(e, le);
      assert SameNameDiffers(before[i], last, le) <==> c.byName[last.name] != TableOf(last, le);
    }
  }

  lemma {:induction false} SomethingStops(exports: seq<Export>, n: nat, le: NameOrder) returns (k: nat)
    requires n <= |exports| && Collect(exports[..n], le).Stopped?
    ensures k < n && Collect(exports[..k], le).Tables? && Collect(exports[..k + 1], le).Stopped?
  {
    k := n - 1;
    assert exports[..n][..n - 1] == exports[..n - 1];
    if Collect(exports[..n - 1], le).Stopped? {
      k := SomethingStops(exports, n - 1, le);
    }
  }

  /**
   * Generation throws at the first export that is in another schema, or whose columns differ from those of an earlier
   * export of its name, whatever order they are listed in; and it says so.
   */
  lemma FailureExact(exports: seq<Export>, failure: Failure, le: NameOrder)
    requires TotalOrder(le) && AllDistinctColumns(exports)
    ensures Generate(exports, le) == Threw(failure) <==> exists n :: StopsAt(exports, n, failure)
  {
    StoppedIsThrown(exports, failure, le);
    if Collect(exports, le) == Stopped(failure) {
      assert exports[..|exports|] == exports;
      var k := SomethingStops(exports, |exports|, le);
      StoppedStays(exports, k + 1, le);
      StopExact(exports, k, failure, le);
    }
    forall n: nat | StopsAt(exports, n, failure) ensures Collect(exports, le) == Stopped(failure) {
      StopExact(exports, n, failure, le);
      StoppedStays(exports, n + 1, le);
    }
  }

  /** A conflict is what is thrown even if a table of another schema comes after it. */
  lemma ConflictComesFirst(le: NameOrder, t: string, u: string, column: Column)
    requires TotalOrder(le)
    ensures var exports := [Defines(None, t, []), Defines(None, t, [column]), Defines(Some("audit"), u, [])];
      Generate(exports, le) == Threw(ConflictingDefinitions(t)) && InOtherSchema(exports[2])
  {
    var exports := [Defines(None, t, []), Defines(None, t, [column]), Defines(Some("audit"), u, [])];
    assert "audit"[0] == 'a' && "public"[0] == 'p';
    assert multiset([column])[column] == 1 && multiset(exports[0].columns)[column] == 0;
    assert Conflict(exports[0], exports[1]);
    assert StopsAt(exports, 1, ConflictingDefinitions(t));
    FailureExact(exports, ConflictingDefinitions(t), le);
  }

  lemma StoppedIsThrown(exports: seq<Export>, failure: Failure, le: NameOrder)
    ensures Generate(exports, le) == Threw(failure) <==> Collect(exports, le) == Stopped(failure)
  {
    CollectExact(exports, le);
  }

  lemma SortedTables(vs: seq<Table>, ts: seq<Table>, le: NameOrder)
    requires multiset(vs) == multiset(ts) && Sorted(ts, ByName(le))
    requires forall i, j :: 0 <= i < j < |vs| ==> vs[i].name != vs[j].name
    ensures StrictlySorted(ts, le)
  {
    forall i, j | 0 <= i < j < |ts| ensures le(ts[i].name, ts[j].name) && ts[i].name != ts[j].name {
      assert ByName(le)(ts[i], ts[j]);
      if ts[i].name == ts[j].name {
        assert ts[i] in multiset(vs) && ts[j] in multiset(vs);
        var a :| 0 <= a < |vs| && vs[a] == ts[i];
        var b :| 0 <= b < |vs| && vs[b] == ts[j];
        assert a == b;
        TwoOccurrences(ts, i, j);
        DistinctCounts(vs, ts[i]);
      }
    }
  }

  lemma TwoOccurrences(ts: seq<Table>, i: nat, j: nat)
    requires i < j < |ts| && ts[i] == ts[j]
    ensures multiset(ts)[ts[i]] >= 2
  {
    assert ts == ts[..i] + [ts[i]] + ts[i + 1..j] + [ts[j]] + ts[j + 1..];
  }

  // ---- Enumeration order ----

  /** The same exports in any order, and repeated any number of times. */
  ghost predicate SameExports(xs: seq<Export>, ys: seq<Export>) {
    forall e :: e in xs <==> e in ys
  }

  /** The outcome does not depend on the order in which the schema module enumerates its exports. */
  lemma GenerateIgnoresEnumeration(xs: seq<Export>, ys: seq<Export>, le: NameOrder)
    requires TotalOrder(le) && SameExports(xs, ys)
    ensures Generate(xs, le).Contract? <==> Generate(ys, le).Contract?
    ensures Generate(xs, le).Contract? ==> Generate(xs, le) == Generate(ys, le)
  {
    GenerateExact(xs, le);
    GenerateExact(ys, le);
    if Generate(xs, le).Contract? {
      var s, t := Generate(xs, le).tables, Generate(ys, le).tables;
      OrdersArePreorders(le);
      forall x ensures multiset(s)[x] == multiset(t)[x] {
        DistinctCounts(s, x);
        DistinctCounts(t, x);
        assert x in s <==> x in t by {
          if x in s {
            var e :| e in xs && e.Defines? && TableOf(e, le) == x;
            assert e in ys;
          }
          if x in t {
            var e :| e in ys && e.Defines? && TableOf(e, le) == x;
            assert e in xs;
          }
        }
      }
      assert ToldApart(s, ByName(le)) by {
        forall a, b | a in s && b in s && le(a.name, b.name) && le(b.name, a.name) ensures a == b {
          var i :| 0 <= i < |s| && s[i] == a;
          var j :| 0 <= j < |s| && s[j] == b;
        }
      }
      assert Sorted(s, ByName(le)) && Sorted(t, ByName(le));
      assert multiset(s) == multiset(t);
      SortedIsUnique(s, t, ByName(le));
    }
  }

  /** Two definitions that list the same distinctly named columns in different orders do not conflict. */
  lemma ColumnOrderIsIrrelevant(name: string, a: seq<Column>, b: seq<Column>, le: NameOrder)
    requires TotalOrder(le) && multiset(a) == multiset(b)
    requires forall c, d :: c in a && d in a && c.name == d.name ==> c == d
    ensures !SameNameDiffers(Defines(None, name, a), Defines(None, name, b), le)
  {
    OrdersArePreorders(le);
    SortIgnoresEnumeration(a, b, ByColumnName(le));
  }

  /** The script's loop over a map, then its sort. */
  method GenerateDbContract(exports: seq<Export>, le: NameOrder) returns (r: Outcome)
    ensures r == Generate(exports, le)
  {
    var order: seq<string>, tablesByName: map<string, Table> := [], map[];
    for i := 0 to |exports|
      invariant Collect(exports[..i], le) == Tables(order, tablesByName)
    {
      var e := exports[i];
      assert exports[..i + 1][..i] == exports[..i];
      if e.NotTable? {
        continue;
      }
      if Unsupported(e) {
        StoppedStays(exports, i + 1, le);
        CollectExact(exports, le);
        return Threw(UnsupportedSchema(e.schema.value, e.name));
      }
      var table := TableOf(e, le);
      if e.name in tablesByName && tablesByName[e.name] != table {
        StoppedStays(exports, i + 1, le);
        CollectExact(exports, le);
        return Threw(ConflictingDefinitions(table.name));
      }
      if e.name !in tablesByName {
        order := order + [e.name];
      }
      tablesByName := tablesByName[e.name := table];
    }
    assert exports[..|exports|] == exports;
    CollectExact(exports, le);
    return Contract(Sort(Values(order, tablesByName), ByName(le)));
  }

  lemma StoppedStays(exports: seq<Export>, n: nat, le: NameOrder)
    requires n <= |exports| && Collect(exports[..n], le).Stopped?
    ensures Collect(exports, le) == Collect(exports[..n], le)
    decreases |exports| - n
  {
    if n == |exports| {
      assert exports[..n] == exports;
    } else {
      assert exports[..n + 1][..n] == exports[..n];
      StoppedStays(exports, n + 1, le);
    }
  }
}
