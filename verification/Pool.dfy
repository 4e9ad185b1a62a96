/** Collapsing the persona cluster rows into records, and narrowing them by genes and clusters. */
module Pool {
  import opened Text
  import opened Sorting

  datatype Row = Row(model: string, persona: string, gene: int, cluster: int)

  datatype Record = Record(model: string, persona: string, geneClusters: map<int, set<int>>)

  predicate Holds(record: Record, gene: int, cluster: int) {
    gene in record.geneClusters && cluster in record.geneClusters[gene]
  }

  const NUL: char := '\0'

  function PairKey(model: string, persona: string): string {
    model + [NUL] + persona
  }

  function Key(row: Row): string {
    PairKey(row.model, row.persona)
  }

  // ----- collapsing -----

  /** The records found so far, by key, and the keys in the order they were found. */
  datatype Found = Found(order: seq<string>, byPair: map<string, Record>)

  function AddRow(found: Found, row: Row): Found {
    var key := Key(row);
    var record := if key in found.byPair then found.byPair[key] else Record(row.model, row.persona, map[]);
    var clusters := if row.gene in record.geneClusters then record.geneClusters[row.gene] else {};
    var updated := record.(geneClusters := record.geneClusters[row.gene := clusters + {row.cluster}]);
    Found(if key in found.byPair then found.order else found.order + [key], found.byPair[key := updated])
  }

  function Collapsed(rows: seq<Row>): Found {
    if rows == [] then Found([], map[]) else AddRow(Collapsed(rows[..|rows| - 1]), rows[|rows| - 1])
  }

  function Records(found: Found): seq<Record>
    requires forall k :: 0 <= k < |found.order| ==> found.order[k] in found.byPair
  {
    seq(|found.order|, k requires 0 <= k < |found.order| => found.byPair[found.order[k]])
  }

  /** Some row has this key and this pair of gene and cluster. */
  ghost predicate RowWith(rows: seq<Row>, key: string, gene: int, cluster: int) {
    exists k :: 0 <= k < |rows| && Key(rows[k]) == key && rows[k].gene == gene && rows[k].cluster == cluster
  }

  /** The position of the first row with a key. */
  function FirstRow(rows: seq<Row>, key: string): (k: nat)
    ensures k <= |rows|
    ensures k < |rows| ==> Key(rows[k]) == key
    ensures forall m :: 0 <= m < k ==> Key(rows[m]) != key
  {
    if rows == [] || Key(rows[0]) == key then 0 else 1 + FirstRow(rows[1..], key)
  }

  lemma FirstRowIs(rows: seq<Row>, key: string, k: nat)
    requires k <= |rows| && (k < |rows| ==> Key(rows[k]) == key)
    requires forall m :: 0 <= m < k ==> Key(rows[m]) != key
    ensures FirstRow(rows, key) == k
  {
  }

  /** One key per entry, in the order of first rows. */
  ghost predicate InOrder(found: Found, rows: seq<Row>) {
    && (forall k :: 0 <= k < |found.order| ==> found.order[k] in found.byPair)
    && (forall key :: key in found.byPair <==> FirstRow(rows, key) < |rows|)
    && (forall key :: key in found.byPair ==> key in found.order)
    && (forall j, k :: 0 <= j < k < |found.order| ==>
        FirstRow(rows, found.order[j]) < FirstRow(rows, found.order[k]))
  }

  /** The record of a key is named like the first row of the key and holds just the pairs of its rows. */
  ghost predicate Entry(record: Record, rows: seq<Row>, key: string) {
    && FirstRow(rows, key) < |rows|
    && record.model == rows[FirstRow(rows, key)].model && record.persona == rows[FirstRow(rows, key)].persona
    && (forall gene, cluster :: Holds(record, gene, cluster) <==> RowWith(rows, key, gene, cluster))
    && (forall gene :: gene in record.geneClusters ==> record.geneClusters[gene] != {})
  }

  ghost predicate Exact(found: Found, rows: seq<Row>) {
    && InOrder(found, rows)
    && forall key :: key in found.byPair ==> Entry(found.byPair[key], rows, key)
  }

  lemma FirstRowAppend(rows: seq<Row>, row: Row, key: string)
    ensures
      FirstRow(rows + [row], key)
      == if FirstRow(rows, key) < |rows| then FirstRow(rows, key) else if Key(row) == key then |rows| else |rows| + 1
  {
    var k := FirstRow(rows, key);
    if k < |rows| {
      FirstRowIs(rows + [row], key, k);
    } else if Key(row) == key {
      FirstRowIs(rows + [row], key, |rows|);
    } else {
      FirstRowIs(rows + [row], key, |rows| + 1);
    }
  }

  lemma RowWithAppend(rows: seq<Row>, row: Row, key: string, gene: int, cluster: int)
    ensures
      RowWith(rows + [row], key, gene, cluster)
      <==> RowWith(rows, key, gene, cluster) || (Key(row) == key && row.gene == gene && row.cluster == cluster)
  {
    var all := rows + [row];
    if RowWith(rows, key, gene, cluster) {
      var k :| 0 <= k < |rows| && Key(rows[k]) == key && rows[k].gene == gene && rows[k].cluster == cluster;
      assert all[k] == rows[k];
    }
    assert all[|rows|] == row;
  }

  lemma AddRowKeys(found: Found, rows: seq<Row>, row: Row, key: string)
    requires InOrder(found, rows)
    ensures key in AddRow(found, row).byPair <==> FirstRow(rows + [row], key) < |rows + [row]|
    ensures key in AddRow(found, row).byPair ==> key in AddRow(found, row).order
  {
    FirstRowAppend(rows, row, key);
    if key !in found.byPair && key == Key(row) {
      assert AddRow(found, row).order[|found.order|] == key;
    }
  }

  lemma AddRowOrder(found: Found, rows: seq<Row>, row: Row, j: nat, k: nat)
    requires InOrder(found, rows) && j < k < |AddRow(found, row).order|
    ensures
      var order := AddRow(found, row).order;
      FirstRow(rows + [row], order[j]) < FirstRow(rows + [row], order[k])
  {
    var order := AddRow(found, row).order;
    assert order[j] == found.order[j] && order[j] in found.byPair;
    FirstRowAppend(rows, row, order[j]);
    FirstRowAppend(rows, row, order[k]);
    if k < |found.order| {
      assert order[k] == found.order[k];
    }
  }

  lemma AddRowInOrder(found: Found, rows: seq<Row>, row: Row)
    requires InOrder(found, rows)
    ensures InOrder(AddRow(found, row), rows + [row])
  {
    var after, all := AddRow(found, row), rows + [row];
    forall key
      ensures key in after.byPair <==> FirstRow(all, key) < |all|
      ensures key in after.byPair ==> key in after.order
    {
      AddRowKeys(found, rows, row, key);
    }
    forall j, k | 0 <= j < k < |after.order| ensures FirstRow(all, after.order[j]) < FirstRow(all, after.order[k]) {
      AddRowOrder(found, rows, row, j, k);
    }
  }

  lemma OtherEntry(record: Record, rows: seq<Row>, row: Row, key: string)
    requires Entry(record, rows, key) && Key(row) != key
    ensures Entry(record, rows + [row], key)
  {
    FirstRowAppend(rows, row, key);
    forall gene, cluster ensures Holds(record, gene, cluster) <==> RowWith(rows + [row], key, gene, cluster) {
      RowWithAppend(rows, row, key, gene, cluster);
    }
  }

  lemma AddRowEntry(found: Found, rows: seq<Row>, row: Row)
    requires Exact(found, rows)
    ensures Entry(AddRow(found, row).byPair[Key(row)], rows + [row], Key(row))
  {
    var key := Key(row);
    var record := AddRow(found, row).byPair[key];
    FirstRowAppend(rows, row, key);
    forall gene, cluster ensures Holds(record, gene, cluster) <==> RowWith(rows + [row], key, gene, cluster) {
      RowWithAppend(rows, row, key, gene, cluster);
      if key in found.byPair {
        assert Holds(found.byPair[key], gene, cluster) <==> RowWith(rows, key, gene, cluster);
      }
    }
  }

  lemma AddRowExact(found: Found, rows: seq<Row>, row: Row)
    requires Exact(found, rows)
    ensures Exact(AddRow(found, row), rows + [row])
  {
    AddRowInOrder(found, rows, row);
    AddRowEntry(found, rows, row);
    forall key | key in found.byPair && key != Key(row) ensures Entry(found.byPair[key], rows + [row], key) {
      OtherEntry(found.byPair[key], rows, row, key);
    }
  }

  lemma {:induction false} CollapsedExact(rows: seq<Row>)
    ensures Exact(Collapsed(rows), rows)
  {
    if rows != [] {
      var front, row := rows[..|rows| - 1], rows[|rows| - 1];
      assert front + [row] == rows;
      CollapsedExact(front);
      AddRowExact(Collapsed(front), front, row);
    }
  }

  /** Rows with one joined key have one model and one persona. */
  ghost predicate KeysSeparate(rows: seq<Row>) {
    forall j, k :: 0 <= j < |rows| && 0 <= k < |rows| && Key(rows[j]) == Key(rows[k]) ==>
      rows[j].model == rows[k].model && rows[j].persona == rows[k].persona
  }

  /** A record with the row's model and persona holds the row's gene and cluster. */
  ghost predicate Kept(found: Found, row: Row) {
    exists key :: key in found.byPair
      && found.byPair[key].model == row.model && found.byPair[key].persona == row.persona
      && Holds(found.byPair[key], row.gene, row.cluster)
  }

  lemma KeptIsRow(rows: seq<Row>, row: Row)
    requires KeysSeparate(rows)
    ensures Kept(Collapsed(rows), row) <==> row in rows
  {
    var found := Collapsed(rows);
    CollapsedExact(rows);
    if Kept(found, row) {
      var key :| key in found.byPair
        && found.byPair[key].model == row.model && found.byPair[key].persona == row.persona
        && Holds(found.byPair[key], row.gene, row.cluster);
      assert Entry(found.byPair[key], rows, key);
      assert RowWith(rows, key, row.gene, row.cluster);
      var k :| 0 <= k < |rows| && Key(rows[k]) == key && rows[k].gene == row.gene && rows[k].cluster == row.cluster;
      assert rows[k].model == row.model && rows[k].persona == row.persona;
    }
    if row in rows {
      var k :| 0 <= k < |rows| && rows[k] == row;
      assert FirstRow(rows, Key(row)) <= k;
      assert Key(row) in found.byPair && Entry(found.byPair[Key(row)], rows, Key(row));
      assert RowWith(rows, Key(row), row.gene, row.cluster);
    }
  }

  /** Two rows with one key but different names: the one that is not named like the first row is lost. */
  lemma CollisionLoses(rows: seq<Row>, j: nat, k: nat)
    requires j < |rows| && k < |rows| && Key(rows[j]) == Key(rows[k])
    requires rows[j].model != rows[k].model || rows[j].persona != rows[k].persona
    ensures !Kept(Collapsed(rows), rows[j]) || !Kept(Collapsed(rows), rows[k])
  {
    CollapsedExact(rows);
    LostUnlessFirst(rows, j);
    LostUnlessFirst(rows, k);
  }

  lemma LostUnlessFirst(rows: seq<Row>, j: nat)
    requires j < |rows| && FirstRow(rows, Key(rows[j])) < |rows|
    ensures
      var first := rows[FirstRow(rows, Key(rows[j]))];
      first.model != rows[j].model || first.persona != rows[j].persona ==> !Kept(Collapsed(rows), rows[j])
  {
    var found, row := Collapsed(rows), rows[j];
    CollapsedExact(rows);
    forall key | key in found.byPair && found.byPair[key].model == row.model && found.byPair[key].persona == row.persona
      ensures key == Key(row)
    {
      assert Entry(found.byPair[key], rows, key);
    }
  }

  /**
   * The records hold exactly the rows, one record for each model and persona, if and only if no two rows
   * with different names have the same joined key.
   */
  lemma CollapseExactIff(rows: seq<Row>)
    ensures (forall row :: Kept(Collapsed(rows), row) <==> row in rows) <==> KeysSeparate(rows)
  {
    if KeysSeparate(rows) {
      forall row ensures Kept(Collapsed(rows), row) <==> row in rows {
        KeptIsRow(rows, row);
      }
    } else {
      var j: nat, k: nat :| j < |rows| && k < |rows| && Key(rows[j]) == Key(rows[k])
        && !(rows[j].model == rows[k].model && rows[j].persona == rows[k].persona);
      CollisionLoses(rows, j, k);
      assert rows[j] in rows && rows[k] in rows;
    }
  }

  /** Models without NUL are enough: the first NUL of the key is then the separator. */
  lemma NulFreeSeparates(rows: seq<Row>)
    requires forall k :: 0 <= k < |rows| ==> NUL !in rows[k].model
    ensures KeysSeparate(rows)
  {
    forall j, k | 0 <= j < |rows| && 0 <= k < |rows| && Key(rows[j]) == Key(rows[k])
      ensures rows[j].model == rows[k].model && rows[j].persona == rows[k].persona
    {
      var a, b := rows[j], rows[k];
      IndexBehind(a.model, NUL, a.persona);
      IndexBehind(b.model, NUL, b.persona);
      assert a.model == Key(a)[..|a.model|] && a.persona == Key(a)[|a.model| + 1..];
      assert b.model == Key(b)[..|b.model|] && b.persona == Key(b)[|b.model| + 1..];
    }
  }

  /** With a NUL in a model two different pairs can share one key, and the second row is lost. */
  lemma NulCollides()
    ensures
      var first, second := Row("a", ['b', NUL, 'c'], 1, 1), Row(['a', NUL, 'b'], "c", 2, 2);
      Key(first) == Key(second) && !Kept(Collapsed([first, second]), second)
  {
    var first, second := Row("a", ['b', NUL, 'c'], 1, 1), Row(['a', NUL, 'b'], "c", 2, 2);
    assert Key(first) == ['a', NUL, 'b', NUL, 'c'] == Key(second);
    var rows := [first, second];
    assert rows[0] == first && rows[1] == second;
    FirstRowIs(rows, Key(second), 0);
    LostUnlessFirst(rows, 1);
  }

  method CollapsePoolRows(rows: seq<Row>) returns (records: seq<Record>)
    ensures Exact(Collapsed(rows), rows) && records == Records(Collapsed(rows))
  {
    var found := Found([], map[]);
    for i := 0 to |rows|
      invariant found == Collapsed(rows[..i])
    {
      CollapsedNext(rows, i);
      found := AddRow(found, rows[i]);
    }
    assert rows[..|rows|] == rows;
    CollapsedExact(rows);
    records := ListRecords(found);
  }

  lemma CollapsedNext(rows: seq<Row>, i: nat)
    requires i < |rows|
    ensures Collapsed(rows[..i + 1]) == AddRow(Collapsed(rows[..i]), rows[i])
  {
    assert rows[..i + 1][..i] == rows[..i];
  }

  method ListRecords(found: Found) returns (records: seq<Record>)
    requires forall k :: 0 <= k < |found.order| ==> found.order[k] in found.byPair
    ensures records == Records(found)
  {
    records := [];
    for i := 0 to |found.order|
      invariant records == Records(found)[..i]
    {
      records := records + [found.byPair[found.order[i]]];
    }
  }

  // ----- genes and clusters -----

  /** The genes that some record has and that are not used yet. */
  ghost function UnusedGenes(records: seq<Record>, used: set<int>): set<int> {
    set k, gene | 0 <= k < |records| && gene in records[k].geneClusters && gene !in used :: gene
  }

  ghost function ClustersOf(records: seq<Record>, gene: int): set<int> {
    set k, cluster |
      0 <= k < |records| && gene in records[k].geneClusters && cluster in records[k].geneClusters[gene] :: cluster
  }

  const SMALLER: Order<int> := (a: int, b: int) => a < b

  ghost predicate Lists(s: seq<int>, items: set<int>) {
    forall x :: x in s <==> x in items
  }

  /** A map's keys come in any order; sorting makes the result one and the same. */
  method Sorted(items: set<int>) returns (s: seq<int>)
    ensures Ascending(s, SMALLER) && Lists(s, items)
  {
    s := [];
    var rest := items;
    while rest != {}
      invariant Ascending(s, SMALLER) && rest <= items && forall x :: x in s <==> x in items - rest
      decreases rest
    {
      ghost var some := SomeMember(rest);
      var x :| x in rest;
      forall k | 0 <= k < |s| ensures SMALLER(s[k], x) || SMALLER(x, s[k]) {
        assert s[k] in s;
      }
      s := Insert(s, x, SMALLER);
      rest := rest - {x};
    }
  }

  method AvailableGenes(records: seq<Record>, used: set<int>) returns (genes: seq<int>)
    ensures Ascending(genes, SMALLER) && Lists(genes, UnusedGenes(records, used))
  {
    var seen: set<int> := {};
    for i := 0 to |records|
      invariant seen == UnusedGenes(records[..i], used)
    {
      GenesStep(records, used, i);
      seen := seen + (records[i].geneClusters.Keys - used);
    }
    assert records[..|records|] == records;
    genes := Sorted(seen);
  }

  lemma GenesStep(records: seq<Record>, used: set<int>, i: nat)
    requires i < |records|
    ensures
      UnusedGenes(records[..i + 1], used) == UnusedGenes(records[..i], used) + (records[i].geneClusters.Keys - used)
  {
    var a, b := records[..i + 1], records[..i];
    forall gene
      ensures gene in UnusedGenes(a, used) <==> gene in UnusedGenes(b, used) + (records[i].geneClusters.Keys - used)
    {
      if gene in UnusedGenes(b, used) {
        var k :| 0 <= k < |b| && gene in b[k].geneClusters;
        assert a[k] == b[k];
      }
      if gene in UnusedGenes(a, used) {
        var k :| 0 <= k < |a| && gene in a[k].geneClusters;
        assert k < i ==> a[k] == b[k];
      }
      assert a[i] == records[i];
    }
  }

  method AvailableClusters(records: seq<Record>, gene: int) returns (clusters: seq<int>)
    ensures Ascending(clusters, SMALLER) && Lists(clusters, ClustersOf(records, gene))
  {
    var seen: set<int> := {};
    for i := 0 to |records|
      invariant seen == ClustersOf(records[..i], gene)
    {
      ClustersStep(records, gene, i);
      if gene in records[i].geneClusters {
        seen := seen + records[i].geneClusters[gene];
      }
    }
    assert records[..|records|] == records;
    clusters := Sorted(seen);
  }

  lemma ClustersStep(records: seq<Record>, gene: int, i: nat)
    requires i < |records|
    ensures
      ClustersOf(records[..i + 1], gene)
      == ClustersOf(records[..i], gene)
         + if gene in records[i].geneClusters then records[i].geneClusters[gene] else {}
  {
    var a, b := records[..i + 1], records[..i];
    var more := if gene in records[i].geneClusters then records[i].geneClusters[gene] else {};
    forall c ensures c in ClustersOf(a, gene) <==> c in ClustersOf(b, gene) + more {
      if c in ClustersOf(b, gene) {
        var k :| 0 <= k < |b| && gene in b[k].geneClusters && c in b[k].geneClusters[gene];
        assert a[k] == b[k];
      }
      if c in ClustersOf(a, gene) {
        var k :| 0 <= k < |a| && gene in a[k].geneClusters && c in a[k].geneClusters[gene];
        assert k < i ==> a[k] == b[k];
      }
      assert a[i] == records[i];
    }
  }

  // ----- narrowing -----

  function Holding(records: seq<Record>, gene: int, cluster: int): seq<Record> {
    if records == [] then []
    else
      Holding(records[..|records| - 1], gene, cluster)
      + if Holds(records[|records| - 1], gene, cluster) then [records[|records| - 1]] else []
  }

  lemma {:induction false} HoldingHas(records: seq<Record>, gene: int, cluster: int, record: Record)
    ensures record in Holding(records, gene, cluster) <==> record in records && Holds(record, gene, cluster)
  {
    if records != [] {
      var front, last := records[..|records| - 1], records[|records| - 1];
      HoldingHas(front, gene, cluster, record);
      assert records == front + [last];
    }
  }

  method FilterPoolRecords(records: seq<Record>, gene: int, cluster: int) returns (filtered: seq<Record>)
    ensures filtered == Holding(records, gene, cluster)
  {
    filtered := [];
    for i := 0 to |records|
      invariant filtered == Holding(records[..i], gene, cluster)
    {
      assert records[..i + 1][..i] == records[..i];
      if Holds(records[i], gene, cluster) {
        filtered := filtered + [records[i]];
      }
    }
    assert records[..|records|] == records;
  }
}
