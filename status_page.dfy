/** The status page `WebHandler.do_GET` writes: a fixed preamble, then either `NO DATA` or a
  * table with one column per entry of `KEYS` and one row per fleet record, rows in ascending
  * order, then a footer holding the time of the request. The page is modelled as the sequence
  * of lines written, each without its final newline. */
module StatusPage {
  import opened Values
  import opened Decimal
  import opened Ordering
  import opened Sorting
  import opened Fleet
  import opened Seqs

  /** The dedented opening text, up to the opening of the header row. */
  const PREAMBLE: seq<string> := [
    "<html>",
    "<head>",
    "  <title>MLab Scraper Status</title>",
    "  <style>",
    "    table {",
    "      border-collapse: collapse;",
    "      margin-left: auto;",
    "      margin-right: auto;",
    "    }",
    "    tr:nth-child(even) {",
    "      background-color: #FFF;",
    "    }",
    "    tr:nth-child(even) {",
    "      background-color: #EEE;",
    "    }",
    "  </style>",
    "</head>",
    "<body>",
    "  <table><tr>"]

  const NO_DATA: string := "</table><p>NO DATA</p>"
  const HEADER_END: string := "  </tr>"
  const ROW_START: string := "  <tr>"
  const ROW_END: string := "    </tr>"
  const TABLE_END: string := "    </table>"
  const SMALL_END: string := "    </small></center>"
  const PAGE_END: string := "</body></html>"

  /** `print '  <center><small>', time.ctime()`: `print` puts a space between its items. */
  function Stamp(now: string): string {
    "  <center><small> " + now
  }

  /** `'%s' % v`: text as it is (no HTML escaping), an integer in decimal. */
  function Text(v: Value): string {
    match v
    case Str(s) => s
    case Int(n) => IntText(n)
  }

  function Th(key: string): string {
    "     <th>" + key + "</th>"
  }

  function Td(v: Value): string {
    "     <td>" + Text(v) + "</td>"
  }

  /** The closing lines; `now` is the text of the clock. */
  function Footer(now: string): seq<string> {
    [TABLE_END, Stamp(now), SMALL_END, PAGE_END]
  }

  /** One `<th>` line per column name. */
  function HeaderCells(keys: seq<string>): (lines: seq<string>)
    ensures |lines| == |keys|
  {
    if keys == [] then [] else HeaderCells(keys[..|keys| - 1]) + [Th(keys[|keys| - 1])]
  }

  /** One `<td>` line per value. */
  function Cells(row: Row): (lines: seq<string>)
    ensures |lines| == |row|
  {
    if row == [] then [] else Cells(row[..|row| - 1]) + [Td(row[|row| - 1])]
  }

  function RowLines(row: Row): seq<string> {
    [ROW_START] + Cells(row) + [ROW_END]
  }

  /** The lines of each row. */
  function Blocks(rows: seq<Row>): (blocks: seq<seq<string>>)
    ensures |blocks| == |rows|
  {
    if rows == [] then [] else Blocks(rows[..|rows| - 1]) + [RowLines(rows[|rows| - 1])]
  }

  /** The lines of all rows, in order. */
  function Body(rows: seq<Row>): seq<string> {
    Flatten(Blocks(rows))
  }

  /** `[d.get(key, '') for key in keys]`. */
  function Project(d: Record, keys: seq<string>): (row: Row)
    ensures |row| == |keys|
  {
    if keys == [] then [] else Project(d, keys[..|keys| - 1]) + [Get(d, keys[|keys| - 1])]
  }

  /** Every record projected onto `KEYS`, in order. */
  function Projected(data: seq<Record>): (rows: seq<Row>)
    ensures |rows| == |data|
  {
    if data == [] then [] else Projected(data[..|data| - 1]) + [Project(data[|data| - 1], KEYS)]
  }

  /** `sorted([d.get(key, '') for key in KEYS] for d in data)`. */
  function Rows(data: seq<Record>): (rows: seq<Row>)
    ensures |rows| == |data|
    ensures Sorted(rows)
    ensures multiset(rows) == multiset(Projected(data))
  {
    Sort(Projected(data))
  }

  /** Everything `do_GET` writes after the response headers, given the fetched records. */
  function Page(data: seq<Record>, now: string): seq<string> {
    if data == [] then PREAMBLE + [NO_DATA]
    else PREAMBLE + HeaderCells(KEYS) + [HEADER_END] + Body(Rows(data)) + Footer(now)
  }

  /** `WebHandler.do_GET`, given the entities the datastore query returns and the text of
    * `time.ctime()`: the lines written, one `print` after another. */
  method DoGet(items: seq<Item>, now: string) returns (out: seq<string>)
    ensures out == Page(Normalised(items), now)
  {
    out := PREAMBLE;
    var data := GetFleetData(items);
    if data == [] {
      out := out + [NO_DATA];
      return;
    }
    ghost var preamble := out;
    for k := 0 to |KEYS|
      invariant out == preamble + HeaderCells(KEYS[..k])
    {
      HeaderStep(KEYS, k, preamble);
      out := out + [Th(KEYS[k])];
    }
    assert KEYS[..|KEYS|] == KEYS;
    out := out + [HEADER_END];
    var rows := Rows(data);
    ghost var head := out;
    for i := 0 to |rows|
      invariant out == head + Body(rows[..i])
    {
      out := out + [ROW_START];
      ghost var start := out;
      var row := rows[i];
      for c := 0 to |row|
        invariant out == start + Cells(row[..c])
      {
        CellsStep(row, c, start);
        out := out + [Td(row[c])];
      }
      assert row[..|row|] == row;
      out := out + [ROW_END];
      BodyStep(rows, i, head);
    }
    assert rows[..|rows|] == rows;
    ghost var body := out;
    out := out + [TABLE_END];
    out := out + [Stamp(now)];
    out := out + [SMALL_END];
    out := out + [PAGE_END];
    FooterWritten(body, now, out);
  }

  lemma HeaderStep(keys: seq<string>, k: nat, pre: seq<string>)
    requires k < |keys|
    ensures pre + HeaderCells(keys[..k]) + [Th(keys[k])] == pre + HeaderCells(keys[..k + 1])
  {
    assert keys[..k + 1][..k] == keys[..k];
  }

  lemma CellsStep(row: Row, c: nat, pre: seq<string>)
    requires c < |row|
    ensures pre + Cells(row[..c]) + [Td(row[c])] == pre + Cells(row[..c + 1])
  {
    assert row[..c + 1][..c] == row[..c];
  }

  lemma FooterWritten(body: seq<string>, now: string, out: seq<string>)
    requires out == body + [TABLE_END] + [Stamp(now)] + [SMALL_END] + [PAGE_END]
    ensures out == body + Footer(now)
  {
  }

  /** Writing the lines of row `i` after those of the rows before it. */
  lemma BodyStep(rows: seq<Row>, i: nat, head: seq<string>)
    requires i < |rows|
    ensures head + Body(rows[..i]) + [ROW_START] + Cells(rows[i]) + [ROW_END] == head + Body(rows[..i + 1])
  {
    assert rows[..i + 1][..i] == rows[..i];
    assert Blocks(rows[..i + 1]) == Blocks(rows[..i]) + [RowLines(rows[i])];
    assert Body(rows[..i + 1]) == Body(rows[..i]) + RowLines(rows[i]);
  }

  lemma {:induction false} HeaderCellsAt(keys: seq<string>, k: nat)
    requires k < |keys|
    ensures HeaderCells(keys)[k] == Th(keys[k])
  {
    if k < |keys| - 1 {
      HeaderCellsAt(keys[..|keys| - 1], k);
    }
  }

  lemma {:induction false} CellsAt(row: Row, c: nat)
    requires c < |row|
    ensures Cells(row)[c] == Td(row[c])
  {
    if c < |row| - 1 {
      CellsAt(row[..|row| - 1], c);
    }
  }

  /** A row is written as `<tr>`, one `<td>` per value in order, and `</tr>`. */
  lemma RowLinesShape(row: Row)
    ensures |RowLines(row)| == |row| + 2
    ensures RowLines(row)[0] == ROW_START && RowLines(row)[|row| + 1] == ROW_END
    ensures forall c :: 0 <= c < |row| ==> RowLines(row)[c + 1] == Td(row[c])
  {
    forall c | 0 <= c < |row| ensures RowLines(row)[c + 1] == Td(row[c]) {
      CellsAt(row, c);
    }
  }

  lemma {:induction false} BlocksAppend(a: seq<Row>, b: seq<Row>)
    ensures Blocks(a + b) == Blocks(a) + Blocks(b)
    decreases |b|
  {
    if b == [] {
      assert a + b == a;
    } else {
      assert (a + b)[..|a + b| - 1] == a + b[..|b| - 1];
      BlocksAppend(a, b[..|b| - 1]);
    }
  }

  lemma BodyAppend(a: seq<Row>, b: seq<Row>)
    ensures Body(a + b) == Body(a) + Body(b)
  {
    BlocksAppend(a, b);
    FlattenAppend(Blocks(a), Blocks(b));
  }

  /** Row `i` is written after the rows before it and before the rows after it. */
  lemma BodySplit(rows: seq<Row>, i: nat)
    requires i < |rows|
    ensures Body(rows) == Body(rows[..i]) + RowLines(rows[i]) + Body(rows[i + 1..])
  {
    assert rows == rows[..i] + [rows[i]] + rows[i + 1..];
    BodyAppend(rows[..i] + [rows[i]], rows[i + 1..]);
    BodyAppend(rows[..i], [rows[i]]);
    assert Blocks([rows[i]]) == [] + [RowLines(rows[i])];
    assert Flatten([RowLines(rows[i])]) == [] + RowLines(rows[i]);
  }

  lemma MulSucc(w: nat, k: nat)
    ensures w * (k + 1) == w * k + w
  {
  }

  lemma {:induction false} BodyLength(rows: seq<Row>, n: nat)
    requires forall j :: 0 <= j < |rows| ==> |rows[j]| == n
    ensures |Body(rows)| == (n + 2) * |rows|
  {
    if rows != [] {
      var init, last := rows[..|rows| - 1], rows[|rows| - 1];
      BodyLength(init, n);
      assert Blocks(rows) == Blocks(init) + [RowLines(last)];
      assert Body(rows) == Body(init) + RowLines(last);
      assert |RowLines(last)| == n + 2;
      MulSucc(n + 2, |init|);
    }
  }

  lemma {:induction false} ProjectAt(d: Record, keys: seq<string>, c: nat)
    requires c < |keys|
    ensures Project(d, keys)[c] == Get(d, keys[c])
  {
    if c < |keys| - 1 {
      ProjectAt(d, keys[..|keys| - 1], c);
    }
  }

  lemma {:induction false} ProjectedAt(data: seq<Record>, i: nat)
    requires i < |data|
    ensures Projected(data)[i] == Project(data[i], KEYS)
  {
    if i < |data| - 1 {
      ProjectedAt(data[..|data| - 1], i);
    }
  }

  /** The row of a fetched entity: its key name, then its properties in `KEYS` order, `''` for
    * the missing ones. */
  lemma ProjectNormalise(item: Item)
    ensures Project(Normalise(item), KEYS)[0] == Str(item.name)
    ensures forall c :: 1 <= c < |KEYS| ==> Project(Normalise(item), KEYS)[c] == Get(item.props, KEYS[c])
  {
    KeysDistinct();
    ProjectAt(Normalise(item), KEYS, 0);
    forall c | 1 <= c < |KEYS| ensures Project(Normalise(item), KEYS)[c] == Get(item.props, KEYS[c]) {
      ProjectAt(Normalise(item), KEYS, c);
    }
  }

  /** Every row of the table is a record projected onto `KEYS`, and every projected record is a
    * row, as often as it occurs. */
  lemma RowsAreRecords(data: seq<Record>, i: nat)
    requires i < |data|
    ensures |Rows(data)[i]| == |KEYS|
    ensures exists j :: 0 <= j < |data| && Rows(data)[i] == Project(data[j], KEYS)
  {
    var r := Rows(data)[i];
    assert r in multiset(Projected(data));
    var j :| 0 <= j < |data| && Projected(data)[j] == r;
    ProjectedAt(data, j);
  }

  /** With no records, `NO DATA` follows the preamble and ends the page; otherwise it does not
    * appear there. */
  lemma EmptyPage(data: seq<Record>, now: string)
    ensures |Page(data, now)| >= |PREAMBLE|
    ensures Page(data, now)[..|PREAMBLE|] == PREAMBLE
    ensures Page(data, now)[|PREAMBLE|..] == [NO_DATA] <==> data == []
  {
    var p := Page(data, now);
    if data != [] {
      assert |p| >= |PREAMBLE| + |KEYS| + 1 + |Footer(now)|;
      assert p == PREAMBLE + (HeaderCells(KEYS) + [HEADER_END] + Body(Rows(data)) + Footer(now));
    }
  }

  /** With records, the header follows the preamble: one `<th>` per column in `KEYS` order, then
    * `</tr>`. */
  lemma HeaderLines(data: seq<Record>, now: string)
    requires data != []
    ensures |Page(data, now)| > |PREAMBLE| + |KEYS|
    ensures forall k :: 0 <= k < |KEYS| ==> Page(data, now)[|PREAMBLE| + k] == Th(KEYS[k])
    ensures Page(data, now)[|PREAMBLE| + |KEYS|] == HEADER_END
  {
    forall k | 0 <= k < |KEYS| ensures Page(data, now)[|PREAMBLE| + k] == Th(KEYS[k]) {
      HeaderCellsAt(KEYS, k);
    }
  }

  /** Every row of the table holds one value per column. */
  lemma RowsWidth(data: seq<Record>)
    ensures forall j :: 0 <= j < |Rows(data)| ==> |Rows(data)[j]| == |KEYS|
  {
    forall j | 0 <= j < |Rows(data)| ensures |Rows(data)[j]| == |KEYS| {
      RowsAreRecords(data, j);
    }
  }

  /** With records, the header is followed by one block of `|KEYS| + 2` lines per record and
    * then the footer. */
  lemma PageLength(data: seq<Record>, now: string)
    requires data != []
    ensures |Page(data, now)| == |PREAMBLE| + |KEYS| + 1 + (|KEYS| + 2) * |data| + |Footer(now)|
  {
    RowsWidth(data);
    BodyLength(Rows(data), |KEYS|);
  }

  /** With records, the block of the `i`-th smallest row comes after the header and the blocks
    * of the `i` rows before it, and the blocks of the later rows and the footer follow. */
  lemma RowBlocks(data: seq<Record>, now: string, i: nat)
    requires i < |data|
    ensures var rows := Rows(data);
      && |Body(rows[..i])| == (|KEYS| + 2) * i
      && Page(data, now) == PREAMBLE + HeaderCells(KEYS) + [HEADER_END] + Body(rows[..i])
           + RowLines(rows[i]) + Body(rows[i + 1..]) + Footer(now)
  {
    var rows := Rows(data);
    RowsWidth(data);
    BodyLength(rows[..i], |KEYS|);
    BodySplit(rows, i);
    Regroup(PREAMBLE + HeaderCells(KEYS) + [HEADER_END], Body(rows[..i]), RowLines(rows[i]),
            Body(rows[i + 1..]), Footer(now));
  }

  lemma Regroup(head: seq<string>, pre: seq<string>, row: seq<string>, post: seq<string>,
                foot: seq<string>)
    ensures head + (pre + row + post) + foot == head + pre + row + post + foot
  {
  }

  lemma {:induction false} ProjectedAppend(a: seq<Record>, b: seq<Record>)
    ensures Projected(a + b) == Projected(a) + Projected(b)
    decreases |b|
  {
    if b == [] {
      assert a + b == a;
    } else {
      assert (a + b)[..|a + b| - 1] == a + b[..|b| - 1];
      ProjectedAppend(a, b[..|b| - 1]);
    }
  }

  /** Taking one record out of the middle takes its row out of the middle. */
  lemma ProjectedRemove(before: seq<Record>, x: Record, after: seq<Record>)
    ensures multiset(Projected(before + [x] + after))
      == multiset(Projected(before + after)) + multiset{Project(x, KEYS)}
  {
    ProjectedAppend(before, after);
    ProjectedAppend(before, [x]);
    ProjectedAppend(before + [x], after);
    assert Projected([x]) == [] + [Project(x, KEYS)];
  }

  /** Records that are a permutation of each other give rows that are too. */
  lemma {:induction false} ProjectedPermutation(a: seq<Record>, b: seq<Record>)
    requires multiset(a) == multiset(b)
    ensures multiset(Projected(a)) == multiset(Projected(b))
    decreases |a|
  {
    if a == [] {
      assert |b| == |multiset(b)| == 0;
    } else {
      var init, x := a[..|a| - 1], a[|a| - 1];
      assert a == init + [x];
      assert x in multiset(b);
      var k :| 0 <= k < |b| && b[k] == x;
      var before, after := b[..k], b[k + 1..];
      assert b == before + [x] + after;
      assert multiset(init) == multiset(before + after) by {
        assert multiset(b) == multiset(before) + multiset{x} + multiset(after);
        assert multiset(before + after) == multiset(before) + multiset(after);
        assert multiset(init) == multiset(a) - multiset{x};
      }
      ProjectedPermutation(init, before + after);
      ProjectedRemove(before, x, after);
      ProjectedAppend(init, [x]);
      assert Projected([x]) == [] + [Project(x, KEYS)];
    }
  }

  /** The page does not depend on the order the datastore returns the records in. */
  lemma PagePermutation(a: seq<Record>, b: seq<Record>, now: string)
    requires multiset(a) == multiset(b)
    ensures Page(a, now) == Page(b, now)
  {
    assert |a| == |multiset(a)| == |b|;
    ProjectedPermutation(a, b);
    SortedUnique(Rows(a), Rows(b));
  }
}
