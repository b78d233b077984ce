/** `getLastMessages` of src/ai/history.ts: the chat's most recent texts,
    oldest first. The `messages` table is a sequence of rows in storage
    order; the store's query (filter, order by `created_at` descending,
    limit) is written out, and a store failure is a parameter. */
module History {
  import opened Outcomes
  import opened JsBuiltins

  /** The columns of a `messages` row that the query reads or the handler
      writes, apart from the raw payload. `createdAt` is the store's
      insertion time, as a number on a common clock. */
  datatype Row = Row(from: string, text: string, messageId: Option<string>, createdAt: int)

  /** The error object the store reports; it is rethrown unchanged. */
  datatype StoreError = StoreError(message: string)

  /** The default value of `limit`. */
  const DefaultLimit: nat := 10

  // ---------------------------------------------------------------------------
  // The query: .eq('from', remoteJid).order('created_at', desc).limit(limit)
  // ---------------------------------------------------------------------------

  /** `.eq('from', remoteJid)`: the chat's rows, in storage order. */
  function FromChat(table: seq<Row>, remoteJid: string): (rows: seq<Row>)
    ensures forall x :: x in rows <==> x in table && x.from == remoteJid
    ensures forall x :: multiset(rows)[x] == (if x.from == remoteJid then multiset(table)[x] else 0)
    ensures |rows| <= |table|
  {
    if |table| == 0 then []
    else
      assert table == [table[0]] + table[1..];
      (if table[0].from == remoteJid then [table[0]] else []) + FromChat(table[1..], remoteJid)
  }

  /** Each row is at least as recent as the row after it. */
  predicate NewestFirstOrder(rows: seq<Row>)
    decreases |rows|
  {
    |rows| <= 1 || (rows[0].createdAt >= rows[1].createdAt && NewestFirstOrder(rows[1..]))
  }

  /** Every row is at least as recent as every later row. */
  predicate Descending(rows: seq<Row>) {
    forall i, j :: 0 <= i < j < |rows| ==> rows[i].createdAt >= rows[j].createdAt
  }

  /** Comparing neighbours is enough: a newest-first list is descending. */
  lemma {:induction false} NewestFirstPairwise(rows: seq<Row>)
    requires NewestFirstOrder(rows)
    ensures Descending(rows)
    decreases |rows|
  {
    if |rows| > 1 {
      NewestFirstPairwise(rows[1..]);
      assert forall j :: 1 <= j < |rows| ==> rows[j] == rows[1..][j - 1];
    }
  }

  /** Puts `x` in front of the first row that is not newer than it. */
  function InsertNewest(x: Row, rows: seq<Row>): (r: seq<Row>)
    ensures multiset(r) == multiset(rows) + multiset{x}
    ensures |r| == |rows| + 1 && (r[0] == x || (|rows| > 0 && r[0] == rows[0]))
    ensures NewestFirstOrder(rows) ==> NewestFirstOrder(r)
  {
    if |rows| == 0 || rows[0].createdAt <= x.createdAt then
      [x] + rows
    else
      var rest := InsertNewest(x, rows[1..]);
      assert rows == [rows[0]] + rows[1..];
      assert ([rows[0]] + rest)[1..] == rest;
      [rows[0]] + rest
  }

  /** `.order('created_at', { ascending: false })`: the rows, newest first.
      Rows with equal times keep their storage order. */
  function NewestFirst(rows: seq<Row>): (r: seq<Row>)
    ensures multiset(r) == multiset(rows)
    ensures NewestFirstOrder(r)
  {
    if |rows| == 0 then []
    else
      assert rows == [rows[0]] + rows[1..];
      InsertNewest(rows[0], NewestFirst(rows[1..]))
  }

  /** The chat's rows, newest first. */
  function Sorted(table: seq<Row>, remoteJid: string): (rows: seq<Row>)
    ensures multiset(rows) == multiset(FromChat(table, remoteJid))
    ensures |rows| == |FromChat(table, remoteJid)|
    ensures NewestFirstOrder(rows)
  {
    var sorted := NewestFirst(FromChat(table, remoteJid));
    assert |multiset(sorted)| == |multiset(FromChat(table, remoteJid))|;
    sorted
  }

  /** What the store returns for the query: the chat's `limit` newest rows,
      newest first. */
  function Query(table: seq<Row>, remoteJid: string, limit: nat): (rows: seq<Row>)
    ensures |rows| == Min(limit, |FromChat(table, remoteJid)|)
  {
    var sorted := Sorted(table, remoteJid);
    sorted[..Min(limit, |sorted|)]
  }

  /** The chat's rows the query leaves out because of the limit. */
  function Dropped(table: seq<Row>, remoteJid: string, limit: nat): seq<Row> {
    var sorted := Sorted(table, remoteJid);
    sorted[Min(limit, |sorted|)..]
  }

  // ---------------------------------------------------------------------------
  // getLastMessages
  // ---------------------------------------------------------------------------

  /** `data.map(row => row.text)`. */
  function Texts(rows: seq<Row>): (ts: seq<string>)
    ensures |ts| == |rows|
    ensures forall i :: 0 <= i < |rows| ==> ts[i] == rows[i].text
  {
    if |rows| == 0 then [] else [rows[0].text] + Texts(rows[1..])
  }

  /** The rows behind the result, in the order the result lists them. */
  function Chronological(table: seq<Row>, remoteJid: string, limit: nat): seq<Row> {
    Reverse(Query(table, remoteJid, limit))
  }

  /** `getLastMessages(remoteJid, limit)` over `table`, where `failure` is
      the error the store reports for the query, if any. `limit` defaults to
      ten, as in the code. */
  function GetLastMessages(table: seq<Row>, failure: Option<StoreError>, remoteJid: string, limit: nat := DefaultLimit)
    : (r: Result<seq<string>, StoreError>)
    ensures r.Failure? <==> failure.Some?
    ensures r.Failure? ==> r.error == failure.value
    ensures r.Success? ==> |r.value| == Min(limit, |FromChat(table, remoteJid)|) <= limit
    ensures r.Success? ==> forall i :: 0 <= i < |r.value| ==> r.value[i] == Chronological(table, remoteJid, limit)[i].text
  {
    match failure
    case Some(e) => Failure(e)
    case None => Success(Texts(Chronological(table, remoteJid, limit)))
  }

  // ---------------------------------------------------------------------------
  // Properties
  // ---------------------------------------------------------------------------

  /** Cutting a list in two keeps every row, as often as it occurs. */
  lemma SplitKeepsRows(rows: seq<Row>, k: nat)
    requires k <= |rows|
    ensures multiset(rows[..k]) + multiset(rows[k..]) == multiset(rows)
  {
    assert rows[..k] + rows[k..] == rows;
  }

  /** The query splits the chat's rows into the kept ones and the dropped
      ones. */
  lemma QueryPartitionsChat(table: seq<Row>, remoteJid: string, limit: nat)
    ensures multiset(Query(table, remoteJid, limit)) + multiset(Dropped(table, remoteJid, limit))
      == multiset(FromChat(table, remoteJid))
  {
    var sorted := Sorted(table, remoteJid);
    SplitKeepsRows(sorted, Min(limit, |sorted|));
  }

  /** No dropped row is newer than a kept one: the query keeps the newest. */
  lemma QueryKeepsNewest(table: seq<Row>, remoteJid: string, limit: nat)
    ensures var kept, dropped := Query(table, remoteJid, limit), Dropped(table, remoteJid, limit);
      forall i, j :: 0 <= i < |kept| && 0 <= j < |dropped| ==> dropped[j].createdAt <= kept[i].createdAt
  {
    var sorted := Sorted(table, remoteJid);
    NewestFirstPairwise(sorted);
    var k := Min(limit, |sorted|);
    var kept, dropped := sorted[..k], sorted[k..];
    forall i, j | 0 <= i < |kept| && 0 <= j < |dropped|
      ensures dropped[j].createdAt <= kept[i].createdAt
    {
      assert dropped[j] == sorted[k + j];
      assert kept[i] == sorted[i];
    }
  }

  /** Only the chat's own rows are kept. */
  lemma QueryKeepsChatRows(table: seq<Row>, remoteJid: string, limit: nat)
    ensures forall x :: x in Query(table, remoteJid, limit) ==> x in table && x.from == remoteJid
  {
    var sorted := Sorted(table, remoteJid);
    var kept := Query(table, remoteJid, limit);
    forall x | x in kept
      ensures x in table && x.from == remoteJid
    {
      assert x in sorted;
      assert x in multiset(sorted);
    }
  }

  /** A prefix of a descending list is descending. */
  lemma DescendingPrefix(rows: seq<Row>, k: nat)
    requires Descending(rows) && k <= |rows|
    ensures Descending(rows[..k])
  {
    var p := rows[..k];
    forall i, j | 0 <= i < j < |p|
      ensures p[i].createdAt >= p[j].createdAt
    {
      assert p[i] == rows[i] && p[j] == rows[j];
    }
  }

  /** Reversing a descending list makes it ascending. */
  lemma ReverseOfDescending(rows: seq<Row>)
    requires Descending(rows)
    ensures var r := Reverse(rows);
      forall i, j :: 0 <= i < j < |r| ==> r[i].createdAt <= r[j].createdAt
  {
    var r := Reverse(rows);
    forall i, j | 0 <= i < j < |r|
      ensures r[i].createdAt <= r[j].createdAt
    {
      assert r[i] == rows[|rows| - 1 - i];
      assert r[j] == rows[|rows| - 1 - j];
    }
  }

  /** The result lists the kept rows oldest first. */
  lemma ChronologicalIsAscending(table: seq<Row>, remoteJid: string, limit: nat)
    ensures var rows := Chronological(table, remoteJid, limit);
      forall i, j :: 0 <= i < j < |rows| ==> rows[i].createdAt <= rows[j].createdAt
  {
    var sorted := Sorted(table, remoteJid);
    NewestFirstPairwise(sorted);
    DescendingPrefix(sorted, Min(limit, |sorted|));
    ReverseOfDescending(Query(table, remoteJid, limit));
  }

  /** Without a `limit`, at most the ten newest texts come back. */
  lemma DefaultLimitIsTen(table: seq<Row>, remoteJid: string)
    ensures var r := GetLastMessages(table, None, remoteJid);
      r.Success? && |r.value| == Min(10, |FromChat(table, remoteJid)|)
  {
  }

  /** A chat with no rows yields an empty list, not an error. */
  lemma EmptyChatIsEmpty(table: seq<Row>, remoteJid: string, limit: nat)
    requires forall i :: 0 <= i < |table| ==> table[i].from != remoteJid
    ensures GetLastMessages(table, None, remoteJid, limit) == Success([])
  {
  }

  /** The newest row of the chat, when strictly newer than the rest, is the
      last text of the result whenever the limit is positive. */
  lemma NewestRowIsLast(table: seq<Row>, remoteJid: string, limit: nat, x: Row)
    requires limit > 0
    requires x in table && x.from == remoteJid
    requires forall y :: y in table && y.from == remoteJid && y != x ==> y.createdAt < x.createdAt
    ensures var r := GetLastMessages(table, None, remoteJid, limit);
      r.Success? && |r.value| > 0 && r.value[|r.value| - 1] == x.text
  {
    var chat := FromChat(table, remoteJid);
    var sorted := Sorted(table, remoteJid);
    NewestFirstPairwise(sorted);
    assert multiset(sorted)[x] == multiset(table)[x] > 0;
    assert x in sorted;
    assert sorted[0] in multiset(sorted);
    assert sorted[0] in chat;
    assert sorted[0] == x;
    var rows := Chronological(table, remoteJid, limit);
    assert rows[|rows| - 1] == x;
  }
}
