/** The event record store: a flat table of `(ids, description)` rows and a
    document collection that mirrors it, keyed by the same id strings.

    `add_to_db` allocates the next sequential id `id<n+1>`, appends one row
    and adds one document under that id. `update_to_db` asks the similarity
    index for the top match of a description and overwrites that id's
    document and every table row carrying that id.

    The similarity search is not modelled: it is an oracle that, given the
    collection and the query text, returns the ids of its top hits. */
module EventDatabase {
  import opened Wrappers

  /** One line of the table: the document id and its text. */
  datatype Row = Row(ids: string, description: string)

  /** Top hits of a similarity query over a collection, best first. */
  type SimilarityQuery = (map<string, string>, string) -> seq<string>

  /** The text Python gives `str(e)` for the `IndexError` of `[0][0]` on an empty hit list. */
  const IndexErrorMessage: string := "list index out of range"

  predicate IsDigit(c: char) {
    '0' <= c <= '9'
  }

  function DigitChar(d: nat): (c: char)
    requires d < 10
    ensures IsDigit(c) && c as int - '0' as int == d
  {
    ('0' as int + d) as char
  }

  /** Python's `str(n)` for a non-negative integer: decimal digits, no leading zero. */
  function DecimalString(n: nat): (s: string)
    ensures |s| >= 1
    ensures forall i | 0 <= i < |s| :: IsDigit(s[i])
    ensures s[0] == '0' ==> n == 0
  {
    if n < 10 then [DigitChar(n)] else DecimalString(n / 10) + [DigitChar(n % 10)]
  }

  function DigitValue(c: char): (d: nat)
    requires IsDigit(c)
    ensures d < 10
  {
    c as int - '0' as int
  }

  /** The number a string of decimal digits denotes. */
  function DecimalValue(s: string): (n: nat)
    requires forall i | 0 <= i < |s| :: IsDigit(s[i])
  {
    if |s| == 0 then 0
    else DecimalValue(s[..|s| - 1]) * 10 + DigitValue(s[|s| - 1])
  }

  /** Reading back the decimal digits of `n` gives `n`. */
  lemma {:induction false} DecimalRoundTrip(n: nat)
    ensures DecimalValue(DecimalString(n)) == n
  {
    var s := DecimalString(n);
    if n < 10 {
      assert s[..|s| - 1] == [];
    } else {
      assert s[..|s| - 1] == DecimalString(n / 10);
      DecimalRoundTrip(n / 10);
    }
  }

  /** The id of the `n`-th row, `f"id{n}"`. */
  function RowId(n: nat): (id: string)
    ensures IsPrefix("id", id) && id[2..] == DecimalString(n)
  {
    "id" + DecimalString(n)
  }

  /** Different row numbers never share an id. */
  lemma RowIdInjective(m: nat, n: nat)
    requires RowId(m) == RowId(n)
    ensures m == n
  {
    assert RowId(m)[2..] == DecimalString(m);
    assert RowId(n)[2..] == DecimalString(n);
    DecimalRoundTrip(m);
    DecimalRoundTrip(n);
  }

  /** The ids column reads `id1, id2, ..., idn` from top to bottom. */
  predicate SequentialIds(table: seq<Row>) {
    forall i | 0 <= i < |table| :: table[i].ids == RowId(i + 1)
  }

  /** The collection holds a document for every row, under the row's id and
      equal to its description, and no document whose id has no row. */
  predicate Mirrors(table: seq<Row>, docs: map<string, string>) {
    && (forall k <- docs :: exists i | 0 <= i < |table| :: table[i].ids == k)
    && (forall i | 0 <= i < |table| :: table[i].ids in docs && docs[table[i].ids] == table[i].description)
  }

  /** The table and the collection agree and the ids are allocated in sequence. */
  predicate Consistent(table: seq<Row>, docs: map<string, string>) {
    SequentialIds(table) && Mirrors(table, docs)
  }

  /** `df_db.loc[len(df_db)] = {"ids": f"id{len(df_db)+1}", ...}`: one new last row. */
  function Appended(table: seq<Row>, description: string): (t: seq<Row>)
    ensures |t| == |table| + 1
    ensures t[..|table|] == table
    ensures t[|table|] == Row(RowId(|table| + 1), description)
  {
    table + [Row(RowId(|table| + 1), description)]
  }

  /** Appending keeps the ids `id1..id(n+1)` in sequence. */
  lemma AppendKeepsSequential(table: seq<Row>, description: string)
    requires SequentialIds(table)
    ensures SequentialIds(Appended(table, description))
  {
  }

  /** `collection.add`: a document under a new id is inserted; an id already
      present keeps its document. */
  function Added(docs: map<string, string>, id: string, document: string): (d: map<string, string>)
    ensures d.Keys == docs.Keys + {id}
    ensures id !in docs ==> d[id] == document
    ensures forall k <- docs :: d[k] == docs[k]
  {
    if id in docs then docs else docs[id := document]
  }

  /** `collection.update`: the document under an existing id is replaced; an
      id that is not present changes nothing. */
  function Updated(docs: map<string, string>, id: string, document: string): (d: map<string, string>)
    ensures d.Keys == docs.Keys
    ensures id in docs ==> d[id] == document
    ensures forall k <- docs | k != id :: d[k] == docs[k]
  {
    if id in docs then docs[id := document] else docs
  }

  /** `df_db.loc[df_db["ids"] == id, "description"] = message`: every row with
      that id gets the message as description; every other row stays. */
  function Replaced(table: seq<Row>, id: string, message: string): (t: seq<Row>)
    ensures |t| == |table|
    ensures forall i | 0 <= i < |table| ::
      t[i] == if table[i].ids == id then table[i].(description := message) else table[i]
  {
    if table == [] then []
    else
      [if table[0].ids == id then table[0].(description := message) else table[0]]
      + Replaced(table[1..], id, message)
  }

  /** The masked update never changes the number of rows or the ids column. */
  lemma ReplacedKeepsIds(table: seq<Row>, id: string, message: string)
    ensures |Replaced(table, id, message)| == |table|
    ensures forall i | 0 <= i < |table| :: Replaced(table, id, message)[i].ids == table[i].ids
  {
  }

  /** When no row carries the id, the masked update leaves the table as it was. */
  lemma ReplacedAbsent(table: seq<Row>, id: string, message: string)
    requires forall i | 0 <= i < |table| :: table[i].ids != id
    ensures Replaced(table, id, message) == table
  {
  }

  /** With sequential ids, the id of row `j` matches that row alone. */
  lemma ReplacedSequential(table: seq<Row>, j: nat, message: string)
    requires SequentialIds(table)
    requires 1 <= j <= |table|
    ensures Replaced(table, RowId(j), message) == table[j - 1 := table[j - 1].(description := message)]
  {
    var t := Replaced(table, RowId(j), message);
    forall i | 0 <= i < |table|
      ensures t[i] == table[j - 1 := table[j - 1].(description := message)][i]
    {
      if table[i].ids == RowId(j) {
        RowIdInjective(i + 1, j);
      }
    }
  }

  /** Adding a record keeps the table and the collection consistent: the new
      id was not yet in use, the ids stay `id1..id(n+1)`, and the collection
      gains exactly the new description under the new id. */
  lemma AddKeepsConsistent(table: seq<Row>, docs: map<string, string>, description: string)
    requires Consistent(table, docs)
    ensures RowId(|table| + 1) !in docs
    ensures Added(docs, RowId(|table| + 1), description) == docs[RowId(|table| + 1) := description]
    ensures Consistent(Appended(table, description), Added(docs, RowId(|table| + 1), description))
  {
    var id := RowId(|table| + 1);
    if id in docs {
      var i :| 0 <= i < |table| && table[i].ids == id;
      RowIdInjective(i + 1, |table| + 1);
      assert false;
    }
    var t := Appended(table, description);
    var d := Added(docs, id, description);
    forall k <- d
      ensures exists i | 0 <= i < |t| :: t[i].ids == k
    {
      if k == id {
        assert t[|table|].ids == k;
      } else {
        var i :| 0 <= i < |table| && table[i].ids == k;
        assert t[i].ids == k;
      }
    }
  }

  /** Updating a record keeps the table and the collection consistent. */
  lemma UpdateKeepsConsistent(table: seq<Row>, docs: map<string, string>, id: string, message: string)
    requires Consistent(table, docs)
    ensures Consistent(Replaced(table, id, message), Updated(docs, id, message))
  {
    var t := Replaced(table, id, message);
    var d := Updated(docs, id, message);
    ReplacedKeepsIds(table, id, message);
    assert SequentialIds(t);
    forall k <- d
      ensures exists i | 0 <= i < |t| :: t[i].ids == k
    {
      var i :| 0 <= i < |table| && table[i].ids == k;
      assert t[i].ids == k;
    }
    forall i | 0 <= i < |t|
      ensures t[i].ids in d && d[t[i].ids] == t[i].description
    {
      RowMirrored(table, docs, id, message, i);
    }
  }

  /** Row `i` of the updated table still has its document in the updated collection. */
  lemma RowMirrored(table: seq<Row>, docs: map<string, string>, id: string, message: string, i: nat)
    requires Mirrors(table, docs)
    requires i < |table|
    ensures var t := Replaced(table, id, message);
      t[i].ids in Updated(docs, id, message) && Updated(docs, id, message)[t[i].ids] == t[i].description
  {
    var row := table[i];
    assert row.ids in docs && docs[row.ids] == row.description;
    if row.ids == id {
      assert Replaced(table, id, message)[i] == row.(description := message);
    } else {
      assert Replaced(table, id, message)[i] == row;
    }
  }

  /** Repeating an update with the same message and the same matched id
      leaves the table and the collection as one update did. */
  lemma UpdateIdempotent(table: seq<Row>, docs: map<string, string>, id: string, message: string)
    ensures Replaced(Replaced(table, id, message), id, message) == Replaced(table, id, message)
    ensures Updated(Updated(docs, id, message), id, message) == Updated(docs, id, message)
  {
  }

  /** The masked assignment itself, row by row over a copy of the table. */
  method AssignWhere(table: seq<Row>, id: string, message: string) returns (rows: seq<Row>)
    ensures rows == Replaced(table, id, message)
  {
    rows := table;
    var i := 0;
    while i < |rows|
      invariant 0 <= i <= |rows| == |table|
      invariant forall k | 0 <= k < i ::
        rows[k] == if table[k].ids == id then table[k].(description := message) else table[k]
      invariant forall k | i <= k < |rows| :: rows[k] == table[k]
    {
      if rows[i].ids == id {
        rows := rows[i := rows[i].(description := message)];
      }
      i := i + 1;
    }
  }

  /** The table file and the `eventdb` collection, held in memory. */
  class EventDb {
    var table: seq<Row>
    var collection: map<string, string>

    ghost predicate Valid()
      reads this
    {
      Consistent(table, collection)
    }

    /** A fresh store: an empty table and an empty collection. */
    constructor Empty()
      ensures Valid() && table == [] && collection == map[]
    {
      table := [];
      collection := map[];
    }

    /** A store loaded from an existing table file and collection. */
    constructor (table: seq<Row>, collection: map<string, string>)
      ensures this.table == table && this.collection == collection
    {
      this.table := table;
      this.collection := collection;
    }

    /** `add_to_db`. */
    method AddToDb(description: string)
      modifies this
      ensures table == Appended(old(table), description)
      ensures collection == Added(old(collection), RowId(|old(table)| + 1), description)
      ensures old(Valid()) ==> Valid() && collection == old(collection)[RowId(|old(table)| + 1) := description]
    {
      var rows := table;
      rows := rows + [Row("id" + DecimalString(|rows| + 1), description)];
      table := rows;
      var newId := "id" + DecimalString(|rows|);
      var document := rows[|rows| - 1].description;
      if newId !in collection {
        collection := collection[newId := document];
      }
      if old(Valid()) {
        AddKeepsConsistent(old(table), old(collection), description);
      }
    }

    /** `update_to_db`: the top hit of `query` for `description` names the
        record; its document and every row with its id get `message`. An
        empty hit list raises before anything is written. */
    method UpdateToDb(description: string, message: string, query: SimilarityQuery)
      returns (outcome: Result<string>)
      modifies this
      ensures |query(old(collection), description)| == 0 ==>
        && outcome == Failure(IndexErrorMessage)
        && table == old(table) && collection == old(collection)
      ensures |query(old(collection), description)| > 0 ==>
        var top := query(old(collection), description)[0];
        && outcome == Success(top)
        && collection == Updated(old(collection), top, message)
        && table == Replaced(old(table), top, message)
      ensures old(Valid()) ==> Valid()
    {
      var hits := query(collection, description);
      if |hits| == 0 {
        return Failure(IndexErrorMessage);
      }
      var dbId := hits[0];
      if dbId in collection {
        collection := collection[dbId := message];
      }
      var rows := AssignWhere(table, dbId, message);
      table := rows;
      outcome := Success(dbId);
      assert collection == Updated(old(collection), dbId, message);
      if old(Valid()) {
        UpdateKeepsConsistent(old(table), old(collection), dbId, message);
      }
    }
  }
}
