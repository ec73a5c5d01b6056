/**
 * The durable job queue (meme_search/image_to_text_generator/app/job_queue.py):
 * one `jobs` table whose id autoincrements, whose `retry_count` defaults to
 * 0, and whose `image_path` and `model` are NOT NULL. The SQLite file is a
 * `JobStore` object holding the schema, the rows in id order and the next id
 * AUTOINCREMENT will hand out; each method is one committed statement.
 */
module JobQueue {
  import opened Wrappers

  datatype Row = Row(id: nat, imageCoreId: int, imagePath: string, model: string, retryCount: nat)

  /** Tables of the database file, and the columns of `jobs` when it exists. */
  datatype Schema = Schema(tables: set<string>, jobsColumns: seq<string>)

  datatype IntegrityError = NotNull(column: string)

  const JobsTable := "jobs"
  const RetryColumn := "retry_count"
  const JobsColumns: seq<string> := ["id", "image_core_id", "image_path", "model", RetryColumn]

  /** A database file that has never been initialised. */
  const EmptySchema := Schema({}, [])

  /** `CREATE TABLE IF NOT EXISTS jobs (...)`. */
  function CreateJobsTable(s: Schema): Schema
  {
    if JobsTable in s.tables then s else Schema(s.tables + {JobsTable}, JobsColumns)
  }

  /** `ALTER TABLE jobs ADD COLUMN retry_count`: an OperationalError when the column is there. */
  function AddRetryColumn(s: Schema): Result<Schema, string>
  {
    if RetryColumn in s.jobsColumns then Failure("duplicate column name: retry_count")
    else Success(s.(jobsColumns := s.jobsColumns + [RetryColumn]))
  }

  /** `init_db`: create the table if needed, then add the column, ignoring the duplicate-column error. */
  function InitSchema(s: Schema): (t: Schema)
    ensures t.tables == s.tables + {JobsTable}
    ensures RetryColumn in t.jobsColumns
    ensures JobsTable in s.tables && RetryColumn in s.jobsColumns ==> t == s
  {
    var created := CreateJobsTable(s);
    match AddRetryColumn(created)
    case Success(migrated) => migrated
    case Failure(_) => created
  }

  /** Repeated initialisation changes nothing after the first. */
  lemma InitIdempotent(s: Schema)
    ensures InitSchema(InitSchema(s)) == InitSchema(s)
  {
  }

  /** A fresh file gets the full table; a table from before retries gets the column appended. */
  lemma InitCases(legacyColumns: seq<string>)
    requires RetryColumn !in legacyColumns
    ensures InitSchema(EmptySchema) == Schema({JobsTable}, JobsColumns)
    ensures InitSchema(Schema({JobsTable}, legacyColumns)) == Schema({JobsTable}, legacyColumns + [RetryColumn])
  {
  }

  /** Positions follow ids: the table read ORDER BY id is the row sequence. */
  predicate IdsIncreasing(rows: seq<Row>)
  {
    forall i, j :: 0 <= i < j < |rows| ==> rows[i].id < rows[j].id
  }

  /** `SELECT ... ORDER BY id LIMIT 1` on rows kept in id order. */
  function Head(rows: seq<Row>): (r: Option<Row>)
    ensures r.None? <==> rows == []
    ensures r.Some? ==> r.value in rows
    ensures IdsIncreasing(rows) && r.Some? ==> forall x :: x in rows ==> r.value.id <= x.id
  {
    if rows == [] then None else Some(rows[0])
  }

  /** `DELETE FROM jobs WHERE id = ?`. */
  function Without(rows: seq<Row>, id: nat): (r: seq<Row>)
    ensures forall x :: x in r <==> x in rows && x.id != id
    ensures IdsIncreasing(rows) ==> IdsIncreasing(r)
    decreases |rows|
  {
    if rows == [] then []
    else if rows[0].id == id then Without(rows[1..], id)
    else [rows[0]] + Without(rows[1..], id)
  }

  /** `DELETE FROM jobs WHERE image_core_id = ?`. */
  function WithoutCore(rows: seq<Row>, imageCoreId: int): (r: seq<Row>)
    ensures forall x :: x in r <==> x in rows && x.imageCoreId != imageCoreId
    ensures IdsIncreasing(rows) ==> IdsIncreasing(r)
    decreases |rows|
  {
    if rows == [] then []
    else if rows[0].imageCoreId == imageCoreId then WithoutCore(rows[1..], imageCoreId)
    else [rows[0]] + WithoutCore(rows[1..], imageCoreId)
  }

  function BumpRow(x: Row, id: nat): Row
  {
    if x.id == id then x.(retryCount := x.retryCount + 1) else x
  }

  /** `UPDATE jobs SET retry_count = retry_count + 1 WHERE id = ?`. */
  function Bump(rows: seq<Row>, id: nat): (r: seq<Row>)
    ensures |r| == |rows|
    ensures forall i :: 0 <= i < |rows| ==> r[i] == BumpRow(rows[i], id)
    decreases |rows|
  {
    if rows == [] then [] else [BumpRow(rows[0], id)] + Bump(rows[1..], id)
  }

  /** `SELECT ... WHERE id = ?`: the row with that id, if any. */
  function Lookup(rows: seq<Row>, id: nat): (r: Option<Row>)
    ensures r.Some? ==> r.value in rows && r.value.id == id
    ensures r.None? <==> forall x :: x in rows ==> x.id != id
    decreases |rows|
  {
    if rows == [] then None
    else if rows[0].id == id then Some(rows[0])
    else Lookup(rows[1..], id)
  }

  /** What `increment_retry_count` reads back: the row's count, or 0 when the row is gone. */
  function RetryCountOf(rows: seq<Row>, id: nat): nat
  {
    match Lookup(rows, id)
    case Some(x) => x.retryCount
    case None => 0
  }

  /** Ids are unique, so a lookup finds the one row with that id. */
  lemma LookupUnique(rows: seq<Row>, x: Row)
    requires IdsIncreasing(rows) && x in rows
    ensures Lookup(rows, x.id) == Some(x)
  {
    var k :| 0 <= k < |rows| && rows[k] == x;
    var y := Lookup(rows, x.id).value;
    var m :| 0 <= m < |rows| && rows[m] == y;
    assert !(k < m) && !(m < k);
  }

  /**
   * The increment adds exactly one to the count of the row with that id and
   * leaves every other row as it was; the count read back is the new value,
   * or 0 when no row has the id.
   */
  lemma {:induction false} BumpCount(rows: seq<Row>, id: nat)
    requires IdsIncreasing(rows)
    ensures Lookup(rows, id).Some? ==> RetryCountOf(Bump(rows, id), id) == Lookup(rows, id).value.retryCount + 1
    ensures Lookup(rows, id).None? ==> Bump(rows, id) == rows && RetryCountOf(Bump(rows, id), id) == 0
  {
    var r := Bump(rows, id);
    match Lookup(rows, id)
    case Some(x) =>
      var k :| 0 <= k < |rows| && rows[k] == x;
      assert r[k] in r;
      assert IdsIncreasing(r);
      LookupUnique(r, r[k]);
    case None =>
      assert forall i :: 0 <= i < |rows| ==> rows[i].id != id;
      assert r == rows;
  }

  /** The increment changes no id, so the id order and the bounds on ids survive it. */
  lemma BumpKeepsIds(rows: seq<Row>, id: nat)
    ensures |Bump(rows, id)| == |rows|
    ensures forall i :: 0 <= i < |rows| ==> Bump(rows, id)[i].id == rows[i].id
    ensures IdsIncreasing(rows) ==> IdsIncreasing(Bump(rows, id))
  {
  }

  /** Deleting the head of an id-ordered table leaves the rest in order. */
  lemma WithoutHead(rows: seq<Row>)
    requires IdsIncreasing(rows) && rows != []
    ensures Without(rows, rows[0].id) == rows[1..]
  {
    WithoutAbsent(rows[1..], rows[0].id);
  }

  /** Deleting an id that no row has changes nothing. */
  lemma {:induction false} WithoutAbsent(rows: seq<Row>, id: nat)
    requires forall x :: x in rows ==> x.id != id
    ensures Without(rows, id) == rows
    decreases |rows|
  {
    if rows != [] {
      assert rows[0] in rows;
      WithoutAbsent(rows[1..], id);
      assert [rows[0]] + rows[1..] == rows;
    }
  }

  /** On an id-ordered table the increment of the oldest row touches only that row. */
  lemma BumpHead(rows: seq<Row>)
    requires IdsIncreasing(rows) && rows != []
    ensures Bump(rows, rows[0].id) == [rows[0].(retryCount := rows[0].retryCount + 1)] + rows[1..]
  {
    var r := Bump(rows, rows[0].id);
    var expected := [rows[0].(retryCount := rows[0].retryCount + 1)] + rows[1..];
    assert forall i :: 0 < i < |rows| ==> rows[i].id != rows[0].id;
    assert forall i :: 0 <= i < |rows| ==> r[i] == expected[i];
  }

  /**
   * `after` holds only jobs of `before`: each of its rows has the id, image
   * core, path and model of a row of `before`, and at least its retry count.
   * No statement of the store inserts a row behind the worker's back or
   * lowers a count.
   */
  ghost predicate Follows(after: seq<Row>, before: seq<Row>)
  {
    forall x :: x in after ==> exists y :: y in before && SameJob(x, y) && y.retryCount <= x.retryCount
  }

  predicate SameJob(x: Row, y: Row)
  {
    x.id == y.id && x.imageCoreId == y.imageCoreId && x.imagePath == y.imagePath && x.model == y.model
  }

  lemma FollowsRefl(rows: seq<Row>)
    ensures Follows(rows, rows)
  {
    forall x | x in rows ensures exists y :: y in rows && SameJob(x, y) && y.retryCount <= x.retryCount {
      assert SameJob(x, x);
    }
  }

  lemma FollowsTrans(c: seq<Row>, b: seq<Row>, a: seq<Row>)
    requires Follows(c, b) && Follows(b, a)
    ensures Follows(c, a)
  {
    forall x | x in c ensures exists z :: z in a && SameJob(x, z) && z.retryCount <= x.retryCount {
      var y :| y in b && SameJob(x, y) && y.retryCount <= x.retryCount;
      var z :| z in a && SameJob(y, z) && z.retryCount <= y.retryCount;
    }
  }

  lemma WithoutFollows(rows: seq<Row>, id: nat)
    ensures Follows(Without(rows, id), rows)
  {
    FollowsRefl(rows);
  }

  lemma BumpFollows(rows: seq<Row>, id: nat)
    ensures Follows(Bump(rows, id), rows)
  {
    var r := Bump(rows, id);
    forall x | x in r ensures exists y :: y in rows && SameJob(x, y) && y.retryCount <= x.retryCount {
      var k :| 0 <= k < |r| && r[k] == x;
      assert rows[k] in rows && SameJob(x, rows[k]);
    }
  }

  /** A table that follows an id-ordered one starts no earlier than it: the queue is first in, first out. */
  lemma FollowsHead(after: seq<Row>, before: seq<Row>)
    requires Follows(after, before) && IdsIncreasing(before) && after != []
    ensures before != [] && before[0].id <= after[0].id
  {
    assert after[0] in after;
    var y :| y in before && SameJob(after[0], y) && y.retryCount <= after[0].retryCount;
    var k :| 0 <= k < |before| && before[k] == y;
    assert k == 0 || before[0].id < before[k].id;
  }

  class JobStore {
    var schema: Schema
    var rows: seq<Row>
    var nextId: nat

    ghost predicate Valid()
      reads this
    {
      && nextId >= 1
      && IdsIncreasing(rows)
      && (forall i :: 0 <= i < |rows| ==> 1 <= rows[i].id < nextId)
      && (JobsTable !in schema.tables ==> rows == [])
    }

    /** The table exists with its retry column, as `init_db` leaves it. */
    predicate Ready()
      reads this
    {
      JobsTable in schema.tables && RetryColumn in schema.jobsColumns
    }

    /** A new, empty database file. */
    constructor ()
      ensures Valid() && schema == EmptySchema && rows == [] && nextId == 1
    {
      schema := EmptySchema;
      rows := [];
      nextId := 1;
    }

    method InitDb()
      requires Valid()
      modifies this
      ensures Valid() && Ready()
      ensures schema == InitSchema(old(schema)) && rows == old(rows) && nextId == old(nextId)
    {
      schema := CreateJobsTable(schema);
      var migrated := AddRetryColumn(schema);
      if migrated.Success? {
        schema := migrated.value;
      }
    }

    /**
     * `INSERT INTO jobs (image_core_id, image_path, model)`: a missing path
     * or model is an IntegrityError and changes nothing; otherwise the row
     * gets the next id and retry_count 0, and goes last in id order.
     */
    method Insert(imageCoreId: int, imagePath: Option<string>, model: Option<string>) returns (r: Result<nat, IntegrityError>)
      requires Valid() && Ready()
      modifies this
      ensures Valid() && schema == old(schema)
      ensures imagePath.None? ==> r == Failure(NotNull("image_path"))
      ensures imagePath.Some? && model.None? ==> r == Failure(NotNull("model"))
      ensures r.Failure? ==> rows == old(rows) && nextId == old(nextId)
      ensures imagePath.Some? && model.Some? ==>
        && r == Success(old(nextId))
        && rows == old(rows) + [Row(old(nextId), imageCoreId, imagePath.value, model.value, 0)]
        && nextId == old(nextId) + 1
    {
      if imagePath.None? {
        return Failure(NotNull("image_path"));
      }
      if model.None? {
        return Failure(NotNull("model"));
      }
      r := Success(nextId);
      rows := rows + [Row(nextId, imageCoreId, imagePath.value, model.value, 0)];
      nextId := nextId + 1;
    }

    /** The worker's fetch: the row with the smallest id, or None on an empty table. */
    method Oldest() returns (job: Option<Row>)
      requires Valid() && Ready()
      ensures job == Head(rows)
      ensures job.None? <==> rows == []
      ensures job.Some? ==> job.value in rows && forall x :: x in rows ==> job.value.id <= x.id
    {
      job := Head(rows);
    }

    /** `check_queue`: the number of rows, reported as `queue_length`. */
    method CheckQueue() returns (queueLength: nat)
      requires Valid() && Ready()
      ensures queueLength == |rows|
    {
      queueLength := |rows|;
    }

    method DeleteById(id: nat)
      requires Valid() && Ready()
      modifies this
      ensures Valid() && schema == old(schema) && nextId == old(nextId)
      ensures rows == Without(old(rows), id)
    {
      rows := Without(rows, id);
    }

    /** `increment_retry_count`: update, commit, and read the new count back (0 if the row is gone). */
    method IncrementRetryCount(id: nat) returns (n: nat)
      requires Valid() && Ready()
      modifies this
      ensures Valid() && schema == old(schema) && nextId == old(nextId)
      ensures rows == Bump(old(rows), id)
      ensures n == RetryCountOf(rows, id)
      ensures n == if Lookup(old(rows), id).Some? then Lookup(old(rows), id).value.retryCount + 1 else 0
    {
      BumpCount(rows, id);
      BumpKeepsIds(rows, id);
      rows := Bump(rows, id);
      n := RetryCountOf(rows, id);
    }

    /** Deletes every row for the image core; says whether there was one. */
    method RemoveByImageCoreId(imageCoreId: int) returns (existed: bool)
      requires Valid() && Ready()
      modifies this
      ensures Valid() && schema == old(schema) && nextId == old(nextId)
      ensures existed <==> exists x :: x in old(rows) && x.imageCoreId == imageCoreId
      ensures rows == WithoutCore(old(rows), imageCoreId)
    {
      existed := exists x :: x in rows && x.imageCoreId == imageCoreId;
      rows := WithoutCore(rows, imageCoreId);
    }
  }
}
