/** fireflower/targets.py: the task-output table behind `DBTaskOutputTarget`, and the text
    stored by `S3CSVTarget`. */
module Targets {
  import opened Common
  import Values
  import Base64

  // ----- DBTaskOutputTarget (targets.py:21-83) -------------------------------------------

  /** A row of `task_outputs` without its key: the JSON-encoded value, the task family and
      the task's string parameters. */
  datatype Record = Record(value: Values.Value, taskFamily: string, params: Values.Value)

  /** The committed rows keyed by `task_id`; keying by `task_id` is the uniqueness that the
      column declares (models.py:96). */
  type Table = map<string, Record>

  /** What a session body leaves staged for the commit. */
  datatype Change =
    | NoChange
    | Insert(id: string, rec: Record)          // `session.add` of a new row
    | Delete(id: string)                        // `query(...).delete()`
    | SetValue(id: string, value: Values.Value) // `task_output.value = value` on a loaded row

  /** How a session body ended: with a result and its staged change, or by raising. */
  datatype Step<+R> = Completed(result: R, change: Change) | Threw(exc: Exc)

  /** The commit: an insert whose `task_id` already has a row violates the unique
      constraint, and nothing is written. */
  function Commit(t: Table, change: Change): (r: Outcome<Table>)
    ensures r.Raised? <==> change.Insert? && change.id in t
    ensures r.Raised? ==> r.exc.kind == "IntegrityError"
    ensures r.Returned? && change.Insert? ==> r.value == t[change.id := change.rec]
    ensures r.Returned? && change.Delete? ==> r.value == t - {change.id}
    ensures r.Returned? && (change.NoChange? || (change.SetValue? && change.id !in t)) ==> r.value == t
    ensures r.Returned? && change.SetValue? && change.id in t ==>
      r.value.Keys == t.Keys && r.value[change.id] == t[change.id].(value := change.value)
  {
    match change
    case NoChange => Returned(t)
    case Insert(id, rec) =>
      if id in t then Raised(Exc("IntegrityError", "duplicate key value violates unique constraint"))
      else Returned(t[id := rec])
    case Delete(id) => Returned(t - {id})
    case SetValue(id, value) =>
      if id in t then Returned(t[id := t[id].(value := value)]) else Returned(t)
  }

  /** `_session`: a body that raises is rolled back and its exception raised again; a body
      that completes is committed. Whatever fails, the table is left as it was. */
  function Transaction<R>(t: Table, step: Step<R>): (r: (Outcome<R>, Table))
    ensures step.Threw? ==> r == (Raised(step.exc), t)
    ensures r.0.Raised? ==> r.1 == t
    ensures r.0.Returned? <==> step.Completed? && Commit(t, step.change).Returned?
    ensures r.0.Returned? ==> r.0.value == step.result && r.1 == Commit(t, step.change).value
  {
    match step
    case Threw(e) => (Raised(e), t)
    case Completed(v, change) =>
      match Commit(t, change)
      case Returned(t') => (Returned(v), t')
      case Raised(e) => (Raised(e), t)
  }

  // The bodies of the target's operations, as seen from the table at the session's start.

  /** `write`: the row is added; committed, it is inserted when the task has none, and
      otherwise the unique constraint fails and the table stays. */
  function WriteStep(id: string, rec: Record): (s: Step<()>)
    ensures forall t: Table {:trigger Transaction(t, s)} :: id !in t ==> Transaction(t, s) == (Returned(()), t[id := rec])
    ensures forall t: Table {:trigger Transaction(t, s)} :: id in t ==>
      Transaction(t, s).0.Raised? && Transaction(t, s).0.exc.kind == "IntegrityError" && Transaction(t, s).1 == t
  {
    Completed((), Insert(id, rec))
  }

  /** `read`: `.one()` of the task's rows, which raises NoResultFound when there is none;
      the table never changes. */
  function ReadStep(t: Table, id: string): (s: Step<Values.Value>)
    ensures Transaction(t, s).1 == t
    ensures id in t ==> Transaction(t, s).0 == Returned(t[id].value)
    ensures id !in t ==> Transaction(t, s).0.Raised? && Transaction(t, s).0.exc.kind == "NoResultFound"
  {
    if id in t then Completed(t[id].value, NoChange)
    else Threw(Exc("NoResultFound", "No row was found for one()"))
  }

  /** `exists`: whether the task has a row; the table never changes. */
  function ExistsStep(t: Table, id: string): (s: Step<bool>)
    ensures Transaction(t, s) == (Returned(id in t), t)
  {
    Completed(id in t, NoChange)
  }

  /** `remove`: deleting the task's rows always commits and leaves every other row. */
  function RemoveStep(id: string): (s: Step<()>)
    ensures forall t: Table {:trigger Transaction(t, s)} :: Transaction(t, s) == (Returned(()), t - {id})
  {
    Completed((), Delete(id))
  }

  /** `upsert`: an existing row gets the value set, a missing one is added; either way the
      commit cannot violate the unique constraint. */
  function UpsertStep(t: Table, id: string, rec: Record): (s: Step<()>)
    ensures s.Completed? && Commit(t, s.change).Returned?
    ensures s.change.Insert? ==> id !in t
  {
    if id in t then Completed((), SetValue(id, rec.value)) else Completed((), Insert(id, rec))
  }

  /** The table `upsert` leaves: the value set on the existing row, whose family and
      parameters stay, or a new row; every other row unchanged. */
  function Upserted(t: Table, id: string, rec: Record): (r: Table)
    ensures id in r && r[id].value == rec.value
    ensures id in t ==> r[id].taskFamily == t[id].taskFamily && r[id].params == t[id].params
    ensures id !in t ==> r[id] == rec
    ensures r.Keys == t.Keys + {id}
    ensures forall k :: k in t && k != id ==> r[k] == t[k]
  {
    if id in t then t[id := t[id].(value := rec.value)] else t[id := rec]
  }

  /** The session run by `upsert` commits and leaves exactly `Upserted`. */
  lemma UpsertTransaction(t: Table, id: string, rec: Record)
    ensures Transaction(t, UpsertStep(t, id, rec)) == (Returned(()), Upserted(t, id, rec))
  {
  }

  /** `upsert(v)` twice leaves the table a single `upsert(v)` leaves. */
  lemma UpsertIdempotent(t: Table, id: string, rec: Record)
    ensures Upserted(Upserted(t, id, rec), id, rec) == Upserted(t, id, rec)
  {
    var once := Upserted(t, id, rec);
    assert once[id].(value := rec.value) == once[id];
  }

  /** After `upsert(v)`, `read` returns `v` and `exists` is true. */
  lemma ReadAfterUpsert(t: Table, id: string, rec: Record)
    ensures Transaction(Upserted(t, id, rec), ReadStep(Upserted(t, id, rec), id)).0 == Returned(rec.value)
    ensures Transaction(Upserted(t, id, rec), ExistsStep(Upserted(t, id, rec), id)).0 == Returned(true)
  {
  }

  /** After `remove`, `exists` is false and `read` fails, while other rows are untouched. */
  lemma RemoveThenAbsent(t: Table, id: string)
    ensures Transaction(t, RemoveStep(id)).0 == Returned(())
    ensures var after := Transaction(t, RemoveStep(id)).1;
      Transaction(after, ExistsStep(after, id)).0 == Returned(false) &&
      Transaction(after, ReadStep(after, id)).0.Raised? &&
      forall k :: k != id ==> (k in after <==> k in t) && (k in t ==> after[k] == t[k])
  {
  }

  /** A successful `write` makes `read` return the written value; a second `write` of the
      same `task_id` fails on the unique constraint and leaves the table as it was. */
  lemma WriteThenReadAndRewrite(t: Table, id: string, rec: Record, rec2: Record)
    requires id !in t
    ensures Transaction(t, WriteStep(id, rec)).0 == Returned(())
    ensures var after := Transaction(t, WriteStep(id, rec)).1;
      Transaction(after, ReadStep(after, id)).0 == Returned(rec.value) &&
      Transaction(after, WriteStep(id, rec2)).0.Raised? &&
      Transaction(after, WriteStep(id, rec2)).1 == after
  {
  }

  /** The `task_outputs` table as the session sees it. */
  class TaskOutputTable {
    var rows: Table

    constructor (rows: Table)
      ensures this.rows == rows
    {
      this.rows := rows;
    }

    /** Runs one session: commit on success, rollback and re-raise on failure. */
    method Session<R>(step: Step<R>) returns (o: Outcome<R>)
      modifies this
      ensures (o, rows) == Transaction(old(rows), step)
      ensures o.Raised? ==> rows == old(rows)
    {
      var (out, after) := Transaction(rows, step);
      rows := after;
      o := out;
    }
  }

  /** `DBTaskOutputTarget`: the output of one task, stored as the row keyed by its id. */
  class DBTaskOutputTarget {
    const db: TaskOutputTable
    const taskId: string
    const taskFamily: string
    const params: Values.Value

    constructor (db: TaskOutputTable, taskId: string, taskFamily: string, params: Values.Value)
      ensures this.db == db && this.taskId == taskId
      ensures this.taskFamily == taskFamily && this.params == params
    {
      this.db := db;
      this.taskId := taskId;
      this.taskFamily := taskFamily;
      this.params := params;
    }

    /** `write(value)`: inserts the row; fails, changing nothing, when the task already
        has one. */
    method Write(value: Values.Value) returns (o: Outcome<()>)
      modifies db
      ensures o.Returned? <==> taskId !in old(db.rows)
      ensures o.Returned? ==> db.rows == old(db.rows)[taskId := Record(value, taskFamily, params)]
      ensures o.Raised? ==> o.exc.kind == "IntegrityError" && db.rows == old(db.rows)
    {
      o := db.Session(WriteStep(taskId, Record(value, taskFamily, params)));
    }

    /** `touch`: a write of None. */
    method Touch() returns (o: Outcome<()>)
      modifies db
      ensures o.Returned? <==> taskId !in old(db.rows)
      ensures o.Returned? ==> db.rows == old(db.rows)[taskId := Record(Values.Null, taskFamily, params)]
      ensures o.Raised? ==> db.rows == old(db.rows)
    {
      o := Write(Values.Null);
    }

    /** `read`: the value of the task's row; NoResultFound when there is none. */
    method Read() returns (o: Outcome<Values.Value>)
      ensures taskId in db.rows ==> o == Returned(db.rows[taskId].value)
      ensures taskId !in db.rows ==> o.Raised? && o.exc.kind == "NoResultFound"
    {
      var (out, _) := Transaction(db.rows, ReadStep(db.rows, taskId));
      o := out;
    }

    /** `exists`: whether the task has a row. */
    method Exists() returns (b: bool)
      ensures b <==> taskId in db.rows
    {
      var (out, _) := Transaction(db.rows, ExistsStep(db.rows, taskId));
      b := out.value;
    }

    /** `remove`: deletes the task's row, if any; other rows stay. */
    method Remove()
      modifies db
      ensures db.rows == old(db.rows) - {taskId}
    {
      var _ := db.Session(RemoveStep(taskId));
    }

    /** `upsert(value)`: sets the value of the task's row, creating the row if needed. */
    method Upsert(value: Values.Value)
      modifies db
      ensures db.rows == Upserted(old(db.rows), taskId, Record(value, taskFamily, params))
    {
      UpsertTransaction(db.rows, taskId, Record(value, taskFamily, params));
      var _ := db.Session(UpsertStep(db.rows, taskId, Record(value, taskFamily, params)));
    }
  }

  // ----- S3CSVTarget (targets.py:86-127) --------------------------------------------------

  type Kwargs = map<string, Values.Value>

  /** `toolz.merge(defaults, kwargs)` when `defaults` is truthy: the call site wins on a
      clash; with no defaults, or empty ones, the call-site arguments are used as they are. */
  function MergeKwargs(defaults: Option<Kwargs>, kwargs: Kwargs): (r: Kwargs)
    ensures r.Keys == kwargs.Keys + (if defaults.Some? then defaults.value.Keys else {})
    ensures forall k :: k in kwargs ==> r[k] == kwargs[k]
    ensures forall k :: k in r && k !in kwargs ==> defaults.Some? && r[k] == defaults.value[k]
    ensures defaults.None? || defaults.value == map[] ==> r == kwargs
  {
    if defaults.Some? && defaults.value != map[] then defaults.value + kwargs else kwargs
  }

  /** The pandas side, which the model does not look into: CSV text of a frame and back,
      and the gzip compression pandas applies to that text. */
  datatype Pandas<!F> = Pandas(
    toCsv: (F, Kwargs) -> string,
    readCsv: (string, Kwargs) -> Outcome<F>,
    gzip: string -> seq<byte>,
    gunzip: seq<byte> -> Outcome<string>)

  /** gzip decompression inverts compression (section 2 of RFC 1952). */
  ghost predicate GzipRoundTrips<F>(pd: Pandas<F>)
  {
    forall s {:trigger pd.gzip(s)} :: pd.gunzip(pd.gzip(s)) == Returned(s)
  }

  /** The text `write_csv` stores: the Base64 text of the gzip-compressed CSV when
      compressed, the CSV text otherwise. */
  function StoredText<F>(pd: Pandas<F>, compressed: bool, df: F, kwargs: Kwargs): (s: string)
    ensures compressed ==> forall i :: 0 <= i < |s| ==> Base64.IsAlphabet(s[i]) || s[i] == '='
    ensures !compressed ==> s == pd.toCsv(df, kwargs)
  {
    if compressed then
      Base64.EncodeAlphabet(pd.gzip(pd.toCsv(df, kwargs)));
      Base64.Encode(pd.gzip(pd.toCsv(df, kwargs)))
    else pd.toCsv(df, kwargs)
  }

  /** The frame `read_csv` gets from a stored text: Base64-decode and gunzip first when
      compressed; text that is not valid Base64 fails. */
  function ParsedText<F>(pd: Pandas<F>, compressed: bool, text: string, kwargs: Kwargs): (r: Outcome<F>)
    ensures compressed && Base64.Decode(text).None? ==> r.Raised? && r.exc.kind == "binascii.Error"
    ensures !compressed ==> r == pd.readCsv(text, kwargs)
  {
    if !compressed then pd.readCsv(text, kwargs)
    else match Base64.Decode(text)
      case None => Raised(Exc("binascii.Error", "Incorrect padding"))
      case Some(bytes) =>
        match pd.gunzip(bytes)
        case Raised(e) => Raised(e)
        case Returned(csv) => pd.readCsv(csv, kwargs)
  }

  /** Reading back what was written gives the frame that was written, compressed or not,
      whenever pandas reads its own CSV back under the reader's arguments. */
  lemma {:induction false} ReadAfterWrite<F>(pd: Pandas<F>, compressed: bool, df: F, writeKw: Kwargs, readKw: Kwargs)
    requires GzipRoundTrips(pd)
    requires pd.readCsv(pd.toCsv(df, writeKw), readKw) == Returned(df)
    ensures ParsedText(pd, compressed, StoredText(pd, compressed, df, writeKw), readKw) == Returned(df)
  {
    if compressed {
      var csv := pd.toCsv(df, writeKw);
      Base64.DecodeEncode(pd.gzip(csv));
      assert pd.gunzip(pd.gzip(csv)) == Returned(csv);
    }
  }

  /** `S3CSVTarget`: `stored` is the text of the S3 object at `path` (None while it does not exist). */
  class S3CSVTarget {
    const path: string
    const compressed: bool
    const kwargsIn: Option<Kwargs>
    const kwargsOut: Option<Kwargs>
    var stored: Option<string>

    constructor (path: string, compressed: bool, kwargsIn: Option<Kwargs>, kwargsOut: Option<Kwargs>,
                 stored: Option<string>)
      ensures this.path == path && this.compressed == compressed
      ensures this.kwargsIn == kwargsIn && this.kwargsOut == kwargsOut && this.stored == stored
    {
      this.path := path;
      this.compressed := compressed;
      this.kwargsIn := kwargsIn;
      this.kwargsOut := kwargsOut;
      this.stored := stored;
    }

    /** `write_csv(df, **kwargs)`: the object now holds the frame's stored text, written
        with the call-site arguments merged over `kwargs_out`. */
    method WriteCsv<F>(pd: Pandas<F>, df: F, kwargs: Kwargs)
      modifies this`stored
      ensures stored == Some(StoredText(pd, compressed, df, MergeKwargs(kwargsOut, kwargs)))
    {
      var merged := MergeKwargs(kwargsOut, kwargs);
      stored := Some(StoredText(pd, compressed, df, merged));
    }

    /** `read_csv(**kwargs)`: the frame parsed from the object with the call-site arguments
        merged over `kwargs_in`; a missing object cannot be opened. */
    method ReadCsv<F>(pd: Pandas<F>, kwargs: Kwargs) returns (o: Outcome<F>)
      ensures stored.None? ==> o.Raised? && o.exc.kind == "FileNotFoundException"
      ensures stored.Some? ==> o == ParsedText(pd, compressed, stored.value, MergeKwargs(kwargsIn, kwargs))
    {
      var merged := MergeKwargs(kwargsIn, kwargs);
      if stored.None? {
        o := Raised(Exc("FileNotFoundException", path));
      } else {
        o := ParsedText(pd, compressed, stored.value, merged);
      }
    }

    /** A write followed by a read returns the written frame (the round trip of tests/targets_tests.py). */
    method WriteThenRead<F>(pd: Pandas<F>, df: F, writeKw: Kwargs, readKw: Kwargs) returns (o: Outcome<F>)
      requires GzipRoundTrips(pd)
      requires pd.readCsv(pd.toCsv(df, MergeKwargs(kwargsOut, writeKw)), MergeKwargs(kwargsIn, readKw)) == Returned(df)
      modifies this`stored
      ensures o == Returned(df)
    {
      WriteCsv(pd, df, writeKw);
      o := ReadCsv(pd, readKw);
      ReadAfterWrite(pd, compressed, df, MergeKwargs(kwargsOut, writeKw), MergeKwargs(kwargsIn, readKw));
    }
  }
}
