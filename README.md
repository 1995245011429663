# fireflower in Dafny

fireflower is a thin extension of luigi. It adds four things:

- a scheduler state that persists to a local pickle file mirrored to S3;
- a worker/scheduler factory that picks that state;
- a Sentry wrapper around every task's `run`;
- task-output targets.

The task-output targets are a `task_outputs` table row per task and CSV files on S3, Base64-encoded
gzip when compressed. On top of these sit the helpers in `utils.py` and the task mixins in `tasks.py`.

This project models that code and proves what it promises. It has one module per source file:

- `Core` models `core.py`. `S3TaskState` is a class whose `local` file and `remote` object are
  `Option<seq<byte>>` fields. Its `DumpAsWritten`/`LoadAsWritten` methods copy through text
  as the source does, and its `Dump`/`Load` methods copy bytes as intended. The module also holds the factory, the
  scheduler's state override and the Sentry wrapper.
- `Targets` models `targets.py`. The table is a `map` from `task_id` to a record. Sessions commit or
  roll back. `S3CSVTarget` holds the stored text.
- `Utils` models `utils.py`. It holds the type predicates, `to_date`/`to_datetime`, the two task
  counts and the JSON column.
- `Tasks` models `tasks.py`. It holds the metaclass over a hierarchy of task classes, the
  `SignatureTask` id loop and the date mixins.
- `Values` holds the JSON-like values, Python's ordering, `sorted` and `deep_sorted`.
- `Dates` holds dates and the two `strftime` formats.
- `Base64` is section 4 of RFC 4648, written out.
- `Common` holds `Option`, exceptions and outcomes.

Several algorithms are not part of this model: pickle, gzip, pandas CSV, MD5 with `str`,
`json` and `arrow.get`. Each is a function-valued parameter. Where a proof needs one of them
to invert another, that is a `requires` of the lemma.

## Model

| member | source | states |
|---|---|---|
| Core.LocalLoad | fireflower/core.py:100 | with no local file, or one that does not parse, the in-memory state is kept; otherwise the parsed state is taken |
| Core.S3TaskState.constructor | fireflower/core.py:85-87 | a new state store starts from the empty state, over the given local path and S3 path |
| Core.S3TaskState.Dump | fireflower/core.py:89-93 | as intended (a binary copy), the local file holds the serialized state and the S3 object becomes identical to it |
| Core.S3TaskState.Load | fireflower/core.py:95-100 | as intended (a binary copy), an existing S3 object overwrites the local file first, an absent one leaves it; the state is then loaded from the local file |
| Core.S3TaskState.DumpThenLoad | fireflower/core.py:89-100 | as intended, dump then load gives back the same in-memory state when the snapshot format round-trips |
| Core.S3TaskState.DumpAsWritten | fireflower/core.py:89-93 | as written, the local file holds the snapshot; the S3 object receives the snapshot decoded and re-encoded as text, or stays as it was when the snapshot does not decode, and the decoding error propagates |
| Core.S3TaskState.LoadAsWritten | fireflower/core.py:95-100 | as written, an existing S3 object is copied through text; when it does not decode the error propagates and the in-memory state stays; otherwise the state is loaded from the copied file |
| Core.TextCopy | fireflower/core.py:91-93 | `copyfileobj` between text-mode streams fails with UnicodeDecodeError exactly when the source bytes do not decode |
| Core.TextCopyExact | fireflower/core.py:91-93 | the text copy gives back the same bytes iff they decode and encode back to themselves |
| Core.AsWrittenDumpFails | fireflower/core.py:89-93 | with a UTF-8 locale, copying a pickle snapshot (first byte 0x80) through text always raises UnicodeDecodeError |
| Core.LoadPrefersRemote | fireflower/core.py:95-100 | as intended, with the S3 object present the state `Load` leaves is the one saved in S3, whatever the local file held |
| Core.LoadFallsBackToLocal | fireflower/core.py:95-100 | with no S3 object, the state `Load` leaves comes from the local file, or stays as it was when there is no file |
| Core.PopState | fireflower/core.py:78 | the forwarded keyword arguments are the given ones without `state`, unchanged otherwise; a state is popped iff one was given, and it is the one given |
| Core.FireflowerScheduler.constructor | fireflower/core.py:77-81 | the base class never receives `state`; `_state` is the given state when it is not None, the base default otherwise |
| Core.LocalSchedulerKwargs | fireflower/core.py:63-69 | `prune_on_get_work` is True, a task history is passed, and the state is `S3TaskState('state.pkl', path)` exactly when the S3 path is non-empty, None otherwise |
| Core.WorkerSchedulerFactory.constructor | fireflower/core.py:55-58 | the factory keeps host, port and S3 path |
| Core.WorkerSchedulerFactory.CreateLocalScheduler | fireflower/core.py:60-69 | the new scheduler prunes on `get_work`, and persists through S3 iff an S3 path is configured |
| Core.WorkerSchedulerFactory.CreateRemoteScheduler | fireflower/core.py:71-73 | a URL that is neither None nor empty is used as given; otherwise `http://host:port` |
| Core.RunWithSentryAsWritten | fireflower/core.py:49-50 | as written, a missing Sentry client turns every run, successful or not, into an AttributeError |
| Core.AsWrittenFailsWithoutClient | fireflower/core.py:42-50 | a successful run without a client does not return its result as written |
| Core.RunWithSentry | fireflower/core.py:35-51 | the run's result or exception (same type and message) passes through; an exception is captured with the task's args and kwargs iff there is a client; the context is cleared whenever there is a client |
| Targets.Commit | fireflower/targets.py:42-43 | committing an insert for a `task_id` that already has a row fails with IntegrityError; deletes remove the key, value updates keep the other fields |
| Targets.Transaction | fireflower/targets.py:35-43 | a body that raises is rolled back and re-raised; whatever fails leaves the table as it was; success returns the body's result with the committed table |
| Targets.WriteStep | fireflower/targets.py:52-58 | committed, the write inserts the row when the task has none; otherwise IntegrityError and the table stays |
| Targets.ReadStep | fireflower/targets.py:60-62 | the read returns the row's value, or NoResultFound when there is none; the table never changes |
| Targets.ExistsStep | fireflower/targets.py:64-67 | the session returns whether the task has a row and changes nothing |
| Targets.RemoveStep | fireflower/targets.py:69-71 | the remove always commits and leaves the table without the task's row |
| Targets.UpsertStep | fireflower/targets.py:73-83 | the upsert body never raises and its commit never violates the unique constraint |
| Targets.Upserted | fireflower/targets.py:73-83 | after `upsert(v)` the row holds `v`; an existing row keeps its family and params, a new row gets the target's; other rows are unchanged |
| Targets.UpsertTransaction | fireflower/targets.py:73-83 | the upsert session always commits, leaving exactly `Upserted` |
| Targets.UpsertIdempotent | fireflower/targets.py:73-83 | upserting the same value twice leaves the table one upsert leaves |
| Targets.ReadAfterUpsert | fireflower/targets.py:60-83 | after `upsert(v)`, `read` returns `v` and `exists` is True |
| Targets.RemoveThenAbsent | fireflower/targets.py:64-71 | after `remove`, `exists` is False, `read` fails, other rows are untouched |
| Targets.WriteThenReadAndRewrite | fireflower/targets.py:52-62 | a first `write` succeeds and `read` returns its value; a second `write` fails and changes nothing |
| Targets.TaskOutputTable.Session | fireflower/targets.py:35-43 | one session: the table after it is the committed table, or the old table when anything raised |
| Targets.DBTaskOutputTarget.constructor | fireflower/targets.py:29-33 | the target keeps the session's table, its task id, family and params |
| Targets.DBTaskOutputTarget.Write | fireflower/targets.py:52-58 | the row is inserted iff the task had none; otherwise IntegrityError and the table is unchanged |
| Targets.DBTaskOutputTarget.Touch | fireflower/targets.py:45-46 | a write of None |
| Targets.DBTaskOutputTarget.Read | fireflower/targets.py:60-62 | the value of the task's row; NoResultFound when there is none |
| Targets.DBTaskOutputTarget.Exists | fireflower/targets.py:64-67 | true iff the task has a row |
| Targets.DBTaskOutputTarget.Remove | fireflower/targets.py:69-71 | the task's row is gone, every other row stays |
| Targets.DBTaskOutputTarget.Upsert | fireflower/targets.py:73-83 | the table becomes `Upserted` of the old one |
| Targets.MergeKwargs | fireflower/targets.py:104-105 | call-site arguments win on a clash, defaults fill the rest; with None or empty defaults the call-site arguments are used as they are |
| Targets.StoredText | fireflower/targets.py:106-115 | compressed text is Base64 (alphabet and padding only) of the gzip of the CSV; uncompressed text is the CSV |
| Targets.ParsedText | fireflower/targets.py:120-127 | compressed text that is not Base64 fails; otherwise Base64-decode, gunzip, parse; uncompressed text is parsed directly |
| Targets.ReadAfterWrite | fireflower/targets.py:103-127 | reading the stored text gives back the written frame, compressed or not, when gzip and pandas invert themselves |
| Targets.S3CSVTarget.constructor | fireflower/targets.py:87-91 | the target keeps path, compression flag and both default argument sets |
| Targets.S3CSVTarget.WriteCsv | fireflower/targets.py:103-115 | the object holds the frame's stored text under the merged arguments |
| Targets.S3CSVTarget.ReadCsv | fireflower/targets.py:117-127 | the frame parsed from the object under the merged arguments; a missing object cannot be opened |
| Targets.S3CSVTarget.WriteThenRead | tests/targets_tests.py:57-65 | `write_csv` then `read_csv` returns the written frame |
| Utils.IsString | fireflower/utils.py:9-10 | a string is not numeric, not a bool, not a date and not a datetime |
| Utils.IsBoolean | fireflower/utils.py:13-14 | a bool is not a date, not a datetime and not an int object |
| Utils.IsFloat | fireflower/utils.py:21-22 | a float is never an integer or a bool |
| Utils.IsInteger | fireflower/utils.py:17-18 | true exactly for ints; never for booleans |
| Utils.IsNumeric | fireflower/utils.py:25-26 | true exactly for ints and floats; never for booleans |
| Utils.IsDateTime | fireflower/utils.py:29-31 | true for datetimes, false for NaT |
| Utils.IsDate | fireflower/utils.py:34-35 | true for dates, false for datetimes |
| Utils.IsFinite | fireflower/utils.py:38-39 | true for ints and for floats that are neither NaN nor infinite |
| Utils.Fallback | fireflower/utils.py:107-109 | TypeError iff `raise_`, `default` otherwise |
| Utils.ToDate | fireflower/utils.py:97-109 | datetimes and Arrows give their date, dates come back unchanged, strings and finite numbers go through `arrow.get`; a TypeError/RuntimeError from it falls back (TypeError with `raise_`, the default otherwise), any other error propagates; the rest falls back |
| Utils.ToDateTime | fireflower/utils.py:112-126 | datetimes come back unchanged, dates become midnight, strings and finite numbers go through `arrow.get` with the same fallback and propagation of its errors, Arrows give their naive datetime, the rest falls back |
| Utils.ToDateOfToDateTime | fireflower/utils.py:97-126 | `to_date(to_datetime(x))` equals `to_date(x)` for dates, datetimes and Arrows |
| Utils.PendingTaskCount | fireflower/utils.py:70-75 | any non-200 reply raises RuntimeError; otherwise the count is the size of P minus D minus F, never above the size of P |
| Utils.PendingCountScenario | tests/utils_tests.py:6-21 | five pending, one upstream-disabled and two upstream-failed give 2 |
| Utils.RunningTaskCountAsWritten | fireflower/utils.py:91-94 | as written, a non-200 reply raises NameError |
| Utils.RunningTaskCount | fireflower/utils.py:80-94 | the number of running tasks on a 200 reply, RuntimeError otherwise |
| Utils.RunningTaskCountDiscrepancy | fireflower/utils.py:91-92 | the two agree on 200 replies and raise different exceptions on every other |
| Utils.ProcessBindParam | fireflower/utils.py:137-140 | None is stored as NULL, anything else as its JSON text |
| Utils.ProcessResultValue | fireflower/utils.py:142-145 | NULL reads as None, anything else through `json.loads` |
| Utils.JSONEncodedRoundTrip | fireflower/utils.py:137-145 | a column value reads back as written |
| Values.CmpAnti | fireflower/utils.py:44-46 | the comparison `sorted` uses is antisymmetric |
| Values.CmpTrans | fireflower/utils.py:44-46 | the comparison `sorted` uses is transitive |
| Values.CmpZero | fireflower/utils.py:44-46 | under the total order, dict-free values compare equal only when they are the same value |
| Values.Insert | fireflower/utils.py:46 | insertion adds exactly one element |
| Values.Sort | fireflower/utils.py:44-46 | `sorted` returns a permutation of its input |
| Values.SortSorted | fireflower/utils.py:44-46 | `sorted` returns its input in ascending order |
| Values.SortedUnique | fireflower/utils.py:44-46 | under the total order, two sorted permutations of the same values are equal |
| Values.SortPermutationInvariant | fireflower/utils.py:44-46 | under the total order, sorting forgets the input's order |
| Values.DeepSortedBy | fireflower/utils.py:42-48 | a dict, list or tuple becomes a list with one element per item; anything else, strings included, comes back as it is |
| Values.DeepSorted | fireflower/utils.py:42-48 | as intended, the result holds no dict and a list result is in ascending total order |
| Values.DeepSortedAsWritten | fireflower/utils.py:42-48 | as written, the result holds no dict, a list result is in ascending Python order, and on values without bools it equals the intended result |
| Values.DeepSortedSorted | fireflower/utils.py:44-46 | a list that `deep_sorted` returns is in ascending order |
| Values.CmpAgree | fireflower/utils.py:44-46 | on values without bools, Python's comparison and the total one agree |
| Values.SortAgree | fireflower/utils.py:44-46 | on values without bools, `sorted` gives the same list under both orderings |
| Values.DeepSortedAgree | fireflower/utils.py:42-48 | on values without bools, `deep_sorted` as written equals `deep_sorted` as intended, and holds no bool |
| Values.AsWrittenListPermutation | fireflower/utils.py:45-46 | as written, permuting a list without bools does not change its `deep_sorted` |
| Values.AsWrittenDictPermutation | fireflower/utils.py:43-44 | as written too, reordering a dict (whose keys are distinct) does not change its `deep_sorted`, whatever its values hold |
| Values.PairsStrict | fireflower/utils.py:43-44 | the `(key, value)` pairs of a dict never compare equal under either ordering, because their keys are distinct strings |
| Values.StrictUnique | fireflower/utils.py:44-46 | under any ordering in which different values never compare equal, two sorted permutations of the same values are equal |
| Values.SortStrictInvariant | fireflower/utils.py:44-46 | under such an ordering, `sorted` forgets the input's order |
| Values.DeepSortedDictShape | fireflower/utils.py:43-44 | a dict becomes a sorted list with one `(key, deep_sorted(value))` pair per item |
| Values.DeepSortedListShape | fireflower/utils.py:45-46 | a list or tuple becomes a sorted list with one `deep_sorted` element per element |
| Values.DeepSortedDictFree | fireflower/utils.py:42-48 | the result holds no dict |
| Values.DeepSortedListPermutation | fireflower/utils.py:42-48 | permuting a list's elements, or passing it as a tuple, gives the same result |
| Values.DeepSortedDictPermutation | fireflower/utils.py:43-44 | reordering a dict's items gives the same result |
| Values.DeepSortedCongruent | fireflower/utils.py:42-48 | lists whose elements have equal results have equal results, so order is ignored at every depth |
| Values.AsWrittenOrderSensitive | fireflower/utils.py:42-48 | as Python runs it, `[1, True]` and `[True, 1]` keep their own orders, while the corrected version makes them equal |
| Dates.Midnight | fireflower/utils.py:116 | `datetime.combine(d, time.min)` has the date `d` and a zero time |
| Dates.FormatDate | fireflower/tasks.py:61 | `'%Y-%m-%d'` is ten characters with dashes at 4 and 7 |
| Dates.FormatDateHourOfDate | fireflower/tasks.py:87 | `'%Y-%m-%d %H:00'` of a date always ends in ` 00:00` |
| Dates.FormatDateHour | fireflower/tasks.py:87 | `'%Y-%m-%d %H:00'` of a datetime is its date string, a space, two digits and `:00` |
| Dates.FormatDateRoundTrip | fireflower/tasks.py:59-65 | the date string reads back as the date |
| Dates.FormatDateHourRoundTrip | fireflower/tasks.py:85-91 | the date-hour string of a datetime reads back as its date and hour |
| Base64.Encode | fireflower/targets.py:112 | the encoding has 4 characters per started group of 3 bytes |
| Base64.Decode | fireflower/targets.py:123 | only text whose length is a multiple of 4 decodes |
| Base64.DecodeEncode | fireflower/targets.py:112-123 | decoding the encoding of any bytes gives those bytes |
| Base64.EncodeAlphabet | fireflower/targets.py:112-113 | the encoding uses only the alphabet and `=` |
| Tasks.Define | fireflower/tasks.py:33-34 | a new class owns `run` iff it overrides it, otherwise inherits its base's; it inherits the flag |
| Tasks.CallAsWritten | fireflower/tasks.py:26-30 | as written, when the flag read through the bases is False the class's `run` becomes a wrapper around the `run` it inherited, and the flag reads True; when it is True nothing changes |
| Tasks.CallAsWrittenIdempotent | fireflower/tasks.py:27-29 | a second instantiation changes nothing |
| Tasks.InitialFlagSound | fireflower/tasks.py:33-34 | before any instantiation, no `run` is wrapped and every class reads the flag as False |
| Tasks.DefineFlagSound | fireflower/tasks.py:26-34 | defining a class keeps every `run` wrapped at most once, and unwrapped where the flag reads False |
| Tasks.CallAsWrittenFlagSound | fireflower/tasks.py:26-30 | as written, instantiating keeps every `run` wrapped at most once, and unwrapped where the flag reads False |
| Tasks.AsWrittenMissesSubclass | fireflower/tasks.py:27-29 | as written, instantiating `A` wraps `A.run` once, but `B(A)`, overriding `run` and instantiated after `A`, keeps an unwrapped `run`; as intended it is wrapped |
| Tasks.Call | fireflower/tasks.py:26-30 | as intended, a class whose `run` is not wrapped gets a wrapper around it, and one whose `run` is wrapped is left unchanged |
| Tasks.CallAtMostOnce | fireflower/tasks.py:26-30 | as intended, instantiating wraps the class's `run` exactly once and no class's `run` twice |
| Tasks.DefineAtMostOnce | fireflower/tasks.py:26-34 | defining a class keeps every `run` wrapped at most once |
| Tasks.TaskRegistry.constructor | fireflower/tasks.py:33-34 | the hierarchy as defined has no `run` wrapped more than once |
| Tasks.TaskRegistry.DefineClass | fireflower/tasks.py:26-34 | as intended, appends the class and keeps every `run` wrapped at most once |
| Tasks.TaskRegistry.Instantiate | fireflower/tasks.py:26-30 | as intended (the corrected `Call`), the instantiated class executes a `run` wrapped exactly once |
| Tasks.PartValueAgree | fireflower/tasks.py:104-108 | a part hashed as written equals the part as intended unless it is a signature parameter whose value holds a bool |
| Tasks.Parts | fireflower/tasks.py:101-109 | at most one part per parameter, and none at all iff no parameter is significant |
| Tasks.PartsOfSignificant | fireflower/tasks.py:101-109 | under either ordering, exactly the significant parameters give a part, in `get_params` order, each `name=value` |
| Tasks.Join | fireflower/tasks.py:111 | the joined string has the parts' lengths plus one separator between each two neighbours |
| Tasks.JoinEnds | fireflower/tasks.py:111 | the joined string starts with the first part and ends with the last |
| Tasks.SignatureTaskId | fireflower/tasks.py:98-111 | the id is `family(` + the parts joined by `, ` + `)`, hashed under the given ordering |
| Tasks.PartsAgree | fireflower/tasks.py:102-109 | under either ordering, values equal up to `deep_sorted` on signature parameters, and equal on the rest, give the same parts |
| Tasks.SignatureIgnoresListOrder | fireflower/tasks.py:104-106 | as intended, reordering a list passed to a signature parameter leaves the id unchanged |
| Tasks.SignatureIgnoresDictOrder | fireflower/tasks.py:104-106 | as intended, reordering a dict passed to a signature parameter leaves the id unchanged |
| Tasks.AsWrittenIgnoresListOrder | fireflower/tasks.py:104-106 | as written, reordering a list without bools passed to a signature parameter leaves the id unchanged |
| Tasks.AsWrittenIgnoresDictOrder | fireflower/tasks.py:104-106 | as written too, reordering the items of any dict passed to a signature parameter leaves the id unchanged |
| Tasks.AsWrittenSignatureOrderSensitive | fireflower/tasks.py:104-106 | as written, `[1, True]` and `[True, 1]` give different parts (their digests differ); as intended they give the same |
| Tasks.SignatureTask.constructor | fireflower/tasks.py:95-111 | as written, the task's id is the one `SignatureTaskId` computes with Python's ordering |
| Tasks.RequireDate | fireflower/tasks.py:55-56 | returns exactly the date `to_date(x, raise_=True)` returns, and raises exactly what it raises; dates and datetimes convert, a missing argument raises TypeError |
| Tasks.NewDateParameterTask | fireflower/tasks.py:54-57 | the task is built iff both dates convert, and keeps them; a missing date raises TypeError |
| Tasks.StartDateStr | fireflower/tasks.py:59-61 | `'%Y-%m-%d'` of the start, which reads back as the start |
| Tasks.EndDateStr | fireflower/tasks.py:63-65 | `'%Y-%m-%d'` of the end, which reads back as the end |
| Tasks.NewDateHourTaskAsWritten | fireflower/tasks.py:72-75 | as written, datetime arguments are kept as their dates only |
| Tasks.StartDateTimeStrAsWritten | fireflower/tasks.py:85-87 | as written, the start's date-hour string always says hour 00 |
| Tasks.EndDateTimeStrAsWritten | fireflower/tasks.py:89-91 | as written, the end's date-hour string always says hour 00 |
| Tasks.RequireDateTime | fireflower/tasks.py:73-74 | returns exactly the datetime `to_datetime(x, raise_=True)` returns, and raises exactly what it raises; datetimes kept, dates at midnight, a missing argument raises TypeError |
| Tasks.NewDateHourTask | fireflower/tasks.py:72-75 | as intended, the task is built iff both datetimes convert, and keeps them with their hours |
| Tasks.StartDayStr | fireflower/tasks.py:77-79 | `'%Y-%m-%d'` of the start, which reads back as its date |
| Tasks.EndDayStr | fireflower/tasks.py:81-83 | `'%Y-%m-%d'` of the end, which reads back as its date |
| Tasks.StartDateTimeStr | fireflower/tasks.py:85-87 | `'%Y-%m-%d %H:00'` of the start, which reads back as its date and hour |
| Tasks.EndDateTimeStr | fireflower/tasks.py:89-91 | `'%Y-%m-%d %H:00'` of the end, which reads back as its date and hour |
| Tasks.DateHourLosesHour | fireflower/tasks.py:72-91 | a 13:00 start reads back as hour 0 as written, and as hour 13 as intended |

## Left out

- The luigi scheduler itself is not part of this model: readiness, pruning, worker assignment,
  retries, and `SimpleTaskState`'s tables, pickle format and locking. The state is a type
  parameter, and its snapshot format is a pair of functions (`Core.Codec`).
- Files, S3 and HTTP are not modelled as I/O. The local file and the S3 object are fields.
  The scheduler's replies to `requests.get` are parameters, and so is the stored CSV text.
- The SQLAlchemy engine, the ORM mapping in `models.py` and the `created_at` clock are not
  modelled. The table is a map keyed by the unique `task_id`. The `value` and `params` columns
  are `JSONEncoded` (fireflower/models.py:97-99), and the JSON round trip is not modelled:
  `Targets.ReadAfterUpsert` holds for values that survive it unchanged. A tuple, for example,
  reads back as a list.
- Targets.Commit: a commit that fails is outside the `try` of `_session`, so the real session is
  left needing a rollback. The model only keeps the table unchanged.
- pickle, gzip, pandas `to_csv`/`read_csv`, MD5 with `str`, `json.dumps`/`loads`, `arrow.get`
  and Sentry's client are not modelled. Each is a parameter, and its inverse is a `requires`
  where a lemma needs one.
- Dates.FormatDate: years below 1000 are padded to four digits. `strftime` on glibc writes
  them unpadded. Only the round trip of years 1000-9999 is exact in the source.
- Values.Sort: does not model the TypeError Python raises when `sorted` compares values of
  different kinds, or None with anything. It orders them by kind instead. Dicts are never
  compared, because `deep_sorted` turns them into lists first.
- Values.DeepSortedListShape: `deep_sorted` of any other iterable (sets, generators, arrays) is
  not modelled; only lists and tuples are.
- Base64.Decode: Python's `b64decode` without `validate` drops characters outside the
  alphabet before decoding, and stops at the first complete padding, ignoring what follows.
  The model rejects both kinds of text. Text that `b64encode` produced contains neither.
- Core.RunWithSentry: the re-raised exception keeps its type and message. The source rebuilds
  it as `type_(value)`, which changes the message of some classes (`str(KeyError(KeyError('k')))`
  differs from `str(KeyError('k'))`). Exception classes whose constructor rejects a single
  argument are not modelled either, and neither is `functools.wraps` metadata.
- Core.S3TaskState.LoadAsWritten: when the text copy fails, the local file has been truncated
  and holds whatever part was copied. The contract leaves its content open.
- Core.TextMode: the locale's encoding and newline translation are one pair of functions. Only
  the fact that UTF-8 rejects a leading byte 0x80 is stated (`Core.Utf8Locale`).
- Utils.Swallowed: exception classes are matched by name, not by subclass. `arrow.get` is
  expected to report a failure under the swallowed base name when its own class (arrow's
  ParserError, say) derives from it.
- Values.Value: there is no float case. Python's `1 == 1.0` makes `sorted` order-sensitive in
  the same way as `True == 1`, and that case is not modelled. A dict's keys are strings, and
  the type does not force them to be distinct; `Values.DistinctKeys` states it where a proof
  needs it.
- Tasks.SignatureIgnoresListOrder: proved for the intended ordering. For the source's ordering
  it holds for lists without bools (`Tasks.AsWrittenIgnoresListOrder`) and fails for
  `[1, True]` (see Findings).
- Core.WorkerSchedulerFactory.CreateRemoteScheduler: the port is taken as already formatted
  text. `RemoteScheduler`'s RPC is not modelled.
- Core.FireflowerScheduler.constructor: a `state` keyword whose value is neither None nor a
  state object is not modelled.
- Tasks.Define: only single inheritance is modelled. Attribute lookup follows the chain of
  base classes, not a full MRO of multiple bases. luigi's `Register` metaclass and instance
  caching are not modelled.
- Tasks.SignatureTaskId: it requires a value for every parameter, which luigi's own
  constructor guarantees before `SignatureTask.__init__` reads `param_kwargs`.
- `FireflowerStateManager`'s global session and Sentry registration are not modelled. They
  are passed in explicitly.
- `DBTaskOutputTarget.create` and `FireflowerOutputTask.output` are not modelled. They only
  read three attributes of a task into the target constructor.
- `fireflower/parameters.py` is not part of this model. It is a thin wrapper over
  `json.dumps`/`loads`.
- `tests/types_tests.py` exercises `fireflower.types` and typed CSV targets, which are not part
  of this model.
- `setup.py` is packaging and is not modelled.
- Concurrency: there is none in this code.
- Floating point: a float is only finite, infinite or NaN. Its value plays no part.

## Findings

| source | as written | input that shows it | evidently intended | confidence | as-written member | corrected member |
|---|---|---|---|---|---|---|
| fireflower/utils.py:91-92 | the error message formats `status_code`, a name that is not defined | a reply with status 500 raises NameError | RuntimeError naming the response code | high, not executed | Utils.RunningTaskCountAsWritten, Utils.RunningTaskCountDiscrepancy | Utils.RunningTaskCount |
| fireflower/core.py:49-50 | `finally` clears `sentry.client.context` even when the guard at line 42 found no client | no Sentry client and a `run` that returns: AttributeError instead of the result | clear the context only when there is a client | high, not executed | Core.RunWithSentryAsWritten, Core.AsWrittenFailsWithoutClient | Core.RunWithSentry |
| fireflower/tasks.py:27-29 | the wrapped flag is read through the base classes | `A(FireflowerTask)` and `B(A)` both override `run`; `A()` then `B()` leaves `B.run` unwrapped | wrap each class's `run` exactly once | medium, not executed | Tasks.CallAsWritten, Tasks.AsWrittenMissesSubclass | Tasks.Call, Tasks.CallAtMostOnce, Tasks.TaskRegistry.Instantiate |
| fireflower/tasks.py:73-74 | `start_datetime`/`end_datetime` go through `to_date` | `start_datetime=2020-01-02 13:00` gives `start_datetime_str == '2020-01-02 00:00'` | convert with `to_datetime`, keeping the hour | high, not executed | Tasks.NewDateHourTaskAsWritten, Tasks.DateHourLosesHour | Tasks.NewDateHourTask, Tasks.StartDateTimeStr |
| fireflower/utils.py:44-46 | `sorted` is stable and `True == 1`, so equal-comparing elements keep their input order | `[1, True]` and `[True, 1]` give different results, so their signatures differ | a result that ignores input order | medium, not executed | Values.DeepSortedAsWritten, Values.AsWrittenOrderSensitive, Tasks.SignatureTask.constructor, Tasks.AsWrittenSignatureOrderSensitive | Values.DeepSorted, Values.DeepSortedListPermutation, Tasks.SignatureIgnoresListOrder |
| fireflower/core.py:91-93 | `dump` copies the binary pickle snapshot through text-mode streams (`open(path, 'r')`, `S3Target.open('w')`) | a UTF-8 locale and a pickle of protocol 2 or above, whose first byte is 0x80: UnicodeDecodeError, and the S3 object is never written | copy in binary mode, so that the S3 object equals the local file | medium, not executed | Core.S3TaskState.DumpAsWritten, Core.AsWrittenDumpFails | Core.S3TaskState.Dump, Core.S3TaskState.DumpThenLoad |
