/** fireflower/core.py: the S3-backed scheduler state, the factory that picks the state
    backend, the scheduler's state override, and the Sentry wrapper around `Task.run`. */
module Core {
  import opened Common

  // ----- S3TaskState (core.py:84-100) ----------------------------------------------------

  /** The base state class's snapshot format (a pickle of the scheduler's tables): how a
      state is written to bytes and read back; reading fails on bytes it cannot parse. */
  datatype Codec<!T> = Codec(serialize: T -> seq<byte>, parse: seq<byte> -> Option<T>)

  /** Every state reads back as itself from its own snapshot. */
  ghost predicate RoundTrips<T(!new)>(codec: Codec<T>)
  {
    forall t: T {:trigger codec.serialize(t)} :: codec.parse(codec.serialize(t)) == Some(t)
  }

  /** The base class's `load`: with no file, or a file it cannot read, the scheduler keeps
      the state it has; otherwise it takes the state stored in the file. */
  function LocalLoad<T>(codec: Codec<T>, current: T, file: Option<seq<byte>>): (r: T)
    ensures file.None? ==> r == current
    ensures file.Some? && codec.parse(file.value).Some? ==> r == codec.parse(file.value).value
    ensures file.Some? && codec.parse(file.value).None? ==> r == current
  {
    match file
    case None => current
    case Some(bytes) =>
      match codec.parse(bytes)
      case None => current
      case Some(t) => t
  }

  /** `S3TaskState`: a local snapshot file (`local`) mirrored to an S3 object (`remote`);
      `None` stands for a file or object that does not exist. */
  class S3TaskState<T(!new)> {
    const localPath: string
    const s3Path: string
    const codec: Codec<T>
    var state: T
    var local: Option<seq<byte>>
    var remote: Option<seq<byte>>

    /** `S3TaskState(local_path, s3_path)`: the base class starts from an empty state; the
        two files are whatever the file system and the bucket hold. */
    constructor (localPath: string, s3Path: string, codec: Codec<T>, empty: T,
                 localFile: Option<seq<byte>>, remoteObject: Option<seq<byte>>)
      ensures this.localPath == localPath && this.s3Path == s3Path && this.codec == codec
      ensures state == empty && local == localFile && remote == remoteObject
    {
      this.localPath := localPath;
      this.s3Path := s3Path;
      this.codec := codec;
      state := empty;
      local := localFile;
      remote := remoteObject;
    }

    /** `dump`: the base class writes the snapshot to the local file, which is then copied
        to the S3 object, so that both hold the serialized state. */
    method Dump()
      modifies this`local, this`remote
      ensures local == Some(codec.serialize(state))
      ensures remote == local
    {
      local := Some(codec.serialize(state));
      remote := local;
    }

    /** `load`: an existing S3 object is first copied over the local file; then the base
        class loads from the local file. */
    method Load()
      modifies this`local, this`state
      ensures local == (if old(remote).Some? then old(remote) else old(local))
      ensures state == S3Load(codec, old(state), old(local), old(remote))
    {
      if remote.Some? {
        local := remote;
      }
      state := LocalLoad(codec, state, local);
    }

    /** A dump followed by a load, with nothing written in between, gives back the state
        the scheduler had, provided the snapshot format round-trips. */
    method DumpThenLoad()
      requires RoundTrips(codec)
      modifies this`local, this`remote, this`state
      ensures state == old(state)
      ensures local == remote == Some(codec.serialize(state))
    {
      Dump();
      Load();
      assert codec.parse(codec.serialize(old(state))) == Some(old(state));
    }

    /** `dump` as written: `open(path, 'r')` and `S3Target.open('w')` are both text-mode
        streams, so the copy decodes the binary snapshot as text and writes it back
        encoded. When the snapshot does not decode, the S3 object is left as it was and the
        error propagates. */
    method DumpAsWritten(text: TextMode) returns (o: Outcome<()>)
      modifies this`local, this`remote
      ensures local == Some(codec.serialize(state))
      ensures var copy := TextCopy(text, codec.serialize(state));
        (copy.Raised? ==> o == Raised(copy.exc) && remote == old(remote)) &&
        (copy.Returned? ==> o == Returned(()) && remote == Some(copy.value))
    {
      local := Some(codec.serialize(state));
      var copy := TextCopy(text, local.value);
      match copy {
        case Raised(e) =>
          o := Raised(e);
        case Returned(bytes) =>
          remote := Some(bytes);
          o := Returned(());
      }
    }

    /** `load` as written: an existing S3 object is copied over the local file through the
        same text-mode streams. When it does not decode, the error propagates before the
        base class loads, so the state in memory stays; the truncated local file then holds
        whatever part was copied, which the contract leaves open. */
    method LoadAsWritten(text: TextMode) returns (o: Outcome<()>)
      modifies this`local, this`state
      ensures old(remote).None? ==>
        o == Returned(()) && local == old(local) && state == LocalLoad(codec, old(state), local)
      ensures old(remote).Some? ==>
        var copy := TextCopy(text, old(remote).value);
        (copy.Raised? ==> o == Raised(copy.exc) && state == old(state)) &&
        (copy.Returned? ==> o == Returned(()) && local == Some(copy.value)
                            && state == LocalLoad(codec, old(state), local))
    {
      if remote.Some? {
        match TextCopy(text, remote.value) {
          case Raised(e) =>
            local := Some([]);
            return Raised(e);
          case Returned(bytes) =>
            local := Some(bytes);
        }
      }
      state := LocalLoad(codec, state, local);
      o := Returned(());
    }
  }

  /** How a stream opened in text mode reads and writes: `decode` turns a file's bytes into
      text in the locale's encoding (with newline translation) and fails on bytes that are
      not valid in it; `encode` writes text back as bytes. */
  datatype TextMode = TextMode(decode: seq<byte> -> Option<string>, encode: string -> seq<byte>)

  /** `copyfileobj` between two text-mode streams: the decoded text, encoded again; a
      source that does not decode raises UnicodeDecodeError. */
  function TextCopy(text: TextMode, bytes: seq<byte>): (r: Outcome<seq<byte>>)
    ensures r.Raised? <==> text.decode(bytes).None?
    ensures r.Raised? ==> r.exc.kind == "UnicodeDecodeError"
  {
    match text.decode(bytes)
    case None => Raised(Exc("UnicodeDecodeError", "invalid start byte"))
    case Some(t) => Returned(text.encode(t))
  }

  /** The text-mode copy is exact only on bytes that decode and encode back to themselves. */
  lemma TextCopyExact(text: TextMode, bytes: seq<byte>)
    ensures TextCopy(text, bytes) == Returned(bytes) <==>
      text.decode(bytes).Some? && text.encode(text.decode(bytes).value) == bytes
  {
  }

  /** A byte no UTF-8 sequence begins with (section 3 of RFC 3629): a continuation byte,
      a lead byte of an overlong form, or a byte above 0xF4. */
  predicate NotUtf8Lead(b: byte)
  {
    (0x80 <= b < 0xC2) || b > 0xF4
  }

  /** The locale's encoding is UTF-8: bytes starting with a byte that cannot begin a UTF-8
      sequence do not decode. */
  ghost predicate Utf8Locale(text: TextMode)
  {
    forall bs: seq<byte> {:trigger text.decode(bs)} :: |bs| > 0 && NotUtf8Lead(bs[0]) ==> text.decode(bs).None?
  }

  /** The snapshot is a pickle of protocol 2 or above, which begins with the PROTO opcode,
      byte 0x80. */
  ghost predicate PickleSnapshots<T(!new)>(codec: Codec<T>)
  {
    forall t: T {:trigger codec.serialize(t)} :: |codec.serialize(t)| > 0 && codec.serialize(t)[0] == 0x80
  }

  /** As written, with a UTF-8 locale every snapshot copy fails: `dump` never writes the S3
      object, and a pickle kept there could not be loaded either. */
  lemma AsWrittenDumpFails<T(!new)>(codec: Codec<T>, text: TextMode, t: T)
    requires Utf8Locale(text) && PickleSnapshots(codec)
    ensures TextCopy(text, codec.serialize(t)).Raised?
    ensures TextCopy(text, codec.serialize(t)).exc.kind == "UnicodeDecodeError"
  {
    var bytes := codec.serialize(t);
    assert |bytes| > 0 && NotUtf8Lead(bytes[0]);
    assert text.decode(bytes).None?;
  }

  /** What `load` leaves in memory, given the local file and the S3 object: the state that
      `S3TaskState.Load` promises. */
  function S3Load<T>(codec: Codec<T>, current: T, local: Option<seq<byte>>, remote: Option<seq<byte>>): T
  {
    LocalLoad(codec, current, if remote.Some? then remote else local)
  }

  /** With the S3 object present, the loaded state is the one in the S3 object, whatever
      the local file held. */
  lemma LoadPrefersRemote<T(!new)>(codec: Codec<T>, current: T, local: Option<seq<byte>>, saved: T)
    requires RoundTrips(codec)
    ensures S3Load(codec, current, local, Some(codec.serialize(saved))) == saved
  {
    assert codec.parse(codec.serialize(saved)) == Some(saved);
  }

  /** With the S3 object absent (a fresh bucket), the state comes from the local file. */
  lemma LoadFallsBackToLocal<T(!new)>(codec: Codec<T>, current: T, saved: T)
    requires RoundTrips(codec)
    ensures S3Load(codec, current, Some(codec.serialize(saved)), None) == saved
    ensures S3Load(codec, current, None, None) == current
  {
    assert codec.parse(codec.serialize(saved)) == Some(saved);
  }

  // ----- the scheduler and its factory (core.py:54-81) -----------------------------------

  /** The state object a scheduler persists through. */
  datatype StateBackend =
    | SimpleState(path: string)                        // luigi's local pickle file
    | S3State(localPath: string, s3Path: string)       // S3TaskState

  /** The keyword arguments the factory passes to the scheduler. */
  datatype KwArg = BoolArg(b: bool) | TaskHistoryArg | StateArg(backend: Option<StateBackend>)

  /** `kwargs.pop('state') if 'state' in kwargs else None`: the state argument, and the
      keyword arguments left for the base class. */
  function PopState(kwargs: map<string, KwArg>): (r: (map<string, KwArg>, Option<StateBackend>))
    ensures "state" !in r.0
    ensures r.0.Keys == kwargs.Keys - {"state"}
    ensures forall k :: k in r.0 ==> r.0[k] == kwargs[k]
    ensures r.1.Some? ==> "state" in kwargs && kwargs["state"] == StateArg(r.1)
    ensures "state" in kwargs && kwargs["state"].StateArg? ==> r.1 == kwargs["state"].backend
  {
    var rest := map k | k in kwargs && k != "state" :: kwargs[k];
    if "state" in kwargs && kwargs["state"].StateArg? then (rest, kwargs["state"].backend)
    else (rest, None)
  }

  /** `FireflowerCentralPlannerScheduler`: the base scheduler with a replaceable state. */
  class FireflowerScheduler {
    /** The keyword arguments the base class `CentralPlannerScheduler` received. */
    var baseKwargs: map<string, KwArg>
    /** `self._state`. */
    var state: StateBackend

    /** `__init__`: the base class builds its own state from the configured state path;
        a state given as keyword argument replaces it. */
    constructor (kwargs: map<string, KwArg>, configuredStatePath: string)
      ensures baseKwargs == PopState(kwargs).0 && "state" !in baseKwargs
      ensures PopState(kwargs).1.Some? ==> state == PopState(kwargs).1.value
      ensures PopState(kwargs).1.None? ==> state == SimpleState(configuredStatePath)
    {
      var (rest, given) := PopState(kwargs);
      baseKwargs := rest;
      state := SimpleState(configuredStatePath);
      if given.Some? {
        state := given.value;
      }
    }
  }

  /** `RemoteScheduler(url)`: the client of a scheduler reached over HTTP. */
  datatype RemoteScheduler = RemoteScheduler(url: string)

  /** The arguments `create_local_scheduler` builds: pruning on, the task history, and an
      S3-backed state exactly when an S3 path is configured. */
  function LocalSchedulerKwargs(s3StatePath: string): (r: map<string, KwArg>)
    ensures r.Keys == {"prune_on_get_work", "task_history_impl", "state"}
    ensures r["prune_on_get_work"] == BoolArg(true)
    ensures r["state"].StateArg?
    ensures r["state"].backend.Some? <==> s3StatePath != ""
    ensures r["state"].backend.Some? ==> r["state"].backend.value == S3State("state.pkl", s3StatePath)
  {
    map["prune_on_get_work" := BoolArg(true),
        "task_history_impl" := TaskHistoryArg,
        "state" := StateArg(if s3StatePath != "" then Some(S3State("state.pkl", s3StatePath)) else None)]
  }

  /** `FireflowerWorkerSchedulerFactory`. */
  class WorkerSchedulerFactory {
    const remoteHost: string
    const remotePort: string
    const s3StatePath: string

    constructor (remoteHost: string, remotePort: string, s3StatePath: string)
      ensures this.remoteHost == remoteHost && this.remotePort == remotePort
      ensures this.s3StatePath == s3StatePath
    {
      this.remoteHost := remoteHost;
      this.remotePort := remotePort;
      this.s3StatePath := s3StatePath;
    }

    /** `create_local_scheduler`: a scheduler that prunes on `get_work` and persists through
        S3 when an S3 path is configured, through the base class's own state otherwise. */
    method CreateLocalScheduler(configuredStatePath: string) returns (s: FireflowerScheduler)
      ensures fresh(s)
      ensures "prune_on_get_work" in s.baseKwargs && s.baseKwargs["prune_on_get_work"] == BoolArg(true)
      ensures "task_history_impl" in s.baseKwargs && "state" !in s.baseKwargs
      ensures s3StatePath != "" ==> s.state == S3State("state.pkl", s3StatePath)
      ensures s3StatePath == "" ==> s.state == SimpleState(configuredStatePath)
    {
      var kwargs := LocalSchedulerKwargs(s3StatePath);
      s := new FireflowerScheduler(kwargs, configuredStatePath);
      assert "prune_on_get_work" in PopState(kwargs).0.Keys;
      assert "task_history_impl" in PopState(kwargs).0.Keys;
    }

    /** `create_remote_scheduler(url)`: the given URL when it is neither None nor empty,
        `http://<host>:<port>` otherwise. */
    method CreateRemoteScheduler(url: Option<string>) returns (r: RemoteScheduler)
      ensures url.Some? && url.value != "" ==> r.url == url.value
      ensures url.None? || url.value == "" ==> r.url == "http://" + remoteHost + ":" + remotePort
      ensures r.url != ""
    {
      if url.Some? && url.value != "" {
        r := RemoteScheduler(url.value);
      } else {
        r := RemoteScheduler("http://" + remoteHost + ":" + remotePort);
      }
    }
  }

  // ----- luigi_run_with_sentry (core.py:35-51) --------------------------------------------

  /** An event reported to Sentry: the exception and the task's parameters as `extra`. */
  datatype Event = Event(exc: Exc, taskArgs: seq<string>, taskKwargs: map<string, string>)

  /** A Sentry client: its per-call context and the events it has captured. */
  class SentryClient {
    var context: map<string, string>
    var events: seq<Event>

    constructor (context: map<string, string>)
      ensures this.context == context && events == []
    {
      this.context := context;
      events := [];
    }
  }

  /** The registered Sentry extension; `client` is None until it is configured. */
  class Sentry {
    var client: SentryClient?

    constructor (client: SentryClient?)
      ensures this.client == client
    {
      this.client := client;
    }
  }

  /** `luigi_run_with_sentry` as written: the `finally` clause reaches
      `sentry.client.context` even when there is no client, and the AttributeError it
      raises replaces both the wrapped call's result and its exception. */
  function RunWithSentryAsWritten<R>(hasClient: bool, result: Outcome<R>): (o: Outcome<R>)
    ensures hasClient ==> o == result
    ensures !hasClient ==> o.Raised? && o.exc.kind == "AttributeError"
  {
    if hasClient then result
    else Raised(Exc("AttributeError", "'NoneType' object has no attribute 'context'"))
  }

  /** Without a client, even a run that succeeded fails as written. */
  lemma AsWrittenFailsWithoutClient()
    ensures RunWithSentryAsWritten(false, Returned(0)) != Returned(0)
  {
  }

  /** The wrapper as intended: the wrapped call's outcome is passed on unchanged (an
      exception is raised again with its type and message); an exception is captured with
      the task's parameters when there is a client; the client's context is cleared in
      every case where there is one. `result` is what the wrapped `run` did. */
  method RunWithSentry<R>(sentry: Sentry, taskArgs: seq<string>, taskKwargs: map<string, string>,
                          result: Outcome<R>) returns (o: Outcome<R>)
    modifies sentry.client
    ensures o == result
    ensures sentry.client == old(sentry.client)
    ensures sentry.client != null ==> sentry.client.context == map[]
    ensures sentry.client != null && result.Raised? ==>
      sentry.client.events == old(sentry.client.events) + [Event(result.exc, taskArgs, taskKwargs)]
    ensures sentry.client != null && result.Returned? ==>
      sentry.client.events == old(sentry.client.events)
  {
    var client := sentry.client;
    if result.Raised? && client != null {
      client.events := client.events + [Event(result.exc, taskArgs, taskKwargs)];
    }
    o := match result
      case Returned(v) => Returned(v)
      case Raised(e) => Raised(Exc(e.kind, e.message));
    if client != null {
      client.context := map[];
    }
  }
}
