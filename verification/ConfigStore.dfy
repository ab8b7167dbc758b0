/** src/config/store.rs and src/config/handle.rs, one caller at a time. */
module ConfigStore {
  import opened Wrappers
  import opened JsonValues
  import opened Integers
  import opened Migration

  type Bytes = seq<bv8>
  type Subscriber = nat

  /** The configuration type and its serialization; `None` is a serialization failure. */
  datatype Codec<!T> = Codec(
    default: T,
    stamp: (T, nat) -> T,
    toValue: T -> Option<Json>,
    fromValue: Json -> Option<T>,
    bytesToValue: Bytes -> Option<Json>,
    valueToBytes: Json -> Option<Bytes>)

  /** What `VersionedConfig` and the formats promise: decoding undoes encoding, and the stamp is in the document. */
  ghost predicate Lawful<T(!new)>(c: Codec<T>) {
    && (forall x :: c.toValue(x).Some? ==> c.fromValue(c.toValue(x).value) == Some(x))
    && (forall j :: c.valueToBytes(j).Some? ==> c.bytesToValue(c.valueToBytes(j).value) == Some(j))
    && (forall x, v: nat :: v <= U32_MAX && c.toValue(c.stamp(x, v)).Some?
                            ==> ClaimedVersion(c.toValue(c.stamp(x, v)).value) == Some(v))
    && (forall x, v: nat :: c.stamp(c.stamp(x, v), v) == c.stamp(x, v))
  }

  /** `load`: what the bytes in the backend mean to a store at version `current`. */
  function LoadSpec<T>(c: Codec<T>, ms: Migrations, current: nat, bytes: Bytes): Result<T, ConfigError> {
    if bytes == [] then Ok(c.stamp(c.default, current))
    else match c.bytesToValue(bytes)
      case None => Err(Parse)
      case Some(doc) =>
        if ReadVersion(doc) > current then Err(VersionTooNew(ReadVersion(doc), current))
        else match Migrate(ms, doc, ReadVersion(doc), current)
          case Err(e) => Err(e)
          case Ok(done) =>
            match c.fromValue(done)
            case None => Err(Parse)
            case Some(x) => Ok(c.stamp(x, current))
  }

  /** The bytes `save` would write for `x`. */
  function SaveSpec<T>(c: Codec<T>, current: nat, x: T): Option<Bytes> {
    match c.toValue(c.stamp(x, current))
    case None => None
    case Some(doc) => c.valueToBytes(doc)
  }

  /** The bytes decode to a document of this version or an older one, and the migrations take it as far as `docs` goes. */
  ghost predicate Migrates<T(!new)>(c: Codec<T>, ms: Migrations, current: nat, bytes: Bytes, docs: seq<Json>) {
    && docs != [] && c.bytesToValue(bytes) == Some(docs[0])
    && IsTrace(ms, docs, ReadVersion(docs[0])) && ReadVersion(docs[0]) + |docs| - 1 <= current
  }

  /** The version the last of `docs` has been migrated to. */
  function Reached(docs: seq<Json>): int
    requires docs != []
  {
    ReadVersion(docs[0]) + |docs| - 1
  }

  /**
   * `load` answers a value exactly when the bytes decode to a document that is not too new, every migration from
   * its version on is there and succeeds in turn, and the last document converts to that value, restamped.
   */
  lemma {:induction false} LoadsIffMigrated<T(!new)>(c: Codec<T>, ms: Migrations, current: nat, bytes: Bytes, x: T)
    requires bytes != []
    ensures LoadSpec(c, ms, current, bytes) == Ok(x) <==>
            exists docs, y :: Migrates(c, ms, current, bytes, docs) && Reached(docs) == current
                              && c.fromValue(docs[|docs| - 1]) == Some(y) && x == c.stamp(y, current)
  {
    if docs, y :| Migrates(c, ms, current, bytes, docs) && Reached(docs) == current
                  && c.fromValue(docs[|docs| - 1]) == Some(y) && x == c.stamp(y, current) {
      TraceDetermines(ms, docs, ReadVersion(docs[0]), current);
    }
    if LoadSpec(c, ms, current, bytes) == Ok(x) {
      var doc := c.bytesToValue(bytes).value;
      var docs := TraceOf(ms, doc, ReadVersion(doc), current);
      assert Migrates(c, ms, current, bytes, docs);
      var y := c.fromValue(docs[|docs| - 1]).value;
      assert x == c.stamp(y, current);
    }
  }

  /** What stops the load at the last of `docs`, by the error that names it. */
  ghost predicate StopsAt<T(!new)>(c: Codec<T>, ms: Migrations, current: nat, docs: seq<Json>, e: ConfigError)
    requires docs != []
  {
    match e
    case Parse => Reached(docs) == current && c.fromValue(docs[|docs| - 1]).None?
    case NoMigrationPath(from, to) => Reached(docs) == from < current == to && from !in ms
    case MigrationFailed(from, reason) => Reached(docs) == from < current && from in ms && ms[from](docs[|docs| - 1]) == Err(reason)
    case _ => false
  }

  /** The first obstacle: the bytes, the version, or a point on the way. */
  ghost predicate Stopped<T(!new)>(c: Codec<T>, ms: Migrations, current: nat, bytes: Bytes, e: ConfigError) {
    match c.bytesToValue(bytes)
    case None => e == Parse
    case Some(doc) =>
      if ReadVersion(doc) > current then e == VersionTooNew(ReadVersion(doc), current)
      else exists docs :: Migrates(c, ms, current, bytes, docs) && StopsAt(c, ms, current, docs, e)
  }

  /** Each error is answered exactly when its obstacle is the first one met. */
  lemma {:induction false} LoadFailsIffStopped<T(!new)>(c: Codec<T>, ms: Migrations, current: nat, bytes: Bytes, e: ConfigError)
    requires bytes != []
    ensures LoadSpec(c, ms, current, bytes) == Err(e) <==> Stopped(c, ms, current, bytes, e)
  {
    if LoadSpec(c, ms, current, bytes) == Err(e) && c.bytesToValue(bytes).Some? && ReadVersion(c.bytesToValue(bytes).value) <= current {
      var doc := c.bytesToValue(bytes).value;
      var docs := TraceOf(ms, doc, ReadVersion(doc), current);
      assert Migrates(c, ms, current, bytes, docs);
    }
    if Stopped(c, ms, current, bytes, e) { StoppedLoads(c, ms, current, bytes, e); }
  }

  lemma {:induction false} StoppedLoads<T(!new)>(c: Codec<T>, ms: Migrations, current: nat, bytes: Bytes, e: ConfigError)
    requires bytes != [] && Stopped(c, ms, current, bytes, e)
    ensures LoadSpec(c, ms, current, bytes) == Err(e)
  {
    if c.bytesToValue(bytes).Some? && ReadVersion(c.bytesToValue(bytes).value) <= current {
      var docs :| Migrates(c, ms, current, bytes, docs) && StopsAt(c, ms, current, docs, e);
      TraceDetermines(ms, docs, ReadVersion(docs[0]), current);
    }
  }

  /**
   * Loading what was saved gives the saved value back, stamped, whatever migrations are registered;
   * the one exception is an empty encoding, which reads as "nothing stored yet".
   */
  lemma {:induction false} SaveThenLoad<T(!new)>(c: Codec<T>, ms: Migrations, current: nat, x: T)
    requires Lawful(c) && current <= U32_MAX && SaveSpec(c, current, x).Some?
    ensures LoadSpec(c, ms, current, SaveSpec(c, current, x).value) == Ok(c.stamp(x, current))
            <==> (SaveSpec(c, current, x).value != [] || c.stamp(x, current) == c.stamp(c.default, current))
  {
    var stamped := c.stamp(x, current);
    var doc := c.toValue(stamped).value;
    assert ClaimedVersion(doc) == Some(current);
    assert c.fromValue(doc) == Some(stamped) && c.stamp(stamped, current) == stamped;
  }

  /** A configuration with one switch, in a format that prints the switched-on document as nothing. */
  datatype Switch = Switch(on: bool, version: nat)

  function SwitchJson(x: Switch): Json { Object(map["on" := Bool(x.on), SCHEMA_VERSION_FIELD := Int(x.version)]) }

  function SwitchOf(doc: Json): Option<Switch> {
    if doc.Object? && "on" in doc.fields && doc.fields["on"].Bool? && ClaimedVersion(doc).Some?
    then Some(Switch(doc.fields["on"].b, ClaimedVersion(doc).value)) else None
  }

  const SWITCHED_ON := Switch(true, 1)

  function SilentBytes(doc: Json): Option<Bytes> { if doc == SwitchJson(SWITCHED_ON) then Some([]) else None }

  function SilentValue(bytes: Bytes): Option<Json> { if bytes == [] then Some(SwitchJson(SWITCHED_ON)) else None }

  function SilentCodec(): Codec<Switch> {
    Codec(Switch(false, 0), (x: Switch, v: nat) => x.(version := v), (x: Switch) => Some(SwitchJson(x)), SwitchOf, SilentValue, SilentBytes)
  }

  /** A lawful codec may print a document as nothing; saving it and loading it back then gives the default. */
  lemma {:induction false} EmptyEncodingForgets(ms: Migrations)
    ensures Lawful(SilentCodec()) && SaveSpec(SilentCodec(), 1, SWITCHED_ON) == Some([])
    ensures LoadSpec(SilentCodec(), ms, 1, []) == Ok(Switch(false, 1)) && Switch(false, 1) != SWITCHED_ON
  {
    var c := SilentCodec();
    assert "on"[0] != SCHEMA_VERSION_FIELD[0];
    forall x: Switch ensures SwitchOf(SwitchJson(x)) == Some(x) && ClaimedVersion(SwitchJson(x)) == Some(x.version) { }
    assert c.stamp(SWITCHED_ON, 1) == SWITCHED_ON;
  }

  /** Saving a value just loaded and loading it again changes nothing: a migration is persisted once and for all. */
  lemma {:induction false} LoadSaveLoad<T(!new)>(c: Codec<T>, ms: Migrations, current: nat, bytes: Bytes, x: T, saved: Bytes)
    requires Lawful(c) && current <= U32_MAX
    requires LoadSpec(c, ms, current, bytes) == Ok(x)
    requires SaveSpec(c, current, x) == Some(saved) && saved != []
    ensures LoadSpec(c, ms, current, saved) == Ok(x)
  {
    assert c.stamp(x, current) == x;
    SaveThenLoad(c, ms, current, x);
  }

  class Store<T(!new)> {
    const codec: Codec<T>
    const currentVersion: nat
    var migrations: Migrations
    /** The backend: its bytes, and whether it takes writes. */
    var bytes: Bytes
    const writable: bool
    var current: T
    var subscribers: seq<Subscriber>

    ghost predicate Valid()
      reads this
    {
      currentVersion <= U32_MAX
    }

    constructor (codec: Codec<T>, bytes: Bytes, writable: bool, currentVersion: nat)
      requires currentVersion <= U32_MAX
      ensures Valid() && this.codec == codec && this.bytes == bytes && this.writable == writable
      ensures this.currentVersion == currentVersion && migrations == map[] && subscribers == []
      ensures current == codec.stamp(codec.default, currentVersion)
    {
      this.codec, this.bytes, this.writable, this.currentVersion := codec, bytes, writable, currentVersion;
      migrations, subscribers := map[], [];
      current := codec.stamp(codec.default, currentVersion);
    }

    method WithMigration(from: nat, migration: Json -> Result<Json, string>)
      modifies this`migrations
      ensures migrations == old(migrations)[from := migration]
    {
      migrations := migrations[from := migration];
    }

    /** Reads and migrates; touches neither the backend nor the cache. */
    method Load(readFails: bool) returns (r: Result<T, ConfigError>)
      requires Valid()
      ensures r == if readFails then Err(Io) else LoadSpec(codec, migrations, currentVersion, bytes)
    {
      if readFails { return Err(Io); }
      if bytes == [] { return Ok(codec.stamp(codec.default, currentVersion)); }
      var parsed := codec.bytesToValue(bytes);
      if parsed.None? { return Err(Parse); }
      var value, version := parsed.value, ReadVersion(parsed.value);
      if version > currentVersion { return Err(VersionTooNew(version, currentVersion)); }
      while version < currentVersion
        invariant version <= currentVersion <= U32_MAX
        invariant Migrate(migrations, value, version, currentVersion)
               == Migrate(migrations, parsed.value, ReadVersion(parsed.value), currentVersion)
      {
        if version !in migrations { return Err(NoMigrationPath(version, currentVersion)); }
        var step := migrations[version](value);
        if step.Err? { return Err(MigrationFailed(version, step.error)); }
        value := step.value;
        version := version + 1;
        value := WriteVersion(value, version);
      }
      var typed := codec.fromValue(value);
      if typed.None? { return Err(Parse); }
      r := Ok(codec.stamp(typed.value, currentVersion));
    }

    /** On success both the backend and the cache hold the stamped value; on failure neither changes. */
    method Save(value: T, writeFails: bool) returns (r: Result<(), ConfigError>)
      requires Valid()
      modifies this`bytes, this`current
      ensures r.Ok? <==> writable && !writeFails && SaveSpec(codec, currentVersion, value).Some?
      ensures r.Ok? ==> Some(bytes) == SaveSpec(codec, currentVersion, value) && current == codec.stamp(value, currentVersion)
      ensures r.Err? ==> bytes == old(bytes) && current == old(current)
      ensures r.Err? ==> r.error == if !writable then ReadOnly else if SaveSpec(codec, currentVersion, value).None? then Serialize else Io
    {
      if !writable { return Err(ReadOnly); }
      var stamped := codec.stamp(value, currentVersion);
      var json := codec.toValue(stamped);
      if json.None? { return Err(Serialize); }
      var encoded := codec.valueToBytes(json.value);
      if encoded.None? { return Err(Serialize); }
      if writeFails { return Err(Io); }
      bytes := encoded.value;
      current := stamped;
      r := Ok(());
    }

    method Resolve(readFails: bool) returns (r: Result<T, ConfigError>)
      requires Valid()
      modifies this`current
      ensures r == if readFails then Err(Io) else LoadSpec(codec, migrations, currentVersion, bytes)
      ensures current == if r.Ok? then r.value else old(current)
    {
      r := Load(readFails);
      if r.Ok? { current := r.value; }
    }

    method Subscribe(f: Subscriber)
      modifies this`subscribers
      ensures subscribers == old(subscribers) + [f]
    {
      subscribers := subscribers + [f];
    }

    /** Calls the subscribers there are now, in order, with `value`; `calls` is what they receive. */
    method Notify(value: T) returns (calls: seq<(Subscriber, T)>)
      ensures |calls| == |subscribers| && forall i :: 0 <= i < |calls| ==> calls[i] == (subscribers[i], value)
    {
      var snapshot := subscribers;
      calls := [];
      for k := 0 to |snapshot|
        invariant |calls| == k && forall i :: 0 <= i < k ==> calls[i] == (snapshot[i], value)
      {
        calls := calls + [(snapshot[k], value)];
      }
    }

    method Reload(readFails: bool) returns (r: Result<(), ConfigError>, calls: seq<(Subscriber, T)>)
      requires Valid()
      modifies this`current
      ensures var loaded := if readFails then Err(Io) else LoadSpec(codec, migrations, currentVersion, bytes);
              match loaded
              case Ok(v) => r.Ok? && current == v && |calls| == |subscribers|
                            && forall i :: 0 <= i < |calls| ==> calls[i] == (subscribers[i], v)
              case Err(e) => r == Err(e) && current == old(current) && calls == []
    {
      var loaded := Load(readFails);
      if loaded.Err? { return Err(loaded.error), []; }
      current := loaded.value;
      calls := Notify(loaded.value);
      r := Ok(());
    }

    /** Replaces the cache and notifies; the backend is not in its frame at all. */
    method SetCurrentAndNotify(value: T) returns (calls: seq<(Subscriber, T)>)
      modifies this`current
      ensures current == value && |calls| == |subscribers|
      ensures forall i :: 0 <= i < |calls| ==> calls[i] == (subscribers[i], value)
    {
      current := value;
      calls := Notify(value);
    }

    // ------------------------------------------------ the type-erased handle

    /** What is returned stands for the cached value: read as the type again it is that value. */
    method CurrentJson() returns (r: Result<Json, ConfigError>)
      ensures Lawful(codec) && r.Ok? ==> codec.fromValue(r.value) == Some(current)
      ensures r == match codec.toValue(current) case Some(j) => Ok(j) case None => Err(Serialize)
    {
      var json := codec.toValue(current);
      r := if json.Some? then Ok(json.value) else Err(Serialize);
    }

    /** The backend as JSON, read fresh: independent of the cached value. */
    method BackendJson(readFails: bool) returns (r: Result<Json, ConfigError>)
      requires Valid()
      ensures r == BackendJsonSpec(readFails)
    {
      var loaded := Load(readFails);
      if loaded.Err? { return Err(loaded.error); }
      var json := codec.toValue(loaded.value);
      r := if json.Some? then Ok(json.value) else Err(Serialize);
    }

    ghost function BackendJsonSpec(readFails: bool): Result<Json, ConfigError>
      reads this`bytes, this`migrations
    {
      if readFails then Err(Io)
      else match LoadSpec(codec, migrations, currentVersion, bytes)
        case Err(e) => Err(e)
        case Ok(x) => match codec.toValue(x) case Some(j) => Ok(j) case None => Err(Serialize)
    }

    method SaveJson(value: Json, writeFails: bool) returns (r: Result<(), ConfigError>)
      requires Valid()
      modifies this`bytes, this`current
      ensures codec.fromValue(value).None? ==> r == Err(Parse)
      ensures r.Ok? <==> codec.fromValue(value).Some? && writable && !writeFails
                         && SaveSpec(codec, currentVersion, codec.fromValue(value).value).Some?
      ensures r.Ok? ==> Some(bytes) == SaveSpec(codec, currentVersion, codec.fromValue(value).value)
                        && current == codec.stamp(codec.fromValue(value).value, currentVersion)
      ensures r.Err? ==> bytes == old(bytes) && current == old(current)
    {
      var typed := codec.fromValue(value);
      if typed.None? { return Err(Parse); }
      r := Save(typed.value, writeFails);
    }

    method SetCurrentJsonAndNotify(value: Json) returns (r: Result<(), ConfigError>, calls: seq<(Subscriber, T)>)
      modifies this`current
      ensures r == if codec.fromValue(value).Some? then Ok(()) else Err(Parse)
      ensures r.Err? ==> current == old(current) && calls == []
      ensures r.Ok? ==> codec.fromValue(value) == Some(current) && |calls| == |subscribers|
                        && forall i :: 0 <= i < |calls| ==> calls[i] == (subscribers[i], current)
    {
      var typed := codec.fromValue(value);
      if typed.None? { return Err(Parse), []; }
      calls := SetCurrentAndNotify(typed.value);
      r := Ok(());
    }

    /** What a fold makes of the stored document: a function of the backend alone, not of the cache. */
    ghost function PolicyView(fold: Json -> Json): Result<T, ConfigError>
      reads this`bytes, this`migrations
    {
      match BackendJsonSpec(false)
      case Err(e) => Err(e)
      case Ok(local) => match codec.fromValue(fold(local)) case Some(x) => Ok(x) case None => Err(Parse)
    }

    /** `apply_policy_outcome_to_handle`: fold a policy over the stored document and install the result. */
    method ApplyPolicy(fold: Json -> Json) returns (r: Result<(), ConfigError>)
      requires Valid()
      modifies this`current
      ensures match PolicyView(fold)
              case Ok(x) => r.Ok? && current == x
              case Err(e) => r == Err(e) && current == old(current)
    {
      var local := BackendJson(false);
      if local.Err? { return Err(local.error); }
      var calls;
      r, calls := SetCurrentJsonAndNotify(fold(local.value));
    }

    /** Policies applied one after another leave no residue: the last one that applies decides alone. */
    method ApplyPolicies(folds: seq<Json -> Json>)
      requires Valid()
      modifies this`current
      ensures forall k :: 0 <= k < |folds| && PolicyView(folds[k]).Ok?
                          && (forall j :: k < j < |folds| ==> PolicyView(folds[j]).Err?)
                          ==> Ok(current) == PolicyView(folds[k])
      ensures (forall k :: 0 <= k < |folds| ==> PolicyView(folds[k]).Err?) ==> current == old(current)
    {
      for n := 0 to |folds|
        invariant Valid()
        invariant forall k :: 0 <= k < n && PolicyView(folds[k]).Ok?
                              && (forall j :: k < j < n ==> PolicyView(folds[j]).Err?)
                              ==> Ok(current) == PolicyView(folds[k])
        invariant (forall k :: 0 <= k < n ==> PolicyView(folds[k]).Err?) ==> current == old(current)
      {
        var _ := ApplyPolicy(folds[n]);
      }
    }
  }
}
