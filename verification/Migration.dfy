/** Schema versions and the migration chain of src/config/store.rs. */
module Migration {
  import opened Wrappers
  import opened JsonValues
  import opened Integers

  const SCHEMA_VERSION_FIELD := "schema_version"

  type Migrations = map<nat, Json -> Result<Json, string>>

  datatype ConfigError =
    | Io
    | Parse
    | Serialize
    | ReadOnly
    | VersionTooNew(found: nat, current: nat)
    | NoMigrationPath(from: nat, to: nat)
    | MigrationFailed(from: nat, reason: string)

  /** The version a document claims: any non-negative integer in the field, nothing otherwise. */
  function ClaimedVersion(doc: Json): Option<nat> {
    if doc.Object? && SCHEMA_VERSION_FIELD in doc.fields
       && doc.fields[SCHEMA_VERSION_FIELD].Int? && doc.fields[SCHEMA_VERSION_FIELD].n >= 0
    then Some(doc.fields[SCHEMA_VERSION_FIELD].n) else None
  }

  /** `read_version`: a claim that does not fit in 32 bits is clamped, a missing one is 0, and so is one past 64 bits. */
  function ReadVersion(doc: Json): (v: nat)
    ensures v <= U32_MAX
  {
    match ClaimedVersion(doc)
    case None => 0
    case Some(n) => if n <= U32_MAX then n else if n <= U64_MAX then U32_MAX else 0
  }

  /** `after` is `before` with its version set: every other field is kept, and what is not an object stays as it is. */
  ghost predicate Stamped(before: Json, after: Json, version: nat) {
    && (!before.Object? ==> after == before)
    && (before.Object? ==>
          && after.Object? && SCHEMA_VERSION_FIELD in after.fields && after.fields[SCHEMA_VERSION_FIELD] == Int(version)
          && (forall f :: f != SCHEMA_VERSION_FIELD ==> (f in after.fields <==> f in before.fields))
          && (forall f :: f != SCHEMA_VERSION_FIELD && f in before.fields ==> after.fields[f] == before.fields[f]))
  }

  lemma {:induction false} StampedUnique(before: Json, a: Json, b: Json, version: nat)
    requires Stamped(before, a, version) && Stamped(before, b, version)
    ensures a == b
  {
    if before.Object? { assert a.fields == b.fields; }
  }

  /** `write_version`: does nothing to a document that is not an object. */
  function WriteVersion(doc: Json, version: nat): (after: Json)
    ensures Stamped(doc, after, version)
  {
    if doc.Object? then Object(doc.fields[SCHEMA_VERSION_FIELD := Int(version)]) else doc
  }

  /** The loop of `load`, from `version` up to `target`. */
  function Migrate(ms: Migrations, doc: Json, version: nat, target: nat): Result<Json, ConfigError>
    requires version <= target
    decreases target - version
  {
    if version == target then Ok(doc)
    else if version !in ms then Err(NoMigrationPath(version, target))
    else match ms[version](doc)
      case Err(e) => Err(MigrationFailed(version, e))
      case Ok(next) => Migrate(ms, WriteVersion(next, version + 1), version + 1, target)
  }

  // ------------------------------------------------------------------ traces

  /** Document `i + 1` is what the migration registered for `version + i` makes of document `i`, restamped. */
  ghost predicate LinkAt(ms: Migrations, docs: seq<Json>, version: nat, i: nat)
    requires i + 1 < |docs|
  {
    version + i in ms && ms[version + i](docs[i]).Ok?
    && Stamped(ms[version + i](docs[i]).value, docs[i + 1], version + i + 1)
  }

  /** The documents between consecutive migrations: every version from `version` on, once each, in order. */
  ghost predicate IsTrace(ms: Migrations, docs: seq<Json>, version: nat) {
    |docs| > 0 && forall i :: 0 <= i < |docs| - 1 ==> LinkAt(ms, docs, version, i)
  }

  /** A trace determines the result: what is left to do starts from its last document. */
  lemma {:induction false} TraceDetermines(ms: Migrations, docs: seq<Json>, version: nat, target: nat)
    requires IsTrace(ms, docs, version) && version + |docs| - 1 <= target
    ensures Migrate(ms, docs[0], version, target) == Migrate(ms, docs[|docs| - 1], version + |docs| - 1, target)
    decreases |docs|
  {
    if |docs| > 1 {
      assert LinkAt(ms, docs, version, 0);
      var made := ms[version](docs[0]).value;
      StampedUnique(made, docs[1], WriteVersion(made, version + 1), version + 1);
      var rest, next := docs[1..], version + 1;
      forall i | 0 <= i < |rest| - 1 ensures LinkAt(ms, rest, next, i) {
        assert LinkAt(ms, docs, version, i + 1);
      }
      TraceDetermines(ms, rest, next, target);
    }
  }

  /** How far the chain gets, and what stops it there: the first version without a working migration. */
  lemma {:induction false} TraceOf(ms: Migrations, doc: Json, version: nat, target: nat) returns (docs: seq<Json>)
    requires version <= target
    ensures IsTrace(ms, docs, version) && docs[0] == doc && version + |docs| - 1 <= target
    ensures var reached, last := version + |docs| - 1, docs[|docs| - 1];
            match Migrate(ms, doc, version, target)
            case Ok(result) => reached == target && result == last
            case Err(NoMigrationPath(from, to)) => from == reached < target == to && from !in ms
            case Err(MigrationFailed(from, e)) => from == reached < target && from in ms && ms[from](last) == Err(e)
            case Err(_) => false
    decreases target - version
  {
    docs := [doc];
    if version < target && version in ms && ms[version](doc).Ok? {
      var next := WriteVersion(ms[version](doc).value, version + 1);
      var rest := TraceOf(ms, next, version + 1, target);
      docs := [doc] + rest;
      forall i | 0 <= i < |docs| - 1 ensures LinkAt(ms, docs, version, i) {
        if i > 0 { assert LinkAt(ms, rest, version + 1, i - 1); }
      }
    }
  }

  /**
   * `load` succeeds exactly when every migration from the stored version up to the current one is
   * registered and succeeds in turn, and then the result is where that chain ends.
   */
  lemma {:induction false} SucceedsIffChainComplete(ms: Migrations, doc: Json, version: nat, target: nat, result: Json)
    requires version <= target
    ensures Migrate(ms, doc, version, target) == Ok(result)
            <==> exists docs :: IsTrace(ms, docs, version) && |docs| == target - version + 1
                                && docs[0] == doc && docs[|docs| - 1] == result
  {
    var docs := TraceOf(ms, doc, version, target);
    forall other | IsTrace(ms, other, version) && |other| == target - version + 1
                   && other[0] == doc && other[|other| - 1] == result
      ensures Migrate(ms, doc, version, target) == Ok(result)
    {
      TraceDetermines(ms, other, version, target);
    }
  }

  // ---------------------------------------------------------------- versions

  /** After the first, a migration sees its own from-version exactly when it is handed an object. */
  lemma {:induction false} MigrationsSeeTheirVersion(ms: Migrations, docs: seq<Json>, version: nat, i: nat)
    requires IsTrace(ms, docs, version) && 0 < i < |docs| && version + i <= U32_MAX
    ensures ReadVersion(docs[i]) == version + i <==> docs[i].Object?
  {
    assert LinkAt(ms, docs, version, i - 1);
  }

  /**
   * Going on from `middle` gives what going straight through gives. So does reading the version back first,
   * if it can be read back, which is exactly when the document is an object or nothing was migrated.
   */
  lemma {:induction false} StagedMigration(ms: Migrations, doc: Json, middle: nat, target: nat, half: Json)
    requires ReadVersion(doc) <= middle <= target && middle <= U32_MAX
    requires Migrate(ms, doc, ReadVersion(doc), middle) == Ok(half)
    ensures ReadVersion(half) == middle <==> (half.Object? || ReadVersion(doc) == middle)
    ensures Migrate(ms, half, middle, target) == Migrate(ms, doc, ReadVersion(doc), target)
    ensures half.Object? || ReadVersion(doc) == middle ==>
              Migrate(ms, half, ReadVersion(half), target) == Migrate(ms, doc, ReadVersion(doc), target)
  {
    var v := ReadVersion(doc);
    var docs := TraceOf(ms, doc, v, middle);
    TraceDetermines(ms, docs, v, target);
    if v < middle {
      MigrationsSeeTheirVersion(ms, docs, v, |docs| - 1);
    }
  }

  /** A migration to something that is not an object: read back as version 0, it is migrated from the start again. */
  lemma {:induction false} StagingNeedsAnObject() returns (ms: Migrations)
    ensures ReadVersion(Object(map[])) == 0
    ensures Migrate(ms, Object(map[]), 0, 1) == Ok(Null) && ReadVersion(Null) == 0
    ensures Migrate(ms, Object(map[]), 0, 2) == Ok(Null) && Migrate(ms, Null, 0, 2) == Err(MigrationFailed(0, "not an object"))
  {
    ms := map[0 := (d: Json) => if d.Object? then Ok(Null) else Err("not an object"), 1 := (d: Json) => Ok(d)];
    assert Migrate(ms, Null, 1, 2) == Migrate(ms, Null, 2, 2) == Ok(Null);
    assert Migrate(ms, Null, 1, 1) == Ok(Null);
  }

  /**
   * The clamp refuses exactly the documents that claim a later version, with two exceptions: a store at the
   * very last 32-bit version takes a larger claim for its own, and a claim past 64 bits reads as no claim.
   */
  lemma {:induction false} TooNewIsRefused(doc: Json, current: nat)
    requires current <= U32_MAX
    ensures var claimed := ClaimedVersion(doc).UnwrapOr(0);
            (ReadVersion(doc) > current <==> claimed > current)
            <==> (claimed <= U32_MAX || (claimed <= U64_MAX && current < U32_MAX))
  {
  }

  function Claiming(n: int): Json { Object(map[SCHEMA_VERSION_FIELD := Int(n)]) }

  /** The two exceptions: a store at version u32::MAX reads 2^32 as its own, and any store reads 2^64 as version 0. */
  lemma {:induction false} TooNewLetIn()
    ensures ClaimedVersion(Claiming(0x1_0000_0000)) == Some(0x1_0000_0000)
    ensures ReadVersion(Claiming(0x1_0000_0000)) == U32_MAX
    ensures ClaimedVersion(Claiming(0x1_0000_0000_0000_0000)) == Some(0x1_0000_0000_0000_0000)
    ensures ReadVersion(Claiming(0x1_0000_0000_0000_0000)) == 0
  {
  }
}
