/**
 * The pure parts of the MongoDB test manager: value normalisation, the
 * connection string, the projection of a verification, and the rule for
 * storing bindings once documents have been matched.
 */
module TestMongo {
  import opened Wrappers
  import opened Data
  import opened Text
  import opened Binding

  // ---------------------------------------------------------------------------
  // Values

  /** `ObjectId.toString()`: two lower-case hex digits per byte. */
  function BytesToHex(bytes: seq<byte>): (s: string)
    ensures |s| == 2 * |bytes|
    ensures forall i :: 0 <= i < |s| ==> IsHexChar(s[i])
  {
    if bytes == [] then "" else BytesToHex(bytes[..|bytes| - 1]) + Hex(bytes[|bytes| - 1], 2)
  }

  /** Each byte can be read back from its two digits. */
  lemma {:induction false} BytesToHexRoundTrip(bytes: seq<byte>, i: nat)
    requires i < |bytes|
    ensures ParseHex(BytesToHex(bytes)[2 * i..2 * i + 2]) == bytes[i]
  {
    var n := |bytes| - 1;
    var s := BytesToHex(bytes);
    assert s == BytesToHex(bytes[..n]) + Hex(bytes[n], 2);
    if i == n {
      assert s[2 * i..2 * i + 2] == Hex(bytes[n], 2);
      assert Pow16(2) == 256;
      HexRoundTrip(bytes[n], 2);
    } else {
      assert s[2 * i..2 * i + 2] == BytesToHex(bytes[..n])[2 * i..2 * i + 2];
      BytesToHexRoundTrip(bytes[..n], i);
    }
  }

  /** `normalizeValue`: an ObjectId becomes its hex string, anything else (null included) is kept. */
  function NormalizeValue(v: Value): (r: Value)
    ensures !r.Oid?
    ensures v.Oid? ==> r == Str(BytesToHex(v.id.bytes))
    ensures !v.Oid? ==> r == v
  {
    match v
    case Oid(id) => Str(BytesToHex(id.bytes))
    case _ => v
  }

  lemma NormalizeValueIdempotent(v: Value)
    ensures NormalizeValue(NormalizeValue(v)) == NormalizeValue(v)
  {
  }

  // ---------------------------------------------------------------------------
  // Connection string

  datatype Credential = Credential(login: string, password: string)

  datatype TestMongoConfig = TestMongoConfig(
    host: string, port: int, db: string, credential: Option<Credential>)

  /** `login:password@` when a credential is configured, empty otherwise. */
  function Auth(config: TestMongoConfig): (auth: string)
    ensures config.credential.None? ==> auth == ""
    ensures config.credential.Some? ==>
              auth == config.credential.value.login + ":" + config.credential.value.password + "@"
  {
    match config.credential
    case None => ""
    case Some(c) => c.login + ":" + c.password + "@"
  }

  function ConnectionString(config: TestMongoConfig): (s: string)
    ensures "mongodb://" + Auth(config) <= s
    ensures s == "mongodb://" + Auth(config) + config.host + ":" + IntToString(config.port) + "/" + config.db
  {
    "mongodb://" + Auth(config) + config.host + ":" + IntToString(config.port) + "/" + config.db
  }

  lemma NoAtInDecimal(i: int)
    ensures '@' !in IntToString(i)
  {
    var s := IntToString(i);
    if '@' in s {
      var k :| 0 <= k < |s| && s[k] == '@';
      assert false;
    }
  }

  /**
   * When neither host nor database name contains '@', the connection string
   * carries an '@' exactly when a credential is configured.
   */
  lemma ConnectionStringHasAuthIffCredential(config: TestMongoConfig)
    requires '@' !in config.host && '@' !in config.db
    ensures '@' in ConnectionString(config) <==> config.credential.Some?
  {
    NoAtInDecimal(config.port);
    var port := IntToString(config.port);
    var s := ConnectionString(config);
    var tail := config.host + ":" + port + "/" + config.db;
    assert '@' !in tail by {
      assert forall ch :: ch in tail ==> ch in config.host || ch == ':' || ch in port || ch == '/' || ch in config.db;
    }
    assert s == "mongodb://" + Auth(config) + tail;
    if config.credential.Some? {
      assert s[|s| - |tail| - 1] == '@';
    } else {
      assert s == "mongodb://" + tail;
      assert forall ch :: ch in s ==> ch in "mongodb://" || ch in tail;
    }
  }

  // ---------------------------------------------------------------------------
  // Projection

  /** An expected record: the column values to look for and the columns to bind, in order. */
  datatype Record = Record(data: map<string, Value>, toBind: seq<(string, BindingKey)>)

  function BindColumns(toBind: seq<(string, BindingKey)>): set<string> {
    set i | 0 <= i < |toBind| :: toBind[i].0
  }

  /** The fields a verification asks Mongo to return: every data column and every bound column. */
  function Projection(records: seq<Record>): (columns: set<string>)
    ensures forall c :: c in columns <==>
              exists i :: 0 <= i < |records| && (c in records[i].data || c in BindColumns(records[i].toBind))
  {
    if records == [] then {}
    else
      var rest := Projection(records[1..]);
      assert forall i :: 1 <= i < |records| ==> records[i] == records[1..][i - 1];
      records[0].data.Keys + BindColumns(records[0].toBind) + rest
  }

  // ---------------------------------------------------------------------------
  // Matching and binding

  /** A document as the verification sees it: flattened into column to value. */
  type Document = map<string, Value>

  /**
   * The equality the manager hands to the search: values are compared after
   * normalisation, so an ObjectId equals the string of its hex digits.
   */
  function NormalizedEquals(column: string, o1: Value, o2: Value): (r: bool)
    ensures o1 == o2 ==> r
    ensures !o1.Oid? && !o2.Oid? ==> (r <==> o1 == o2)
    ensures o1.Oid? && !o2.Oid? ==> (r <==> o2 == Str(BytesToHex(o1.id.bytes)))
    ensures !o1.Oid? && o2.Oid? ==> (r <==> o1 == Str(BytesToHex(o2.id.bytes)))
  {
    NormalizeValue(o1) == NormalizeValue(o2)
  }

  /** Two byte strings with the same hex rendering are the same. */
  lemma BytesToHexInjective(a: seq<byte>, b: seq<byte>)
    requires BytesToHex(a) == BytesToHex(b)
    ensures a == b
  {
    forall i | 0 <= i < |a|
      ensures a[i] == b[i]
    {
      BytesToHexRoundTrip(a, i);
      BytesToHexRoundTrip(b, i);
    }
  }

  /** Two ObjectIds are equal under the normalised equality exactly when they are the same id. */
  lemma NormalizedEqualsOnObjectIds(column: string, a: ObjectId, b: ObjectId)
    ensures NormalizedEquals(column, Oid(a), Oid(b)) <==> a == b
  {
    if NormalizedEquals(column, Oid(a), Oid(b)) {
      BytesToHexInjective(a.bytes, b.bytes);
    }
  }

  /** The document search (expected data, candidates, equality) to the matched document or an error. */
  type Finder = (map<string, Value>, seq<Document>, (string, Value, Value) -> bool) -> Result<Document, string>

  /** Reading a column of the matched document: a column the document lacks reads as null. */
  function Lookup(matched: Document, column: string): (v: Value)
    ensures v == Null <==> column !in matched || matched[column] == Null
    ensures v != Null ==> column in matched && v == matched[column]
  {
    if column in matched then matched[column] else Null
  }

  /** The binding requested for each bound column, in order: its key and the column's normalised value. */
  function RowBindings(toBind: seq<(string, BindingKey)>, matched: Document): (entries: Entries)
    ensures |entries| == |toBind|
    ensures forall i :: 0 <= i < |toBind| ==>
              entries[i] == (toBind[i].1, NormalizeValue(Lookup(matched, toBind[i].0)))
  {
    seq(|toBind|, i requires 0 <= i < |toBind| => (toBind[i].1, NormalizeValue(Lookup(matched, toBind[i].0))))
  }

  /** Why an attempt failed: a record had no matching document, or storing a binding was refused. */
  datatype AttemptError =
    | DocumentNotFound(message: string)
    | BindingRejected(error: BindingError)

  /**
   * What handling one record does: search its document, then store its row column by
   * column. The outcome, and the bindings stored, in order. A record that is not found
   * stores nothing; a bound column that reads as null is refused, after the columns
   * before it were stored.
   */
  function RecordOutcome(record: Record, documents: seq<Document>, find: Finder): (r: (Outcome<AttemptError>, Entries))
    ensures var found := find(record.data, documents, NormalizedEquals);
            r.0 == Pass <==>
              found.Success? && forall i :: 0 <= i < |record.toBind| ==> Lookup(found.value, record.toBind[i].0) != Null
    ensures var found := find(record.data, documents, NormalizedEquals);
            found.Success? ==> r.1 <= RowBindings(record.toBind, found.value)
    ensures r.0 == Pass ==> r.1 == RowBindings(record.toBind, find(record.data, documents, NormalizedEquals).value)
    ensures var found := find(record.data, documents, NormalizedEquals);
            found.Failure? ==> r == (Fail(DocumentNotFound(found.error)), [])
    ensures var found := find(record.data, documents, NormalizedEquals);
            found.Success? ==>
              var row := RowBindings(record.toBind, found.value);
              r.1 == row[..NonNullPrefix(row)]
    ensures forall i :: 0 <= i < |r.1| ==> r.1[i].1 != Null
  {
    match find(record.data, documents, NormalizedEquals)
    case Failure(e) => (Fail(DocumentNotFound(e)), [])
    case Success(matched) =>
      var row := RowBindings(record.toBind, matched);
      var n := NonNullPrefix(row);
      assert n == |row| ==> row[..n] == row;
      (if n < |row| then Fail(BindingRejected(NullValueRejected(row[n].0))) else Pass, row[..n])
  }

  /**
   * One attempt of the document verification: the outcome, and the bindings it
   * stores in order. Records are handled in turn, and the first one that fails ends
   * the attempt with its error, after the bindings stored before it. No binding it
   * stores is null.
   */
  function Attempt(records: seq<Record>, documents: seq<Document>, find: Finder): (r: (Outcome<AttemptError>, Entries))
    ensures forall i :: 0 <= i < |r.1| ==> r.1[i].1 != Null
  {
    if records == [] then (Pass, [])
    else
      var before := Attempt(records[..|records| - 1], documents, find);
      if before.0.Fail? then before
      else
        var last := RecordOutcome(records[|records| - 1], documents, find);
        (last.0, before.1 + last.1)
  }

  /** One more record: after a passing prefix, record `i` adds its outcome and its bindings. */
  lemma AttemptExtend(records: seq<Record>, documents: seq<Document>, find: Finder, i: nat)
    requires i < |records|
    ensures var before := Attempt(records[..i], documents, find);
            var next := RecordOutcome(records[i], documents, find);
            Attempt(records[..i + 1], documents, find) ==
              if before.0.Fail? then before else (next.0, before.1 + next.1)
  {
    assert records[..i + 1][..i] == records[..i];
  }

  /** Once a prefix of the records fails, the records after it change nothing. */
  lemma {:induction false} AttemptKeepsFailure(records: seq<Record>, documents: seq<Document>, find: Finder, k: nat)
    requires k <= |records|
    requires Attempt(records[..k], documents, find).0.Fail?
    ensures Attempt(records, documents, find) == Attempt(records[..k], documents, find)
    decreases |records| - k
  {
    if k == |records| {
      assert records[..k] == records;
    } else {
      AttemptExtend(records, documents, find, k);
      AttemptKeepsFailure(records, documents, find, k + 1);
    }
  }

  /** An attempt passes exactly when every record passes. */
  lemma {:induction false} AttemptPassesIffAllRecordsPass(records: seq<Record>, documents: seq<Document>, find: Finder)
    ensures Attempt(records, documents, find).0 == Pass <==>
              forall j :: 0 <= j < |records| ==> RecordOutcome(records[j], documents, find).0 == Pass
  {
    if records != [] {
      var init := records[..|records| - 1];
      AttemptPassesIffAllRecordsPass(init, documents, find);
      assert forall j :: 0 <= j < |init| ==> init[j] == records[j];
    }
  }

  /**
   * When record `k` is the first that fails, the attempt fails with its error, and it
   * has stored what the records before it bind followed by what record `k` stored.
   */
  lemma AttemptStopsAtFirstFailure(records: seq<Record>, documents: seq<Document>, find: Finder, k: nat)
    requires k < |records|
    requires forall j :: 0 <= j < k ==> RecordOutcome(records[j], documents, find).0 == Pass
    requires RecordOutcome(records[k], documents, find).0.Fail?
    ensures Attempt(records, documents, find).0 == RecordOutcome(records[k], documents, find).0
    ensures Attempt(records, documents, find).1 ==
              Attempt(records[..k], documents, find).1 + RecordOutcome(records[k], documents, find).1
    ensures Attempt(records[..k], documents, find).0 == Pass
  {
    AttemptPassesIffAllRecordsPass(records[..k], documents, find);
    AttemptExtend(records, documents, find, k);
    AttemptKeepsFailure(records, documents, find, k + 1);
  }

  /**
   * A record whose bound columns use distinct keys and all read as non-null has every
   * column's normalised value stored under its key, and storing succeeds.
   */
  lemma RowBindingsStored(m: map<BindingKey, Value>, toBind: seq<(string, BindingKey)>, matched: Document)
    requires forall i, j :: 0 <= i < j < |toBind| ==> toBind[i].1 != toBind[j].1
    requires forall i :: 0 <= i < |toBind| ==> Lookup(matched, toBind[i].0) != Null
    ensures var stored := StoreAll(m, RowBindings(toBind, matched));
            && stored.1 == Pass
            && forall i :: 0 <= i < |toBind| ==>
                 toBind[i].1 in stored.0 && stored.0[toBind[i].1] == NormalizeValue(Lookup(matched, toBind[i].0))
  {
    var entries := RowBindings(toBind, matched);
    StoreAllOfNonNull(m, entries);
    ApplyAllStoresEach(m, entries);
  }

  class TestMongoManager {
    const bindingContext: DynamicBindingContext

    constructor (bindingContext: DynamicBindingContext)
      ensures this.bindingContext == bindingContext
    {
      this.bindingContext := bindingContext;
    }

    /** The body of one polling attempt of the document verification, over already-fetched documents. */
    method VerifyDocumentsAttempt(records: seq<Record>, documents: seq<Document>, find: Finder)
      returns (r: Outcome<AttemptError>)
      requires bindingContext.Valid()
      modifies bindingContext
      ensures bindingContext.Valid()
      ensures r == Attempt(records, documents, find).0
      ensures bindingContext.bindings == ApplyAll(old(bindingContext.bindings), Attempt(records, documents, find).1)
    {
      ghost var stored: Entries := [];
      for i := 0 to |records|
        invariant bindingContext.Valid()
        invariant Attempt(records[..i], documents, find) == (Pass, stored)
        invariant bindingContext.bindings == ApplyAll(old(bindingContext.bindings), stored)
      {
        ghost var next := RecordOutcome(records[i], documents, find);
        var outcome := HandleRecord(records[i], documents, find);
        AttemptExtend(records, documents, find, i);
        ApplyAllConcat(old(bindingContext.bindings), stored, next.1);
        if outcome.Fail? {
          AttemptKeepsFailure(records, documents, find, i + 1);
          return outcome;
        }
        stored := stored + next.1;
      }
      assert records[..|records|] == records;
      r := Pass;
    }

    /** Handles one record of an attempt: finds its document, then stores its row. */
    method HandleRecord(record: Record, documents: seq<Document>, find: Finder) returns (r: Outcome<AttemptError>)
      requires bindingContext.Valid()
      modifies bindingContext
      ensures bindingContext.Valid()
      ensures r == RecordOutcome(record, documents, find).0
      ensures bindingContext.bindings == ApplyAll(old(bindingContext.bindings), RecordOutcome(record, documents, find).1)
    {
      var result := find(record.data, documents, NormalizedEquals);
      if result.Failure? {
        return Fail(DocumentNotFound(result.error));
      }
      var rowStored := StoreRow(record.toBind, result.value);
      if rowStored.Fail? {
        return Fail(BindingRejected(rowStored.error));
      }
      r := Pass;
    }

    /**
     * Stores each bound column's normalised value under its key, in order; the
     * first column that reads as null is refused and ends the row.
     */
    method StoreRow(toBind: seq<(string, BindingKey)>, matched: Document) returns (r: Outcome<BindingError>)
      requires bindingContext.Valid()
      modifies bindingContext
      ensures bindingContext.Valid()
      ensures bindingContext.bindings == StoreAll(old(bindingContext.bindings), RowBindings(toBind, matched)).0
      ensures r == StoreAll(old(bindingContext.bindings), RowBindings(toBind, matched)).1
    {
      ghost var row := RowBindings(toBind, matched);
      for j := 0 to |toBind|
        invariant bindingContext.Valid()
        invariant forall i :: 0 <= i < j ==> row[i].1 != Null
        invariant bindingContext.bindings == ApplyAll(old(bindingContext.bindings), row[..j])
      {
        assert row[..j + 1][..j] == row[..j];
        var column, key := toBind[j].0, toBind[j].1;
        r := bindingContext.StoreBinding(key, NormalizeValue(Lookup(matched, column)));
        if r.Fail? {
          NonNullPrefixIs(row, j);
          return;
        }
      }
      NonNullPrefixIs(row, |row|);
      assert row[..|row|] == row;
      r := Pass;
    }
  }
}
