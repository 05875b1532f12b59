/**
  The audit hash chain of modules/audit/writer.go. JSON, SHA-256 and the signature are parameters:
  what is assumed of them is said where it is used.
 */
module AuditChain {
  import opened Common

  /** An audit entry; `body` stands for the fields that the chain treats alike. */
  datatype Entry = Entry(id: string, instance: string, tenant: string, body: string, signature: string, prevHash: string)

  datatype Row = Row(id: string, data: string, prevHash: string, entryHash: string)

  datatype Codec = Codec(
    marshal: Entry -> Option<string>,
    unmarshal: string -> Option<Entry>,
    hash: string -> string,
    sign: string -> string)

  datatype WriteError = MarshalFailed | InsertFailed

  datatype ChainError = PrevMismatch(id: string) | UnmarshalFailed(id: string) | RemarshalFailed(id: string) | HashMismatch(id: string)

  const GENESIS: string := "genesis"

  predicate HexDigit(c: char) {
    '0' <= c <= '9' || 'a' <= c <= 'f'
  }

  /** Digests are 64 hex digits, JSON objects start with a brace, decoding undoes encoding, and
      the signature has no say in whether an entry can be encoded. */
  ghost predicate Faithful(k: Codec) {
    && (forall x :: |k.hash(x)| == 64 && forall i :: 0 <= i < 64 ==> HexDigit(k.hash(x)[i]))
    && (forall e :: k.marshal(e).Some? ==> k.marshal(e).value != [] && k.marshal(e).value[0] == '{')
    && (forall e :: k.marshal(e).Some? ==> k.unmarshal(k.marshal(e).value) == Some(e))
    && (forall e, s :: k.marshal(e).Some? <==> k.marshal(e.(signature := s)).Some?)
  }

  function Unsigned(e: Entry): Entry {
    e.(signature := "")
  }

  // ---- Writing ----

  function LastHash(rows: seq<Row>): string {
    if rows == [] then GENESIS else rows[|rows| - 1].entryHash
  }

  /** The entry as it is hashed: everything the caller gave, with instance and link filled in. */
  function Stamped(e: Entry, instance: string, prev: string): Entry {
    e.(instance := instance, prevHash := prev)
  }

  predicate Taken(rows: seq<Row>, id: string) {
    exists i :: 0 <= i < |rows| && rows[i].id == id
  }

  /** The row for a stamped entry. */
  function NewRow(k: Codec, e: Entry): Option<Row> {
    match k.marshal(e)
    case None => None
    case Some(data) =>
      var h := k.hash(e.prevHash + data);
      match k.marshal(e.(signature := k.sign(h)))
      case None => None
      case Some(signed) => Some(Row(e.id, signed, e.prevHash, h))
  }

  class AuditLog {
    var rows: seq<Row>

    constructor ()
      ensures rows == []
    {
      rows := [];
    }
  }

  class Writer {
    const codec: Codec
    const instance: string
    const log: AuditLog
    var prevHash: string

    /** Open a log: the chain goes on from its last entry. */
    constructor (codec: Codec, instance: string, log: AuditLog)
      ensures this.codec == codec && this.instance == instance && this.log == log
      ensures prevHash == LastHash(log.rows)
    {
      this.codec, this.instance, this.log := codec, instance, log;
      prevHash := if log.rows == [] then GENESIS else log.rows[|log.rows| - 1].entryHash;
    }

    /** Append an entry. An entry that cannot be encoded, or whose id is taken, changes nothing. */
    method Write(entry: Entry) returns (err: Option<WriteError>)
      modifies this`prevHash, log`rows
      ensures var e := Stamped(entry, instance, old(prevHash)); var row := NewRow(codec, e);
        && err == (if row.None? then Some(MarshalFailed) else if Taken(old(log.rows), entry.id) then Some(InsertFailed) else None)
        && (err.Some? ==> log.rows == old(log.rows) && prevHash == old(prevHash))
        && (err.None? ==> log.rows == old(log.rows) + [row.value] && prevHash == row.value.entryHash)
    {
      var e := entry.(instance := instance, prevHash := prevHash);
      var data := codec.marshal(e);
      if data.None? {
        return Some(MarshalFailed);
      }
      var entryHash := codec.hash(prevHash + data.value);
      e := e.(signature := codec.sign(entryHash));
      data := codec.marshal(e);
      if data.None? {
        return Some(MarshalFailed);
      }
      if exists i :: 0 <= i < |log.rows| && log.rows[i].id == entry.id {
        return Some(InsertFailed);
      }
      log.rows := log.rows + [Row(entry.id, data.value, prevHash, entryHash)];
      prevHash := entryHash;
      return None;
    }

    /** Walk the log and report the first break. */
    method VerifyChain() returns (err: Option<ChainError>)
      ensures err == Verify(codec, log.rows, GENESIS)
    {
      var expectedPrev, i := GENESIS, 0;
      while i < |log.rows|
        invariant i <= |log.rows| && Verify(codec, log.rows, GENESIS) == Verify(codec, log.rows[i..], expectedPrev)
      {
        var row := log.rows[i];
        if row.prevHash != expectedPrev {
          return Some(PrevMismatch(row.id));
        }
        var entry := codec.unmarshal(row.data);
        if entry.None? {
          return Some(UnmarshalFailed(row.id));
        }
        var data := codec.marshal(entry.value.(signature := ""));
        if data.None? {
          return Some(RemarshalFailed(row.id));
        }
        if codec.hash(row.prevHash + data.value) != row.entryHash {
          return Some(HashMismatch(row.id));
        }
        expectedPrev := row.entryHash;
        i := i + 1;
      }
      return None;
    }
  }

  // ---- Verifying ----

  /** What the data of a row says, without its signature. */
  function Content(k: Codec, row: Row): Option<Entry> {
    match k.unmarshal(row.data)
    case None => None
    case Some(e) => Some(Unsigned(e))
  }

  /** The text whose digest a row should carry. */
  function Preimage(k: Codec, row: Row): Option<string> {
    match Content(k, row)
    case None => None
    case Some(e) =>
      match k.marshal(e)
      case None => None
      case Some(data) => Some(row.prevHash + data)
  }

  function Verify(k: Codec, rows: seq<Row>, expectedPrev: string): Option<ChainError>
    decreases |rows|
  {
    if rows == [] then None
    else
      var row := rows[0];
      if row.prevHash != expectedPrev then Some(PrevMismatch(row.id))
      else if k.unmarshal(row.data).None? then Some(UnmarshalFailed(row.id))
      else if Preimage(k, row).None? then Some(RemarshalFailed(row.id))
      else if k.hash(Preimage(k, row).value) != row.entryHash then Some(HashMismatch(row.id))
      else Verify(k, rows[1..], row.entryHash)
  }

  ghost predicate RowAccepted(k: Codec, rows: seq<Row>, i: nat, first: string)
    requires i < |rows|
  {
    && rows[i].prevHash == (if i == 0 then first else rows[i - 1].entryHash)
    && Preimage(k, rows[i]).Some? && k.hash(Preimage(k, rows[i]).value) == rows[i].entryHash
  }

  /** A log is accepted when each row links to the one before and carries the digest of its content. */
  lemma {:induction false} AcceptedByRow(k: Codec, rows: seq<Row>, first: string)
    ensures Verify(k, rows, first).None? <==> forall i :: 0 <= i < |rows| ==> RowAccepted(k, rows, i, first)
    decreases |rows|
  {
    if rows != [] {
      var rest, next := rows[1..], rows[0].entryHash;
      AcceptedByRow(k, rest, next);
      forall i | 0 <= i < |rest| ensures RowAccepted(k, rest, i, next) <==> RowAccepted(k, rows, i + 1, first) {
      }
      if Verify(k, rows, first).None? {
        forall i | 0 <= i < |rows| ensures RowAccepted(k, rows, i, first) {
          assert i > 0 ==> RowAccepted(k, rest, i - 1, next);
        }
      }
      if forall i :: 0 <= i < |rows| ==> RowAccepted(k, rows, i, first) {
        assert RowAccepted(k, rows, 0, first);
        forall i | 0 <= i < |rest| ensures RowAccepted(k, rest, i, next) {
          assert RowAccepted(k, rows, i + 1, first);
        }
      }
    }
  }

  /** What is wrong with row `i`, of the kinds of break that are looked for in this order. */
  ghost predicate Breaks(k: Codec, rows: seq<Row>, i: nat, first: string, e: ChainError)
    requires i < |rows|
  {
    var row := rows[i];
    if row.prevHash != (if i == 0 then first else rows[i - 1].entryHash) then e == PrevMismatch(row.id)
    else if k.unmarshal(row.data).None? then e == UnmarshalFailed(row.id)
    else if k.marshal(Unsigned(k.unmarshal(row.data).value)).None? then e == RemarshalFailed(row.id)
    else
      && e == HashMismatch(row.id)
      && k.hash(row.prevHash + k.marshal(Unsigned(k.unmarshal(row.data).value)).value) != row.entryHash
  }

  /** The break that is reported is that of the first row that is not accepted. */
  lemma {:induction false} FirstBreakReported(k: Codec, rows: seq<Row>, first: string) returns (i: nat)
    requires Verify(k, rows, first).Some?
    ensures i < |rows| && (forall j :: 0 <= j < i ==> RowAccepted(k, rows, j, first)) && Breaks(k, rows, i, first, Verify(k, rows, first).value)
    decreases |rows|
  {
    if RowAccepted(k, rows, 0, first) {
      var rest, next := rows[1..], rows[0].entryHash;
      var j := FirstBreakReported(k, rest, next);
      i := j + 1;
      forall l | 0 <= l < i ensures RowAccepted(k, rows, l, first) {
        assert l > 0 ==> RowAccepted(k, rest, l - 1, next);
      }
    } else {
      i := 0;
    }
  }

  // ---- Logs that were written ----

  datatype Op = Open(instance: string) | Write(entry: Entry)

  /** `written` is history: the stamped entries of the rows. */
  datatype LogState = LogState(rows: seq<Row>, written: seq<Entry>, prevHash: string, instance: string)

  function Step(k: Codec, s: LogState, op: Op): LogState {
    match op
    case Open(instance) => s.(prevHash := LastHash(s.rows), instance := instance)
    case Write(entry) =>
      var e := Stamped(entry, s.instance, s.prevHash);
      match NewRow(k, e)
      case None => s
      case Some(row) =>
        if Taken(s.rows, entry.id) then s
        else s.(rows := s.rows + [row], written := s.written + [e], prevHash := row.entryHash)
  }

  /** The log after opening it and any writes and restarts. */
  function Replay(k: Codec, instance: string, ops: seq<Op>): LogState {
    if ops == [] then LogState([], [], GENESIS, instance)
    else Step(k, Replay(k, instance, ops[..|ops| - 1]), ops[|ops| - 1])
  }

  ghost predicate Records(k: Codec, s: LogState) {
    && |s.rows| == |s.written| && s.prevHash == LastHash(s.rows)
    && forall i :: 0 <= i < |s.rows| ==> RecordAt(k, s.rows, s.written, i)
  }

  ghost predicate RecordAt(k: Codec, rows: seq<Row>, written: seq<Entry>, i: nat)
    requires i < |rows| == |written|
  {
    && NewRow(k, written[i]) == Some(rows[i])
    && written[i].prevHash == if i == 0 then GENESIS else rows[i - 1].entryHash
  }

  lemma {:induction false} ReplayRecords(k: Codec, instance: string, ops: seq<Op>)
    ensures Records(k, Replay(k, instance, ops))
  {
    if ops != [] {
      ReplayRecords(k, instance, ops[..|ops| - 1]);
      StepRecords(k, Replay(k, instance, ops[..|ops| - 1]), ops[|ops| - 1]);
    }
  }

  lemma StepRecords(k: Codec, s: LogState, op: Op)
    requires Records(k, s)
    ensures Records(k, Step(k, s, op))
  {
    if op.Write? {
      var e := Stamped(op.entry, s.instance, s.prevHash);
      if NewRow(k, e).Some? && !Taken(s.rows, op.entry.id) {
        AppendRecords(k, s, e, NewRow(k, e).value);
      }
    }
  }

  lemma AppendRecords(k: Codec, s: LogState, e: Entry, row: Row)
    requires Records(k, s) && NewRow(k, e) == Some(row) && e.prevHash == s.prevHash
    ensures Records(k, s.(rows := s.rows + [row], written := s.written + [e], prevHash := row.entryHash))
  {
    var rows, written := s.rows + [row], s.written + [e];
    forall i | 0 <= i < |rows| ensures RecordAt(k, rows, written, i) {
      if i < |s.rows| {
        assert RecordAt(k, s.rows, s.written, i);
      }
    }
  }

  lemma WrittenRow(k: Codec, e: Entry, row: Row)
    requires Faithful(k) && NewRow(k, e) == Some(row)
    ensures row.prevHash == e.prevHash && k.marshal(e).Some? && k.marshal(Unsigned(e)).Some?
    ensures Preimage(k, row) == Some(e.prevHash + k.marshal(Unsigned(e)).value)
    ensures row.entryHash == k.hash(e.prevHash + k.marshal(e).value)
  {
    var signed := e.(signature := k.sign(row.entryHash));
    assert k.marshal(signed) == Some(row.data);
    assert Unsigned(signed) == Unsigned(e);
  }

  /** What the row decodes to is what the caller wrote, under the writer's instance and the row's link, and
      signed for the row's digest. */
  ghost predicate Stores(k: Codec, row: Row, caller: Entry, instance: string) {
    && k.unmarshal(row.data).Some?
    && var e := k.unmarshal(row.data).value;
       && e.signature == k.sign(row.entryHash) && e.prevHash == row.prevHash && e.instance == instance
       && e.id == row.id == caller.id && e.tenant == caller.tenant && e.body == caller.body
  }

  lemma NewRowStores(k: Codec, caller: Entry, instance: string, prev: string, row: Row)
    requires Faithful(k) && NewRow(k, Stamped(caller, instance, prev)) == Some(row)
    ensures Stores(k, row, caller, instance)
  {
    var e := Stamped(caller, instance, prev);
    assert k.marshal(e.(signature := k.sign(row.entryHash))) == Some(row.data);
  }

  /** Row `i` of a log, through any writes and restarts, is that of the write that found `i` rows. */
  lemma {:induction false} RowIsSigned(k: Codec, instance: string, ops: seq<Op>, i: nat) returns (j: nat)
    requires Faithful(k) && i < |Replay(k, instance, ops).rows|
    ensures j < |ops| && ops[j].Write? && |Replay(k, instance, ops[..j]).rows| == i
    ensures Stores(k, Replay(k, instance, ops).rows[i], ops[j].entry, Replay(k, instance, ops[..j]).instance)
    decreases |ops|
  {
    var last := |ops| - 1;
    var s := Replay(k, instance, ops[..last]);
    if i < |s.rows| {
      j := RowIsSigned(k, instance, ops[..last], i);
      assert ops[..last][..j] == ops[..j];
    } else {
      j := last;
      NewRowStores(k, ops[last].entry, s.instance, s.prevHash, Replay(k, instance, ops).rows[i]);
    }
  }

  /** Hashing an entry with the caller's signature in it is told apart from hashing it without. */
  ghost predicate SignatureSeen(k: Codec, s: LogState) {
    forall i :: 0 <= i < |s.written| && k.marshal(s.written[i]).Some? && k.marshal(Unsigned(s.written[i])).Some? ==>
      var prev := s.written[i].prevHash;
      k.hash(prev + k.marshal(s.written[i]).value) == k.hash(prev + k.marshal(Unsigned(s.written[i])).value) ==>
        prev + k.marshal(s.written[i]).value == prev + k.marshal(Unsigned(s.written[i])).value
  }

  lemma SameEncodingSameEntry(k: Codec, d: Entry, e: Entry, prev: string)
    requires Faithful(k) && k.marshal(d).Some? && k.marshal(e).Some?
    requires prev + k.marshal(d).value == prev + k.marshal(e).value
    ensures d == e
  {
    var a, b := k.marshal(d).value, k.marshal(e).value;
    assert (prev + a)[|prev|..] == a && (prev + b)[|prev|..] == b;
  }

  /** A log written over any restarts is accepted, exactly when no caller passed an entry that
      already had a signature: the hash is taken before the signature field is overwritten, and
      the verifier clears that field. */
  lemma WrittenLogsAccepted(k: Codec, instance: string, ops: seq<Op>)
    requires Faithful(k)
    ensures var s := Replay(k, instance, ops);
      (forall i :: 0 <= i < |s.written| ==> s.written[i].signature == "") ==> Verify(k, s.rows, GENESIS).None?
    ensures var s := Replay(k, instance, ops);
      SignatureSeen(k, s) ==>
        (Verify(k, s.rows, GENESIS).None? <==> forall i :: 0 <= i < |s.written| ==> s.written[i].signature == "")
  {
    var s := Replay(k, instance, ops);
    ReplayRecords(k, instance, ops);
    AcceptedByRow(k, s.rows, GENESIS);
    forall i | 0 <= i < |s.rows|
      ensures s.written[i].signature == "" ==> RowAccepted(k, s.rows, i, GENESIS)
      ensures SignatureSeen(k, s) && RowAccepted(k, s.rows, i, GENESIS) ==> s.written[i].signature == ""
    {
      var e := s.written[i];
      assert RecordAt(k, s.rows, s.written, i);
      WrittenRow(k, e, s.rows[i]);
      if SignatureSeen(k, s) && RowAccepted(k, s.rows, i, GENESIS) {
        SameEncodingSameEntry(k, e, Unsigned(e), e.prevHash);
      }
    }
  }

  // ---- A log that is refused ----

  const PLAIN := Entry("1", "i", "t", "b", "", GENESIS)

  function Digest(c: char): string {
    seq(64, _ => c)
  }

  /** Encodes one entry, with any signature, and digests its signed form to a digest of its own. */
  const SMALL := Codec(
    (e: Entry) => if Unsigned(e) == PLAIN then Some("{" + e.signature) else None,
    (x: string) => if x != [] && x[0] == '{' then Some(PLAIN.(signature := x[1..])) else None,
    (x: string) => if x == GENESIS + "{s" then Digest('a') else Digest('b'),
    (x: string) => "")

  lemma SmallIsFaithful()
    ensures Faithful(SMALL)
  {
    forall e | SMALL.marshal(e).Some? ensures SMALL.unmarshal(SMALL.marshal(e).value) == Some(e) {
      assert ("{" + e.signature)[1..] == e.signature && e == PLAIN.(signature := e.signature);
    }
    forall e, s ensures SMALL.marshal(e).Some? <==> SMALL.marshal(e.(signature := s)).Some? {
      assert Unsigned(e.(signature := s)) == Unsigned(e);
    }
  }

  /** One entry written with a signature in it: the log it makes is refused. */
  lemma SignedEntryIsRefused()
    ensures var s := Replay(SMALL, "i", [Write(PLAIN.(signature := "s"))]);
      Faithful(SMALL) && |s.rows| == 1 && Verify(SMALL, s.rows, GENESIS) == Some(HashMismatch("1"))
  {
    SmallIsFaithful();
    var e := PLAIN.(signature := "s");
    var ops := [Write(e)];
    var empty := Replay(SMALL, "i", []);
    assert ops[..0] == [] && empty == LogState([], [], GENESIS, "i");
    assert "{" + "s" == "{s" && "{" + "" == "{";
    assert SMALL.marshal(e) == Some("{s") && SMALL.marshal(PLAIN) == Some("{");
    var row := Row("1", "{", GENESIS, Digest('a'));
    assert NewRow(SMALL, e) == Some(row);
    assert Replay(SMALL, "i", ops).rows == [row];
    assert "{"[1..] == "" && SMALL.unmarshal("{") == Some(PLAIN);
    assert |GENESIS + "{"| != |GENESIS + "{s"|;
    assert Digest('a')[0] == 'a' && Digest('b')[0] == 'b';
    assert Preimage(SMALL, row) == Some(GENESIS + "{");
  }

  // ---- Two logs with one end ----

  ghost predicate Link(s: string) {
    s == GENESIS || (|s| == 64 && forall i :: 0 <= i < 64 ==> HexDigit(s[i]))
  }

  /** "genesis" or 64 hex digits, then a brace: the split of a hashed text is unique. */
  lemma UniqueSplit(p: string, x: string, q: string, y: string)
    requires Link(p) && Link(q) && p + x == q + y
    requires x != [] && x[0] == '{' && y != [] && y[0] == '{'
    ensures p == q && x == y
  {
    var t := p + x;
    assert t[|p|] == '{' && (q + y)[|q|] == '{';
    assert forall i :: 0 <= i < |p| ==> t[i] == p[i] != '{';
    assert forall i :: 0 <= i < |q| ==> t[i] == (q + y)[i] == q[i] != '{';
    assert |p| == |q|;
    assert t[..|p|] == p && (q + y)[..|q|] == q;
    assert t[|p|..] == x && (q + y)[|q|..] == y;
  }

  ghost predicate Accepted(k: Codec, rows: seq<Row>) {
    forall i :: 0 <= i < |rows| ==> RowAccepted(k, rows, i, GENESIS)
  }

  /** No two different texts hashed for these logs have the same digest. */
  ghost predicate CollisionFree(k: Codec, a: seq<Row>, b: seq<Row>) {
    forall i, j :: 0 <= i < |a| && 0 <= j < |b| && Preimage(k, a[i]).Some? && Preimage(k, b[j]).Some? ==>
      k.hash(Preimage(k, a[i]).value) == k.hash(Preimage(k, b[j]).value) ==> Preimage(k, a[i]).value == Preimage(k, b[j]).value
  }

  ghost predicate SameLog(k: Codec, a: seq<Row>, b: seq<Row>) {
    && |a| == |b|
    && forall i :: 0 <= i < |a| ==>
         a[i].prevHash == b[i].prevHash && a[i].entryHash == b[i].entryHash && Content(k, a[i]) == Content(k, b[i])
  }

  lemma LinkOfRow(k: Codec, rows: seq<Row>, i: nat)
    requires Faithful(k) && Accepted(k, rows) && i < |rows|
    ensures Link(rows[i].prevHash) && (rows[i].prevHash == GENESIS <==> i == 0)
    ensures Preimage(k, rows[i]).Some? && k.hash(Preimage(k, rows[i]).value) == rows[i].entryHash
    ensures rows[i].prevHash == if i == 0 then GENESIS else rows[i - 1].entryHash
  {
    assert RowAccepted(k, rows, i, GENESIS);
    if i > 0 {
      assert RowAccepted(k, rows, i - 1, GENESIS);
      assert |rows[i].prevHash| == 64;
    }
  }

  lemma SameRow(k: Codec, a: Row, b: Row)
    requires Faithful(k) && Link(a.prevHash) && Link(b.prevHash)
    requires Preimage(k, a).Some? && Preimage(k, b) == Preimage(k, a)
    ensures a.prevHash == b.prevHash && Content(k, a) == Content(k, b)
  {
    var d, e := Content(k, a).value, Content(k, b).value;
    UniqueSplit(a.prevHash, k.marshal(d).value, b.prevHash, k.marshal(e).value);
    assert k.unmarshal(k.marshal(d).value) == Some(d) && k.unmarshal(k.marshal(e).value) == Some(e);
  }

  /** Two accepted logs that end in the same digest are the same log, up to signatures. */
  lemma {:induction false} SameEndSameLog(k: Codec, a: seq<Row>, b: seq<Row>)
    requires Faithful(k) && Verify(k, a, GENESIS).None? && Verify(k, b, GENESIS).None? && CollisionFree(k, a, b)
    requires a != [] && b != [] && LastHash(a) == LastHash(b)
    ensures SameLog(k, a, b)
  {
    AcceptedByRow(k, a, GENESIS);
    AcceptedByRow(k, b, GENESIS);
    SameEnd(k, a, b);
  }

  lemma {:induction false} SameEnd(k: Codec, a: seq<Row>, b: seq<Row>)
    requires Faithful(k) && Accepted(k, a) && Accepted(k, b) && CollisionFree(k, a, b)
    requires a != [] && b != [] && LastHash(a) == LastHash(b)
    ensures SameLog(k, a, b)
    decreases |a|
  {
    var m, n := |a| - 1, |b| - 1;
    LinkOfRow(k, a, m);
    LinkOfRow(k, b, n);
    LastDigests(k, a, b);
    SameRow(k, a[m], b[n]);
    if m > 0 {
      FrontAccepted(k, a);
      FrontAccepted(k, b);
      FrontCollisionFree(k, a, b);
      SameEnd(k, a[..m], b[..n]);
      OneMoreRow(k, a, b);
    }
  }

  lemma LastDigests(k: Codec, a: seq<Row>, b: seq<Row>)
    requires CollisionFree(k, a, b) && a != [] && b != []
    requires Preimage(k, a[|a| - 1]).Some? && Preimage(k, b[|b| - 1]).Some?
    requires k.hash(Preimage(k, a[|a| - 1]).value) == k.hash(Preimage(k, b[|b| - 1]).value)
    ensures Preimage(k, a[|a| - 1]) == Preimage(k, b[|b| - 1])
  {
  }

  lemma FrontAccepted(k: Codec, rows: seq<Row>)
    requires Accepted(k, rows) && rows != []
    ensures Accepted(k, rows[..|rows| - 1])
  {
    var front := rows[..|rows| - 1];
    forall i | 0 <= i < |front| ensures RowAccepted(k, front, i, GENESIS) {
      assert RowAccepted(k, rows, i, GENESIS);
    }
  }

  lemma FrontCollisionFree(k: Codec, a: seq<Row>, b: seq<Row>)
    requires CollisionFree(k, a, b) && a != [] && b != []
    ensures CollisionFree(k, a[..|a| - 1], b[..|b| - 1])
  {
  }

  lemma OneMoreRow(k: Codec, a: seq<Row>, b: seq<Row>)
    requires a != [] && b != [] && SameLog(k, a[..|a| - 1], b[..|b| - 1])
    requires a[|a| - 1].prevHash == b[|b| - 1].prevHash && a[|a| - 1].entryHash == b[|b| - 1].entryHash
    requires Content(k, a[|a| - 1]) == Content(k, b[|b| - 1])
    ensures SameLog(k, a, b)
  {
    var fa, fb := a[..|a| - 1], b[..|b| - 1];
    forall i | 0 <= i < |a|
      ensures a[i].prevHash == b[i].prevHash && a[i].entryHash == b[i].entryHash && Content(k, a[i]) == Content(k, b[i])
    {
      if i < |fa| {
        assert fa[i] == a[i] && fb[i] == b[i];
      }
    }
  }
}
