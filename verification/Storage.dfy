/** The append-only record log: torn-write recovery with a chunked backward scan. */
module Storage {

  import opened Prelude

  type Byte = b: int | 0 <= b < 256

  const NEWLINE: Byte := 10

  const CHUNK: nat := 65536

  /** One row to one line and back; what no row encodes to may fail to decode. */
  datatype Codec<!Row(!new)> = Codec(encode: Row -> seq<Byte>, decode: seq<Byte> -> Option<Row>)
  {
    /** Canonical JSON has no raw newline, and reading it back gives the row. */
    ghost predicate Sound() {
      forall row :: NEWLINE !in encode(row) && decode(encode(row)) == Some(row)
    }

    function Line(row: Row): seq<Byte> {
      encode(row) + [NEWLINE]
    }
  }

  // ----- The bytes that are kept

  /** The length of the complete lines: up to and with the last newline. */
  function Boundary(bytes: seq<Byte>): (n: nat)
    ensures n <= |bytes|
  {
    if bytes == [] then 0
    else if bytes[|bytes| - 1] == NEWLINE then |bytes|
    else Boundary(bytes[..|bytes| - 1])
  }

  predicate Complete(bytes: seq<Byte>) {
    bytes == [] || bytes[|bytes| - 1] == NEWLINE
  }

  /** The boundary is the one place that leaves complete lines before it and no newline after. */
  lemma {:induction false} BoundaryUnique(bytes: seq<Byte>, n: nat)
    requires n <= |bytes|
    ensures n == Boundary(bytes) <==> Complete(bytes[..n]) && NEWLINE !in bytes[n..]
  {
    if bytes == [] || bytes[|bytes| - 1] == NEWLINE {
      if n < |bytes| { assert bytes[n..][|bytes| - 1 - n] == NEWLINE; }
    } else {
      var m := |bytes| - 1;
      var shorter := bytes[..m];
      if n < |bytes| {
        BoundaryUnique(shorter, n);
        assert shorter[..n] == bytes[..n];
        assert bytes[n..] == shorter[n..] + [bytes[m]];
      } else {
        assert bytes[..n] == bytes;
      }
    }
  }

  // ----- The records of a file

  function FirstNewline(bytes: seq<Byte>): (n: nat)
    requires NEWLINE in bytes
    ensures n < |bytes| && bytes[n] == NEWLINE
    ensures forall k :: 0 <= k < n ==> bytes[k] != NEWLINE
  {
    if bytes[0] == NEWLINE then 0
    else
      assert bytes == [bytes[0]] + bytes[1..];
      FirstNewline(bytes[1..]) + 1
  }

  function Joined<Row>(first: Option<seq<Row>>, rest: Option<seq<Row>>): Option<seq<Row>> {
    if first.Some? && rest.Some? then Some(first.value + rest.value) else None
  }

  function Decoded<Row(!new)>(codec: Codec<Row>, line: seq<Byte>): Option<seq<Row>> {
    match codec.decode(line)
    case None => None
    case Some(row) => Some([row])
  }

  /** The rows of the complete lines; `None` when a complete line does not decode. */
  function Records<Row(!new)>(codec: Codec<Row>, bytes: seq<Byte>): Option<seq<Row>>
    decreases |bytes|
  {
    if NEWLINE !in bytes then Some([])
    else
      var n := FirstNewline(bytes);
      Joined(Decoded(codec, bytes[..n]), Records(codec, bytes[n + 1..]))
  }

  lemma JoinedNothing<Row>(a: Option<seq<Row>>)
    ensures Joined(Some([]), a) == a == Joined(a, Some([]))
  {
    if a.Some? { assert [] + a.value == a.value == a.value + []; }
  }

  lemma JoinedAssoc<Row>(a: Option<seq<Row>>, b: Option<seq<Row>>, c: Option<seq<Row>>)
    ensures Joined(Joined(a, b), c) == Joined(a, Joined(b, c))
  {
    if a.Some? && b.Some? && c.Some? {
      assert (a.value + b.value) + c.value == a.value + (b.value + c.value);
    }
  }

  lemma FirstNewlineOf(bytes: seq<Byte>, n: nat)
    requires n < |bytes| && bytes[n] == NEWLINE
    requires forall k :: 0 <= k < n ==> bytes[k] != NEWLINE
    ensures NEWLINE in bytes && FirstNewline(bytes) == n
  {
  }

  /** Complete lines and what follows them are read one after the other. */
  lemma {:induction false} RecordsSplit<Row(!new)>(codec: Codec<Row>, a: seq<Byte>, b: seq<Byte>)
    requires Complete(a)
    ensures Records(codec, a + b) == Joined(Records(codec, a), Records(codec, b))
    decreases |a|
  {
    if a == [] {
      assert a + b == b;
      JoinedNothing(Records(codec, b));
    } else {
      assert a[|a| - 1] == NEWLINE;
      var n := FirstNewline(a);
      var both := a + b;
      assert both[..n] == a[..n] && both[n] == a[n];
      FirstNewlineOf(both, n);
      assert both[n + 1..] == a[n + 1..] + b;
      RecordsSplit(codec, a[n + 1..], b);
      JoinedAssoc(Decoded(codec, a[..n]), Records(codec, a[n + 1..]), Records(codec, b));
    }
  }

  /** An unterminated tail is never read. */
  lemma TailIgnored<Row(!new)>(codec: Codec<Row>, a: seq<Byte>, tail: seq<Byte>)
    requires Complete(a) && NEWLINE !in tail
    ensures Records(codec, a + tail) == Records(codec, a)
  {
    RecordsSplit(codec, a, tail);
    JoinedNothing(Records(codec, a));
  }

  // ----- One append, whole or cut

  /** The file after `cut` bytes of the row's line were written behind the kept lines. */
  function Torn<Row(!new)>(codec: Codec<Row>, bytes: seq<Byte>, row: Row, cut: nat): seq<Byte>
    requires cut <= |codec.Line(row)|
  {
    bytes[..Boundary(bytes)] + codec.Line(row)[..cut]
  }

  function Appended<Row(!new)>(codec: Codec<Row>, bytes: seq<Byte>, row: Row): seq<Byte> {
    bytes[..Boundary(bytes)] + codec.Line(row)
  }

  lemma LineRecords<Row(!new)>(codec: Codec<Row>, row: Row)
    requires codec.Sound()
    ensures Records(codec, codec.Line(row)) == Some([row])
  {
    var line, n := codec.Line(row), |codec.encode(row)|;
    assert line[..n] == codec.encode(row);
    FirstNewlineOf(line, n);
    assert line[n + 1..] == [];
    assert [row] + [] == [row];
  }

  /** Whatever the file held, an append adds its row to the rows that were there; a file with an
      undecodable complete line stays unreadable. */
  lemma AppendAddsRow<Row(!new)>(codec: Codec<Row>, bytes: seq<Byte>, row: Row)
    requires codec.Sound()
    ensures Records(codec, Appended(codec, bytes, row)) == Joined(Records(codec, bytes), Some([row]))
  {
    var kept := bytes[..Boundary(bytes)];
    BoundaryUnique(bytes, Boundary(bytes));
    assert bytes == kept + bytes[Boundary(bytes)..];
    TailIgnored(codec, kept, bytes[Boundary(bytes)..]);
    LineRecords(codec, row);
    RecordsSplit(codec, kept, codec.Line(row));
  }

  /** An append that is killed before its newline is written leaves the rows as they were. */
  lemma CutAppendKeepsRows<Row(!new)>(codec: Codec<Row>, bytes: seq<Byte>, row: Row, cut: nat)
    requires codec.Sound() && cut < |codec.Line(row)|
    ensures Records(codec, Torn(codec, bytes, row, cut)) == Records(codec, bytes)
  {
    var kept := bytes[..Boundary(bytes)];
    BoundaryUnique(bytes, Boundary(bytes));
    assert bytes == kept + bytes[Boundary(bytes)..];
    TailIgnored(codec, kept, bytes[Boundary(bytes)..]);
    var part := codec.Line(row)[..cut];
    assert part == codec.encode(row)[..cut];
    TailIgnored(codec, kept, part);
  }

  // ----- Any sequence of appends, each cut anywhere

  /** How far an append got: not past the truncation (`None`), or that many bytes of its line. */
  datatype Attempt<Row> = Attempt(row: Row, written: Option<nat>)

  function After<Row(!new)>(codec: Codec<Row>, bytes: seq<Byte>, attempts: seq<Attempt<Row>>): seq<Byte> {
    if attempts == [] then bytes
    else
      var n := |attempts| - 1;
      var before := After(codec, bytes, attempts[..n]);
      match attempts[n].written
      case None => before
      case Some(cut) =>
        Torn(codec, before, attempts[n].row, if cut <= |codec.Line(attempts[n].row)| then cut else |codec.Line(attempts[n].row)|)
  }

  predicate Finished<Row(!new)>(codec: Codec<Row>, a: Attempt<Row>) {
    a.written.Some? && a.written.value >= |codec.Line(a.row)|
  }

  /** The rows whose newline was written. */
  function Committed<Row(!new)>(codec: Codec<Row>, attempts: seq<Attempt<Row>>): seq<Row> {
    if attempts == [] then []
    else
      var n := |attempts| - 1;
      Committed(codec, attempts[..n]) + if Finished(codec, attempts[n]) then [attempts[n].row] else []
  }

  /** After any sequence of appends, each killed at any byte, the log reads as what it held
      before and then exactly the rows whose newline was written, in order. */
  lemma {:induction false} LogIsCommitted<Row(!new)>(codec: Codec<Row>, bytes: seq<Byte>, attempts: seq<Attempt<Row>>)
    requires codec.Sound()
    ensures Records(codec, After(codec, bytes, attempts)) == Joined(Records(codec, bytes), Some(Committed(codec, attempts)))
  {
    if attempts == [] {
      JoinedNothing(Records(codec, bytes));
    } else {
      var n := |attempts| - 1;
      LogIsCommitted(codec, bytes, attempts[..n]);
      var before, a := After(codec, bytes, attempts[..n]), attempts[n];
      if Finished(codec, a) {
        AppendAddsRow(codec, before, a.row);
        assert codec.Line(a.row)[..|codec.Line(a.row)|] == codec.Line(a.row);
        JoinedAssoc(Records(codec, bytes), Some(Committed(codec, attempts[..n])), Some([a.row]));
      } else {
        assert Committed(codec, attempts) == Committed(codec, attempts[..n]);
        if a.written.Some? { CutAppendKeepsRows(codec, before, a.row, a.written.value); }
      }
    }
  }

  // ----- The log file

  /** The place of the last newline, or -1. */
  method LastNewline(chunk: seq<Byte>) returns (found: int)
    ensures -1 <= found < |chunk|
    ensures found >= 0 ==> chunk[found] == NEWLINE
    ensures forall k :: found < k < |chunk| ==> chunk[k] != NEWLINE
  {
    found := |chunk| - 1;
    while found >= 0 && chunk[found] != NEWLINE
      invariant -1 <= found < |chunk|
      invariant forall k :: found < k < |chunk| ==> chunk[k] != NEWLINE
    {
      found := found - 1;
    }
  }

  class LogFile<!Row(!new)> {
    const codec: Codec<Row>
    var bytes: seq<Byte>

    constructor (codec: Codec<Row>, bytes: seq<Byte>)
      ensures this.codec == codec && this.bytes == bytes
    {
      this.codec, this.bytes := codec, bytes;
    }

    /** Where to truncate: scans backwards in chunks for the last newline. */
    method ScanBack() returns (boundary: nat)
      requires bytes != [] && bytes[|bytes| - 1] != NEWLINE
      ensures boundary == Boundary(bytes)
    {
      var cursor := |bytes|;
      boundary := 0;
      while cursor > 0
        invariant 0 <= cursor <= |bytes| && boundary == 0
        invariant NEWLINE !in bytes[cursor..]
      {
        var start := if cursor < CHUNK then 0 else cursor - CHUNK;
        var chunk := bytes[start..cursor];
        var found := LastNewline(chunk);
        if found >= 0 {
          boundary := start + found + 1;
          assert bytes[..boundary][boundary - 1] == chunk[found];
          forall k | boundary <= k < |bytes|
            ensures bytes[k] != NEWLINE
          {
            assert k < cursor ==> chunk[k - start] != NEWLINE;
            assert k >= cursor ==> bytes[cursor..][k - cursor] != NEWLINE;
          }
          BoundaryUnique(bytes, boundary);
          return;
        }
        assert bytes[start..] == chunk + bytes[cursor..];
        cursor := start;
      }
      BoundaryUnique(bytes, 0);
    }

    method Append(row: Row)
      modifies this
      ensures bytes == Appended(codec, old(bytes), row)
      ensures codec.Sound() ==> Records(codec, bytes) == Joined(Records(codec, old(bytes)), Some([row]))
    {
      if codec.Sound() { AppendAddsRow(codec, bytes, row); }
      if bytes != [] && bytes[|bytes| - 1] != NEWLINE {
        var boundary := ScanBack();
        bytes := bytes[..boundary];
      } else {
        assert bytes[..|bytes|] == bytes;
      }
      bytes := bytes + codec.Line(row);
    }

    method Read() returns (rows: Option<seq<Row>>)
      ensures rows == Records(codec, bytes)
    {
      var read: seq<Row> := [];
      var rest := bytes;
      JoinedNothing(Records(codec, bytes));
      while NEWLINE in rest
        invariant Records(codec, bytes) == Joined(Some(read), Records(codec, rest))
        decreases |rest|
      {
        var n := FirstNewline(rest);
        JoinedAssoc(Some(read), Decoded(codec, rest[..n]), Records(codec, rest[n + 1..]));
        var row := codec.decode(rest[..n]);
        if row.None? { return None; }
        read := read + [row.value];
        rest := rest[n + 1..];
      }
      assert read + [] == read;
      return Some(read);
    }
  }
}
