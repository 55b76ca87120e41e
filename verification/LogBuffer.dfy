/** The log buffer (`logger/src/log_buffer.cpp`): 1024 rows of 256 bytes, one after the other in
    memory. A row starts with the length of its message; `flush` appends the newline in place. */
module LogBuffer {
  type Byte = x: int | 0 <= x < 256
  type Message = seq<Byte>

  const ROWS: nat := 1024
  const ROW: nat := 256
  const NEWLINE: Byte := 10

  // ----- what flush does to the memory ----------------------------------------------

  /** Position of row i. */
  function At(i: nat): nat { i * ROW }

  function LengthAt(mem: seq<Byte>, i: nat): (len: Byte)
    requires i < ROWS && |mem| == ROWS * ROW
  {
    mem[At(i)]
  }

  /** The newline of row i is inside the memory. */
  predicate NewlineFits(mem: seq<Byte>, i: nat)
    requires i < ROWS && |mem| == ROWS * ROW
  {
    At(i) + LengthAt(mem, i) + 1 < |mem|
  }

  function WithNewline(mem: seq<Byte>, i: nat): (r: seq<Byte>)
    requires i < ROWS && |mem| == ROWS * ROW && NewlineFits(mem, i)
    ensures |r| == |mem|
  {
    mem[At(i) + LengthAt(mem, i) + 1 := NEWLINE]
  }

  /** The message of row i and the newline. */
  function PieceOf(mem: seq<Byte>, i: nat): (r: seq<Byte>)
    requires i < ROWS && |mem| == ROWS * ROW && NewlineFits(mem, i)
    ensures |r| == LengthAt(mem, i) + 1
  {
    WithNewline(mem, i)[At(i) + 1..At(i) + LengthAt(mem, i) + 2]
  }

  /** Rows i to n - 1 can be flushed without leaving the memory. */
  predicate InBounds(mem: seq<Byte>, i: nat, n: nat)
    requires i <= n <= ROWS && |mem| == ROWS * ROW
    decreases n - i
  {
    i == n || (NewlineFits(mem, i) && InBounds(WithNewline(mem, i), i + 1, n))
  }

  /** The pieces written for rows i to n - 1, and the memory afterwards. A newline that falls out of its row
      is seen by the rows after it. */
  function FlushRows(mem: seq<Byte>, i: nat, n: nat): (r: (seq<seq<Byte>>, seq<Byte>))
    requires i <= n <= ROWS && |mem| == ROWS * ROW && InBounds(mem, i, n)
    decreases n - i
  {
    if i == n then ([], mem)
    else
      var (pieces, last) := FlushRows(WithNewline(mem, i), i + 1, n);
      ([PieceOf(mem, i)] + pieces, last)
  }

  lemma FlushStep(mem: seq<Byte>, i: nat, n: nat)
    requires i < n <= ROWS && |mem| == ROWS * ROW && InBounds(mem, i, n)
    ensures NewlineFits(mem, i) && InBounds(WithNewline(mem, i), i + 1, n)
    ensures FlushRows(mem, i, n).0 == [PieceOf(mem, i)] + FlushRows(WithNewline(mem, i), i + 1, n).0
  {
  }

  // ----- the class ------------------------------------------------------------------

  class LogFile {
    var pieces: seq<seq<Byte>> // what was written, one entry per call

    constructor ()
      ensures pieces == []
    {
      pieces := [];
    }

    method Write(piece: seq<Byte>)
      modifies this
      ensures pieces == old(pieces) + [piece]
    {
      pieces := pieces + [piece];
    }
  }

  class LogBuffer {
    const buffer: array<Byte> // m_buffer_, row after row
    var index: nat            // m_index_

    ghost predicate Valid()
      reads this
    {
      buffer.Length == ROWS * ROW
    }

    constructor ()
      ensures Valid() && fresh(buffer) && index == 0 && forall k :: 0 <= k < ROWS * ROW ==> buffer[k] == 0
    {
      buffer := new Byte[ROWS * ROW](_ => 0);
      index := 0;
    }

    /** Claim a row. The counter moves on even if there is none left. */
    method GetIndex() returns (ok: bool, i: nat)
      modifies this`index
      ensures i == old(index) && index == old(index) + 1 && (ok <==> i < ROWS)
    {
      i := index;
      index := index + 1;
      ok := i < ROWS;
    }

    method Empty() returns (r: bool)
      ensures r <==> index == 0
    {
      r := index == 0;
    }

    /** The length is cut to eight bits; that many bytes of the message are copied. */
    method AddLog(msg: Message, i: nat)
      requires Valid() && i < ROWS
      modifies buffer
      ensures Stores(buffer[..], i, msg)
      ensures forall k :: 0 <= k < ROWS * ROW && !(At(i) <= k < At(i) + 1 + |msg| % 256) ==> buffer[k] == old(buffer[k])
    {
      var len := |msg| % 256;
      buffer[i * ROW] := len;
      for j := 0 to len
        invariant buffer[At(i)] == len
        invariant forall k :: 0 <= k < j ==> buffer[At(i) + 1 + k] == msg[k]
        invariant forall k :: 0 <= k < ROWS * ROW && !(At(i) <= k < At(i) + 1 + j) ==> buffer[k] == old(buffer[k])
      {
        buffer[i * ROW + 1 + j] := msg[j];
      }
    }

    /** All rows, or those claimed so far, go to the file; then the buffer is reset. */
    method Flush(file: LogFile, isAll: bool)
      requires Valid() && InBounds(buffer[..], 0, if isAll then ROWS else Claimed())
      modifies this`index, buffer, file
      ensures index == 0 && forall k :: 0 <= k < ROWS * ROW ==> buffer[k] == 0
      ensures file.pieces == old(file.pieces) + FlushRows(old(buffer[..]), 0, if isAll then ROWS else old(Claimed())).0
    {
      var n := if isAll then ROWS else Claimed();
      FlushFirst(file, n);
      Reset();
    }

    method FlushFirst(file: LogFile, n: nat)
      requires Valid() && n <= ROWS && InBounds(buffer[..], 0, n)
      modifies buffer, file
      ensures file.pieces == old(file.pieces) + FlushRows(old(buffer[..]), 0, n).0
    {
      ghost var start := buffer[..];
      for i := 0 to n
        invariant InBounds(buffer[..], i, n)
        invariant file.pieces + FlushRows(buffer[..], i, n).0 == old(file.pieces) + FlushRows(start, 0, n).0
      {
        ghost var mem, pieces := buffer[..], file.pieces;
        FlushStep(mem, i, n);
        hide FlushRows, InBounds, PieceOf, WithNewline, NewlineFits;
        FlushRow(file, i);
        Regroup(pieces, PieceOf(mem, i), FlushRows(buffer[..], i + 1, n).0);
      }
    }

    method FlushRow(file: LogFile, i: nat)
      requires Valid() && i < ROWS && NewlineFits(buffer[..], i)
      modifies buffer, file
      ensures buffer[..] == WithNewline(old(buffer[..]), i)
      ensures file.pieces == old(file.pieces) + [PieceOf(old(buffer[..]), i)]
    {
      ghost var mem := buffer[..];
      var len := buffer[i * ROW];
      buffer[i * ROW + len + 1] := NEWLINE;
      assert buffer[..] == WithNewline(mem, i);
      file.Write(buffer[i * ROW + 1..i * ROW + len + 2]);
    }

    function Claimed(): (n: nat)
      reads this
      ensures n <= ROWS
    {
      if index < ROWS then index else ROWS
    }

    method Reset()
      requires Valid()
      modifies this`index, buffer
      ensures index == 0 && forall k :: 0 <= k < ROWS * ROW ==> buffer[k] == 0
    {
      index := 0;
      for k := 0 to ROWS * ROW
        invariant index == 0 && forall j :: 0 <= j < k ==> buffer[j] == 0
      {
        buffer[k] := 0;
      }
    }
  }

  lemma Regroup(pieces: seq<seq<Byte>>, piece: seq<Byte>, rest: seq<seq<Byte>>)
    ensures pieces + ([piece] + rest) == pieces + [piece] + rest
  {
  }

  // ----- what a reader of the file gets -----------------------------------------------

  /** Row i holds message m as `add_log` leaves it. */
  ghost predicate Stores(mem: seq<Byte>, i: nat, m: Message)
    requires i < ROWS && |mem| == ROWS * ROW
  {
    var len := |m| % 256;
    LengthAt(mem, i) == len && mem[At(i) + 1..At(i) + 1 + len] == m[..len]
  }

  /** Row j holds message msgs[j], for i <= j < n. */
  ghost predicate RowsStore(mem: seq<Byte>, i: nat, n: nat, msgs: seq<Message>)
    requires i <= n <= ROWS && |mem| == ROWS * ROW && |msgs| == n
  {
    forall j :: i <= j < n ==> Stores(mem, j, msgs[j])
  }

  function Lines(msgs: seq<Message>, i: nat): (r: seq<seq<Byte>>)
    requires i <= |msgs|
    ensures |r| == |msgs| - i
    decreases |msgs| - i
  {
    if i == |msgs| then [] else [msgs[i] + [NEWLINE]] + Lines(msgs, i + 1)
  }

  /** The messages from i on that come out whole: none longer than 255 bytes, and one of exactly 255 bytes
      only in the last flushed row or before one of 10 bytes, whose length byte its newline overwrites with the
      value it has. */
  ghost predicate Printable(msgs: seq<Message>, i: nat) {
    && (forall j :: i <= j < |msgs| ==> |msgs[j]| <= 255)
    && (forall j :: i <= j < |msgs| - 1 && |msgs[j]| == 255 ==> |msgs[j + 1]| == 10)
  }

  lemma OwnPiece(mem: seq<Byte>, i: nat, m: Message)
    requires i < ROWS && |mem| == ROWS * ROW && NewlineFits(mem, i) && Stores(mem, i, m)
    ensures PieceOf(mem, i) == m[..|m| % 256] + [NEWLINE]
  {
    var len := LengthAt(mem, i);
    var mem' := WithNewline(mem, i);
    assert mem'[At(i) + 1..At(i) + 1 + len] == mem[At(i) + 1..At(i) + 1 + len];
    assert PieceOf(mem, i) == mem'[At(i) + 1..At(i) + 1 + len] + [NEWLINE];
  }

  /** The newline of row i stays in its row, or hits the length byte of the next one. */
  lemma OtherRow(mem: seq<Byte>, i: nat, j: nat, m: Message)
    requires i < j < ROWS && |mem| == ROWS * ROW && NewlineFits(mem, i) && Stores(mem, j, m)
    requires LengthAt(mem, i) != 255 || j != i + 1 || LengthAt(mem, j) == NEWLINE
    ensures Stores(WithNewline(mem, i), j, m)
  {
    var mem', len := WithNewline(mem, i), LengthAt(mem, j);
    assert At(i) + ROW <= At(j);
    assert j != i + 1 ==> At(i) + 2 * ROW <= At(j);
    assert mem'[At(j) + 1..At(j) + 1 + len] == mem[At(j) + 1..At(j) + 1 + len];
  }

  lemma RestStores(mem: seq<Byte>, i: nat, n: nat, msgs: seq<Message>)
    requires i < n <= ROWS && |mem| == ROWS * ROW && |msgs| == n && NewlineFits(mem, i) && RowsStore(mem, i, n, msgs)
    requires i + 1 < n && |msgs[i]| == 255 ==> |msgs[i + 1]| == 10
    requires |msgs[i]| <= 255
    ensures RowsStore(WithNewline(mem, i), i + 1, n, msgs)
  {
    hide WithNewline;
    forall j | i + 1 <= j < n
      ensures Stores(WithNewline(mem, i), j, msgs[j])
    {
      assert Stores(mem, j, msgs[j]) && Stores(mem, i, msgs[i]);
      OtherRow(mem, i, j, msgs[j]);
    }
  }

  lemma {:induction false} FlushPrints(mem: seq<Byte>, i: nat, n: nat, msgs: seq<Message>)
    requires i <= n <= ROWS && |mem| == ROWS * ROW && |msgs| == n && InBounds(mem, i, n)
    requires RowsStore(mem, i, n, msgs) && Printable(msgs, i)
    ensures FlushRows(mem, i, n).0 == Lines(msgs, i)
    decreases n - i
  {
    if i < n {
      hide WithNewline, PieceOf;
      FlushStep(mem, i, n);
      assert Stores(mem, i, msgs[i]);
      OwnPiece(mem, i, msgs[i]);
      RestStores(mem, i, n, msgs);
      assert Printable(msgs, i + 1) && msgs[i][..|msgs[i]| % 256] == msgs[i];
      hide FlushRows, InBounds, RowsStore, Printable, Stores, LengthAt, NewlineFits;
      FlushPrints(WithNewline(mem, i), i + 1, n, msgs);
    }
  }

  lemma SpilledLength(mem: seq<Byte>, i: nat)
    requires i + 1 < ROWS && |mem| == ROWS * ROW && LengthAt(mem, i) == 255
    ensures NewlineFits(mem, i) && LengthAt(WithNewline(mem, i), i + 1) == NEWLINE
  {
  }

  /** If row i and the rest come out right, the message of row i is whole and the rest is right. */
  lemma FirstLine(mem: seq<Byte>, i: nat, n: nat, msgs: seq<Message>)
    requires i < n <= ROWS && |mem| == ROWS * ROW && |msgs| == n && InBounds(mem, i, n) && Stores(mem, i, msgs[i])
    requires FlushRows(mem, i, n).0 == Lines(msgs, i)
    ensures NewlineFits(mem, i) && InBounds(WithNewline(mem, i), i + 1, n)
    ensures |msgs[i]| <= 255 && FlushRows(WithNewline(mem, i), i + 1, n).0 == Lines(msgs, i + 1)
  {
    FlushStep(mem, i, n);
    OwnPiece(mem, i, msgs[i]);
    var pieces := FlushRows(WithNewline(mem, i), i + 1, n).0;
    assert ([PieceOf(mem, i)] + pieces)[0] == ([msgs[i] + [NEWLINE]] + Lines(msgs, i + 1))[0];
    assert pieces == ([PieceOf(mem, i)] + pieces)[1..] == Lines(msgs, i + 1);
    hide WithNewline, PieceOf, InBounds;
  }

  /** A spilled newline is read as a length: the next row comes out right only if it has that length. */
  lemma SpilledLine(mem: seq<Byte>, i: nat, n: nat, msgs: seq<Message>)
    requires i + 1 < n <= ROWS && |mem| == ROWS * ROW && |msgs| == n && LengthAt(mem, i) == 255 && NewlineFits(mem, i)
    requires InBounds(WithNewline(mem, i), i + 1, n) && FlushRows(WithNewline(mem, i), i + 1, n).0 == Lines(msgs, i + 1)
    ensures |msgs[i + 1]| == 10
  {
    var mem' := WithNewline(mem, i);
    SpilledLength(mem, i);
    FlushStep(mem', i + 1, n);
    hide WithNewline;
    assert FlushRows(mem', i + 1, n).0[0] == msgs[i + 1] + [NEWLINE];
  }

  lemma {:induction false} PrintsOnlyPrintable(mem: seq<Byte>, i: nat, n: nat, msgs: seq<Message>)
    requires i <= n <= ROWS && |mem| == ROWS * ROW && |msgs| == n && InBounds(mem, i, n)
    requires RowsStore(mem, i, n, msgs) && FlushRows(mem, i, n).0 == Lines(msgs, i)
    ensures Printable(msgs, i)
    decreases n - i
  {
    if i < n {
      assert Stores(mem, i, msgs[i]);
      FirstLine(mem, i, n, msgs);
      hide FlushRows, InBounds, WithNewline, PieceOf, Lines;
      if i + 1 < n && |msgs[i]| == 255 {
        SpilledLine(mem, i, n, msgs);
      }
      RestStores(mem, i, n, msgs);
      PrintsOnlyPrintable(WithNewline(mem, i), i + 1, n, msgs);
    }
  }

  // ----- the end of the array -----------------------------------------------------------

  /** The length `flush` reads in row j: that of its message, unless the newline of the row before it spilled. */
  function SeenLength(msgs: seq<Message>, j: nat): Byte
    requires j < |msgs|
  {
    if j > 0 && SeenLength(msgs, j - 1) == 255 then NEWLINE else |msgs[j]| % 256
  }

  /** In the last row a message of 255 bytes pushes its newline out of the buffer; shorter ones do not. */
  lemma LastRowNewline(mem: seq<Byte>, i: nat)
    requires |mem| == ROWS * ROW && i < ROWS
    ensures NewlineFits(mem, i) <==> !(i == ROWS - 1 && LengthAt(mem, i) == 255)
    ensures NewlineFits(mem, i) ==> forall j :: i + 1 < j < ROWS ==> LengthAt(WithNewline(mem, i), j) == LengthAt(mem, j)
    ensures NewlineFits(mem, i) && i + 1 < ROWS ==>
              LengthAt(WithNewline(mem, i), i + 1) == if LengthAt(mem, i) == 255 then NEWLINE else LengthAt(mem, i + 1)
  {
  }

  lemma {:induction false} InsideFrom(mem: seq<Byte>, i: nat, n: nat, msgs: seq<Message>)
    requires i < n <= ROWS && |mem| == ROWS * ROW && |msgs| == n && LengthAt(mem, i) == SeenLength(msgs, i)
    requires forall j :: i < j < n ==> LengthAt(mem, j) == |msgs[j]| % 256
    ensures InBounds(mem, i, n) <==> !(n == ROWS && SeenLength(msgs, n - 1) == 255)
    decreases n - i
  {
    hide WithNewline, NewlineFits, LengthAt;
    LastRowNewline(mem, i);
    if i + 1 < n {
      InsideFrom(WithNewline(mem, i), i + 1, n, msgs);
    } else {
      assert NewlineFits(mem, i) ==> InBounds(WithNewline(mem, i), i + 1, n);
    }
  }

  /** `flush` stays inside the array exactly if it does not read the length 255 in the array's last row. */
  lemma FlushStaysInside(mem: seq<Byte>, n: nat, msgs: seq<Message>)
    requires n <= ROWS && |mem| == ROWS * ROW && |msgs| == n && RowsStore(mem, 0, n, msgs)
    ensures InBounds(mem, 0, n) <==> !(n == ROWS && SeenLength(msgs, n - 1) == 255)
  {
    if n > 0 {
      assert forall j :: 0 <= j < n ==> Stores(mem, j, msgs[j]);
      InsideFrom(mem, 0, n, msgs);
    }
  }

  /** Printable messages keep the length they have. */
  lemma {:induction false} PrintableLength(msgs: seq<Message>, j: nat)
    requires j < |msgs| && Printable(msgs, 0)
    ensures SeenLength(msgs, j) == |msgs[j]|
  {
    if j > 0 {
      PrintableLength(msgs, j - 1);
    }
  }

  /** Round trip: flushing rows that hold messages stays inside the array and writes exactly each message and a
      newline, in slot order, if and only if the messages are printable and the array's last row, if it is
      flushed, holds no message of 255 bytes. The log thread always flushes all rows. */
  lemma FlushRoundTrip(mem: seq<Byte>, n: nat, msgs: seq<Message>)
    requires n <= ROWS && |mem| == ROWS * ROW && |msgs| == n && RowsStore(mem, 0, n, msgs)
    ensures InBounds(mem, 0, n) && FlushRows(mem, 0, n).0 == Lines(msgs, 0)
            <==> Printable(msgs, 0) && (n == ROWS ==> |msgs[n - 1]| != 255)
  {
    FlushStaysInside(mem, n, msgs);
    if Printable(msgs, 0) && n == ROWS {
      PrintableLength(msgs, n - 1);
    }
    if Printable(msgs, 0) && InBounds(mem, 0, n) {
      FlushPrints(mem, 0, n, msgs);
    }
    if InBounds(mem, 0, n) && FlushRows(mem, 0, n).0 == Lines(msgs, 0) {
      PrintsOnlyPrintable(mem, 0, n, msgs);
    }
  }

  /** Messages of at most 254 bytes are always printable, and their newlines stay in the buffer. */
  lemma {:induction false} ShortIsSafe(mem: seq<Byte>, i: nat, n: nat, msgs: seq<Message>)
    requires i <= n <= ROWS && |mem| == ROWS * ROW && |msgs| == n && RowsStore(mem, i, n, msgs)
    requires forall j :: i <= j < n ==> |msgs[j]| <= 254
    ensures InBounds(mem, i, n) && Printable(msgs, i)
    decreases n - i
  {
    if i < n {
      assert Stores(mem, i, msgs[i]);
      assert NewlineFits(mem, i);
      RestStores(mem, i, n, msgs);
      ShortIsSafe(WithNewline(mem, i), i + 1, n, msgs);
    }
  }
}
