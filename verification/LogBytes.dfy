/** The protocol of the logger on bytes: each step of LogProtocol with what it does to the memory of the buffers
    and to the file, as LogBuffer has it. */
module LogBytes {
  import opened Common
  import opened LogProtocol
  import opened LogSafety
  import opened LogTheorems
  import B = LogBuffer

  type Memory = seq<B.Byte>

  const SIZE: nat := B.ROWS * B.ROW

  /** The memory of the three buffers, and the pieces written to the file. */
  datatype Bytes = Bytes(mems: seq<Memory>, out: seq<seq<B.Byte>>)

  function Zeros(): (r: Memory)
    ensures |r| == SIZE && forall k :: 0 <= k < SIZE ==> r[k] == 0
  {
    seq(SIZE, _ => 0)
  }

  ghost predicate Sized(m: Bytes) {
    |m.mems| == 3 && forall k :: 0 <= k < 3 ==> |m.mems[k]| == SIZE
  }

  function InitBytes(): Bytes { Bytes([Zeros(), Zeros(), Zeros()], []) }

  /** `add_log`: the contract of `LogBuffer.AddLog` as a relation. */
  ghost predicate Added(mem: Memory, mem': Memory, i: nat, msg: B.Message)
    requires i < B.ROWS && |mem| == SIZE && |mem'| == SIZE
  {
    && B.Stores(mem', i, msg)
    && forall k :: 0 <= k < |mem| && !(B.At(i) <= k < B.At(i) + 1 + |msg| % 256) ==> mem'[k] == mem[k]
  }

  /** The step stores a message: into which buffer and row. */
  ghost predicate StoreStep(st: State, l: Label) { l.P? && l.act.Store? && PcOf(st, l.t).Claimed? }

  /** The step writes row i of a buffer to the file. */
  ghost predicate RowStep(cfg: Config, st: State, l: Label) {
    l.L? && st.log.Flushing? && st.log.i < FlushTarget(cfg, st, st.log.stage).1
  }

  /** What a step does to the bytes. */
  ghost predicate ByteStep(cfg: Config, text: Rec -> B.Message, st: State, l: Label, m: Bytes, m': Bytes)
    requires Sized(m) && Sized(m')
  {
    if StoreStep(st, l) then
      var pc := PcOf(st, l.t);
      && pc.b < 3 && pc.i < B.ROWS
      && m' == m.(mems := m.mems[pc.b := m'.mems[pc.b]])
      && Added(m.mems[pc.b], m'.mems[pc.b], pc.i, text(pc.r))
    else if RowStep(cfg, st, l) then
      var b, i := FlushTarget(cfg, st, st.log.stage).0, st.log.i;
      && b < 3 && i < B.ROWS && B.NewlineFits(m.mems[b], i)
      && m' == Bytes(m.mems[b := B.WithNewline(m.mems[b], i)], m.out + [B.PieceOf(m.mems[b], i)])
    else if l.L? && st.log.Resetting? then
      var b := FlushTarget(cfg, st, st.log.stage).0;
      b < 3 && m' == m.(mems := m.mems[b := Zeros()])
    else m' == m
  }

  // ----- rows ---------------------------------------------------------------------------------

  /** The message in row i of a buffer; empty if there is none. */
  function RowText(text: Rec -> B.Message, b: Buf, i: nat): B.Message {
    if i in b.rows then text(b.rows[i]) else []
  }

  /** The memory holds what the protocol's buffer has. */
  ghost predicate Holds(text: Rec -> B.Message, b: Buf, mem: Memory) {
    |mem| == SIZE && forall i :: 0 <= i < B.ROWS ==> B.Stores(mem, i, RowText(text, b, i))
  }

  ghost predicate Short(text: Rec -> B.Message) { forall r :: |text(r)| <= 254 }

  /** A row only depends on its own bytes. */
  lemma SameRow(mem: Memory, mem': Memory, i: nat, msg: B.Message)
    requires |mem| == SIZE && |mem'| == SIZE && i < B.ROWS && |msg| <= 254 && B.Stores(mem, i, msg)
    requires forall k :: B.At(i) <= k < B.At(i) + 1 + |msg| ==> mem'[k] == mem[k]
    ensures B.Stores(mem', i, msg)
  {
    var from, to := B.At(i) + 1, B.At(i) + 1 + |msg|;
    assert mem'[from..to] == mem[from..to];
  }

  lemma RowsApart(i: nat, j: nat)
    requires i != j
    ensures B.At(i) + B.ROW <= B.At(j) || B.At(j) + B.ROW <= B.At(i)
  {
  }

  lemma AddHolds(text: Rec -> B.Message, b: Buf, mem: Memory, mem': Memory, i: nat, r: Rec)
    requires Short(text) && Holds(text, b, mem) && i < B.ROWS && |mem'| == SIZE && Added(mem, mem', i, text(r))
    ensures Holds(text, b.(rows := b.rows[i := r]), mem')
  {
    var b' := b.(rows := b.rows[i := r]);
    forall j | 0 <= j < B.ROWS
      ensures B.Stores(mem', j, RowText(text, b', j))
    {
      if j != i {
        RowsApart(i, j);
        SameRow(mem, mem', j, RowText(text, b, j));
      }
    }
  }

  /** Flushing a row of a short message writes it and a newline, and disturbs no row. */
  lemma FlushHolds(text: Rec -> B.Message, b: Buf, mem: Memory, i: nat)
    requires Short(text) && Holds(text, b, mem) && i < B.ROWS
    ensures B.NewlineFits(mem, i) && Holds(text, b, B.WithNewline(mem, i))
    ensures B.PieceOf(mem, i) == RowText(text, b, i) + [B.NEWLINE]
  {
    var msg := RowText(text, b, i);
    assert B.Stores(mem, i, msg);
    B.OwnPiece(mem, i, msg);
    assert msg[..|msg| % 256] == msg;
    var mem' := B.WithNewline(mem, i);
    forall j | 0 <= j < B.ROWS
      ensures B.Stores(mem', j, RowText(text, b, j))
    {
      if j != i { RowsApart(i, j); }
      SameRow(mem, mem', j, RowText(text, b, j));
    }
  }

  lemma ZerosHold(text: Rec -> B.Message, b: Buf)
    requires b.rows == map[]
    ensures Holds(text, b, Zeros())
  {
  }

  // ----- steps --------------------------------------------------------------------------------

  predicate PlaceInside(cfg: Config, pc: Producer) {
    && (pc.Claimed? ==> pc.b < 3 && pc.i < cfg.cap)
    && (pc.SwapA? || pc.SwapB? ==> pc.t < 3)
  }

  /** Pointers point to buffers and claimed rows lie inside them, whatever the barrier does. */
  ghost predicate Inside(cfg: Config, st: State) {
    && |st.bufs| == 3 && st.primary < 3 && st.secondary < 3 && st.write < 3
    && (st.log.LSwapA? || st.log.LSwapB? ==> st.log.t < 3)
    && forall t: Tid :: PlaceInside(cfg, PcOf(st, t))
  }

  lemma ProducerInside(cfg: Config, st: State, st': State, t: Tid, act: Act)
    requires Inside(cfg, st) && StepProducer(cfg, st, st', t, act)
    ensures Inside(cfg, st')
  {
    OthersStay(cfg, st, st', t, act);
    assert PlaceInside(cfg, PcOf(st, t));
    SelfInside(cfg, st, st', t, act);
    hide StepProducer, PlaceInside;
    forall u: Tid
      ensures PlaceInside(cfg, PcOf(st', u))
    {
      assert PlaceInside(cfg, PcOf(st, u));
    }
  }

  lemma SelfInside(cfg: Config, st: State, st': State, t: Tid, act: Act)
    requires |st.bufs| == 3 && st.primary < 3 && st.secondary < 3 && st.write < 3
    requires PlaceInside(cfg, PcOf(st, t)) && StepProducer(cfg, st, st', t, act)
    ensures |st'.bufs| == 3 && st'.primary < 3 && st'.secondary < 3 && st'.write < 3 && st'.log == st.log
    ensures PlaceInside(cfg, PcOf(st', t))
  {
    ProducerFrame(cfg, st, st', t, act);
    ProducerPointers(cfg, st, st', t, act);
    ProducerPlace(cfg, st, st', t, act);
  }

  lemma ProducerPointers(cfg: Config, st: State, st': State, t: Tid, act: Act)
    requires |st.bufs| == 3 && st.primary < 3 && st.secondary < 3 && PlaceInside(cfg, PcOf(st, t))
    requires StepProducer(cfg, st, st', t, act)
    ensures |st'.bufs| == 3 && st'.primary < 3 && st'.secondary < 3 && st'.write == st.write
  {
    if act.SwapFirst? || act.SwapSecond? {
      hide PcOf, HoldsShared;
    } else if act.Claim? || act.Store? {
      hide PcOf, HoldsShared;
    } else {
      OnlyPlaces(cfg, st, st', t, act);
      hide StepProducer;
    }
  }

  /** All other steps of a producer leave the pointers, the buffers and the file. */
  lemma OnlyPlaces(cfg: Config, st: State, st': State, t: Tid, act: Act)
    requires StepProducer(cfg, st, st', t, act) && !act.SwapFirst? && !act.SwapSecond? && !act.Claim? && !act.Store?
    ensures st'.bufs == st.bufs && st'.primary == st.primary && st'.secondary == st.secondary && st'.write == st.write
    ensures st'.file == st.file
  {
    hide Started, MaySwap, HoldsShared, PcOf;
  }

  lemma ProducerPlace(cfg: Config, st: State, st': State, t: Tid, act: Act)
    requires st.primary < 3 && PlaceInside(cfg, PcOf(st, t)) && StepProducer(cfg, st, st', t, act)
    ensures PlaceInside(cfg, PcOf(st', t))
  {
    hide Started, MaySwap, HoldsShared;
  }

  lemma LoggerInside(cfg: Config, st: State, st': State)
    requires Inside(cfg, st) && StepLogger(cfg, st, st')
    ensures Inside(cfg, st')
  {
    LoggerFrame(cfg, st, st');
    LoggerPointers(cfg, st, st');
    hide StepLogger;
    assert forall t: Tid :: PcOf(st', t) == PcOf(st, t);
  }

  lemma LoggerPointers(cfg: Config, st: State, st': State)
    requires st.secondary < 3 && st.write < 3 && (st.log.LSwapA? || st.log.LSwapB? ==> st.log.t < 3)
    requires StepLogger(cfg, st, st')
    ensures st'.secondary < 3 && st'.write < 3 && (st'.log.LSwapA? || st'.log.LSwapB? ==> st'.log.t < 3)
  {
    LoggerNext(cfg, st, st');
    SwapSteps(cfg, st, st');
    hide StepLogger;
    if st.log.Flushing? || st.log.Resetting? {
      FlushFrame(cfg, st, st');
    } else if !st.log.LSwapA? && !st.log.LSwapB? {
      PointersStay(cfg, st, st');
    }
  }

  lemma StepInside(cfg: Config, st: State, st': State, l: Label)
    requires Inside(cfg, st) && Step(cfg, st, st', l)
    ensures Inside(cfg, st')
  {
    hide StepProducer, StepLogger, PlaceInside;
    match l
    case P(t, act) => ProducerInside(cfg, st, st', t, act);
    case L => LoggerInside(cfg, st, st');
    case O => assert forall t: Tid :: PcOf(st', t) == PcOf(st, t);
  }

  /** A line as it is written. */
  function Piece(text: Rec -> B.Message, l: Line): seq<B.Byte> {
    (if l.Text? then text(l.r) else []) + [B.NEWLINE]
  }

  function Pieces(text: Rec -> B.Message, file: seq<Line>): seq<seq<B.Byte>> {
    seq(|file|, i requires 0 <= i < |file| => Piece(text, file[i]))
  }

  /** The bytes are what the protocol's state says. */
  ghost predicate Mirrors(text: Rec -> B.Message, st: State, m: Bytes) {
    && Sized(m) && |st.bufs| == 3
    && (forall k :: 0 <= k < 3 ==> Holds(text, st.bufs[k], m.mems[k]))
    && m.out == Pieces(text, st.file)
  }

  /** Each buffer has the rows it had. */
  ghost predicate SameRows(st: State, st': State) {
    |st'.bufs| == |st.bufs| && forall k :: 0 <= k < |st.bufs| ==> st'.bufs[k].rows == st.bufs[k].rows
  }

  lemma ProducerRows(cfg: Config, st: State, st': State, t: Tid, act: Act)
    requires StepProducer(cfg, st, st', t, act) && !act.Store?
    ensures SameRows(st, st') && st'.file == st.file
  {
    if act.SwapFirst? || act.SwapSecond? || act.Claim? {
      hide PcOf, HoldsShared;
    } else {
      OnlyPlaces(cfg, st, st', t, act);
      hide StepProducer;
    }
  }

  lemma LoggerRows(cfg: Config, st: State, st': State)
    requires StepLogger(cfg, st, st') && !RowStep(cfg, st, L) && !st.log.Resetting?
    ensures SameRows(st, st') && st'.file == st.file
  {
    if st.log.Flushing? {
      hide LineOf;
    } else {
      WaitFrame(cfg, st, st');
      hide StepLogger;
    }
  }

  /** Steps that touch no row and no file. */
  lemma QuietStep(cfg: Config, st: State, st': State, l: Label)
    requires Step(cfg, st, st', l) && !StoreStep(st, l) && !RowStep(cfg, st, l) && !(l.L? && st.log.Resetting?)
    ensures SameRows(st, st') && st'.file == st.file
  {
    match l
    case P(t, act) =>
      assert !act.Store?;
      hide StepProducer;
      ProducerRows(cfg, st, st', t, act);
    case L =>
      hide StepLogger, RowStep;
      LoggerRows(cfg, st, st');
    case O =>
  }

  lemma QuietMirrors(text: Rec -> B.Message, st: State, st': State, m: Bytes)
    requires Mirrors(text, st, m) && SameRows(st, st') && st'.file == st.file
    ensures Mirrors(text, st', m)
  {
    forall k | 0 <= k < 3
      ensures Holds(text, st'.bufs[k], m.mems[k])
    {
      assert Holds(text, st.bufs[k], m.mems[k]);
      assert forall i: nat :: RowText(text, st'.bufs[k], i) == RowText(text, st.bufs[k], i);
    }
  }

  lemma StoreMirrors(cfg: Config, text: Rec -> B.Message, st: State, st': State, l: Label, m: Bytes, m': Bytes)
    requires Mirrors(text, st, m) && Short(text) && Sized(m') && Step(cfg, st, st', l) && StoreStep(st, l)
    requires ByteStep(cfg, text, st, l, m, m')
    ensures Mirrors(text, st', m')
  {
    var pc := PcOf(st, l.t);
    hide Holds, Added, Short;
    AddHolds(text, st.bufs[pc.b], m.mems[pc.b], m'.mems[pc.b], pc.i, pc.r);
  }

  lemma RowMirrors(cfg: Config, text: Rec -> B.Message, st: State, st': State, l: Label, m: Bytes, m': Bytes)
    requires Mirrors(text, st, m) && Short(text) && Sized(m') && Step(cfg, st, st', l) && RowStep(cfg, st, l)
    requires ByteStep(cfg, text, st, l, m, m')
    ensures Mirrors(text, st', m')
  {
    var b := FlushTarget(cfg, st, st.log.stage).0;
    hide Holds, Short;
    FlushHolds(text, st.bufs[b], m.mems[b], st.log.i);
    assert Piece(text, LineOf(st.bufs[b], st.log.i)) == RowText(text, st.bufs[b], st.log.i) + [B.NEWLINE];
  }

  lemma ResetMirrors(cfg: Config, text: Rec -> B.Message, st: State, st': State, m: Bytes, m': Bytes)
    requires Mirrors(text, st, m) && Sized(m') && StepLogger(cfg, st, st') && st.log.Resetting?
    requires ByteStep(cfg, text, st, L, m, m')
    ensures Mirrors(text, st', m')
  {
    var b := FlushTarget(cfg, st, st.log.stage).0;
    ZerosHold(text, st'.bufs[b]);
    hide Holds, Zeros;
  }

  lemma StepMirrors(cfg: Config, text: Rec -> B.Message, st: State, st': State, l: Label, m: Bytes, m': Bytes)
    requires Mirrors(text, st, m) && Short(text) && Sized(m') && Step(cfg, st, st', l) && ByteStep(cfg, text, st, l, m, m')
    ensures Mirrors(text, st', m')
  {
    if StoreStep(st, l) {
      StoreMirrors(cfg, text, st, st', l, m, m');
    } else if RowStep(cfg, st, l) {
      RowMirrors(cfg, text, st, st', l, m, m');
    } else if l.L? && st.log.Resetting? {
      ResetMirrors(cfg, text, st, st', m, m');
    } else {
      QuietStep(cfg, st, st', l);
      QuietMirrors(text, st, st', m);
    }
  }

  // ----- every step has its bytes -----------------------------------------------------------------

  /** The memory after `add_log`. */
  lemma CanAdd(mem: Memory, i: nat, msg: B.Message) returns (mem': Memory)
    requires |mem| == SIZE && i < B.ROWS && |msg| <= 254
    ensures |mem'| == SIZE && Added(mem, mem', i, msg)
  {
    var a := B.At(i);
    mem' := mem[..a] + [|msg|] + msg + mem[a + 1 + |msg|..];
    assert mem'[a + 1..a + 1 + |msg|] == msg == msg[..|msg| % 256];
  }

  /** With short messages no step of the protocol leaves the memory. */
  lemma CanStep(cfg: Config, text: Rec -> B.Message, st: State, l: Label, m: Bytes) returns (m': Bytes)
    requires Mirrors(text, st, m) && Inside(cfg, st) && Short(text) && cfg.cap == B.ROWS
    ensures Sized(m') && ByteStep(cfg, text, st, l, m, m')
  {
    m' := m;
    if StoreStep(st, l) {
      var pc := PcOf(st, l.t);
      assert PlaceInside(cfg, pc);
      var mem' := CanAdd(m.mems[pc.b], pc.i, text(pc.r));
      m' := m.(mems := m.mems[pc.b := mem']);
    } else if RowStep(cfg, st, l) {
      var b, i := FlushTarget(cfg, st, st.log.stage).0, st.log.i;
      FlushHolds(text, st.bufs[b], m.mems[b], i);
      m' := Bytes(m.mems[b := B.WithNewline(m.mems[b], i)], m.out + [B.PieceOf(m.mems[b], i)]);
    } else if l.L? && st.log.Resetting? {
      var b := FlushTarget(cfg, st, st.log.stage).0;
      m' := m.(mems := m.mems[b := Zeros()]);
    }
  }

  // ----- runs ---------------------------------------------------------------------------------

  /** A run of the protocol together with its bytes. */
  ghost predicate ByteRun(cfg: Config, text: Rec -> B.Message, states: seq<State>, labels: seq<Label>, bytes: seq<Bytes>) {
    && Run(cfg, states, labels) && |bytes| == |states| && bytes[0] == InitBytes()
    && (forall i :: 0 <= i < |bytes| ==> Sized(bytes[i]))
    && forall i {:trigger labels[i]} :: 0 <= i < |labels| ==> ByteStep(cfg, text, states[i], labels[i], bytes[i], bytes[i + 1])
  }

  lemma InitMirrors(cfg: Config, text: Rec -> B.Message)
    ensures Mirrors(text, Init(), InitBytes()) && Inside(cfg, Init())
  {
    ZerosHold(text, EMPTY);
    hide Zeros, Holds;
  }

  lemma {:induction false} RunMirrors(cfg: Config, text: Rec -> B.Message, states: seq<State>, labels: seq<Label>, bytes: seq<Bytes>)
    requires ByteRun(cfg, text, states, labels, bytes) && Short(text)
    ensures Mirrors(text, states[|labels|], bytes[|labels|])
    decreases |labels|
  {
    hide Step, ByteStep, Mirrors, Sized, Short;
    if labels == [] {
      InitMirrors(cfg, text);
    } else {
      var n := |labels| - 1;
      RunMirrors(cfg, text, states[..n + 1], labels[..n], bytes[..n + 1]);
      StepMirrors(cfg, text, states[n], states[n + 1], labels[n], bytes[n], bytes[n + 1]);
    }
  }

  /** Whatever the barrier does: with buffers of 1024 rows and messages of at most 254 bytes no step leaves the
      memory of its buffer, so every run has its bytes. */
  lemma {:induction false} EveryRunHasBytes(cfg: Config, text: Rec -> B.Message, states: seq<State>, labels: seq<Label>) returns (bytes: seq<Bytes>)
    requires Run(cfg, states, labels) && Short(text) && cfg.cap == B.ROWS
    ensures ByteRun(cfg, text, states, labels, bytes) && Inside(cfg, states[|labels|])
    decreases |labels|
  {
    hide Step, ByteStep, Mirrors, Short, Inside, Sized;
    if labels == [] {
      InitMirrors(cfg, text);
      bytes := [InitBytes()];
      InitSized();
    } else {
      var n := |labels| - 1;
      var bs := EveryRunHasBytes(cfg, text, states[..n + 1], labels[..n]);
      RunMirrors(cfg, text, states[..n + 1], labels[..n], bs);
      var m := CanStep(cfg, text, states[n], labels[n], bs[n]);
      StepInside(cfg, states[n], states[n + 1], labels[n]);
      bytes := bs + [m];
    }
  }

  lemma InitSized()
    ensures Sized(InitBytes())
  {
  }

  /** The messages, each with its newline. */
  function MessageLines(text: Rec -> B.Message, recs: seq<Rec>): seq<seq<B.Byte>> {
    seq(|recs|, i requires 0 <= i < |recs| => text(recs[i]) + [B.NEWLINE])
  }

  lemma {:induction false} PiecesOfTexts(text: Rec -> B.Message, file: seq<Line>)
    requires Blank !in file
    ensures Pieces(text, file) == MessageLines(text, Texts(file))
    decreases |file|
  {
    if file != [] {
      var n := |file| - 1;
      assert Blank !in file[..n] by { assert forall l :: l in file[..n] ==> l in file; }
      PiecesOfTexts(text, file[..n]);
      assert file[n] in file && file[n].Text?;
      assert Pieces(text, file) == Pieces(text, file[..n]) + [Piece(text, file[n])];
    }
  }

  /** End to end, with two parties or more: what the finished log thread has written is, piece by piece, the lines
      of the protocol's file, which has every message exactly once and in order. If only full buffers pass the
      re-check, it is exactly the messages with a newline each. */
  lemma FinishedFile(cfg: Config, text: Rec -> B.Message, states: seq<State>, labels: seq<Label>, bytes: seq<Bytes>)
    requires ByteRun(cfg, text, states, labels, bytes) && Short(text) && cfg.parties >= 2 && states[|labels|].log.Done?
    ensures AllWritten(states[|labels|]) && bytes[|labels|].out == Pieces(text, states[|labels|].file)
    ensures OnlyFull(cfg) ==> bytes[|labels|].out == MessageLines(text, Texts(states[|labels|].file))
  {
    var st := states[|labels|];
    RunMirrors(cfg, text, states, labels, bytes);
    hide Run, ByteStep, Sized, Spaced, AllWritten;
    assert EndsIn(cfg, states, labels, st);
    BarrierSpaces(cfg, st);
    EverythingFlushed(cfg, st);
    if OnlyFull(cfg) {
      NoBlankLines(cfg, st);
      PiecesOfTexts(text, st.file);
    }
  }
}
