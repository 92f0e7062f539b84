/** The incremental parser of python_prototype/tir4.py that turns USB reads into frames. */
module MessageProcessor {
  import opened Options

  const NOP_MSGLEN: bv8 := 0xEF
  const TBD0_MSGLEN: bv8 := 0x07
  const TBD0_MSGID: bv8 := 0x20
  const VALID_MIN_MSGLEN := 2
  const VALID_MAX_MSGLEN: bv8 := 0x3E
  const VALID_MSGID: bv8 := 0x1C
  const DEVICE_STRIPE_LEN := 4

  const VLINE_OFFSET := 12
  const HPIX_OFFSET := 80
  const CROPPED_NUM_VLINES := 288
  const CROPPED_NUM_HPIX := 710

  datatype Stripe = Stripe(vline: int, hstart: int, hstop: int)

  type Frame = seq<Stripe>

  function Num(b: bv8): (n: int)
    ensures 0 <= n < 256
  {
    b as int
  }

  predicate Has(b: bv8, mask: bv8) {
    b & mask != 0
  }

  datatype DeviceStripe = DeviceStripe(x: bv8, y: bv8, z: bv8, w: bv8) {
    predicate IsVsync() {
      x == 0 && y == 0 && z == 0 && w == 0
    }

    function Bytes(): seq<bv8> {
      [x, y, z, w]
    }

    function Bit(mask: bv8, weight: int): int {
      if Has(w, mask) then weight else 0
    }

    /** Coordinates with their high bits, cropped; a negative line number is left as it is. */
    function Translated(): Stripe {
      var line := Num(x) + Bit(0x20, 0x100) - VLINE_OFFSET;
      Stripe(if line >= CROPPED_NUM_VLINES then CROPPED_NUM_VLINES - 1 else line,
             CroppedPixel(Num(y) + Bit(0x10, 0x200) + Bit(0x80, 0x100)),
             CroppedPixel(Num(z) + Bit(0x08, 0x200) + Bit(0x40, 0x100)))
    }
  }

  function CroppedPixel(p: int): int {
    var q := if p < HPIX_OFFSET then 0 else p - HPIX_OFFSET;
    if q >= CROPPED_NUM_HPIX then CROPPED_NUM_HPIX - 1 else q
  }

  datatype Mode = AwaitingHeader | ProcessingMsg | ChompingMsg

  /** Cropping keeps columns inside the frame; a line number is negative exactly for lines above the cropped area. */
  lemma TranslatedInRange(d: DeviceStripe)
    ensures var s, line := d.Translated(), d.x as int + d.Bit(0x20, 0x100);
      && 0 <= s.hstart < CROPPED_NUM_HPIX && 0 <= s.hstop < CROPPED_NUM_HPIX && s.vline < CROPPED_NUM_VLINES
      && (s.vline < 0 <==> line < VLINE_OFFSET)
  {
  }

  /** Everything the parser remembers between two calls. */
  datatype State = State(
    mode: Mode, msglen: int, msgid: int, msgcnt: int, inbytes: seq<bv8>, pending: Frame, frames: seq<Frame>)

  const FRESH := State(AwaitingHeader, 0, -1, 0, [], [], [])

  function AddStripe(s: State, d: DeviceStripe): State {
    if d.IsVsync() then s.(frames := s.frames + [s.pending], pending := [])
    else s.(pending := s.pending + [d.Translated()])
  }

  predicate IsDataHeader(len: bv8, id: bv8) {
    len <= VALID_MAX_MSGLEN && len >= 2 && id == VALID_MSGID
  }

  /** One call of process_pending_bytes; None when it asks for more bytes. */
  function Step(s: State): (r: Option<State>)
    ensures r.Some? ==> Measure(r.value) < Measure(s)
  {
    var q := s.inbytes;
    match s.mode
    case AwaitingHeader =>
      if |q| <= VALID_MIN_MSGLEN then None
      else
        var t := s.(msglen := Num(q[0]), msgid := Num(q[1]));
        if q[0] == NOP_MSGLEN then Some(t.(inbytes := q[2..]))
        else if IsDataHeader(q[0], q[1]) then
          Some(t.(msgcnt := VALID_MIN_MSGLEN, inbytes := q[2..], mode := ProcessingMsg))
        else if q[0] == TBD0_MSGLEN && q[1] == TBD0_MSGID then
          Some(t.(msgcnt := VALID_MIN_MSGLEN, inbytes := q[2..], mode := ChompingMsg))
        else Some(t.(inbytes := q[1..]))
    case ProcessingMsg =>
      if |q| < DEVICE_STRIPE_LEN then None
      else if s.msgcnt >= s.msglen then Some(s.(mode := AwaitingHeader))
      else
        var t := AddStripe(s, DeviceStripe(q[0], q[1], q[2], q[3]));
        Some(t.(inbytes := q[4..], msgcnt := s.msgcnt + 4))
    case ChompingMsg =>
      if |q| == 0 then None
      else if s.msgcnt >= s.msglen then Some(s.(mode := AwaitingHeader))
      else Some(s.(inbytes := q[1..], msgcnt := s.msgcnt + 1))
  }

  /** Each step eats bytes or goes back to waiting for a header. */
  function Measure(s: State): nat {
    2 * |s.inbytes| + if s.mode == AwaitingHeader then 0 else 1
  }

  /** Steps until more bytes are needed. */
  function Settle(s: State): (r: State)
    ensures Step(r) == None
    decreases Measure(s)
  {
    match Step(s)
    case None => s
    case Some(t) => Settle(t)
  }

  function Feed(s: State, more: seq<bv8>): State {
    s.(inbytes := s.inbytes + more)
  }

  /** The state once the bytes were added and used as far as they go. */
  function Fed(s: State, more: seq<bv8>): State {
    Settle(Feed(s, more))
  }

  // ----- the class -----

  class Processor {
    var mode: Mode
    var msglen: int
    var msgid: int
    var msgcnt: int
    var inbyteq: seq<bv8>
    var pendingFrame: Frame
    var outframeq: seq<Frame>
    var updating: bool

    constructor ()
      ensures Value() == FRESH
    {
      mode, msglen, msgid, msgcnt := AwaitingHeader, 0, -1, 0;
      inbyteq, pendingFrame, outframeq, updating := [], [], [], false;
    }

    function Value(): State
      reads this
    {
      State(mode, msglen, msgid, msgcnt, inbyteq, pendingFrame, outframeq)
    }

    /** add_bytes; the loop ends because every pass that does not ask for bytes lowers the measure. */
    method AddBytes(bytes: seq<bv8>)
      modifies this
      ensures Value() == Fed(old(Value()), bytes)
    {
      inbyteq := inbyteq + bytes;
      updating := true;
      while updating
        invariant Settle(Value()) == Fed(old(Value()), bytes)
        invariant !updating ==> Step(Value()) == None
        decreases if updating then 1 + Measure(Value()) else 0
      {
        ProcessPendingBytes();
      }
    }

    method ProcessPendingBytes()
      requires updating
      modifies this
      ensures match Step(old(Value()))
              case None => !updating && Value() == old(Value())
              case Some(t) => updating && Value() == t
    {
      if mode == AwaitingHeader {
        if |inbyteq| > VALID_MIN_MSGLEN {
          var len, id := inbyteq[0], inbyteq[1];
          msglen, msgid := Num(len), Num(id);
          if len == NOP_MSGLEN {
            inbyteq := inbyteq[2..];
          } else if len <= VALID_MAX_MSGLEN && len >= 2 && id == VALID_MSGID {
            msgcnt := VALID_MIN_MSGLEN;
            inbyteq := inbyteq[2..];
            mode := ProcessingMsg;
          } else if len == TBD0_MSGLEN && id == TBD0_MSGID {
            msgcnt := VALID_MIN_MSGLEN;
            inbyteq := inbyteq[2..];
            mode := ChompingMsg;
          } else {
            inbyteq := inbyteq[1..];
          }
        } else {
          updating := false;
        }
      } else if mode == ProcessingMsg {
        if |inbyteq| < DEVICE_STRIPE_LEN {
          updating := false;
        } else if msgcnt >= msglen {
          mode := AwaitingHeader;
        } else {
          var ds := DeviceStripe(inbyteq[0], inbyteq[1], inbyteq[2], inbyteq[3]);
          inbyteq := inbyteq[4..];
          AddDeviceStripe(ds);
          msgcnt := msgcnt + 4;
        }
      } else {
        if |inbyteq| == 0 {
          updating := false;
        } else if msgcnt >= msglen {
          mode := AwaitingHeader;
        } else {
          inbyteq := inbyteq[1..];
          msgcnt := msgcnt + 1;
        }
      }
    }

    method AddDeviceStripe(ds: DeviceStripe)
      modifies `pendingFrame, `outframeq
      ensures Value() == AddStripe(old(Value()), ds)
    {
      if ds.IsVsync() {
        outframeq := outframeq + [pendingFrame];
        pendingFrame := [];
      } else {
        pendingFrame := pendingFrame + [ds.Translated()];
      }
    }
  }

  // ----- chunks do not matter -----

  lemma StripeEarlier(s: State, d: DeviceStripe, more: seq<bv8>, rest: seq<bv8>, cnt: int)
    ensures AddStripe(Feed(s, more), d).(inbytes := rest, msgcnt := cnt)
        == AddStripe(s, d).(inbytes := rest, msgcnt := cnt)
  {
  }

  lemma Tails(q: seq<bv8>, more: seq<bv8>, n: nat)
    requires n <= |q|
    ensures (q + more)[n..] == q[n..] + more && forall i :: 0 <= i < n ==> (q + more)[i] == q[i]
  {
  }

  /** Bytes that arrive later do not change what a step does with those it has. */
  lemma StepEarlier(s: State, more: seq<bv8>)
    requires Step(s).Some?
    ensures Step(Feed(s, more)) == Some(Feed(Step(s).value, more))
  {
    hide Num, IsDataHeader, AddStripe;
    var q := s.inbytes;
    match s.mode
    case AwaitingHeader =>
      Tails(q, more, 1);
      Tails(q, more, 2);
    case ProcessingMsg =>
      if s.msgcnt < s.msglen {
        Tails(q, more, 4);
        StripeEarlier(s, DeviceStripe(q[0], q[1], q[2], q[3]), more, q[4..] + more, s.msgcnt + 4);
      }
    case ChompingMsg =>
      Tails(q, more, 1);
  }

  lemma {:induction false} SettleEarlier(s: State, more: seq<bv8>)
    ensures Settle(Feed(Settle(s), more)) == Settle(Feed(s, more))
    decreases Measure(s)
  {
    hide Step;
    match Step(s)
    case None =>
    case Some(t) =>
      StepEarlier(s, more);
      SettleEarlier(t, more);
  }

  /** Feeding a then b leaves the same state, pending frame and frames as feeding a + b. */
  lemma ChunksDoNotMatter(s: State, a: seq<bv8>, b: seq<bv8>)
    ensures Fed(Fed(s, a), b) == Fed(s, a + b)
  {
    hide Settle, Step;
    SettleEarlier(Feed(s, a), b);
    assert Feed(Feed(s, a), b) == Feed(s, a + b) by {
      assert s.inbytes + a + b == s.inbytes + (a + b);
    }
    assert s.inbytes + a + b == s.inbytes + (a + b);
  }

  function AddAll(s: State, chunks: seq<seq<bv8>>): State
    decreases |chunks|
  {
    if chunks == [] then s else AddAll(Fed(s, chunks[0]), chunks[1..])
  }

  function Joined(chunks: seq<seq<bv8>>): seq<bv8> {
    if chunks == [] then [] else chunks[0] + Joined(chunks[1..])
  }

  lemma AnyChunking(s: State, chunks: seq<seq<bv8>>)
    requires Step(s) == None
    ensures AddAll(s, chunks) == Fed(s, Joined(chunks))
    decreases |chunks|
  {
    hide Step;
    if chunks == [] {
      assert Feed(s, []) == s;
    } else {
      AnyChunking(Fed(s, chunks[0]), chunks[1..]);
      ChunksDoNotMatter(s, chunks[0], Joined(chunks[1..]));
    }
  }

  // ----- messages come out as frames -----

  /** What a device sends: filler, up to fifteen stripes, or a five-byte notice. */
  datatype Message = Nop(filler: bv8) | Data(stripes: seq<DeviceStripe>) | Notice(body: seq<bv8>)

  predicate WellFormed(m: Message) {
    (m.Data? ==> |m.stripes| <= 15) && (m.Notice? ==> |m.body| == 5)
  }

  function StripeBytes(ds: seq<DeviceStripe>): (r: seq<bv8>)
    ensures |r| == 4 * |ds|
  {
    if ds == [] then [] else ds[0].Bytes() + StripeBytes(ds[1..])
  }

  /** The length byte counts the header. */
  function LengthOf(stripes: nat): bv8
    requires stripes <= 15
  {
    (2 + 4 * stripes) as bv8
  }

  function Encoded(m: Message): seq<bv8>
    requires WellFormed(m)
  {
    match m
    case Nop(f) => [0xEF, f]
    case Data(ds) => [LengthOf(|ds|), 0x1C] + StripeBytes(ds)
    case Notice(body) => [0x07, 0x20] + body
  }

  predicate AllWellFormed(ms: seq<Message>) {
    forall i :: 0 <= i < |ms| ==> WellFormed(ms[i])
  }

  function Stream(ms: seq<Message>): seq<bv8>
    requires AllWellFormed(ms)
  {
    if ms == [] then [] else Encoded(ms[0]) + Stream(ms[1..])
  }

  function StripesOf(ms: seq<Message>): seq<DeviceStripe> {
    if ms == [] then [] else (if ms[0].Data? then ms[0].stripes else []) + StripesOf(ms[1..])
  }

  /** Stripes gathered into frames. */
  datatype Output = Output(pending: Frame, frames: seq<Frame>)

  function Gather(o: Output, ds: seq<DeviceStripe>): Output
    decreases |ds|
  {
    if ds == [] then o
    else if ds[0].IsVsync() then Gather(Output([], o.frames + [o.pending]), ds[1..])
    else Gather(Output(o.pending + [ds[0].Translated()], o.frames), ds[1..])
  }

  function OutputOf(s: State): Output {
    Output(s.pending, s.frames)
  }

  lemma {:induction false} GatherMore(o: Output, a: seq<DeviceStripe>, b: seq<DeviceStripe>)
    ensures Gather(o, a + b) == Gather(Gather(o, a), b)
    decreases |a|
  {
    if a == [] {
      assert a + b == b;
    } else {
      assert (a + b)[1..] == a[1..] + b;
      var next :=
        if a[0].IsVsync() then Output([], o.frames + [o.pending])
        else Output(o.pending + [a[0].Translated()], o.frames);
      GatherMore(next, a[1..], b);
    }
  }

  /** Between two messages: the last one has been read to its end. */
  predicate AtBoundary(s: State) {
    s.mode == AwaitingHeader || s.msgcnt >= s.msglen
  }

  lemma SettleStep(s: State, t: State)
    requires Step(s) == Some(t)
    ensures Settle(s) == Settle(t)
  {
  }

  /** The stripes of a message are taken one by one. */
  lemma {:induction false} StripesTaken(s: State, ds: seq<DeviceStripe>, rest: seq<bv8>) returns (t: State)
    requires s.mode == ProcessingMsg && s.msgcnt + 4 * |ds| == s.msglen && s.inbytes == StripeBytes(ds) + rest
    ensures Settle(s) == Settle(t) && AtBoundary(t) && t.inbytes == rest
    ensures OutputOf(t) == Gather(OutputOf(s), ds)
    decreases |ds|
  {
    if ds == [] {
      assert s.inbytes == rest;
      t := s;
    } else {
      var q := s.inbytes;
      assert q == ds[0].Bytes() + (StripeBytes(ds[1..]) + rest);
      assert q[4..] == StripeBytes(ds[1..]) + rest;
      var d := DeviceStripe(q[0], q[1], q[2], q[3]);
      assert d == ds[0];
      var u := AddStripe(s, d).(inbytes := q[4..], msgcnt := s.msgcnt + 4);
      SettleStep(s, u);
      t := StripesTaken(u, ds[1..], rest);
    }
  }

  lemma {:induction false} BodyChomped(s: State, body: seq<bv8>, rest: seq<bv8>) returns (t: State)
    requires s.mode == ChompingMsg && s.msgcnt + |body| == s.msglen && s.inbytes == body + rest
    ensures Settle(s) == Settle(t) && AtBoundary(t) && t.inbytes == rest && OutputOf(t) == OutputOf(s)
    decreases |body|
  {
    if body == [] {
      assert s.inbytes == rest;
      t := s;
    } else {
      assert s.inbytes[1..] == body[1..] + rest;
      var u := s.(inbytes := s.inbytes[1..], msgcnt := s.msgcnt + 1);
      SettleStep(s, u);
      t := BodyChomped(u, body[1..], rest);
    }
  }

  lemma LengthByte(n: nat)
    requires n <= 15
    ensures IsDataHeader(LengthOf(n), VALID_MSGID) && LengthOf(n) != NOP_MSGLEN && Num(LengthOf(n)) == 2 + 4 * n
  {
  }

  /** The state after a two-byte header was eaten. */
  function PastHeader(s: State): State
    requires |s.inbytes| > 2
  {
    s.(msglen := Num(s.inbytes[0]), msgid := Num(s.inbytes[1]), inbytes := s.inbytes[2..])
  }

  lemma DataHeaderTaken(s: State, ds: seq<DeviceStripe>, rest: seq<bv8>) returns (u: State)
    requires s.mode == AwaitingHeader && |ds| <= 15 && s.inbytes == Encoded(Data(ds)) + rest && |s.inbytes| > 2
    ensures Settle(s) == Settle(u) && OutputOf(u) == OutputOf(s)
    ensures u.mode == ProcessingMsg && u.msgcnt == 2 && u.msglen == 2 + 4 * |ds| && u.inbytes == StripeBytes(ds) + rest
  {
    hide Settle, LengthOf, IsDataHeader, Num;
    LengthByte(|ds|);
    u := PastHeader(s).(msgcnt := 2, mode := ProcessingMsg);
    assert u.inbytes == StripeBytes(ds) + rest;
    SettleStep(s, u);
  }

  lemma DataTaken(s: State, ds: seq<DeviceStripe>, rest: seq<bv8>) returns (t: State)
    requires s.mode == AwaitingHeader && |ds| <= 15 && s.inbytes == Encoded(Data(ds)) + rest && |s.inbytes| > 2
    ensures Settle(s) == Settle(t) && AtBoundary(t) && t.inbytes == rest && OutputOf(t) == Gather(OutputOf(s), ds)
  {
    hide Settle, Gather, AtBoundary, Encoded;
    var u := DataHeaderTaken(s, ds, rest);
    t := StripesTaken(u, ds, rest);
  }

  lemma NoticeTaken(s: State, body: seq<bv8>, rest: seq<bv8>) returns (t: State)
    requires s.mode == AwaitingHeader && |body| == 5 && s.inbytes == Encoded(Notice(body)) + rest
    ensures Settle(s) == Settle(t) && AtBoundary(t) && t.inbytes == rest && OutputOf(t) == OutputOf(s)
  {
    hide Settle, AtBoundary;
    var u := PastHeader(s).(msgcnt := 2, mode := ChompingMsg);
    assert u.inbytes == body + rest;
    assert s.inbytes[0] == TBD0_MSGLEN && s.inbytes[1] == TBD0_MSGID;
    SettleStep(s, u);
    t := BodyChomped(u, body, rest);
  }

  lemma NopTaken(s: State, f: bv8, rest: seq<bv8>) returns (t: State)
    requires s.mode == AwaitingHeader && s.inbytes == Encoded(Nop(f)) + rest && |s.inbytes| > 2
    ensures Settle(s) == Settle(t) && AtBoundary(t) && t.inbytes == rest && OutputOf(t) == OutputOf(s)
  {
    hide Settle;
    t := PastHeader(s);
    assert t.inbytes == rest;
    SettleStep(s, t);
  }

  /** A message in front of at least three bytes is read from its header to its end. */
  lemma MessageTaken(s: State, m: Message, rest: seq<bv8>) returns (t: State)
    requires s.mode == AwaitingHeader && WellFormed(m) && s.inbytes == Encoded(m) + rest && |s.inbytes| > 2
    ensures Settle(s) == Settle(t) && AtBoundary(t) && t.inbytes == rest
    ensures OutputOf(t) == Gather(OutputOf(s), if m.Data? then m.stripes else [])
  {
    hide Settle, AtBoundary, Encoded;
    match m
    case Nop(f) => t := NopTaken(s, f, rest);
    case Data(ds) => t := DataTaken(s, ds, rest);
    case Notice(body) => t := NoticeTaken(s, body, rest);
  }

  lemma {:induction false} ShortStream(ms: seq<Message>)
    requires AllWellFormed(ms) && |Stream(ms)| < 4
    ensures StripesOf(ms) == []
  {
    if ms != [] {
      assert |Encoded(ms[0])| >= 2;
      ShortStream(ms[1..]);
    }
  }

  /** At a boundary the rest of a stream is delivered completely. */
  lemma {:induction false} StreamDelivered(s: State, ms: seq<Message>)
    requires AtBoundary(s) && AllWellFormed(ms) && s.inbytes == Stream(ms)
    ensures OutputOf(Settle(s)) == Gather(OutputOf(s), StripesOf(ms))
    decreases |ms|, if s.mode == AwaitingHeader then 0 else 1
  {
    hide Stream, Encoded;
    if Step(s) == None {
      ShortStream(ms);
    } else if s.mode != AwaitingHeader {
      var t := s.(mode := AwaitingHeader);
      SettleStep(s, t);
      StreamDelivered(t, ms);
    } else {
      StreamParts(ms);
      var t := MessageTaken(s, ms[0], Stream(ms[1..]));
      StreamDelivered(t, ms[1..]);
      GatherMore(OutputOf(s), if ms[0].Data? then ms[0].stripes else [], StripesOf(ms[1..]));
    }
  }

  lemma StreamParts(ms: seq<Message>)
    requires AllWellFormed(ms)
    ensures ms == [] ==> Stream(ms) == []
    ensures ms != [] ==> Stream(ms) == Encoded(ms[0]) + Stream(ms[1..])
  {
  }

  // ----- what the camera saw -----

  /** What a device stripe is about: the end of a frame, or a run in the coordinates of the sensor. */
  datatype Seen = Vsync | Run(line: nat, start: nat, stop: nat)

  /** Four zero bytes end a frame.  A run has nine bits of the line and ten of either column: the low eight in a byte
      each, the others in the fourth byte. */
  predicate Packs(d: DeviceStripe, e: Seen) {
    match e
    case Vsync => d == DeviceStripe(0, 0, 0, 0)
    case Run(line, start, stop) =>
      && d != DeviceStripe(0, 0, 0, 0) && line < 512 && start < 1024 && stop < 1024
      && d.x as int == line % 256 && d.y as int == start % 256 && d.z as int == stop % 256
      && (d.w & 0x20 != 0 <==> line >= 256)
      && (d.w & 0x10 != 0 <==> start >= 512) && (d.w & 0x80 != 0 <==> start % 512 >= 256)
      && (d.w & 0x08 != 0 <==> stop >= 512) && (d.w & 0x40 != 0 <==> stop % 512 >= 256)
  }

  /** The run in the coordinates of the cropped frame: cut at the last line and at both columns. */
  predicate Cropped(s: Stripe, line: nat, start: nat, stop: nat) {
    && s.vline == (if line <= 299 then line - 12 else 287)
    && s.hstart == (if start <= 80 then 0 else if start <= 789 then start - 80 else 709)
    && s.hstop == (if stop <= 80 then 0 else if stop <= 789 then stop - 80 else 709)
  }

  lemma Parts(d: DeviceStripe, e: Seen)
    requires e.Run?
    ensures Packs(d, e) <==>
      && d != DeviceStripe(0, 0, 0, 0) && HasLine(e.line, Num(d.x), Has(d.w, 0x20))
      && HasColumn(e.start, Num(d.y), Has(d.w, 0x10), Has(d.w, 0x80))
      && HasColumn(e.stop, Num(d.z), Has(d.w, 0x08), Has(d.w, 0x40))
  {
  }

  predicate HasLine(n: nat, low: int, high: bool) {
    n < 512 && low == n % 256 && (high <==> n >= 256)
  }

  predicate HasColumn(n: nat, low: int, high: bool, middle: bool) {
    n < 1024 && low == n % 256 && (high <==> n >= 512) && (middle <==> n % 512 >= 256)
  }

  lemma LineBack(n: nat, low: int, high: bool)
    requires 0 <= low < 256
    ensures HasLine(n, low, high) <==> n == low + if high then 256 else 0
  {
  }

  lemma ColumnBack(n: nat, low: int, high: bool, middle: bool)
    requires 0 <= low < 256
    ensures HasColumn(n, low, high, middle) <==> n == low + (if high then 512 else 0) + if middle then 256 else 0
  {
  }

  function Meaning(d: DeviceStripe): Seen {
    if d == DeviceStripe(0, 0, 0, 0) then Vsync
    else
      Run(Num(d.x) + d.Bit(0x20, 256), Num(d.y) + d.Bit(0x10, 512) + d.Bit(0x80, 256),
          Num(d.z) + d.Bit(0x08, 512) + d.Bit(0x40, 256))
  }

  /** Every four bytes mean exactly one thing. */
  lemma EveryStripeMeans(d: DeviceStripe, e: Seen)
    ensures Packs(d, e) <==> e == Meaning(d)
  {
    if e.Run? {
      Parts(d, e);
      hide Packs, Num, Has, HasLine, HasColumn;
      LineBack(e.line, Num(d.x), Has(d.w, 0x20));
      ColumnBack(e.start, Num(d.y), Has(d.w, 0x10), Has(d.w, 0x80));
      ColumnBack(e.stop, Num(d.z), Has(d.w, 0x08), Has(d.w, 0x40));
    }
  }

  lemma MeaningCropped(d: DeviceStripe)
    requires Meaning(d).Run?
    ensures Cropped(d.Translated(), Meaning(d).line, Meaning(d).start, Meaning(d).stop)
  {
    hide Num, Has;
  }

  /** Decoding undoes the packing, and nothing else but the cuts happens to the coordinates. */
  lemma Unpacked(d: DeviceStripe, e: Seen)
    requires Packs(d, e)
    ensures d.IsVsync() <==> e.Vsync?
    ensures e.Run? ==> Cropped(d.Translated(), e.line, e.start, e.stop)
  {
    hide Packs, Cropped;
    EveryStripeMeans(d, e);
    if e.Run? {
      MeaningCropped(d);
    }
  }

  predicate AllPack(ds: seq<DeviceStripe>, seen: seq<Seen>) {
    |ds| == |seen| && forall i :: 0 <= i < |ds| ==> Packs(ds[i], seen[i])
  }

  /** The runs cut into frames at the vsyncs; what comes after the last vsync is pending. */
  predicate Shows(o: Output, seen: seq<Seen>)
    decreases |seen|
  {
    if seen == [] then o == Output([], [])
    else
      var n := |seen| - 1;
      match seen[n]
      case Vsync =>
        var m := |o.frames| - 1;
        o.pending == [] && m >= 0 && Shows(Output(o.frames[m], o.frames[..m]), seen[..n])
      case Run(line, start, stop) =>
        var m := |o.pending| - 1;
        m >= 0 && Cropped(o.pending[m], line, start, stop) && Shows(Output(o.pending[..m], o.frames), seen[..n])
  }

  lemma {:induction false} GatherShows(ds: seq<DeviceStripe>, seen: seq<Seen>)
    requires AllPack(ds, seen)
    ensures Shows(Gather(Output([], []), ds), seen)
    decreases |ds|
  {
    if ds != [] {
      hide Packs, Cropped;
      var n := |ds| - 1;
      GatherShows(ds[..n], seen[..n]);
      assert ds[..n] + [ds[n]] == ds;
      GatherMore(Output([], []), ds[..n], [ds[n]]);
      Unpacked(ds[n], seen[n]);
      var o := Gather(Output([], []), ds[..n]);
      GatherLast(o, ds[n]);
      if !ds[n].IsVsync() {
        assert (o.pending + [ds[n].Translated()])[..|o.pending|] == o.pending;
      } else {
        assert (o.frames + [o.pending])[..|o.frames|] == o.frames;
      }
    }
  }

  lemma GatherLast(o: Output, d: DeviceStripe)
    ensures Gather(o, [d])
         == if d.IsVsync() then Output([], o.frames + [o.pending]) else Output(o.pending + [d.Translated()], o.frames)
  {
    assert [d][1..] == [];
  }

  /** However a stream of messages is cut into chunks, the runs that the camera saw arrive, in order, in the
      coordinates of the cropped frame, cut into frames at the vsyncs. */
  lemma FramesDelivered(ms: seq<Message>, chunks: seq<seq<bv8>>, seen: seq<Seen>)
    requires AllWellFormed(ms) && Joined(chunks) == Stream(ms) && AllPack(StripesOf(ms), seen)
    ensures Shows(OutputOf(AddAll(FRESH, chunks)), seen)
  {
    AnyChunking(FRESH, chunks);
    assert [] + Stream(ms) == Stream(ms);
    StreamDelivered(Feed(FRESH, Stream(ms)), ms);
    GatherShows(StripesOf(ms), seen);
  }
}
