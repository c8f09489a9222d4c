/** Two endpoints over any sequence of sockets (packages/rpc/src/persistent-protocol.ts).

    A connection is a pair of byte pipes.  At any time a side may move to a connection it has not used
    before, whether or not the other side is there yet; of every pipe the reader receives an arbitrary
    prefix, in pieces cut at arbitrary bytes.  Listeners may act between any two frames, and in the middle of one:
    when its acknowledgement has drained the queue but the message itself has not been handed over yet. */
module Networks {
  import opened Buffers
  import opened Options
  import opened Frames
  import opened Endpoints

  /** One direction of a connection.  `frames` is everything written, of which the reader has got
      `arrived` bytes and consumed `seen` frames.  `base` is the first id the writer sends here. */
  datatype Pipe = Pipe(joined: bool, base: nat, frames: seq<Frame>, arrived: nat, seen: nat)

  const UNUSED := Pipe(false, 0, [], 0, 0)

  /** A frame taken off the stream, whose acknowledgement has been processed and nothing else; with its true id, not
      truncated to the wire's 32 bits. */
  datatype InHand = InHand(frame: Frame, id: nat)

  /** One side: its endpoint, everything passed to `send`, its connection, the true ids of the messages it has
      fired, and the frame it is in the middle of. */
  datatype Side = Side(ep: Endpoint, sent: seq<bytes>, conn: nat, fired: seq<nat>, hand: Option<InHand>)

  datatype Net = Net(a: Side, b: Side, ab: seq<Pipe>, ba: seq<Pipe>)

  datatype Op =
    | Sending(data: bytes, now: int)
    | Replacing(conn: nat)
    | Arriving(count: nat)
    | Acknowledging
    | Delivering(now: int)
    | KeepingAlive
    | Checking(now: int)

  datatype Act = Act(byA: bool, op: Op)

  ghost predicate Shape(n: Net) {
    |n.ab| == |n.ba| && n.a.conn < |n.ab| && n.b.conn < |n.ab|
  }

  function Swap(n: Net): Net {
    Net(n.b, n.a, n.ba, n.ab)
  }

  ghost predicate Enabled(n: Net, op: Op)
    requires Shape(n)
  {
    match op
    case Sending(data, _) => |data| < TWO_TO_32
    case Replacing(c) => c <= |n.ab| && (c < |n.ab| ==> !n.ab[c].joined)
    case Arriving(count) =>
      n.ba[n.a.conn].arrived + count <= |EncodeAll(n.ba[n.a.conn].frames)|
    case Acknowledging => n.a.hand == None && TakeFrame(n.a.ep.held).Some?
    case Delivering(_) => n.a.hand.Some?
    case _ => true
  }

  function Append(out: seq<Pipe>, conn: nat, frames: seq<Frame>): seq<Pipe>
    requires conn < |out|
  {
    out[conn := out[conn].(frames := out[conn].frames + frames)]
  }

  /** Side a has performed an operation that writes to its present socket. */
  function Writing(n: Net, out: Out): Net
    requires n.a.conn < |n.ab|
  {
    n.(a := n.a.(ep := out.ep), ab := Append(n.ab, n.a.conn, out.frames))
  }

  function Grow(pipes: seq<Pipe>, conn: nat): seq<Pipe> {
    if conn == |pipes| then pipes + [UNUSED] else pipes
  }

  function Rebinding(n: Net, c: nat): Net
    requires c <= |n.ab| == |n.ba|
  {
    var out := ReplaceSocket(n.a.ep);
    var ab := Grow(n.ab, c);
    var base := if |n.a.ep.unack| <= n.a.ep.lastId then n.a.ep.lastId - |n.a.ep.unack| + 1 else 0;
    n.(a := n.a.(ep := out.ep, conn := c),
       ab := ab[c := ab[c].(joined := true, base := base, frames := out.frames)],
       ba := Grow(n.ba, c))
  }

  ghost function Receiving(n: Net, count: nat): Net
    requires n.a.conn < |n.ba|
    requires n.ba[n.a.conn].arrived + count <= |EncodeAll(n.ba[n.a.conn].frames)|
  {
    var p := n.ba[n.a.conn];
    var data := EncodeAll(p.frames)[p.arrived..p.arrived + count];
    n.(a := n.a.(ep := Arrive(n.a.ep, data)), ba := n.ba[n.a.conn := p.(arrived := p.arrived + count)])
  }

  /** Side a takes this frame off the stream and processes its acknowledgement. */
  function Taking(c: Config, n: Net, f: Frame, rest: bytes): Net
    requires n.a.conn < |n.ba|
  {
    var p := n.ba[n.a.conn];
    var id := if p.seen < |p.frames| then p.frames[p.seen].id else 0;
    n.(a := n.a.(ep := ProcessAck(c, n.a.ep.(held := rest), f.ack), hand := Some(InHand(f, id))),
       ba := n.ba[n.a.conn := p.(seen := p.seen + 1)])
  }

  /** The first half of a turn of a's read loop. */
  function Acknowledged(c: Config, n: Net): Net
    requires n.a.conn < |n.ba|
  {
    match TakeFrame(n.a.ep.held)
    case None => n
    case Some((f, rest)) => Taking(c, n, f, rest)
  }

  /** The second half: the frame in hand goes to a's listeners. */
  function HandedOver(n: Net, now: int): Net {
    match n.a.hand
    case None => n
    case Some(InHand(f, id)) =>
      n.(a := n.a.(ep := Deliver(n.a.ep, f, now), hand := None,
                   fired := n.a.fired + if f.typ == REGULAR then [id] else []))
  }

  /** What side a does; an operation that is not enabled changes nothing. */
  ghost function StepOfA(c: Config, n: Net, op: Op): (r: Net)
    requires Shape(n)
    ensures Shape(r)
  {
    if !Enabled(n, op) then n
    else match op
      case Sending(data, now) =>
        Writing(n.(a := n.a.(sent := n.a.sent + [data])), Send(c, n.a.ep, data, now))
      case Replacing(conn) => Rebinding(n, conn)
      case Arriving(count) => Receiving(n, count)
      case Acknowledging => Acknowledged(c, n)
      case Delivering(now) => HandedOver(n, now)
      case KeepingAlive => Writing(n, KeepAlive(n.a.ep))
      case Checking(now) => Writing(n, AckCheck(c, n.a.ep, now))
  }

  ghost function Step(ca: Config, cb: Config, n: Net, act: Act): (r: Net)
    requires Shape(n)
    ensures Shape(r)
  {
    if act.byA then StepOfA(ca, n, act.op) else Swap(StepOfA(cb, Swap(n), act.op))
  }

  function Start(now: int): Net {
    var side := Side(Fresh(now), [], 0, [], None);
    Net(side, side, [Pipe(true, 1, [], 0, 0)], [Pipe(true, 1, [], 0, 0)])
  }

  ghost function Run(ca: Config, cb: Config, acts: seq<Act>, now: int): (r: Net)
    ensures Shape(r)
  {
    if acts == [] then Start(now)
    else Step(ca, cb, Run(ca, cb, acts[..|acts| - 1], now), acts[|acts| - 1])
  }

  // ---------- the invariant of one direction ----------

  function Max(x: nat, y: nat): nat {
    if x < y then y else x
  }

  /** The highest id fired so far. */
  function Top(fired: seq<nat>): nat {
    if fired == [] then 0 else Max(Top(fired[..|fired| - 1]), fired[|fired| - 1])
  }

  function Regulars(fs: seq<Frame>): nat {
    if fs == [] then 0 else Regulars(fs[..|fs| - 1]) + if fs[|fs| - 1].typ == REGULAR then 1 else 0
  }

  function Bodies(events: seq<Event>): seq<bytes> {
    if events == [] then []
    else Bodies(events[..|events| - 1]) + match events[|events| - 1] case Message(body) => [body] case _ => []
  }

  ghost predicate Carries(f: Frame, sent: seq<bytes>, id: int) {
    1 <= id <= |sent| && f.id == id && f.data == sent[id - 1]
  }

  /** Frame m of a pipe: Regular frames carry the ids from `base` on, one after the other. */
  ghost predicate Labelled(fs: seq<Frame>, base: nat, sent: seq<bytes>, m: nat)
    requires m < |fs|
  {
    Sendable(fs[m]) && (fs[m].typ == REGULAR ==> Carries(fs[m], sent, base + Regulars(fs[..m])))
  }

  ghost predicate PipeOk(p: Pipe, sent: seq<bytes>, top: nat) {
    && p.seen <= |p.frames|
    && (!p.joined ==> p.frames == [] && p.arrived == 0)
    && (p.joined ==> p.base + Regulars(p.frames[..p.seen]) <= top + 1)
    && (forall m :: 0 <= m < |p.frames| ==> Labelled(p.frames, p.base, sent, m))
  }

  /** The sender's queue: what is not in it has been delivered. */
  ghost predicate QueueOk(s: Side, top: nat) {
    && |s.sent| == s.ep.lastId
    && (forall i :: 0 <= i < |s.sent| ==> |s.sent[i]| < TWO_TO_32)
    && |s.ep.unack| <= s.ep.lastId
    && s.ep.lastId - |s.ep.unack| <= top <= s.ep.lastId
    && (forall j :: 0 <= j < |s.ep.unack| ==>
          s.ep.unack[j].msg.typ == REGULAR
          && Carries(s.ep.unack[j].msg, s.sent, s.ep.lastId - |s.ep.unack| + 1 + j))
  }

  ghost predicate CurrentOk(s: Side, out: seq<Pipe>) {
    s.conn < |out| && out[s.conn].joined
    && out[s.conn].base + Regulars(out[s.conn].frames) == s.ep.lastId + 1
  }

  /** No acknowledgement number held or written by the receiver exceeds what it has delivered. */
  ghost predicate AcksOk(r: Side, back: seq<Pipe>, top: nat) {
    && r.ep.ackIn <= top
    && (forall j :: 0 <= j < |r.ep.unack| ==> r.ep.unack[j].msg.ack <= top)
    && (forall c, m :: 0 <= c < |back| && 0 <= m < |back[c].frames| ==> back[c].frames[m].ack <= top)
  }

  ghost predicate FiredOk(r: Side, sent: seq<bytes>) {
    && |Bodies(r.ep.events)| == |r.fired|
    && (forall j :: 0 <= j < |r.fired| ==>
          1 <= r.fired[j] <= |sent| && Bodies(r.ep.events)[j] == sent[r.fired[j] - 1])
    && Steady(r.fired)
  }

  /** The id of the next Regular frame on this pipe that has not been read yet. */
  function Next(p: Pipe): nat {
    p.base + if p.seen <= |p.frames| then Regulars(p.frames[..p.seen]) else 0
  }

  /** Everything fired, and the message in hand. */
  function Log(r: Side): seq<nat> {
    match r.hand
    case Some(InHand(f, id)) => if f.typ == REGULAR then r.fired + [id] else r.fired
    case None => r.fired
  }

  /** The highest id fired or about to be. */
  function Reach(r: Side): nat {
    match r.hand
    case Some(InHand(f, id)) => if f.typ == REGULAR then Max(Top(r.fired), id) else Top(r.fired)
    case None => Top(r.fired)
  }

  /** A message in hand is the next one or a repetition, with its own payload. */
  ghost predicate HandOk(r: Side, sent: seq<bytes>) {
    match r.hand
    case Some(InHand(f, id)) =>
      f.typ == REGULAR ==> 1 <= id <= Top(r.fired) + 1 && id <= |sent| && f.id <= id && f.data == sent[id - 1]
    case None => true
  }

  /** Entry j is at most one above everything before it. */
  ghost predicate StepAt(fired: seq<nat>, j: nat)
    requires j < |fired|
  {
    1 <= fired[j] <= Top(fired[..j]) + 1
  }

  ghost predicate Steady(fired: seq<nat>) {
    forall j :: 0 <= j < |fired| ==> StepAt(fired, j)
  }

  /** The receiver holds exactly the bytes that have arrived and are not consumed. */
  ghost predicate HeldOk(out: seq<Pipe>, r: Side)
  {
    r.conn < |out| &&
    var p := out[r.conn];
    && p.seen <= |p.frames|
    && |EncodeAll(p.frames[..p.seen])| <= p.arrived <= |EncodeAll(p.frames)|
    && r.ep.held == EncodeAll(p.frames)[|EncodeAll(p.frames[..p.seen])|..p.arrived]
  }

  /** Nothing has been read from a connection the receiver never joined. */
  ghost predicate UnheardOk(out: seq<Pipe>, back: seq<Pipe>) {
    && |out| == |back|
    && forall c :: 0 <= c < |out| && !back[c].joined ==> out[c].arrived == 0 && out[c].seen == 0
  }

  ghost predicate PipesOk(out: seq<Pipe>, sent: seq<bytes>, top: nat) {
    forall c :: 0 <= c < |out| ==> PipeOk(out[c], sent, top)
  }

  /** Everything that holds of the direction from s to r. */
  ghost predicate DirOk(s: Side, out: seq<Pipe>, r: Side, back: seq<Pipe>) {
    var top := Top(r.fired);
    && QueueOk(s, top)
    && PipesOk(out, s.sent, Reach(r))
    && CurrentOk(s, out)
    && AcksOk(r, back, top)
    && FiredOk(r, s.sent) && HandOk(r, s.sent)
    && HeldOk(out, r)
    && UnheardOk(out, back)
  }

  ghost predicate NetOk(n: Net) {
    DirOk(n.a, n.ab, n.b, n.ba) && DirOk(n.b, n.ba, n.a, n.ab)
  }
}
