/** A remote file read through one transfer's pipe and through range requests
    (client/pelican_fs.go). */
module PelicanFiles {
  import opened Collections

  /** A server's answer to a range request: none that can be used, or a body, broken off
      by an error or not. */
  datatype RangeReply = Refused | Sent(bytes: seq<byte>, broken: bool)

  datatype Server = Server(url: string, answer: (nat, nat) -> RangeReply)

  /** How an operation ended. `Hung` never returns: a mutex is locked twice, or a pipe
      waits for a writer that is gone, with the file's mutex held. */
  datatype Outcome = Done | EndOfFile | Failed | Hung

  /** The pipe of a transfer: all it will ever carry, and how much was taken from it. Its
      writer is closed in one way only, which a reader sees as the end of the file. */
  datatype Pipe = Pipe(source: seq<byte>, taken: nat)

  /** What starting the transfer comes to: it cannot be submitted; a download runs, writes
      some bytes and closes the pipe, whether it succeeded or not; or no download ever
      runs, because the lookup failed or the file was shed, and nobody closes the pipe. */
  datatype Start = CannotSubmit | Submitted(source: seq<byte>) | NeverClosed

  datatype Config = Config(servers: seq<Server>, size: Option<nat>, isCollection: bool, readMode: bool)

  datatype FileState = FileState(position: nat, transferOffset: nat, started: bool, pipe: Option<Pipe>, current: int,
                                 hung: bool)

  const OPENED: FileState := FileState(0, 0, false, None, 0, false)

  datatype Whence = SeekStart | SeekCurrent | SeekEnd

  datatype Result = Result(bytes: seq<byte>, value: int, outcome: Outcome)

  function Least(a: nat, b: nat): nat {
    if a <= b then a else b
  }

  // ----- Range requests -----

  /** The sticky server first, in exchange for the one that was. */
  function TryOrder(servers: seq<Server>, current: int): seq<Server> {
    if 0 < current < |servers| then servers[0 := servers[current]][current := servers[0]] else servers
  }

  /** A reply that fills the request, or that ends early in order. */
  predicate Useful(r: RangeReply, length: nat) {
    r.Sent? && (|r.bytes| >= length || !r.broken)
  }

  /** The first server from `k` on with a useful answer. */
  function FirstUseful(order: seq<Server>, offset: nat, length: nat, k: nat): (i: nat)
    requires k <= |order|
    ensures k <= i <= |order|
    ensures forall j :: k <= j < i ==> !Useful(order[j].answer(offset, length), length)
    ensures i < |order| ==> Useful(order[i].answer(offset, length), length)
    decreases |order| - k
  {
    if k == |order| || Useful(order[k].answer(offset, length), length) then k
    else FirstUseful(order, offset, length, k + 1)
  }

  function IndexOfUrl(servers: seq<Server>, url: string): (i: nat)
    ensures i <= |servers|
    ensures forall j :: 0 <= j < i ==> servers[j].url != url
    ensures i < |servers| ==> servers[i].url == url
  {
    if servers == [] || servers[0].url == url then 0 else 1 + IndexOfUrl(servers[1..], url)
  }

  function RangeLength(c: Config, offset: nat, length: nat): nat {
    if c.size.Some? && offset + length > c.size.value && offset <= c.size.value then c.size.value - offset else length
  }

  /** The bytes a range read brings, if any server helps, and the server to stay with. */
  function RangeBytes(c: Config, current: int, offset: nat, length: nat): Option<seq<byte>> {
    var order := TryOrder(c.servers, current);
    var len := RangeLength(c, offset, length);
    var i := FirstUseful(order, offset, len, 0);
    if i == |order| then None
    else
      var bytes := order[i].answer(offset, len).bytes;
      Some(bytes[..Least(|bytes|, len)])
  }

  function NextCurrent(c: Config, current: int, offset: nat, length: nat): int {
    var order := TryOrder(c.servers, current);
    var i := FirstUseful(order, offset, RangeLength(c, offset, length), 0);
    if i == 0 || i == |order| then current
    else
      var found := IndexOfUrl(c.servers, order[i].url);
      if found < |c.servers| then found else current
  }

  // ----- The operations on values -----

  predicate BeyondEnd(c: Config, offset: nat) {
    c.size.Some? && offset >= c.size.value
  }

  /** One read of the pipe: of what is left, at most a buffer, at most a chunk. */
  function PipeCount(pipe: Pipe, length: nat, chunk: nat): nat {
    if pipe.taken >= |pipe.source| then 0 else Least(length, Least(chunk, |pipe.source| - pipe.taken))
  }

  function PipeBytes(pipe: Pipe, length: nat, chunk: nat): seq<byte> {
    if pipe.taken >= |pipe.source| then [] else pipe.source[pipe.taken..pipe.taken + PipeCount(pipe, length, chunk)]
  }

  function PipeOutcome(pipe: Pipe): Outcome {
    if pipe.taken >= |pipe.source| then EndOfFile else Done
  }

  function ReadPipe(s: FileState, pipe: Pipe, length: nat, chunk: nat): FileState {
    var n := PipeCount(pipe, length, chunk);
    s.(position := s.position + n, transferOffset := s.transferOffset + n, pipe := Some(pipe.(taken := pipe.taken + n)))
  }

  function StartRead(s: FileState, length: nat, start: Start, chunk: nat): (FileState, Result) {
    var begun := s.(started := true, transferOffset := 0);
    match start
    case CannotSubmit => (begun.(pipe := Some(Pipe([], 0))), Result([], 0, Failed))
    case NeverClosed => (begun.(pipe := Some(Pipe([], 0)), hung := true), Result([], 0, Hung))
    case Submitted(source) =>
      var pipe := Pipe(source, 0);
      if PipeOutcome(pipe) == EndOfFile then (begun.(pipe := Some(pipe), hung := true), Result([], 0, Hung))
      else (ReadPipe(begun, pipe, length, chunk), Result(PipeBytes(pipe, length, chunk), 0, PipeOutcome(pipe)))
  }

  function RangeRead(c: Config, s: FileState, length: nat): (FileState, Result) {
    if BeyondEnd(c, s.position) then (s, Result([], 0, EndOfFile))
    else
      match RangeBytes(c, s.current, s.position, length)
      case None => (s, Result([], 0, Failed))
      case Some(bytes) =>
        (s.(position := s.position + |bytes|, current := NextCurrent(c, s.current, s.position, length)),
         Result(bytes, 0, Done))
  }

  function ReadOf(c: Config, s: FileState, length: nat, start: Start, chunk: nat): (FileState, Result) {
    if s.hung then (s, Result([], 0, Hung))
    else if !c.readMode || c.isCollection then (s, Result([], 0, Failed))
    else if !s.started && s.position == 0 then StartRead(s, length, start, chunk)
    else if s.pipe.Some? && s.position == s.transferOffset then
      (ReadPipe(s, s.pipe.value, length, chunk),
       Result(PipeBytes(s.pipe.value, length, chunk), 0, PipeOutcome(s.pipe.value)))
    else RangeRead(c, s, length)
  }

  function ReadAtOf(c: Config, s: FileState, length: nat, off: int): (FileState, Result) {
    if !c.readMode || c.isCollection || off < 0 then (s, Result([], 0, Failed))
    else if BeyondEnd(c, off) then (s, Result([], 0, EndOfFile))
    else
      match RangeBytes(c, s.current, off, length)
      case None => (s, Result([], 0, Failed))
      case Some(bytes) => (s.(current := NextCurrent(c, s.current, off, length)), Result(bytes, 0, Done))
  }

  function SeekTarget(c: Config, s: FileState, offset: int, whence: Whence): Option<int> {
    match whence
    case SeekStart => Some(offset)
    case SeekCurrent => Some(s.position + offset)
    case SeekEnd => if c.size.None? then None else Some(c.size.value + offset)
  }

  function SeekOf(c: Config, s: FileState, offset: int, whence: Whence): (FileState, Result) {
    var target := SeekTarget(c, s, offset, whence);
    if s.hung then (s, Result([], 0, Hung))
    else if target.None? || target.value < 0 then (s, Result([], 0, Failed))
    else (s.(position := target.value), Result([], target.value, Done))
  }

  // ----- The file itself -----

  class PelicanFile {
    const servers: seq<Server>
    const size: Option<nat>
    const isCollection: bool
    const readMode: bool
    var position: nat
    var transferOffset: nat
    var transferStarted: bool
    var pipe: Option<Pipe>
    var currentEndpoint: int
    var hung: bool

    function Settings(): Config {
      Config(servers, size, isCollection, readMode)
    }

    ghost function State(): FileState
      reads this
    {
      FileState(position, transferOffset, transferStarted, pipe, currentEndpoint, hung)
    }

    constructor (c: Config)
      ensures Settings() == c && State() == OPENED
    {
      servers, size, isCollection, readMode := c.servers, c.size, c.isCollection, c.readMode;
      position, transferOffset, transferStarted, pipe, currentEndpoint, hung := 0, 0, false, None, 0, false;
    }

    method Read(p: array<byte>, start: Start, chunk: nat) returns (n: nat, outcome: Outcome)
      modifies this, p
      ensures var r := ReadOf(Settings(), old(State()), p.Length, start, chunk);
        && State() == r.0 && outcome == r.1.outcome
        && n == |r.1.bytes| <= p.Length && p[..n] == r.1.bytes
    {
      if hung {
        return 0, Hung;
      }
      if !readMode || isCollection {
        return 0, Failed;
      }
      if !transferStarted && position == 0 {
        n, outcome := StartTransferRead(p, start, chunk);
      } else if pipe.Some? && position == transferOffset {
        n, outcome := TakeFromPipe(p, chunk);
      } else {
        n, outcome := RangeReadHere(p);
      }
    }

    method TakeFromPipe(p: array<byte>, chunk: nat) returns (n: nat, outcome: Outcome)
      requires pipe.Some?
      modifies this`position, this`transferOffset, this`pipe, p
      ensures var was := old(pipe.value);
        && State() == ReadPipe(old(State()), was, p.Length, chunk)
        && outcome == PipeOutcome(was)
        && n == |PipeBytes(was, p.Length, chunk)| <= p.Length && p[..n] == PipeBytes(was, p.Length, chunk)
    {
      var was := pipe.value;
      outcome := PipeOutcome(was);
      n := PipeCount(was, p.Length, chunk);
      forall i | 0 <= i < n {
        p[i] := was.source[was.taken + i];
      }
      pipe := Some(was.(taken := was.taken + n));
      position := position + n;
      transferOffset := transferOffset + n;
    }

    method StartTransferRead(p: array<byte>, start: Start, chunk: nat) returns (n: nat, outcome: Outcome)
      modifies this, p
      ensures var r := StartRead(old(State()), p.Length, start, chunk);
        && State() == r.0 && outcome == r.1.outcome
        && n == |r.1.bytes| <= p.Length && p[..n] == r.1.bytes
    {
      transferStarted := true;
      transferOffset := 0;
      match start
      case CannotSubmit =>
        pipe := Some(Pipe([], 0));
        return 0, Failed;
      case NeverClosed =>
        pipe := Some(Pipe([], 0));
        hung := true;
        return 0, Hung;
      case Submitted(source) =>
        pipe := Some(Pipe(source, 0));
        if PipeOutcome(pipe.value) == EndOfFile {
          hung := true;
          return 0, Hung;
        }
        n, outcome := TakeFromPipe(p, chunk);
    }

    method RangeReadHere(p: array<byte>) returns (n: nat, outcome: Outcome)
      modifies this, p
      ensures var r := RangeRead(Settings(), old(State()), p.Length);
        && State() == r.0 && outcome == r.1.outcome
        && n == |r.1.bytes| <= p.Length && p[..n] == r.1.bytes
    {
      if size.Some? && position >= size.value {
        return 0, EndOfFile;
      }
      var ok;
      n, ok := DoRangeRead(p, position);
      if !ok {
        return 0, Failed;
      }
      position := position + n;
      outcome := Done;
    }

    /** Asks one server after another, the sticky one first, each at most once. */
    method DoRangeRead(p: array<byte>, offset: nat) returns (n: nat, ok: bool)
      modifies this`currentEndpoint, p
      ensures var r := RangeBytes(Settings(), old(currentEndpoint), offset, p.Length);
        && ok == r.Some?
        && n == (if r.Some? then |r.value| else 0) && n <= p.Length
        && (ok ==>
              p[..n] == r.value && currentEndpoint == NextCurrent(Settings(), old(currentEndpoint), offset, p.Length))
        && (!ok ==> currentEndpoint == old(currentEndpoint))
    {
      var length := p.Length;
      if size.Some? && offset + length > size.value && offset <= size.value {
        length := size.value - offset;
      }
      var order := servers;
      if 0 < currentEndpoint < |servers| {
        order := order[0 := servers[currentEndpoint]][currentEndpoint := servers[0]];
      }
      var i;
      i, n := AskInTurn(p, order, offset, length);
      if i == |order| {
        return 0, false;
      }
      if i != 0 {
        StickTo(order[i].url);
      }
      ok := true;
    }

    /** Asks until an answer is useful, and keeps what it brought. */
    method AskInTurn(p: array<byte>, order: seq<Server>, offset: nat, length: nat) returns (i: nat, n: nat)
      requires length <= p.Length
      modifies p
      ensures i == FirstUseful(order, offset, length, 0)
      ensures i < |order| ==>
        var bytes := order[i].answer(offset, length).bytes;
        n == Least(|bytes|, length) && p[..n] == bytes[..n]
    {
      i, n := 0, 0;
      while i < |order|
        invariant i <= |order|
        invariant FirstUseful(order, offset, length, 0) == FirstUseful(order, offset, length, i)
      {
        var useful;
        n, useful := TakeBody(p, order[i].answer(offset, length), length);
        if useful {
          return;
        }
        i := i + 1;
      }
    }

    /** Reads a body into the buffer, up to the length asked for. */
    method TakeBody(p: array<byte>, r: RangeReply, length: nat) returns (n: nat, useful: bool)
      requires length <= p.Length
      modifies p
      ensures useful == Useful(r, length)
      ensures useful ==> n == Least(|r.bytes|, length) && p[..n] == r.bytes[..n]
    {
      n := 0;
      if r.Sent? {
        n := Least(|r.bytes|, length);
        forall i | 0 <= i < n {
          p[i] := r.bytes[i];
        }
      }
      useful := r.Sent? && (|r.bytes| >= length || !r.broken);
    }

    method StickTo(url: string)
      modifies this`currentEndpoint
      ensures var found := IndexOfUrl(servers, url);
        currentEndpoint == if found < |servers| then found else old(currentEndpoint)
    {
      for i := 0 to |servers|
        invariant currentEndpoint == old(currentEndpoint)
        invariant forall j :: 0 <= j < i ==> servers[j].url != url
      {
        if servers[i].url == url {
          currentEndpoint := i;
          return;
        }
      }
    }

    method ReadAt(p: array<byte>, off: int) returns (n: nat, outcome: Outcome)
      modifies this`currentEndpoint, p
      ensures var r := ReadAtOf(Settings(), old(State()), p.Length, off);
        && State() == r.0 && outcome == r.1.outcome
        && n == |r.1.bytes| <= p.Length && p[..n] == r.1.bytes
    {
      if !readMode || isCollection || off < 0 {
        return 0, Failed;
      }
      if size.Some? && off >= size.value {
        return 0, EndOfFile;
      }
      var ok;
      n, ok := DoRangeRead(p, off);
      outcome := if ok then Done else Failed;
    }

    method Seek(offset: int, whence: Whence) returns (value: int, outcome: Outcome)
      modifies this`position
      ensures var r := SeekOf(Settings(), old(State()), offset, whence);
        State() == r.0 && value == r.1.value && outcome == r.1.outcome
    {
      if hung {
        return 0, Hung;
      }
      var target: int;
      match whence {
        case SeekStart => target := offset;
        case SeekCurrent => target := position + offset;
        case SeekEnd =>
          if size.None? {
            return 0, Failed;
          }
          target := size.value + offset;
      }
      if target < 0 {
        return 0, Failed;
      }
      position := target;
      return position, Done;
    }
  }

  // ----- What the reader sees -----

  /** The hypotheses: servers answer a range with bytes of the object from its offset on
      (section 15.3.7 of RFC 9110), and a known size is the object's. */
  ghost predicate Honest(c: Config, content: seq<byte>) {
    && (c.size.Some? ==> c.size.value == |content|)
    && forall i, offset, length :: 0 <= i < |c.servers| ==>
         HonestAnswer(c.servers[i].answer(offset, length), offset, content)
  }

  predicate HonestAnswer(r: RangeReply, offset: nat, content: seq<byte>) {
    r.Sent? && r.bytes != [] ==> offset <= |content| && r.bytes <= content[offset..]
  }

  /** The pipe's next byte is the object's at the transfer offset. */
  predicate PipeValid(pipe: Pipe, transferOffset: nat, content: seq<byte>) {
    pipe.source <= content && pipe.taken == transferOffset <= |pipe.source|
  }

  predicate StateValid(s: FileState, content: seq<byte>) {
    && (s.pipe.Some? ==> PipeValid(s.pipe.value, s.transferOffset, content))
    && (s.pipe.Some? ==> s.started)
  }

  datatype Op =
    | Read(length: nat, start: Start, chunk: nat)
    | ReadAt(length: nat, off: int)
    | Seek(offset: int, whence: Whence)

  function Do(c: Config, s: FileState, op: Op): (FileState, Result) {
    match op
    case Read(length, start, chunk) => ReadOf(c, s, length, start, chunk)
    case ReadAt(length, off) => ReadAtOf(c, s, length, off)
    case Seek(offset, whence) => SeekOf(c, s, offset, whence)
  }

  /** A transfer writes the object's bytes in order, perhaps not to its end. */
  predicate HonestOp(op: Op, content: seq<byte>) {
    op.Read? && op.start.Submitted? ==> op.start.source <= content
  }

  /** `bytes` is what an array holding the object has at `offset`, perhaps short. */
  predicate BytesAt(content: seq<byte>, offset: int, bytes: seq<byte>) {
    bytes != [] ==> 0 <= offset <= |content| && bytes <= content[offset..]
  }

  lemma TryOrderIsPermutation(servers: seq<Server>, current: int)
    ensures multiset(TryOrder(servers, current)) == multiset(servers)
  {
  }

  lemma RangeBytesAreHonest(c: Config, current: int, offset: nat, length: nat, content: seq<byte>)
    requires Honest(c, content)
    ensures var r := RangeBytes(c, current, offset, length);
      r.Some? ==> BytesAt(content, offset, r.value) && |r.value| <= length
  {
    var order := TryOrder(c.servers, current);
    var len := RangeLength(c, offset, length);
    var i := FirstUseful(order, offset, len, 0);
    if i < |order| {
      var j := if 0 < current < |c.servers| && i == 0 then current
               else if i == current && 0 < current < |c.servers| then 0
               else i;
      assert order[i] == c.servers[j];
      assert HonestAnswer(c.servers[j].answer(offset, len), offset, content);
    }
  }

  lemma PipeBytesAreHonest(pipe: Pipe, transferOffset: nat, length: nat, chunk: nat, content: seq<byte>)
    requires PipeValid(pipe, transferOffset, content)
    ensures BytesAt(content, transferOffset, PipeBytes(pipe, length, chunk))
    ensures |PipeBytes(pipe, length, chunk)| <= length
    ensures var n := PipeCount(pipe, length, chunk);
      PipeValid(pipe.(taken := pipe.taken + n), transferOffset + n, content) && |PipeBytes(pipe, length, chunk)| == n
  {
  }

  /** Every operation does what an array with a cursor does: reads return bytes from the
      cursor and move it over them, `ReadAt` and failures leave it alone, `Seek` sets it. */
  lemma OperationRefinesArray(c: Config, s: FileState, op: Op, content: seq<byte>)
    requires Honest(c, content) && StateValid(s, content) && HonestOp(op, content)
    ensures var r := Do(c, s, op);
      && StateValid(r.0, content)
      && match op
         case Read(length, _, _) =>
           BytesAt(content, s.position, r.1.bytes) && |r.1.bytes| <= length && r.0.position == s.position + |r.1.bytes|
         case ReadAt(length, off) =>
           BytesAt(content, off, r.1.bytes) && |r.1.bytes| <= length && r.0 == s.(current := r.0.current)
         case Seek(_, _) =>
           r.1.bytes == [] && r.0.position == if r.1.outcome == Done then r.1.value else s.position
  {
    match op
    case Read(length, start, chunk) =>
      RangeBytesAreHonest(c, s.current, s.position, length, content);
      if !s.started && s.position == 0 {
        if start.Submitted? {
          PipeBytesAreHonest(Pipe(start.source, 0), 0, length, chunk, content);
        }
      } else if s.pipe.Some? && s.position == s.transferOffset {
        PipeBytesAreHonest(s.pipe.value, s.transferOffset, length, chunk, content);
      }
    case ReadAt(length, off) =>
      if off >= 0 {
        RangeBytesAreHonest(c, s.current, off, length, content);
      }
    case Seek(_, _) =>
  }

  // ----- How operations end -----

  /** An answer that cannot be used: none, or one broken off before its length. */
  predicate Fails(r: RangeReply, length: nat) {
    r.Refused? || (r.broken && |r.bytes| < length)
  }

  /** What a range request asks for: no more than is left of a known size. */
  function Asked(size: Option<nat>, offset: nat, length: nat): nat {
    if size.Some? && offset <= size.value && size.value - offset < length then size.value - offset else length
  }

  /** A range read asks the server it stayed with first and then the others, takes the
      first answer that does not fail, and stays with the server that gave it. */
  lemma RangeReadAsksInTurn(c: Config, current: int, offset: nat, length: nat)
    ensures var order := TryOrder(c.servers, current); var n := Asked(c.size, offset, length);
      && (if 0 < current < |c.servers| then order != [] && order[0] == c.servers[current] else order == c.servers)
      && match RangeBytes(c, current, offset, length)
         case None =>
           && (forall k :: 0 <= k < |order| ==> Fails(order[k].answer(offset, n), n))
           && NextCurrent(c, current, offset, length) == current
         case Some(bytes) =>
           exists k :: 0 <= k < |order|
             && IsAnswer(c, order, k, offset, n, bytes, NextCurrent(c, current, offset, length))
  {
    var order, n := TryOrder(c.servers, current), RangeLength(c, offset, length);
    var k := FirstUseful(order, offset, n, 0);
    assert n == Asked(c.size, offset, length);
    if k < |order| {
      StaysWith(c, current, offset, length);
      assert Useful(order[k].answer(offset, n), n);
      assert IsAnswer(c, order, k, offset, n, RangeBytes(c, current, offset, length).value,
                      NextCurrent(c, current, offset, length));
    } else {
      forall i | 0 <= i < |order| ensures Fails(order[i].answer(offset, n), n) {
        assert !Useful(order[i].answer(offset, n), n);
      }
    }
  }

  /** The bytes are those of the answer of server `k`, the first that did not fail, and the
      next request will ask a server with its URL first. */
  predicate IsAnswer(c: Config, order: seq<Server>, k: nat, offset: nat, n: nat, bytes: seq<byte>, next: int)
    requires k < |order|
  {
    && (forall j :: 0 <= j < k ==> Fails(order[j].answer(offset, n), n))
    && !Fails(order[k].answer(offset, n), n)
    && bytes == order[k].answer(offset, n).bytes[..Least(|order[k].answer(offset, n).bytes|, n)]
    && TryOrder(c.servers, next) != [] && TryOrder(c.servers, next)[0].url == order[k].url
  }

  lemma StaysWith(c: Config, current: int, offset: nat, length: nat)
    requires var order := TryOrder(c.servers, current);
      FirstUseful(order, offset, RangeLength(c, offset, length), 0) < |order|
    ensures var order := TryOrder(c.servers, current);
      var k := FirstUseful(order, offset, RangeLength(c, offset, length), 0);
      var next := TryOrder(c.servers, NextCurrent(c, current, offset, length));
      next != [] && next[0].url == order[k].url
  {
    var order := TryOrder(c.servers, current);
    var k := FirstUseful(order, offset, RangeLength(c, offset, length), 0);
    if k > 0 {
      TryOrderIsPermutation(c.servers, current);
      assert order[k] in multiset(order);
      assert order[k] in c.servers;
      var j :| 0 <= j < |c.servers| && c.servers[j] == order[k];
      assert IndexOfUrl(c.servers, order[k].url) <= j;
    }
  }

  /** The bytes a read can take at once. */
  function Taken(left: seq<byte>, length: nat, chunk: nat): seq<byte> {
    left[..Least(length, Least(chunk, |left|))]
  }

  /** How a read ends. With bytes left in the pipe at the cursor it takes some and is done,
      with none left, or outside the pipe at or behind the end of a known size, it reports
      the end of the file; otherwise the servers decide. */
  lemma ReadEnds(c: Config, s: FileState, length: nat, start: Start, chunk: nat, content: seq<byte>)
    requires StateValid(s, content) && c.readMode && !c.isCollection && !s.hung
    ensures var r := ReadOf(c, s, length, start, chunk).1;
      if !s.started && s.position == 0 then
        match start
        case CannotSubmit => r == Result([], 0, Failed)
        case NeverClosed => r == Result([], 0, Hung)
        case Submitted(source) =>
          r == if source == [] then Result([], 0, Hung) else Result(Taken(source, length, chunk), 0, Done)
      else if s.pipe.Some? && s.position == s.transferOffset then
        var left := s.pipe.value.source[s.position..];
        r == if left == [] then Result([], 0, EndOfFile) else Result(Taken(left, length, chunk), 0, Done)
      else if c.size.Some? && s.position >= c.size.value then r == Result([], 0, EndOfFile)
      else
        match RangeBytes(c, s.current, s.position, length)
        case None => r == Result([], 0, Failed)
        case Some(bytes) => r == Result(bytes, 0, Done)
  {
    if s.pipe.Some? && s.position == s.transferOffset {
      var pipe := s.pipe.value;
      assert PipeValid(pipe, s.transferOffset, content);
    }
  }

  /** A range request moves the cursor of a read by what it brought, leaves that of a
      positioned read, and changes nothing else but the server to ask first. */
  lemma RequestsKeepTheRest(c: Config, s: FileState, length: nat, start: Start, chunk: nat, off: nat)
    requires c.readMode && !c.isCollection
    ensures var (t, r) := ReadAtOf(c, s, length, off);
      t == s.(current := if r.outcome == EndOfFile then s.current else NextCurrent(c, s.current, off, length))
    ensures !s.hung && (s.started || s.position != 0) && (s.pipe.None? || s.position != s.transferOffset) ==>
      var (t, r) := ReadOf(c, s, length, start, chunk);
      t == s.(position := s.position + |r.bytes|,
              current := if r.outcome == EndOfFile then s.current else NextCurrent(c, s.current, s.position, length))
  {
    RangeReadAsksInTurn(c, s.current, off, length);
    RangeReadAsksInTurn(c, s.current, s.position, length);
  }

  /** A transfer that could not be submitted is not tried again: from then on reading in
      place reports the end of the file. */
  lemma FailedStartIsFinal(c: Config, s: FileState, length: nat, chunk: nat, length': nat, start': Start, chunk': nat)
    requires c.readMode && !c.isCollection && !s.hung && !s.started && s.position == 0
    ensures var (t, r) := ReadOf(c, s, length, CannotSubmit, chunk);
      && r == Result([], 0, Failed) && t.started && t.position == 0
      && ReadOf(c, t, length', start', chunk').1 == Result([], 0, EndOfFile)
  {
  }

  /** A closed-off file fails every read, a hung one every read and seek for ever. */
  lemma RefusedReads(c: Config, s: FileState, length: nat, start: Start, chunk: nat, off: int)
    ensures s.hung ==> ReadOf(c, s, length, start, chunk) == (s, Result([], 0, Hung))
    ensures !s.hung && (!c.readMode || c.isCollection) ==>
      ReadOf(c, s, length, start, chunk) == (s, Result([], 0, Failed))
    ensures !c.readMode || c.isCollection || off < 0 ==> ReadAtOf(c, s, length, off) == (s, Result([], 0, Failed))
    ensures c.readMode && !c.isCollection && off >= 0 && c.size.Some? && off >= c.size.value ==>
      ReadAtOf(c, s, length, off) == (s, Result([], 0, EndOfFile))
    ensures c.readMode && !c.isCollection && off >= 0 && (c.size.None? || off < c.size.value) ==>
      ReadAtOf(c, s, length, off).1 ==
        match RangeBytes(c, s.current, off, length)
        case None => Result([], 0, Failed)
        case Some(b) => Result(b, 0, Done)
  {
  }

  /** A seek fails exactly when it would end before the file or counts from an end that is
      not known. */
  lemma SeekFailsExactlyWhen(c: Config, s: FileState, offset: int, whence: Whence)
    requires !s.hung
    ensures SeekOf(c, s, offset, whence).1.outcome == Failed <==>
      || (whence == SeekStart && offset < 0)
      || (whence == SeekCurrent && s.position + offset < 0)
      || (whence == SeekEnd && (c.size.None? || c.size.value + offset < 0))
  {
  }

  // ----- Whole sessions -----

  /** The file after a sequence of operations. */
  function After(c: Config, ops: seq<Op>): FileState {
    if ops == [] then OPENED else Do(c, After(c, ops[..|ops| - 1]), ops[|ops| - 1]).0
  }

  function ResultOf(c: Config, ops: seq<Op>, k: nat): Result
    requires k < |ops|
  {
    Do(c, After(c, ops[..k]), ops[k]).1
  }

  /** The cursor of an array that saw the same results: reads move it over what they
      returned, a successful seek sets it. */
  function Cursor(c: Config, ops: seq<Op>): int {
    if ops == [] then 0
    else
      var n := |ops| - 1;
      var r := ResultOf(c, ops, n);
      match ops[n]
      case Read(_, _, _) => Cursor(c, ops[..n]) + |r.bytes|
      case ReadAt(_, _) => Cursor(c, ops[..n])
      case Seek(_, _) => if r.outcome == Done then r.value else Cursor(c, ops[..n])
  }

  ghost predicate HonestOps(ops: seq<Op>, content: seq<byte>) {
    forall k :: 0 <= k < |ops| ==> HonestOp(ops[k], content)
  }

  lemma {:induction false} SessionKeepsCursor(c: Config, ops: seq<Op>, content: seq<byte>)
    requires Honest(c, content) && HonestOps(ops, content)
    ensures StateValid(After(c, ops), content) && After(c, ops).position == Cursor(c, ops)
  {
    if ops != [] {
      var n := |ops| - 1;
      SessionKeepsCursor(c, ops[..n], content);
      OperationRefinesArray(c, After(c, ops[..n]), ops[n], content);
    }
  }

  /** In any session of reads, positioned reads and seeks, every result is what an array
      with a cursor would have given, perhaps short: `Read` at the cursor and `ReadAt` at
      its offset. */
  lemma SessionReadsTheObject(c: Config, ops: seq<Op>, k: nat, content: seq<byte>)
    requires Honest(c, content) && HonestOps(ops, content) && k < |ops|
    ensures var r := ResultOf(c, ops, k);
      match ops[k]
      case Read(length, _, _) => BytesAt(content, Cursor(c, ops[..k]), r.bytes) && |r.bytes| <= length
      case ReadAt(length, off) => BytesAt(content, off, r.bytes) && |r.bytes| <= length
      case Seek(offset, whence) =>
        r.outcome == Done ==>
          r.value == offset + match whence
                              case SeekStart => 0
                              case SeekCurrent => Cursor(c, ops[..k])
                              case SeekEnd => |content|
  {
    SessionKeepsCursor(c, ops[..k], content);
    OperationRefinesArray(c, After(c, ops[..k]), ops[k], content);
  }

  /** When a read reports the end of the file, the cursor is short of the object's end
      exactly if it read from the pipe of a transfer that carried only part of it. */
  lemma EarlyEndComesFromThePipe(c: Config, ops: seq<Op>, k: nat, content: seq<byte>)
    requires Honest(c, content) && HonestOps(ops, content)
    requires k < |ops| && ops[k].Read? && ResultOf(c, ops, k).outcome == EndOfFile
    ensures var s := After(c, ops[..k]);
      Cursor(c, ops[..k]) < |content| <==>
        s.pipe.Some? && s.position == s.transferOffset && |s.pipe.value.source| < |content|
  {
    SessionKeepsCursor(c, ops[..k], content);
  }

  /** In any session, a read with room for a byte that returns none did not succeed, unless
      a server answered it with nothing; and when the cursor stands at the end of what the
      transfer carried, or outside the pipe at the end of a known size, it reports the end
      of the file. */
  lemma EndIsReported(c: Config, ops: seq<Op>, k: nat, content: seq<byte>)
    requires Honest(c, content) && HonestOps(ops, content) && k < |ops| && ops[k].Read?
    requires ops[k].length > 0 && ops[k].chunk > 0
    ensures var s := After(c, ops[..k]); var r := ResultOf(c, ops, k);
      var inPipe := s.pipe.Some? && s.position == s.transferOffset;
      && (r.bytes == [] && r.outcome == Done ==>
            !inPipe && exists i, n :: 0 <= i < |c.servers| && n > 0 && AnswersNothing(c.servers[i], s.position, n))
      && (c.readMode && !c.isCollection && !s.hung && (s.started || s.position > 0) ==>
            && (inPipe && s.position >= |s.pipe.value.source| ==> r.outcome == EndOfFile)
            && (!inPipe && c.size.Some? && Cursor(c, ops[..k]) >= |content| ==> r.outcome == EndOfFile)
            && (inPipe && r.outcome == Done ==> r.bytes != []))
  {
    SessionKeepsCursor(c, ops[..k], content);
    var s, r := After(c, ops[..k]), ResultOf(c, ops, k);
    var op := ops[k];
    if s.hung || !c.readMode || c.isCollection {
      RefusedReads(c, s, op.length, op.start, op.chunk, 0);
    } else {
      ReadEnds(c, s, op.length, op.start, op.chunk, content);
      if r.bytes == [] && r.outcome == Done {
        NothingCameFromAServer(c, s.current, s.position, op.length);
      }
    }
  }

  predicate AnswersNothing(server: Server, offset: nat, n: nat) {
    server.answer(offset, n) == Sent([], false)
  }

  lemma NothingCameFromAServer(c: Config, current: int, offset: nat, length: nat)
    requires length > 0 && !BeyondEnd(c, offset) && RangeBytes(c, current, offset, length) == Some([])
    ensures exists i, n :: 0 <= i < |c.servers| && n > 0 && AnswersNothing(c.servers[i], offset, n)
  {
    RangeReadAsksInTurn(c, current, offset, length);
    TryOrderIsPermutation(c.servers, current);
    var order, n := TryOrder(c.servers, current), Asked(c.size, offset, length);
    var k :| 0 <= k < |order| && IsAnswer(c, order, k, offset, n, [], NextCurrent(c, current, offset, length));
    assert order[k] in multiset(order);
    assert order[k] in c.servers;
    var i :| 0 <= i < |c.servers| && c.servers[i] == order[k];
    assert AnswersNothing(c.servers[i], offset, n);
  }

  // ----- Reading from beginning to end -----

  /** Reads only, each with room for a byte, of a file whose transfer carries everything. */
  predicate ReadsOn(ops: seq<Op>, content: seq<byte>) {
    forall k :: 0 <= k < |ops| ==>
      ops[k].Read? && ops[k].length > 0 && ops[k].chunk > 0 && ops[k].start == Submitted(content)
  }

  /** What the reads returned, one after another. */
  function AllRead(c: Config, ops: seq<Op>): seq<byte> {
    if ops == [] then [] else AllRead(c, ops[..|ops| - 1]) + ResultOf(c, ops, |ops| - 1).bytes
  }

  predicate CarriesAll(s: FileState, content: seq<byte>) {
    s.started && s.pipe.Some? && s.pipe.value.source == content
  }

  /** A reader that goes on reading gets the object, each byte once and in order, at least
      one byte a read, and then the end of the file, at every read from there on. */
  lemma {:induction false} ReadingOnGetsEverything(c: Config, ops: seq<Op>, content: seq<byte>)
    requires c.readMode && !c.isCollection && content != [] && ReadsOn(ops, content)
    ensures StateValid(After(c, ops), content)
    ensures AllRead(c, ops) <= content && |AllRead(c, ops)| >= Least(|ops|, |content|)
    ensures ops != [] ==>
      ResultOf(c, ops, |ops| - 1).outcome == if AllRead(c, ops[..|ops| - 1]) == content then EndOfFile else Done
    ensures !After(c, ops).hung && After(c, ops).position == |AllRead(c, ops)| == After(c, ops).transferOffset
    ensures if ops == [] then After(c, ops) == OPENED else CarriesAll(After(c, ops), content)
  {
    if ops != [] {
      var n := |ops| - 1;
      ReadingOnGetsEverything(c, ops[..n], content);
      ReadsOnce(c, After(c, ops[..n]), ops[n], content, AllRead(c, ops[..n]));
    }
  }

  lemma ReadsOnce(c: Config, s: FileState, op: Op, content: seq<byte>, before: seq<byte>)
    requires c.readMode && !c.isCollection && content != [] && StateValid(s, content) && !s.hung
    requires op.Read? && op.length > 0 && op.chunk > 0 && op.start == Submitted(content)
    requires before <= content && s.position == |before| == s.transferOffset
    requires s == OPENED || CarriesAll(s, content)
    ensures var r := Do(c, s, op);
      && StateValid(r.0, content) && !r.0.hung && CarriesAll(r.0, content)
      && before + r.1.bytes <= content && r.0.position == |before + r.1.bytes| == r.0.transferOffset
      && (if before == content then r.1.outcome == EndOfFile else r.1.outcome == Done && r.1.bytes != [])
  {
    var left := content[|before|..];
    assert content == before + left;
    if s == OPENED {
      PipeBytesAreHonest(Pipe(content, 0), 0, op.length, op.chunk, content);
    } else {
      PipeBytesAreHonest(s.pipe.value, s.transferOffset, op.length, op.chunk, content);
    }
  }

  /** A first read never returns when its transfer ends without a byte, whatever the
      object: the end of the pipe makes it take the file's mutex a second time. */
  lemma EmptyTransferHangs(c: Config, length: nat, chunk: nat, content: seq<byte>)
    requires c.readMode && !c.isCollection
    ensures var ops := [Read(length, Submitted([]), chunk)];
      HonestOps(ops, content) && ResultOf(c, ops, 0).outcome == Hung && After(c, ops).hung
  {
    var ops := [Read(length, Submitted([]), chunk)];
    assert ops[..0] == [];
  }

  /** For an empty object that is every transfer that is submitted. */
  lemma EmptyObjectHangs(c: Config, length: nat, start: Start, chunk: nat)
    requires c.readMode && !c.isCollection && HonestOp(Read(length, start, chunk), [])
    ensures ResultOf(c, [Read(length, start, chunk)], 0).outcome == (if start.CannotSubmit? then Failed else Hung)
  {
    var ops := [Read(length, start, chunk)];
    assert ops[..0] == [];
  }

  /** The operation reads at the start of the file, as the first to start the transfer,
      and either nobody would ever close the pipe or it was closed without a byte. */
  predicate HangsAt(c: Config, s: FileState, op: Op) {
    && op.Read? && c.readMode && !c.isCollection && !s.hung && !s.started && s.position == 0
    && (op.start.NeverClosed? || op.start == Submitted([]))
  }

  lemma OneMoreHang(c: Config, s: FileState, op: Op)
    ensures Do(c, s, op).0.hung <==> s.hung || HangsAt(c, s, op)
  {
  }

  predicate HangsAtStep(c: Config, ops: seq<Op>, k: nat)
    requires k < |ops|
  {
    HangsAt(c, After(c, ops[..k]), ops[k])
  }

  lemma PrefixHangsSame(c: Config, ops: seq<Op>, n: nat, k: nat)
    requires k < n <= |ops|
    ensures HangsAtStep(c, ops[..n], k) == HangsAtStep(c, ops, k)
  {
    assert ops[..n][..k] == ops[..k];
  }

  lemma {:induction false} HangHasCause(c: Config, ops: seq<Op>) returns (k: nat)
    requires After(c, ops).hung
    ensures k < |ops| && HangsAtStep(c, ops, k)
  {
    var n := |ops| - 1;
    OneMoreHang(c, After(c, ops[..n]), ops[n]);
    if After(c, ops[..n]).hung {
      k := HangHasCause(c, ops[..n]);
      PrefixHangsSame(c, ops, n, k);
    } else {
      k := n;
    }
  }

  lemma {:induction false} CauseHangs(c: Config, ops: seq<Op>, k: nat)
    requires k < |ops| && HangsAtStep(c, ops, k)
    ensures After(c, ops).hung
  {
    var n := |ops| - 1;
    OneMoreHang(c, After(c, ops[..n]), ops[n]);
    if k < n {
      PrefixHangsSame(c, ops, n, k);
      CauseHangs(c, ops[..n], k);
    }
  }

  /** Nothing else hangs: a session has hung exactly if one of its operations did so. */
  lemma HangsOnlyThere(c: Config, ops: seq<Op>)
    ensures After(c, ops).hung <==> exists k :: 0 <= k < |ops| && HangsAtStep(c, ops, k)
  {
    if After(c, ops).hung {
      var k := HangHasCause(c, ops);
    }
    forall k | 0 <= k < |ops| && HangsAtStep(c, ops, k) ensures After(c, ops).hung {
      CauseHangs(c, ops, k);
    }
  }

  /** Once a session has hung, its reads and seeks hang too; `ReadAt` still works. */
  lemma HangingStays(c: Config, s: FileState, op: Op)
    requires s.hung
    ensures Do(c, s, op).0.hung && (Do(c, s, op).1.outcome == Hung <==> !op.ReadAt?)
  {
  }
}
