/** The producers and consumers that cut messages into parts and put them together again: the
    fixed-buffer client calls, and the web server's "header plus POST body" producer. */
module IpcMessages {
  import opened IpcProtocol

  // ----- messages as parts ----------------------------------------------------------------------

  /** The parts of a message when the payload buffer holds `size` bytes. */
  function Chunks(s: Bytes, size: nat): seq<Bytes>
    requires size > 0
  {
    if |s| <= size then [s] else [s[..size]] + Chunks(s[size..], size)
  }

  function Flatten(parts: seq<Bytes>): Bytes {
    if parts == [] then [] else Flatten(parts[..|parts| - 1]) + parts[|parts| - 1]
  }

  /** At least one part, even for the empty message; otherwise the quotient, rounded up. */
  function PartCount(n: nat, size: nat): nat
    requires size > 0
  {
    if n == 0 then 1 else (n + size - 1) / size
  }

  lemma {:induction false} FlattenAdds(a: seq<Bytes>, b: seq<Bytes>)
    ensures Flatten(a + b) == Flatten(a) + Flatten(b)
  {
    if b == [] {
      assert a + b == a;
    } else {
      assert (a + b)[..|a + b| - 1] == a + b[..|b| - 1];
      FlattenAdds(a, b[..|b| - 1]);
    }
  }

  lemma Reassociate(a: seq<Bytes>, b: seq<Bytes>, c: seq<Bytes>)
    ensures a + (b + c) == (a + b) + c
  {
  }

  lemma SliceOfRest(s: Bytes, n: nat, n': nat)
    requires n <= n' <= |s|
    ensures s[n..][..n' - n] == s[n..n'] && s[n..][n' - n..] == s[n'..]
  {
  }

  /** No part is longer than the payload buffer. */
  ghost predicate Fit(parts: seq<Bytes>, size: nat) {
    forall k :: 0 <= k < |parts| ==> |parts[k]| <= size
  }

  lemma PushPart(parts: seq<Bytes>, piece: Bytes, size: nat)
    ensures Flatten(parts + [piece]) == Flatten(parts) + piece
    ensures Fit(parts, size) && |piece| <= size ==> Fit(parts + [piece], size)
  {
    assert (parts + [piece])[..|parts|] == parts;
  }

  lemma FlattenOne(b: Bytes)
    ensures Flatten([b]) == b
  {
    assert [b][..0] == [];
  }

  /** Every part fits the buffer, and all but the last fill it. */
  lemma {:induction false} ChunksFit(s: Bytes, size: nat)
    requires size > 0
    ensures forall k :: 0 <= k < |Chunks(s, size)| ==>
      |Chunks(s, size)[k]| <= size && (k + 1 < |Chunks(s, size)| ==> |Chunks(s, size)[k]| == size)
  {
    if |s| > size {
      ChunksFit(s[size..], size);
    }
  }

  /** Cutting and joining give the message back, and the number of parts is the rounded quotient. */
  lemma ChunksRebuild(s: Bytes, size: nat)
    requires size > 0
    ensures Flatten(Chunks(s, size)) == s
    ensures |Chunks(s, size)| == PartCount(|s|, size)
  {
    ChunksJoin(s, size);
    ChunksCount(s, size);
  }

  lemma {:induction false} ChunksJoin(s: Bytes, size: nat)
    requires size > 0
    ensures Flatten(Chunks(s, size)) == s
  {
    if |s| <= size {
      FlattenOne(s);
    } else {
      ChunksJoin(s[size..], size);
      FlattenAdds([s[..size]], Chunks(s[size..], size));
      FlattenOne(s[..size]);
    }
  }

  lemma {:induction false} ChunksCount(s: Bytes, size: nat)
    requires size > 0
    ensures |Chunks(s, size)| == PartCount(|s|, size)
  {
    if |s| <= size {
      CeilSmall(|s|, size);
    } else {
      ChunksCount(s[size..], size);
      CeilStep(|s|, size);
    }
  }

  lemma CeilSmall(n: nat, size: nat)
    requires 0 < size && n <= size
    ensures PartCount(n, size) == 1
  {
    if n > 0 {
      assert n + size - 1 == size * 1 + (n - 1);
      DivIs(n + size - 1, size, 1, n - 1);
    }
  }

  lemma CeilStep(n: nat, size: nat)
    requires 0 < size < n
    ensures PartCount(n, size) == 1 + PartCount(n - size, size)
  {
    var k := n - 1;
    var q, r := k / size, k % size;
    DivIs(n + size - 1, size, q + 1, r);
    DivIs(n - size + size - 1, size, q, r);
  }

  lemma DivIs(a: nat, d: nat, q: nat, r: nat)
    requires d > 0 && r < d && a == d * q + r
    ensures a / d == q
  {
    var k := a / d - q;
    assert d * k == d * (a / d) - d * q == r - a % d;
    if k >= 1 {
      AtLeastOnce(d, k);
    } else if k <= -1 {
      AtLeastOnce(d, -k);
    }
  }

  lemma AtLeastOnce(d: nat, k: int)
    requires k >= 1
    ensures d * k >= d
  {
  }

  // ----- the fixed-buffer client ----------------------------------------------------------------

  /** Copies a piece of a message into the front of the shared buffer. */
  method CopyIn(buffer: array<bv8>, at: nat, data: Bytes)
    requires at + |data| <= buffer.Length
    modifies buffer
    ensures buffer[..] == old(buffer[..at]) + data + old(buffer[at + |data|..])
  {
    for k := 0 to |data|
      invariant buffer[..] == old(buffer[..at]) + data[..k] + old(buffer[at + k..])
    {
      buffer[at + k] := data[k];
    }
  }

  lemma NextInTurn<T>(all: seq<T>, part: nat, piece: T, tail: seq<T>)
    requires part < |all| && all[part..] == [piece] + tail
    ensures all[part] == piece && all[part + 1..] == tail && |tail| == |all| - part - 1
  {
    assert all[part..][0] == piece && all[part..][1..] == tail;
  }

  class BufferedCall {
    const query: Bytes
    const reply: array<bv8>
    var querySent: nat
    var replyReceived: nat

    ghost predicate Valid()
      reads this
    {
      querySent <= |query| && replyReceived <= reply.Length
    }

    constructor (query: Bytes, reply: array<bv8>)
      ensures Valid() && this.query == query && this.reply == reply
    {
      this.query, this.reply := query, reply;
      querySent, replyReceived := 0, 0;
    }

    /** Where the producer stands when asked for a part: part 0 starts the query afresh. */
    ghost function Position(part: nat): nat
      reads this
    {
      if part == 0 then 0 else querySent
    }

    /** The parts before `part` have been asked for, one after the other. */
    ghost predicate InTurn(part: nat, size: nat)
      requires size > 0
      reads this
    {
      && Valid() && part < |Chunks(query, size)|
      && Chunks(query[Position(part)..], size) == Chunks(query, size)[part..]
    }

    /** `sendrecv_buffered_producer`: asked for the parts in turn, it makes the chunks of the query. */
    method Produce(buffer: array<bv8>, part: nat) returns (more: bool, bytes: nat)
      requires Valid() && buffer.Length > 0 && buffer != reply
      modifies this`querySent, buffer
      ensures Valid()
      ensures var rest := query[old(Position(part))..];
              && more == (buffer.Length < |rest|)
              && bytes == (if more then buffer.Length else |rest|)
              && buffer[..bytes] == rest[..bytes]
              && Chunks(rest, buffer.Length)
                 == [buffer[..bytes]] + (if more then Chunks(rest[bytes..], buffer.Length) else [])
              && buffer[bytes..] == old(buffer[bytes..])
              && query[querySent..] == rest[bytes..]
      ensures old(InTurn(part, buffer.Length)) ==>
                && buffer[..bytes] == Chunks(query, buffer.Length)[part]
                && (more <==> part + 1 < |Chunks(query, buffer.Length)|)
                && (more ==> InTurn(part + 1, buffer.Length))
    {
      if part == 0 {
        querySent := 0;
      }
      var size := |query| - querySent;
      if buffer.Length < size {
        size := buffer.Length;
        more := true;
      } else {
        more := false;
      }
      ghost var rest := query[querySent..];
      CopyIn(buffer, 0, query[querySent..querySent + size]);
      bytes := size;
      assert buffer[..bytes] == rest[..bytes];
      FirstChunk(rest, buffer.Length);
      ghost var tail := if more then Chunks(rest[bytes..], buffer.Length) else [];
      querySent := querySent + size;
      assert query[querySent..] == rest[bytes..];
      if old(InTurn(part, buffer.Length)) {
        NextInTurn(Chunks(query, buffer.Length), part, buffer[..bytes], tail);
      }
    }

    /** What the consumer has collected so far. */
    ghost function Collected(part: nat): Bytes
      requires Valid()
      reads this, reply
    {
      if part == 0 then [] else reply[..replyReceived]
    }

    /** `sendrecv_buffered_consumer`: fails, and copies nothing, exactly if the part does not fit. */
    method Consume(buffer: Bytes, part: nat) returns (rc: int)
      requires Valid()
      modifies this`replyReceived, reply
      ensures Valid()
      ensures rc == if reply.Length < |old(Collected(part))| + |buffer| then -1 else 0
      ensures reply[..replyReceived] == old(Collected(part)) + if rc == 0 then buffer else []
    {
      if part == 0 {
        replyReceived := 0;
      }
      if reply.Length < replyReceived + |buffer| {
        return -1;
      }
      CopyIn(reply, replyReceived, buffer);
      replyReceived := replyReceived + |buffer|;
      return 0;
    }
  }

  /** The part loop of a send whose other side keeps up: the parts are the chunks of the query. */
  method SendAll(call: BufferedCall, buffer: array<bv8>) returns (parts: seq<Bytes>)
    requires call.Valid() && buffer.Length > 0 && buffer != call.reply
    modifies call`querySent, buffer
    ensures call.Valid() && parts == Chunks(call.query, buffer.Length)
  {
    parts := [];
    var part, more := 0, true;
    ghost var rest := call.query;
    while more
      invariant call.Valid() && part == |parts|
      invariant more ==> rest == call.query[call.Position(part)..]
      invariant Chunks(call.query, buffer.Length) == parts + if more then Chunks(rest, buffer.Length) else []
      decreases more, |rest|
    {
      var bytes;
      more, bytes := call.Produce(buffer, part);
      ghost var tail := if more then Chunks(rest[bytes..], buffer.Length) else [];
      Reassociate(parts, [buffer[..bytes]], tail);
      parts := parts + [buffer[..bytes]];
      rest := rest[bytes..];
      part := part + 1;
    }
  }

  lemma NextJoins(parts: seq<Bytes>, k: nat)
    requires k < |parts|
    ensures Flatten(parts[..k + 1]) == Flatten(parts[..k]) + parts[k]
    ensures |Flatten(parts[..k])| + |parts[k]| <= |Flatten(parts)|
  {
    assert parts[..k + 1][..k] == parts[..k];
    FlattenAdds(parts[..k + 1], parts[k + 1..]);
    assert parts == parts[..k + 1] + parts[k + 1..];
  }

  /** The part loop of a receive: it succeeds exactly if the whole message fits the reply buffer. */
  method ReceiveAll(call: BufferedCall, parts: seq<Bytes>) returns (rc: int)
    requires call.Valid() && parts != []
    modifies call`replyReceived, call.reply
    ensures call.Valid()
    ensures rc == if |Flatten(parts)| <= call.reply.Length then 0 else -1
    ensures rc == 0 ==> call.reply[..call.replyReceived] == Flatten(parts)
  {
    var part := 0;
    rc := 0;
    while part < |parts|
      invariant 0 <= part <= |parts| && call.Valid() && rc == 0
      invariant call.Collected(part) == Flatten(parts[..part])
    {
      NextJoins(parts, part);
      rc := call.Consume(parts[part], part);
      if rc != 0 {
        return;
      }
      part := part + 1;
    }
    assert parts[..part] == parts;
  }

  // ----- header plus POST body ------------------------------------------------------------------

  /** One answer of the server's input filters: an error, or data and whether it ends the body. */
  datatype Read = Failed | Read(data: Bytes, eos: bool)

  function Min(a: nat, b: nat): nat {
    if a < b then a else b
  }

  /** How much of the header has gone out before part `k`. */
  function HeaderSent(header: Bytes, size: nat, k: nat): (n: nat)
    ensures n <= |header|
  {
    if k == 0 then 0 else Min(|header|, HeaderSent(header, size, k - 1) + size)
  }

  lemma {:induction false} HeaderSentIs(header: Bytes, size: nat, k: nat)
    ensures HeaderSent(header, size, k) == Min(|header|, k * size)
  {
    if k > 0 {
      HeaderSentIs(header, size, k - 1);
      assert k * size == (k - 1) * size + size;
    }
  }

  /** The room that part `k` leaves for the body. */
  function Room(header: Bytes, size: nat, k: nat): nat {
    size - (HeaderSent(header, size, k + 1) - HeaderSent(header, size, k))
  }

  class PostProducer {
    const message: Bytes
    const passPost: bool
    var offset: nat
    /** What the input filters will answer, one element for each call. */
    var input: seq<Read>

    ghost predicate Valid()
      reads this
    {
      offset <= |message|
    }

    constructor (message: Bytes, passPost: bool, input: seq<Read>)
      ensures Valid() && this.message == message && this.passPost == passPost && this.input == input
    {
      this.message, this.passPost, this.input := message, passPost, input;
      offset := 0;
    }

    ghost function Left(part: nat): Bytes
      requires Valid()
      reads this
    {
      if part == 0 then message else message[offset..]
    }

    /** Copies as much of the header as is left and fits. */
    method CopyHeader(buffer: array<bv8>) returns (more: bool, bytes: nat)
      requires Valid()
      modifies this`offset, buffer
      ensures Valid()
      ensures bytes == Min(buffer.Length, |message| - old(offset)) && more == (buffer.Length < |message| - old(offset))
      ensures offset == old(offset) + bytes && buffer[..bytes] == message[old(offset)..offset]
    {
      bytes := 0;
      more := false;
      if offset < |message| {
        bytes := |message| - offset;
        if buffer.Length < bytes {
          bytes := buffer.Length;
          more := true;
        }
        CopyIn(buffer, 0, message[offset..offset + bytes]);
        offset := offset + bytes;
      }
    }

    /** Reads from the request once and copies what fits behind the header. */
    method CopyBody(buffer: array<bv8>, at: nat) returns (rc: int, more: bool, bytes: nat)
      requires Valid() && at <= buffer.Length
      modifies this`input, buffer
      ensures Valid() && at <= bytes <= buffer.Length
      ensures rc == if old(input) == [] || old(input)[0].Failed? then -1 else 0
      ensures rc == 0 ==>
        var got := old(input)[0];
        && more == !got.eos && input == old(input)[1..]
        && buffer[..bytes] == old(buffer[..at]) + got.data[..Min(buffer.Length - at, |got.data|)]
    {
      if input == [] || input[0].Failed? {
        return -1, true, at;
      }
      more := !input[0].eos;
      var wrote := Min(buffer.Length - at, |input[0].data|);
      CopyIn(buffer, at, input[0].data[..wrote]);
      bytes := at + wrote;
      input := input[1..];
      rc := 0;
    }

    /** `trell_pass_query_msg_post`: the header first, then, in the room that is left, what one read
        of the request body brings.  `aborted` is the state of the connection. */
    method Produce(buffer: array<bv8>, part: nat, aborted: bool) returns (rc: int, more: bool, bytes: nat)
      requires Valid()
      modifies this, buffer
      ensures Valid() && bytes <= buffer.Length
      ensures rc == if aborted || (passPost && (old(input) == [] || old(input)[0].Failed?)) then -1 else 0
      ensures rc == 0 ==>
        var left := old(Left(part));
        var head := left[..Min(buffer.Length, |left|)];
        && message[offset..] == left[|head|..]
        && (if passPost then
              var got := old(input)[0];
              && more == !got.eos && input == old(input)[1..]
              && buffer[..bytes] == head + got.data[..Min(buffer.Length - |head|, |got.data|)]
            else
              buffer[..bytes] == head && more == (buffer.Length < |left|) && input == old(input))
    {
      bytes := 0;
      more := false;
      if aborted {
        return -1, more, bytes;
      }
      if part == 0 {
        offset := 0;
      }
      ghost var left := message[offset..];
      more, bytes := CopyHeader(buffer);
      assert buffer[..bytes] == left[..bytes];
      if passPost {
        rc, more, bytes := CopyBody(buffer, bytes);
      } else {
        rc := 0;
      }
    }
  }

  /** The body bytes among the first `k` reads. */
  function BodyOf(input: seq<Read>, k: nat): Bytes
    requires k <= |input|
  {
    if k == 0 then [] else BodyOf(input, k - 1) + if input[k - 1].Read? then input[k - 1].data else []
  }

  /** What the buffers take of the first `k` reads: as much as the header leaves room for. */
  function TakenOf(header: Bytes, size: nat, input: seq<Read>, k: nat): Bytes
    requires k <= |input|
  {
    if k == 0 then []
    else TakenOf(header, size, input, k - 1) + Taken(input[k - 1], Room(header, size, k - 1))
  }

  function Taken(read: Read, room: nat): Bytes {
    if read.Read? then read.data[..Min(room, |read.data|)] else []
  }

  /** What the first `k` parts carry. */
  function Transmitted(header: Bytes, size: nat, input: seq<Read>, k: nat): Bytes
    requires k <= |input|
  {
    header[..HeaderSent(header, size, k)] + TakenOf(header, size, input, k)
  }

  /** The first `k` reads bring no more than they were asked for. */
  ghost predicate Obeys(input: seq<Read>, k: nat, header: Bytes, size: nat)
    requires k <= |input|
  {
    forall j :: 0 <= j < k && input[j].Read? ==> |input[j].data| <= Room(header, size, j)
  }

  /** The parts sent for a header and a request body: they join to the part of the header that went into as
      many buffers, followed by what these took of the body.  So when the end of the body has come, header and
      body have arrived whole if and only if the header fits as many buffers and no read was cut off. */
  method SendPost(p: PostProducer, buffer: array<bv8>) returns (rc: int, parts: seq<Bytes>)
    requires p.Valid() && p.passPost && buffer.Length > 0
    modifies p, buffer
    ensures p.Valid() && |parts| <= |old(p.input)|
    ensures Fit(parts, buffer.Length)
    ensures rc == 0 ==> parts != [] && EndsAt(old(p.input), |parts| - 1)
    ensures rc == 0 ==> Flatten(parts) == Transmitted(p.message, buffer.Length, old(p.input), |parts|)
    ensures rc == 0 ==>
      (Flatten(parts) == p.message + BodyOf(old(p.input), |parts|) <==>
       |p.message| <= |parts| * buffer.Length && Obeys(old(p.input), |parts|, p.message, buffer.Length))
    ensures rc != 0 ==> (|parts| == |old(p.input)| || old(p.input)[|parts|].Failed?) && Continues(old(p.input), |parts|)
  {
    parts := [];
    var more := true;
    rc := 0;
    ghost var answers := p.input;
    while more
      invariant p.Valid() && |parts| <= |answers| && p.input == answers[|parts|..]
      invariant Fit(parts, buffer.Length)
      invariant if more then Continues(answers, |parts|) else parts != [] && EndsAt(answers, |parts| - 1)
      invariant p.Left(|parts|) == p.message[HeaderSent(p.message, buffer.Length, |parts|)..]
      invariant Flatten(parts) == Transmitted(p.message, buffer.Length, answers, |parts|)
      decreases |answers| - |parts|, more
    {
      var piece;
      rc, more, piece := ProduceBody(p, buffer, |parts|, answers);
      if rc != 0 {
        return;
      }
      PushPart(parts, piece, buffer.Length);
      parts := parts + [piece];
    }
    HeaderAndBodyComplete(p.message, buffer.Length, answers, |parts|);
  }

  /** The first `k` reads bring data and none of them ends the body. */
  ghost predicate Continues(input: seq<Read>, k: nat)
    requires k <= |input|
  {
    forall j :: 0 <= j < k ==> input[j].Read? && !input[j].eos
  }

  ghost predicate EndsAt(input: seq<Read>, k: nat)
    requires k < |input|
  {
    Continues(input, k) && input[k].Read? && input[k].eos
  }

  /** As long as header is left, there was no room for the body. */
  lemma {:induction false} NoBodyYet(header: Bytes, size: nat, k: nat, input: seq<Read>)
    requires k <= |input|
    ensures HeaderSent(header, size, k) < |header| ==> TakenOf(header, size, input, k) == []
  {
    if k > 0 {
      NoBodyYet(header, size, k - 1, input);
    }
  }

  lemma PartJoins(header: Bytes, size: nat, k: nat, input: seq<Read>)
    requires size > 0 && k < |input| && input[k].Read?
    ensures var n, n' := HeaderSent(header, size, k), HeaderSent(header, size, k + 1);
      && n <= n' == n + Min(size, |header| - n)
      && Transmitted(header, size, input, k) + (header[n..n'] + Taken(input[k], size - (n' - n)))
         == Transmitted(header, size, input, k + 1)
  {
    NoBodyYet(header, size, k, input);
    var n, n' := HeaderSent(header, size, k), HeaderSent(header, size, k + 1);
    var body, data := TakenOf(header, size, input, k), Taken(input[k], size - (n' - n));
    assert TakenOf(header, size, input, k + 1) == body + data;
    JoinParts(header, n, n', body, data);
  }

  lemma JoinParts(header: Bytes, n: nat, n': nat, body: Bytes, data: Bytes)
    requires n <= n' <= |header| && (n == n' || body == [])
    ensures header[..n] + body + (header[n..n'] + data) == header[..n'] + (body + data)
  {
    if n == n' {
      assert header[n..n'] + data == data;
    } else {
      assert header[..n'] == header[..n] + header[n..n'];
    }
  }

  /** One part of header and body: the bytes sent so far grow as `PartJoins` says. */
  method ProduceBody(p: PostProducer, buffer: array<bv8>, part: nat, ghost input: seq<Read>)
    returns (rc: int, more: bool, piece: Bytes)
    requires p.Valid() && p.passPost && buffer.Length > 0
    requires part <= |input| && p.input == input[part..]
    requires p.Left(part) == p.message[HeaderSent(p.message, buffer.Length, part)..]
    modifies p, buffer
    ensures p.Valid() && |piece| <= buffer.Length
    ensures rc == if part == |input| || input[part].Failed? then -1 else 0
    ensures rc == 0 ==>
      var n, n' := HeaderSent(p.message, buffer.Length, part), HeaderSent(p.message, buffer.Length, part + 1);
      && more == !input[part].eos && p.input == input[part + 1..]
      && p.message[p.offset..] == p.message[n'..]
      && Transmitted(p.message, buffer.Length, input, part) + piece
         == Transmitted(p.message, buffer.Length, input, part + 1)
  {
    ghost var left := p.Left(part);
    var bytes;
    rc, more, bytes := p.Produce(buffer, part, false);
    piece := buffer[..bytes];
    if rc == 0 {
      PieceJoins(p.message, buffer.Length, part, input, left, piece);
    }
  }

  /** The piece that `PostProducer.Produce` makes of what is left of the header, and of one read. */
  lemma PieceJoins(header: Bytes, size: nat, k: nat, input: seq<Read>, left: Bytes, piece: Bytes)
    requires size > 0 && k < |input| && input[k].Read? && left == header[HeaderSent(header, size, k)..]
    requires var head := left[..Min(size, |left|)];
             piece == head + input[k].data[..Min(size - |head|, |input[k].data|)]
    ensures left[Min(size, |left|)..] == header[HeaderSent(header, size, k + 1)..]
    ensures Transmitted(header, size, input, k) + piece == Transmitted(header, size, input, k + 1)
  {
    var n, n' := HeaderSent(header, size, k), HeaderSent(header, size, k + 1);
    PartJoins(header, size, k, input);
    SliceOfRest(header, n, n');
    assert Min(size, |left|) == n' - n;
    SamePiece(piece, header[n..n'], Taken(input[k], size - (n' - n)), Transmitted(header, size, input, k),
              Transmitted(header, size, input, k + 1));
  }

  lemma SamePiece(piece: Bytes, head: Bytes, body: Bytes, before: Bytes, after: Bytes)
    requires piece == head + body && before + (head + body) == after
    ensures before + piece == after
  {
  }

  /** The buffers take the whole of the body if and only if no read brings more than it was asked for. */
  lemma {:induction false} TakenIsBody(header: Bytes, size: nat, input: seq<Read>, k: nat)
    requires k <= |input|
    ensures |TakenOf(header, size, input, k)| <= |BodyOf(input, k)|
    ensures |TakenOf(header, size, input, k)| == |BodyOf(input, k)| <==> Obeys(input, k, header, size)
    ensures Obeys(input, k, header, size) ==> TakenOf(header, size, input, k) == BodyOf(input, k)
  {
    if k > 0 {
      TakenIsBody(header, size, input, k - 1);
    }
  }

  /** What a request of `k` parts carried is header and body if and only if the header is no longer than `k`
      buffers and no read was cut off; the former is sure when the header fits the first buffer. */
  lemma HeaderAndBodyComplete(header: Bytes, size: nat, input: seq<Read>, k: nat)
    requires 0 < k <= |input|
    ensures Transmitted(header, size, input, k) == header + BodyOf(input, k) <==>
            |header| <= k * size && Obeys(input, k, header, size)
    ensures |header| <= size ==> |header| <= k * size
  {
    HeaderSentIs(header, size, k);
    assert k * size == (k - 1) * size + size;
    assert (k - 1) * size >= 0;
    TakenIsBody(header, size, input, k);
    var n := HeaderSent(header, size, k);
    assert |Transmitted(header, size, input, k)| == n + |TakenOf(header, size, input, k)|;
    if n == |header| {
      assert header[..n] == header;
    }
  }

  lemma OnePart(message: Bytes, size: nat, input: seq<Read>)
    requires 0 < size < |message| && |input| == 1 && input[0] == Read([], true)
    ensures EndsAt(input, 0) && Transmitted(message, size, input, 1) == message[..size]
  {
    HeaderSentIs(message, size, 1);
    TakenIsBody(message, size, input, 0);
    assert TakenOf(message, size, input, 1) == [];
    assert 1 * size == size;
  }

  /** The shortfall is real: when the header is longer than the buffer and the body is empty, the request
      succeeds, in one part, and the rest of the header is never sent. */
  method HeaderIsCutOff(message: Bytes, size: nat) returns (rc: int, parts: seq<Bytes>)
    requires 0 < size < |message|
    ensures rc == 0 && |parts| == 1 && Flatten(parts) == message[..size]
  {
    var buffer := new bv8[size];
    var input := [Read([], true)];
    var p := new PostProducer(message, true, input);
    OnePart(message, size, input);
    rc, parts := SendPost(p, buffer);
  }

  /** One part of a header without a body. */
  method ProduceHeader(p: PostProducer, buffer: array<bv8>, part: nat) returns (more: bool, piece: Bytes)
    requires p.Valid() && !p.passPost && buffer.Length > 0
    modifies p, buffer
    ensures p.Valid()
    ensures var left := old(p.Left(part));
      && |piece| == Min(buffer.Length, |left|) && p.message[p.offset..] == left[|piece|..]
      && more == (buffer.Length < |left|)
      && Chunks(left, buffer.Length) == [piece] + if more then Chunks(left[|piece|..], buffer.Length) else []
  {
    ghost var left := p.Left(part);
    var rc, bytes;
    rc, more, bytes := p.Produce(buffer, part, false);
    piece := buffer[..bytes];
    FirstChunk(left, buffer.Length);
  }

  /** Without a body the header may take any number of parts, and every run from part 0, wherever
      the last one stopped, sends the whole of it. */
  method SendHeader(p: PostProducer, buffer: array<bv8>) returns (parts: seq<Bytes>)
    requires p.Valid() && !p.passPost && buffer.Length > 0
    modifies p, buffer
    ensures p.Valid() && parts == Chunks(p.message, buffer.Length)
  {
    parts := [];
    var more := true;
    ghost var rest := p.message;
    while more
      invariant p.Valid()
      invariant more ==> rest == p.Left(|parts|)
      invariant Chunks(p.message, buffer.Length) == parts + if more then Chunks(rest, buffer.Length) else []
      decreases more, |rest|
    {
      var piece;
      more, piece := ProduceHeader(p, buffer, |parts|);
      Reassociate(parts, [piece], if more then Chunks(rest[|piece|..], buffer.Length) else []);
      parts := parts + [piece];
      rest := rest[|piece|..];
    }
  }

  lemma FirstChunk(s: Bytes, size: nat)
    requires size > 0
    ensures var n := Min(size, |s|); Chunks(s, size) == [s[..n]] + if size < |s| then Chunks(s[n..], size) else []
  {
    assert s[..|s|] == s;
  }
}
