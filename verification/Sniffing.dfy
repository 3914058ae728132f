/** Sniff-and-replay: readers that look ahead without losing a byte, and the direct dispatch that relies on them. */
module Sniffing {
  import opened Api
  import opened FlowRelease

  newtype byte = x: int | 0 <= x < 256

  type MultiBuffer = seq<seq<byte>>

  /** `buf.Size`. */
  const BUFFER_SIZE: nat := 8192

  function Flat(mb: MultiBuffer): seq<byte> {
    if mb == [] then [] else mb[0] + Flat(mb[1..])
  }

  function FlatAll(chunks: seq<MultiBuffer>): seq<byte> {
    if chunks == [] then [] else Flat(chunks[0]) + FlatAll(chunks[1..])
  }

  lemma {:induction false} FlatConcat(a: MultiBuffer, b: MultiBuffer)
    ensures Flat(a + b) == Flat(a) + Flat(b)
  {
    if a == [] {
      assert a + b == b;
    } else {
      assert (a + b)[1..] == a[1..] + b;
      FlatConcat(a[1..], b);
    }
  }

  function Min(a: nat, b: nat): nat {
    if a <= b then a else b
  }

  method IsEmpty(mb: MultiBuffer) returns (empty: bool)
    ensures empty <==> Flat(mb) == []
  {
    for i := 0 to |mb|
      invariant Flat(mb[i..]) == Flat(mb)
    {
      assert mb[i..][1..] == mb[i + 1..];
      if mb[i] != [] {
        return false;
      }
    }
    return true;
  }

  /** Copies into a buffer of `size` bytes: as many leading bytes as fit. */
  method Copy(mb: MultiBuffer, size: nat) returns (copied: seq<byte>)
    ensures copied == Flat(mb)[..Min(size, |Flat(mb)|)]
  {
    copied := [];
    for i := 0 to |mb|
      invariant |copied| <= size
      invariant Flat(mb) == copied + Flat(mb[i..])
    {
      assert mb[i..][1..] == mb[i + 1..];
      var n := Min(size - |copied|, |mb[i]|);
      copied := copied + mb[i][..n];
      if n < |mb[i]| {
        return;
      }
    }
  }

  /** The bytes one read brings: those of the next chunk, if it comes in time. */
  function Arriving(chunks: seq<MultiBuffer>, comes: bool): seq<byte> {
    if chunks == [] || !comes then [] else Flat(chunks[0])
  }

  function Remaining(chunks: seq<MultiBuffer>, comes: bool): seq<MultiBuffer> {
    if chunks == [] || !comes then chunks else chunks[1..]
  }

  /** The connection below: the chunks still to arrive, then the end of the stream. */
  class Source {
    var chunks: seq<MultiBuffer>

    ghost function Rest(): seq<byte>
      reads this
    {
      FlatAll(chunks)
    }

    method Read() returns (mb: MultiBuffer, ok: bool)
      modifies this
      ensures Flat(mb) + Rest() == old(Rest())
      ensures ok <==> old(chunks) != []
      ensures Flat(mb) == Arriving(old(chunks), true) && chunks == Remaining(old(chunks), true)
    {
      if chunks == [] {
        return [], false;
      }
      mb, ok := chunks[0], true;
      chunks := chunks[1..];
    }

    /** Nothing within the time allowed: an error, but no byte is consumed. */
    method ReadTimeout(arrives: bool) returns (mb: MultiBuffer, ok: bool)
      modifies this
      ensures Flat(mb) + Rest() == old(Rest())
      ensures ok <==> arrives && old(chunks) != []
      ensures Flat(mb) == Arriving(old(chunks), arrives) && chunks == Remaining(old(chunks), arrives)
    {
      if !arrives {
        return [], false;
      }
      mb, ok := Read();
    }
  }

  class ReplayReader {
    const reader: Source
    var cache: MultiBuffer

    ghost function Undelivered(): seq<byte>
      reads this, reader
    {
      Flat(cache) + reader.Rest()
    }

    /** How many reads can still succeed. */
    ghost function Reads(): nat
      reads this, reader
    {
      |reader.chunks| + if Flat(cache) == [] then 0 else 1
    }

    constructor (reader: Source, cache: MultiBuffer)
      ensures this.reader == reader && this.cache == cache
    {
      this.reader := reader;
      this.cache := cache;
    }

    method TakeBuffered() returns (mb: MultiBuffer)
      modifies this
      ensures Flat(mb) + Undelivered() == old(Undelivered())
    {
      mb := cache;
      cache := [];
    }

    method Read() returns (mb: MultiBuffer, ok: bool)
      modifies this, reader
      ensures Flat(mb) + Undelivered() == old(Undelivered())
      ensures !ok ==> old(Undelivered()) == []
      ensures ok ==> Reads() < old(Reads())
    {
      var empty := IsEmpty(cache);
      if !empty {
        mb, ok := cache, true;
        cache := [];
        return;
      }
      mb, ok := reader.Read();
    }
  }

  /** What is handed on: the connection itself, or a reader that first replays what was peeked. */
  datatype Reader = Plain(source: Source) | Replay(replay: ReplayReader)

  ghost function Denotes(r: Reader): seq<byte>
    reads if r.Plain? then {r.source} else {r.replay, r.replay.reader}
  {
    match r
    case Plain(source) => source.Rest()
    case Replay(replay) => replay.Undelivered()
  }

  class CachedReader {
    const reader: Source
    var cache: MultiBuffer

    ghost function Undelivered(): seq<byte>
      reads this, reader
    {
      Flat(cache) + reader.Rest()
    }

    constructor (reader: Source)
      ensures this.reader == reader && cache == []
    {
      this.reader := reader;
      cache := [];
    }

    /** Peeks: the payload is what a buffer holds of the undelivered bytes read so far, and nothing is delivered. */
    method Cache(timed: bool, arrives: bool) returns (payload: seq<byte>)
      modifies this, reader
      ensures Undelivered() == old(Undelivered())
      ensures payload <= Undelivered()
      ensures payload == Flat(cache)[..Min(BUFFER_SIZE, |Flat(cache)|)]
      ensures Flat(cache) == old(Flat(cache)) + Arriving(old(reader.chunks), !timed || arrives)
      ensures reader.chunks == Remaining(old(reader.chunks), !timed || arrives)
    {
      hide Flat, FlatAll, Arriving, Remaining;
      var mb: MultiBuffer, ok: bool;
      if timed {
        mb, ok := reader.ReadTimeout(arrives);
      } else {
        mb, ok := reader.Read();
      }
      Regroup(Flat(cache), Flat(mb), reader.Rest());
      var empty := IsEmpty(mb);
      if !empty {
        FlatConcat(cache, mb);
        cache := cache + mb;
      }
      payload := Copy(cache, BUFFER_SIZE);
    }

    method Read(timed: bool, arrives: bool) returns (mb: MultiBuffer, ok: bool)
      modifies this, reader
      ensures Flat(mb) + Undelivered() == old(Undelivered())
      ensures ok <==> old(Flat(cache)) != [] || (old(reader.chunks) != [] && (!timed || arrives))
      ensures old(Flat(cache)) != [] ==> Flat(mb) == old(Flat(cache)) && reader.chunks == old(reader.chunks)
      ensures old(Flat(cache)) == [] ==>
        && Flat(mb) == Arriving(old(reader.chunks), !timed || arrives)
        && reader.chunks == Remaining(old(reader.chunks), !timed || arrives)
      ensures !ok && !(timed && !arrives) ==> old(Undelivered()) == []
    {
      var empty := IsEmpty(cache);
      if !empty {
        mb, ok := cache, true;
        cache := [];
        return;
      }
      if timed {
        mb, ok := reader.ReadTimeout(arrives);
      } else {
        mb, ok := reader.Read();
      }
    }

    method TakeBuffered() returns (mb: MultiBuffer)
      modifies this
      ensures Flat(mb) + Undelivered() == old(Undelivered())
    {
      mb := cache;
      cache := [];
    }

    /** The fallback reader stands for exactly the bytes not delivered yet. */
    method Detach() returns (r: Reader)
      modifies this
      ensures Denotes(r) == old(Undelivered())
      ensures r.Plain? <==> old(Flat(cache)) == []
      ensures if r.Plain? then r.source == reader else r.replay.reader == reader && fresh(r.replay)
    {
      var empty := IsEmpty(cache);
      if empty {
        return Plain(reader);
      }
      var replay := new ReplayReader(reader, cache);
      cache := [];
      return Replay(replay);
    }
  }

  /******* Any sequence of peeks and reads *******/

  datatype Op = Peek(timed: bool, arrives: bool) | Fetch(timed: bool, arrives: bool) | Take

  /** A peeked payload and the number of bytes delivered before it. */
  datatype Peeked = Peeked(offset: nat, payload: seq<byte>)

  predicate Shows(stream: seq<byte>, p: Peeked) {
    p.offset <= |stream| && p.payload <= stream[p.offset..]
  }

  method PlayOne(r: CachedReader, op: Op) returns (out: seq<byte>, payload: seq<byte>)
    modifies r, r.reader
    ensures out + r.Undelivered() == old(r.Undelivered())
    ensures op.Peek? ==> out == []
    ensures payload <= old(r.Undelivered())
  {
    out, payload := [], [];
    match op
    case Peek(timed, arrives) =>
      payload := r.Cache(timed, arrives);
    case Fetch(timed, arrives) =>
      var mb, _ := r.Read(timed, arrives);
      out := Flat(mb);
    case Take =>
      var mb := r.TakeBuffered();
      out := Flat(mb);
  }

  lemma ShowsAt(stream: seq<byte>, delivered: seq<byte>, rest: seq<byte>, payload: seq<byte>)
    requires stream == delivered + rest && payload <= rest
    ensures Shows(stream, Peeked(|delivered|, payload))
  {
    assert stream[|delivered|..] == rest;
  }

  /** However peeks and reads mix, the bytes come out in order, none twice, none lost, and peeks tell the truth. */
  method Play(r: CachedReader, ops: seq<Op>) returns (delivered: seq<byte>, peeks: seq<Peeked>)
    modifies r, r.reader
    ensures delivered + r.Undelivered() == old(r.Undelivered())
    ensures forall p :: p in peeks ==> Shows(old(r.Undelivered()), p)
  {
    hide Flat, FlatAll, Shows;
    delivered, peeks := [], [];
    ghost var stream := r.Undelivered();
    for n := 0 to |ops|
      invariant delivered + r.Undelivered() == stream
      invariant forall p :: p in peeks ==> Shows(stream, p)
    {
      ghost var rest := r.Undelivered();
      var out, payload := PlayOne(r, ops[n]);
      if ops[n].Peek? {
        ShowsAt(stream, delivered, rest, payload);
        peeks := peeks + [Peeked(|delivered|, payload)];
      }
      Regroup(delivered, out, r.Undelivered());
      delivered := delivered + out;
    }
  }

  lemma Regroup(a: seq<byte>, b: seq<byte>, c: seq<byte>)
    ensures (a + b) + c == a + (b + c)
  {
  }

  ghost function ReadsLeft(r: Reader): nat
    reads if r.Plain? then {r.source} else {r.replay, r.replay.reader}
  {
    if r.Plain? then |r.source.chunks| else r.replay.Reads()
  }

  method Next(r: Reader) returns (out: seq<byte>, ok: bool)
    modifies if r.Plain? then {r.source} else {r.replay, r.replay.reader}
    ensures out + Denotes(r) == old(Denotes(r))
    ensures !ok ==> Denotes(r) == []
    ensures ok ==> ReadsLeft(r) < old(ReadsLeft(r))
  {
    var mb: MultiBuffer;
    if r.Plain? {
      mb, ok := r.source.Read();
    } else {
      mb, ok := r.replay.Read();
    }
    out := Flat(mb);
  }

  /** Reading the fallback until it reports the end yields the whole stream, and it does end. */
  method Drain(r: Reader) returns (all: seq<byte>)
    modifies if r.Plain? then {r.source} else {r.replay, r.replay.reader}
    ensures all == old(Denotes(r))
  {
    hide Denotes, ReadsLeft;
    all := [];
    var more := true;
    ghost var stream := Denotes(r);
    while more
      invariant all + Denotes(r) == stream
      invariant !more ==> Denotes(r) == []
      decreases more, ReadsLeft(r)
    {
      var out: seq<byte>;
      out, more := Next(r);
      Regroup(all, out, Denotes(r));
      all := all + out;
    }
  }

  /******* The sniffer *******/

  /** What the protocol sniffers say about a payload. */
  datatype Verdict = NoClue | Protocol(name: string) | Broken

  datatype Sniffed = Cancelled | TimedOut | UnknownContent | Content(verdict: Verdict)

  /** Circumstances of one attempt. */
  datatype Attempt = Attempt(cancelled: bool, timed: bool, arrives: bool)

  predicate Comes(attempt: Attempt) {
    !attempt.timed || attempt.arrives
  }

  /** The payload is not empty and some sniffer knows it. */
  predicate Tells(classify: seq<byte> -> Verdict, payload: seq<byte>) {
    payload != [] && classify(payload) != NoClue
  }

  /** What the first and the second peek show, given what is cached and what arrives. */
  function FirstPeek(cached: seq<byte>, chunks: seq<MultiBuffer>, first: Attempt): seq<byte> {
    var seen := cached + Arriving(chunks, Comes(first));
    seen[..Min(BUFFER_SIZE, |seen|)]
  }

  function SecondPeek(cached: seq<byte>, chunks: seq<MultiBuffer>, first: Attempt, second: Attempt): seq<byte> {
    FirstPeek(cached + Arriving(chunks, Comes(first)), Remaining(chunks, Comes(first)), second)
  }

  /**
   At most two peeks, and the stream is left as it was. The result is the verdict on the first payload that tells,
   unless the context ends first or the payload fills the buffer without a clue.
   */
  method Sniff(r: CachedReader, classify: seq<byte> -> Verdict, first: Attempt, second: Attempt, third: Attempt)
    returns (result: Sniffed, peeks: nat)
    modifies r, r.reader
    ensures r.Undelivered() == old(r.Undelivered())
    ensures peeks <= 2
    ensures result.Content? ==>
      && result.verdict != NoClue
      && var stream := old(r.Undelivered());
         exists n :: 0 < n <= Min(BUFFER_SIZE, |stream|) && result.verdict == classify(stream[..n])
    ensures var cached, chunks := old(Flat(r.cache)), old(r.reader.chunks);
      var one, two := FirstPeek(cached, chunks, first), SecondPeek(cached, chunks, first, second);
      result ==
        if first.cancelled then Cancelled
        else if Tells(classify, one) then Content(classify(one))
        else if |one| == BUFFER_SIZE then UnknownContent
        else if second.cancelled then Cancelled
        else if Tells(classify, two) then Content(classify(two))
        else if |two| == BUFFER_SIZE then UnknownContent
        else if third.cancelled then Cancelled
        else TimedOut
  {
    hide Flat, FlatAll, Tells, FirstPeek, Arriving, Remaining;
    ghost var cached, chunks := Flat(r.cache), r.reader.chunks;
    ghost var stream := r.Undelivered();
    peeks := 0;
    while true
      invariant r.Undelivered() == old(r.Undelivered())
      invariant peeks <= 2
      invariant peeks == 0 ==> Flat(r.cache) == cached && r.reader.chunks == chunks
      invariant peeks >= 1 ==>
        var one := FirstPeek(cached, chunks, first);
        !first.cancelled && !Tells(classify, one) && |one| != BUFFER_SIZE
      invariant peeks == 1 ==>
        Flat(r.cache) == cached + Arriving(chunks, Comes(first)) && r.reader.chunks == Remaining(chunks, Comes(first))
      invariant peeks == 2 ==>
        var two := SecondPeek(cached, chunks, first, second);
        !second.cancelled && !Tells(classify, two) && |two| != BUFFER_SIZE
      decreases 2 - peeks
    {
      var attempt := if peeks == 0 then first else if peeks == 1 then second else third;
      if attempt.cancelled {
        return Cancelled, peeks;
      }
      if peeks + 1 > 2 {
        return TimedOut, peeks;
      }
      peeks := peeks + 1;
      var answer, payload := SniffOnce(r, classify, attempt);
      if answer.Some? {
        PeekShows(stream, classify, payload);
        return answer.value, peeks;
      }
    }
  }

  lemma PeekShows(stream: seq<byte>, classify: seq<byte> -> Verdict, payload: seq<byte>)
    requires payload <= stream
    ensures Tells(classify, payload) && |payload| <= BUFFER_SIZE ==>
      && classify(payload) != NoClue
      && exists n :: 0 < n <= Min(BUFFER_SIZE, |stream|) && classify(payload) == classify(stream[..n])
  {
    assert payload == stream[..|payload|];
  }

  /** One attempt: a verdict, a full buffer without a clue, or another round. */
  method SniffOnce(r: CachedReader, classify: seq<byte> -> Verdict, attempt: Attempt)
    returns (answer: Option<Sniffed>, payload: seq<byte>)
    modifies r, r.reader
    ensures r.Undelivered() == old(r.Undelivered())
    ensures payload == FirstPeek(old(Flat(r.cache)), old(r.reader.chunks), attempt)
    ensures payload <= r.Undelivered() && |payload| <= BUFFER_SIZE
    ensures Flat(r.cache) == old(Flat(r.cache)) + Arriving(old(r.reader.chunks), Comes(attempt))
    ensures r.reader.chunks == Remaining(old(r.reader.chunks), Comes(attempt))
    ensures answer == if Tells(classify, payload) then Some(Content(classify(payload)))
                      else if |payload| == BUFFER_SIZE then Some(UnknownContent) else None
  {
    payload := r.Cache(attempt.timed, attempt.arrives);
    if payload != [] {
      var verdict := classify(payload);
      if verdict != NoClue {
        return Some(Content(verdict)), payload;
      }
    }
    answer := if |payload| == BUFFER_SIZE then Some(UnknownContent) else None;
  }

  /******* Direct dispatch *******/

  /** How the user behind a connection is admitted: not a user's connection, turned away, or known to the registry. */
  datatype Admission = Anonymous | Inactive | Known(runtime: UserFlowRuntime, overDeviceLimit: bool)

  datatype Outbound = NoHandler | NotDirect | OpenFails | NotSupported | InvalidLink | Linked

  datatype Request = Request(
    enabled: bool,
    validDestination: bool,
    tcp: bool,
    admission: Admission,
    sniff: bool,
    metadataOnly: bool,
    attempts: (Attempt, Attempt, Attempt),
    outbound: Outbound)

  function RuntimeOf(admission: Admission): (r: set<object>) {
    if admission.Known? then {admission.runtime} else {}
  }

  predicate Admits(admission: Admission) {
    admission.Anonymous? || (admission.Known? && !admission.overDeviceLimit)
  }

  /** Only an enabled direct path with a valid TCP destination asks for a flow. */
  predicate Reaches(req: Request) {
    req.enabled && req.validDestination && req.tcp
  }

  /** No handler, a failed open or an unusable link are errors; an outbound without a direct form is not. */
  predicate Breaks(outbound: Outbound) {
    outbound.NoHandler? || outbound.OpenFails? || outbound.InvalidLink?
  }

  /** A reference is taken exactly when a flow is returned for a managed user. */
  method GetUserIO(admission: Admission) returns (flow: UserIO?)
    requires admission.Known? ==> admission.runtime.active >= 0
    modifies RuntimeOf(admission)
    ensures flow != null <==> Admits(admission)
    ensures flow != null ==>
      && fresh(flow) && !flow.released
      && flow.runtime == if admission.Known? then admission.runtime else null
    ensures admission.Known? ==>
      admission.runtime.active == old(admission.runtime.active) + if flow != null then 1 else 0
  {
    match admission
    case Anonymous =>
      flow := new UserIO(null);
    case Inactive =>
      flow := null;
    case Known(runtime, overDeviceLimit) =>
      runtime.Acquire();
      flow := new UserIO(runtime);
      if overDeviceLimit {
        flow.Release();
        flow := null;
      }
  }

  /**
   * Every outcome hands back a reader for the very stream it was given; without a link the flow's reference is
   * returned as well, with one it is held once.
   */
  method DispatchDirect(req: Request, input: Source, classify: seq<byte> -> Verdict)
    returns (linked: bool, reader: Reader, failed: bool)
    requires req.admission.Known? ==> req.admission.runtime.active >= 0
    modifies input, RuntimeOf(req.admission)
    ensures Denotes(reader) == old(input.Rest())
    ensures if reader.Plain? then reader.source == input else reader.replay.reader == input && fresh(reader.replay)
    ensures req.admission.Known? ==>
      req.admission.runtime.active == old(req.admission.runtime.active) + if linked then 1 else 0
    ensures linked <==> Reaches(req) && Admits(req.admission) && req.outbound.Linked?
    ensures failed <==>
      req.enabled && (!req.validDestination || (req.tcp && (!Admits(req.admission) || Breaks(req.outbound))))
    ensures !req.sniff || req.metadataOnly ==> reader == Plain(input)
  {
    linked, reader, failed := false, Plain(input), false;
    if !req.enabled {
      return;
    }
    if !req.validDestination {
      return false, reader, true;
    }
    if !req.tcp {
      return;
    }
    var flow := GetUserIO(req.admission);
    if flow == null {
      return false, reader, true;
    }
    if req.sniff {
      var cached := new CachedReader(input);
      if !req.metadataOnly {
        var _, _ := Sniff(cached, classify, req.attempts.0, req.attempts.1, req.attempts.2);
      }
      reader := cached.Detach();
    }
    if req.outbound.Linked? {
      return true, reader, false;
    }
    flow.Release();
    failed := !req.outbound.NotDirect? && !req.outbound.NotSupported?;
  }
}
