// Length-prefixed messages over a byte stream that is cut into arbitrary chunks: PackageMessage,
// ParseMessageHeader, and the SendData and ReceiveData loops.
module Framing {

  type Byte = x: int | 0 <= x < 256

  type Body = seq<Byte>

  const MAX_BODY := 65536
  const TWO_31 := 0x8000_0000
  const TWO_32 := 0x1_0000_0000

  // ---- the format ----

  // A number below 2^16 as two bytes.
  function Pair(h: int): (b: seq<Byte>)
    requires 0 <= h < 0x1_0000
    ensures |b| == 2 && b[0] as int * 0x100 + b[1] as int == h
  {
    [h / 0x100, h % 0x100]
  }

  // The header of a length: the upper half, then the lower.
  function EncodeLength(n: int): (h: seq<Byte>)
    requires 0 <= n < TWO_32
    ensures |h| == 4
  {
    Pair(n / 0x1_0000) + Pair(n % 0x1_0000)
  }

  function DecodeLength(h: seq<Byte>): (n: int)
    requires |h| == 4
    ensures 0 <= n < TWO_32
  {
    h[0] as int * 0x100_0000 + h[1] as int * 0x1_0000 + h[2] as int * 0x100 + h[3] as int
  }

  lemma HeaderRoundTrip(n: int)
    requires 0 <= n < TWO_32
    ensures DecodeLength(EncodeLength(n)) == n
  {
    assert n == n / 0x1_0000 * 0x1_0000 + n % 0x1_0000;
  }

  // Encoding is injective and onto: every four bytes are the header of exactly one length.
  lemma HeaderIsOnto(h: seq<Byte>)
    requires |h| == 4
    ensures EncodeLength(DecodeLength(h)) == h
  {
    var n := DecodeLength(h);
    var upper, lower := h[0] as int * 0x100 + h[1] as int, h[2] as int * 0x100 + h[3] as int;
    assert n / 0x1_0000 == upper && n % 0x1_0000 == lower;
    assert upper / 0x100 == h[0] && lower / 0x100 == h[2];
  }

  // The first byte in which two headers differ decides.
  predicate Before(a: seq<Byte>, b: seq<Byte>)
    requires |a| == |b|
  {
    a != [] && (a[0] < b[0] || (a[0] == b[0] && Before(a[1..], b[1..])))
  }

  // The most significant byte comes first: headers are ordered as the lengths they stand for.
  lemma HeaderOrder(a: seq<Byte>, b: seq<Byte>)
    requires |a| == |b| == 4
    ensures Before(a, b) <==> DecodeLength(a) < DecodeLength(b)
  {
    var a1, b1 := a[1..], b[1..];
    var a2, b2 := a1[1..], b1[1..];
    var a3, b3 := a2[1..], b2[1..];
    assert Before(a3, b3) <==> a[3] < b[3];
    assert Before(a2, b2) <==> a[2] < b[2] || (a[2] == b[2] && a[3] < b[3]);
    assert Before(a1, b1) <==> a[1] < b[1] || (a[1] == b[1] && Before(a2, b2));
  }

  // The length goes through a uint32_t.
  function Frame(body: Body): (f: seq<Byte>)
    ensures |f| == |body| + 4
  {
    EncodeLength(|body| % TWO_32) + body
  }

  function FrameAll(bodies: seq<Body>): seq<Byte> {
    if bodies == [] then [] else Frame(bodies[0]) + FrameAll(bodies[1..])
  }

  // A shift right by 8k and a mask with 0xFF, as quotient and remainder.
  lemma ShiftedBytes(n: int)
    requires 0 <= n < TWO_32
    ensures n / 0x100_0000 % 0x100 == EncodeLength(n)[0] && n / 0x1_0000 % 0x100 == EncodeLength(n)[1]
    ensures n / 0x100 % 0x100 == EncodeLength(n)[2] && n % 0x100 == EncodeLength(n)[3]
  {
    var h := EncodeLength(n);
    HeaderRoundTrip(n);
    Digits(h[0] as int, h[1] as int, h[2] as int, h[3] as int, n);
  }

  lemma Digits(a: int, b: int, c: int, d: int, n: int)
    requires 0 <= a < 0x100 && 0 <= b < 0x100 && 0 <= c < 0x100 && 0 <= d < 0x100
    requires n == a * 0x100_0000 + b * 0x1_0000 + c * 0x100 + d
    ensures n / 0x100_0000 % 0x100 == a && n / 0x1_0000 % 0x100 == b && n / 0x100 % 0x100 == c && n % 0x100 == d
  {
    assert n / 0x100_0000 == a;
    assert n / 0x1_0000 == a * 0x100 + b;
    assert n / 0x100 == (a * 0x100 + b) * 0x100 + c;
  }

  method PackageMessage(body: Body) returns (frame: seq<Byte>)
    ensures frame == Frame(body)
  {
    var length := |body| % TWO_32;
    ShiftedBytes(length);
    var header: seq<Byte> := [0, 0, 0, 0];
    header := header[0 := length / 0x100_0000 % 0x100];
    header := header[1 := length / 0x1_0000 % 0x100];
    header := header[2 := length / 0x100 % 0x100];
    header := header[3 := length % 0x100];
    frame := header + body;
  }

  method ParseMessageHeader(header: seq<Byte>) returns (length: int)
    requires |header| == 4
    ensures length == DecodeLength(header)
  {
    length := 0;
    length := length + header[0] as int * 0x100_0000;
    length := length + header[1] as int * 0x1_0000;
    length := length + header[2] as int * 0x100;
    length := length + header[3];
  }

  // ---- sockets ----

  // How many bytes a call moves when the environment proposes `chunk`: an error or end of stream if
  // it is not positive, at most what was asked for otherwise.
  function Moved(chunk: int, wanted: nat): int {
    if chunk <= 0 then chunk else if chunk < wanted then chunk else wanted
  }

  // Conversion of a length to `int`.
  function ToInt32(n: nat): int { var m := n % TWO_32; if m < TWO_31 then m else m - TWO_32 }

  class Outbound {
    var sent: seq<Byte>

    method Send(data: seq<Byte>, chunk: int) returns (n: int)
      requires data != []
      modifies this
      ensures n == Moved(chunk, |data|)
      ensures sent == old(sent) + data[..if n <= 0 then 0 else n]
    {
      n := if chunk <= 0 then chunk else if chunk < |data| then chunk else |data|;
      sent := sent + data[..if n <= 0 then 0 else n];
    }
  }

  // How much of a frame SendData takes itself to have to send.
  function Target(frame: seq<Byte>): nat { if ToInt32(|frame|) < 0 then 0 else ToInt32(|frame|) }

  ghost predicate SendOutcome(before: seq<Byte>, after: seq<Byte>, frame: seq<Byte>, ok: bool) {
    exists k: nat :: k <= |frame| && after == before + frame[..k] &&
      if ok then k == Target(frame) else k < Target(frame)
  }

  // SendData. It reports success exactly when it moved as many bytes as the frame's length comes to
  // as an int; a failure leaves a proper prefix of that.
  method SendData(out: Outbound, body: Body, chunks: nat -> int) returns (ok: bool)
    modifies out
    ensures SendOutcome(old(out.sent), out.sent, Frame(body), ok)
    ensures (forall i: nat :: chunks(i) > 0) ==> ok
  {
    var packaged := PackageMessage(body);
    var totalSent, calls := 0, 0;
    var totalLength := ToInt32(|packaged|);
    while totalSent < totalLength
      invariant 0 <= totalSent <= (if totalLength < 0 then 0 else totalLength) <= |packaged|
      invariant out.sent == old(out.sent) + packaged[..totalSent]
      decreases totalLength - totalSent
    {
      var bytesSent := out.Send(packaged[totalSent..totalLength], chunks(calls));
      calls := calls + 1;
      if bytesSent <= 0 {
        return false;
      }
      assert packaged[..totalSent] + packaged[totalSent..totalLength][..bytesSent] == packaged[..totalSent + bytesSent];
      totalSent := totalSent + bytesSent;
    }
    return true;
  }

  // Below 2 GiB "success" is the whole frame. At and above it the length no longer fits and success
  // is reported for less than the frame.
  lemma SuccessIsWholeFrameIff(body: Body)
    ensures Target(Frame(body)) == |Frame(body)| <==> |body| + 4 < TWO_31
    ensures forall before, after :: SendOutcome(before, after, Frame(body), true) && |body| + 4 < TWO_31 ==>
      after == before + Frame(body)
  {
    assert Frame(body)[..|Frame(body)|] == Frame(body);
  }

  class Inbound {
    var rest: seq<Byte>

    // The peer has written `rest` and closed its end.
    method Recv(wanted: nat, chunk: int) returns (n: int, data: seq<Byte>)
      requires wanted > 0
      modifies this
      ensures n == if old(rest) == [] && chunk > 0 then 0 else Moved(chunk, Min(wanted, |old(rest)|))
      ensures data == old(rest)[..if n <= 0 then 0 else n] && rest == old(rest)[if n <= 0 then 0 else n..]
      ensures |data| <= wanted
    {
      var available := if wanted < |rest| then wanted else |rest|;
      n := if rest == [] && chunk > 0 then 0 else Moved(chunk, available);
      data := rest[..if n <= 0 then 0 else n];
      rest := rest[if n <= 0 then 0 else n..];
    }
  }

  // How many bytes each call of a sequence delivers, as far as the environment is concerned.
  datatype Chunks = Chunks(at: nat -> int)

  // ---- one message off a stream ----

  function Min(a: int, b: int): int { if a < b then a else b }

  // What ReceiveData makes of a stream: the body, or [] for its empty-string result, and what is
  // left. The header is whatever one call delivers; `junk` is what its buffer held before.
  function TakeOne(stream: seq<Byte>, headerChunk: int, junk: seq<Byte>): (r: (Body, seq<Byte>))
    requires |junk| == 4
    ensures |r.1| <= |stream| && (r.0 != [] ==> |r.1| < |stream|)
  {
    if stream == [] || headerChunk <= 0 then ([], stream)
    else
      var k := Min(headerChunk, Min(4, |stream|));
      TakeBody(stream[k..], DecodeLength(stream[..k] + junk[k..]))
  }

  function TakeBody(rest: seq<Byte>, length: int): (r: (Body, seq<Byte>))
    ensures |r.1| <= |rest|
  {
    if length <= 0 || length > MAX_BODY then ([], rest)
    else if |rest| < length then ([], [])
    else (rest[..length], rest[length..])
  }

  // The body loop: the pieces do not matter, only whether the stream holds enough.
  method ReceiveBody(inb: Inbound, messageLength: nat, chunks: nat -> int) returns (ok: bool, messageBody: Body)
    modifies inb
    ensures ok ==>
      && messageLength <= |old(inb.rest)| && messageBody == old(inb.rest)[..messageLength]
      && inb.rest == old(inb.rest)[messageLength..]
    ensures !ok && (forall i: nat :: chunks(i) > 0) ==> |old(inb.rest)| < messageLength && inb.rest == []
    ensures |inb.rest| <= |old(inb.rest)|
  {
    ghost var stream := inb.rest;
    var calls := 0;
    messageBody := [];
    while |messageBody| < messageLength
      invariant |messageBody| <= messageLength && |messageBody| <= |stream|
      invariant messageBody == stream[..|messageBody|] && inb.rest == stream[|messageBody|..]
      decreases messageLength - |messageBody|
    {
      var bytesRead, data := inb.Recv(messageLength - |messageBody|, chunks(calls));
      if bytesRead <= 0 {
        return false, messageBody;
      }
      calls := calls + 1;
      messageBody := messageBody + data;
    }
    ok := true;
  }

  // ReceiveData: whatever the cuts in the body, and with a failing body the only other outcome is [].
  method ReceiveData(inb: Inbound, headerChunk: int, bodyChunks: nat -> int, junk: seq<Byte>) returns (body: Body)
    requires |junk| == 4
    modifies inb
    ensures (forall i: nat :: bodyChunks(i) > 0) ==> (body, inb.rest) == TakeOne(old(inb.rest), headerChunk, junk)
    ensures body != [] ==> (body, inb.rest) == TakeOne(old(inb.rest), headerChunk, junk)
  {
    var bytesRead, piece := inb.Recv(4, headerChunk);
    if bytesRead <= 0 {
      return [];
    }
    var messageLength := ParseMessageHeader(piece + junk[bytesRead..]);
    if messageLength == 0 || messageLength > MAX_BODY {
      return [];
    }
    var ok, messageBody := ReceiveBody(inb, messageLength, bodyChunks);
    body := if ok then messageBody else [];
  }

  // ---- the receive loop of HandleClient ----

  // Every message up to the first empty result, when headers arrive whole.
  function TakeAll(stream: seq<Byte>, junk: seq<Byte>): seq<Body>
    requires |junk| == 4
    decreases |stream|
  {
    var (body, rest) := TakeOne(stream, 4, junk);
    if body == [] then [] else [body] + TakeAll(rest, junk)
  }

  // The same, with whatever the header calls deliver.
  function TakeEach(stream: seq<Byte>, headers: Chunks, calls: nat, junk: seq<Byte>): seq<Body>
    requires |junk| == 4
    decreases |stream|
  {
    var (body, rest) := TakeOne(stream, headers.at(calls), junk);
    if body == [] then [] else [body] + TakeEach(rest, headers, calls + 1, junk)
  }

  lemma {:induction false} WholeHeaders(stream: seq<Byte>, headers: Chunks, calls: nat, junk: seq<Byte>)
    requires |junk| == 4 && forall i: nat :: headers.at(i) >= 4
    ensures TakeEach(stream, headers, calls, junk) == TakeAll(stream, junk)
    decreases |stream|
  {
    var (body, rest) := TakeOne(stream, 4, junk);
    assert TakeOne(stream, headers.at(calls), junk) == (body, rest);
    if body != [] { WholeHeaders(rest, headers, calls + 1, junk); }
  }

  // Whatever the calls deliver: the messages up to the first empty result. A call that fails inside
  // a body can only end the loop earlier.
  method ReceiveUntilEmpty(inb: Inbound, headers: Chunks, bodyChunks: nat -> nat -> int, junk: seq<Byte>)
    returns (received: seq<Body>)
    requires |junk| == 4
    modifies inb
    ensures received <= TakeEach(old(inb.rest), headers, 0, junk)
    ensures (forall i: nat, k: nat :: bodyChunks(i)(k) > 0) ==> received == TakeEach(old(inb.rest), headers, 0, junk)
  {
    received := [];
    var calls := 0;
    while true
      invariant received + TakeEach(inb.rest, headers, calls, junk) == TakeEach(old(inb.rest), headers, 0, junk)
      decreases |inb.rest|
    {
      var data := ReceiveData(inb, headers.at(calls), bodyChunks(calls), junk);
      if data == [] {
        return;
      }
      received := received + [data];
      calls := calls + 1;
    }
  }

  // ---- round trip ----

  // The bodies the protocol carries.
  predicate Carried(body: Body) { 1 <= |body| <= MAX_BODY }

  // On a well-formed stream ReceiveData returns the first body and leaves the rest, exactly when the
  // first call delivers the header whole.
  lemma HeaderMustBeWhole(body: Body, rest: seq<Byte>, headerChunk: int, junk: seq<Byte>)
    requires Carried(body) && |junk| == 4
    ensures TakeOne(Frame(body) + rest, headerChunk, junk) == (body, rest) <==> headerChunk >= 4
  {
    if headerChunk >= 4 {
      WholeHeaderTakes(body, rest, headerChunk, junk);
    } else if headerChunk > 0 {
      CutHeaderMisses(body, rest, headerChunk, junk);
    }
  }

  lemma WholeHeaderTakes(body: Body, rest: seq<Byte>, headerChunk: int, junk: seq<Byte>)
    requires Carried(body) && |junk| == 4 && headerChunk >= 4
    ensures TakeOne(Frame(body) + rest, headerChunk, junk) == (body, rest)
  {
    var stream := Frame(body) + rest;
    assert stream[..4] == EncodeLength(|body|);
    TakeWithHeader(body, stream, junk);
    assert stream[4..] == body + rest;
    assert TakeOne(stream, headerChunk, junk) == TakeOne(stream, 4, junk);
  }

  lemma CutHeaderMisses(body: Body, rest: seq<Byte>, headerChunk: int, junk: seq<Byte>)
    requires Carried(body) && |junk| == 4 && 0 < headerChunk < 4
    ensures TakeOne(Frame(body) + rest, headerChunk, junk) != (body, rest)
  {
    var stream := Frame(body) + rest;
    var r := TakeOne(stream, headerChunk, junk);
    assert r.1 == rest && r.0 != [] ==> |r.0| == |stream| - headerChunk - |rest|;
  }

  // A body comes through exactly if it has 1 to 65536 bytes; an empty or a longer one is refused, with
  // its bytes left on the stream.
  lemma BodyIsTakenIff(body: Body, rest: seq<Byte>, junk: seq<Byte>)
    requires |body| < TWO_32 && |junk| == 4
    ensures var r := TakeOne(Frame(body) + rest, 4, junk);
            if 1 <= |body| <= 65536 then r == (body, rest) else r == ([], body + rest)
  {
    if Carried(body) {
      WholeHeaderTakes(body, rest, 4, junk);
    } else {
      var stream := Frame(body) + rest;
      HeaderRoundTrip(|body|);
      assert stream[..4] + junk[4..] == EncodeLength(|body|);
      assert stream[4..] == body + rest;
    }
  }

  // A frame cut short yields nothing.
  lemma TakeCutFrame(body: Body, cut: nat, junk: seq<Byte>)
    requires Carried(body) && cut < |Frame(body)| && |junk| == 4
    ensures TakeOne(Frame(body)[..cut], 4, junk).0 == []
  {
    var stream := Frame(body)[..cut];
    if cut >= 4 {
      assert stream[..4] == Frame(body)[..4] == EncodeLength(|body|);
      TakeWithHeader(body, stream, junk);
      assert stream[4..] == body[..cut - 4];
    } else {
      NothingBehindHeader(stream, junk);
    }
  }

  lemma TakeWithHeader(body: Body, stream: seq<Byte>, junk: seq<Byte>)
    requires Carried(body) && |junk| == 4 && |stream| >= 4 && stream[..4] == EncodeLength(|body|)
    ensures TakeOne(stream, 4, junk) == TakeBody(stream[4..], |body|)
  {
    HeaderRoundTrip(|body|);
    assert stream[..4] + junk[4..] == EncodeLength(|body|);
  }

  lemma NothingBehindHeader(stream: seq<Byte>, junk: seq<Byte>)
    requires |stream| < 4 && |junk| == 4
    ensures TakeOne(stream, 4, junk).0 == []
  {
    assert stream[|stream|..] == [];
  }

  // Messages sent one after the other come out as the same list, even when the last send broke off
  // anywhere inside its frame: a broken send neither adds a message nor spoils an earlier one.
  lemma {:induction false} StreamRoundTrip(bodies: seq<Body>, last: Body, cut: nat, junk: seq<Byte>)
    requires (forall i :: 0 <= i < |bodies| ==> Carried(bodies[i])) && Carried(last)
    requires cut < |Frame(last)| && |junk| == 4
    ensures TakeAll(FrameAll(bodies) + Frame(last)[..cut], junk) == bodies
    decreases |bodies|
  {
    var tail := Frame(last)[..cut];
    if bodies == [] {
      TakeCutFrame(last, cut, junk);
      assert FrameAll(bodies) + tail == tail;
    } else {
      var after := FrameAll(bodies[1..]) + tail;
      assert FrameAll(bodies) + tail == Frame(bodies[0]) + after;
      StreamRoundTrip(bodies[1..], last, cut, junk);
      TakeFirst(bodies[0], after, junk);
      assert bodies == [bodies[0]] + bodies[1..];
    }
  }

  lemma TakeFirst(body: Body, after: seq<Byte>, junk: seq<Byte>)
    requires Carried(body) && |junk| == 4
    ensures TakeAll(Frame(body) + after, junk) == [body] + TakeAll(after, junk)
  {
    WholeHeaderTakes(body, after, 4, junk);
  }

  // Sent whole, a list of messages is received whole.
  lemma WholeStream(bodies: seq<Body>, junk: seq<Byte>)
    requires |junk| == 4 && forall i :: 0 <= i < |bodies| ==> Carried(bodies[i])
    ensures TakeAll(FrameAll(bodies), junk) == bodies
  {
    var one: Body := [0];
    assert FrameAll(bodies) + Frame(one)[..0] == FrameAll(bodies);
    StreamRoundTrip(bodies, one, 0, junk);
  }

  // The wire never mixes two lists up.
  lemma FramingIsInjective(a: seq<Body>, b: seq<Body>)
    requires (forall i :: 0 <= i < |a| ==> Carried(a[i])) && (forall i :: 0 <= i < |b| ==> Carried(b[i]))
    requires FrameAll(a) == FrameAll(b)
    ensures a == b
  {
    WholeStream(a, [0, 0, 0, 0]);
    WholeStream(b, [0, 0, 0, 0]);
  }

  lemma {:induction false} FrameAllAppend(bodies: seq<Body>, last: Body)
    ensures FrameAll(bodies + [last]) == FrameAll(bodies) + Frame(last)
  {
    if bodies == [] {
      assert bodies + [last] == [last] && [last][1..] == [];
    } else {
      var first, others := Frame(bodies[0]), FrameAll(bodies[1..]);
      FrameAllAppend(bodies[1..], last);
      assert (bodies + [last])[1..] == bodies[1..] + [last];
      assert first + (others + Frame(last)) == (first + others) + Frame(last);
    }
  }

  // What `done` sends in a row have left on the stream, and a cut of the one that broke off.
  ghost predicate SentUpTo(before: seq<Byte>, after: seq<Byte>, bodies: seq<Body>, done: nat, cut: nat) {
    && done <= |bodies|
    && if done == |bodies| then after == before + FrameAll(bodies)
       else cut < |Frame(bodies[done])| && after == before + FrameAll(bodies[..done]) + Frame(bodies[done])[..cut]
  }

  // Sequential sends on one socket, up to the first that fails.
  method SendAll(out: Outbound, bodies: seq<Body>, chunks: nat -> nat -> int) returns (done: nat, ghost cut: nat)
    requires forall i :: 0 <= i < |bodies| ==> |bodies[i]| + 4 < TWO_31
    modifies out
    ensures SentUpTo(old(out.sent), out.sent, bodies, done, cut)
    ensures (forall i: nat, k: nat :: chunks(i)(k) > 0) ==> done == |bodies|
  {
    done, cut := 0, 0;
    while done < |bodies|
      invariant done <= |bodies| && out.sent == old(out.sent) + FrameAll(bodies[..done])
    {
      ghost var before := out.sent;
      var ok := SendData(out, bodies[done], chunks(done));
      SuccessIsWholeFrameIff(bodies[done]);
      if !ok {
        cut :| cut < |Frame(bodies[done])| && out.sent == before + Frame(bodies[done])[..cut];
        return;
      }
      FrameAllAppend(bodies[..done], bodies[done]);
      assert bodies[..done + 1] == bodies[..done] + [bodies[done]];
      done := done + 1;
    }
    assert bodies[..done] == bodies;
  }

  // The two ends of one connection: what was sent whole is received, in order, and nothing else; if
  // no send fails that is everything.
  method Exchange(out: Outbound, inb: Inbound, bodies: seq<Body>, chunks: nat -> nat -> int,
                  headers: Chunks, bodyChunks: nat -> nat -> int, junk: seq<Byte>)
    returns (done: nat, received: seq<Body>)
    requires |junk| == 4 && out.sent == [] && forall i :: 0 <= i < |bodies| ==> 1 <= |bodies[i]| <= 65536
    requires forall i: nat :: headers.at(i) >= 4
    requires forall i: nat, k: nat :: bodyChunks(i)(k) > 0
    modifies out, inb
    ensures done <= |bodies| && received == bodies[..done]
    ensures (forall i: nat, k: nat :: chunks(i)(k) > 0) ==> received == bodies
  {
    ghost var cut;
    done, cut := SendAll(out, bodies, chunks);
    inb.rest := out.sent;
    received := ReceiveUntilEmpty(inb, headers, bodyChunks, junk);
    WholeHeaders(out.sent, headers, 0, junk);
    ReceivedIs(out.sent, bodies, done, cut, junk);
  }

  lemma ReceivedIs(stream: seq<Byte>, bodies: seq<Body>, done: nat, cut: nat, junk: seq<Byte>)
    requires |junk| == 4 && (forall i :: 0 <= i < |bodies| ==> Carried(bodies[i])) &&
      SentUpTo([], stream, bodies, done, cut)
    ensures TakeAll(stream, junk) == bodies[..done]
  {
    if done == |bodies| {
      assert stream == FrameAll(bodies) && bodies[..done] == bodies;
      WholeStream(bodies, junk);
    } else {
      var first, last := bodies[..done], bodies[done];
      assert stream == FrameAll(first) + Frame(last)[..cut];
      StreamRoundTrip(first, last, cut, junk);
    }
  }
}
