/** Client.read_body of siem/rbac/collect_server_inventory.py: message framing (section 6.3 of RFC 9112). */
module ServerBody {
  import opened Common

  const MAX_BYTES := 1024 * 1024
  const CHUNK := 65536

  /**
   A response body: the decoded stream, how many bytes the n-th read gives when it could
   give more, and which reads fail.
   */
  datatype Body = Body(stream: seq<byte>, sizes: nat -> nat, failures: nat -> Option<Failure>)

  /** Why a read fails: the deadline has passed, the peer is too slow, or the connection breaks. */
  datatype Failure = Overdue | Timeout | Cut

  function Code(failure: Failure): string {
    match failure
    case Overdue => "DEADLINE"
    case Timeout => "RESPONSE_TIMEOUT"
    case Cut => "RESPONSE_IO"
  }

  /** The framing headers, stripped and lower-cased; the length is `None` when it is not 1 to 20 digits. */
  datatype Framing = Framing(transferEncoding: Option<string>, contentLength: Option<Option<nat>>)

  /** The declared length, or that there is none, or the failure. */
  function Declared(f: Framing): Result<Option<nat>, string> {
    if f.transferEncoding.Some? && !(f.transferEncoding.value == "chunked" && f.contentLength.None?) then Err("HTTP_FRAMING")
    else if f.contentLength.None? then Ok(None)
    else if f.contentLength.value.None? then Err("HTTP_FRAMING")
    else if f.contentLength.value.value > MAX_BYTES then Err("RESPONSE_SIZE")
    else Ok(f.contentLength.value)
  }

  /** What the headers and the stream determine, however the stream is cut up. */
  function Expected(f: Framing, stream: seq<byte>): Result<seq<byte>, string> {
    var declared := Declared(f);
    if declared.Err? then Err(declared.error)
    else if declared.value.None? then if |stream| <= MAX_BYTES then Ok(stream) else Err("RESPONSE_SIZE")
    else if declared.value.value <= |stream| then Ok(stream[..declared.value.value])
    else Err("TRUNCATED_RESPONSE")
  }

  /** How many bytes one read returns. */
  function ChunkSize(body: Body, n: nat, total: nat, amount: nat): (size: nat)
    requires total <= |body.stream| && amount > 0
    ensures size <= amount && total + size <= |body.stream| && (size == 0 <==> total == |body.stream|)
  {
    var most := if amount < |body.stream| - total then amount else |body.stream| - total;
    if body.sizes(n) == 0 && most > 0 then 1 else if body.sizes(n) < most then body.sizes(n) else most
  }

  /** How much the next read asks for. */
  function Amount(declared: Option<nat>, size: nat): (n: nat)
    requires size <= MAX_BYTES && (declared.Some? ==> size < declared.value)
    ensures 0 < n <= MAX_BYTES + 1 - size && (declared.Some? ==> size + n <= declared.value)
  {
    var most := if CHUNK < MAX_BYTES + 1 - size then CHUNK else MAX_BYTES + 1 - size;
    if declared.Some? && declared.value - size < most then declared.value - size else most
  }

  /** How many bytes the loop comes to from its n-th read on, with `size` bytes of the stream read. */
  function ReceivedFrom(declared: Option<nat>, body: Body, n: nat, size: nat): (r: Result<nat, string>)
    requires size <= |body.stream| && size <= MAX_BYTES && (declared.Some? ==> size <= declared.value)
    ensures r.Ok? ==> r.value <= |body.stream| && r.value <= MAX_BYTES
    decreases MAX_BYTES + 1 - size
  {
    if declared == Some(size) then Ok(size)
    else if body.failures(n).Some? then Err(Code(body.failures(n).value))
    else
      var more := ChunkSize(body, n, size, Amount(declared, size));
      if more == 0 then if declared.Some? then Err("TRUNCATED_RESPONSE") else Ok(size)
      else if size + more > MAX_BYTES then Err("RESPONSE_SIZE")
      else ReceivedFrom(declared, body, n + 1, size + more)
  }

  function Received(f: Framing, body: Body): Result<seq<byte>, string> {
    var declared := Declared(f);
    if declared.Err? then Err(declared.error)
    else
      var size := ReceivedFrom(declared.value, body, 0, 0);
      if size.Err? then Err(size.error) else Ok(body.stream[..size.value])
  }

  /** The n-th read fails with this code. */
  predicate FailsWith(body: Body, n: nat, code: string) {
    body.failures(n).Some? && Code(body.failures(n).value) == code
  }

  /** However the stream is cut up, the loop gives what headers and stream determine, or a read's failure. */
  lemma {:induction false} ReceivedFromIsExpected(f: Framing, body: Body, n: nat, size: nat)
    requires Declared(f).Ok? && size <= |body.stream| && size <= MAX_BYTES
    requires Declared(f).value.Some? ==> size <= Declared(f).value.value
    ensures var r := ReceivedFrom(Declared(f).value, body, n, size);
            if r.Ok? then Expected(f, body.stream) == Ok(body.stream[..r.value])
            else Expected(f, body.stream) == Err(r.error) || exists m :: n <= m && FailsWith(body, m, r.error)
    decreases MAX_BYTES + 1 - size
  {
    var declared := Declared(f).value;
    if declared == Some(size) {
    } else if body.failures(n).Some? {
      assert FailsWith(body, n, Code(body.failures(n).value));
    } else {
      var more := ChunkSize(body, n, size, Amount(declared, size));
      if more == 0 {
        assert body.stream[..size] == body.stream;
      } else if size + more <= MAX_BYTES {
        ReceivedFromIsExpected(f, body, n + 1, size + more);
      }
    }
  }

  /** The result is the one the headers and the stream determine, within the limit, unless a read itself fails. */
  lemma ReceivedIsExpected(f: Framing, body: Body)
    ensures var r := Received(f, body);
            && (r == Expected(f, body.stream) || (r.Err? && exists n :: FailsWith(body, n, r.error)))
            && (r.Ok? ==> |r.value| <= MAX_BYTES)
  {
    if Declared(f).Ok? {
      ReceivedFromIsExpected(f, body, 0, 0);
    }
  }

  /** Framing headers that go together: chunked alone, or one well-formed length, or neither. */
  predicate FramingOk(f: Framing) {
    if f.transferEncoding.Some? then f.transferEncoding.value == "chunked" && f.contentLength.None?
    else f.contentLength.None? || f.contentLength.value.Some?
  }

  /**
   When no read fails, a body is received exactly when its framing is sound, and it is then
   as many leading bytes as were declared, or the whole stream, and never above the limit.
   */
  lemma ReceivedExactly(f: Framing, body: Body, bytes: seq<byte>)
    requires forall n :: body.failures(n).None?
    ensures Received(f, body) == Ok(bytes) <==>
            && FramingOk(f) && |bytes| <= MAX_BYTES && bytes <= body.stream
            && |bytes| == if f.contentLength.Some? then f.contentLength.value.value else |body.stream|
  {
    ReceivedIsExpected(f, body);
    assert bytes <= body.stream ==> bytes == body.stream[..|bytes|];
    assert body.stream == body.stream[..|body.stream|];
  }

  const CODES: seq<string> := ["HTTP_FRAMING", "RESPONSE_SIZE", "TRUNCATED_RESPONSE", "DEADLINE", "RESPONSE_TIMEOUT", "RESPONSE_IO"]

  /** The diagnostics of the loop. */
  lemma {:induction false} ReceivedFromCodes(declared: Option<nat>, body: Body, n: nat, size: nat)
    requires size <= |body.stream| && size <= MAX_BYTES && (declared.Some? ==> size <= declared.value)
    ensures var r := ReceivedFrom(declared, body, n, size); r.Err? ==> r.error in CODES
    decreases MAX_BYTES + 1 - size
  {
    if declared != Some(size) && body.failures(n).None? {
      var more := ChunkSize(body, n, size, Amount(declared, size));
      if more != 0 && size + more <= MAX_BYTES {
        ReceivedFromCodes(declared, body, n + 1, size + more);
      }
    }
  }

  lemma ReceivedCodes(f: Framing, body: Body)
    ensures Received(f, body).Err? ==> Received(f, body).error in CODES
  {
    if Declared(f).Ok? {
      ReceivedFromCodes(Declared(f).value, body, 0, 0);
    }
  }

  /** The loop; `asked` is one past the last byte ever requested. */
  method ReadChunks(declared: Option<nat>, body: Body) returns (r: Result<seq<byte>, string>, asked: nat)
    requires declared.Some? ==> declared.value <= MAX_BYTES
    ensures var size := ReceivedFrom(declared, body, 0, 0);
            r == if size.Err? then Err(size.error) else Ok(body.stream[..size.value])
    ensures asked <= MAX_BYTES + 1 && (declared.Some? ==> asked <= declared.value)
  {
    asked := 0;
    var data: seq<byte> := [];
    var n, total := 0, 0;
    ghost var whole := ReceivedFrom(declared, body, 0, 0);
    while declared.None? || total < declared.value
      invariant total <= MAX_BYTES && total <= |body.stream| && (declared.Some? ==> total <= declared.value)
      invariant data == body.stream[..total]
      invariant asked <= MAX_BYTES + 1 && (declared.Some? ==> asked <= declared.value)
      invariant ReceivedFrom(declared, body, n, total) == whole
      decreases MAX_BYTES + 1 - total
    {
      var amount := Amount(declared, total);
      asked := total + amount;
      if body.failures(n).Some? {
        return Err(Code(body.failures(n).value)), asked;
      }
      var more := ChunkSize(body, n, total, amount);
      if more == 0 {
        return if declared.Some? then Err("TRUNCATED_RESPONSE") else Ok(data), asked;
      }
      if total + more > MAX_BYTES {
        return Err("RESPONSE_SIZE"), asked;
      }
      var chunk := body.stream[total..total + more];
      n, total, data := n + 1, total + more, data + chunk;
    }
    r := Ok(data);
  }

  /** `read_body` */
  method ReadBody(f: Framing, body: Body) returns (r: Result<seq<byte>, string>, asked: nat)
    ensures r == Received(f, body)
    ensures (forall n :: body.failures(n).None?) ==> r == Expected(f, body.stream)
    ensures r.Ok? ==> r == Expected(f, body.stream) && |r.value| <= MAX_BYTES
    ensures r.Err? ==> r == Expected(f, body.stream) || exists n :: FailsWith(body, n, r.error)
    ensures Declared(f).Ok? && Declared(f).value.Some? ==> asked <= Declared(f).value.value
    ensures asked <= MAX_BYTES + 1 && (Declared(f).Err? ==> asked == 0)
  {
    var declared := Declared(f);
    if declared.Err? {
      return Err(declared.error), 0;
    }
    r, asked := ReadChunks(declared.value, body);
    ReceivedIsExpected(f, body);
  }
}
