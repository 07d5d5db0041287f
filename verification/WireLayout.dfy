/** The packed records of the order connection, byte by byte
    (src/include/order_gateway/client_request.hpp, src/include/order_gateway/client_response.hpp). */
module WireLayout {
  import opened Types
  import opened Framing

  const TWO_63: int := 0x8000_0000_0000_0000
  const TWO_64: nat := 0x1_0000_0000_0000_0000

  // ---------------------------------------------------------------- numbers as bytes, lowest first

  function Pow256(n: nat): (r: nat)
    ensures 0 < r
  {
    if n == 0 then 1 else 256 * Pow256(n - 1)
  }

  function Bytes(x: nat, n: nat): (r: seq<Byte>)
    ensures |r| == n
  {
    if n == 0 then [] else [x % 256] + Bytes(x / 256, n - 1)
  }

  function Value(bs: seq<Byte>): nat {
    if bs == [] then 0 else bs[0] + 256 * Value(bs[1..])
  }

  /** A number that fits in `n` bytes survives them. */
  lemma {:induction false} BytesRoundTrip(x: nat, n: nat)
    requires x < Pow256(n)
    ensures Value(Bytes(x, n)) == x
    decreases n
  {
    if n > 0 {
      BytesRoundTrip(x / 256, n - 1);
      assert Bytes(x, n)[1..] == Bytes(x / 256, n - 1);
    }
  }

  // ---------------------------------------------------------------- fields one after the other

  function Sum(widths: seq<nat>): nat {
    if widths == [] then 0 else widths[0] + Sum(widths[1..])
  }

  function Pack(widths: seq<nat>, values: seq<nat>): (r: seq<Byte>)
    requires |values| == |widths|
    ensures |r| == Sum(widths)
  {
    if widths == [] then [] else Bytes(values[0], widths[0]) + Pack(widths[1..], values[1..])
  }

  function Unpack(widths: seq<nat>, bs: seq<Byte>): (r: seq<nat>)
    requires |bs| == Sum(widths)
    ensures |r| == |widths|
  {
    if widths == [] then []
    else [Value(bs[..widths[0]])] + Unpack(widths[1..], bs[widths[0]..])
  }

  /** Fields that fit their widths survive the record. */
  lemma {:induction false} PackRoundTrip(widths: seq<nat>, values: seq<nat>)
    requires |values| == |widths| && forall i :: 0 <= i < |widths| ==> values[i] < Pow256(widths[i])
    ensures Unpack(widths, Pack(widths, values)) == values
  {
    if widths != [] {
      var bs := Pack(widths, values);
      BytesRoundTrip(values[0], widths[0]);
      PackRoundTrip(widths[1..], values[1..]);
      assert bs[..widths[0]] == Bytes(values[0], widths[0]);
      assert bs[widths[0]..] == Pack(widths[1..], values[1..]);
    }
  }

  lemma Widths()
    ensures Pow256(1) == 256 && Pow256(4) == TWO_32 && Pow256(8) == TWO_64
  {
    assert Pow256(1) == 256 * Pow256(0);
    assert Pow256(2) == 256 * Pow256(1);
    assert Pow256(3) == 256 * Pow256(2);
    assert Pow256(4) == 256 * Pow256(3);
    assert Pow256(5) == 256 * Pow256(4);
    assert Pow256(6) == 256 * Pow256(5);
    assert Pow256(7) == 256 * Pow256(6);
    assert Pow256(8) == 256 * Pow256(7);
  }

  /** A 64-bit price in two's complement, and back. */
  function PriceBits(price: int): nat
    requires -TWO_63 <= price < TWO_63
  {
    if price < 0 then price + TWO_64 else price
  }

  function PriceOf(bits: nat): int {
    if bits < TWO_63 then bits else bits - TWO_64
  }

  function SideByte(s: Option<Side>): Byte {
    match s
    case None => 0
    case Some(Buy) => 1
    case Some(Sell) => 255
  }

  function SideOf(b: nat): Option<Side> {
    if b == 1 then Some(Buy) else if b == 255 then Some(Sell) else None
  }

  /** Numbers go lowest byte first. */
  lemma LowestFirst(x: nat, n: nat)
    requires n > 0
    ensures Bytes(x, n)[0] == x % 256 && Bytes(x, n)[1..] == Bytes(x / 256, n - 1)
  {
  }

  lemma {:induction false} PackFirst(widths: seq<nat>, values: seq<nat>, w: nat, v: nat, ws: seq<nat>, vs: seq<nat>)
    requires |ws| == |vs| && widths == [w] + ws && values == [v] + vs
    ensures Pack(widths, values) == Bytes(v, w) + Pack(ws, vs)
  {
    assert widths[1..] == ws && values[1..] == vs;
  }

  lemma {:induction false} PackFour(ws: seq<nat>, vs: seq<nat>)
    requires |ws| == |vs| == 4
    ensures Pack(ws, vs) == Bytes(vs[0], ws[0]) + Bytes(vs[1], ws[1]) + Bytes(vs[2], ws[2]) + Bytes(vs[3], ws[3])
  {
    PackFirst(ws, vs, ws[0], vs[0], ws[1..], vs[1..]);
    PackFirst(ws[1..], vs[1..], ws[1], vs[1], ws[2..], vs[2..]);
    PackFirst(ws[2..], vs[2..], ws[2], vs[2], ws[3..], vs[3..]);
    PackFirst(ws[3..], vs[3..], ws[3], vs[3], [], []);
  }

  lemma {:induction false} PackParts(ws: seq<nat>, vs: seq<nat>, k: nat)
    requires |ws| == |vs| && k <= |ws|
    ensures Pack(ws, vs) == Pack(ws[..k], vs[..k]) + Pack(ws[k..], vs[k..])
  {
    if k > 0 {
      PackParts(ws[1..], vs[1..], k - 1);
      assert ws[..k][1..] == ws[1..][..k - 1] && vs[..k][1..] == vs[1..][..k - 1];
      assert ws[1..][k - 1..] == ws[k..] && vs[1..][k - 1..] == vs[k..];
      Grouped(Bytes(vs[0], ws[0]), Pack(ws[..k][1..], vs[..k][1..]), Pack(ws[k..], vs[k..]));
    } else {
      assert ws[0..] == ws && vs[0..] == vs;
    }
  }

  // ---------------------------------------------------------------- OMClientRequest

  const REQUEST_WIDTHS: seq<nat> := [8, 1, 4, 4, 8, 1, 8, 4]

  predicate RequestFits(m: Numbered<ClientRequest>) {
    var r := m.body;
    && m.seqNum < TWO_64 && r.client < TWO_32 && r.ticker < TWO_32 && r.orderId < TWO_64
    && -TWO_63 <= r.price < TWO_63 && r.qty < TWO_32
  }

  function RequestFields(m: Numbered<ClientRequest>): (r: seq<nat>)
    requires RequestFits(m)
    ensures |r| == 8
  {
    [ m.seqNum, if m.body.kind == New then 1 else 2, m.body.client, m.body.ticker, m.body.orderId,
      SideByte(Some(m.body.side)), PriceBits(m.body.price), m.body.qty ]
  }

  function RequestOf(fs: seq<nat>): Numbered<ClientRequest>
    requires |fs| == 8
  {
    Numbered(fs[0], ClientRequest(if fs[1] == 1 then New else CancelOrder, fs[2], fs[3], fs[4],
                                  if fs[5] == 1 then Buy else Sell, PriceOf(fs[6]), fs[7]))
  }

  function EncodeRequest(m: Numbered<ClientRequest>): seq<Byte> {
    if RequestFits(m) then Pack(REQUEST_WIDTHS, RequestFields(m)) else []
  }

  function DecodeRequest(bs: seq<Byte>): Numbered<ClientRequest> {
    if |bs| == Sum(REQUEST_WIDTHS) then RequestOf(Unpack(REQUEST_WIDTHS, bs))
    else Numbered(0, ClientRequest(New, 0, 0, 0, Buy, 0, 0))
  }

  const REQUESTS: Codec<Numbered<ClientRequest>> := Codec(38, RequestFits, EncodeRequest, DecodeRequest)

  lemma {:induction false} RequestFieldsFit(m: Numbered<ClientRequest>)
    requires RequestFits(m)
    ensures forall i :: 0 <= i < |REQUEST_WIDTHS| ==> RequestFields(m)[i] < Pow256(REQUEST_WIDTHS[i])
  {
    Widths();
  }

  lemma {:induction false} RequestFieldsBack(m: Numbered<ClientRequest>)
    requires RequestFits(m)
    ensures RequestOf(RequestFields(m)) == m
  {
  }

  lemma RequestRoundTrip(m: Numbered<ClientRequest>)
    requires RequestFits(m)
    ensures |EncodeRequest(m)| == 38 && DecodeRequest(EncodeRequest(m)) == m
  {
    RequestSize();
    RequestFieldsFit(m);
    RequestFieldsBack(m);
    PackRoundTrip(REQUEST_WIDTHS, RequestFields(m));
  }

  lemma RequestSize()
    ensures Sum(REQUEST_WIDTHS) == 38
  {
    assert Sum([8, 4]) == 12;
    assert Sum([8, 1, 8, 4]) == 21;
    assert Sum([4, 4, 8, 1, 8, 4]) == 29;
  }

  /** The request record, field by field: the order, the widths and the codes of the packed structs. */
  lemma RequestBytes(m: Numbered<ClientRequest>)
    requires RequestFits(m)
    ensures EncodeRequest(m)
            == (Bytes(m.seqNum, 8) + Bytes(if m.body.kind == New then 1 else 2, 1) + Bytes(m.body.client, 4) + Bytes(m.body.ticker, 4))
               + (Bytes(m.body.orderId, 8) + Bytes(if m.body.side == Buy then 1 else 255, 1)
                  + Bytes(if m.body.price < 0 then m.body.price + TWO_64 else m.body.price, 8) + Bytes(m.body.qty, 4))
  {
    var ws, vs := REQUEST_WIDTHS, RequestFields(m);
    PackParts(ws, vs, 4);
    PackFour(ws[..4], vs[..4]);
    PackFour(ws[4..], vs[4..]);
  }

  /** Requests whose fields fit their types survive the wire. */
  lemma RequestsAreLawful()
    ensures Lawful(REQUESTS)
  {
    forall m | REQUESTS.fits(m) ensures |REQUESTS.encode(m)| == REQUESTS.size && REQUESTS.decode(REQUESTS.encode(m)) == m {
      RequestRoundTrip(m);
    }
  }

  // ---------------------------------------------------------------- OMClientResponse

  const RESPONSE_WIDTHS: seq<nat> := [8, 1, 4, 4, 8, 8, 1, 8, 4, 4]

  predicate ResponseFits(m: Numbered<ClientResponse>) {
    var r := m.body;
    && m.seqNum < TWO_64 && r.client < TWO_32 && r.ticker < TWO_32 && r.clientOid < TWO_64 && r.marketOid < TWO_64
    && -TWO_63 <= r.price < TWO_63 && r.execQty < TWO_32 && r.leavesQty < TWO_32
  }

  function KindByte(k: ResponseType): Byte {
    match k
    case Accepted => 1
    case Canceled => 2
    case Filled => 3
    case CancelRejected => 4
  }

  function KindOf(b: nat): ResponseType {
    if b == 1 then Accepted else if b == 2 then Canceled else if b == 3 then Filled else CancelRejected
  }

  function ResponseFields(m: Numbered<ClientResponse>): (r: seq<nat>)
    requires ResponseFits(m)
    ensures |r| == 10
  {
    [ m.seqNum, KindByte(m.body.kind), m.body.client, m.body.ticker, m.body.clientOid, m.body.marketOid,
      SideByte(m.body.side), PriceBits(m.body.price), m.body.execQty, m.body.leavesQty ]
  }

  function ResponseOf(fs: seq<nat>): Numbered<ClientResponse>
    requires |fs| == 10
  {
    Numbered(fs[0], ClientResponse(KindOf(fs[1]), fs[2], fs[3], fs[4], fs[5], SideOf(fs[6]), PriceOf(fs[7]), fs[8], fs[9]))
  }

  function EncodeResponse(m: Numbered<ClientResponse>): seq<Byte> {
    if ResponseFits(m) then Pack(RESPONSE_WIDTHS, ResponseFields(m)) else []
  }

  function DecodeResponse(bs: seq<Byte>): Numbered<ClientResponse> {
    if |bs| == Sum(RESPONSE_WIDTHS) then ResponseOf(Unpack(RESPONSE_WIDTHS, bs))
    else Numbered(0, ClientResponse(CancelRejected, 0, 0, 0, 0, None, 0, 0, 0))
  }

  const RESPONSES: Codec<Numbered<ClientResponse>> := Codec(50, ResponseFits, EncodeResponse, DecodeResponse)

  lemma {:induction false} ResponseFieldsFit(m: Numbered<ClientResponse>)
    requires ResponseFits(m)
    ensures forall i :: 0 <= i < |RESPONSE_WIDTHS| ==> ResponseFields(m)[i] < Pow256(RESPONSE_WIDTHS[i])
  {
    Widths();
  }

  lemma ResponseFieldsBack(m: Numbered<ClientResponse>)
    requires ResponseFits(m)
    ensures ResponseOf(ResponseFields(m)) == m
  {
  }

  lemma ResponseRoundTrip(m: Numbered<ClientResponse>)
    requires ResponseFits(m)
    ensures |EncodeResponse(m)| == 50 && DecodeResponse(EncodeResponse(m)) == m
  {
    ResponseSize();
    ResponseFieldsFit(m);
    ResponseFieldsBack(m);
    PackRoundTrip(RESPONSE_WIDTHS, ResponseFields(m));
  }

  lemma ResponseSize()
    ensures Sum(RESPONSE_WIDTHS) == 50
  {
    assert Sum([4, 4]) == 8;
    assert Sum([1, 8, 4, 4]) == 17;
    assert Sum([8, 8, 1, 8, 4, 4]) == 33;
    assert Sum([4, 4, 8, 8, 1, 8, 4, 4]) == 41;
  }

  /** The response record, field by field. */
  lemma ResponseBytes(m: Numbered<ClientResponse>)
    requires ResponseFits(m)
    ensures EncodeResponse(m)
            == (Bytes(m.seqNum, 8)
                + Bytes(match m.body.kind case Accepted => 1 case Canceled => 2 case Filled => 3 case CancelRejected => 4, 1)
                + Bytes(m.body.client, 4) + Bytes(m.body.ticker, 4))
               + ((Bytes(m.body.clientOid, 8) + Bytes(m.body.marketOid, 8)
                   + Bytes(if m.body.side == None then 0 else if m.body.side.value == Buy then 1 else 255, 1)
                   + Bytes(if m.body.price < 0 then m.body.price + TWO_64 else m.body.price, 8))
                  + (Bytes(m.body.execQty, 4) + Bytes(m.body.leavesQty, 4)))
  {
    var ws, vs := RESPONSE_WIDTHS, ResponseFields(m);
    PackParts(ws, vs, 4);
    PackFour(ws[..4], vs[..4]);
    var rest, more := ws[4..], vs[4..];
    PackParts(rest, more, 4);
    PackFour(rest[..4], more[..4]);
    PackFirst(rest[4..], more[4..], 4, m.body.execQty, [4], [m.body.leavesQty]);
    PackFirst([4], [m.body.leavesQty], 4, m.body.leavesQty, [], []);
  }

  /** Responses whose fields fit their types survive the wire. */
  lemma ResponsesAreLawful()
    ensures Lawful(RESPONSES)
  {
    forall m | RESPONSES.fits(m)
      ensures |RESPONSES.encode(m)| == RESPONSES.size && RESPONSES.decode(RESPONSES.encode(m)) == m
    {
      ResponseRoundTrip(m);
    }
  }
}
