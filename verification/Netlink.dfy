/**
 Netlink messages and attributes (section 2.3.2 of RFC 3549 for the message header): the encoders and the two
 scanning loops.
 */
module Netlink {

  type Byte = x: int | 0 <= x < 256

  type Bytes = seq<Byte>

  /** The byte order of the host. */
  datatype Endian = Little | Big

  const NLMSG_HDR_LEN := 16
  const NLMSG_ERROR := 2
  const NLA_HDR_LEN := 4
  const NLA_TYPES := 0x4000      // nla_type without its two flag bits
  const GENL_HDR_LEN := 4

  type U8 = x: nat | x < 0x100
  type U16 = x: nat | x < 0x1_0000
  type U32 = x: nat | x < 0x1_0000_0000

  // ---- fixed-width numbers ----

  function Put16(e: Endian, n: U16): (b: Bytes)
    ensures |b| == 2
  {
    if e.Little? then [n % 256, n / 256] else [n / 256, n % 256]
  }

  function Get16(e: Endian, b: Bytes): U16
    requires |b| == 2
  {
    if e.Little? then Pair(b[0], b[1]) else Pair(b[1], b[0])
  }

  function Pair(lo: int, hi: int): int {
    lo + 256 * hi
  }

  function Put32(e: Endian, n: U32): (b: Bytes)
    ensures |b| == 4
  {
    if e.Little? then Put16(e, n % 0x1_0000) + Put16(e, n / 0x1_0000)
    else Put16(e, n / 0x1_0000) + Put16(e, n % 0x1_0000)
  }

  function Get32(e: Endian, b: Bytes): U32
    requires |b| == 4
  {
    if e.Little? then Get16(e, b[..2]) + 0x1_0000 * Get16(e, b[2..])
    else Get16(e, b[2..]) + 0x1_0000 * Get16(e, b[..2])
  }

  lemma GetPut16(e: Endian, n: U16)
    ensures Get16(e, Put16(e, n)) == n
  {
  }

  lemma GetPut32(e: Endian, n: U32)
    ensures Get32(e, Put32(e, n)) == n
  {
    var lo, hi := n % 0x1_0000, n / 0x1_0000;
    GetPut16(e, lo);
    GetPut16(e, hi);
    var b := Put32(e, n);
    if e.Little? { assert b[..2] == Put16(e, lo) && b[2..] == Put16(e, hi); }
    else { assert b[..2] == Put16(e, hi) && b[2..] == Put16(e, lo); }
  }

  function Min(a: nat, b: nat): nat {
    if a < b then a else b
  }

  /** align4 */
  function Align4(n: nat): (r: nat)
    ensures n <= r < n + 4 && r % 4 == 0
  {
    (n + 3) / 4 * 4
  }

  function Zeros(n: nat): (b: Bytes)
    ensures |b| == n && forall i :: 0 <= i < n ==> b[i] == 0
  {
    seq<Byte>(n, i => 0)
  }

  /** Bytes with the padding after them. */
  function Padded(b: Bytes): (r: Bytes)
    ensures |r| == Align4(|b|) && r[..|b|] == b
  {
    b + Zeros(Align4(|b|) - |b|)
  }

  // ---- attributes ----

  datatype Attr = Attr(typ: U16, value: Bytes)

  predicate AttrOk(a: Attr) {
    NLA_HDR_LEN + |a.value| < 0x1_0000
  }

  function AttrBytes(e: Endian, a: Attr): Bytes
    requires AttrOk(a)
  {
    Put16(e, NLA_HDR_LEN + |a.value|) + Put16(e, a.typ) + a.value
  }

  datatype Found = NotFound | Value(value: Bytes) | Short

  /** findAttr */
  function FindAttr(e: Endian, buf: Bytes, want: U16): Found {
    if buf == [] then NotFound
    else if |buf| < NLA_HDR_LEN then Short
    else
      var len := Get16(e, buf[0..2]);
      var typ := Get16(e, buf[2..4]) % NLA_TYPES;
      if len < NLA_HDR_LEN || len > |buf| then Short
      else if typ == want then Value(buf[NLA_HDR_LEN..len])
      else FindAttr(e, buf[Min(Align4(len), |buf|)..], want)
  }

  method FindAttrLoop(e: Endian, input: Bytes, want: U16) returns (r: Found)
    ensures r == FindAttr(e, input, want)
    ensures r.Value? ==> exists lo: nat, hi: nat :: lo <= hi <= |input| && r.value == input[lo..hi]
  {
    var buf := input;
    ghost var off: nat := 0;
    while |buf| > 0
      invariant off <= |input| && buf == input[off..]
      invariant FindAttr(e, buf, want) == FindAttr(e, input, want)
      decreases |buf|
    {
      if |buf| < NLA_HDR_LEN { return Short; }
      var attrLen := Get16(e, buf[0..2]);
      var attrType := Get16(e, buf[2..4]) % NLA_TYPES;
      if attrLen < NLA_HDR_LEN || attrLen > |buf| { return Short; }
      if attrType == want {
        assert buf[NLA_HDR_LEN..attrLen] == input[off + NLA_HDR_LEN..off + attrLen];
        return Value(buf[NLA_HDR_LEN..attrLen]);
      }
      var next := Min(Align4(attrLen), |buf|);
      assert buf[next..] == input[off + next..];
      off := off + next;
      buf := buf[next..];
    }
    return NotFound;
  }

  /** The first attribute of the wanted type. */
  function FirstOf(attrs: seq<Attr>, want: U16): Found {
    if attrs == [] then NotFound
    else if attrs[0].typ % NLA_TYPES == want then Value(attrs[0].value)
    else FirstOf(attrs[1..], want)
  }

  predicate AttrsOk(attrs: seq<Attr>) {
    forall i :: 0 <= i < |attrs| ==> AttrOk(attrs[i])
  }

  /** The buffer holds the attributes in order, each one aligned; the last may lack some or all of its padding. */
  predicate AttrsIn(e: Endian, attrs: seq<Attr>, buf: Bytes)
    requires AttrsOk(attrs)
  {
    if attrs == [] then buf == []
    else
      var raw := AttrBytes(e, attrs[0]);
      && raw <= buf
      && if |attrs| == 1 then |buf| <= Align4(|raw|)
         else Align4(|raw|) < |buf| && AttrsIn(e, attrs[1..], buf[Align4(|raw|)..])
  }

  /** What the loop reads at the front of a buffer that starts with an attribute. */
  lemma AttrAtFront(e: Endian, a: Attr, buf: Bytes)
    requires AttrOk(a) && AttrBytes(e, a) <= buf
    ensures var len := NLA_HDR_LEN + |a.value|;
            && |AttrBytes(e, a)| == len <= |buf|
            && Get16(e, buf[0..2]) == len && Get16(e, buf[2..4]) == a.typ && buf[NLA_HDR_LEN..len] == a.value
  {
    hide Get16, Put16;
    var len := NLA_HDR_LEN + |a.value|;
    var h, t := Put16(e, len), Put16(e, a.typ);
    var raw := AttrBytes(e, a);
    assert raw == h + t + a.value;
    GetPut16(e, len);
    GetPut16(e, a.typ);
    assert buf[..len] == raw;
    assert buf[0..2] == raw[0..2] == h;
    assert buf[2..4] == raw[2..4] == t;
    assert buf[4..len] == raw[4..len] == a.value;
  }

  /** findAttr on a buffer that holds a list answers as the list does, padded to the end or not. */
  lemma {:induction false} FindsFirst(e: Endian, attrs: seq<Attr>, buf: Bytes, want: U16)
    requires AttrsOk(attrs) && AttrsIn(e, attrs, buf)
    ensures FindAttr(e, buf, want) == FirstOf(attrs, want)
  {
    hide Get16, Put16, AttrBytes, Align4;
    if attrs != [] {
      AttrAtFront(e, attrs[0], buf);
      var rest := buf[Min(Align4(NLA_HDR_LEN + |attrs[0].value|), |buf|)..];
      FindsFirst(e, attrs[1..], rest, want);
    }
  }

  lemma PutGet16(e: Endian, b: Bytes)
    requires |b| == 2
    ensures Put16(e, Get16(e, b)) == b
  {
  }

  /** A whole attribute at the front of a buffer is the encoding of one. */
  lemma AttrRead(e: Endian, buf: Bytes, len: U16) returns (a: Attr)
    requires NLA_HDR_LEN <= len <= |buf| && Get16(e, buf[0..2]) == len
    ensures a == Attr(Get16(e, buf[2..4]), buf[NLA_HDR_LEN..len]) && AttrOk(a) && AttrBytes(e, a) == buf[..len]
  {
    hide Get16, Put16;
    a := Attr(Get16(e, buf[2..4]), buf[NLA_HDR_LEN..len]);
    PutGet16(e, buf[0..2]);
    PutGet16(e, buf[2..4]);
    assert buf[..len] == buf[0..2] + buf[2..4] + buf[4..len];
  }

  /**
   An answer that is not an error comes from a list of attributes that the buffer starts with, and this list ends
   where the buffer does when nothing is found.
   */
  lemma {:induction false} FoundInList(e: Endian, buf: Bytes, want: U16) returns (attrs: seq<Attr>, end: nat)
    requires !FindAttr(e, buf, want).Short?
    ensures end <= |buf| && AttrsOk(attrs) && AttrsIn(e, attrs, buf[..end])
    ensures FirstOf(attrs, want) == FindAttr(e, buf, want)
    ensures FindAttr(e, buf, want).NotFound? ==> end == |buf|
    ensures (attrs == []) == (buf == [])
    decreases |buf|
  {
    hide Get16, Put16, AttrBytes, Align4;
    if buf == [] { return [], 0; }
    var len := Get16(e, buf[0..2]);
    var a := AttrRead(e, buf, len);
    var next := Min(Align4(len), |buf|);
    if a.typ % NLA_TYPES == want {
      attrs, end := [a], len;
      assert buf[..end] == AttrBytes(e, a);
    } else {
      var more, stop := FoundInList(e, buf[next..], want);
      attrs, end := [a] + more, next + stop;
      assert attrs[1..] == more && buf[..end][next..] == buf[next..][..stop];
      assert buf[..end][..len] == buf[..len];
      if more != [] { InNonEmpty(e, more, buf[next..][..stop]); }
    }
  }

  lemma InNonEmpty(e: Endian, attrs: seq<Attr>, buf: Bytes)
    requires AttrsOk(attrs) && attrs != [] && AttrsIn(e, attrs, buf)
    ensures buf != []
  {
    hide Align4;
    assert |AttrBytes(e, attrs[0])| >= 4;
  }

  // ---- messages ----

  datatype Msg = Msg(typ: U16, flags: U16, seqno: U32, pid: U32, payload: Bytes)

  predicate MsgOk(m: Msg) {
    NLMSG_HDR_LEN + |m.payload| < 0x1_0000_0000
  }

  function MsgHeader(e: Endian, m: Msg): (b: Bytes)
    requires MsgOk(m)
    ensures |b| == NLMSG_HDR_LEN
  {
    Put32(e, NLMSG_HDR_LEN + |m.payload|) + Put16(e, m.typ) + Put16(e, m.flags) + Put32(e, m.seqno) + Put32(e, m.pid)
  }

  function MsgBytes(e: Endian, m: Msg): Bytes
    requires MsgOk(m)
  {
    MsgHeader(e, m) + m.payload
  }

  /** What the parser of one payload answers. */
  datatype Parsed<T> = Miss | Hit(value: T) | Bad

  /** What a scan of a buffer answers. */
  datatype Reply<T> = Missing | Got(value: T) | Truncated | Errno(code: nat) | Invalid

  /** A non-zero error code without its sign. */
  function ErrnoOf(code: U32): nat {
    if code >= 0x8000_0000 then 0x1_0000_0000 - code else code
  }

  /** One message whose sequence number is the wanted one: an answer, or None to go on. */
  datatype Answer<T> = Continue | Done(reply: Reply<T>)

  function Handle<T>(e: Endian, typ: U16, payload: Bytes, parse: Bytes -> Parsed<T>): Answer<T> {
    if typ == NLMSG_ERROR then
      if |payload| < 4 then Done(Truncated)
      else
        var code := Get32(e, payload[0..4]);
        if code == 0 then Continue else Done(Errno(ErrnoOf(code)))
    else
      match parse(payload)
      case Miss => Continue
      case Hit(v) => Done(Got(v))
      case Bad => Done(Invalid)
  }

  /** findReply */
  function FindReply<T>(e: Endian, buf: Bytes, want: U32, parse: Bytes -> Parsed<T>): Reply<T> {
    if buf == [] then Missing
    else if |buf| < NLMSG_HDR_LEN then Truncated
    else
      var len := Get32(e, buf[0..4]);
      if len < NLMSG_HDR_LEN || len > |buf| then Truncated
      else
        var rest := buf[Min(Align4(len), |buf|)..];
        var answer := if Get32(e, buf[8..12]) != want then Continue
                      else Handle(e, Get16(e, buf[4..6]), buf[NLMSG_HDR_LEN..len], parse);
        if answer.Continue? then FindReply(e, rest, want, parse) else answer.reply
  }

  /** One round of findReply on a buffer that starts with a whole message. */
  lemma ReplyRound<T>(e: Endian, buf: Bytes, want: U32, parse: Bytes -> Parsed<T>, len: nat)
    requires |buf| >= NLMSG_HDR_LEN && len == Get32(e, buf[0..4]) && NLMSG_HDR_LEN <= len <= |buf|
    ensures var rest := FindReply(e, buf[Min(Align4(len), |buf|)..], want, parse);
            var answer := Handle(e, Get16(e, buf[4..6]), buf[NLMSG_HDR_LEN..len], parse);
            FindReply(e, buf, want, parse) ==
              if Get32(e, buf[8..12]) != want || answer.Continue? then rest else answer.reply
  {
    hide Get16, Get32, Handle, Align4;
  }

  lemma ReplyEnds<T>(e: Endian, buf: Bytes, want: U32, parse: Bytes -> Parsed<T>)
    ensures buf == [] ==> FindReply(e, buf, want, parse) == Missing
    ensures 0 < |buf| < NLMSG_HDR_LEN ==> FindReply(e, buf, want, parse) == Truncated
    ensures |buf| >= NLMSG_HDR_LEN && !(NLMSG_HDR_LEN <= Get32(e, buf[0..4]) <= |buf|) ==>
      FindReply(e, buf, want, parse) == Truncated
  {
    hide Get16, Get32, Handle, Align4;
  }

  method FindReplyLoop<T>(e: Endian, input: Bytes, want: U32, parse: Bytes -> Parsed<T>) returns (r: Reply<T>)
    ensures r == FindReply(e, input, want, parse)
    ensures r.Got? ==> exists lo: nat, hi: nat :: lo <= hi <= |input| && parse(input[lo..hi]) == Hit(r.value)
  {
    hide Get16, Get32, Align4, FindReply;
    var buf := input;
    ghost var off: nat := 0;
    while |buf| > 0
      invariant off <= |input| && buf == input[off..]
      invariant FindReply(e, buf, want, parse) == FindReply(e, input, want, parse)
      decreases |buf|
    {
      ReplyEnds(e, buf, want, parse);
      if |buf| < NLMSG_HDR_LEN { return Truncated; }
      var msgLen := Get32(e, buf[0..4]);
      var msgType := Get16(e, buf[4..6]);
      var msgSeq := Get32(e, buf[8..12]);
      if msgLen < NLMSG_HDR_LEN || msgLen > |buf| { return Truncated; }
      ReplyRound(e, buf, want, parse, msgLen);
      var payload := buf[NLMSG_HDR_LEN..msgLen];
      assert payload == input[off + NLMSG_HDR_LEN..off + msgLen];
      var next := Min(Align4(msgLen), |buf|);
      assert buf[next..] == input[off + next..];
      off := off + next;
      buf := buf[next..];
      if msgSeq != want { continue; }
      if msgType == NLMSG_ERROR {
        if |payload| < 4 { return Truncated; }
        var code := Get32(e, payload[0..4]);
        if code == 0 { continue; }
        return Errno(ErrnoOf(code));
      }
      match parse(payload) {
        case Miss =>
        case Hit(v) => return Got(v);
        case Bad => return Invalid;
      }
    }
    ReplyEnds(e, buf, want, parse);
    return Missing;
  }

  /** The first message that answers the request. */
  function Scan<T>(e: Endian, ms: seq<Msg>, want: U32, parse: Bytes -> Parsed<T>): Reply<T> {
    if ms == [] then Missing
    else if ms[0].seqno != want then Scan(e, ms[1..], want, parse)
    else
      var answer := Handle(e, ms[0].typ, ms[0].payload, parse);
      if answer.Continue? then Scan(e, ms[1..], want, parse) else answer.reply
  }

  lemma HeaderFields(e: Endian, m: Msg)
    requires MsgOk(m)
    ensures var b := MsgHeader(e, m);
            && Get32(e, b[0..4]) == NLMSG_HDR_LEN + |m.payload|
            && Get16(e, b[4..6]) == m.typ && Get32(e, b[8..12]) == m.seqno
  {
    hide Get16, Put16, Get32, Put32;
    var b := MsgHeader(e, m);
    var len := Put32(e, NLMSG_HDR_LEN + |m.payload|);
    GetPut32(e, NLMSG_HDR_LEN + |m.payload|);
    GetPut16(e, m.typ);
    GetPut32(e, m.seqno);
    assert b[0..4] == len;
    assert b[4..6] == Put16(e, m.typ);
    assert b[8..12] == Put32(e, m.seqno);
  }

  predicate MsgsOk(ms: seq<Msg>) {
    forall i :: 0 <= i < |ms| ==> MsgOk(ms[i])
  }

  /** The buffer holds the messages in order, each one aligned; the last may lack some or all of its padding. */
  predicate MsgsIn(e: Endian, ms: seq<Msg>, buf: Bytes)
    requires MsgsOk(ms)
  {
    if ms == [] then buf == []
    else
      var raw := MsgBytes(e, ms[0]);
      && raw <= buf
      && if |ms| == 1 then |buf| <= Align4(|raw|)
         else Align4(|raw|) < |buf| && MsgsIn(e, ms[1..], buf[Align4(|raw|)..])
  }

  lemma MsgAtFront(e: Endian, m: Msg, buf: Bytes)
    requires MsgOk(m) && MsgBytes(e, m) <= buf
    ensures var len := NLMSG_HDR_LEN + |m.payload|;
            && |MsgBytes(e, m)| == len <= |buf|
            && Get32(e, buf[0..4]) == len && Get16(e, buf[4..6]) == m.typ && Get32(e, buf[8..12]) == m.seqno
            && buf[NLMSG_HDR_LEN..len] == m.payload
  {
    hide Get16, Get32, MsgHeader;
    var len := NLMSG_HDR_LEN + |m.payload|;
    var h := MsgHeader(e, m);
    var raw := MsgBytes(e, m);
    HeaderFields(e, m);
    assert buf[..len] == raw == h + m.payload;
    assert buf[0..4] == raw[0..4] == h[0..4];
    assert buf[4..6] == raw[4..6] == h[4..6];
    assert buf[8..12] == raw[8..12] == h[8..12];
    assert buf[16..len] == raw[16..len] == m.payload;
  }

  /** findReply on any buffer of well-formed messages reaches the first matching reply, padded to the end or not. */
  lemma {:induction false} FindsReply<T>(e: Endian, ms: seq<Msg>, buf: Bytes, want: U32, parse: Bytes -> Parsed<T>)
    requires MsgsOk(ms) && MsgsIn(e, ms, buf)
    ensures FindReply(e, buf, want, parse) == Scan(e, ms, want, parse)
  {
    hide Get16, Get32, MsgBytes, Align4, Handle;
    if ms == [] {
      ReplyEnds(e, buf, want, parse);
    } else {
      MsgAtFront(e, ms[0], buf);
      var len := NLMSG_HDR_LEN + |ms[0].payload|;
      ReplyRound(e, buf, want, parse, len);
      FindsReply(e, ms[1..], buf[Min(Align4(len), |buf|)..], want, parse);
      hide FindReply;
    }
  }
}
