/** Requests written into a byte buffer, and what the parsers read back from requests and replies. */
module NetlinkRequests {
  import opened Netlink

  const NLM_F_REQUEST := 1
  const REQ_ATTR_OFF := NLMSG_HDR_LEN + GENL_HDR_LEN

  const TASKSTATS_TYPE_STATS := 3
  const TASKSTATS_TYPE_AGGR_TGID := 5
  const CTRL_ATTR_FAMILY_ID := 1
  const CTRL_ATTR_FAMILY_NAME := 2
  const TASKSTATS_CMD_ATTR_TGID := 2

  /** TASKSTATS and its NUL terminator. */
  const FAMILY_NAME: Bytes := [84, 65, 83, 75, 83, 84, 65, 84, 83, 0]

  function RequestPayload(e: Endian, cmd: U8, version: U8, a: Attr): Bytes
    requires AttrOk(a)
  {
    [cmd, version, 0, 0] + Padded(AttrBytes(e, a))
  }

  function RequestMsg(e: Endian, msgType: U16, seqno: U32, cmd: U8, version: U8, a: Attr): Msg
    requires AttrOk(a)
  {
    Msg(msgType, NLM_F_REQUEST, seqno, 0, RequestPayload(e, cmd, version, a))
  }

  lemma RequestOk(e: Endian, msgType: U16, seqno: U32, cmd: U8, version: U8, a: Attr)
    requires AttrOk(a)
    ensures MsgOk(RequestMsg(e, msgType, seqno, cmd, version, a))
    ensures var m := RequestMsg(e, msgType, seqno, cmd, version, a);
            && |MsgBytes(e, m)| == REQ_ATTR_OFF + Align4(NLA_HDR_LEN + |a.value|)
            && Padded(MsgBytes(e, m)) == MsgBytes(e, m)
  {
    hide Put16, Put32;
    var m := RequestMsg(e, msgType, seqno, cmd, version, a);
    var b := MsgBytes(e, m);
    assert |b| % 4 == 0;
    assert Align4(|b|) == |b|;
    assert b + [] == b;
  }

  /** The buffer holds `done`, and zeros after it. */
  predicate Written(msg: array<Byte>, done: Bytes)
    reads msg
  {
    |done| <= msg.Length && msg[..|done|] == done && forall i :: |done| <= i < msg.Length ==> msg[i] == 0
  }

  /** Stores the next bytes of a message. */
  method Store(msg: array<Byte>, off: nat, b: Bytes, ghost done: Bytes)
    requires Written(msg, done) && off == |done| && off + |b| <= msg.Length
    modifies msg
    ensures Written(msg, done + b)
  {
    for i := 0 to |b|
      invariant msg[..off] == done && forall j :: 0 <= j < i ==> msg[off + j] == b[j]
      invariant forall j :: off + |b| <= j < msg.Length ==> msg[j] == 0
    {
      msg[off + i] := b[i];
    }
    assert msg[..off + |b|] == msg[..off] + msg[off..off + |b|] && msg[off..off + |b|] == b;
  }

  lemma SkipZeros(msg: array<Byte>, done: Bytes, n: nat)
    requires Written(msg, done) && |done| + n <= msg.Length
    ensures Written(msg, done + Zeros(n))
  {
    assert msg[..|done| + n] == msg[..|done|] + msg[|done|..|done| + n] && msg[|done|..|done| + n] == Zeros(n);
  }

  lemma WrittenAll(msg: array<Byte>, done: Bytes)
    requires Written(msg, done)
    ensures msg[..] == done + Zeros(msg.Length - |done|)
  {
  }

  /** genlRequest: a message whose attribute value is zero, for the caller to fill in. */
  method GenlRequest(e: Endian, msgType: U16, seqno: U32, cmd: U8, version: U8, attrType: U16, valueLen: U8)
    returns (msg: array<Byte>)
    ensures fresh(msg)
    ensures MsgOk(RequestMsg(e, msgType, seqno, cmd, version, Attr(attrType, Zeros(valueLen))))
    ensures msg[..] == MsgBytes(e, RequestMsg(e, msgType, seqno, cmd, version, Attr(attrType, Zeros(valueLen))))
  {
    hide Put16, Put32, Align4, MsgBytes, RequestMsg, MsgOk, Written;
    var attrLen := NLA_HDR_LEN + valueLen;
    var msgLen := REQ_ATTR_OFF + Align4(attrLen);
    ghost var a := Attr(attrType, Zeros(valueLen));
    RequestOk(e, msgType, seqno, cmd, version, a);
    msg := new Byte[msgLen](i => 0);
    assert Written(msg, []) by { AllZero(msg); }
    ghost var done: Bytes := [];
    WriteHeader(e, msg, msgLen, msgType, seqno);
    done := HeaderBytes(e, msgLen, msgType, seqno);
    SkipZeros(msg, done, 4);
    done := done + Zeros(4);
    Store(msg, NLMSG_HDR_LEN, [cmd, version], done);
    done := done + [cmd, version];
    SkipZeros(msg, done, 2);
    done := done + Zeros(2);
    Store(msg, REQ_ATTR_OFF, Put16(e, attrLen), done);
    done := done + Put16(e, attrLen);
    Store(msg, REQ_ATTR_OFF + 2, Put16(e, attrType), done);
    done := done + Put16(e, attrType);
    WrittenAll(msg, done);
    Layout(e, msgType, seqno, cmd, version, a);
    assert done == Front(e, msgType, seqno, cmd, version, attrType, valueLen);
    assert Zeros(msgLen - |done|) == Zeros(valueLen) + Zeros(Align4(attrLen) - attrLen);
  }

  lemma AllZero(msg: array<Byte>)
    requires forall i :: 0 <= i < msg.Length ==> msg[i] == 0
    ensures Written(msg, [])
  {
  }

  function HeaderBytes(e: Endian, msgLen: U32, msgType: U16, seqno: U32): (b: Bytes)
    ensures |b| == 12
  {
    Put32(e, msgLen) + Put16(e, msgType) + Put16(e, NLM_F_REQUEST) + Put32(e, seqno)
  }

  method WriteHeader(e: Endian, msg: array<Byte>, msgLen: U32, msgType: U16, seqno: U32)
    requires Written(msg, []) && msg.Length >= 12
    modifies msg
    ensures Written(msg, HeaderBytes(e, msgLen, msgType, seqno))
  {
    hide Put16, Put32, Written;
    Store(msg, 0, Put32(e, msgLen), []);
    assert [] + Put32(e, msgLen) == Put32(e, msgLen);
    Store(msg, 4, Put16(e, msgType), Put32(e, msgLen));
    Store(msg, 6, Put16(e, NLM_F_REQUEST), Put32(e, msgLen) + Put16(e, msgType));
    Store(msg, 8, Put32(e, seqno), Put32(e, msgLen) + Put16(e, msgType) + Put16(e, NLM_F_REQUEST));
  }

  lemma ZeroPort(e: Endian)
    ensures Put32(e, 0) == Zeros(4)
  {
  }

  /** Everything before the value of the attribute. */
  function Front(e: Endian, msgType: U16, seqno: U32, cmd: U8, version: U8, attrType: U16, n: nat): (b: Bytes)
    requires NLA_HDR_LEN + n < 0x1_0000
    ensures |b| == REQ_ATTR_OFF + NLA_HDR_LEN
  {
    HeaderBytes(e, REQ_ATTR_OFF + Align4(NLA_HDR_LEN + n), msgType, seqno) + Zeros(4) + [cmd, version] + Zeros(2)
    + Put16(e, NLA_HDR_LEN + n) + Put16(e, attrType)
  }

  lemma Layout(e: Endian, msgType: U16, seqno: U32, cmd: U8, version: U8, a: Attr)
    requires AttrOk(a) && MsgOk(RequestMsg(e, msgType, seqno, cmd, version, a))
    ensures var len := NLA_HDR_LEN + |a.value|;
            MsgBytes(e, RequestMsg(e, msgType, seqno, cmd, version, a)) ==
              Front(e, msgType, seqno, cmd, version, a.typ, |a.value|) + a.value + Zeros(Align4(len) - len)
  {
    hide Put16, Put32, Align4, HeaderBytes;
    var len := NLA_HDR_LEN + |a.value|;
    var m := RequestMsg(e, msgType, seqno, cmd, version, a);
    assert |m.payload| == 4 + Align4(len);
    HeaderIs(e, m);
    assert [cmd, version, 0, 0] == [cmd, version] + Zeros(2);
    Regroup(HeaderBytes(e, REQ_ATTR_OFF + Align4(len), msgType, seqno) + Zeros(4), [cmd, version], Zeros(2),
      Put16(e, len), Put16(e, a.typ), a.value, Zeros(Align4(len) - len));
  }

  lemma Regroup(h: Bytes, c: Bytes, z: Bytes, p: Bytes, q: Bytes, v: Bytes, t: Bytes)
    ensures h + (c + z + (p + q + v + t)) == h + c + z + p + q + v + t
  {
  }

  lemma HeaderIs(e: Endian, m: Msg)
    requires MsgOk(m) && m.flags == NLM_F_REQUEST && m.pid == 0
    ensures MsgHeader(e, m) == HeaderBytes(e, NLMSG_HDR_LEN + |m.payload|, m.typ, m.seqno) + Zeros(4)
  {
    hide Put16, Put32;
    ZeroPort(e);
  }

  // ---- filling in the value ----

  method Overwrite(msg: array<Byte>, off: nat, b: Bytes)
    requires off + |b| <= msg.Length
    modifies msg
    ensures msg[..] == old(msg[..off]) + b + old(msg[off + |b|..])
  {
    for i := 0 to |b|
      invariant msg[..off] == old(msg[..off]) && msg[off + |b|..] == old(msg[off + |b|..])
      invariant forall j :: 0 <= j < i ==> msg[off + j] == b[j]
    {
      msg[off + i] := b[i];
    }
    assert msg[..] == msg[..off] + msg[off..off + |b|] + msg[off + |b|..] && msg[off..off + |b|] == b;
  }

  lemma Filled(front: Bytes, v: Bytes, w: Bytes, back: Bytes)
    requires |v| == |w|
    ensures (front + v + back)[..|front|] + w + (front + v + back)[|front| + |w|..] == front + w + back
  {
    assert (front + v + back)[..|front|] == front;
    assert (front + v + back)[|front| + |w|..] == back;
  }

  method FillRequest(e: Endian, msgType: U16, seqno: U32, cmd: U8, version: U8, attrType: U16, value: Bytes)
    returns (msg: array<Byte>)
    requires |value| < 0x100
    ensures fresh(msg)
    ensures MsgOk(RequestMsg(e, msgType, seqno, cmd, version, Attr(attrType, value)))
    ensures msg[..] == MsgBytes(e, RequestMsg(e, msgType, seqno, cmd, version, Attr(attrType, value)))
  {
    hide Front, MsgBytes, RequestMsg, MsgOk, Align4;
    ghost var a, z := Attr(attrType, value), Attr(attrType, Zeros(|value|));
    RequestOk(e, msgType, seqno, cmd, version, a);
    msg := GenlRequest(e, msgType, seqno, cmd, version, attrType, |value|);
    Layout(e, msgType, seqno, cmd, version, a);
    Layout(e, msgType, seqno, cmd, version, z);
    ghost var front := Front(e, msgType, seqno, cmd, version, attrType, |value|);
    ghost var back := Zeros(Align4(NLA_HDR_LEN + |value|) - (NLA_HDR_LEN + |value|));
    ghost var before := msg[..];
    assert before == front + Zeros(|value|) + back;
    Filled(front, Zeros(|value|), value, back);
    Overwrite(msg, REQ_ATTR_OFF + NLA_HDR_LEN, value);
  }

  /** taskstatsRequest */
  method TaskstatsRequest(e: Endian, family: U16, seqno: U32, tgid: U32) returns (msg: array<Byte>)
    ensures MsgOk(RequestMsg(e, family, seqno, 1, 1, Attr(TASKSTATS_CMD_ATTR_TGID, Put32(e, tgid))))
    ensures msg[..] == MsgBytes(e, RequestMsg(e, family, seqno, 1, 1, Attr(TASKSTATS_CMD_ATTR_TGID, Put32(e, tgid))))
  {
    msg := FillRequest(e, family, seqno, 1, 1, TASKSTATS_CMD_ATTR_TGID, Put32(e, tgid));
  }

  /** familyRequest */
  method FamilyRequest(e: Endian, seqno: U32) returns (msg: array<Byte>)
    ensures MsgOk(RequestMsg(e, 0x10, seqno, 3, 1, Attr(CTRL_ATTR_FAMILY_NAME, FAMILY_NAME)))
    ensures msg[..] == MsgBytes(e, RequestMsg(e, 0x10, seqno, 3, 1, Attr(CTRL_ATTR_FAMILY_NAME, FAMILY_NAME)))
  {
    msg := FillRequest(e, 0x10, seqno, 3, 1, CTRL_ATTR_FAMILY_NAME, FAMILY_NAME);
  }

  // ---- reading back ----

  /** The value of an attribute of a generic netlink payload. */
  function AttrOf(e: Endian, payload: Bytes, want: U16): Parsed<Bytes> {
    if |payload| < GENL_HDR_LEN then Bad
    else
      match FindAttr(e, payload[GENL_HDR_LEN..], want)
      case NotFound => Miss
      case Value(v) => Hit(v)
      case Short => Bad
  }

  lemma PayloadDecodes(e: Endian, payload: Bytes, attrs: seq<Attr>, want: U16)
    requires |payload| >= GENL_HDR_LEN && AttrsOk(attrs) && AttrsIn(e, attrs, payload[GENL_HDR_LEN..])
    ensures AttrOf(e, payload, want) == if FirstOf(attrs, want).Value? then Hit(FirstOf(attrs, want).value) else Miss
  {
    hide FindAttr, AttrsIn;
    FindsFirst(e, attrs, payload[GENL_HDR_LEN..], want);
    NeverShort(attrs, want);
  }

  lemma {:induction false} NeverShort(attrs: seq<Attr>, want: U16)
    ensures !FirstOf(attrs, want).Short?
  {
    if attrs != [] { NeverShort(attrs[1..], want); }
  }

  lemma OneAttr(e: Endian, a: Attr)
    requires AttrOk(a)
    ensures AttrsIn(e, [a], Padded(AttrBytes(e, a))) && FirstOf([a], a.typ % NLA_TYPES) == Value(a.value)
  {
    hide AttrBytes, Align4, Padded;
    assert AttrBytes(e, a) <= Padded(AttrBytes(e, a));
  }

  lemma OneMsg(e: Endian, m: Msg)
    requires MsgOk(m)
    ensures MsgsIn(e, [m], MsgBytes(e, m))
  {
    hide MsgBytes, Align4;
  }

  /** Scanning a request for its own sequence number and attribute gives the value that was put in. */
  lemma RequestDecodes(e: Endian, msgType: U16, seqno: U32, cmd: U8, version: U8, a: Attr)
    requires AttrOk(a) && msgType != NLMSG_ERROR && MsgOk(RequestMsg(e, msgType, seqno, cmd, version, a))
    ensures FindReply(e, MsgBytes(e, RequestMsg(e, msgType, seqno, cmd, version, a)), seqno,
              (p: Bytes) => AttrOf(e, p, a.typ % NLA_TYPES)) == Got(a.value)
  {
    hide FindReply, MsgBytes, FindAttr, AttrsIn, MsgsIn, Padded, AttrOf;
    var m := RequestMsg(e, msgType, seqno, cmd, version, a);
    var parse := (p: Bytes) => AttrOf(e, p, a.typ % NLA_TYPES);
    RequestOk(e, msgType, seqno, cmd, version, a);
    OneMsg(e, m);
    FindsReply(e, [m], MsgBytes(e, m), seqno, parse);
    OneAttr(e, a);
    assert m.payload[GENL_HDR_LEN..] == Padded(AttrBytes(e, a));
    PayloadDecodes(e, m.payload, [a], a.typ % NLA_TYPES);
    assert parse(m.payload) == Hit(a.value);
    assert Scan(e, [m], seqno, parse) == Got(a.value);
  }

  /** parseFamilyMessage */
  function ParseFamilyMessage(e: Endian, payload: Bytes): Parsed<U16> {
    var v := AttrOf(e, payload, CTRL_ATTR_FAMILY_ID);
    if v.Miss? then Miss
    else if v.Bad? || |v.value| < 2 then Bad
    else Hit(Get16(e, v.value[0..2]))
  }

  /** The delay totals of a task in nanoseconds. */
  datatype DelayInfo = DelayInfo(cpu: nat, blockIO: nat, swapIn: nat, freePages: nat)

  const MAX_INT64 := 0x7fff_ffff_ffff_ffff

  function Get64(e: Endian, b: Bytes): nat
    requires |b| == 8
  {
    if e.Little? then Get32(e, b[..4]) + 0x1_0000_0000 * Get32(e, b[4..])
    else Get32(e, b[4..]) + 0x1_0000_0000 * Get32(e, b[..4])
  }

  /** nsToDuration of the number at an offset. */
  function DelayAt(e: Endian, p: Bytes, off: nat): (d: nat)
    requires off + 8 <= |p|
    ensures d <= MAX_INT64
  {
    var ns := Get64(e, p[off..off + 8]);
    if ns > MAX_INT64 then MAX_INT64 else ns
  }

  /** decodeTaskstats: the version and the length decide which totals exist. */
  function DecodeTaskstats(e: Endian, p: Bytes): (r: Parsed<DelayInfo>)
    ensures !r.Miss?
    ensures r.Bad? <==> |p| < 64 || (|p| < 328 && Get16(e, p[0..2]) >= 7)
    ensures r.Hit? && Get16(e, p[0..2]) < 7 ==> r.value.freePages == 0
  {
    if |p| < 64 then Bad
    else
      var info := DelayInfo(DelayAt(e, p, 24), DelayAt(e, p, 40), DelayAt(e, p, 56), 0);
      if Get16(e, p[0..2]) < 7 then Hit(info)
      else if |p| < 328 then Bad
      else Hit(info.(freePages := DelayAt(e, p, 320)))
  }

  function Put64(e: Endian, n: nat): (b: Bytes)
    requires n < 0x1_0000_0000_0000_0000
    ensures |b| == 8
  {
    if e.Little? then Put32(e, n % 0x1_0000_0000) + Put32(e, n / 0x1_0000_0000)
    else Put32(e, n / 0x1_0000_0000) + Put32(e, n % 0x1_0000_0000)
  }

  lemma GetPut64(e: Endian, n: nat)
    requires n < 0x1_0000_0000_0000_0000
    ensures Get64(e, Put64(e, n)) == n
  {
    hide Get32, Put32;
    var lo, hi := n % 0x1_0000_0000, n / 0x1_0000_0000;
    GetPut32(e, lo);
    GetPut32(e, hi);
    var b := Put64(e, n);
    if e.Little? { assert b[..4] == Put32(e, lo) && b[4..] == Put32(e, hi); }
    else { assert b[..4] == Put32(e, hi) && b[4..] == Put32(e, lo); }
  }

  function Saturated(ns: nat): nat {
    if ns > MAX_INT64 then MAX_INT64 else ns
  }

  /** The totals of a struct taskstats are read from where the kernel puts them, capped to what a Duration can hold. */
  lemma StructDecodes(e: Endian, p: Bytes, version: U16, cpu: nat, blkio: nat, swapin: nat, freepages: nat)
    requires |p| >= 64 && p[0..2] == Put16(e, version)
    requires cpu < 0x1_0000_0000_0000_0000 && p[24..32] == Put64(e, cpu)
    requires blkio < 0x1_0000_0000_0000_0000 && p[40..48] == Put64(e, blkio)
    requires swapin < 0x1_0000_0000_0000_0000 && p[56..64] == Put64(e, swapin)
    requires freepages < 0x1_0000_0000_0000_0000 && (version >= 7 ==> |p| >= 328 && p[320..328] == Put64(e, freepages))
    ensures DecodeTaskstats(e, p) ==
      Hit(DelayInfo(
        Saturated(cpu), Saturated(blkio), Saturated(swapin), if version < 7 then 0 else Saturated(freepages)))
  {
    hide Get16, Put16, Get64, Put64;
    GetPut16(e, version);
    GetPut64(e, cpu);
    GetPut64(e, blkio);
    GetPut64(e, swapin);
    GetPut64(e, freepages);
  }

  /** The family id is found whatever attributes stand around it. */
  lemma FamilyIdIsFound(e: Endian, payload: Bytes, attrs: seq<Attr>, id: U16, more: Bytes)
    requires |payload| >= GENL_HDR_LEN && AttrsOk(attrs) && AttrsIn(e, attrs, payload[GENL_HDR_LEN..])
    requires FirstOf(attrs, CTRL_ATTR_FAMILY_ID) == Value(Put16(e, id) + more)
    ensures ParseFamilyMessage(e, payload) == Hit(id)
  {
    hide AttrOf, AttrsIn, Put16, Get16;
    PayloadDecodes(e, payload, attrs, CTRL_ATTR_FAMILY_ID);
    GetPut16(e, id);
    assert (Put16(e, id) + more)[0..2] == Put16(e, id);
  }

  /** parseTaskstatsMessage: the statistics nested in the thread-group aggregate. */
  function ParseTaskstatsMessage(e: Endian, payload: Bytes): Parsed<DelayInfo> {
    match AttrOf(e, payload, TASKSTATS_TYPE_AGGR_TGID)
    case Miss => Miss
    case Bad => Bad
    case Hit(aggr) =>
      match FindAttr(e, aggr, TASKSTATS_TYPE_STATS)
      case NotFound => Miss
      case Short => Bad
      case Value(stats) => DecodeTaskstats(e, stats)
  }

  /** The statistics are found whatever attributes stand around them on both levels. */
  lemma NestedStatsAreFound(e: Endian, payload: Bytes, outer: seq<Attr>, aggr: Bytes, inner: seq<Attr>, stats: Bytes)
    requires |payload| >= GENL_HDR_LEN && AttrsOk(outer) && AttrsIn(e, outer, payload[GENL_HDR_LEN..])
    requires FirstOf(outer, TASKSTATS_TYPE_AGGR_TGID) == Value(aggr) && AttrsOk(inner) && AttrsIn(e, inner, aggr)
    requires FirstOf(inner, TASKSTATS_TYPE_STATS) == Value(stats)
    ensures ParseTaskstatsMessage(e, payload) == DecodeTaskstats(e, stats)
  {
    hide FindAttr, AttrsIn, AttrOf, DecodeTaskstats;
    PayloadDecodes(e, payload, outer, TASKSTATS_TYPE_AGGR_TGID);
    FindsFirst(e, inner, aggr, TASKSTATS_TYPE_STATS);
  }
}
