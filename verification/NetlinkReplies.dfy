/** What a scan of netlink messages answers, message by message. */
module NetlinkReplies {
  import opened Netlink

  /** The error number in a payload is n: minus n in two's complement, or n itself. */
  predicate Carries(e: Endian, payload: Bytes, n: nat)
    requires |payload| >= 4
  {
    var code := Get32(e, payload[0..4]);
    if code < 0x8000_0000 then code == n else code + n == 0x1_0000_0000
  }

  /** The message belongs to another request, acknowledges this one, or has not what is looked for. */
  predicate Skips<T(==)>(e: Endian, m: Msg, want: U32, parse: Bytes -> Parsed<T>) {
    || m.seqno != want
    || if m.typ == 2 then |m.payload| >= 4 && Carries(e, m.payload, 0) else parse(m.payload) == Miss
  }

  /** The message answers the request with this reply. */
  predicate Answers<T(==)>(e: Endian, m: Msg, want: U32, parse: Bytes -> Parsed<T>, r: Reply<T>) {
    && m.seqno == want
    && if m.typ != 2 then
         if r.Got? then parse(m.payload) == Hit(r.value) else r.Invalid? && parse(m.payload) == Bad
       else if |m.payload| < 4 then r.Truncated?
       else r.Errno? && r.code > 0 && Carries(e, m.payload, r.code)
  }

  lemma HandleMeans<T>(e: Endian, m: Msg, want: U32, parse: Bytes -> Parsed<T>)
    requires m.seqno == want
    ensures var a := Handle(e, m.typ, m.payload, parse);
            if Skips(e, m, want, parse) then a.Continue? else a.Done? && Answers(e, m, want, parse, a.reply)
  {
    hide Get32;
  }

  lemma {:induction false} ScanMeans<T>(e: Endian, ms: seq<Msg>, want: U32, parse: Bytes -> Parsed<T>, i: nat)
    requires i <= |ms| && forall j :: 0 <= j < i ==> Skips(e, ms[j], want, parse)
    requires i < |ms| ==> !Skips(e, ms[i], want, parse)
    ensures var r := Scan(e, ms, want, parse);
            if i == |ms| then r == Missing else Answers(e, ms[i], want, parse, r)
  {
    hide Skips, Answers, Handle;
    if ms != [] {
      if ms[0].seqno == want { HandleMeans(e, ms[0], want, parse); }
      else { OthersAreSkipped(e, ms[0], want, parse); }
      if i > 0 {
        ScanMeans(e, ms[1..], want, parse, i - 1);
      }
    }
  }

  lemma OthersAreSkipped<T>(e: Endian, m: Msg, want: U32, parse: Bytes -> Parsed<T>)
    requires m.seqno != want
    ensures Skips(e, m, want, parse)
  {
  }

  /** The first message that is not skipped answers the request; without one the reply is missing. */
  lemma FirstAnswers<T>(e: Endian, ms: seq<Msg>, buf: Bytes, want: U32, parse: Bytes -> Parsed<T>, i: nat)
    requires MsgsOk(ms) && MsgsIn(e, ms, buf)
    requires i <= |ms| && forall j :: 0 <= j < i ==> Skips(e, ms[j], want, parse)
    requires i < |ms| ==> !Skips(e, ms[i], want, parse)
    ensures var r := FindReply(e, buf, want, parse);
            if i == |ms| then r == Missing else Answers(e, ms[i], want, parse, r)
  {
    hide Skips, Answers, Handle, MsgsIn, FindReply;
    FindsReply(e, ms, buf, want, parse);
    ScanMeans(e, ms, want, parse, i);
  }
}
