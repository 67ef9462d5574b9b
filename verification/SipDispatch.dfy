/** What the server answers to one datagram (src/sip_handler.c:316-453, 519-577): parse,
    validate, dispatch on the method, and for an INVITE the answer that the routing
    script's result code selects. */
module SipDispatch {
  import opened Options
  import opened CText
  import opened SipMessage
  import opened SipResponse

  datatype Reply = Reply(code: int, reason: string)

  /** How the call into the routing script went. */
  datatype Routed = NoScript | CallFailed | Code(code: int)

  const TRYING := Reply(100, "Trying")
  const RINGING := Reply(180, "Ringing")
  const ERROR := Reply(500, "Server Internal Error")

  /** The switch over the result code. */
  function FinalReply(code: int): Reply {
    if code == 0 then RINGING
    else if code == 2 || code == 3 then Reply(486, "Busy Here")
    else if code == 1 then Reply(404, "Not Found")
    else if code == 6 || code == 7 then Reply(480, "Temporarily Unavailable")
    else if code == 5 || code == 4 || code == 8 || code == 9 then RINGING
    else ERROR
  }

  function InviteReplies(m: Message, routed: Routed): seq<Reply> {
    if m.caller == "" || m.callee == "" then [Reply(400, "Bad Request")]
    else if routed.NoScript? || routed.CallFailed? then [ERROR]
    else [TRYING, FinalReply(routed.code)]
  }

  function Replies(m: Message, routed: Routed): seq<Reply> {
    if m.status > 0 then []
    else
      match m.verb
      case INVITE => InviteReplies(m, routed)
      case ACK => []
      case BYE | CANCEL | OPTIONS | REGISTER => [Reply(200, "OK")]
      case REFER => [Reply(202, "Accepted")]
      case UNKNOWN | INFO | UPDATE | SUBSCRIBE | NOTIFY | MESSAGE => [Reply(405, "Method Not Allowed")]
  }

  /** What each kind of message is answered with, in words. */
  lemma RepliesAre(m: Message, routed: Routed)
    ensures var replies := Replies(m, routed);
            && (m.status > 0 ==> replies == [])
            && (m.status <= 0 ==>
                  && (m.verb == ACK ==> replies == [])
                  && (m.verb == BYE || m.verb == CANCEL || m.verb == OPTIONS || m.verb == REGISTER ==>
                        replies == [Reply(200, "OK")])
                  && (m.verb == REFER ==> replies == [Reply(202, "Accepted")])
                  && (m.verb in {UNKNOWN, INFO, UPDATE, SUBSCRIBE, NOTIFY, MESSAGE} ==>
                        replies == [Reply(405, "Method Not Allowed")])
                  && (m.verb == INVITE && (|m.caller| == 0 || |m.callee| == 0) ==>
                        replies == [Reply(400, "Bad Request")]))
  {
  }

  /** An INVITE with both parties: an error when the script cannot be asked, else 100 and the
      final answer for its code, with their phrases. */
  lemma InviteRepliesAre(m: Message, routed: Routed)
    requires m.status <= 0 && m.verb == INVITE && |m.caller| > 0 && |m.callee| > 0
    ensures var replies := Replies(m, routed);
            if !routed.Code? then replies == [Reply(500, "Server Internal Error")]
            else
              && |replies| == 2 && replies[0] == Reply(100, "Trying")
              && replies[1] == if routed.code in {0, 4, 5, 8, 9} then Reply(180, "Ringing")
                               else if routed.code in {2, 3} then Reply(486, "Busy Here")
                               else if routed.code in {6, 7} then Reply(480, "Temporarily Unavailable")
                               else if routed.code == 1 then Reply(404, "Not Found")
                               else Reply(500, "Server Internal Error")
  {
  }

  /** The datagrams sent for the replies; one that does not fit its buffer is not sent. */
  function Sent(h: Headers, replies: seq<Reply>): seq<string> {
    if replies == [] then []
    else
      (match Generate(h, replies[0].code, replies[0].reason, RESP_BUF_SIZE)
       case None => []
       case Some(text) => [text])
      + Sent(h, replies[1..])
  }

  /** One turn of the read handler on an n-byte datagram, n > 0. */
  function Answer(data: string, routed: Routed): seq<string> {
    match Parse(data)
    case Err(_) => []
    case Ok(m) => if Validate(m) == Valid then Sent(m.h, Replies(m, routed)) else []
  }

  ghost predicate Fits(r: Reply) { 100 <= r.code <= 500 && IsCrlfFree(r.reason) && |r.reason| <= 800 }

  lemma ReplyFits(code: int, reason: string)
    requires 100 <= code <= 500 && '\r' !in reason && |reason| <= 800
    ensures Fits(Reply(code, reason))
  {
    ConstFree(reason);
  }

  lemma FinalFits(code: int)
    ensures Fits(FinalReply(code))
  {
    ReplyFits(180, "Ringing");
    ReplyFits(486, "Busy Here");
    ReplyFits(404, "Not Found");
    ReplyFits(480, "Temporarily Unavailable");
    ReplyFits(500, "Server Internal Error");
  }

  ghost predicate AllFit(rs: seq<Reply>) { forall i :: 0 <= i < |rs| ==> Fits(rs[i]) }

  lemma InviteRepliesFit(m: Message, routed: Routed)
    ensures AllFit(InviteReplies(m, routed))
  {
    if routed.Code? { FinalFits(routed.code); }
    ReplyFits(100, "Trying");
    ReplyFits(500, "Server Internal Error");
    ReplyFits(400, "Bad Request");
  }

  lemma RepliesFit(m: Message, routed: Routed)
    ensures AllFit(Replies(m, routed))
  {
    InviteRepliesFit(m, routed);
    ReplyFits(200, "OK");
    ReplyFits(202, "Accepted");
    ReplyFits(405, "Method Not Allowed");
  }

  lemma {:induction false} SentAll(h: Headers, replies: seq<Reply>)
    requires forall i :: 0 <= i < |replies| ==> Generate(h, replies[i].code, replies[i].reason, RESP_BUF_SIZE).Some?
    ensures |Sent(h, replies)| == |replies|
    ensures forall i :: 0 <= i < |replies| ==>
              Some(Sent(h, replies)[i]) == Generate(h, replies[i].code, replies[i].reason, RESP_BUF_SIZE)
  {
    if replies != [] {
      SentAll(h, replies[1..]);
    }
  }

  /** Every reply is sent, and each one sent parses again as a response with the
      reply's code and the header fields of the datagram it answers. */
  lemma EveryReplyEchoes(data: string, routed: Routed)
    requires Parse(data).Ok? && Validate(Parse(data).value) == Valid
    ensures var m := Parse(data).value;
            var replies, sent := Replies(m, routed), Answer(data, routed);
            && |sent| == |replies|
            && forall i :: 0 <= i < |sent| ==>
                 && Parse(sent[i]).Ok? && Parse(sent[i]).value.status == replies[i].code
                 && Echoes(m.h, Parse(sent[i]).value.h)
                 && "SIP/2.0 " + (PrintInt(replies[i].code) + (" " + replies[i].reason)) <= sent[i]
  {
    var m := Parse(data).value;
    var replies := Replies(m, routed);
    RepliesFit(m, routed);
    forall i | 0 <= i < |replies|
      ensures var g := Generate(m.h, replies[i].code, replies[i].reason, RESP_BUF_SIZE);
              && g.Some? && Parse(g.value).Ok? && Parse(g.value).value.status == replies[i].code
              && StatusLine(replies[i].code, replies[i].reason) <= g.value
              && Echoes(m.h, Parse(g.value).value.h)
    {
      ResponseRoundTrip(data, replies[i].code, replies[i].reason);
    }
    SentAll(m.h, replies);
  }

  /** What cannot be parsed, or lacks a header that it must have, is answered with nothing. */
  lemma InvalidIgnored(data: string, routed: Routed)
    requires Parse(data).Err? || Validate(Parse(data).value) != Valid
    ensures Answer(data, routed) == []
  {
  }

  /** Two servers cannot keep answering each other: whatever is sent in answer to a
      datagram is itself answered with nothing. */
  lemma NoAnswerToAnAnswer(data: string, routed: Routed, again: Routed)
    ensures forall text :: text in Answer(data, routed) ==> Answer(text, again) == []
  {
    if Parse(data).Ok? && Validate(Parse(data).value) == Valid {
      EveryReplyEchoes(data, routed);
      RepliesFit(Parse(data).value, routed);
      var sent, replies := Answer(data, routed), Replies(Parse(data).value, routed);
      forall text | text in sent
        ensures Answer(text, again) == []
      {
        var i :| 0 <= i < |sent| && sent[i] == text;
        assert Fits(replies[i]);
        assert Replies(Parse(text).value, again) == [];
      }
    }
  }
}
