/** An INVITE from datagram to responses, through the routing script
    (src/sip_handler.c:316-379, lua/route.lua:711-734). */
module InviteAnswer {
  import opened SipMessage
  import opened SipResponse
  import SipDispatch
  import Routing
  import RoutingSafety

  /** What the call into the script hands back: its code, or a failed call when the
      script raises. */
  function RoutedBy(r: Routing.Reply): SipDispatch.Routed {
    if r.Reply? then SipDispatch.Code(r.code) else SipDispatch.CallFailed
  }

  ghost predicate IsCallInvite(data: string) {
    && Parse(data).Ok?
    && var m := Parse(data).value;
       Validate(m) == Valid && m.verb == INVITE && m.status <= 0 && m.caller != "" && m.callee != ""
  }

  /** The script's answer to the INVITE in a given state. */
  ghost function ScriptReply(data: string, s: Routing.State, env: Routing.Env): Routing.Reply
    requires Parse(data).Ok?
  {
    Routing.Route(s, env, Parse(data).value.caller, Parse(data).value.callee).reply
  }

  /** The script is asked about the call from the From user to the To user. */
  lemma CallIsRouted(data: string, s: Routing.State, env: Routing.Env,
                     fromHead: string, fromScheme: string, caller: string, fromTail: string,
                     toHead: string, toScheme: string, callee: string, toTail: string)
    requires Parse(data).Ok?
    requires Parse(data).value.h.from == fromHead + (fromScheme + (caller + fromTail))
    requires Scheme(fromHead, fromScheme, caller + fromTail) && '@' !in caller && EndsUser(caller, fromTail)
    requires Parse(data).value.h.to == toHead + (toScheme + (callee + toTail))
    requires Scheme(toHead, toScheme, callee + toTail) && '@' !in callee && EndsUser(callee, toTail)
    ensures ScriptReply(data, s, env) == Routing.Route(s, env, CutTo(caller, 15), CutTo(callee, 15)).reply
  {
    CallerAndCallee(data, fromHead, fromScheme, caller, fromTail);
    CallerAndCallee(data, toHead, toScheme, callee, toTail);
  }

  lemma FinalStatus(m: Message, code: int)
    requires m.verb == INVITE && m.status <= 0 && m.caller != "" && m.callee != "" && 0 <= code <= 9
    ensures var replies := SipDispatch.Replies(m, SipDispatch.Code(code));
            && |replies| == 2 && replies[0].code == 100
            && (replies[1].code == 180 <==> code in {0, 4, 5, 8, 9})
            && (replies[1].code == 404 <==> code == 1)
            && (replies[1].code == 486 <==> code in {2, 3})
            && (replies[1].code == 480 <==> code in {6, 7})
            && replies[1].code in {180, 404, 480, 486}
  {
  }

  /** In every state, an INVITE with a caller and a callee is answered with two messages:
      100, then one of 180, 404, 480 and 486, the last telling how the script decided.
      Both parse as responses that echo the INVITE's header fields. */
  lemma InviteIsAnswered(data: string, s: Routing.State, env: Routing.Env)
    requires IsCallInvite(data)
    ensures var r := ScriptReply(data, s, env); var sent := SipDispatch.Answer(data, RoutedBy(r));
            && r.Reply? && |sent| == 2 && Parse(sent[0]).Ok? && Parse(sent[1]).Ok?
            && Echoes(Parse(data).value.h, Parse(sent[0]).value.h)
            && Echoes(Parse(data).value.h, Parse(sent[1]).value.h)
            && Parse(sent[0]).value.status == 100
            && var final := Parse(sent[1]).value.status;
               && final in {180, 404, 480, 486}
               && (final == 404 <==> r.code == 1)
               && (final == 486 <==> r.code in {2, 3})
               && (final == 480 <==> r.code in {6, 7})
  {
    var m := Parse(data).value;
    RoutingSafety.RouteAnswers(s, env, m.caller, m.callee);
    var r := ScriptReply(data, s, env);
    FinalStatus(m, r.code);
    SipDispatch.EveryReplyEchoes(data, RoutedBy(r));
  }
}
