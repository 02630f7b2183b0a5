/**
  IUdpMessageSender.cs as seen by the relay managers: each call either returns
  the reply text or raises an exception. The stand-in draws one scripted reply
  per call and logs the message it was asked to send.
*/
module SenderOracle {
  import opened Base
  import opened Text
  import Transport

  /** The outcome of one interface call. */
  datatype Reply = Answer(text: string) | Raise(error: Error)

  /** The reply to call k of the script; an exhausted script times out, as the transport would. */
  function ReplyAt(replies: seq<Reply>, k: nat): Reply
  {
    if k < |replies| then replies[k] else Raise(Timeout)
  }

  /** SendMessageAndReceiveResponseAsync: the reply text, or the exception. */
  function ResponseOf(r: Reply): Result<string>
  {
    match r
    case Answer(t) => Ok(t)
    case Raise(e) => Err(e)
  }

  /** SendCommandAndValidateResponseAsync: whether the reply matches, or the exception. */
  function ValidationOf(r: Reply, expectedResponsePattern: string): Result<bool>
  {
    match r
    case Answer(t) => Ok(Transport.Matches(t, expectedResponsePattern))
    case Raise(e) => Err(e)
  }

  /** What one call of UdpMessageSender returns, as an interface reply. */
  function ReplyOfExchange(x: Transport.Exchange): Reply
  {
    match x.result
    case Ok(t) => Answer(t)
    case Err(e) => Raise(e)
  }

  /** The transport only ever answers, times out, is cancelled, or fails at the socket. */
  lemma TransportReplies(outcomes: seq<Transport.Attempt>)
    ensures var r := ReplyOfExchange(Transport.ExchangeFrom(outcomes, 0));
      r.Answer? || r.error == Timeout || r.error == Cancelled || r.error == SocketFailure
    ensures ResponseOf(ReplyOfExchange(Transport.ExchangeFrom(outcomes, 0))) == Transport.ExchangeFrom(outcomes, 0).result
  {
    Transport.ExchangeBounds(outcomes, 0);
  }

  class ScriptedSender {
    var replies: seq<Reply>
    var log: seq<string>

    constructor (replies: seq<Reply>)
      ensures this.replies == replies && log == []
    {
      this.replies := replies;
      log := [];
    }

    method SendMessageAndReceiveResponse(message: string) returns (r: Result<string>)
      modifies this
      ensures r == ResponseOf(ReplyAt(old(replies), 0))
      ensures replies == Transport.Drop(old(replies), 1) && log == old(log) + [message]
    {
      r := ResponseOf(ReplyAt(replies, 0));
      replies := Transport.Drop(replies, 1);
      log := log + [message];
    }

    method SendCommandAndValidateResponse(command: string, expectedResponsePattern: string) returns (r: Result<bool>)
      modifies this
      ensures r == ValidationOf(ReplyAt(old(replies), 0), expectedResponsePattern)
      ensures replies == Transport.Drop(old(replies), 1) && log == old(log) + [command]
    {
      r := ValidationOf(ReplyAt(replies, 0), expectedResponsePattern);
      replies := Transport.Drop(replies, 1);
      log := log + [command];
    }
  }
}
