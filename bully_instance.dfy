/**
 * A node of the bully leader election. It reacts to one message at a time by
 * calling its message manager; the manager's delivery is not part of this
 * model, only the answers it gives and the calls the node makes.
 */
module BullyElection {
  import opened JavaLang

  datatype MessageType = HeartbeatInvoke | Heartbeat | ElectionInvoke | Election | LeaderInvoke | Leader

  /** A message between instances: its type and its text content. */
  datatype Message = Message(messageType: MessageType, content: string)

  /**
   * The answers the message manager gives during one handler call: the
   * success it reports for a heartbeat sent to a given id and for an
   * election message with given sender id and content. The manager's
   * answers depend on the other instances, so each handler call takes the
   * answers current at that call.
   */
  datatype MessageManager = MessageManager(
    heartbeatReply: int -> bool,
    electionReply: (int, string) -> bool)

  /** One call an instance makes on its message manager. */
  datatype ManagerCall =
    | SendHeartbeatMessage(leaderId: int)
    | SendElectionMessage(currentId: int, content: string)
    | SendLeaderMessage(currentId: int, leaderId: int)
    | SendHeartbeatInvokeMessage(currentId: int)

  /** The outcome of a handler: it returns, or `Integer.valueOf` throws on the content. */
  datatype HandlerOutcome = Returned | NumberFormatException

  /**
   * The calls of an election started by `localId`: an election message whose
   * content is the id as text, then, when the manager answers true, a leader
   * message naming `localId`.
   */
  function ElectionCalls(manager: MessageManager, localId: int): seq<ManagerCall> {
    var content := IntToString(localId);
    [SendElectionMessage(localId, content)]
      + if manager.electionReply(localId, content) then [SendLeaderMessage(localId, localId)] else []
  }

  /**
   * The calls of a heartbeat check: a heartbeat to the believed leader, then
   * either re-arming the heartbeat on itself or an election.
   */
  function HeartbeatInvokeCalls(manager: MessageManager, localId: int, leaderId: int): seq<ManagerCall> {
    [SendHeartbeatMessage(leaderId)]
      + if manager.heartbeatReply(leaderId) then [SendHeartbeatInvokeMessage(localId)] else ElectionCalls(manager, localId)
  }

  /** The leader id after a Leader message: its parsed content, or unchanged when parsing throws. */
  function LeaderAfter(leaderId: int, message: Message): int {
    match ParseInt(message.content)
    case Some(announced) => announced
    case None => leaderId
  }

  class BullyInstance {
    var localId: int
    var leaderId: int
    /** Every call made on the message manager so far, oldest first. */
    var calls: seq<ManagerCall>

    /** Both ids are Java `int`s. */
    ghost predicate Valid()
      reads this
    {
      IsInt(localId) && IsInt(leaderId)
    }

    constructor (localId: int, leaderId: int)
      requires IsInt(localId) && IsInt(leaderId)
      ensures Valid()
      ensures this.localId == localId && this.leaderId == leaderId
      ensures calls == []
    {
      this.localId := localId;
      this.leaderId := leaderId;
      calls := [];
    }

    /** An Election message is ignored. */
    method HandleElectionMessage(message: Message)
      ensures unchanged(this)
    {
    }

    /** Heartbeat the believed leader; re-arm when it answers, otherwise start an election. */
    method HandleHeartbeatInvokeMessage(messageManager: MessageManager)
      requires Valid()
      modifies this
      ensures Valid()
      ensures localId == old(localId) && leaderId == old(leaderId)
      ensures calls == old(calls) + HeartbeatInvokeCalls(messageManager, localId, leaderId)
    {
      var isLeaderAlive := messageManager.heartbeatReply(leaderId);
      calls := calls + [SendHeartbeatMessage(leaderId)];
      if isLeaderAlive {
        calls := calls + [SendHeartbeatInvokeMessage(localId)];
      } else {
        var content := IntToString(localId);
        var electionResult := messageManager.electionReply(localId, content);
        calls := calls + [SendElectionMessage(localId, content)];
        if electionResult {
          calls := calls + [SendLeaderMessage(localId, localId)];
        }
      }
    }

    /** Start an election whatever the believed leader is. */
    method HandleElectionInvokeMessage(messageManager: MessageManager)
      requires Valid()
      modifies this
      ensures Valid()
      ensures localId == old(localId) && leaderId == old(leaderId)
      ensures calls == old(calls) + ElectionCalls(messageManager, localId)
    {
      var content := IntToString(localId);
      var electionResult := messageManager.electionReply(localId, content);
      calls := calls + [SendElectionMessage(localId, content)];
      if electionResult {
        calls := calls + [SendLeaderMessage(localId, localId)];
      }
    }

    /** Take the announced leader id from the message content. */
    method HandleLeaderMessage(message: Message) returns (outcome: HandlerOutcome)
      requires Valid()
      modifies this
      ensures Valid()
      ensures outcome == (if ParseInt(message.content).Some? then Returned else NumberFormatException)
      ensures leaderId == LeaderAfter(old(leaderId), message)
      ensures localId == old(localId) && calls == old(calls)
    {
      var parsed := ParseInt(message.content);
      match parsed
      case Some(announced) =>
        leaderId := announced;
        outcome := Returned;
      case None =>
        outcome := NumberFormatException;
    }

    /** A LeaderInvoke message is ignored. */
    method HandleLeaderInvokeMessage()
      ensures unchanged(this)
    {
    }

    /** A Heartbeat message is ignored. */
    method HandleHeartbeatMessage(message: Message)
      ensures unchanged(this)
    {
    }
  }

  /** A leader that answers the heartbeat only re-arms the heartbeat check: no election, no leader message. */
  lemma HeartbeatAnsweredOnlyRearms(manager: MessageManager, localId: int, leaderId: int)
    requires manager.heartbeatReply(leaderId)
    ensures HeartbeatInvokeCalls(manager, localId, leaderId)
      == [SendHeartbeatMessage(leaderId), SendHeartbeatInvokeMessage(localId)]
  {
  }

  /**
   * A leader that does not answer makes the instance send an election
   * message to its own id, whose content parses back to that id.
   */
  lemma HeartbeatUnansweredStartsElection(manager: MessageManager, localId: int, leaderId: int)
    requires IsInt(localId)
    requires !manager.heartbeatReply(leaderId)
    ensures var calls := HeartbeatInvokeCalls(manager, localId, leaderId);
      && |calls| >= 2 && calls[0] == SendHeartbeatMessage(leaderId)
      && calls[1].SendElectionMessage? && calls[1].currentId == localId
      && ParseInt(calls[1].content) == Some(localId)
      && calls[2..] == ElectionCalls(manager, localId)[1..]
  {
    ParseIntOfIntToString(localId);
  }

  /**
   * An election sends exactly one election message, first; a leader message
   * follows exactly when the manager reports success, and then it names the
   * instance itself.
   */
  lemma ElectionSendsOneBidThenLeaderIffWon(manager: MessageManager, localId: int)
    ensures var calls := ElectionCalls(manager, localId);
      && calls[0] == SendElectionMessage(localId, IntToString(localId))
      && (forall i :: 1 <= i < |calls| ==> !calls[i].SendElectionMessage?)
      && (SendLeaderMessage(localId, localId) in calls <==> manager.electionReply(localId, IntToString(localId)))
      && (forall i :: 0 <= i < |calls| && calls[i].SendLeaderMessage? ==> calls[i] == SendLeaderMessage(localId, localId))
  {
  }

  /** A Leader message carrying `String.valueOf(id)` sets the believed leader to `id`. */
  lemma LeaderMessageSetsAnnouncedId(leaderId: int, id: int)
    requires IsInt(id)
    ensures LeaderAfter(leaderId, Message(Leader, IntToString(id))) == id
  {
    ParseIntOfIntToString(id);
  }

  /** Delivering the same Leader message twice leaves the leader id it set once. */
  lemma LeaderMessageIdempotent(leaderId: int, message: Message)
    ensures LeaderAfter(LeaderAfter(leaderId, message), message) == LeaderAfter(leaderId, message)
  {
  }
}
