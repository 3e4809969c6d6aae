/**
 * `MessageDecorator`: the wrapper that pairs an LDAP message with the
 * lengths computed while it is encoded, and the dispatch that chooses the
 * decorator for a message from its protocolOp (section 4.2 of RFC 4511).
 * The operation-specific decorators are represented only by the kind tag
 * the dispatch returns.
 */
module MessageDecorators {
  import opened Wrappers
  import opened Tlv

  /** The operation discriminant of a message: the protocolOp CHOICE of RFC 4511. */
  datatype MessageType =
    | AbandonRequest
    | AddRequest | AddResponse
    | BindRequest | BindResponse
    | CompareRequest | CompareResponse
    | DelRequest | DelResponse
    | ExtendedRequest | ExtendedResponse
    | IntermediateResponse
    | ModifyRequest | ModifyResponse
    | ModifyDnRequest | ModifyDnResponse
    | SearchRequest | SearchResultDone | SearchResultEntry | SearchResultReference
    | UnbindRequest

  /** A message as the decorator sees it: its ID and its operation type. */
  datatype Message = Message(messageId: int32, messageType: MessageType)

  /**
   * Which decorator wraps a message: the pass-through `MessageDecorator`
   * itself, or one of the operation-specific subclasses.
   */
  datatype DecoratorKind =
    | PassThrough
    | AddRequestDecorator | AddResponseDecorator
    | BindRequestDecorator | BindResponseDecorator
    | CompareRequestDecorator | CompareResponseDecorator
    | DeleteResponseDecorator
    | ExtendedRequestDecorator | ExtendedResponseDecorator
    | IntermediateResponseDecorator
    | ModifyRequestDecorator | ModifyResponseDecorator
    | ModifyDnRequestDecorator | ModifyDnResponseDecorator
    | SearchResultDoneDecorator | SearchResultEntryDecorator | SearchResultReferenceDecorator

  /**
   * The operation an operation-specific decorator is written for: the type
   * its constructor casts the message to.  The pass-through decorator is
   * written for none in particular.
   */
  function Decorates(k: DecoratorKind): (t: Option<MessageType>)
    ensures t.None? <==> k == PassThrough
  {
    match k
    case PassThrough => None
    case AddRequestDecorator => Some(AddRequest)
    case AddResponseDecorator => Some(AddResponse)
    case BindRequestDecorator => Some(BindRequest)
    case BindResponseDecorator => Some(BindResponse)
    case CompareRequestDecorator => Some(CompareRequest)
    case CompareResponseDecorator => Some(CompareResponse)
    case DeleteResponseDecorator => Some(DelResponse)
    case ExtendedRequestDecorator => Some(ExtendedRequest)
    case ExtendedResponseDecorator => Some(ExtendedResponse)
    case IntermediateResponseDecorator => Some(IntermediateResponse)
    case ModifyRequestDecorator => Some(ModifyRequest)
    case ModifyResponseDecorator => Some(ModifyResponse)
    case ModifyDnRequestDecorator => Some(ModifyDnRequest)
    case ModifyDnResponseDecorator => Some(ModifyDnResponse)
    case SearchResultDoneDecorator => Some(SearchResultDone)
    case SearchResultEntryDecorator => Some(SearchResultEntry)
    case SearchResultReferenceDecorator => Some(SearchResultReference)
  }

  /**
   * The switch of `getDecorator`: total over the message types.  An
   * operation-specific decorator is chosen exactly when one is written for
   * the type, and then it is that one; every other type, listed or falling to
   * the default arm, gets the pass-through decorator.
   */
  function DecoratorFor(t: MessageType): (k: DecoratorKind)
    ensures k != PassThrough ==> Decorates(k) == Some(t)
    ensures k == PassThrough <==> forall k' :: Decorates(k') != Some(t)
  {
    match t
    case AbandonRequest | DelRequest | UnbindRequest => PassThrough
    case AddRequest => AddRequestDecorator
    case AddResponse => AddResponseDecorator
    case BindRequest => BindRequestDecorator
    case BindResponse => BindResponseDecorator
    case CompareRequest => CompareRequestDecorator
    case CompareResponse => CompareResponseDecorator
    case DelResponse => DeleteResponseDecorator
    case ExtendedRequest => ExtendedRequestDecorator
    case ExtendedResponse => ExtendedResponseDecorator
    case IntermediateResponse => IntermediateResponseDecorator
    case ModifyRequest => ModifyRequestDecorator
    case ModifyResponse => ModifyResponseDecorator
    case ModifyDnRequest => ModifyDnRequestDecorator
    case ModifyDnResponse => ModifyDnResponseDecorator
    case SearchResultDone => SearchResultDoneDecorator
    case SearchResultEntry => SearchResultEntryDecorator
    case SearchResultReference => SearchResultReferenceDecorator
    case _ => PassThrough
  }

  /**
   * The message types that share the pass-through decorator: abandon, delete
   * and unbind requests, and the search request, which no arm lists.
   */
  lemma PassThroughTypes(t: MessageType)
    ensures DecoratorFor(t) == PassThrough <==>
            t == AbandonRequest || t == DelRequest || t == UnbindRequest || t == SearchRequest
  {
  }

  /** Distinct operation-specific types get distinct decorators. */
  lemma DispatchInjective(t1: MessageType, t2: MessageType)
    requires DecoratorFor(t1) == DecoratorFor(t2) != PassThrough
    ensures t1 == t2
  {
  }

  /** Every operation-specific decorator is the one chosen for the type it is written for. */
  lemma EveryDecoratorReachable(k: DecoratorKind)
    requires k != PassThrough
    ensures Decorates(k).Some? && DecoratorFor(Decorates(k).value) == k
  {
  }

  /**
   * A message wrapped with the bookkeeping of one encode cycle: the length
   * of the encoded message and the length of its controls.
   */
  class MessageDecorator {
    /** Which Java class is instantiated: `MessageDecorator` or a subclass. */
    const kind: DecoratorKind
    /** The decorated message; `final` in Java. */
    const decoratedMessage: Message
    /** Length of the whole encoded LDAPMessage, set during an encode cycle. */
    var messageLength: int32
    /** Length of the encoded controls, set during an encode cycle. */
    var controlsLength: int32

    /** `new MessageDecorator(decoratedMessage)`: the pass-through decorator. */
    constructor (decoratedMessage: Message)
      ensures this.decoratedMessage == decoratedMessage && kind == PassThrough
      ensures messageLength == 0 && controlsLength == 0
    {
      this.decoratedMessage := decoratedMessage;
      kind := PassThrough;
      messageLength := 0;
      controlsLength := 0;
    }

    /**
     * The constructor of an operation-specific subclass, which casts the
     * message to the operation type that subclass is written for.
     */
    constructor Specialised(kind: DecoratorKind, decoratedMessage: Message)
      requires Decorates(kind) == Some(decoratedMessage.messageType)
      ensures this.decoratedMessage == decoratedMessage && this.kind == kind
      ensures messageLength == 0 && controlsLength == 0
    {
      this.decoratedMessage := decoratedMessage;
      this.kind := kind;
      messageLength := 0;
      controlsLength := 0;
    }

    /**
     * `getDecorator`: a fresh decorator of the kind the switch selects,
     * wrapping the very message it was given.  It never fails.
     */
    static method GetDecorator(decoratedMessage: Message) returns (d: MessageDecorator)
      ensures fresh(d)
      ensures d.decoratedMessage == decoratedMessage
      ensures d.kind == DecoratorFor(decoratedMessage.messageType)
      ensures d.messageLength == 0 && d.controlsLength == 0
    {
      var k := DecoratorFor(decoratedMessage.messageType);
      if k == PassThrough {
        d := new MessageDecorator(decoratedMessage);
      } else {
        d := new MessageDecorator.Specialised(k, decoratedMessage);
      }
    }

    method GetMessage() returns (m: Message)
      ensures m == decoratedMessage
    {
      m := decoratedMessage;
    }

    method SetControlsLength(controlsLength: int32)
      modifies this`controlsLength
      ensures this.controlsLength == controlsLength
      ensures messageLength == old(messageLength)
    {
      this.controlsLength := controlsLength;
    }

    method GetControlsLength() returns (n: int32)
      ensures n == controlsLength
    {
      n := controlsLength;
    }

    method SetMessageLength(messageLength: int32)
      modifies this`messageLength
      ensures this.messageLength == messageLength
      ensures controlsLength == old(controlsLength)
    {
      this.messageLength := messageLength;
    }

    method GetMessageLength() returns (n: int32)
      ensures n == messageLength
    {
      n := messageLength;
    }
  }
}
