/**
 * Node creation for the legacy chatbot editor. The clock and the random
 * suffix are supplied by the caller in place of `Date.now()` and the nine
 * base-36 digits taken from `Math.random()`.
 */
module CreateChatbotNode {
  import opened Base
  import opened FlowTypes
  import opened ChatbotTypes

  datatype Result<T> = Ok(value: T) | Err(error: string)

  /** `generateNodeId`: the type, the timestamp and the random digits, joined by `-`. */
  function GenerateNodeId(nodeType: ChatbotNodeType, now: nat, randomDigits: string): (r: string)
    ensures |r| > |nodeType.Name()| && r[..|nodeType.Name()| + 1] == nodeType.Name() + "-"
  {
    var prefix := nodeType.Name() + "-";
    var r := prefix + Decimal(now) + "-" + randomDigits;
    assert r[..|prefix|] == prefix;
    r
  }

  /** `createTextMessageNode` */
  function CreateTextMessageNode(position: Position, now: nat, randomDigits: string): (r: ChatbotNode)
    ensures r.nodeType == TextMessage && r.position == position && r.data == TextData("")
    ensures r.id == GenerateNodeId(TextMessage, now, randomDigits)
  {
    ChatbotNode(GenerateNodeId(TextMessage, now, randomDigits), TextMessage, position, TextData(""))
  }

  /** `createButtonMessageNode` */
  function CreateButtonMessageNode(position: Position, now: nat, randomDigits: string): (r: ChatbotNode)
    ensures r.nodeType == Button && r.position == position && r.data == ButtonData("", "")
    ensures r.id == GenerateNodeId(Button, now, randomDigits)
  {
    ChatbotNode(GenerateNodeId(Button, now, randomDigits), Button, position, ButtonData("", ""))
  }

  /** The node type named by a string, if any. */
  function ParseNodeType(name: string): (r: Option<ChatbotNodeType>)
    ensures r.Some? ==> r.value.Name() == name
    ensures r.None? ==> name != TextMessage.Name() && name != Button.Name()
  {
    if name == TextMessage.Name() then Some(TextMessage)
    else if name == Button.Name() then Some(Button)
    else None
  }

  /**
   * `createChatbotNode`: the factory for the named type, or the error the
   * default branch throws for any other name.
   */
  function CreateChatbotNode(nodeType: string, position: Position, now: nat, randomDigits: string): (r: Result<ChatbotNode>)
    ensures r.Err? <==> ParseNodeType(nodeType).None?
    ensures r.Err? ==> r.error == "Unknown node type: " + nodeType
    ensures r.Ok? ==> r.value.nodeType.Name() == nodeType && r.value.position == position
  {
    match ParseNodeType(nodeType)
    case Some(TextMessage) => Ok(CreateTextMessageNode(position, now, randomDigits))
    case Some(Button) => Ok(CreateButtonMessageNode(position, now, randomDigits))
    case None => Err("Unknown node type: " + nodeType)
  }

  /** The data of a created node matches its kind: empty text, or empty button text and value. */
  lemma CreatedDataMatchesKind(nodeType: string, position: Position, now: nat, randomDigits: string)
    requires CreateChatbotNode(nodeType, position, now, randomDigits).Ok?
    ensures var n := CreateChatbotNode(nodeType, position, now, randomDigits).value;
      && (n.nodeType == TextMessage ==> n.data == TextData(""))
      && (n.nodeType == Button ==> n.data == ButtonData("", ""))
      && n.id[..|nodeType| + 1] == nodeType + "-"
  {
  }

  /** Ids of nodes of different types differ, whatever the clock and random digits. */
  lemma DifferentTypesDifferentIds(now1: nat, digits1: string, now2: nat, digits2: string)
    ensures GenerateNodeId(TextMessage, now1, digits1) != GenerateNodeId(Button, now2, digits2)
  {
    var a := GenerateNodeId(TextMessage, now1, digits1);
    var b := GenerateNodeId(Button, now2, digits2);
    assert a[0] == 't' && b[0] == 'b';
  }
}
