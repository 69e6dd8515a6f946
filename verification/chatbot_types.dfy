/**
 * The data model of the legacy chatbot editor: two node kinds with
 * kind-specific data, and plain edges.
 */
module ChatbotTypes {
  import opened FlowTypes

  datatype ChatbotNodeType = TextMessage | Button
  {
    /** The enum's string value, also used as the node's type and id prefix. */
    function Name(): string
    {
      match this
      case TextMessage => "textMessage"
      case Button => "button"
    }
  }

  datatype ChatbotNodeData = TextData(text: string) | ButtonData(buttonText: string, buttonValue: string)

  datatype ChatbotNode = ChatbotNode(id: string, nodeType: ChatbotNodeType, position: Position, data: ChatbotNodeData)
}
