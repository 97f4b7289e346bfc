/**
 What several models share.
 */
module Common {

  datatype Option<T> = None | Some(value: T)

  /** AgentID: agents and topics are told apart by the flag, never by the name alone. */
  datatype AgentID = AgentID(name: string, isTopic: bool)
}
