/** The states of a connection, shared by the models of its output and of its lifetime. */
module ConnectionStates {
  datatype State = Connecting | Connected | Disconnecting | Disconnected

  function StateRank(t: State): nat {
    match t case Connecting => 0 case Connected => 1 case Disconnecting => 2 case Disconnected => 3
  }
}
