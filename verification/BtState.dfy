/** Connection states and the transitions that are expected. */
module BtState {

  datatype State =
    | Initializing
    | Idle
    | Inquiry
    | Connecting
    | Connected
    | ServiceDiscovery
    | Authenticating
    | Ready
    | Disconnected
    | OpeningControl
    | SettingBootProtocol
    | OpeningInterrupt
    | HidConnected

  predicate TransitionAllowed(from: State, to: State) {
    || from == to
    || to == Idle
    || to == Disconnected
    || match from
       case Idle => to == Inquiry || to == Connecting
       case Inquiry => to == Connecting
       case Connecting => to == Connected
       case Connected => to == Authenticating
       case Authenticating => to == ServiceDiscovery
       case ServiceDiscovery => to == OpeningControl
       case OpeningControl => to == SettingBootProtocol
       case SettingBootProtocol => to == OpeningInterrupt
       case OpeningInterrupt => to == HidConnected
       case _ => false
  }

  /** An ACL link exists in these states. */
  predicate HasLink(state: State) {
    state in {Connected, Authenticating, ServiceDiscovery, OpeningControl, SettingBootProtocol, OpeningInterrupt,
              HidConnected}
  }
}
