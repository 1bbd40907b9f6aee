/** The state of a connection, TcpConnection::StateE, as both its output side and
    the server's bookkeeping see it. */
module ConnectionState {
  datatype ConnState = Disconnected | Connecting | Connected | Disconnecting
}
