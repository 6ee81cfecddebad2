/** A command's short-lived broker session: connect, publish one STATE-SET
    write, disconnect. The transport itself is not modelled; only how far a
    session gets before something raises. */
module Session {

  /** Where a session raises, if anywhere. The commands catch every raise
      and report failure. */
  datatype Link = Healthy | FailsOnConnect | FailsOnWrite | FailsOnDisconnect

  /** One `set_numeric_state(key, value)` write. */
  datatype Write = Write(key: string, value: string)

  /** The write left the client: the session got past publishing. */
  predicate Published(link: Link) {
    link == Healthy || link == FailsOnDisconnect
  }
}
