/**
 * The set of live subscribers (main.go:30-44) and the `/metrics` handler that fills it
 * (main.go:199-221).
 */
module Connections {
  import opened Wrappers

  /** One subscriber's duplex channel; only its identity matters here, as for a `*websocket.Conn`. */
  class Connection {
  }

  /** The global `connections` map, whose values are always `true`: a set of members. */
  class Registry {
    var connections: set<Connection>

    constructor ()
      ensures connections == {}
    {
      connections := {};
    }

    /** `addConnection`: `c` becomes a member and nobody else's membership changes. */
    method AddConnection(c: Connection)
      modifies this
      ensures connections == old(connections) + {c}
    {
      connections := connections + {c};
    }

    /** `removeConnection`: `c` is no longer a member; removing a non-member changes nothing. */
    method RemoveConnection(c: Connection)
      modifies this
      ensures connections == old(connections) - {c}
    {
      connections := connections - {c};
    }
  }

  /** The JSON body the handler answers with when the upgrade fails. */
  datatype ErrorReply = ErrorReply(status: int, error: string, message: string)

  const StatusBadRequest: int := 400
  const UpgradeFailedMessage: string := "Could not open websocket connection"

  /**
   * The `/metrics` handler, given the outcome of the protocol upgrade: a failed upgrade is
   * answered with a 400 reply and registers nothing; a new channel is registered (its watcher
   * later leaves through `RemoveConnection`).
   */
  method HandleMetricsRequest(registry: Registry, upgrade: Result<Connection, string>)
    returns (reply: Option<ErrorReply>)
    modifies registry
    ensures upgrade.Failure? ==>
      reply == Some(ErrorReply(StatusBadRequest, upgrade.error, UpgradeFailedMessage)) &&
      registry.connections == old(registry.connections)
    ensures upgrade.Success? ==>
      reply == None && registry.connections == old(registry.connections) + {upgrade.value}
  {
    if upgrade.Failure? {
      return Some(ErrorReply(StatusBadRequest, upgrade.error, UpgradeFailedMessage));
    }
    registry.AddConnection(upgrade.value);
    reply := None;
  }
}
