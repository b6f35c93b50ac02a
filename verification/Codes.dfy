/** The result codes and the reserved xids of the client. */
module Codes {
  const ZOK := 0
  const ZSYSTEMERROR := -1
  const ZRUNTIMEINCONSISTENCY := -2
  const ZCONNECTIONLOSS := -4
  const ZOPERATIONTIMEOUT := -7
  const ZNONODE := -101
  const ZSESSIONEXPIRED := -112
  const ZAUTHFAILED := -115
  const ZNOTHING := -117

  const WATCHER_EVENT_XID := -1
  const PING_XID := -2
  const AUTH_XID := -4
  const SET_WATCHES_XID := -8
}
