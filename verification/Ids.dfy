/** Identifiers of clients, requests and sessions: all that is used of one is whether it equals another. */
module Ids {
  type Id = nat
}
