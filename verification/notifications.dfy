/**
 * Outbound notifications. Delivery belongs to the transport; the model only records
 * who a notification is addressed to and what it carries.
 */
module Notifications {
  import opened Wrappers
  import opened Entities

  /** Who receives a notification. */
  datatype Audience =
    | Lobby                                        // every lobby subscriber (`roomsPubSub.emit`)
    | Sender(conn: Id)                             // the connection that raised the event (`socket.emit`)
    | Peers(channel: Option<string>, sender: Id)   // a channel except the sender (`socket.to(channel).emit`)

  /** The payload of a notification, named after the event constant it is sent under. */
  datatype Event =
    | LobbyUpdated(rooms: map<RoomId, Room>)       // LOBBY_UPDATED with every stored room
    | ActiveUsers(users: seq<Attendee>)            // LOBBY_UPDATED with one room's members (join reply)
    | UserConnected(user: Attendee)                // USER_CONNECTED
    | UserDisconnected(user: Attendee)             // USER_DISCONNECTED
    | UpgradeUserPermission(user: Attendee)        // UPGRADE_USER_PERMISSION
    | SpeakRequest(user: Attendee)                 // SPEAK_REQUEST

  datatype Notification = Notification(to: Audience, event: Event)
}
