/** roomUserMap: which call or meeting room each connection is in. Calls (GroupCalls) and meetings
    (MeetSignaling) both write it. */
module Rooms {
  import opened Common

  type UserId = nat

  // One connection of a signed-in person. A connection's peerId is made from exactly these two.
  datatype Socket = Socket(id: nat, user: UserId)

  type CallId = nat
  type Code = nat

  // A meeting's main room, or its breakout room number `index` (from 0). The number is any that an
  // assignment held; nothing makes it whole.
  datatype MeetingRoom = Main | Room(index: real)

  datatype Entry =
    | InCall(call: CallId)
    | InMeeting(code: Code, room: MeetingRoom, owner: UserId, inLobby: bool, waiting: bool)

  type RoomMap = map<Socket, Entry>
}
