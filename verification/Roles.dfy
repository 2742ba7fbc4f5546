/** The role constants shared by games, invitations and packets (include/game.h). */
module Roles {
  datatype Role = NullRole | First | Second

  function Opponent(r: Role): Role {
    if r == First then Second else First
  }
}
