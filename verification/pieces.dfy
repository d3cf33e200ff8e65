/**
 Pieces of the variant: only kings, bishops, knights and rooks. A piece
 carries its colour, its kind and the index of the square it stands on.
 */
module Pieces {

  datatype Color = White | Black

  datatype Kind = King | Bishop | Knight | Rook

  datatype Piece = Piece(color: Color, kind: Kind, pos: int)
}
