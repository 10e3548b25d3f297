/** The two sides of the game (Assets/Scripts/Constants.cs). */
module Constants {

  /** Black moves toward decreasing rows, White toward increasing rows. */
  datatype Side = Black | White {

    function Opponent(): (r: Side)
      ensures r != this
      ensures r == Black || this == Black
    {
      if this == Black then White else Black
    }
  }
}
