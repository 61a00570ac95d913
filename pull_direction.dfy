/** The two directions in which a loop is pulled through its parent. */
module PullDirections {

  /** `BtF` (back to front) is a knit stitch, `FtB` (front to back) a purl. */
  datatype PullDirection = BtF | FtB

  /** The other direction. */
  function Opposite(d: PullDirection): (r: PullDirection)
    ensures r != d
    ensures d == BtF ==> r == FtB
    ensures d == FtB ==> r == BtF
  {
    if d == BtF then FtB else BtF
  }

  /** Taking the opposite twice gives back the direction. */
  lemma OppositeInvolution(d: PullDirection)
    ensures Opposite(Opposite(d)) == d
  {
  }

  /** The enum value, which is also what `str` prints. */
  function Name(d: PullDirection): (s: string)
    ensures s == "Knit" <==> d == BtF
    ensures s == "Purl" <==> d == FtB
  {
    match d
    case BtF => "Knit"
    case FtB => "Purl"
  }
}
