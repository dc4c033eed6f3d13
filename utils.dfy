/** Display helpers. */
module Utils {

  /**
   * `formatAddress(address)`: the empty string stays empty, a string shorter than ten characters is
   * shown whole, and anything longer is cut to its first six and last four characters around `...`.
   */
  function FormatAddress(address: string): (r: string)
    ensures address == [] ==> r == []
    ensures |address| < 10 ==> r == address
    ensures |address| >= 10 ==>
      (|r| == 13 && r[..6] == address[..6] && r[6..9] == "..." && r[9..] == address[|address| - 4..])
  {
    if address == [] then []
    else if |address| < 10 then address
    else address[..6] + "..." + address[|address| - 4..]
  }

  /** Shortening an already shortened address changes nothing. */
  lemma FormatAddressIdempotent(address: string)
    ensures FormatAddress(FormatAddress(address)) == FormatAddress(address)
  {
    var r := FormatAddress(address);
    if |address| >= 10 {
      assert r[..6] + "..." + r[|r| - 4..] == r[..6] + r[6..9] + r[9..];
      assert r == r[..6] + r[6..9] + r[9..];
    }
  }

}
