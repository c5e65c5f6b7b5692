/**
 * The abbreviated wallet address on the connect button
 * (src/components/wallet/ConnectWalletButton.tsx): the first six characters, an
 * ellipsis and the last four, built from clamping `substring` calls.
 */
module ConnectWallet {
  import opened Wrappers
  import Text

  /** `${address.substring(0, 6)}...${address.substring(address.length - 4)}`. */
  function FormatAddress(address: string): (r: string)
    ensures r == address[..Text.Min(6, |address|)] + "..." + address[|address| - Text.Min(4, |address|)..]
  {
    Text.SubstringPrefix(address, 6);
    Text.SubstringSuffix(address, 4);
    Text.Substring(address, 0, 6) + "..." + Text.Substring(address, |address| - 4, |address|)
  }

  /** A full-length address shows six characters, the ellipsis and four characters. */
  lemma LongAddressShape(address: string)
    requires |address| >= 10
    ensures var r := FormatAddress(address);
            |r| == 13 && r == address[..6] + "..." + address[|address| - 4..]
  {
  }

  /** The result opens with a prefix of the address and closes with a suffix of it. */
  lemma FormatAddressFrames(address: string)
    ensures exists p, q :: 0 <= p <= |address| && 0 <= q <= |address|
              && FormatAddress(address) == address[..p] + "..." + address[q..]
  {
    var p, q := Text.Min(6, |address|), |address| - Text.Min(4, |address|);
    assert FormatAddress(address) == address[..p] + "..." + address[q..];
  }

  /** The address shown for the connected wallet, `address || ''`. */
  function AddressLabel(address: Option<string>): (r: string)
    ensures address.None? ==> r == "..."
    ensures address.Some? ==> r == FormatAddress(address.value)
  {
    EmptyAddress();
    FormatAddress(address.GetOr([]))
  }

  /** An empty address shows the bare ellipsis. */
  lemma EmptyAddress()
    ensures FormatAddress([]) == "..."
  {
    var e: string := [];
    assert e[..0] == [] && e[0..] == [];
    assert e[..0] + "..." + e[0..] == "...";
  }

  /** A short address is shown whole, twice over when it is at most four characters. */
  lemma ShortAddressRepeats(address: string)
    requires |address| <= 4
    ensures FormatAddress(address) == address + "..." + address
  {
  }
}
