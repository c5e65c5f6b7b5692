/**
 * The display classification of a vault on its detail page
 * (src/components/vault/VaultDetailHeader.tsx): a case-sensitive substring test on
 * the internal vault name picks one of three name and risk-badge triples.
 */
module VaultDetailHeader {
  import Text

  datatype VaultInfo = VaultInfo(displayName: string, riskText: string, badgeClass: string)

  const Conservative := VaultInfo("Conservative Yield Vault", "Low Risk", "bg-emerald/20 text-emerald")
  const Balanced := VaultInfo("Balanced Yield Vault", "Moderate Risk", "bg-orion/20 text-orion")
  const Aggressive := VaultInfo("Aggressive Yield Vault", "High Risk", "bg-nova/20 text-nova")

  /** `getVaultInfo`: `SUI-USDC` first, then `Cetus`, otherwise aggressive. */
  function GetVaultInfo(vaultName: string): (r: VaultInfo)
    ensures r == Conservative <==> Text.Contains(vaultName, "SUI-USDC")
    ensures r == Balanced <==> !Text.Contains(vaultName, "SUI-USDC") && Text.Contains(vaultName, "Cetus")
    ensures r == Aggressive <==> !Text.Contains(vaultName, "SUI-USDC") && !Text.Contains(vaultName, "Cetus")
  {
    if Text.Contains(vaultName, "SUI-USDC") then Conservative
    else if Text.Contains(vaultName, "Cetus") then Balanced
    else Aggressive
  }

  /** Every name gets one of the three classifications. */
  lemma GetVaultInfoIsTotal(vaultName: string)
    ensures GetVaultInfo(vaultName) in {Conservative, Balanced, Aggressive}
  {
  }

  /** A name with both markers is classified by `SUI-USDC`. */
  lemma SuiUsdcTakesPrecedence(prefix: string, middle: string, suffix: string)
    ensures GetVaultInfo(prefix + "SUI-USDC" + middle + "Cetus" + suffix) == Conservative
    ensures GetVaultInfo(prefix + "Cetus" + middle + "SUI-USDC" + suffix) == Conservative
  {
    var a := prefix + "SUI-USDC" + middle + "Cetus" + suffix;
    assert Text.OccursAt(a, "SUI-USDC", |prefix|);
    Text.ContainsIffOccurs(a, "SUI-USDC");
    var b := prefix + "Cetus" + middle + "SUI-USDC" + suffix;
    assert Text.OccursAt(b, "SUI-USDC", |prefix| + 5 + |middle|);
    Text.ContainsIffOccurs(b, "SUI-USDC");
  }

  /** The test is case-sensitive: both markers start with a capital, so a lower-cased name,
      such as "cetus-sui", is never conservative or balanced. */
  lemma LowerCaseNameIsAggressive(name: string)
    ensures GetVaultInfo(Text.ToLower(name)) == Aggressive
  {
    var l := Text.ToLower(name);
    Text.LacksFirstChar(l, "Cetus");
    Text.LacksFirstChar(l, "SUI-USDC");
  }
}
