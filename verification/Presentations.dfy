/** The signature checks of `createVPWithSignature`, step by step. */
module Presentations {
  import opened Credentials
  import opened Did
  import opened Json
  import opened Wrappers

  /**
   The four recovery methods: all run, and the first that gives the holder decides. Methods 3 and 4
   hash with the prefix themselves and so recover what method 1 does.
   */
  method Recover(crypto: Crypto, holder: string, signature: string, data: string, jwt: string)
    returns (vpJwt: Option<string>)
    ensures vpJwt == Recovered(crypto, holder, signature, data, jwt)
  {
    var addr1 := VerifyMessage(crypto, data, signature);
    if addr1.None? {
      return None;
    }
    var addr2 := VerifyRaw(crypto, data, signature);
    if addr2.None? {
      return None;
    }
    var addr3, addr4 := VerifyMessage(crypto, data, signature), VerifyMessage(crypto, data, signature);
    if addr3.None? || addr4.None? {
      return None;
    }
    if SameAddress(addr1.value, holder) {
      return Some(jwt);
    } else if SameAddress(addr2.value, holder) {
      return Some(jwt);
    } else if SameAddress(addr3.value, holder) {
      return Some(jwt);
    } else if SameAddress(addr4.value, holder) {
      return Some(jwt);
    }
    return None;
  }

  method RecoverAndAssemble(crypto: Crypto, holder: string, signature: string, message: Json, signedData: string)
    returns (vpJwt: Option<string>)
    ensures vpJwt == CreateVp(crypto, holder, signature, message, signedData)
  {
    var data := if signedData != "" then signedData else SigningData(message);
    vpJwt := Recover(crypto, holder, signature, data, AssembleJwt(message, signature));
  }
}
