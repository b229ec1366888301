/**
 * Trust decisions of the manager: the demotion of an identity the cipher
 * does not trust (`Manager.decryptMessage`) and the trust a user grants to
 * one of a contact's known keys (`Manager.trustIdentity`).
 */
module ManagerTrust {
  import opened Wrappers
  import opened SignalTypes
  import opened Account

  // ---------------------------------------------------------------------------
  // decryptMessage

  /** What the cipher makes of an envelope: content (none for an empty message), an untrusted identity, or another failure. */
  datatype Decryption =
    | Decrypted(content: Option<Content>)
    | UntrustedIdentityFault(name: Address, key: IdentityKey)
    | OtherFailure

  /** The exception `decryptMessage` throws: the untrusted identity, or any other decryption failure. */
  datatype DecryptFailure = UntrustedIdentityError(name: Address, key: IdentityKey) | DecryptionError

  /** `decryptMessage`: the content, or the failure, and the identity table after it. */
  function DecryptSpec(st: AccountState, d: Decryption): (Result<Option<Content>, DecryptFailure>, AccountState)
  {
    match d
    case Decrypted(content) => (Ok(content), st)
    case UntrustedIdentityFault(name, key) =>
      (Err(UntrustedIdentityError(name, key)), st.(identities := st.identities[(name, key) := Untrusted]))
    case OtherFailure => (Err(DecryptionError), st)
  }

  /**
   * An identity the cipher refuses is saved as untrusted and reported; no
   * other row and no other store changes, and every other outcome leaves
   * the state alone.
   */
  lemma UntrustedIdentityDemoted(st: AccountState, d: Decryption)
    ensures var (r, after) := DecryptSpec(st, d);
      && (d.UntrustedIdentityFault? ==>
            && r == Err(UntrustedIdentityError(d.name, d.key))
            && (d.name, d.key) in after.identities && after.identities[(d.name, d.key)] == Untrusted
            && (forall row :: row in st.identities && row != (d.name, d.key) ==> row in after.identities && after.identities[row] == st.identities[row])
            && after.(identities := st.identities) == st)
      && (!d.UntrustedIdentityFault? ==> after == st)
      && (r.Ok? <==> d.Decrypted?)
  {
  }

  /** `decryptMessage` with the cipher as an oracle on the envelope. */
  method DecryptMessage(account: AccountData, envelope: Envelope, decrypt: Envelope -> Decryption)
    returns (r: Result<Option<Content>, DecryptFailure>)
    modifies account
    ensures (r, account.State()) == DecryptSpec(old(account.State()), decrypt(envelope))
  {
    var d := decrypt(envelope);
    match d {
      case Decrypted(content) =>
        r := Ok(content);
      case UntrustedIdentityFault(name, key) =>
        account.SaveIdentity(name, key, Untrusted);
        r := Err(UntrustedIdentityError(name, key));
      case OtherFailure =>
        r := Err(DecryptionError);
    }
  }

  // ---------------------------------------------------------------------------
  // trustIdentity

  /** The keys known for an address (`getIdentities`). */
  function KeysOf(identities: IdentityTable, address: Address): set<IdentityKey>
  {
    set row | row in identities && row.0 == address :: row.1
  }

  /** `trustIdentity`: whether the fingerprint is a known key of the address, and the identity table after it. */
  function TrustSpec(identities: IdentityTable, address: Address, fingerprint: IdentityKey, level: TrustLevel): (bool, IdentityTable)
  {
    if fingerprint in KeysOf(identities, address) then (true, identities[(address, fingerprint) := level])
    else (false, identities)
  }

  /**
   * Trust is granted only to a key already known for the address: the
   * answer is true exactly then, no row is ever added, and no other row
   * changes.
   */
  lemma TrustOnlyKnownKeys(identities: IdentityTable, address: Address, fingerprint: IdentityKey, level: TrustLevel)
    ensures var (b, after) := TrustSpec(identities, address, fingerprint, level);
      && (b <==> (address, fingerprint) in identities)
      && after.Keys == identities.Keys
      && (b ==> after[(address, fingerprint)] == level)
      && (forall row :: row in identities && row != (address, fingerprint) ==> after[row] == identities[row])
  {
    if (address, fingerprint) in identities {
      assert fingerprint in KeysOf(identities, address);
    }
  }

  /** Granting the same trust twice is granting it once. */
  lemma TrustIdempotent(identities: IdentityTable, address: Address, fingerprint: IdentityKey, level: TrustLevel)
    ensures var once := TrustSpec(identities, address, fingerprint, level);
      TrustSpec(once.1, address, fingerprint, level) == once
  {
    var once := TrustSpec(identities, address, fingerprint, level);
    TrustOnlyKnownKeys(identities, address, fingerprint, level);
    TrustOnlyKnownKeys(once.1, address, fingerprint, level);
    if once.0 {
      assert once.1[(address, fingerprint) := level] == once.1;
    }
  }

  /**
   * `trustIdentity`: walks the keys known for the address, saves the
   * level for the one equal to the fingerprint and answers whether there
   * was one. The verified-state sync it then sends has its errors caught
   * and is not part of this model.
   */
  method TrustIdentity(account: AccountData, address: Address, fingerprint: IdentityKey, level: TrustLevel)
    returns (b: bool)
    modifies account
    ensures (b, account.State().identities) == TrustSpec(old(account.State().identities), address, fingerprint, level)
    ensures account.State() == old(account.State()).(identities := account.identities)
  {
    var ids := KeysOf(account.identities, address);
    while ids != {}
      invariant ids <= KeysOf(account.identities, address)
      invariant fingerprint in KeysOf(account.identities, address) ==> fingerprint in ids
      invariant account.State() == old(account.State())
      decreases |ids|
    {
      var key :| key in ids;
      if key == fingerprint {
        account.SaveIdentity(address, key, level);
        return true;
      }
      ids := ids - {key};
    }
    return false;
  }
}
