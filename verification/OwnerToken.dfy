/** The owner token: a lock record's id, written as text by Guid.ToString,
    encrypted by IEncryptor.Encrypt; decoding reverses both steps. The
    encryptor and the Guid text form are parameters of the model. */
module OwnerToken {
  import opened Text
  import opened Wrappers
  import opened LockTable

  /** `encrypt`/`decrypt` are IEncryptor's two operations; `guidToString` is
      Guid.ToString and `parseGuid` is Guid.Parse, None where it throws. */
  datatype OwnerCodec = OwnerCodec(
    encrypt: ClrString -> ClrString,
    decrypt: ClrString -> ClrString,
    guidToString: Guid -> ClrString,
    parseGuid: ClrString -> Option<Guid>)
  {
    /** The encryptor is reversible with its fixed key and IV, and Guid.Parse
        reads back what Guid.ToString writes. */
    ghost predicate RoundTrips() {
      && (forall s :: decrypt(encrypt(s)) == s)
      && (forall g: Guid :: parseGuid(guidToString(g)) == Some(g))
    }

    /** `_encryptor.Encrypt(id.ToString())`: release and verify decode an
        issued token back to the id it was made from. */
    function Encode(id: Guid): (token: ClrString)
      ensures RoundTrips() ==> Decode(token) == Some(id)
    {
      encrypt(guidToString(id))
    }

    /** `Guid.Parse(_encryptor.Decrypt(lockOwner))`, None where Guid.Parse
        throws. A token that does not decode was never issued for any id. */
    function Decode(lockOwner: ClrString): (id: Option<Guid>)
      ensures RoundTrips() && id.None? ==>
                forall g: Guid :: lockOwner != encrypt(guidToString(g))
    {
      parseGuid(decrypt(lockOwner))
    }

    /** Distinct ids never share a token. */
    lemma EncodeInjective(a: Guid, b: Guid)
      requires RoundTrips()
      ensures Encode(a) == Encode(b) ==> a == b
    {
    }
  }
}
