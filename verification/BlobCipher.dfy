// Encrypted record format: "enc:" followed by the base64 text of
// nonce ++ ciphertext ++ tag. The cipher itself, AES-GCM in the source, is a
// parameter of which only this is used: opening inverts sealing, and sealing
// adds a tag.
module BlobCipher {
  import opened ByteStrings
  import Base64

  const PREFIX: Bytes := [101, 110, 99, 58]   // "enc:"
  const NONCE_SIZE := 12
  const TAG_SIZE := 16

  type Nonce = n: Bytes | |n| == NONCE_SIZE witness seq(NONCE_SIZE, _ => 0)

  predicate EncryptionEnabled(key: Bytes) {
    TrimSpace(key) != []
  }

  // Encryption is on exactly if some octet of the key is not white space.
  lemma EncryptionEnabledIff(key: Bytes)
    ensures EncryptionEnabled(key) <==> NotBlank(key)
  {
    TrimEmptyIff(key);
  }

  // An authenticated cipher: seal(key, nonce, plain) and its inverse.
  datatype Aead = Aead(seal: (Bytes, Nonce, Bytes) -> Bytes, open: (Bytes, Nonce, Bytes) -> Option<Bytes>)
  {
    ghost predicate Sound() {
      forall key, nonce, plain :: OpensAgain(key, nonce, plain)
    }

    ghost predicate OpensAgain(key: Bytes, nonce: Nonce, plain: Bytes) {
      var sealed := seal(key, nonce, plain);
      open(key, nonce, sealed) == Some(plain) && |sealed| == |plain| + TAG_SIZE
    }
  }

  function EncryptBlob(aead: Aead, plain: Bytes, key: Bytes, nonce: Nonce): Bytes {
    PREFIX + Base64.Encode(nonce + aead.seal(key, nonce, plain))
  }

  function OpenText(aead: Aead, text: Bytes, key: Bytes): Option<Bytes> {
    match Base64.Decode(text)
    case None => None
    case Some(payload) =>
      if |payload| < NONCE_SIZE then None
      else aead.open(key, payload[..NONCE_SIZE], payload[NONCE_SIZE..])
  }

  // Data without the prefix is returned untouched; bad base64, a short payload
  // or a failed integrity check is an error.
  function DecryptBlob(aead: Aead, data: Bytes, key: Bytes): Option<Bytes> {
    var raw := TrimSpace(data);
    if HasPrefix(raw, PREFIX) then OpenText(aead, raw[|PREFIX|..], key) else Some(data)
  }

  lemma EncryptedIsSpaceFree(aead: Aead, plain: Bytes, key: Bytes, nonce: Nonce)
    ensures SpaceFree(EncryptBlob(aead, plain, key, nonce))
    ensures aead.Sound() ==> |EncryptBlob(aead, plain, key, nonce)| == 4 + (|plain| + NONCE_SIZE + TAG_SIZE + 2) / 3 * 4
  {
    var text := Base64.Encode(nonce + aead.seal(key, nonce, plain));
    assert aead.Sound() ==> aead.OpensAgain(key, nonce, plain);
    forall i | 0 <= i < |text| ensures !IsSpace(text[i]) {
      assert Base64.InAlphabet(text[i]);
    }
  }

  lemma OpenTextInvertsSeal(aead: Aead, plain: Bytes, key: Bytes, nonce: Nonce)
    requires aead.Sound()
    ensures OpenText(aead, Base64.Encode(nonce + aead.seal(key, nonce, plain)), key) == Some(plain)
  {
    hide Base64.Encode, Base64.Decode;
    var payload := nonce + aead.seal(key, nonce, plain);
    Base64.RoundTrip(payload);
    assert payload[..NONCE_SIZE] == nonce && payload[NONCE_SIZE..] == aead.seal(key, nonce, plain);
    assert aead.OpensAgain(key, nonce, plain);
  }

  lemma DecryptPrefixed(aead: Aead, raw: Bytes, key: Bytes)
    requires SpaceFree(raw) && HasPrefix(raw, PREFIX)
    ensures DecryptBlob(aead, raw, key) == OpenText(aead, raw[|PREFIX|..], key)
  {
    TrimSpaceFree(raw);
  }

  // Whatever sound cipher, key and nonce: a record decrypts to its payload.
  lemma DecryptInvertsEncrypt(aead: Aead, plain: Bytes, key: Bytes, nonce: Nonce)
    requires aead.Sound()
    ensures DecryptBlob(aead, EncryptBlob(aead, plain, key, nonce), key) == Some(plain)
  {
    hide Base64.Encode, OpenText, DecryptBlob, Aead.Sound;
    var blob := EncryptBlob(aead, plain, key, nonce);
    EncryptedIsSpaceFree(aead, plain, key, nonce);
    assert blob[|PREFIX|..] == Base64.Encode(nonce + aead.seal(key, nonce, plain)) && blob[..|PREFIX|] == PREFIX;
    DecryptPrefixed(aead, blob, key);
    OpenTextInvertsSeal(aead, plain, key, nonce);
  }

  // Text without the prefix, white space aside, is handed back as it is.
  lemma PlainIsKept(aead: Aead, data: Bytes, key: Bytes)
    requires SpaceFree(data) && !(PREFIX <= data)
    ensures DecryptBlob(aead, data, key) == Some(data)
  {
    TrimSpaceFree(data);
  }

  // Whatever sits behind the prefix, the cipher alone decides what it opens to.
  lemma OpenDecides(aead: Aead, nonce: Nonce, sealed: Bytes, key: Bytes)
    ensures DecryptBlob(aead, PREFIX + Base64.Encode(nonce + sealed), key) == aead.open(key, nonce, sealed)
  {
    hide DecryptBlob, Base64.Decode;
    var text := Base64.Encode(nonce + sealed);
    var blob := PREFIX + text;
    assert blob[|PREFIX|..] == text && blob[..|PREFIX|] == PREFIX;
    assert SpaceFree(blob) by {
      forall i | 0 <= i < |text| ensures !IsSpace(text[i]) { assert Base64.InAlphabet(text[i]); }
    }
    hide Base64.Encode;
    DecryptPrefixed(aead, blob, key);
    Base64.RoundTrip(nonce + sealed);
    assert (nonce + sealed)[..NONCE_SIZE] == nonce && (nonce + sealed)[NONCE_SIZE..] == sealed;
  }

  lemma TextIsSpaceFree(payload: Bytes)
    ensures SpaceFree(PREFIX + Base64.Encode(payload))
  {
    var text := Base64.Encode(payload);
    forall i | 0 <= i < |text| ensures !IsSpace(text[i]) {
      assert Base64.InAlphabet(text[i]);
    }
  }

  // Too short for a nonce, and the record is refused.
  lemma ShortIsRefused(aead: Aead, payload: Bytes, key: Bytes)
    requires |payload| < NONCE_SIZE
    ensures DecryptBlob(aead, PREFIX + Base64.Encode(payload), key) == None
  {
    hide DecryptBlob, Base64.Decode, Base64.Encode, SpaceFree;
    var text := Base64.Encode(payload);
    var blob := PREFIX + text;
    TextIsSpaceFree(payload);
    assert blob[|PREFIX|..] == text && blob[..|PREFIX|] == PREFIX;
    DecryptPrefixed(aead, blob, key);
    Base64.RoundTrip(payload);
  }

  // encryptBlob and decryptBlob as the spool uses them.
  datatype RecordFormat = RecordFormat(encrypt: (Bytes, Bytes, Nonce) -> Bytes, decrypt: (Bytes, Bytes) -> Option<Bytes>)
  {
    // A record opens again, has no white space and a length known beforehand.
    ghost predicate Sound() {
      forall plain, key, nonce :: OpensAgain(plain, key, nonce)
    }

    ghost predicate OpensAgain(plain: Bytes, key: Bytes, nonce: Nonce) {
      var record := encrypt(plain, key, nonce);
      && decrypt(record, key) == Some(plain)
      && SpaceFree(record)
      && |record| == 4 + (|plain| + NONCE_SIZE + TAG_SIZE + 2) / 3 * 4
    }
  }

  function FormatOf(aead: Aead): RecordFormat {
    RecordFormat((plain, key, nonce) => EncryptBlob(aead, plain, key, nonce), (data, key) => DecryptBlob(aead, data, key))
  }

  // With a sound cipher the record format is sound.
  lemma FormatIsSound(aead: Aead)
    requires aead.Sound()
    ensures FormatOf(aead).Sound()
  {
    hide EncryptBlob, DecryptBlob, Aead.Sound;
    forall plain, key, nonce ensures FormatOf(aead).OpensAgain(plain, key, nonce) {
      EncryptedIsSpaceFree(aead, plain, key, nonce);
      DecryptInvertsEncrypt(aead, plain, key, nonce);
    }
  }

  // Sound ciphers exist: here one that appends a plain tag.
  lemma SoundAeadExists() returns (aead: Aead)
    ensures aead.Sound()
  {
    var tag := seq(TAG_SIZE, _ => 0);
    aead := Aead((_, _, plain) => plain + tag, (_, _, sealed) => if |sealed| < TAG_SIZE then None else Some(sealed[..|sealed| - TAG_SIZE]));
    forall key, nonce, plain ensures aead.OpensAgain(key, nonce, plain) {
      assert (plain + tag)[..|plain|] == plain;
    }
  }
}
