/** Sealing the keystore at rest, and the portable passphrase-encrypted backup. */
module PortableBackup {
  import opened Prelude
  import opened BackupKey
  import opened Crypto
  import Hex
  import opened Records

  const BACKUP_MAGIC: string := "vaults-bridge-backup"
  const BACKUP_VERSION: nat := 1
  const BACKUP_KDF: string := "pbkdf2-hmac-sha256"
  const BACKUP_KDF_ITERATIONS: nat := 200_000
  const BACKUP_SALT_BYTES: nat := 16

  datatype BackupFile = BackupFile(
    magic: string, version: nat, kdf: string, iterations: nat,
    saltHex: string, nonceHex: string, ciphertextHex: string)

  datatype Error =
    | SealFailed | OpenFailed | PassphraseRequired | Unsupported | Malformed | Serde

  /** JSON of the record list and of the backup file. */
  datatype Json = Json(
    printRecords: seq<Record> -> seq<byte>,
    parseRecords: seq<byte> -> Option<seq<Record>>,
    printFile: BackupFile -> seq<byte>,
    parseFile: seq<byte> -> Option<BackupFile>)

  ghost predicate RoundTrips(j: Json) {
    && (forall rs {:trigger j.printRecords(rs)} :: j.parseRecords(j.printRecords(rs)) == Some(rs))
    && (forall f {:trigger j.printFile(f)} :: j.parseFile(j.printFile(f)) == Some(f))
  }

  /** The foreign code the backup rests on. */
  datatype Primitives = Primitives(cipher: Cipher, hmac: Hmac, json: Json)

  // ----- at rest ----------------------------------------------------------------

  function SealStore(p: Primitives, key: Block, iv: Iv, records: seq<Record>): Option<seq<byte>> {
    Seal(p.cipher, key, iv, p.json.printRecords(records))
  }

  function OpenStore(p: Primitives, key: Block, blob: seq<byte>): Result<seq<Record>, Error> {
    var raw := Unseal(p.cipher, key, blob);
    if raw.None? then Err(OpenFailed)
    else
      var records := p.json.parseRecords(raw.value);
      if records.None? then Err(Serde) else Ok(records.value)
  }

  /** The durable blob is a faithful copy of the records. */
  lemma OpenSealedStore(p: Primitives, key: Block, iv: Iv, records: seq<Record>)
    requires RoundTrips(p.json)
    ensures var blob := SealStore(p, key, iv, records);
            blob.Some? ==> OpenStore(p, key, blob.value) == Ok(records)
  {
    UnsealSeal(p.cipher, key, iv, p.json.printRecords(records));
  }

  // ----- portable backup ----------------------------------------------------------

  function FileFor(salt: seq<byte>, sealed: seq<byte>): BackupFile
    requires |sealed| >= IV_BYTES
  {
    BackupFile(BACKUP_MAGIC, BACKUP_VERSION, BACKUP_KDF, BACKUP_KDF_ITERATIONS,
               Hex.Encode(salt), Hex.Encode(sealed[..IV_BYTES]), Hex.Encode(sealed[IV_BYTES..]))
  }

  /** Where salt, iv and ciphertext stand in the file. */
  lemma FileLayout(p: Primitives, key: Block, iv: Iv, records: seq<Record>, salt: seq<byte>)
    ensures var sealed, ct := SealStore(p, key, iv, records), p.cipher.encrypt(key, iv, p.json.printRecords(records));
            && (sealed.Some? <==> ct.Some?)
            && (sealed.Some? ==>
                  FileFor(salt, sealed.value)
                  == BackupFile("vaults-bridge-backup", 1, "pbkdf2-hmac-sha256", 200_000,
                                Hex.Encode(salt), Hex.Encode(iv), Hex.Encode(ct.value)))
  {
    var ct := p.cipher.encrypt(key, iv, p.json.printRecords(records));
    if ct.Some? {
      assert (iv + ct.value)[..IV_BYTES] == iv && (iv + ct.value)[IV_BYTES..] == ct.value;
    }
  }

  method ExportBackup(p: Primitives, records: seq<Record>, passphrase: seq<byte>, salt: seq<byte>, iv: Iv)
    returns (r: Result<seq<byte>, Error>)
    requires |salt| == BACKUP_SALT_BYTES
    ensures passphrase == [] ==> r == Err(PassphraseRequired)
    ensures passphrase != [] ==>
      var sealed := SealStore(p, T1(p.hmac, passphrase, salt, BACKUP_KDF_ITERATIONS), iv, records);
      r == if sealed.None? then Err(SealFailed) else Ok(p.json.printFile(FileFor(salt, sealed.value)))
  {
    if passphrase == [] {
      return Err(PassphraseRequired);
    }
    var raw := p.json.printRecords(records);
    var key := DeriveBackupKey(p.hmac, passphrase, salt, BACKUP_KDF_ITERATIONS);
    var sealed := Seal(p.cipher, key.value, iv, raw);
    if sealed.None? {
      return Err(SealFailed);
    }
    return Ok(p.json.printFile(FileFor(salt, sealed.value)));
  }

  predicate Supported(file: BackupFile) {
    file.magic == BACKUP_MAGIC && file.version == BACKUP_VERSION
    && file.kdf == BACKUP_KDF && file.iterations == BACKUP_KDF_ITERATIONS
  }

  /** Salt, nonce and ciphertext of a file, if all three are hex and the first two have their length. */
  function Decoded(file: BackupFile): Option<(seq<byte>, seq<byte>, seq<byte>)> {
    match (Hex.Decode(file.saltHex), Hex.Decode(file.nonceHex), Hex.Decode(file.ciphertextHex))
    case (Ok(salt), Ok(nonce), Ok(ct)) =>
      if |salt| == BACKUP_SALT_BYTES && |nonce| == IV_BYTES then Some((salt, nonce, ct)) else None
    case _ => None
  }

  function Decrypted(p: Primitives, passphrase: seq<byte>, file: BackupFile): Result<seq<Record>, Error> {
    if !Supported(file) then Err(Unsupported)
    else
      match Decoded(file)
      case None => Err(Malformed)
      case Some((salt, nonce, ct)) => OpenStore(p, T1(p.hmac, passphrase, salt, file.iterations), nonce + ct)
  }

  /** Every other format is refused, and in this one exactly the files with a bad field. */
  lemma OnlySupported(p: Primitives, passphrase: seq<byte>, file: BackupFile)
    ensures var supported := file.magic == "vaults-bridge-backup" && file.version == 1
                             && file.kdf == "pbkdf2-hmac-sha256" && file.iterations == 200_000;
            var salt, nonce, ct := Hex.Decode(file.saltHex), Hex.Decode(file.nonceHex), Hex.Decode(file.ciphertextHex);
            && (Decrypted(p, passphrase, file) == Err(Unsupported) <==> !supported)
            && (Decrypted(p, passphrase, file) == Err(Malformed) <==>
                  supported && !(salt.Ok? && |salt.value| == 16 && nonce.Ok? && |nonce.value| == 12 && ct.Ok?))
  {
  }

  method RecordsFromBackup(p: Primitives, passphrase: seq<byte>, backup: seq<byte>)
    returns (r: Result<seq<Record>, Error>)
    ensures passphrase == [] ==> r == Err(PassphraseRequired)
    ensures passphrase != [] && p.json.parseFile(backup).None? ==> r == Err(Serde)
    ensures passphrase != [] && p.json.parseFile(backup).Some?
        ==> r == Decrypted(p, passphrase, p.json.parseFile(backup).value)
  {
    if passphrase == [] {
      return Err(PassphraseRequired);
    }
    var parsed := p.json.parseFile(backup);
    if parsed.None? {
      return Err(Serde);
    }
    var file := parsed.value;
    if file.magic != BACKUP_MAGIC || file.version != BACKUP_VERSION || file.kdf != BACKUP_KDF
       || file.iterations != BACKUP_KDF_ITERATIONS {
      return Err(Unsupported);
    }
    var salt := Hex.HexToBytes(file.saltHex);
    if salt.Err? || |salt.value| != BACKUP_SALT_BYTES {
      return Err(Malformed);
    }
    var nonce := Hex.HexToBytes(file.nonceHex);
    if nonce.Err? || |nonce.value| != IV_BYTES {
      return Err(Malformed);
    }
    var ciphertext := Hex.HexToBytes(file.ciphertextHex);
    if ciphertext.Err? {
      return Err(Malformed);
    }
    var key := DeriveBackupKey(p.hmac, passphrase, salt.value, file.iterations);
    return OpenStore(p, key.value, nonce.value + ciphertext.value);
  }

  /** A backup decrypts, with the passphrase it was made with, to the records it was made from. */
  lemma {:induction false} BackupRoundTrip(p: Primitives, records: seq<Record>, passphrase: seq<byte>, salt: seq<byte>,
                                           iv: Iv)
    requires RoundTrips(p.json) && passphrase != [] && |salt| == BACKUP_SALT_BYTES
    requires SealStore(p, T1(p.hmac, passphrase, salt, BACKUP_KDF_ITERATIONS), iv, records).Some?
    ensures var sealed := SealStore(p, T1(p.hmac, passphrase, salt, BACKUP_KDF_ITERATIONS), iv, records).value;
            var parsed := p.json.parseFile(p.json.printFile(FileFor(salt, sealed)));
            parsed.Some? && Decrypted(p, passphrase, parsed.value) == Ok(records)
  {
    var key := T1(p.hmac, passphrase, salt, BACKUP_KDF_ITERATIONS);
    var sealed := SealStore(p, key, iv, records).value;
    Hex.DecodeEncode(salt);
    Hex.DecodeEncode(sealed[..IV_BYTES]);
    Hex.DecodeEncode(sealed[IV_BYTES..]);
    assert sealed[..IV_BYTES] + sealed[IV_BYTES..] == sealed;
    OpenSealedStore(p, key, iv, records);
  }
}
