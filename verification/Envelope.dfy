/** The encrypted backup file: a big-endian length, a JSON header of that length, and the ciphertext. */
module Envelope {
  import opened Wrappers

  type Byte = x: int | 0 <= x < 256
  type Bytes = seq<Byte>

  datatype Error = InvalidBackup | IdentityMismatch | IntegrityFailed

  datatype Header = Header(backupId: string, agentId: string, iv: string, tag: string, plaintextSha256: string,
      createdAt: string)

  // ---------------------------------------------------------------- identifiers

  predicate IdStart(c: char) {
    'A' <= c <= 'Z' || 'a' <= c <= 'z' || '0' <= c <= '9'
  }

  predicate IdChar(c: char) {
    IdStart(c) || c == '.' || c == '_' || c == ':' || c == '-'
  }

  /** `^[A-Za-z0-9][A-Za-z0-9._:-]{0,127}$` */
  predicate Identifier(s: string) {
    0 < |s| <= 128 && IdStart(s[0]) && forall i | 0 <= i < |s| :: IdChar(s[i])
  }

  // ---------------------------------------------------------------- header

  predicate Ascii(s: string) {
    forall i | 0 <= i < |s| :: s[i] as int < 128
  }

  /** Text that JSON prints as it is. */
  predicate Unescaped(s: string) {
    forall i | 0 <= i < |s| :: ' ' <= s[i] <= '~' && s[i] != '"' && s[i] != '\\'
  }

  /** The header a backup is written with: identifiers, and fixed-width encodings of its other fields. */
  predicate WellFormed(h: Header) {
    && Identifier(h.backupId) && Identifier(h.agentId)
    && |h.iv| == 16 && |h.tag| == 24 && |h.plaintextSha256| == 64 && |h.createdAt| <= 27
    && Unescaped(h.iv) && Unescaped(h.tag) && Unescaped(h.plaintextSha256) && Unescaped(h.createdAt)
  }

  const H1 := "{\"schemaVersion\":\"1.0\",\"backupId\":\""
  const H2 := "\",\"agentId\":\""
  const H3 := "\",\"algorithm\":\"aes-256-gcm\",\"iv\":\""
  const H4 := "\",\"tag\":\""
  const H5 := "\",\"plaintextSha256\":\""
  const H6 := "\",\"createdAt\":\""
  const H7 := "\"}"

  function HeaderJson(h: Header): string {
    H1 + h.backupId + H2 + h.agentId + H3 + h.iv + H4 + h.tag + H5 + h.plaintextSha256 + H6 + h.createdAt + H7
  }

  function Utf8(s: string): (bytes: Bytes)
    requires Ascii(s)
    ensures |bytes| == |s|
  {
    seq(|s|, i requires 0 <= i < |s| => s[i] as int)
  }

  lemma HeaderParts()
    ensures |H1| == 35 && |H2| == 13 && |H3| == 34 && |H4| == 9 && |H5| == 21 && |H6| == 15 && |H7| == 2
    ensures Ascii(H1) && Ascii(H2) && Ascii(H3) && Ascii(H4) && Ascii(H5) && Ascii(H6) && Ascii(H7)
  {
    HeaderParts1();
    HeaderParts2();
  }

  lemma HeaderParts1() ensures |H1| == 35 && |H2| == 13 && |H3| == 34 && Ascii(H1) && Ascii(H2) && Ascii(H3) {}

  lemma HeaderParts2()
    ensures |H4| == 9 && |H5| == 21 && |H6| == 15 && |H7| == 2 && Ascii(H4) && Ascii(H5) && Ascii(H6) && Ascii(H7)
  {
  }

  lemma AsciiConcat(a: string, b: string)
    requires Ascii(a) && Ascii(b)
    ensures Ascii(a + b)
  {
  }

  lemma IdentifierAscii(s: string)
    requires Identifier(s)
    ensures Ascii(s)
  {
    assert forall i | 0 <= i < |s| :: IdChar(s[i]);
  }

  /** Because identifiers have at most 128 characters, the header fits the reader's 2..16384 check. */
  lemma HeaderFits(h: Header)
    requires WellFormed(h)
    ensures Ascii(HeaderJson(h)) && 2 <= |HeaderJson(h)| <= 16384
  {
    HeaderParts();
    IdentifierAscii(h.backupId);
    IdentifierAscii(h.agentId);
    var s := H1 + h.backupId;
    AsciiConcat(H1, h.backupId);
    AsciiConcat(s, H2);
    AsciiConcat(s + H2, h.agentId);
    HeaderRest(s + H2 + h.agentId, h);
  }

  lemma HeaderRest(s: string, h: Header)
    requires WellFormed(h) && Ascii(s) && |s| <= 400
    ensures var all := s + H3 + h.iv + H4 + h.tag + H5 + h.plaintextSha256 + H6 + h.createdAt + H7;
      Ascii(all) && 2 <= |all| <= 16384
  {
    HeaderParts();
    AsciiConcat(s, H3);
    AsciiConcat(s + H3, h.iv);
    var t := s + H3 + h.iv;
    AsciiConcat(t, H4);
    AsciiConcat(t + H4, h.tag);
    AsciiConcat(t + H4 + h.tag, H5);
    var u := t + H4 + h.tag + H5;
    AsciiConcat(u, h.plaintextSha256);
    AsciiConcat(u + h.plaintextSha256, H6);
    AsciiConcat(u + h.plaintextSha256 + H6, h.createdAt);
    AsciiConcat(u + h.plaintextSha256 + H6 + h.createdAt, H7);
  }

  // ---------------------------------------------------------------- length prefix

  function UInt32BE(n: nat): (bytes: Bytes)
    requires n < 0x1_0000_0000
    ensures |bytes| == 4
  {
    var high, low := n / 0x1_0000, n % 0x1_0000;
    [high / 0x100, high % 0x100, low / 0x100, low % 0x100]
  }

  function ReadUInt32BE(bytes: Bytes): nat
    requires |bytes| >= 4
  {
    var b0: nat, b1: nat, b2: nat, b3: nat := bytes[0], bytes[1], bytes[2], bytes[3];
    (b0 * 0x100 + b1) * 0x1_0000 + (b2 * 0x100 + b3)
  }

  lemma ReadWritten(n: nat, rest: Bytes)
    requires n < 0x1_0000_0000
    ensures ReadUInt32BE(UInt32BE(n) + rest) == n
  {
    var high, low := n / 0x1_0000, n % 0x1_0000;
    assert high / 0x100 * 0x100 + high % 0x100 == high && low / 0x100 * 0x100 + low % 0x100 == low;
  }

  lemma WrittenRead(bytes: Bytes)
    requires |bytes| == 4
    ensures ReadUInt32BE(bytes) < 0x1_0000_0000 && UInt32BE(ReadUInt32BE(bytes)) == bytes
  {
    var b0: nat, b1: nat, b2: nat, b3: nat := bytes[0], bytes[1], bytes[2], bytes[3];
    var high, low := b0 * 0x100 + b1, b2 * 0x100 + b3;
    assert high < 0x1_0000 && low < 0x1_0000;
    assert (high * 0x1_0000 + low) / 0x1_0000 == high && (high * 0x1_0000 + low) % 0x1_0000 == low;
    assert high / 0x100 == b0 && high % 0x100 == b1 && low / 0x100 == b2 && low % 0x100 == b3;
  }

  // ---------------------------------------------------------------- the envelope

  /** Library functions: JSON.parse on header bytes, AES-256-GCM under the supervisor's key, SHA-256. */
  datatype Crypto = Crypto(
    parseHeader: Bytes -> Option<Header>,
    encrypt: (string, Bytes) -> Bytes,
    tag: (string, Bytes) -> string,
    decrypt: (string, string, Bytes) -> Option<Bytes>,
    sha256: Bytes -> string)
  {
    /** Parsing inverts printing, decryption inverts encryption, and tags and digests have fixed width. */
    ghost predicate Valid() {
      && (forall h | WellFormed(h) && Ascii(HeaderJson(h)) :: parseHeader(Utf8(HeaderJson(h))) == Some(h))
      && (forall iv, plain :: decrypt(iv, tag(iv, plain), encrypt(iv, plain)) == Some(plain))
      && (forall iv, plain :: |encrypt(iv, plain)| == |plain|)
      && (forall iv, plain :: |tag(iv, plain)| == 24 && Unescaped(tag(iv, plain)))
      && (forall plain :: |sha256(plain)| == 64 && Unescaped(sha256(plain)))
    }
  }

  function HeaderFor(crypto: Crypto, backupId: string, agentId: string, iv: string, createdAt: string, plain: Bytes)
    : Header
  {
    Header(backupId, agentId, iv, crypto.tag(iv, plain), crypto.sha256(plain), createdAt)
  }

  /** The framing of `createBackup`. */
  function Frame(h: Header, encrypted: Bytes): Bytes
    requires Ascii(HeaderJson(h)) && |HeaderJson(h)| < 0x1_0000_0000
  {
    UInt32BE(|HeaderJson(h)|) + Utf8(HeaderJson(h)) + encrypted
  }

  /** `readBackup`, from the bytes of the file on. */
  function ReadBackup(crypto: Crypto, input: Bytes, backupId: string, agentId: string): Result<Bytes, Error> {
    if |input| < 7 then Err(InvalidBackup) else
    var length := ReadUInt32BE(input);
    if length < 2 || length > 16384 || |input| <= 4 + length then Err(InvalidBackup) else
    var header := crypto.parseHeader(input[4..4 + length]);
    if header.None? then Err(InvalidBackup) else
    OpenBackup(crypto, header.value, input[4 + length..], backupId, agentId)
  }

  function OpenBackup(crypto: Crypto, h: Header, encrypted: Bytes, backupId: string, agentId: string)
    : Result<Bytes, Error>
  {
    if h.backupId != backupId || !Identifier(h.agentId) || h.agentId != agentId then Err(IdentityMismatch) else
    var plain := crypto.decrypt(h.iv, h.tag, encrypted);
    if plain.None? || crypto.sha256(plain.value) != h.plaintextSha256 then Err(IntegrityFailed) else Ok(plain.value)
  }

  /** Framing and header come apart again, whatever the ciphertext. */
  lemma UnframeFrame(h: Header, encrypted: Bytes)
    requires WellFormed(h) && Ascii(HeaderJson(h)) && 2 <= |HeaderJson(h)| <= 16384
    ensures var output := Frame(h, encrypted);
      var length := |HeaderJson(h)|;
      && |output| == 4 + length + |encrypted| && ReadUInt32BE(output) == length
      && output[4..4 + length] == Utf8(HeaderJson(h)) && output[4 + length..] == encrypted
  {
    var json := Utf8(HeaderJson(h));
    var size := UInt32BE(|json|);
    ReadWritten(|json|, json + encrypted);
    assert Frame(h, encrypted) == size + (json + encrypted);
  }

  /** The length of a header of 2 to 16384 bytes, the header, and some ciphertext. */
  predicate Framed(input: Bytes, header: Bytes, encrypted: Bytes) {
    2 <= |header| <= 16384 && encrypted != [] && input == UInt32BE(|header|) + header + encrypted
  }

  /** The header is one for the backup and the agent, and the ciphertext decrypts under it to a plaintext
      with its digest. */
  predicate OpensTo(crypto: Crypto, header: Bytes, encrypted: Bytes, backupId: string, agentId: string, plain: Bytes) {
    && crypto.parseHeader(header).Some?
    && var h := crypto.parseHeader(header).value;
    && h.backupId == backupId && h.agentId == agentId && Identifier(agentId)
    && crypto.decrypt(h.iv, h.tag, encrypted) == Some(plain) && crypto.sha256(plain) == h.plaintextSha256
  }

  /** A file is read as a plaintext exactly if it is a frame that opens to it. */
  lemma ReadExactly(crypto: Crypto, input: Bytes, backupId: string, agentId: string, plain: Bytes)
    ensures ReadBackup(crypto, input, backupId, agentId) == Ok(plain) <==>
            exists header, encrypted :: Framed(input, header, encrypted) &&
              OpensTo(crypto, header, encrypted, backupId, agentId, plain)
  {
    if ReadBackup(crypto, input, backupId, agentId) == Ok(plain) {
      var length := ReadUInt32BE(input);
      var size, header, encrypted := input[..4], input[4..4 + length], input[4 + length..];
      assert ReadUInt32BE(size) == length;
      WrittenRead(size);
      assert input == size + header + encrypted;
      assert Framed(input, header, encrypted);
    }
    forall header, encrypted | Framed(input, header, encrypted) &&
        OpensTo(crypto, header, encrypted, backupId, agentId, plain)
      ensures ReadBackup(crypto, input, backupId, agentId) == Ok(plain)
    {
      assert input == UInt32BE(|header|) + (header + encrypted);
      ReadWritten(|header|, header + encrypted);
      assert input[4..4 + |header|] == header && input[4 + |header|..] == encrypted;
    }
  }

  /** What is sealed for an agent under an id is what reading it for that agent and id gives back. */
  lemma BackupRoundTrip(crypto: Crypto, backupId: string, agentId: string, iv: string, createdAt: string, plain: Bytes)
    requires crypto.Valid() && Identifier(backupId) && Identifier(agentId) && plain != []
    requires |iv| == 16 && Unescaped(iv) && |createdAt| <= 27 && Unescaped(createdAt)
    ensures var h := HeaderFor(crypto, backupId, agentId, iv, createdAt, plain);
      && Ascii(HeaderJson(h)) && |HeaderJson(h)| <= 16384
      && ReadBackup(crypto, Frame(h, crypto.encrypt(iv, plain)), backupId, agentId) == Ok(plain)
  {
    var h := HeaderFor(crypto, backupId, agentId, iv, createdAt, plain);
    HeaderFits(h);
    UnframeFrame(h, crypto.encrypt(iv, plain));
  }

  /** A backup is read for no other agent and under no other id. */
  lemma BackupBound(crypto: Crypto, backupId: string, agentId: string, iv: string, createdAt: string, plain: Bytes,
                    otherId: string, otherAgent: string)
    requires crypto.Valid() && Identifier(backupId) && Identifier(agentId) && plain != []
    requires |iv| == 16 && Unescaped(iv) && |createdAt| <= 27 && Unescaped(createdAt)
    requires otherId != backupId || otherAgent != agentId
    ensures var h := HeaderFor(crypto, backupId, agentId, iv, createdAt, plain);
      && Ascii(HeaderJson(h)) && |HeaderJson(h)| <= 16384
      && ReadBackup(crypto, Frame(h, crypto.encrypt(iv, plain)), otherId, otherAgent) == Err(IdentityMismatch)
  {
    var h := HeaderFor(crypto, backupId, agentId, iv, createdAt, plain);
    HeaderFits(h);
    UnframeFrame(h, crypto.encrypt(iv, plain));
  }
}
