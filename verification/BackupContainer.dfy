/**
  The encrypted backup file: magic, 32-bit big-endian header length, header, ciphertext, tag.
  The cipher is a parameter: a byte-wise stream cipher with an authentication tag over header and
  ciphertext.  So are the header check and the digest.
 */
module BackupContainer {
  import opened Outcomes
  import opened ByteOrder

  /** `QPDBENC2` */
  const MAGIC: Bytes := [0x51, 0x50, 0x44, 0x42, 0x45, 0x4e, 0x43, 0x32]
  const HEADER_LENGTH_BYTES: nat := 4
  const NONCE_BYTES: nat := 12
  const TAG_BYTES: nat := 16
  const MAX_HEADER_BYTES: nat := 64 * 1024
  const CHUNK_BYTES: nat := 4 * 1024 * 1024

  /** One key and nonce: the keystream at every offset in both directions, and the tag. */
  datatype Cipher = Cipher(mask: (nat, Byte) -> Byte, unmask: (nat, Byte) -> Byte, tag: (Bytes, Bytes) -> Bytes)

  ghost predicate CipherOk(c: Cipher) {
    && (forall i, b :: c.unmask(i, c.mask(i, b)) == b)
    && (forall i, b :: c.mask(i, c.unmask(i, b)) == b)
    && (forall a, ct :: |c.tag(a, ct)| == TAG_BYTES)
  }

  /** The authenticated facts of a header that verification uses. */
  datatype Header<!D> = Header(keyId: string, nonce: Bytes, plaintextBytes: nat, plaintextDigest: D)

  /** Everything that depends on the key, the JSON codec and the hash. */
  datatype Suite<!D(==)> = Suite(
    keyId: string,
    cipher: Bytes -> Cipher,
    header: Bytes -> Option<Header<D>>,
    digest: Bytes -> D)

  ghost predicate SuiteOk<D>(suite: Suite<D>) {
    forall nonce :: CipherOk(suite.cipher(nonce))
  }

  datatype Evidence<D> = Evidence(plaintextBytes: nat, plaintextDigest: D, ciphertextBytes: nat, header: Bytes)

  // ----- framing

  function BigEndian(n: nat): (b: Bytes)
    requires n < 0x1_0000_0000
    ensures |b| == HEADER_LENGTH_BYTES
  {
    [n / 0x100 / 0x100 / 0x100, n / 0x100 / 0x100 % 0x100, n / 0x100 % 0x100, n % 0x100]
  }

  function Shift(n: nat, b: Byte): nat {
    n * 0x100 + b
  }

  function FromBigEndian(b: Bytes): (n: nat)
    requires |b| == HEADER_LENGTH_BYTES
    ensures n < 0x1_0000_0000
  {
    Shift(Shift(Shift(b[0], b[1]), b[2]), b[3])
  }

  lemma ShiftInverse(n: nat, b: Byte)
    ensures Shift(n, b) / 0x100 == n && Shift(n, b) % 0x100 == b
    ensures Shift(n / 0x100, n % 0x100) == n
  {}

  lemma BigEndianRoundTrip(n: nat)
    requires n < 0x1_0000_0000
    ensures FromBigEndian(BigEndian(n)) == n
  {
    hide Shift;
    ShiftInverse(n, 0);
    ShiftInverse(n / 0x100, 0);
    ShiftInverse(n / 0x100 / 0x100, 0);
  }

  lemma FromBigEndianRoundTrip(b: Bytes)
    requires |b| == HEADER_LENGTH_BYTES
    ensures BigEndian(FromBigEndian(b)) == b
  {
    hide Shift;
    ShiftInverse(b[0], b[1]);
    ShiftInverse(Shift(b[0], b[1]), b[2]);
    ShiftInverse(Shift(Shift(b[0], b[1]), b[2]), b[3]);
  }

  function AssociatedData(header: Bytes): Bytes
    requires |header| <= MAX_HEADER_BYTES
  {
    MAGIC + BigEndian(|header|) + header
  }

  function Masked(c: Cipher, offset: nat, plain: Bytes): (ct: Bytes)
    ensures |ct| == |plain|
  {
    seq(|plain|, i requires 0 <= i < |plain| => c.mask(offset + i, plain[i]))
  }

  function Unmasked(c: Cipher, offset: nat, ct: Bytes): (plain: Bytes)
    ensures |plain| == |ct|
  {
    seq(|ct|, i requires 0 <= i < |ct| => c.unmask(offset + i, ct[i]))
  }

  function Container(c: Cipher, header: Bytes, plain: Bytes): Bytes
    requires |header| <= MAX_HEADER_BYTES
  {
    AssociatedData(header) + Masked(c, 0, plain) + c.tag(AssociatedData(header), Masked(c, 0, plain))
  }

  lemma MaskInverse(c: Cipher, offset: nat, bytes: Bytes)
    requires CipherOk(c)
    ensures Unmasked(c, offset, Masked(c, offset, bytes)) == bytes
    ensures Masked(c, offset, Unmasked(c, offset, bytes)) == bytes
  {}

  // ----- file handles

  /** A binary handle; reads may be short, and are empty only at the end. */
  class Reader {
    const data: Bytes
    var pos: nat

    ghost predicate Valid()
      reads this
    {
      pos <= |data|
    }

    constructor (data: Bytes)
      ensures Valid() && this.data == data && pos == 0
    {
      this.data := data;
      this.pos := 0;
    }

    method Read(limit: nat) returns (chunk: Bytes)
      requires Valid() && limit > 0
      modifies this
      ensures Valid() && |chunk| <= limit && pos == old(pos) + |chunk|
      ensures chunk == data[old(pos)..pos]
      ensures chunk == [] <==> old(pos) == |data|
    {
      var available := |data| - pos;
      var n: int := *;
      if n < 1 || n > limit || n > available { n := if available < limit then available else limit; }
      chunk := data[pos..pos + n];
      pos := pos + n;
    }

    method Seek(offset: nat)
      requires offset <= |data|
      modifies this
      ensures Valid() && pos == offset
    {
      pos := offset;
    }
  }

  class Writer {
    var contents: Bytes

    constructor ()
      ensures contents == []
    {
      contents := [];
    }

    method Write(bytes: Bytes)
      modifies this
      ensures contents == old(contents) + bytes
    {
      contents := contents + bytes;
    }
  }

  lemma MaskedChunk(c: Cipher, plain: Bytes, done: nat, chunk: Bytes)
    requires done + |chunk| <= |plain| && chunk == plain[done..done + |chunk|]
    ensures Masked(c, 0, plain[..done + |chunk|]) == Masked(c, 0, plain[..done]) + Masked(c, done, chunk)
  {}

  lemma Appended(a: Bytes, b: Bytes, c: Bytes, d: Bytes)
    ensures a + (b + c) + d == a + (b + (c + d))
  {}

  /** `_encrypt_stream`: the file does not depend on how the source was cut into chunks. */
  method EncryptStream(source: Reader, target: Writer, c: Cipher, header: Bytes)
    requires source.Valid() && |header| <= MAX_HEADER_BYTES
    modifies source, target
    ensures source.Valid() && source.pos == |source.data|
    ensures target.contents == old(target.contents) + Container(c, header, source.data[old(source.pos)..])
  {
    hide Masked, BigEndian;
    ghost var plain := source.data[source.pos..];
    ghost var start := source.pos;
    var associated := MAGIC + BigEndian(|header|) + header;
    target.Write(associated);
    var ciphertext := Masked(c, 0, []);
    var chunk := source.Read(CHUNK_BYTES);
    while chunk != []
      invariant source.Valid() && start <= source.pos && |ciphertext| + |chunk| == source.pos - start
      invariant chunk == plain[|ciphertext|..source.pos - start]
      invariant ciphertext == Masked(c, 0, plain[..|ciphertext|])
      invariant target.contents == old(target.contents) + (associated + ciphertext)
      invariant chunk == [] ==> source.pos == |source.data|
      decreases |source.data| - source.pos + |chunk|
    {
      var update := Masked(c, |ciphertext|, chunk);
      MaskedChunk(c, plain, |ciphertext|, chunk);
      Appended(old(target.contents), associated, ciphertext, update);
      target.Write(update);
      ciphertext := ciphertext + update;
      chunk := source.Read(CHUNK_BYTES);
    }
    assert plain[..|ciphertext|] == plain;
    target.Write(c.tag(associated, ciphertext));
  }

  // ----- verification

  /** A file that is the encryption of `plain` under the facts of its own header. */
  ghost predicate Encrypts<D>(suite: Suite<D>, data: Bytes, header: Bytes, plain: Bytes) {
    && 0 < |header| <= 65536 && plain != []
    && suite.header(header).Some?
    && var facts := suite.header(header).value;
       && facts.keyId == suite.keyId
       && facts.plaintextBytes == |plain| && facts.plaintextDigest == suite.digest(plain)
       && data == Container(suite.cipher(facts.nonce), header, plain)
  }

  const PREFIX: nat := |MAGIC| + HEADER_LENGTH_BYTES

  /** The header bytes that the length field announces, if the file is long enough. */
  function HeaderOf(data: Bytes): Option<Bytes> {
    if |data| < PREFIX || data[..|MAGIC|] != MAGIC then None
    else
      var n := FromBigEndian(data[|MAGIC|..PREFIX]);
      if 0 < n <= MAX_HEADER_BYTES && PREFIX + n <= |data| then Some(data[PREFIX..PREFIX + n]) else None
  }

  lemma ContainerHeader(c: Cipher, header: Bytes, plain: Bytes)
    requires CipherOk(c) && 0 < |header| <= MAX_HEADER_BYTES
    ensures var data := Container(c, header, plain);
            && HeaderOf(data) == Some(header)
            && |data| == PREFIX + |header| + |plain| + TAG_BYTES
            && data[PREFIX + |header|..|data| - TAG_BYTES] == Masked(c, 0, plain)
            && data[|data| - TAG_BYTES..] == c.tag(AssociatedData(header), Masked(c, 0, plain))
  {
    hide BigEndian, FromBigEndian, Masked, CipherOk;
    TagLength(c, AssociatedData(header), Masked(c, 0, plain));
    BigEndianRoundTrip(|header|);
    Pieces(MAGIC, BigEndian(|header|), header, Masked(c, 0, plain), c.tag(AssociatedData(header), Masked(c, 0, plain)));
  }

  /** The file byte by byte: eight letters, four bytes of header length with the highest first, the header, every
      byte of plaintext masked at its own offset, and sixteen bytes of tag over all that comes before. */
  lemma FileLayout(c: Cipher, header: Bytes, plain: Bytes)
    requires CipherOk(c) && 0 < |header| <= 65536
    ensures var data, h := Container(c, header, plain), |header|;
            && |data| == 12 + h + |plain| + 16
            && (forall i | 0 <= i < 8 :: data[i] == "QPDBENC2"[i] as int)
            && data[8] as int * 0x1000000 + data[9] as int * 0x10000 + data[10] as int * 0x100 + data[11] == h
            && data[12..12 + h] == header
            && (forall i | 0 <= i < |plain| :: data[12 + h + i] == c.mask(i, plain[i]))
            && data[|data| - 16..] == c.tag(data[..12 + h], data[12 + h..|data| - 16])
  {
    ContainerHeader(c, header, plain);
    LengthField(|header|);
    var data := Container(c, header, plain);
    hide BigEndian, CipherOk, HeaderOf;
    assert data[..12 + |header|] == AssociatedData(header);
    assert data[12..12 + |header|] == header;
    assert forall i | 0 <= i < 4 :: data[8 + i] == BigEndian(|header|)[i];
    assert forall i | 0 <= i < |plain| :: data[12 + |header| + i] == Masked(c, 0, plain)[i];
  }

  lemma LengthField(n: nat)
    requires n < 0x1_0000_0000
    ensures var b := BigEndian(n);
            b[0] as int * 0x1000000 + b[1] as int * 0x10000 + b[2] as int * 0x100 + b[3] == n
  {}

  lemma TagLength(c: Cipher, associated: Bytes, ciphertext: Bytes)
    requires CipherOk(c)
    ensures |c.tag(associated, ciphertext)| == TAG_BYTES
  {}

  lemma Pieces(magic: Bytes, length: Bytes, header: Bytes, ciphertext: Bytes, tag: Bytes)
    ensures var data := magic + length + header + ciphertext + tag;
            && data[..|magic|] == magic && data[|magic|..|magic| + |length|] == length
            && data[|magic| + |length|..|magic| + |length| + |header|] == header
            && data[|magic| + |length| + |header|..|data| - |tag|] == ciphertext && data[|data| - |tag|..] == tag
  {}

  /** What the announced header says of the front of the file. */
  lemma HeaderFront(data: Bytes)
    requires HeaderOf(data).Some?
    ensures var header := HeaderOf(data).value;
            |header| <= MAX_HEADER_BYTES && PREFIX + |header| <= |data|
                && data[..PREFIX + |header|] == AssociatedData(header)
  {
    hide BigEndian, FromBigEndian;
    var header := HeaderOf(data).value;
    FromBigEndianRoundTrip(data[|MAGIC|..PREFIX]);
    assert data[..PREFIX + |header|] == data[..|MAGIC|] + data[|MAGIC|..PREFIX] + data[PREFIX..PREFIX + |header|];
  }

  lemma ContainerOf(c: Cipher, header: Bytes, ciphertext: Bytes)
    requires CipherOk(c) && |header| <= MAX_HEADER_BYTES
    ensures Container(c, header, Unmasked(c, 0, ciphertext)) ==
            AssociatedData(header) + ciphertext + c.tag(AssociatedData(header), ciphertext)
  {
    hide AssociatedData, Masked, Unmasked, CipherOk;
    MaskInverse(c, 0, ciphertext);
  }

  /** The other way round: a file with a matching tag is a container. */
  lemma HeaderContainer(c: Cipher, data: Bytes)
    requires CipherOk(c) && HeaderOf(data).Some?
    requires |data| > PREFIX + |HeaderOf(data).value| + TAG_BYTES
    requires var header := HeaderOf(data).value;
             var end := PREFIX + |header|;
             data[|data| - TAG_BYTES..] == c.tag(data[..end], data[end..|data| - TAG_BYTES])
    ensures var header := HeaderOf(data).value;
            var plain := Unmasked(c, 0, data[PREFIX + |header|..|data| - TAG_BYTES]);
            data == Container(c, header, plain) && data[..PREFIX + |header|] == AssociatedData(header)
  {
    hide HeaderOf, AssociatedData, Container, Unmasked, CipherOk;
    HeaderFront(data);
    var end := PREFIX + |HeaderOf(data).value|;
    ContainerOf(c, HeaderOf(data).value, data[end..|data| - TAG_BYTES]);
    assert data == data[..end] + data[end..|data| - TAG_BYTES] + data[|data| - TAG_BYTES..];
  }

  /** The decryption loop of `verify_encrypted`. */
  method DecryptStream(handle: Reader, c: Cipher, length: nat) returns (plain: Bytes)
    requires handle.Valid() && handle.pos + length <= |handle.data|
    modifies handle
    ensures handle.Valid()
    ensures plain == Unmasked(c, 0, handle.data[old(handle.pos)..old(handle.pos) + length])
  {
    plain := [];
    ghost var start := handle.pos;
    var remaining := length;
    while remaining > 0
      invariant handle.Valid() && handle.pos == start + (length - remaining) && 0 <= remaining <= length
      invariant plain == Unmasked(c, 0, handle.data[start..handle.pos])
    {
      ghost var before := handle.pos;
      var chunk := handle.Read(if CHUNK_BYTES < remaining then CHUNK_BYTES else remaining);
      assert chunk != [];
      remaining := remaining - |chunk|;
      assert handle.data[start..handle.pos] == handle.data[start..before] + chunk;
      plain := plain + Unmasked(c, |plain|, chunk);
    }
  }

  /** What any encryption looks like to the checks of `verify_encrypted`. */
  lemma EncryptedShape<D>(suite: Suite<D>, data: Bytes, header: Bytes, plain: Bytes)
    requires SuiteOk(suite) && Encrypts(suite, data, header, plain)
    ensures HeaderOf(data) == Some(header) && |data| == PREFIX + |header| + |plain| + TAG_BYTES
    ensures var c := suite.cipher(suite.header(header).value.nonce);
            var end := PREFIX + |header|;
            && data[..end] == AssociatedData(header)
            && data[|data| - TAG_BYTES..] == c.tag(data[..end], data[end..|data| - TAG_BYTES])
            && plain == Unmasked(c, 0, data[end..|data| - TAG_BYTES])
  {
    var c := suite.cipher(suite.header(header).value.nonce);
    assert CipherOk(c);
    ContainerHeader(c, header, plain);
    MaskInverse(c, 0, plain);
    assert data[..PREFIX + |header|] == AssociatedData(header);
  }

  /** The checks of `verify_encrypted`, in their order. */
  ghost predicate Accepted<D>(suite: Suite<D>, data: Bytes) {
    && |data| > PREFIX + NONCE_BYTES + TAG_BYTES
    && HeaderOf(data).Some? && Authentic(suite, data, HeaderOf(data).value)
  }

  ghost predicate Authentic<D>(suite: Suite<D>, data: Bytes, header: Bytes)
    requires PREFIX + |header| <= |data|
  {
    var end := PREFIX + |header|;
    && suite.header(header).Some?
    && |data| - end - TAG_BYTES > 0
    && var facts := suite.header(header).value;
       var c := suite.cipher(facts.nonce);
       var ciphertext := data[end..|data| - TAG_BYTES];
    && facts.keyId == suite.keyId
    && data[|data| - TAG_BYTES..] == c.tag(data[..end], ciphertext)
    && facts.plaintextBytes == |Unmasked(c, 0, ciphertext)|
    && facts.plaintextDigest == suite.digest(Unmasked(c, 0, ciphertext))
  }

  lemma AcceptedIsEncrypted<D>(suite: Suite<D>, data: Bytes) returns (header: Bytes, plain: Bytes)
    requires SuiteOk(suite) && Accepted(suite, data)
    ensures Some(header) == HeaderOf(data) && Encrypts(suite, data, header, plain) && |header| + |plain| > NONCE_BYTES
    ensures plain == Unmasked(suite.cipher(suite.header(header).value.nonce), 0,
            data[PREFIX + |header|..|data| - TAG_BYTES])
  {
    header := HeaderOf(data).value;
    var c := suite.cipher(suite.header(header).value.nonce);
    assert CipherOk(c);
    HeaderContainer(c, data);
    plain := Unmasked(c, 0, data[PREFIX + |header|..|data| - TAG_BYTES]);
  }

  lemma EncryptedIsAccepted<D>(suite: Suite<D>, data: Bytes, header: Bytes, plain: Bytes)
    requires SuiteOk(suite) && Encrypts(suite, data, header, plain) && |header| + |plain| > NONCE_BYTES
    ensures Accepted(suite, data)
  {
    EncryptedShape(suite, data, header, plain);
  }

  /** The file holds at most one header and plaintext: what `verify_encrypted` reports is what was
      encrypted. */
  lemma EncryptsUnique<D>(suite: Suite<D>, data: Bytes, header: Bytes, plain: Bytes, header': Bytes, plain': Bytes)
    requires SuiteOk(suite) && Encrypts(suite, data, header, plain) && Encrypts(suite, data, header', plain')
    ensures header == header' && plain == plain'
  {
    EncryptedShape(suite, data, header, plain);
    EncryptedShape(suite, data, header', plain');
  }

  /** The framing checks of `verify_encrypted`. */
  method ReadHeader(data: Bytes) returns (r: Result<Bytes>)
    ensures r.Ok? <==> |data| > PREFIX + NONCE_BYTES + TAG_BYTES && HeaderOf(data).Some?
    ensures r.Ok? ==> Some(r.value) == HeaderOf(data) && PREFIX + |r.value| <= |data|
  {
    hide FromBigEndian;
    var minimum := |MAGIC| + HEADER_LENGTH_BYTES + NONCE_BYTES + TAG_BYTES;
    if |data| <= minimum { return Err("encrypted backup is truncated"); }
    if data[..|MAGIC|] != MAGIC { return Err("encrypted backup magic is invalid"); }
    var headerLength := FromBigEndian(data[|MAGIC|..PREFIX]);
    if headerLength <= 0 || headerLength > MAX_HEADER_BYTES { return Err("encrypted backup header length is invalid"); }
    if PREFIX + headerLength > |data| { return Err("encrypted backup header is truncated"); }
    r := Ok(data[PREFIX..PREFIX + headerLength]);
  }

  method DecryptFrom(data: Bytes, offset: nat, length: nat, c: Cipher) returns (plain: Bytes)
    requires offset + length <= |data|
    ensures plain == Unmasked(c, 0, data[offset..offset + length])
  {
    var handle := new Reader(data);
    handle.Seek(offset);
    plain := DecryptStream(handle, c, length);
  }

  /** What the ciphertext behind a header decrypts to. */
  function PlainOf<D>(suite: Suite<D>, data: Bytes, header: Bytes): Bytes
    requires PREFIX + |header| + TAG_BYTES <= |data| && suite.header(header).Some?
  {
    Unmasked(suite.cipher(suite.header(header).value.nonce), 0, data[PREFIX + |header|..|data| - TAG_BYTES])
  }

  /** The checks behind the framing, and the decryption. */
  method ReadBody<D(==)>(data: Bytes, suite: Suite<D>, header: Bytes) returns (r: Result<Evidence<D>>)
    requires PREFIX + |header| <= |data|
    ensures r.Ok? <==> Authentic(suite, data, header)
    ensures r.Ok? ==>
              var plain := PlainOf(suite, data, header);
              r.value == Evidence(|plain|, suite.digest(plain), |data|, header)
  {
    hide Unmasked;
    var size := |data|;
    if suite.header(header).None? { return Err("encrypted backup authenticated header is invalid"); }
    var facts := suite.header(header).value;
    var headerEnd := PREFIX + |header|;
    if size - headerEnd - TAG_BYTES <= 0 { return Err("encrypted backup ciphertext is truncated"); }
    var ciphertextLength := size - headerEnd - TAG_BYTES;
    if facts.keyId != suite.keyId { return Err("encrypted backup key id does not match the supplied key"); }
    var c := suite.cipher(facts.nonce);
    var tag := data[size - TAG_BYTES..];
    var plain := DecryptFrom(data, headerEnd, ciphertextLength, c);
    if tag != c.tag(data[..headerEnd], data[headerEnd..size - TAG_BYTES]) { return Err("invalid tag"); }
    if |plain| != facts.plaintextBytes || suite.digest(plain) != facts.plaintextDigest {
      return Err("encrypted backup does not reproduce authenticated plaintext evidence");
    }
    r := Ok(Evidence(|plain|, suite.digest(plain), size, header));
  }

  /** The reading half of `verify_encrypted`. */
  method ReadEncrypted<D(==)>(data: Bytes, suite: Suite<D>) returns (r: Result<Evidence<D>>)
    ensures r.Ok? <==> Accepted(suite, data)
    ensures r.Ok? ==>
              && Some(r.value.header) == HeaderOf(data)
              && var plain := PlainOf(suite, data, r.value.header);
                 r.value == Evidence(|plain|, suite.digest(plain), |data|, r.value.header)
  {
    hide HeaderOf, PlainOf;
    var framed := ReadHeader(data);
    if framed.Err? { return Err(framed.reason); }
    r := ReadBody(data, suite, framed.value);
  }

  /** The answer to a file: a report exactly on encryptions, of the header, length and digest that were
      encrypted.  Header and plaintext together must be longer than the nonce, which the size check counts
      although the file does not hold it; a header with all its fields always is. */
  ghost predicate Answers<D>(suite: Suite<D>, data: Bytes, r: Result<Evidence<D>>) {
    && (r.Ok? <==>
        exists header, plain :: Encrypts(suite, data, header, plain) && |header| + |plain| > 12)
    && (r.Ok? ==> exists plain :: Encrypts(suite, data, r.value.header, plain)
                                  && r.value == Evidence(|plain|, suite.digest(plain), |data|, r.value.header))
  }

  lemma ContainerEncrypts<D>(suite: Suite<D>, header: Bytes, facts: Header<D>, plain: Bytes)
    requires 0 < |header| <= MAX_HEADER_BYTES && plain != [] && suite.header(header) == Some(facts)
    requires facts.keyId == suite.keyId && facts.plaintextBytes == |plain| && facts.plaintextDigest == suite.digest(plain)
    ensures Encrypts(suite, Container(suite.cipher(facts.nonce), header, plain), header, plain)
  {
    hide Container;
  }

  /** Verifying an encryption reports exactly what was encrypted. */
  lemma RoundTrip<D>(suite: Suite<D>, header: Bytes, facts: Header<D>, plain: Bytes, r: Result<Evidence<D>>)
    requires SuiteOk(suite) && NONCE_BYTES < |header| <= MAX_HEADER_BYTES && plain != []
    requires suite.header(header) == Some(facts)
    requires facts.keyId == suite.keyId && facts.plaintextBytes == |plain| && facts.plaintextDigest == suite.digest(plain)
    requires Answers(suite, Container(suite.cipher(facts.nonce), header, plain), r)
    ensures r == Ok(Evidence(|plain|, suite.digest(plain), PREFIX + |header| + |plain| + TAG_BYTES, header))
  {
    var data := Container(suite.cipher(facts.nonce), header, plain);
    hide Encrypts, Container, HeaderOf, SuiteOk, Answers;
    ContainerEncrypts(suite, header, facts, plain);
    OneAnswer(suite, data, header, plain, r);
    EncryptedSize(suite, data, header, plain);
  }

  lemma OneAnswer<D>(suite: Suite<D>, data: Bytes, header: Bytes, plain: Bytes, r: Result<Evidence<D>>)
    requires SuiteOk(suite) && Encrypts(suite, data, header, plain) && |header| + |plain| > NONCE_BYTES
    requires Answers(suite, data, r)
    ensures r == Ok(Evidence(|plain|, suite.digest(plain), |data|, header))
  {
    hide Encrypts, SuiteOk;
    var plain' :| Encrypts(suite, data, r.value.header, plain')
                  && r.value == Evidence(|plain'|, suite.digest(plain'), |data|, r.value.header);
    EncryptsUnique(suite, data, header, plain, r.value.header, plain');
  }

  lemma EncryptedSize<D>(suite: Suite<D>, data: Bytes, header: Bytes, plain: Bytes)
    requires SuiteOk(suite) && Encrypts(suite, data, header, plain)
    ensures |data| == PREFIX + |header| + |plain| + TAG_BYTES
  {
    EncryptedShape(suite, data, header, plain);
  }

  /** `verify_encrypted` on the bytes of a file. */
  method VerifyEncrypted<D(==)>(data: Bytes, suite: Suite<D>) returns (r: Result<Evidence<D>>)
    requires SuiteOk(suite)
    ensures Answers(suite, data, r)
  {
    hide Encrypts, Accepted, SuiteOk, Unmasked;
    r := ReadEncrypted(data, suite);
    if r.Ok? {
      ghost var header, plain := AcceptedIsEncrypted(suite, data);
    } else {
      forall header, plain | Encrypts(suite, data, header, plain) && |header| + |plain| > NONCE_BYTES
        ensures false
      {
        EncryptedIsAccepted(suite, data, header, plain);
      }
    }
  }

  // ----- publication

  /** The directory: the SQL source, the public target, and whether the target was there before. */
  class Store {
    var source: Option<Bytes>
    var target: Option<Bytes>

    constructor (source: Option<Bytes>, target: Option<Bytes>)
      ensures this.source == source && this.target == target
    {
      this.source, this.target := source, target;
    }

    /** `encrypt_backup`.  Any file operation may fail, the source may be rewritten by somebody else
        after it was measured, and a rival may create the target before it is published.  `headerFor`
        is the canonical header of a measured source and the drawn `nonce`.  Whatever is published encrypts bytes of the
        measured length and digest, and only after the dump was restored on trial; a target that exists is never
        overwritten; the source goes only after the target is there for good. */
    method EncryptBackup<D(==)>(suite: Suite<D>, headerFor: (nat, D, Bytes) -> Bytes, nonce: Bytes, deleteSource: bool)
      returns (ok: bool, rival: Option<Bytes>, ghost rehearsed: bool, ghost durable: bool)
      requires SuiteOk(suite)
      modifies this
      ensures old(target).Some? ==> !ok && target == old(target)
      ensures rival.Some? ==> !ok && target == rival && source.Some?
      ensures target != old(target) && rival.None? ==>
                && old(source).Some? && old(source).value != []
                && var measured := old(source).value;
                   exists plain, header :: Encrypts(suite, target.value, header, plain)
                     && header == headerFor(|measured|, suite.digest(measured), nonce)
                     && |plain| == |measured| && suite.digest(plain) == suite.digest(measured)
      ensures target != old(target) && rival.None? ==> rehearsed
      ensures ok ==> target != old(target) && durable && (deleteSource ==> source.None?)
      ensures source.None? && old(source).Some? ==> deleteSource && target != old(target) && rival.None? && durable
    {
      hide Encrypts, SuiteOk;
      ok, rival, rehearsed, durable := false, None, false, false;
      if target.Some? || source.None? { return; }
      var measured := source.value;
      var restored: bool := *;
      rehearsed := restored;
      if measured == [] || !restored { return; }
      var sourceBytes, sourceDigest := |measured|, suite.digest(measured);
      var header := headerFor(sourceBytes, sourceDigest, nonce);
      if |header| > MAX_HEADER_BYTES { return; }
      var rewritten: bool := *;
      if rewritten {
        var other: Bytes := *;
        source := Some(other);
      }
      var sourceHandle := new Reader(source.value);
      var temporary := new Writer();
      EncryptStream(sourceHandle, temporary, suite.cipher(nonce), header);
      var observed := VerifyEncrypted(temporary.contents, suite);
      if observed.Err? { return; }
      if observed.value.plaintextDigest != sourceDigest || observed.value.plaintextBytes != sourceBytes
         || observed.value.header != header { return; }
      rival := *;
      target := rival;
      if target.Some? { return; }
      target := Some(temporary.contents);
      var synced: bool := *;
      durable := synced;
      if !synced { return; }
      if deleteSource {
        var removed: bool := *;
        if !removed { return; }
        source := None;
        synced := *;
        if !synced { return; }
      }
      ok := true;
    }
  }
}
