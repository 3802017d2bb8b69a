// The signing pre-image: what the client signs and what the server recovers a signer from.
module Signing {
  import opened Types

  /* ----- decimal lengths ----- */

  // `{}` of a length: ASCII digits, most significant first.
  function Decimal(n: nat): Bytes {
    if n < 10 then [(48 + n) as byte]
    else Decimal(n / 10) + [(48 + n % 10) as byte]
  }

  function Number(digits: Bytes): int {
    if digits == [] then 0
    else 10 * Number(digits[..|digits| - 1]) + (digits[|digits| - 1] as int - 48)
  }

  lemma {:induction false} DecimalRoundTrip(n: nat)
    ensures Number(Decimal(n)) == n
    ensures |Decimal(n)| >= 1 && (Decimal(n)[0] == 48 ==> n == 0)
  {
    var d := Decimal(n);
    if n < 10 {
      assert d[..0] == [];
    } else {
      DecimalRoundTrip(n / 10);
      assert d[..|d| - 1] == Decimal(n / 10);
    }
  }

  lemma {:induction false} DecimalGrows(m: nat, n: nat)
    requires m <= n
    ensures |Decimal(m)| <= |Decimal(n)|
    decreases n
  {
    if n >= 10 && m >= 10 {
      DecimalGrows(m / 10, n / 10);
    } else if n >= 10 {
      DecimalRoundTrip(n / 10);
    }
  }

  /* ----- framing ----- */

  // "\x19Ethereum Signed Message:\n" in UTF-8; the second byte, 0x45, is the EIP-191 version.
  const SIGN_PREFIX: Bytes :=
    [0x19, 0x45, 0x74, 0x68, 0x65, 0x72, 0x65, 0x75, 0x6d, 0x20, 0x53, 0x69, 0x67, 0x6e, 0x65, 0x64,
     0x20, 0x4d, 0x65, 0x73, 0x73, 0x61, 0x67, 0x65, 0x3a, 0x0a]

  function Framed(prefix: Bytes, message: Bytes): Bytes {
    prefix + (Decimal(|message|) + message)
  }

  function PreImage(message: Bytes): Bytes {
    Framed(SIGN_PREFIX, message)
  }

  // The length digits are not delimited from the message, which may itself start with digits;
  // the total length still pins down where the message begins.
  lemma FramedInjective(prefix: Bytes, a: Bytes, b: Bytes)
    requires Framed(prefix, a) == Framed(prefix, b)
    ensures a == b
  {
    assert Framed(prefix, a)[|prefix|..] == Decimal(|a|) + a;
    assert Framed(prefix, b)[|prefix|..] == Decimal(|b|) + b;
    if |a| <= |b| {
      DecimalGrows(|a|, |b|);
    } else {
      DecimalGrows(|b|, |a|);
    }
    assert (Decimal(|a|) + a)[|Decimal(|a|)|..] == a;
    assert (Decimal(|b|) + b)[|Decimal(|b|)|..] == b;
  }

  // No two messages share a pre-image, so a signature over one is never one over the other
  // unless Keccak collides.
  lemma PreImageInjective(a: Bytes, b: Bytes)
    ensures PreImage(a) == PreImage(b) <==> a == b
  {
    if PreImage(a) == PreImage(b) {
      FramedInjective(SIGN_PREFIX, a, b);
    }
  }

  /* ----- what the framing is ----- */

  function Ascii(s: string): Bytes
    requires forall i :: 0 <= i < |s| ==> s[i] as int < 128
  {
    seq(|s|, i requires 0 <= i < |s| => s[i] as int as byte)
  }

  // The digits of `n` in base ten, without a leading zero.
  predicate IsNumeral(digits: Bytes, n: nat) {
    && digits != [] && (digits[0] == 48 ==> |digits| == 1)
    && (forall i :: 0 <= i < |digits| ==> 48 <= digits[i] <= 57)
    && Number(digits) == n
  }

  lemma {:induction false} NumberIsPositive(digits: Bytes)
    requires digits != [] && digits[0] != 48 && forall i :: 0 <= i < |digits| ==> 48 <= digits[i] <= 57
    ensures Number(digits) > 0
  {
    if |digits| > 1 {
      NumberIsPositive(digits[..|digits| - 1]);
    } else {
      assert digits[..0] == [];
    }
  }

  lemma {:induction false} DecimalIsNumeral(n: nat)
    ensures IsNumeral(Decimal(n), n)
  {
    DecimalRoundTrip(n);
    if n >= 10 {
      DecimalIsNumeral(n / 10);
    }
  }

  // A length has one numeral.
  lemma {:induction false} NumeralIsDecimal(digits: Bytes, n: nat)
    requires IsNumeral(digits, n)
    ensures digits == Decimal(n)
  {
    var front, last := digits[..|digits| - 1], digits[|digits| - 1];
    assert n == 10 * Number(front) + (last as int - 48);
    if front == [] {
      assert digits == [last];
    } else {
      NumberIsPositive(front);
      NumeralIsDecimal(front, Number(front));
      assert digits == front + [last];
    }
  }

  // It is the numeral one writes.
  lemma DecimalIsWritten()
    ensures Decimal(907) == Ascii("907")
  {
    assert Decimal(90) == Decimal(9) + [48];
    assert Decimal(907) == Decimal(90) + [55];
  }

  // The message of EIP-191, version 0x45: the text prefix, the length as a numeral, the message.
  ghost predicate IsPersonalMessage(bytes: Bytes, message: Bytes) {
    exists digits :: IsNumeral(digits, |message|) &&
                     bytes == Ascii("\U{19}Ethereum Signed Message:\n") + digits + message
  }

  lemma PrefixIsText()
    ensures SIGN_PREFIX == Ascii("\U{19}Ethereum Signed Message:\n")
  {
  }

  // Exactly that is what is hashed, for signing and for recovery alike.
  lemma PreImageIsPersonalMessage(bytes: Bytes, message: Bytes)
    ensures IsPersonalMessage(bytes, message) <==> bytes == PreImage(message)
  {
    PrefixIsText();
    DecimalIsNumeral(|message|);
    var digits := Decimal(|message|);
    assert SIGN_PREFIX + digits + message == PreImage(message);
    if IsPersonalMessage(bytes, message) {
      var other :| IsNumeral(other, |message|) && bytes == SIGN_PREFIX + other + message;
      NumeralIsDecimal(other, |message|);
    }
  }

  /* ----- the client ----- */

  // A local wallet: its address and its signing of a digest.
  datatype Wallet = Wallet(address: Address, sign: Bytes -> Option<Bytes>)

  // The one law of the signature scheme: recovering from what the wallet signed gives its address.
  ghost predicate RecoversAfterSigning(w: World, wallet: Wallet) {
    forall digest: Bytes :: wallet.sign(digest).Some? ==>
      w.recover(digest, wallet.sign(digest).value) == Some(wallet.address)
  }

  method SignBody(w: World, wallet: Wallet, encodedMessage: Bytes) returns (signature: Option<Bytes>)
    ensures signature == wallet.sign(w.keccak(PreImage(encodedMessage)))
    ensures exists hashed :: IsPersonalMessage(hashed, encodedMessage) && signature == wallet.sign(w.keccak(hashed))
  {
    PreImageIsPersonalMessage(PreImage(encodedMessage), encodedMessage);
    var prefixed := SIGN_PREFIX + Decimal(|encodedMessage|);
    prefixed := prefixed + encodedMessage;
    assert prefixed == PreImage(encodedMessage);
    var hash := w.keccak(prefixed);
    signature := wallet.sign(hash);
  }

  // The body can be encoded and the wallet signs it.
  predicate CanSign(w: World, wallet: Wallet, body: SignedBody) {
    w.encode(body).Some? && wallet.sign(w.keccak(PreImage(w.encode(body).value))).Some?
  }

  // The client labels its body as JSON but signs the binary encoding.
  method CreateProgramRequest(w: World, wallet: Wallet, vkHash: Bytes, vk: Bytes, programUri: string)
    returns (request: Option<Signed<CreateProgramBody>>)
    ensures request.Some? <==> CanSign(w, wallet, ProgramBody(CreateProgramBody(0, vkHash, vk, programUri)))
    ensures request.Some? ==>
              request.value.format == JSON == 2 &&
              request.value.body == Some(CreateProgramBody(0, vkHash, vk, programUri)) &&
              ClientSigned(w, wallet, ProgramBody(request.value.body.value), request.value.signature)
    ensures RecoversAfterSigning(w, wallet) && request.Some? ==>
              Signer(w, request.value.format, ProgramBody(request.value.body.value), request.value.signature)
              == Admitted(wallet.address)
  {
    var program := CreateProgramBody(0, vkHash, vk, programUri);
    var encoded := w.encode(ProgramBody(program));
    if encoded.None? {
      return None;
    }
    var signature := SignBody(w, wallet, encoded.value);
    if signature.None? {
      return None;
    }
    request := Some(Signed(JSON, signature.value, Some(program)));
  }

  ghost predicate ClientSigned(w: World, wallet: Wallet, body: SignedBody, signature: Bytes) {
    w.encode(body).Some? && wallet.sign(w.keccak(PreImage(w.encode(body).value))) == Some(signature)
  }

  /* ----- the server ----- */

  datatype MessageFormat = UnspecifiedFormat | BinaryFormat | JsonFormat

  function FormatFromWire(n: int): Option<MessageFormat> {
    if n == 0 then Some(UnspecifiedFormat)
    else if n == BINARY then Some(BinaryFormat)
    else if n == JSON then Some(JsonFormat)
    else None
  }

  // The server's choice of encoding: unknown formats count as binary, and formats other than
  // binary fall back to the binary encoding.
  function EncodeForSigning(w: World, format: int, body: SignedBody): Option<Bytes> {
    var fmt := if FormatFromWire(format).Some? then FormatFromWire(format).value else BinaryFormat;
    match fmt
    case BinaryFormat => w.encode(body)
    case _ => w.encode(body)
  }

  method EncodeBodyForSigning(w: World, format: int, body: SignedBody) returns (bytes: Option<Bytes>)
    ensures bytes == EncodeForSigning(w, format, body)
    ensures bytes == w.encode(body)
  {
    var fmt := FormatFromWire(format);
    if fmt.None? {
      fmt := Some(BinaryFormat);
    }
    if fmt.value.BinaryFormat? {
      bytes := w.encode(body);
    } else {
      bytes := w.encode(body);
    }
  }

  function RecoverSigner(w: World, message: Bytes, signature: Bytes): Option<Address> {
    w.recover(w.keccak(PreImage(message)), signature)
  }

  // The server recovers from the hash of the same message of EIP-191.
  lemma RecoversFromPersonalMessage(w: World, message: Bytes, signature: Bytes, hashed: Bytes)
    requires IsPersonalMessage(hashed, message)
    ensures RecoverSigner(w, message, signature) == w.recover(w.keccak(hashed), signature)
  {
    PreImageIsPersonalMessage(hashed, message);
  }

  // The address that a body and its signature name; nobody's if they name none.
  function Recovered(w: World, body: SignedBody, signature: Bytes): Bytes {
    match w.encode(body)
    case None => []
    case Some(encoded) =>
      match w.recover(w.keccak(PreImage(encoded)), signature)
      case None => []
      case Some(address) => address
  }

  datatype Admission = Admitted(signer: Bytes) | Refused(code: Code)

  // What the signed handlers do before they touch any state, for any format: a body that cannot
  // be encoded is the server's error, a signature that cannot be recovered the caller's, and an
  // accepted signer is an address.
  function Signer(w: World, format: int, body: SignedBody, signature: Bytes): (a: Admission)
    ensures a.Admitted? ==> |a.signer| == 20
    ensures a == Refused(Internal) <==> w.encode(body).None?
    ensures a == Refused(InvalidArgument) <==>
              w.encode(body).Some? && RecoverSigner(w, w.encode(body).value, signature).None?
  {
    var bytes := EncodeForSigning(w, format, body);
    if bytes.None? then Refused(Internal)
    else
      var signer := RecoverSigner(w, bytes.value, signature);
      if signer.None? then Refused(InvalidArgument) else Admitted(signer.value)
  }

  method Authenticate(w: World, format: int, body: SignedBody, signature: Bytes) returns (a: Admission)
    ensures a == Signer(w, format, body, signature)
  {
    var bytes := EncodeBodyForSigning(w, format, body);
    if bytes.None? {
      return Refused(Internal);
    }
    var signer := RecoverSigner(w, bytes.value, signature);
    if signer.None? {
      return Refused(InvalidArgument);
    }
    a := Admitted(signer.value);
  }

  // Whatever format the message claims, the server rebuilds the client's exact pre-image and
  // so recovers the client's address.
  lemma SignerIsClient(w: World, wallet: Wallet, format: int, body: SignedBody, signature: Bytes)
    requires RecoversAfterSigning(w, wallet)
    requires ClientSigned(w, wallet, body, signature)
    ensures Signer(w, format, body, signature) == Admitted(wallet.address)
  {
    var digest := w.keccak(PreImage(w.encode(body).value));
    assert wallet.sign(digest) == Some(signature);
  }
}
