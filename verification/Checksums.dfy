/** The `checksum.sri` qualifier and the hexadecimal form in which checksums are compared. */
module Checksums {
  import opened Common
  import opened Qualifiers
  import opened Messages

  type Byte = b: int | 0 <= b < 256

  const CHECKSUM_SRI := "checksum.sri"

  /** An expected checksum: the hexadecimal digest wanted and the algorithm that computes it. */
  datatype Checksum = Checksum(algorithm: Algorithm, expected: string)

  /** Base64 decoding, and whether a digest function exists for an algorithm and a length of hexadecimal digits. */
  datatype Decoders = Decoders(base64: string -> Option<seq<Byte>>, supports: (Algorithm, nat) -> bool)

  // ---- Hexadecimal (section 8 of RFC 4648, in lower case) ----

  function HexDigit(n: nat): (c: char)
    requires n < 16
    ensures IsLowerHex(c)
  {
    if n < 10 then '0' + n as char else 'a' + (n - 10) as char
  }

  function EncodeHex(bytes: seq<Byte>): (s: string)
    ensures |s| == 2 * |bytes|
  {
    if bytes == [] then "" else [HexDigit(bytes[0] / 16), HexDigit(bytes[0] % 16)] + EncodeHex(bytes[1..])
  }

  lemma HexDigitInjective(m: nat, n: nat)
    requires m < 16 && n < 16
    ensures HexDigit(m) == HexDigit(n) <==> m == n
  {
  }

  /** Two hexadecimal forms are equal exactly when the bytes are. */
  lemma {:induction false} HexInjective(a: seq<Byte>, b: seq<Byte>)
    ensures EncodeHex(a) == EncodeHex(b) <==> a == b
  {
    if a != [] && b != [] {
      HexInjective(a[1..], b[1..]);
      HexDigitInjective(a[0] / 16, b[0] / 16);
      HexDigitInjective(a[0] % 16, b[0] % 16);
      var s, t := EncodeHex(a), EncodeHex(b);
      assert s[0] == HexDigit(a[0] / 16) && s[1] == HexDigit(a[0] % 16) && s[2..] == EncodeHex(a[1..]);
      assert t[0] == HexDigit(b[0] / 16) && t[1] == HexDigit(b[0] % 16) && t[2..] == EncodeHex(b[1..]);
      assert a == [a[0]] + a[1..] && b == [b[0]] + b[1..];
    }
  }

  /** Each byte is written as two digits, the higher half first. */
  lemma {:induction false} HexAt(bytes: seq<Byte>, i: nat)
    requires i < |bytes|
    ensures EncodeHex(bytes)[2 * i] == "0123456789abcdef"[bytes[i] / 16]
    ensures EncodeHex(bytes)[2 * i + 1] == "0123456789abcdef"[bytes[i] % 16]
  {
    if i > 0 {
      HexAt(bytes[1..], i - 1);
    }
  }

  // ---- Parsing ----

  function AlgorithmNamed(name: string): Option<Algorithm> {
    if name == "sha256" then Some(SHA256)
    else if name == "sha1" then Some(SHA1)
    else if name == "md5" then Some(MD5)
    else if name == "sha384" then Some(SHA384)
    else if name == "sha512" then Some(SHA512)
    else if name == "sha256tree" then Some(SHA256TREE)
    else None
  }

  /** The known names, told apart, with the number of hexadecimal digits of their digests. */
  lemma KnownAlgorithms(name: string)
    ensures AlgorithmNamed("md5").Some? && HashLength(AlgorithmNamed("md5").value) == 2 * 16
    ensures AlgorithmNamed("sha1").Some? && HashLength(AlgorithmNamed("sha1").value) == 2 * 20
    ensures AlgorithmNamed("sha256").Some? && HashLength(AlgorithmNamed("sha256").value) == 2 * 32
    ensures AlgorithmNamed("sha384").Some? && HashLength(AlgorithmNamed("sha384").value) == 2 * 48
    ensures AlgorithmNamed("sha512").Some? && HashLength(AlgorithmNamed("sha512").value) == 2 * 64
    ensures AlgorithmNamed("sha256tree").Some? && HashLength(AlgorithmNamed("sha256tree").value) == 2 * 32
    ensures AlgorithmNamed("sha256") == Some(SHA256) && AlgorithmNamed("sha256tree") == Some(SHA256TREE)
    ensures AlgorithmNamed(name).Some? <==> name in {"md5", "sha1", "sha256", "sha384", "sha512", "sha256tree"}
  {
  }

  lemma NamesToldApart(a: string, b: string)
    requires AlgorithmNamed(a).Some? && AlgorithmNamed(a) == AlgorithmNamed(b)
    ensures a == b
  {
  }

  /** Cuts a string at the first occurrence of a separator only. */
  function Cut(s: string, separator: char): Option<(string, string)> {
    if s == [] then None
    else if s[0] == separator then Some(([], s[1..]))
    else match Cut(s[1..], separator)
         case None => None
         case Some((before, after)) => Some(([s[0]] + before, after))
  }

  lemma {:induction false} CutAtFirst(s: string, separator: char)
    ensures match Cut(s, separator)
            case None => separator !in s
            case Some((before, after)) => s == before + [separator] + after && separator !in before
  {
    if s != [] {
      CutAtFirst(s[1..], separator);
      assert s == [s[0]] + s[1..];
    }
  }

  lemma {:induction false} CutBefore(before: string, separator: char, after: string)
    requires separator !in before
    ensures Cut(before + [separator] + after, separator) == Some((before, after))
  {
    var s := before + [separator] + after;
    if before != [] {
      CutBefore(before[1..], separator, after);
      assert s[1..] == before[1..] + [separator] + after;
      assert before == [before[0]] + before[1..];
    } else {
      assert s[1..] == after;
    }
  }

  /** The checksum that a qualifier value of the form `<algorithm>-<base64>` stands for. */
  function ParseSri(value: string, decoders: Decoders): Option<(Algorithm, seq<Byte>)> {
    match Cut(value, '-')
    case None => None
    case Some((name, base64)) =>
      match AlgorithmNamed(name)
      case None => None
      case Some(algorithm) =>
        match decoders.base64(base64)
        case None => None
        case Some(bytes) => if decoders.supports(algorithm, 2 * |bytes|) then Some((algorithm, bytes)) else None
  }

  /** Just these values are accepted: a known name before the first dash and decodable bytes of a supported length. */
  lemma ParseSriIff(value: string, decoders: Decoders, algorithm: Algorithm, bytes: seq<Byte>)
    ensures ParseSri(value, decoders) == Some((algorithm, bytes)) <==>
              exists name, base64 ::
                && value == name + "-" + base64 && '-' !in name && AlgorithmNamed(name) == Some(algorithm)
                && decoders.base64(base64) == Some(bytes) && decoders.supports(algorithm, 2 * |bytes|)
  {
    CutAtFirst(value, '-');
    if name, base64 :| value == name + "-" + base64 && '-' !in name && AlgorithmNamed(name) == Some(algorithm)
                       && decoders.base64(base64) == Some(bytes) && decoders.supports(algorithm, 2 * |bytes|) {
      CutBefore(name, '-', base64);
    }
  }

  /** The first qualifier of the name decides; later ones are not looked at. */
  function ChecksumOutcome(qs: seq<Qualifier>, decoders: Decoders): Result<Option<Checksum>> {
    match FirstNamed(qs, CHECKSUM_SRI)
    case None => Success(None)
    case Some(value) =>
      match ParseSri(value, decoders)
      case None => Failure(InvalidArgument)
      case Some((algorithm, bytes)) => Success(Some(Checksum(algorithm, EncodeHex(bytes))))
  }

  method GetChecksumSri(qualifiers: seq<Qualifier>, decoders: Decoders) returns (r: Result<Option<Checksum>>)
    ensures r == ChecksumOutcome(qualifiers, decoders)
  {
    for i := 0 to |qualifiers|
      invariant FirstNamed(qualifiers[..i], CHECKSUM_SRI).None?
    {
      FirstNamedPrefix(qualifiers, i, CHECKSUM_SRI);
      if qualifiers[i].name == CHECKSUM_SRI {
        var parts := Cut(qualifiers[i].value, '-');
        if parts.None? {
          return Failure(InvalidArgument);
        }
        var algorithm := AlgorithmNamed(parts.value.0);
        if algorithm.None? {
          return Failure(InvalidArgument);
        }
        var decoded := decoders.base64(parts.value.1);
        if decoded.None? {
          return Failure(InvalidArgument);
        }
        var expected := EncodeHex(decoded.value);
        if !decoders.supports(algorithm.value, |expected|) {
          return Failure(InvalidArgument);
        }
        return Success(Some(Checksum(algorithm.value, expected)));
      }
    }
    assert qualifiers[..|qualifiers|] == qualifiers;
    r := Success(None);
  }

  /** With several checksums the first one alone is checked and the request is not refused for the others. */
  lemma FirstChecksumWins(a: seq<Qualifier>, q: Qualifier, b: seq<Qualifier>, decoders: Decoders)
    requires q.name == CHECKSUM_SRI && forall r :: r in a ==> r.name != CHECKSUM_SRI
    ensures ChecksumOutcome(a + [q] + b, decoders) == ChecksumOutcome([q], decoders)
  {
    FirstNamedAppend(a, q, b);
    FirstNamedAppend([], q, []);
    assert [] + [q] + [] == [q];
  }

  /** A value written as `<algorithm>-<base64>` is read back as the algorithm and the bytes. */
  lemma SriRoundTrip(name: string, base64: string, decoders: Decoders)
    requires AlgorithmNamed(name).Some? && decoders.base64(base64).Some?
    requires decoders.supports(AlgorithmNamed(name).value, 2 * |decoders.base64(base64).value|)
    ensures ParseSri(name + "-" + base64, decoders) == Some((AlgorithmNamed(name).value, decoders.base64(base64).value))
  {
    CutBefore(name, '-', base64);
  }

  // ---- Comparison ----

  /** What the downloaded content must satisfy; an empty digest asks for nothing. */
  predicate Meets(checksum: Option<Checksum>, content: Wire, hash: (Algorithm, Wire) -> seq<Byte>) {
    checksum.None? || checksum.value.expected == ""
        || EncodeHex(hash(checksum.value.algorithm, content)) == checksum.value.expected
  }

  /** Content passes exactly when its hash equals the requested one byte for byte, or no bytes were requested. */
  lemma MeetsIffSameBytes(qs: seq<Qualifier>, content: Wire, decoders: Decoders, hash: (Algorithm, Wire) -> seq<Byte>)
    requires FirstNamed(qs, "checksum.sri").Some? && ChecksumOutcome(qs, decoders).Success?
    ensures ParseSri(FirstNamed(qs, "checksum.sri").value, decoders).Some?
    ensures var (algorithm, bytes) := ParseSri(FirstNamed(qs, "checksum.sri").value, decoders).value;
            Meets(ChecksumOutcome(qs, decoders).value, content, hash) <==>
                bytes == [] || hash(algorithm, content) == bytes
  {
    var (algorithm, bytes) := ParseSri(FirstNamed(qs, CHECKSUM_SRI).value, decoders).value;
    HexInjective(hash(algorithm, content), bytes);
  }
}
